/**
 * Model of cogs/leaderboard_triggers.py: `compute_ranking` counts, per
 * author, the alerts of the `alerts_data` map of cogs/alerts.py;
 * `build_embed` ranks the authors by that count and keeps the top 20.
 */
module LeaderboardTriggers {

  import Alerts
  import Sets
  import MapSum
  import Ranking
  import Text

  const TopLimit := 20

  /** The alerts among `ids` whose author is `user`. */
  ghost function AuthoredBy(alerts: map<int, Alerts.Alert>, ids: set<int>, user: int): set<int> {
    set id | id in ids && id in alerts && alerts[id].author == user
  }

  /** Everyone who triggered at least one alert. */
  ghost function Authors(alerts: map<int, Alerts.Alert>): set<int> {
    set id | id in alerts :: alerts[id].author
  }

  /** `counts` holds, for exactly the authors of the alerts `ids`, how many of them each triggered. */
  ghost predicate Tallied(alerts: map<int, Alerts.Alert>, ids: set<int>, counts: map<int, int>) {
    && (forall u :: u in counts <==> |AuthoredBy(alerts, ids, u)| > 0)
    && (forall u :: u in counts ==> counts[u] == |AuthoredBy(alerts, ids, u)|)
  }

  /** What the loop of `compute_ranking` knows after counting the alerts `done`. */
  ghost predicate RankingSoFar(alerts: map<int, Alerts.Alert>, done: set<int>, counts: map<int, int>) {
    && Tallied(alerts, done, counts)
    && MapSum.SumValues(counts) == |done|
  }

  /**
   * `compute_ranking`: one pass over the alerts adding one to the author's
   * count. Each count is the number of alerts by that author, only authors
   * appear, and the counts add up to the number of alerts.
   */
  method ComputeRanking(alerts: map<int, Alerts.Alert>) returns (counts: map<int, int>)
    ensures Tallied(alerts, alerts.Keys, counts)
    ensures MapSum.SumValues(counts) == |alerts|
  {
    counts := map[];
    var todo := alerts.Keys;
    ghost var done: set<int> := {};
    RankingSoFarEmpty(alerts);
    while todo != {}
      invariant todo <= alerts.Keys && done == alerts.Keys - todo
      invariant RankingSoFar(alerts, done, counts)
      decreases |todo|
    {
      Sets.NonEmpty(todo);
      var k :| k in todo;
      ghost var counts0 := counts;
      var uid := alerts[k].author;
      counts := Bump(counts, uid);
      CountStep(alerts, done, k, counts0);
      todo := todo - {k};
      done := done + {k};
    }
    assert done == alerts.Keys;
  }

  /** `counts[uid] = counts.get(uid, 0) + 1`. */
  function Bump(counts: map<int, int>, uid: int): map<int, int> {
    counts[uid := (if uid in counts then counts[uid] else 0) + 1]
  }

  /** Before the loop nothing is counted. */
  lemma RankingSoFarEmpty(alerts: map<int, Alerts.Alert>)
    ensures RankingSoFar(alerts, {}, map[])
  {
    assert MapSum.SumValues(map[]) == 0;
  }

  /** One iteration of `compute_ranking` keeps the counts exact. */
  lemma CountStep(alerts: map<int, Alerts.Alert>, done: set<int>, k: int, counts: map<int, int>)
    requires k in alerts && k !in done
    requires RankingSoFar(alerts, done, counts)
    ensures RankingSoFar(alerts, done + {k}, Bump(counts, alerts[k].author))
  {
    var uid := alerts[k].author;
    var after := Bump(counts, uid);
    forall u ensures u in after <==> |AuthoredBy(alerts, done + {k}, u)| > 0
      ensures u in after ==> after[u] == |AuthoredBy(alerts, done + {k}, u)|
    {
      AuthoredAdd(alerts, done, k, u);
    }
    MapSum.SumUpdate(counts, uid, (if uid in counts then counts[uid] else 0) + 1);
  }

  /** Counting one more alert adds it to its author's alerts and to nobody else's. */
  lemma AuthoredAdd(alerts: map<int, Alerts.Alert>, ids: set<int>, k: int, user: int)
    requires k in alerts && k !in ids
    ensures |AuthoredBy(alerts, ids + {k}, user)| ==
      |AuthoredBy(alerts, ids, user)| + if alerts[k].author == user then 1 else 0
  {
    if alerts[k].author == user {
      assert AuthoredBy(alerts, ids + {k}, user) == AuthoredBy(alerts, ids, user) + {k};
    } else {
      assert AuthoredBy(alerts, ids + {k}, user) == AuthoredBy(alerts, ids, user);
    }
  }

  /** Every count present is at least one. */
  lemma CountsPositive(alerts: map<int, Alerts.Alert>, counts: map<int, int>, u: int)
    requires Tallied(alerts, alerts.Keys, counts)
    requires u in counts
    ensures counts[u] >= 1
  {
  }

  /** The counted users are exactly the authors; there are none exactly when there are no alerts. */
  lemma CountedAreAuthors(alerts: map<int, Alerts.Alert>, counts: map<int, int>)
    requires Tallied(alerts, alerts.Keys, counts)
    ensures counts.Keys == Authors(alerts)
    ensures counts == map[] <==> alerts == map[]
  {
    forall u ensures u in counts <==> u in Authors(alerts) {
      var t := AuthoredBy(alerts, alerts.Keys, u);
      if u in Authors(alerts) {
        var id :| id in alerts && alerts[id].author == u;
        assert id in t;
      }
      if |t| > 0 {
        Sets.NonEmpty(t);
        var id :| id in t;
        assert u in Authors(alerts);
      }
    }
    if alerts != map[] {
      Sets.NonEmpty(alerts.Keys);
      var id :| id in alerts;
      assert alerts[id].author in Authors(alerts);
    }
  }

  // ---------------- build_embed ----------------

  /** The number of alerts triggered by `user`. */
  ghost function AlertCount(alerts: map<int, Alerts.Alert>, user: int): nat {
    |AuthoredBy(alerts, alerts.Keys, user)|
  }

  /** The ranking line of the author at rank `rank` (from 1): its words separated by single spaces. */
  function TriggerLine(rank: nat, uid: int, count: int): string
    requires rank >= 1
  {
    Ranking.RankPrefix(rank) + " " + Ranking.Mention(uid) + " — 🚨 " + Text.IntToString(count)
  }

  /** The number of alerts of every author. */
  ghost function CountTable(alerts: map<int, Alerts.Alert>): map<int, int> {
    map u | u in Authors(alerts) :: AlertCount(alerts, u)
  }

  /** The lines for the ranked authors, with their alert counts. */
  ghost function Lines(alerts: map<int, Alerts.Alert>, ranked: seq<int>): seq<string> {
    Text.Tabulate(RankedLine(CountTable(alerts), ranked), |ranked|)
  }

  const NoAlert := "_Aucune alerte enregistrée._"

  /**
   * `ranked` lists the top 20 authors by number of alerts, best first, each
   * once; every author left out triggered no more alerts than anyone listed.
   */
  ghost predicate TopTriggers(alerts: map<int, Alerts.Alert>, ranked: seq<int>) {
    && |ranked| == (if |Authors(alerts)| < TopLimit then |Authors(alerts)| else TopLimit)
    && (forall i :: 0 <= i < |ranked| ==> ranked[i] in Authors(alerts))
    && (forall i, j :: 0 <= i < j < |ranked| ==> ranked[i] != ranked[j])
    && (forall i, j :: 0 <= i < j < |ranked| ==> AlertCount(alerts, ranked[i]) >= AlertCount(alerts, ranked[j]))
    && (forall i, u :: 0 <= i < |ranked| && u in Authors(alerts) && u !in ranked ==>
          AlertCount(alerts, ranked[i]) >= AlertCount(alerts, u))
  }

  /** The ranking of `counts` by `sorted(...)[:20]` is the top 20 by the counting definition. */
  lemma RankingMeaning(alerts: map<int, Alerts.Alert>, counts: map<int, int>, ranked: seq<int>)
    requires Tallied(alerts, alerts.Keys, counts)
    requires |ranked| == if TopLimit < |counts| then TopLimit else |counts|
    requires forall i :: 0 <= i < |ranked| ==> ranked[i] in counts
    requires forall i, j :: 0 <= i < j < |ranked| ==> ranked[i] != ranked[j]
    requires forall i, j :: 0 <= i < j < |ranked| ==> counts[ranked[i]] >= counts[ranked[j]]
    requires forall i, u :: 0 <= i < |ranked| && u in counts && u !in ranked ==> counts[ranked[i]] >= counts[u]
    ensures TopTriggers(alerts, ranked)
  {
    CountedAreAuthors(alerts, counts);
  }

  /** The lines rendered from `counts` are the lines of the counting definition. */
  lemma LinesMeaning(alerts: map<int, Alerts.Alert>, counts: map<int, int>, ranked: seq<int>, lines: seq<string>)
    requires Tallied(alerts, alerts.Keys, counts)
    requires counts.Keys == Authors(alerts)
    requires lines == Text.Tabulate(RankedLine(counts, ranked), |ranked|)
    ensures lines == Lines(alerts, ranked)
  {
    assert counts == CountTable(alerts);
  }

  /**
   * `build_embed`: one field, the placeholder when there is no alert at all,
   * otherwise the top 20 authors one line each. `ranked` is the order of the
   * listed users.
   */
  method BuildEmbed(alerts: map<int, Alerts.Alert>) returns (fields: seq<(string, string)>, ranked: seq<int>)
    ensures |fields| == 1
    ensures alerts == map[] ==> fields[0] == ("Classement", NoAlert) && ranked == []
    ensures alerts != map[] ==> fields[0] == ("Classement (Top 20)", Text.Join(Lines(alerts, ranked), "\n"))
    ensures TopTriggers(alerts, ranked)
  {
    var counts := ComputeRanking(alerts);
    CountedAreAuthors(alerts, counts);
    ranked := Ranking.Top(counts, TopLimit);
    RankingMeaning(alerts, counts, ranked);
    if counts == map[] {
      fields := [("Classement", NoAlert)];
      return;
    }
    var lines := RenderLines(counts, ranked);
    LinesMeaning(alerts, counts, ranked, lines);
    fields := [("Classement (Top 20)", Text.Join(lines, "\n"))];
  }

  /** Line `k` (counting from 0) of the ranking: the line of the `k + 1`-th ranked author. */
  function RankedLine(counts: map<int, int>, ranked: seq<int>): nat -> string {
    (k: nat) => if k < |ranked| && ranked[k] in counts then TriggerLine(k + 1, ranked[k], counts[ranked[k]]) else ""
  }

  /** The loop of `build_embed` that writes one line per ranked author. */
  method RenderLines(counts: map<int, int>, ranked: seq<int>) returns (lines: seq<string>)
    requires forall i :: 0 <= i < |ranked| ==> ranked[i] in counts
    ensures lines == Text.Tabulate(RankedLine(counts, ranked), |ranked|)
  {
    lines := [];
    for i := 0 to |ranked|
      invariant lines == Text.Tabulate(RankedLine(counts, ranked), i)
    {
      lines := lines + [RankedLine(counts, ranked)(i)];
    }
  }
}
