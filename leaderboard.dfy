/**
 * Model of cogs/leaderboard.py: `compute_stats` reads the `alerts_data` map of
 * cogs/alerts.py and counts attacks, wins, losses and incomplete defences,
 * globally and per defender; `build_embed` ranks the defenders by number of
 * defences and keeps the top 20.
 */
module Leaderboard {

  import Alerts
  import Sets
  import MapSum
  import Ranking
  import Text

  const TopLimit := 20

  /** `global_stats`. */
  datatype GlobalStats = GlobalStats(attacks: nat, wins: nat, losses: nat, incomplete: nat)

  /** One entry of `players`. */
  datatype PlayerStats = PlayerStats(defenses: nat, wins: nat, losses: nat, incomplete: nat)

  /** Which alerts a counter counts. */
  datatype Filter = AnyAlert | WonOnly | LostOnly | IncompleteOnly

  predicate Passes(a: Alerts.Alert, f: Filter) {
    match f
    case AnyAlert => true
    case WonOnly => a.result == Alerts.Win
    case LostOnly => a.result == Alerts.Lose
    case IncompleteOnly => a.incomplete
  }

  /** The alerts among `ids` that pass the filter. */
  ghost function Tally(alerts: map<int, Alerts.Alert>, ids: set<int>, f: Filter): set<int> {
    set id | id in ids && id in alerts && Passes(alerts[id], f)
  }

  /** The alerts among `ids` that `user` defended and that pass the filter. */
  ghost function UserTally(alerts: map<int, Alerts.Alert>, ids: set<int>, user: int, f: Filter): set<int> {
    set id | id in ids && id in alerts && user in alerts[id].defenders && Passes(alerts[id], f)
  }

  /** The global counters over the alerts `ids`. */
  ghost function GlobalOf(alerts: map<int, Alerts.Alert>, ids: set<int>): GlobalStats {
    GlobalStats(|Tally(alerts, ids, AnyAlert)|, |Tally(alerts, ids, WonOnly)|,
                |Tally(alerts, ids, LostOnly)|, |Tally(alerts, ids, IncompleteOnly)|)
  }

  /** One player's counters over the alerts `ids`. */
  ghost function PlayerOf(alerts: map<int, Alerts.Alert>, ids: set<int>, user: int): PlayerStats {
    PlayerStats(|UserTally(alerts, ids, user, AnyAlert)|, |UserTally(alerts, ids, user, WonOnly)|,
                |UserTally(alerts, ids, user, LostOnly)|, |UserTally(alerts, ids, user, IncompleteOnly)|)
  }

  /** Each player's number of defences. */
  function Defenses(players: map<int, PlayerStats>): map<int, int> {
    map u | u in players :: players[u].defenses as int
  }

  /** Each alert's number of defenders, over the alerts `ids`. */
  ghost function Sizes(alerts: map<int, Alerts.Alert>, ids: set<int>): map<int, int> {
    map id | id in ids && id in alerts :: |alerts[id].defenders|
  }

  /** Adding one alert to the counted ones adds it to the tallies it passes. */
  lemma TallyAdd(alerts: map<int, Alerts.Alert>, ids: set<int>, k: int, f: Filter)
    requires k in alerts && k !in ids
    ensures |Tally(alerts, ids + {k}, f)| == |Tally(alerts, ids, f)| + if Passes(alerts[k], f) then 1 else 0
  {
    if Passes(alerts[k], f) {
      assert Tally(alerts, ids + {k}, f) == Tally(alerts, ids, f) + {k};
    } else {
      assert Tally(alerts, ids + {k}, f) == Tally(alerts, ids, f);
    }
  }

  /** Adding one alert to the counted ones adds it to the user's tallies it passes, if the user defended it. */
  lemma UserTallyAdd(alerts: map<int, Alerts.Alert>, ids: set<int>, k: int, user: int, f: Filter)
    requires k in alerts && k !in ids
    ensures |UserTally(alerts, ids + {k}, user, f)| ==
      |UserTally(alerts, ids, user, f)| + if user in alerts[k].defenders && Passes(alerts[k], f) then 1 else 0
  {
    if user in alerts[k].defenders && Passes(alerts[k], f) {
      assert UserTally(alerts, ids + {k}, user, f) == UserTally(alerts, ids, user, f) + {k};
    } else {
      assert UserTally(alerts, ids + {k}, user, f) == UserTally(alerts, ids, user, f);
    }
  }

  /** A filtered tally never exceeds the unfiltered one. */
  lemma UserTallyBound(alerts: map<int, Alerts.Alert>, ids: set<int>, user: int, f: Filter)
    ensures |UserTally(alerts, ids, user, f)| <= |UserTally(alerts, ids, user, AnyAlert)|
  {
    forall id | id in UserTally(alerts, ids, user, f) ensures id in UserTally(alerts, ids, user, AnyAlert) {
    }
    Sets.SubsetCard(UserTally(alerts, ids, user, f), UserTally(alerts, ids, user, AnyAlert));
  }

  /** A player's counters after one more alert they defended. */
  function Credit(p: PlayerStats, a: Alerts.Alert): PlayerStats {
    PlayerStats(p.defenses + 1,
                p.wins + (if a.result == Alerts.Win then 1 else 0),
                p.losses + (if a.result == Alerts.Lose then 1 else 0),
                p.incomplete + (if a.incomplete then 1 else 0))
  }

  /** The global counters after one more alert. */
  function CountAlert(g: GlobalStats, a: Alerts.Alert): GlobalStats {
    GlobalStats(g.attacks + 1,
                g.wins + (if a.result == Alerts.Win then 1 else 0),
                g.losses + (if a.result == Alerts.Lose then 1 else 0),
                g.incomplete + (if a.incomplete then 1 else 0))
  }

  /** Counting one more alert updates the global counters as `CountAlert` does. */
  lemma GlobalStep(alerts: map<int, Alerts.Alert>, ids: set<int>, k: int)
    requires k in alerts && k !in ids
    ensures GlobalOf(alerts, ids + {k}) == CountAlert(GlobalOf(alerts, ids), alerts[k])
  {
    TallyAdd(alerts, ids, k, AnyAlert);
    TallyAdd(alerts, ids, k, WonOnly);
    TallyAdd(alerts, ids, k, LostOnly);
    TallyAdd(alerts, ids, k, IncompleteOnly);
  }

  /** Counting one more alert credits each of its defenders as `Credit` does and nobody else. */
  lemma PlayerStep(alerts: map<int, Alerts.Alert>, ids: set<int>, k: int, user: int)
    requires k in alerts && k !in ids
    ensures user in alerts[k].defenders ==> PlayerOf(alerts, ids + {k}, user) == Credit(PlayerOf(alerts, ids, user), alerts[k])
    ensures user !in alerts[k].defenders ==> PlayerOf(alerts, ids + {k}, user) == PlayerOf(alerts, ids, user)
  {
    UserTallyAdd(alerts, ids, k, user, AnyAlert);
    UserTallyAdd(alerts, ids, k, user, WonOnly);
    UserTallyAdd(alerts, ids, k, user, LostOnly);
    UserTallyAdd(alerts, ids, k, user, IncompleteOnly);
  }

  /** A user who defended none of the alerts has all counters at zero. */
  lemma AbsentPlayer(alerts: map<int, Alerts.Alert>, ids: set<int>, user: int)
    requires |UserTally(alerts, ids, user, AnyAlert)| == 0
    ensures PlayerOf(alerts, ids, user) == PlayerStats(0, 0, 0, 0)
  {
    UserTallyBound(alerts, ids, user, WonOnly);
    UserTallyBound(alerts, ids, user, LostOnly);
    UserTallyBound(alerts, ids, user, IncompleteOnly);
  }

  /** Counting one more alert adds its defenders count to the total of the sizes. */
  lemma SizesAdd(alerts: map<int, Alerts.Alert>, ids: set<int>, k: int)
    requires k in alerts && k !in ids
    ensures MapSum.SumValues(Sizes(alerts, ids + {k})) == MapSum.SumValues(Sizes(alerts, ids)) + |alerts[k].defenders|
  {
    var m := Sizes(alerts, ids + {k});
    MapSum.SumRemove(m, k);
    assert m - {k} == Sizes(alerts, ids);
  }

  /**
   * Wins and losses are disjoint kinds of attack, and incomplete defences are
   * attacks too: wins + losses <= attacks and incomplete <= attacks.
   */
  lemma GlobalBounds(alerts: map<int, Alerts.Alert>, ids: set<int>)
    ensures GlobalOf(alerts, ids).wins + GlobalOf(alerts, ids).losses <= GlobalOf(alerts, ids).attacks
    ensures GlobalOf(alerts, ids).incomplete <= GlobalOf(alerts, ids).attacks
  {
    var any, won, lost, inc := Tally(alerts, ids, AnyAlert), Tally(alerts, ids, WonOnly), Tally(alerts, ids, LostOnly), Tally(alerts, ids, IncompleteOnly);
    forall id | id in won ensures id in any && id !in lost {
    }
    forall id | id in lost ensures id in any {
    }
    forall id | id in inc ensures id in any {
    }
    Sets.DisjointSubsetsCard(won, lost, any);
    Sets.SubsetCard(inc, any);
  }

  /** Per player: wins + losses <= defences and incomplete <= defences. */
  lemma PlayerBounds(alerts: map<int, Alerts.Alert>, ids: set<int>, user: int)
    ensures PlayerOf(alerts, ids, user).wins + PlayerOf(alerts, ids, user).losses <= PlayerOf(alerts, ids, user).defenses
    ensures PlayerOf(alerts, ids, user).incomplete <= PlayerOf(alerts, ids, user).defenses
  {
    var any, won, lost := UserTally(alerts, ids, user, AnyAlert), UserTally(alerts, ids, user, WonOnly), UserTally(alerts, ids, user, LostOnly);
    forall id | id in won ensures id in any && id !in lost {
    }
    forall id | id in lost ensures id in any {
    }
    Sets.DisjointSubsetsCard(won, lost, any);
    UserTallyBound(alerts, ids, user, IncompleteOnly);
  }

  /**
   * `compute_stats`: one pass over the alerts and, inside it, over each
   * alert's defenders. Every counter equals the number of alerts it describes;
   * a user is a player exactly when some alert lists them as defender; and the
   * players' defences add up to the sizes of all defender sets.
   */
  method ComputeStats(alerts: map<int, Alerts.Alert>) returns (g: GlobalStats, players: map<int, PlayerStats>)
    ensures Counted(alerts, alerts.Keys, g, players)
  {
    g := GlobalStats(0, 0, 0, 0);
    players := map[];
    var todo := alerts.Keys;
    ghost var done: set<int> := {};
    CountedEmpty(alerts);
    while todo != {}
      invariant todo <= alerts.Keys && done == alerts.Keys - todo
      invariant Counted(alerts, done, g, players)
      decreases |todo|
    {
      Sets.NonEmpty(todo);
      var k :| k in todo;
      g, players := CountOne(alerts, done, k, g, players);
      todo := todo - {k};
      done := done + {k};
    }
    assert done == alerts.Keys;
  }

  /** Before the loop nothing is counted: zero counters and no players. */
  lemma CountedEmpty(alerts: map<int, Alerts.Alert>)
    ensures Counted(alerts, {}, GlobalStats(0, 0, 0, 0), map[])
  {
    assert Sizes(alerts, {}) == map[];
    assert Defenses(map[]) == map[];
  }

  /** Every alert is an attack: over all alerts, `attacks` is the number of alerts. */
  lemma AttacksCountAll(alerts: map<int, Alerts.Alert>)
    ensures GlobalOf(alerts, alerts.Keys).attacks == |alerts|
  {
    forall id | id in alerts ensures id in Tally(alerts, alerts.Keys, AnyAlert) {
      assert Passes(alerts[id], AnyAlert);
    }
    assert Tally(alerts, alerts.Keys, AnyAlert) == alerts.Keys;
  }

  /** What the loop of `compute_stats` knows after counting the alerts `done`. */
  ghost predicate Counted(alerts: map<int, Alerts.Alert>, done: set<int>, g: GlobalStats, players: map<int, PlayerStats>) {
    && g == GlobalOf(alerts, done)
    && Describes(alerts, done, players)
    && MapSum.SumValues(Defenses(players)) == MapSum.SumValues(Sizes(alerts, done))
  }

  /** One iteration of the outer loop of `compute_stats`: alert `k` is counted globally and for each of its defenders. */
  method CountOne(alerts: map<int, Alerts.Alert>, ghost done: set<int>, k: int, g0: GlobalStats, players0: map<int, PlayerStats>)
    returns (g: GlobalStats, players: map<int, PlayerStats>)
    requires k in alerts && k !in done
    requires Counted(alerts, done, g0, players0)
    ensures Counted(alerts, done + {k}, g, players)
  {
    var data := alerts[k];
    g := g0.(attacks := g0.attacks + 1);
    if data.result == Alerts.Win {
      g := g.(wins := g.wins + 1);
    } else if data.result == Alerts.Lose {
      g := g.(losses := g.losses + 1);
    }
    if data.incomplete {
      g := g.(incomplete := g.incomplete + 1);
    }
    players := AddAlertDefenders(data, players0);
    StatsStep(alerts, done, k, g0, players0, players);
    SizesAdd(alerts, done, k);
  }

  /** Player `user`'s entry, or zeroes when absent (`players.setdefault`). */
  function Entry(players: map<int, PlayerStats>, user: int): PlayerStats {
    if user in players then players[user] else PlayerStats(0, 0, 0, 0)
  }

  /** `players` is `players0` with every user of `credited` credited once with alert `a`. */
  ghost predicate CreditedFrom(players0: map<int, PlayerStats>, credited: set<int>, a: Alerts.Alert, players: map<int, PlayerStats>) {
    && (forall u :: u in players <==> u in players0 || u in credited)
    && (forall u :: u in players ==> players[u] == if u in credited then Credit(Entry(players0, u), a) else players0[u])
  }

  /** The inner loop of `compute_stats`: credits the alert to each of its defenders. */
  method AddAlertDefenders(data: Alerts.Alert, players0: map<int, PlayerStats>) returns (players: map<int, PlayerStats>)
    ensures CreditedFrom(players0, data.defenders, data, players)
    ensures MapSum.SumValues(Defenses(players)) == MapSum.SumValues(Defenses(players0)) + |data.defenders|
  {
    players := players0;
    var todo := data.defenders;
    ghost var credited: set<int> := {};
    while todo != {}
      invariant todo <= data.defenders && credited == data.defenders - todo
      invariant CreditedFrom(players0, credited, data, players)
      invariant MapSum.SumValues(Defenses(players)) == MapSum.SumValues(Defenses(players0)) + |credited|
      decreases |todo|
    {
      Sets.NonEmpty(todo);
      var uid :| uid in todo;
      ghost var before := players;
      players := CreditDefender(players, uid, data);
      CreditedStep(players0, credited, data, before, uid);
      todo := todo - {uid};
      DefensesUpdate(before, uid, Credit(Entry(before, uid), data));
      credited := credited + {uid};
    }
  }

  /** Crediting one more user extends `CreditedFrom` by that user. */
  lemma CreditedStep(players0: map<int, PlayerStats>, credited: set<int>, a: Alerts.Alert, players: map<int, PlayerStats>, user: int)
    requires CreditedFrom(players0, credited, a, players)
    requires user !in credited
    ensures CreditedFrom(players0, credited + {user}, a, players[user := Credit(Entry(players, user), a)])
  {
  }

  /** `players` holds exactly the defenders of the alerts `ids`, each with the counters `PlayerOf` gives. */
  ghost predicate Describes(alerts: map<int, Alerts.Alert>, ids: set<int>, players: map<int, PlayerStats>) {
    && (forall u :: u in players <==> |UserTally(alerts, ids, u, AnyAlert)| > 0)
    && (forall u :: u in players ==> players[u] == PlayerOf(alerts, ids, u))
  }

  /** One iteration of the outer loop keeps the global counters and the players map exact. */
  lemma StatsStep(alerts: map<int, Alerts.Alert>, done: set<int>, k: int, g: GlobalStats, players: map<int, PlayerStats>, after: map<int, PlayerStats>)
    requires k in alerts && k !in done
    requires g == GlobalOf(alerts, done)
    requires Describes(alerts, done, players)
    requires CreditedFrom(players, alerts[k].defenders, alerts[k], after)
    ensures GlobalOf(alerts, done + {k}) == CountAlert(g, alerts[k])
    ensures Describes(alerts, done + {k}, after)
  {
    GlobalStep(alerts, done, k);
    forall u ensures u in after <==> |UserTally(alerts, done + {k}, u, AnyAlert)| > 0 {
      UserTallyAdd(alerts, done, k, u, AnyAlert);
    }
    forall u | u in after ensures after[u] == PlayerOf(alerts, done + {k}, u) {
      PlayerStep(alerts, done, k, u);
      if u !in players {
        AbsentPlayer(alerts, done, u);
      }
    }
  }

  /** One defender's update (`players.setdefault` and the increments). */
  method CreditDefender(players0: map<int, PlayerStats>, uid: int, data: Alerts.Alert) returns (players: map<int, PlayerStats>)
    ensures players == players0[uid := Credit(Entry(players0, uid), data)]
  {
    var p := if uid in players0 then players0[uid] else PlayerStats(0, 0, 0, 0);
    p := p.(defenses := p.defenses + 1);
    if data.result == Alerts.Win {
      p := p.(wins := p.wins + 1);
    } else if data.result == Alerts.Lose {
      p := p.(losses := p.losses + 1);
    }
    if data.incomplete {
      p := p.(incomplete := p.incomplete + 1);
    }
    players := players0[uid := p];
  }

  /** Replacing one player's entry changes the total of defences by the difference. */
  lemma DefensesUpdate(players: map<int, PlayerStats>, user: int, p: PlayerStats)
    ensures MapSum.SumValues(Defenses(players[user := p])) ==
      MapSum.SumValues(Defenses(players)) - (if user in players then players[user].defenses else 0) + p.defenses
  {
    MapSum.SumUpdate(Defenses(players), user, p.defenses);
    assert Defenses(players[user := p]) == Defenses(players)[user := p.defenses];
  }

  // ---------------- build_embed ----------------

  /** Everyone who defended at least one of the alerts. */
  ghost function Defenders(alerts: map<int, Alerts.Alert>): set<int> {
    set id, u | id in alerts && u in alerts[id].defenders :: u
  }

  /** A user is a defender exactly when their tally of defences is not zero. */
  lemma DefendersTally(alerts: map<int, Alerts.Alert>, u: int)
    ensures u in Defenders(alerts) <==> |UserTally(alerts, alerts.Keys, u, AnyAlert)| > 0
  {
    var t := UserTally(alerts, alerts.Keys, u, AnyAlert);
    if u in Defenders(alerts) {
      var id :| id in alerts && u in alerts[id].defenders;
      assert id in t;
    }
    if |t| > 0 {
      Sets.NonEmpty(t);
      var id :| id in t;
      assert u in Defenders(alerts);
    }
  }

  /** `**n**`, Markdown bold. */
  function Bold(n: nat): string {
    "**" + Text.NatToString(n) + "**"
  }

  /** The value of the "🌍 Global" field: four lines, one per counter. */
  function GlobalText(g: GlobalStats): string {
    Text.Join(["⚔️ Attaques reçues : " + Bold(g.attacks), "🏆 Victoires : " + Bold(g.wins),
               "❌ Défaites : " + Bold(g.losses), "😡 Défenses incomplètes : " + Bold(g.incomplete)], "\n")
  }

  /** The ranking line of the player at rank `rank` (from 1): its words separated by single spaces. */
  function PlayerLine(rank: nat, uid: int, p: PlayerStats): string
    requires rank >= 1
  {
    Ranking.RankPrefix(rank) + " " + Ranking.Mention(uid) + " — 🛡️ " + Text.NatToString(p.defenses)
      + " | 🏆 " + Text.NatToString(p.wins) + " | ❌ " + Text.NatToString(p.losses)
      + " | 😡 " + Text.NatToString(p.incomplete)
  }

  /** The counters of every defender, by the counting definition over all alerts. */
  ghost function PlayerTable(alerts: map<int, Alerts.Alert>): map<int, PlayerStats> {
    map u | u in Defenders(alerts) :: PlayerOf(alerts, alerts.Keys, u)
  }

  /** The lines for the ranked users, with the counters `PlayerOf` gives over all alerts. */
  ghost function Lines(alerts: map<int, Alerts.Alert>, ranked: seq<int>): seq<string> {
    Text.Tabulate(RankedLine(PlayerTable(alerts), ranked), |ranked|)
  }

  const NoDefence := "_Aucune défense enregistrée._"

  /**
   * `ranked` lists the top 20 defenders over all alerts by number of
   * defences, best first, each once; everyone left out has no more defences
   * than anyone listed.
   */
  ghost predicate TopDefenders(alerts: map<int, Alerts.Alert>, ranked: seq<int>) {
    && |ranked| == (if |Defenders(alerts)| < TopLimit then |Defenders(alerts)| else TopLimit)
    && (forall i :: 0 <= i < |ranked| ==> ranked[i] in Defenders(alerts))
    && (forall i, j :: 0 <= i < j < |ranked| ==> ranked[i] != ranked[j])
    && (forall i, j :: 0 <= i < j < |ranked| ==>
          PlayerOf(alerts, alerts.Keys, ranked[i]).defenses >= PlayerOf(alerts, alerts.Keys, ranked[j]).defenses)
    && (forall i, u :: 0 <= i < |ranked| && u in Defenders(alerts) && u !in ranked ==>
          PlayerOf(alerts, alerts.Keys, ranked[i]).defenses >= PlayerOf(alerts, alerts.Keys, u).defenses)
  }

  /** The ranking `compute_stats` + `sorted(...)[:20]` produce is the top 20 by the counting definition. */
  lemma RankingMeaning(alerts: map<int, Alerts.Alert>, players: map<int, PlayerStats>, ranked: seq<int>)
    requires Describes(alerts, alerts.Keys, players)
    requires |ranked| == if TopLimit < |Defenses(players)| then TopLimit else |Defenses(players)|
    requires forall i :: 0 <= i < |ranked| ==> ranked[i] in Defenses(players)
    requires forall i, j :: 0 <= i < j < |ranked| ==> ranked[i] != ranked[j]
    requires forall i, j :: 0 <= i < j < |ranked| ==> Defenses(players)[ranked[i]] >= Defenses(players)[ranked[j]]
    requires forall i, u :: 0 <= i < |ranked| && u in Defenses(players) && u !in ranked ==>
      Defenses(players)[ranked[i]] >= Defenses(players)[u]
    ensures players.Keys == Defenders(alerts)
    ensures TopDefenders(alerts, ranked)
    ensures ranked == [] <==> Defenders(alerts) == {}
  {
    forall u ensures u in players <==> u in Defenders(alerts) {
      DefendersTally(alerts, u);
    }
    assert players.Keys == Defenses(players).Keys;
  }

  /**
   * `build_embed`: the global field, then either the placeholder when nobody
   * defended anything, or the top 20 defenders, one line each. `ranked` is
   * the order of the listed users.
   */
  method BuildEmbed(alerts: map<int, Alerts.Alert>) returns (fields: seq<(string, string)>, ranked: seq<int>)
    ensures |fields| == 2 && fields[0] == ("🌍 Global", GlobalText(GlobalOf(alerts, alerts.Keys)))
    ensures TopDefenders(alerts, ranked)
    ensures ranked == [] <==> Defenders(alerts) == {}
    ensures ranked == [] ==> fields[1] == ("🛡️ Défenseurs", NoDefence)
    ensures ranked != [] ==> fields[1] == ("🛡️ Défenseurs (Top 20)", Text.Join(Lines(alerts, ranked), "\n"))
  {
    var g, players := ComputeStats(alerts);
    ranked := Ranking.Top(Defenses(players), TopLimit);
    RankingMeaning(alerts, players, ranked);
    fields := [("🌍 Global", GlobalText(g))];
    if ranked == [] {
      fields := fields + [("🛡️ Défenseurs", NoDefence)];
      return;
    }
    var lines := RenderLines(players, ranked);
    LinesMeaning(alerts, players, ranked, lines);
    fields := fields + [("🛡️ Défenseurs (Top 20)", Text.Join(lines, "\n"))];
  }

  /** The lines rendered from `players` are the lines of the counting definition. */
  lemma LinesMeaning(alerts: map<int, Alerts.Alert>, players: map<int, PlayerStats>, ranked: seq<int>, lines: seq<string>)
    requires Describes(alerts, alerts.Keys, players)
    requires players.Keys == Defenders(alerts)
    requires lines == Text.Tabulate(RankedLine(players, ranked), |ranked|)
    ensures lines == Lines(alerts, ranked)
  {
    assert players == PlayerTable(alerts);
  }

  /** Line `k` (counting from 0) of the ranking: the line of the `k + 1`-th ranked user. */
  function RankedLine(players: map<int, PlayerStats>, ranked: seq<int>): nat -> string {
    (k: nat) => if k < |ranked| && ranked[k] in players then PlayerLine(k + 1, ranked[k], players[ranked[k]]) else ""
  }

  /** The loop of `build_embed` that writes one line per ranked user. */
  method RenderLines(players: map<int, PlayerStats>, ranked: seq<int>) returns (lines: seq<string>)
    requires forall i :: 0 <= i < |ranked| ==> ranked[i] in players
    ensures lines == Text.Tabulate(RankedLine(players, ranked), |ranked|)
  {
    lines := [];
    for i := 0 to |ranked|
      invariant lines == Text.Tabulate(RankedLine(players, ranked), i)
    {
      lines := lines + [RankedLine(players, ranked)(i)];
    }
  }
}
