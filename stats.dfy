/**
 * Model of cogs/stats.py: the `/stats` embed of one player — the most active
 * hour bucket, the labels of the last defenses, the ratio's zero case, the
 * placeholder for a player without defenses, and the command's two refusals.
 */
module Stats {

  import opened Wrappers
  import Text

  const Win := "🏆"
  const Loss := "❌"
  /** Morning (6–10), day (10–18), evening (18–24), night (0–6). */
  const BucketLabels: seq<string> := ["🌅 Matin", "🌞 Journée", "🌙 Soir", "🌌 Nuit"]
  const NoActivity := "—"
  const NoRecent := "_Aucune défense trouvée_"
  const NotInGuild := "Commande à utiliser sur un serveur."
  const DatabaseError := "⚠️ Impossible de récupérer les stats (DB)."

  /**
   * `max(range(n), key=lambda i: h[i])`: the first index holding the largest
   * count (`max` keeps the earlier of equal elements).
   */
  function FirstMax(h: seq<int>): (k: nat)
    requires |h| > 0
    ensures k < |h|
    ensures forall j :: 0 <= j < |h| ==> h[j] <= h[k]
    ensures forall j :: 0 <= j < k ==> h[j] < h[k]
    decreases |h|
  {
    if |h| == 1 then 0
    else
      var k := FirstMax(h[..|h| - 1]);
      if h[|h| - 1] > h[k] then |h| - 1 else k
  }

  /** The index of the most active bucket, None when every count is zero (`any` is false). */
  function ActiveBucket(h: seq<int>): (r: Option<nat>)
    requires |h| == |BucketLabels|
    ensures r.None? <==> forall i :: 0 <= i < |h| ==> h[i] == 0
    ensures r.Some? ==> r.value < |h| && forall j :: 0 <= j < |h| ==> h[j] <= h[r.value]
    ensures r.Some? ==> forall j :: 0 <= j < r.value ==> h[j] < h[r.value]
  {
    if exists i :: 0 <= i < |h| && h[i] != 0 then Some(FirstMax(h)) else None
  }

  /** The text after "Joueur surtout actif : ". */
  function ActiveLabel(h: seq<int>): (r: string)
    requires |h| == |BucketLabels|
    ensures r == NoActivity <==> forall i :: 0 <= i < |h| ==> h[i] == 0
    ensures r != NoActivity ==> r == BucketLabels[ActiveBucket(h).value]
  {
    match ActiveBucket(h)
    case None => NoActivity
    case Some(k) => BucketLabels[k]
  }

  /** The result shown for a defense: only "win" and "loss" are results, anything else is still running. */
  function OutcomeLabel(outcome: string): (r: string)
    ensures r == Win + " Victoire" <==> outcome == "win"
    ensures r == Loss + " Défaite" <==> outcome == "loss"
    ensures r == "⏳ En cours" <==> outcome != "win" && outcome != "loss"
  {
    assert (Win + " Victoire")[0] != "⏳ En cours"[0] && (Loss + " Défaite")[0] != "⏳ En cours"[0];
    assert (Win + " Victoire")[0] != (Loss + " Défaite")[0];
    if outcome == "win" then Win + " Victoire"
    else if outcome == "loss" then Loss + " Défaite"
    else "⏳ En cours"
  }

  /** The retired spelling "lose" is not a loss. */
  lemma LoseIsRunning()
    ensures OutcomeLabel("lose") == "⏳ En cours"
  {
    assert "lose" != "loss" by { assert "lose"[3] != "loss"[3]; }
  }

  /** The ratio text when nobody won or lost; None stands for the formatted floating-point percentage. */
  function ZeroRatio(wins: int, losses: int): (r: Option<string>)
    ensures r.Some? <==> wins + losses == 0
    ensures r.Some? ==> r.value == "0%"
  {
    if wins + losses == 0 then Some("0%") else None
  }

  /** A recent defense: its date and time already written in Paris time, and its outcome. */
  datatype Recent = Recent(date: string, time: string, outcome: string)

  function RecentLine(d: Recent): (r: string)
    ensures Text.StartsWith(r, "• ")
  {
    "• " + d.date + " à " + d.time + " — " + OutcomeLabel(d.outcome)
  }

  /** The last-defenses field: one line per defense, or the placeholder when there is none. */
  function RecentBlock(recent: seq<Recent>): (r: string)
    ensures r == NoRecent <==> recent == []
    ensures recent != [] ==> r == Text.Join(seq(|recent|, i requires 0 <= i < |recent| => RecentLine(recent[i])), "\n")
  {
    if recent == [] then NoRecent
    else
      var lines := seq(|recent|, i requires 0 <= i < |recent| => RecentLine(recent[i]));
      JoinStartsWith(lines, "\n");
      assert !Text.StartsWith(NoRecent, "• ") by { assert NoRecent[0] != '•'; }
      Text.Join(lines, "\n")
  }

  /** A join of lines starts with the first line. */
  lemma {:induction false} JoinStartsWith(parts: seq<string>, sep: string)
    requires parts != []
    ensures Text.StartsWith(Text.Join(parts, sep), parts[0])
  {
    var j := Text.Join(parts, sep);
    if |parts| > 1 {
      assert j == parts[0] + (sep + Text.Join(parts[1..], sep));
      assert j[..|parts[0]|] == parts[0];
    }
  }

  /** What the database returns for a player: totals, up to three recent defenses, and the four hourly counts. */
  datatype PlayerData = PlayerData(defenses: int, pings: int, wins: int, losses: int,
                                   recent: seq<Recent>, hourly: seq<int>)

  /** The reply of `/stats`: an ephemeral refusal, or the embed's title and fields. */
  datatype Reply = Refusal(text: string) | Embed(title: string, fields: seq<(string, string)>)

  /**
   * `/stats`: outside a guild, or when the database fails (None), a
   * refusal; otherwise seven fields, the ratio left as None unless it is the
   * zero case.
   */
  function StatsReply(inGuild: bool, name: string, data: Option<PlayerData>): (r: Reply)
    requires data.Some? ==> |data.value.hourly| == |BucketLabels|
    ensures !inGuild ==> r == Refusal(NotInGuild)
    ensures inGuild && data.None? ==> r == Refusal(DatabaseError)
    ensures r.Embed? <==> inGuild && data.Some?
    ensures r.Embed? ==> |r.fields| == 7 && r.title == "📊 Stats de " + name
    ensures r.Embed? ==> r.fields[0].1 == Text.IntToString(data.value.defenses)
    ensures r.Embed? ==> r.fields[1].1 == Text.IntToString(data.value.pings)
    ensures r.Embed? ==> r.fields[2].1 == Text.IntToString(data.value.wins)
    ensures r.Embed? ==> r.fields[3].1 == Text.IntToString(data.value.losses)
    ensures r.Embed? && data.value.wins + data.value.losses == 0 ==> r.fields[4].1 == "0%"
    ensures r.Embed? ==> r.fields[5].1 == "Joueur surtout actif : " + ActiveLabel(data.value.hourly)
    ensures r.Embed? ==> r.fields[6].1 == RecentBlock(data.value.recent)
  {
    if !inGuild then Refusal(NotInGuild)
    else if data.None? then Refusal(DatabaseError)
    else
      var d := data.value;
      var ratio := ZeroRatio(d.wins, d.losses);
      Embed("📊 Stats de " + name, [
        ("🛡️ Défenses prises", Text.IntToString(d.defenses)),
        ("⚡ Pings envoyés", Text.IntToString(d.pings)),
        ("🏆 Victoires", Text.IntToString(d.wins)),
        ("❌ Défaites", Text.IntToString(d.losses)),
        ("📊 Ratio victoire", if ratio.Some? then ratio.value else "…"),
        ("🕒 Analyse des heures d’activité", "Joueur surtout actif : " + ActiveLabel(d.hourly)),
        ("🧾 3 dernières défenses prises", RecentBlock(d.recent))
      ])
  }
}
