/**
 * Model of cogs/snapshots.py: the framing of a snapshot message around its
 * JSON text, the extraction of that text back out of a message, the
 * newest-first scan that restores the latest snapshot, and the flag that
 * lets the restore run once per process. JSON itself stays abstract: the
 * scan takes the parser as a function parameter, and a parsed document is
 * reduced to the fields the restore reads.
 */
module Snapshots {

  import opened Wrappers
  import Text

  const SchemaVersion := 1
  /** `channel.history(limit=50)`. */
  const HistoryLimit := 50
  const Fence := "```"
  const JsonFence := "```json"
  /** The header line's text before the back-quoted timestamp. */
  const Title := "📦 Snapshot sauvegardé — "

  // ---------------- framing ----------------

  /** The message `snapshot_save` posts: a header line, then the JSON text in a json code fence. */
  function Frame(generatedAt: string, json: string): string {
    Title + "`" + generatedAt + "`\n" + JsonFence + "\n" + json + "\n" + Fence
  }

  /**
   * The text between the first "```json" and the next "```" after it,
   * stripped; None when there is no "```json" or no closing fence (the
   * ValueError the scan catches).
   */
  function Extract(content: string): (r: Option<string>)
    ensures r.Some? ==> exists i :: Text.OccursAt(content, JsonFence, i)
  {
    match Text.FindFrom(content, JsonFence, 0)
    case None => None
    case Some(i) =>
      match Text.FindFrom(content, Fence, i + |JsonFence|)
      case None => None
      case Some(j) => Some(Text.Strip(content[i + |JsonFence|..j]))
  }

  /**
   * What is extracted: nothing without a "```json"; nothing when no "```"
   * follows the first "```json" (the ValueError of `index`); otherwise the
   * stripped text between the first "```json" and the first "```" after it.
   */
  lemma ExtractSpec(content: string, i: nat, j: nat)
    ensures (forall k :: !Text.OccursAt(content, JsonFence, k)) ==> Extract(content) == None
    ensures Text.FirstFrom(content, JsonFence, 0, i) && (forall k :: i + |JsonFence| <= k ==> !Text.OccursAt(content, Fence, k)) ==>
      Extract(content) == None
    ensures Text.FirstFrom(content, JsonFence, 0, i) && Text.FirstFrom(content, Fence, i + |JsonFence|, j) ==>
      Extract(content) == Some(Text.Strip(content[i + |JsonFence|..j]))
  {
    if Text.FirstFrom(content, JsonFence, 0, i) {
      Text.FindFromFirst(content, JsonFence, 0, i);
      if Text.FirstFrom(content, Fence, i + |JsonFence|, j) {
        Text.FindFromFirst(content, Fence, i + |JsonFence|, j);
      }
    }
  }

  /** `s` contains no three backticks in a row. */
  predicate NoFence(s: string) {
    forall i :: 0 <= i && i + 2 < |s| ==> !(s[i] == '`' && s[i + 1] == '`' && s[i + 2] == '`')
  }

  /** `s` has no whitespace at either end (true of compact JSON). */
  predicate Trimmed(s: string) {
    s == [] || (!Text.IsSpace(s[0]) && !Text.IsSpace(s[|s| - 1]))
  }

  /**
   * Extraction inverts framing, for a timestamp without backticks and JSON
   * text that holds no "```" and no surrounding whitespace.
   */
  lemma ExtractFrame(generatedAt: string, json: string)
    requires forall i :: 0 <= i < |generatedAt| ==> generatedAt[i] != '`'
    requires NoFence(json) && Trimmed(json)
    ensures Extract(Frame(generatedAt, json)) == Some(json)
  {
    OpeningFence(generatedAt, json);
    ClosingFence(generatedAt, json);
    FramedBody(generatedAt, json);
    StripFramed(json);
  }

  /** Between the opening fence and the closing one lies the JSON on its own lines. */
  lemma FramedBody(generatedAt: string, json: string)
    ensures var start := |Title + "`" + generatedAt + "`\n"| + |JsonFence|;
      Frame(generatedAt, json)[start..start + |json| + 2] == "\n" + json + "\n"
  {
    var head := Title + "`" + generatedAt + "`\n" + JsonFence;
    var body := "\n" + json + "\n";
    assert Frame(generatedAt, json) == head + body + Fence;
    assert (head + body + Fence)[|head|..|head| + |body|] == body;
  }

  lemma TitleNoTicks()
    ensures forall i :: 0 <= i < |Title| ==> Title[i] != '`'
  {
  }

  /** The first "```json" of a framed message is the one that opens the JSON block. */
  lemma OpeningFence(generatedAt: string, json: string)
    requires forall i :: 0 <= i < |generatedAt| ==> generatedAt[i] != '`'
    ensures Text.FindFrom(Frame(generatedAt, json), JsonFence, 0) == Some(|Title + "`" + generatedAt + "`\n"|)
  {
    var head := Title + "`" + generatedAt + "`\n";
    var c := Frame(generatedAt, json);
    var p := |head|;
    assert c == head + (JsonFence + "\n" + json + "\n" + Fence);
    TitleNoTicks();
    var t := |Title|;
    forall i | 0 <= i < p ensures !Text.OccursAt(c, JsonFence, i) {
      assert c[p - 1] == '\n' && c[t] == '`';
      if i < t {
        assert c[i] == Title[i];
      } else if i == t {
        if generatedAt == [] {
          assert c[i + 2] == '\n';
        } else {
          assert c[i + 1] == generatedAt[0];
        }
      } else if i < p - 2 {
        assert c[i] == generatedAt[i - t - 1];
      }
    }
    assert c[p..p + |JsonFence|] == JsonFence;
    Text.FindFromFirst(c, JsonFence, 0, p);
  }

  /** After the opening fence, the next "```" is the closing one, right after the JSON text and a newline. */
  lemma ClosingFence(generatedAt: string, json: string)
    requires NoFence(json)
    ensures Text.FindFrom(Frame(generatedAt, json), Fence, |Title + "`" + generatedAt + "`\n"| + |JsonFence|) ==
      Some(|Title + "`" + generatedAt + "`\n"| + |JsonFence| + |json| + 2)
  {
    var head := Title + "`" + generatedAt + "`\n" + JsonFence;
    var c := Frame(generatedAt, json);
    var start := |head|;
    var e := start + 1 + |json|;
    assert c == head + ("\n" + json + "\n" + Fence);
    forall i | start <= i < e + 1 ensures !Text.OccursAt(c, Fence, i) {
      assert c[start] == '\n' && c[e] == '\n';
      if start < i && i + 2 < e {
        assert c[i] == json[i - start - 1] && c[i + 1] == json[i - start] && c[i + 2] == json[i - start + 1];
      }
    }
    assert c[e + 1..e + 1 + |Fence|] == Fence;
    Text.FindFromFirst(c, Fence, start, e + 1);
  }

  /** Stripping the newlines the framing puts around trimmed text gives the text back. */
  lemma StripFramed(json: string)
    requires Trimmed(json)
    ensures Text.Strip("\n" + json + "\n") == json
  {
    var s := "\n" + json + "\n";
    assert s[1..] == json + "\n";
    if json == [] {
      assert s[1..][1..] == [];
      assert Text.TrimStart(s[1..]) == Text.TrimStart(s[1..][1..]);
      assert Text.TrimStart(s) == Text.TrimStart(s[1..]);
    } else {
      assert Text.TrimStart(s) == Text.TrimStart(json + "\n") == json + "\n";
      assert (json + "\n")[..|json|] == json;
      assert Text.TrimEnd(json + "\n") == Text.TrimEnd(json) == json;
    }
  }

  // ---------------- payload ----------------

  /** The part of the saved payload that the restore reads back (the aggregates come from functions storage.py lacks). */
  datatype Payload = Payload(schemaVersion: int, guildId: int, generatedAt: string,
                             defenseByUser: map<int, int>, pingByUser: map<int, int>)

  /** The payload `snapshot_save` builds for a guild from its two leaderboard tables. */
  function SavePayload(guildId: int, generatedAt: string, defense: map<int, int>, ping: map<int, int>): (p: Payload)
    ensures p.schemaVersion == SchemaVersion && p.guildId == guildId
    ensures p.defenseByUser == defense && p.pingByUser == ping
  {
    Payload(SchemaVersion, guildId, generatedAt, defense, ping)
  }

  /**
   * A parsed JSON object, reduced to what the restore reads: whether it has
   * any key at all, its "guild_id" (None when absent) and the items of its two
   * counter objects in document order, with the keys as JSON strings.
   */
  datatype Doc = Doc(hasKeys: bool, guildId: Option<int>,
                     defenseByUser: seq<(string, int)>, pingByUser: seq<(string, int)>)

  /**
   * `items` is `m` written as a JSON object: the entry for `order[i]` at
   * position `i`, its key written by `str`, and every key of `m` in `order`
   * (the dictionary's insertion order).
   */
  ghost predicate ItemsOf(items: seq<(string, int)>, order: seq<int>, m: map<int, int>) {
    && |items| == |order|
    && (forall i :: 0 <= i < |order| ==> order[i] in m && items[i] == (Text.IntToString(order[i]), m[order[i]]))
    && (forall k :: k in m ==> k in order)
  }

  /** `doc` is what `json.loads(json.dumps(p))` gives back, the counters having been written in the given orders. */
  ghost predicate Encodes(doc: Doc, p: Payload, defenseOrder: seq<int>, pingOrder: seq<int>) {
    && doc.hasKeys
    && doc.guildId == Some(p.guildId)
    && ItemsOf(doc.defenseByUser, defenseOrder, p.defenseByUser)
    && ItemsOf(doc.pingByUser, pingOrder, p.pingByUser)
  }

  /**
   * `{int(k): int(v) for k, v in items}`: later items overwrite earlier ones
   * with the same integer key; None when a key is not an integer (ValueError).
   */
  function IntKeys(items: seq<(string, int)>): Option<map<int, int>>
    decreases |items|
  {
    if items == [] then Some(map[])
    else
      var last := items[|items| - 1];
      match (IntKeys(items[..|items| - 1]), Text.ParseInt(last.0))
      case (Some(m), Some(k)) => Some(m[k := last.1])
      case _ => None
  }

  /** No later item reads as the same key as item `i`. */
  predicate LastWithKey(items: seq<(string, int)>, i: int)
    requires 0 <= i < |items|
  {
    forall j :: i < j < |items| ==> Text.ParseInt(items[j].0) != Text.ParseInt(items[i].0)
  }

  /**
   * The conversion succeeds exactly when every key is an integer; then its
   * keys are the integers read, each with the value of the last item that
   * reads as it.
   */
  lemma IntKeysSpec(items: seq<(string, int)>)
    ensures IntKeys(items).Some? <==> forall i :: 0 <= i < |items| ==> Text.ParseInt(items[i].0).Some?
    ensures IntKeys(items).Some? ==>
      forall i :: 0 <= i < |items| ==> Text.ParseInt(items[i].0).value in IntKeys(items).value
    ensures IntKeys(items).Some? ==>
      forall k :: k in IntKeys(items).value ==>
        exists i :: 0 <= i < |items| && Text.ParseInt(items[i].0) == Some(k) && IntKeys(items).value[k] == items[i].1
    ensures IntKeys(items).Some? ==>
      forall i :: 0 <= i < |items| && LastWithKey(items, i) ==>
        IntKeys(items).value[Text.ParseInt(items[i].0).value] == items[i].1
  {
    IntKeysDefined(items);
    IntKeysFrom(items);
    IntKeysLast(items);
  }

  /** The conversion succeeds exactly when every key reads, and then holds every key read. */
  lemma {:induction false} IntKeysDefined(items: seq<(string, int)>)
    ensures IntKeys(items).Some? <==> forall i :: 0 <= i < |items| ==> Text.ParseInt(items[i].0).Some?
    ensures IntKeys(items).Some? ==>
      forall i :: 0 <= i < |items| ==> Text.ParseInt(items[i].0).value in IntKeys(items).value
    decreases |items|
  {
    if items != [] {
      var n := |items| - 1;
      var init := items[..n];
      IntKeysDefined(init);
      assert forall i :: 0 <= i < n ==> items[i] == init[i];
    }
  }

  /** Every key of the converted map comes from an item that reads as it, with that item's value. */
  lemma {:induction false} IntKeysFrom(items: seq<(string, int)>)
    ensures IntKeys(items).Some? ==>
      forall k :: k in IntKeys(items).value ==>
        exists i :: 0 <= i < |items| && Text.ParseInt(items[i].0) == Some(k) && IntKeys(items).value[k] == items[i].1
    decreases |items|
  {
    if items != [] && IntKeys(items).Some? {
      var n := |items| - 1;
      var init := items[..n];
      IntKeysFrom(init);
      var m := IntKeys(init).value;
      var k := Text.ParseInt(items[n].0).value;
      assert IntKeys(items).value == m[k := items[n].1];
      forall j | j in IntKeys(items).value
        ensures exists i :: 0 <= i < |items| && Text.ParseInt(items[i].0) == Some(j) && IntKeys(items).value[j] == items[i].1
      {
        if j != k {
          var i :| 0 <= i < n && Text.ParseInt(init[i].0) == Some(j) && m[j] == init[i].1;
          assert items[i] == init[i];
        }
      }
    }
  }

  /** A later duplicate key wins: a key holds the value of the last item that reads as it. */
  lemma {:induction false} IntKeysLast(items: seq<(string, int)>)
    ensures IntKeys(items).Some? ==>
      forall i :: 0 <= i < |items| && LastWithKey(items, i) ==>
        && Text.ParseInt(items[i].0).Some?
        && Text.ParseInt(items[i].0).value in IntKeys(items).value
        && IntKeys(items).value[Text.ParseInt(items[i].0).value] == items[i].1
    decreases |items|
  {
    if items != [] && IntKeys(items).Some? {
      var n := |items| - 1;
      var init := items[..n];
      IntKeysLast(init);
      IntKeysDefined(init);
      var m := IntKeys(init).value;
      var k := Text.ParseInt(items[n].0).value;
      assert IntKeys(items).value == m[k := items[n].1];
      forall i | 0 <= i < |items| && LastWithKey(items, i)
        ensures && Text.ParseInt(items[i].0).Some?
                && Text.ParseInt(items[i].0).value in IntKeys(items).value
                && IntKeys(items).value[Text.ParseInt(items[i].0).value] == items[i].1
      {
        if i < n {
          assert items[i] == init[i];
          assert Text.ParseInt(items[n].0) != Text.ParseInt(items[i].0);
          assert LastWithKey(init, i) by {
            forall j | i < j < n ensures Text.ParseInt(init[j].0) != Text.ParseInt(init[i].0) {
              assert items[j] == init[j];
            }
          }
        }
      }
    }
  }

  /** Writing the counters as JSON object items and converting them back gives the counters back. */
  lemma IntKeysItemsOf(items: seq<(string, int)>, order: seq<int>, m: map<int, int>)
    requires ItemsOf(items, order, m)
    ensures IntKeys(items) == Some(m)
  {
    forall i | 0 <= i < |items| ensures Text.ParseInt(items[i].0) == Some(order[i]) {
      Text.ParseIntRoundTrip(order[i]);
    }
    IntKeysSpec(items);
    var r := IntKeys(items).value;
    forall k | k in m ensures k in r {
      var i :| 0 <= i < |order| && order[i] == k;
      assert Text.ParseInt(items[i].0).value == k;
    }
    forall k | k in r ensures k in m && r[k] == m[k] {
      var i :| 0 <= i < |items| && Text.ParseInt(items[i].0) == Some(k) && r[k] == items[i].1;
      assert order[i] == k;
    }
    assert r == m;
  }

  /**
   * What `_restore_latest_for_guild` does with the document the scan selected.
   * `defense` and `ping` are None where the conversion raised; the aggregates
   * are seeded first in every `Seeded` case.
   */
  datatype Restore =
    | NothingToRestore
    | OtherGuild
    | Seeded(guildId: int, defense: Option<map<int, int>>, ping: Option<map<int, int>>)

  /**
   * No document, or an empty object, seeds nothing; another guild's snapshot
   * (an absent "guild_id" reads as 0) seeds nothing; otherwise the counters
   * are seeded in turn, and a failed defense conversion stops before the ping one.
   */
  function RestoreFrom(latest: Option<Doc>, guildId: int): (r: Restore)
    ensures latest.None? || !latest.value.hasKeys ==> r == NothingToRestore
    ensures latest.Some? && latest.value.hasKeys && latest.value.guildId.GetOr(0) != guildId ==> r == OtherGuild
    ensures r.Seeded? <==> latest.Some? && latest.value.hasKeys && latest.value.guildId.GetOr(0) == guildId
    ensures r.Seeded? ==> r.guildId == guildId
    ensures r.Seeded? ==> r.defense == IntKeys(latest.value.defenseByUser)
    ensures r.Seeded? ==> r.ping == if r.defense.None? then None else IntKeys(latest.value.pingByUser)
  {
    if latest.None? || !latest.value.hasKeys then NothingToRestore
    else if latest.value.guildId.GetOr(0) != guildId then OtherGuild
    else
      var defense := IntKeys(latest.value.defenseByUser);
      Seeded(guildId, defense, if defense.None? then None else IntKeys(latest.value.pingByUser))
  }

  /** A saved snapshot, read back for its own guild, seeds exactly the saved counters. */
  lemma SaveRestore(doc: Doc, guildId: int, generatedAt: string, defense: map<int, int>, ping: map<int, int>,
                    defenseOrder: seq<int>, pingOrder: seq<int>)
    requires Encodes(doc, SavePayload(guildId, generatedAt, defense, ping), defenseOrder, pingOrder)
    ensures RestoreFrom(Some(doc), guildId) == Seeded(guildId, Some(defense), Some(ping))
  {
    IntKeysItemsOf(doc.defenseByUser, defenseOrder, defense);
    IntKeysItemsOf(doc.pingByUser, pingOrder, ping);
  }

  // ---------------- the scan ----------------

  /** A channel message as the scan sees it. */
  datatype Message = Message(authorId: int, content: string)

  /**
   * The document a message yields: None when it is skipped (not the bot's,
   * empty, no block, no closing fence) or when `parse` (json.loads) raises.
   */
  function Candidate(m: Message, botId: int, parse: string -> Option<Doc>): Option<Doc> {
    if m.authorId != botId || m.content == [] then None
    else
      match Extract(m.content)
      case None => None
      case Some(text) => parse(text)
  }

  /** The documents the messages yield, in order. */
  function Candidates(history: seq<Message>, botId: int, parse: string -> Option<Doc>): (cs: seq<Option<Doc>>)
    ensures |cs| == |history|
    ensures forall i :: 0 <= i < |history| ==> cs[i] == Candidate(history[i], botId, parse)
  {
    seq(|history|, i requires 0 <= i < |history| => Candidate(history[i], botId, parse))
  }

  /** The first present value of `s`. */
  function FirstSome<T>(s: seq<Option<T>>): Option<T>
    decreases |s|
  {
    if s == [] then None
    else if s[0].Some? then s[0]
    else FirstSome(s[1..])
  }

  /** `FirstSome` is None exactly when nothing is present, and otherwise the first present value. */
  lemma {:induction false} FirstSomeSpec<T>(s: seq<Option<T>>)
    ensures FirstSome(s).None? <==> forall i :: 0 <= i < |s| ==> s[i].None?
    ensures FirstSome(s).Some? ==>
      exists i :: 0 <= i < |s| && FirstSome(s) == s[i] && forall j :: 0 <= j < i ==> s[j].None?
    decreases |s|
  {
    if s != [] && s[0].None? {
      var rest := s[1..];
      FirstSomeSpec(rest);
      assert forall i :: 0 < i < |s| ==> s[i] == rest[i - 1];
      if FirstSome(rest).Some? {
        var i :| 0 <= i < |rest| && FirstSome(rest) == rest[i] && forall j :: 0 <= j < i ==> rest[j].None?;
        assert s[i + 1] == rest[i];
      }
    }
  }

  /** The messages `channel.history(limit=50)` yields: the 50 newest, newest first. */
  function Recent(history: seq<Message>): (r: seq<Message>)
    ensures |r| <= HistoryLimit && |r| <= |history| && r == history[..|r|]
    ensures |history| >= HistoryLimit ==> |r| == HistoryLimit
    ensures |history| < HistoryLimit ==> r == history
  {
    if |history| < HistoryLimit then history else history[..HistoryLimit]
  }

  /**
   * The loop of `_restore_latest_for_guild`: over the 50 newest messages,
   * newest first, stop at the first one that yields a document.
   */
  method ScanHistory(history: seq<Message>, botId: int, parse: string -> Option<Doc>) returns (latest: Option<Doc>)
    ensures latest == ScanResult(history, botId, parse)
  {
    var recent := Recent(history);
    ghost var cs := Candidates(recent, botId, parse);
    latest := None;
    var i := 0;
    while i < |recent|
      invariant 0 <= i <= |recent|
      invariant FirstSome(cs) == FirstSome(cs[i..])
    {
      var m := recent[i];
      assert cs[i..][1..] == cs[i + 1..];
      assert cs[i] == Candidate(m, botId, parse);
      if m.authorId != botId || m.content == [] {
        i := i + 1;
        continue;
      }
      var text := Extract(m.content);
      if text.Some? {
        var doc := parse(text.value);
        if doc.Some? {
          latest := doc;
          return;
        }
      }
      i := i + 1;
    }
  }

  // ---------------- snapshot_save and the round trip ----------------

  const MissingConfig := "⚠️ Configuration manquante."
  const ChannelNotFound := "Canal snapshots introuvable."
  const SavedReply := "✅ Snapshot envoyé dans le canal dédié."

  /** What `snapshot_save` does: the ephemeral reply, and the message posted to the snapshot channel if any. */
  datatype SaveOutcome = SaveOutcome(reply: string, posted: Option<string>)

  /**
   * `snapshot_save`: without a configuration, or without the configured
   * text channel, it only replies; otherwise it posts the framed JSON text
   * `json` of the payload and confirms.
   */
  function SnapshotSave(hasConfig: bool, channelFound: bool, generatedAt: string, json: string): (r: SaveOutcome)
    ensures !hasConfig ==> r == SaveOutcome(MissingConfig, None)
    ensures hasConfig && !channelFound ==> r == SaveOutcome(ChannelNotFound, None)
    ensures r.posted.Some? <==> hasConfig && channelFound
    ensures r.posted.Some? ==> r.reply == SavedReply && r.posted.value == Frame(generatedAt, json)
  {
    if !hasConfig then SaveOutcome(MissingConfig, None)
    else if !channelFound then SaveOutcome(ChannelNotFound, None)
    else SaveOutcome(SavedReply, Some(Frame(generatedAt, json)))
  }

  /**
   * Save, then restore: when the newest message of the snapshot channel is
   * the bot's post of a snapshot whose JSON text parses back to the saved
   * payload, the restore for that guild seeds exactly the saved counters,
   * and the restore for any other guild seeds nothing.
   */
  lemma SaveThenRestore(history: seq<Message>, botId: int, parse: string -> Option<Doc>,
                        guildId: int, generatedAt: string, json: string, doc: Doc,
                        defense: map<int, int>, ping: map<int, int>, defenseOrder: seq<int>, pingOrder: seq<int>)
    requires forall i :: 0 <= i < |generatedAt| ==> generatedAt[i] != '`'
    requires NoFence(json) && Trimmed(json)
    requires parse(json) == Some(doc)
    requires Encodes(doc, SavePayload(guildId, generatedAt, defense, ping), defenseOrder, pingOrder)
    requires history != [] && history[0] == Message(botId, SnapshotSave(true, true, generatedAt, json).posted.value)
    ensures RestoreFrom(ScanResult(history, botId, parse), guildId) == Seeded(guildId, Some(defense), Some(ping))
    ensures forall other :: other != guildId ==> RestoreFrom(ScanResult(history, botId, parse), other) == OtherGuild
  {
    ExtractFrame(generatedAt, json);
    var cs := Candidates(Recent(history), botId, parse);
    assert cs[0] == Some(doc);
    SaveRestore(doc, guildId, generatedAt, defense, ping, defenseOrder, pingOrder);
  }

  /** The document the scan of `history` selects (what `ScanHistory` returns). */
  function ScanResult(history: seq<Message>, botId: int, parse: string -> Option<Doc>): Option<Doc> {
    FirstSome(Candidates(Recent(history), botId, parse))
  }

  // ---------------- the run-once guard ----------------

  class SnapshotsCog {
    var restoredOnce: bool

    constructor ()
      ensures !restoredOnce
    {
      restoredOnce := false;
    }

    /**
     * `on_ready`: the first call restores, in order, every guild that has a
     * configuration; later calls restore nothing. `raising` holds the guilds
     * whose restore raises (`RestoreFrom` gives `Seeded` with a counter map
     * that failed to convert, the `int(k)` ValueError); such an exception
     * ends the loop, so the guilds after it are not restored. `attempted`
     * lists the guilds whose restore ran.
     */
    method OnReady(guilds: seq<int>, configured: set<int>, raising: set<int>) returns (attempted: seq<int>)
      modifies this`restoredOnce
      ensures restoredOnce
      ensures old(restoredOnce) ==> attempted == []
      ensures !old(restoredOnce) ==> attempted == Attempted(guilds, configured, raising)
    {
      if restoredOnce {
        return [];
      }
      restoredOnce := true;
      attempted := [];
      for i := 0 to |guilds|
        invariant attempted + Attempted(guilds[i..], configured, raising) == Attempted(guilds, configured, raising)
      {
        assert guilds[i..][1..] == guilds[i + 1..];
        if guilds[i] !in configured {
          continue;
        }
        attempted := attempted + [guilds[i]];
        if guilds[i] in raising {
          return;
        }
      }
      assert guilds[|guilds|..] == [];
    }
  }

  /** The configured guilds whose restore runs: in order, up to and including the first that raises. */
  function Attempted(guilds: seq<int>, configured: set<int>, raising: set<int>): seq<int>
    decreases |guilds|
  {
    if guilds == [] then []
    else if guilds[0] !in configured then Attempted(guilds[1..], configured, raising)
    else if guilds[0] in raising then [guilds[0]]
    else [guilds[0]] + Attempted(guilds[1..], configured, raising)
  }

  /**
   * The restores that run are a prefix of the configured guilds; when they
   * stop short, the last one run raised; every earlier one did not raise.
   */
  lemma {:induction false} AttemptedSpec(guilds: seq<int>, configured: set<int>, raising: set<int>)
    ensures Attempted(guilds, configured, raising) <= Configured(guilds, configured)
    ensures Attempted(guilds, configured, raising) != Configured(guilds, configured) ==>
      |Attempted(guilds, configured, raising)| > 0
      && Attempted(guilds, configured, raising)[|Attempted(guilds, configured, raising)| - 1] in raising
    ensures forall k :: 0 <= k < |Attempted(guilds, configured, raising)| - 1 ==>
      Attempted(guilds, configured, raising)[k] !in raising
    decreases |guilds|
  {
    if guilds != [] {
      var g := guilds[0];
      var rest := guilds[1..];
      AttemptedSpec(rest, configured, raising);
      var a := Attempted(rest, configured, raising);
      var c := Configured(rest, configured);
      if g in configured && g !in raising {
        var r := [g] + a;
        assert Attempted(guilds, configured, raising) == r;
        assert Configured(guilds, configured) == [g] + c;
        forall k | 0 <= k < |r| - 1 ensures r[k] !in raising {
          if k > 0 {
            assert r[k] == a[k - 1];
          }
        }
      } else if g in configured {
        assert Configured(guilds, configured) == [g] + c;
      }
    }
  }

  /** When no configured guild's restore raises, every configured guild is restored. */
  lemma {:induction false} AttemptedAll(guilds: seq<int>, configured: set<int>, raising: set<int>)
    requires forall i :: 0 <= i < |guilds| && guilds[i] in configured ==> guilds[i] !in raising
    ensures Attempted(guilds, configured, raising) == Configured(guilds, configured)
    decreases |guilds|
  {
    if guilds != [] {
      var rest := guilds[1..];
      forall i | 0 <= i < |rest| && rest[i] in configured ensures rest[i] !in raising {
        assert rest[i] == guilds[i + 1];
      }
      AttemptedAll(rest, configured, raising);
    }
  }

  /** The guilds of `guilds` that have a configuration, in order. */
  function Configured(guilds: seq<int>, configured: set<int>): (r: seq<int>)
    ensures forall g :: g in r <==> g in guilds && g in configured
    ensures |r| <= |guilds|
  {
    if guilds == [] then []
    else (if guilds[0] in configured then [guilds[0]] else []) + Configured(guilds[1..], configured)
  }

}
