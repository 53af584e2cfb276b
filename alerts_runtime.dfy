/**
 * Model of cogs/alerts_runtime.py: a second, separate `alerts_data` map
 * driven by reactions and by the "add defender" modal. Unlike cogs/alerts.py
 * it has no cap on defenders, and the incomplete flag, once set, is never
 * cleared. The stored copy of the message's first embed only feeds the
 * rendering and is not part of the record here.
 */
module AlertsRuntime {

  import opened Wrappers
  import Sets
  import Alerts

  /** Most mentions taken from one modal submission. */
  const MentionsPerSubmit := 4

  /** One record of this module's `alerts_data`. */
  datatype RuntimeAlert = RuntimeAlert(author: int, defenders: set<int>, result: Alerts.DefenseResult, incomplete: bool)

  /** A reaction event as `on_reaction_add` sees it. */
  datatype Reaction = Reaction(emoji: string, userId: int, userIsBot: bool)

  /** What the modal answers. */
  datatype ModalReply = UnknownAlert | MustReactFirst | DefendersAdded

  /** The record `register_alert` stores. */
  function Registered(author: int): (a: RuntimeAlert)
    ensures a.author == author && a.defenders == {} && a.result == Alerts.Undecided && !a.incomplete
  {
    RuntimeAlert(author, {}, Alerts.Undecided, false)
  }

  /**
   * The transition `on_reaction_add` applies to a tracked record for a reaction
   * by a human user: 👍 adds the user, 🏆 / ❌ overwrite the result, 😡 sets the
   * flag, anything else changes nothing.
   */
  function React(a: RuntimeAlert, emoji: string, userId: int): (r: RuntimeAlert)
    ensures r.author == a.author
    ensures a.defenders <= r.defenders
    ensures r.defenders == if emoji == "👍" then a.defenders + {userId} else a.defenders
    ensures r.result == if emoji == "🏆" then Alerts.Win else if emoji == "❌" then Alerts.Lose else a.result
    ensures r.incomplete == (a.incomplete || emoji == "😡")
    ensures emoji !in {"👍", "🏆", "❌", "😡"} ==> r == a
  {
    if emoji == "👍" then a.(defenders := a.defenders + {userId})
    else if emoji == "🏆" then a.(result := Alerts.Win)
    else if emoji == "❌" then a.(result := Alerts.Lose)
    else if emoji == "😡" then a.(incomplete := true)
    else a
  }

  /** Reactions replayed in order on one tracked record; reactions by bots are ignored. */
  function ReactAll(a: RuntimeAlert, events: seq<Reaction>): RuntimeAlert
    decreases |events|
  {
    if events == [] then a
    else
      var e := events[0];
      ReactAll(if e.userIsBot then a else React(a, e.emoji, e.userId), events[1..])
  }

  /** 👍 twice by the same user is the same as once. */
  lemma ThumbsUpIdempotent(a: RuntimeAlert, userId: int)
    ensures React(React(a, "👍", userId), "👍", userId) == React(a, "👍", userId)
  {
  }

  /**
   * Over any run of reactions, nobody leaves the defenders, the author never
   * changes, and a set incomplete flag stays set.
   */
  lemma {:induction false} ReactAllMonotone(a: RuntimeAlert, events: seq<Reaction>)
    ensures a.defenders <= ReactAll(a, events).defenders
    ensures ReactAll(a, events).author == a.author
    ensures a.incomplete ==> ReactAll(a, events).incomplete
    decreases |events|
  {
    if events != [] {
      var e := events[0];
      ReactAllMonotone(if e.userIsBot then a else React(a, e.emoji, e.userId), events[1..]);
    }
  }

  /** The latest 🏆 / ❌ by a human decides the result, whatever came before it. */
  lemma {:induction false} LatestResultDecides(a: RuntimeAlert, before: seq<Reaction>, last: Reaction, after: seq<Reaction>)
    requires last.emoji in {"🏆", "❌"} && !last.userIsBot
    requires forall i :: 0 <= i < |after| ==> after[i].emoji !in {"🏆", "❌"} || after[i].userIsBot
    ensures ReactAll(a, before + [last] + after).result == if last.emoji == "🏆" then Alerts.Win else Alerts.Lose
    decreases |before|
  {
    if before == [] {
      assert before + [last] + after == [last] + after;
      ResultUntouched(React(a, last.emoji, last.userId), after);
    } else {
      var e := before[0];
      assert (before + [last] + after)[1..] == before[1..] + [last] + after;
      LatestResultDecides(if e.userIsBot then a else React(a, e.emoji, e.userId), before[1..], last, after);
    }
  }

  /** Reactions that are neither 🏆 nor ❌ by a human leave the result alone. */
  lemma {:induction false} ResultUntouched(a: RuntimeAlert, events: seq<Reaction>)
    requires forall i :: 0 <= i < |events| ==> events[i].emoji !in {"🏆", "❌"} || events[i].userIsBot
    ensures ReactAll(a, events).result == a.result
    decreases |events|
  {
    if events != [] {
      var e := events[0];
      ResultUntouched(if e.userIsBot then a else React(a, e.emoji, e.userId), events[1..]);
    }
  }

  /** The mentions one submission may add: the first four. */
  function FirstMentions(mentions: seq<int>): (r: seq<int>)
    ensures |r| <= MentionsPerSubmit
    ensures |r| <= |mentions| && r == mentions[..|r|]
    ensures |r| == |mentions| || |r| == MentionsPerSubmit
  {
    if |mentions| <= MentionsPerSubmit then mentions else mentions[..MentionsPerSubmit]
  }

  /** The defenders after a modal submission: at most four more, and no cap on the total. */
  function WithMentions(defenders: set<int>, mentions: seq<int>): (r: set<int>)
    ensures defenders <= r
    ensures forall u :: u in r <==> u in defenders || u in FirstMentions(mentions)
    ensures |r| <= |defenders| + MentionsPerSubmit
  {
    Sets.SeqMembersCard(FirstMentions(mentions));
    defenders + (set u | u in FirstMentions(mentions))
  }

  /** The total is not capped: a full set of four grows past four in one submission. */
  lemma NoOverallCap()
    ensures |WithMentions({1, 2, 3, 4}, [5, 6, 7, 8, 9])| > Alerts.MaxDefenders
  {
    var r := WithMentions({1, 2, 3, 4}, [5, 6, 7, 8, 9]);
    assert FirstMentions([5, 6, 7, 8, 9])[0] == 5;
    assert {1, 2, 3, 4, 5} <= r;
    Sets.SubsetCard({1, 2, 3, 4, 5}, r);
  }

  /** The result line of `build_embed`. */
  function ResultLabel(result: Alerts.DefenseResult): (s: string)
    ensures result == Alerts.Win <==> s == "🏆 Victoire"
    ensures result == Alerts.Lose <==> s == "❌ Défaite"
    ensures result == Alerts.Undecided <==> s == "⏳ En attente"
  {
    match result
    case Win => "🏆 Victoire"
    case Lose => "❌ Défaite"
    case Undecided => "⏳ En attente"
  }

  /** The (name, value) fields `build_embed` writes; `defendersText` is the rendered defenders list. */
  function EmbedFields(a: RuntimeAlert, defendersText: string): (fields: seq<(string, string)>)
    ensures |fields| == if a.incomplete then 3 else 2
    ensures fields[0].0 == "🛡️ Défenseurs" && fields[1] == ("📊 Résultat", ResultLabel(a.result))
    ensures a.defenders == {} ==> fields[0].1 == "_Aucun pour le moment_"
    ensures a.defenders != {} ==> fields[0].1 == defendersText
    ensures a.incomplete ==> fields[2] == ("⚠️ État", "😡 Défense incomplète")
  {
    var defenders := if a.defenders != {} then defendersText else "_Aucun pour le moment_";
    [("🛡️ Défenseurs", defenders), ("📊 Résultat", ResultLabel(a.result))]
      + (if a.incomplete then [("⚠️ État", "😡 Défense incomplète")] else [])
  }

  class AlertsRuntimeCog {
    var alertsData: map<int, RuntimeAlert>

    constructor ()
      ensures alertsData == map[]
    {
      alertsData := map[];
    }

    /** `register_alert`: a fresh record under the message id (replacing any earlier one). */
    method RegisterAlert(messageId: int, author: int)
      modifies this`alertsData
      ensures alertsData == old(alertsData)[messageId := Registered(author)]
    {
      alertsData := alertsData[messageId := Registered(author)];
    }

    /** `on_reaction_add`: bots and untracked messages change nothing; otherwise `React`. */
    method OnReactionAdd(messageId: int, emoji: string, userId: int, userIsBot: bool)
      modifies this`alertsData
      ensures userIsBot || messageId !in old(alertsData) ==> alertsData == old(alertsData)
      ensures !userIsBot && messageId in old(alertsData) ==>
        alertsData == old(alertsData)[messageId := React(old(alertsData)[messageId], emoji, userId)]
    {
      if userIsBot {
        return;
      }
      if messageId !in alertsData {
        return;
      }
      var data := alertsData[messageId];
      if emoji == "👍" {
        data := data.(defenders := data.defenders + {userId});
      } else if emoji == "🏆" {
        data := data.(result := Alerts.Win);
      } else if emoji == "❌" {
        data := data.(result := Alerts.Lose);
      } else if emoji == "😡" {
        data := data.(incomplete := true);
      }
      alertsData := alertsData[messageId := data];
    }

    /**
     * `AddDefenderModal.on_submit`: unknown alerts and requesters who are not
     * defenders are refused; otherwise the first four mentions are added one
     * by one.
     */
    method AddDefenderModalSubmit(messageId: int, requester: int, mentions: seq<int>) returns (reply: ModalReply)
      modifies this`alertsData
      ensures messageId !in old(alertsData) ==> reply == UnknownAlert && alertsData == old(alertsData)
      ensures messageId in old(alertsData) && requester !in old(alertsData)[messageId].defenders ==>
        reply == MustReactFirst && alertsData == old(alertsData)
      ensures messageId in old(alertsData) && requester in old(alertsData)[messageId].defenders ==>
        reply == DefendersAdded
        && alertsData == old(alertsData)[messageId := old(alertsData)[messageId].(defenders := WithMentions(old(alertsData)[messageId].defenders, mentions))]
    {
      if messageId !in alertsData {
        return UnknownAlert;
      }
      if requester !in alertsData[messageId].defenders {
        return MustReactFirst;
      }
      var first := if |mentions| <= MentionsPerSubmit then mentions else mentions[..MentionsPerSubmit];
      ghost var start := alertsData[messageId].defenders;
      var i := 0;
      while i < |first|
        invariant 0 <= i <= |first|
        invariant messageId in alertsData
        invariant alertsData == old(alertsData)[messageId := old(alertsData)[messageId].(defenders := alertsData[messageId].defenders)]
        invariant alertsData[messageId].defenders == start + (set u | u in first[..i])
      {
        assert first[..i + 1] == first[..i] + [first[i]];
        var data := alertsData[messageId];
        alertsData := alertsData[messageId := data.(defenders := data.defenders + {first[i]})];
        i := i + 1;
      }
      assert first[..i] == FirstMentions(mentions);
      return DefendersAdded;
    }
  }
}
