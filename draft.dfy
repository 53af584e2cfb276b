/**
 * Model of cogs/draft.py: a two-player class draft. Two players claim the
 * slots A and B; then seven steps each offer a pair of classes (three at the
 * last step) to one player, whose pick goes to their own deck while the rest
 * goes to the opponent's. A `DraftSession` holds the state the steps update;
 * the `DraftCog` holds the ids of the sessions still registered. The rules
 * themselves are in DraftRules.
 */
module Draft {

  import opened Wrappers
  import Text
  import opened DraftRules

  /** The views' timeout, in seconds. */
  const Timeout := 120

  /** The buttons of one step message: its giver, the classes offered, and the step it was sent for. */
  datatype StepView = StepView(giver: Giver, choices: seq<Class>, step: int)

  /** The view `send_step` builds for `step`. */
  predicate SentFor(view: StepView) {
    1 <= view.step <= LastStep && view.giver == StepTable(view.step).0 && view.choices == StepTable(view.step).1
  }

  /** The lines of a deck in the final embed. */
  function DeckText(deck: seq<Class>): (r: string)
    ensures deck == [] <==> r == ""
  {
    var lines := seq(|deck|, i requires 0 <= i < |deck| => "- " + Name(deck[i]));
    if deck == [] then "" else
      JoinNonEmpty(lines);
      Text.Join(lines, "\n")
  }

  lemma {:induction false} JoinNonEmpty(lines: seq<string>)
    requires lines != [] && lines[0] != ""
    ensures Text.Join(lines, "\n") != ""
  {
    if |lines| > 1 {
      assert |Text.Join(lines, "\n")| >= |lines[0]|;
    }
  }

  /**
   * The decks are those dealt from regular picks, one per step sent before
   * the current one, and all seven picks only once the draft has finished.
   */
  ghost predicate RegularState(picks: seq<Class>, deckA: seq<Class>, deckB: seq<Class>, step: int, active: bool) {
    && RegularPicks(picks)
    && (deckA, deckB) == DealAll(picks)
    && (if |picks| == LastStep then step == LastStep && !active
        else |picks| == (if step == 0 then 0 else step - 1))
  }

  /**
   * Dealing the current step's pick and moving on (or finishing after step 7)
   * keeps a draft regular, with the pick appended to its picks.
   */
  lemma RegularAfterPick(picks: seq<Class>, deckA: seq<Class>, deckB: seq<Class>, step: int, choice: Class,
                         deckA': seq<Class>, deckB': seq<Class>, step': int, active': bool)
    requires RegularState(picks, deckA, deckB, step, true) && 1 <= step <= LastStep
    requires StepOf(choice) == step
    requires (deckA', deckB') == Deal(deckA, deckB, StepTable(step).0, step, choice)
    requires step' == (if step < LastStep then step + 1 else LastStep) && active' == (step < LastStep)
    ensures RegularState(picks + [choice], deckA', deckB', step', active')
  {
    DealAllSnoc(picks, choice);
  }

  class DraftSession {
    const id: int
    var playerA: Option<int>
    var playerB: Option<int>
    var deckA: seq<Class>
    var deckB: seq<Class>
    var step: int
    var active: bool
    /** The picks applied so far, in order (what the decks were dealt from). */
    ghost var picks: seq<Class>

    predicate Ready()
      reads this
    {
      playerA.Some? && playerB.Some?
    }

    /** A step has been sent only to a ready session, and at most seven. */
    ghost predicate Valid()
      reads this
    {
      0 <= step <= LastStep && (step >= 1 ==> Ready())
    }

    /**
     * The draft is regular: the decks are those dealt from regular picks, one
     * per step sent before the current one, and all seven picks only once the
     * draft has finished.
     */
    ghost predicate Regular()
      reads this
    {
      Valid() && RegularState(picks, deckA, deckB, step, active)
    }

    constructor (id: int)
      ensures this.id == id
      ensures playerA.None? && playerB.None? && deckA == [] && deckB == [] && step == 0 && active
      ensures picks == [] && Regular()
    {
      this.id := id;
      playerA, playerB := None, None;
      deckA, deckB := [], [];
      step := 0;
      active := true;
      picks := [];
    }

    /** `send_step`: advance to the next step and build its buttons. */
    method SendStep() returns (view: StepView)
      requires Valid() && Ready() && step < LastStep
      modifies this`step
      ensures step == old(step) + 1 && Valid()
      ensures view == StepView(StepTable(step).0, StepTable(step).1, step) && SentFor(view)
    {
      step := step + 1;
      var (giver, choices) := StepTable(step);
      view := StepView(giver, choices, step);
    }

    /**
     * The session's part of `process_choice`: deal the decks, then send the
     * next step, or after step 7 end the draft (no next view).
     */
    method TakeChoice(giver: Giver, chosen: Class) returns (next: Option<StepView>)
      requires Valid() && active && 1 <= step <= LastStep
      modifies this`deckA, this`deckB, this`step, this`active
      ensures Valid()
      ensures (deckA, deckB) == Deal(old(deckA), old(deckB), giver, old(step), chosen)
      ensures next.None? <==> old(step) == LastStep
      ensures next.None? ==> !active && step == LastStep
      ensures next.Some? ==> active && step == old(step) + 1 && SentFor(next.value) && next.value.step == step
    {
      var dealt := Deal(deckA, deckB, giver, step, chosen);
      deckA, deckB := dealt.0, dealt.1;
      if step < LastStep {
        var view := SendStep();
        next := Some(view);
      } else {
        active := false;
        next := None;
      }
    }

    /**
     * `join_a`: the slot is taken only while empty ("Déjà pris." otherwise);
     * the first step is sent once both players are in.
     */
    method JoinA(user: int) returns (taken: bool, first: Option<StepView>)
      requires Valid()
      modifies this`playerA, this`step
      ensures Valid()
      ensures taken <==> old(playerA).Some?
      ensures taken ==> playerA == old(playerA) && step == old(step) && first.None?
      ensures !taken ==> playerA == Some(user)
      ensures !taken && playerB.Some? ==> step == 1 && first == Some(StepView(A, StepTable(1).1, 1))
      ensures !taken && playerB.None? ==> step == old(step) && first.None?
    {
      if playerA.Some? {
        return true, None;
      }
      playerA := Some(user);
      taken := false;
      first := None;
      if Ready() {
        var v := SendStep();
        first := Some(v);
      }
    }

    /** `join_b`, the same for slot B. */
    method JoinB(user: int) returns (taken: bool, first: Option<StepView>)
      requires Valid()
      modifies this`playerB, this`step
      ensures Valid()
      ensures taken <==> old(playerB).Some?
      ensures taken ==> playerB == old(playerB) && step == old(step) && first.None?
      ensures !taken ==> playerB == Some(user)
      ensures !taken && playerA.Some? ==> step == 1 && first == Some(StepView(A, StepTable(1).1, 1))
      ensures !taken && playerA.None? ==> step == old(step) && first.None?
    {
      if playerB.Some? {
        return true, None;
      }
      playerB := Some(user);
      taken := false;
      first := None;
      if Ready() {
        var v := SendStep();
        first := Some(v);
      }
    }

    /** The join buttons time out: a draft still waiting for a player is called off. */
    method JoinTimeout()
      modifies this`active
      ensures active == (old(active) && Ready())
    {
      if active && !Ready() {
        active := false;
      }
    }

    /** A step's buttons time out: the draft is called off if still running. */
    method StepTimeout()
      modifies this`active
      ensures !active
    {
      if active {
        active := false;
      }
    }
  }

  /** What a click on a class button led to. */
  datatype ChoiceOutcome =
    | NotYourTurn
    | Ignored
    | Next(view: StepView)
    | Finished(deckA: seq<Class>, deckB: seq<Class>)

  class DraftCog {
    var sessions: set<int>

    constructor ()
      ensures sessions == {}
    {
      sessions := {};
    }

    /** `/draft`: a new session with both slots empty, registered under its id. */
    method StartDraft(id: int) returns (s: DraftSession)
      modifies this`sessions
      ensures fresh(s) && s.id == id && sessions == old(sessions) + {id}
      ensures s.playerA.None? && s.playerB.None? && s.deckA == [] && s.deckB == [] && s.step == 0 && s.active
      ensures s.Regular()
    {
      s := new DraftSession(id);
      sessions := sessions + {id};
    }

    /**
     * `process_choice` with the session's current step: an inactive session
     * ignores it; otherwise the decks are dealt, then the next step is sent,
     * or after step 7 the draft finishes (`finish`): it is no longer active
     * and is unregistered.
     */
    method ProcessChoice(s: DraftSession, giver: Giver, chosen: Class) returns (outcome: ChoiceOutcome)
      requires s.Valid() && 1 <= s.step <= LastStep
      modifies s`deckA, s`deckB, s`step, s`active, this`sessions
      ensures s.Valid()
      ensures !old(s.active) ==> outcome == Ignored && unchanged(s) && sessions == old(sessions)
      ensures old(s.active) ==> (s.deckA, s.deckB) == Deal(old(s.deckA), old(s.deckB), giver, old(s.step), chosen)
      ensures old(s.active) && old(s.step) < LastStep ==>
        s.active && s.step == old(s.step) + 1 && sessions == old(sessions) && outcome.Next? && SentFor(outcome.view)
        && outcome.view.step == s.step
      ensures old(s.active) && old(s.step) == LastStep ==>
        !s.active && s.step == LastStep && sessions == old(sessions) - {s.id} && outcome == Finished(s.deckA, s.deckB)
    {
      if !s.active {
        return Ignored;
      }
      var next := s.TakeChoice(giver, chosen);
      if next.Some? {
        outcome := Next(next.value);
      } else {
        sessions := sessions - {s.id};
        outcome := Finished(s.deckA, s.deckB);
      }
    }

    /**
     * A click on a class button, as the source handles it: only the giver
     * the view was built for may choose, and the choice is processed at the
     * session's current step, whichever step the view was sent for.
     */
    method ChoiceClickAsWritten(s: DraftSession, view: StepView, user: int, choice: Class) returns (outcome: ChoiceOutcome)
      requires s.Valid() && 1 <= s.step <= LastStep
      requires choice in view.choices
      modifies s`deckA, s`deckB, s`step, s`active, this`sessions
      ensures s.Valid()
      ensures Some(user) != (if view.giver == A then old(s.playerA) else old(s.playerB)) ==>
        outcome == NotYourTurn && unchanged(s) && sessions == old(sessions)
      ensures Some(user) == (if view.giver == A then old(s.playerA) else old(s.playerB)) && !old(s.active) ==>
        outcome == Ignored && unchanged(s) && sessions == old(sessions)
      ensures Some(user) == (if view.giver == A then old(s.playerA) else old(s.playerB)) && old(s.active) ==>
        (s.deckA, s.deckB) == Deal(old(s.deckA), old(s.deckB), view.giver, old(s.step), choice)
      ensures Some(user) == (if view.giver == A then old(s.playerA) else old(s.playerB)) && old(s.active) && old(s.step) < LastStep ==>
        s.active && s.step == old(s.step) + 1 && sessions == old(sessions) && outcome.Next? && outcome.view.step == s.step
      ensures Some(user) == (if view.giver == A then old(s.playerA) else old(s.playerB)) && old(s.active) && old(s.step) == LastStep ==>
        !s.active && sessions == old(sessions) - {s.id} && outcome == Finished(s.deckA, s.deckB)
    {
      var expected := if view.giver == A then s.playerA else s.playerB;
      if Some(user) != expected {
        return NotYourTurn;
      }
      outcome := ProcessChoice(s, view.giver, choice);
    }

    /**
     * The corrected click: a button of a view sent for an earlier step is
     * ignored. A regular draft stays regular, the pick being appended to its
     * picks.
     */
    method ChoiceClick(s: DraftSession, view: StepView, user: int, choice: Class) returns (outcome: ChoiceOutcome)
      requires s.Regular() && SentFor(view) && choice in view.choices
      modifies s`deckA, s`deckB, s`step, s`active, s`picks, this`sessions
      ensures s.Regular()
      ensures view.step != old(s.step) ==> outcome == Ignored && unchanged(s) && sessions == old(sessions)
      ensures Some(user) != (if view.giver == A then old(s.playerA) else old(s.playerB)) ==>
        outcome in {Ignored, NotYourTurn} && unchanged(s) && sessions == old(sessions)
      ensures view.step == old(s.step) && old(s.active) && Some(user) == (if view.giver == A then old(s.playerA) else old(s.playerB)) ==>
        && s.picks == old(s.picks) + [choice]
        && (old(s.step) < LastStep ==> outcome.Next? && outcome.view.step == old(s.step) + 1)
        && (old(s.step) == LastStep ==> outcome == Finished(s.deckA, s.deckB) && s.id !in sessions)
    {
      if view.step != s.step {
        return Ignored;
      }
      var expected := if view.giver == A then s.playerA else s.playerB;
      if Some(user) != expected {
        return NotYourTurn;
      }
      if !s.active {
        return Ignored;
      }
      OfferMembership(s.step, choice);
      outcome := ProcessRegularChoice(s, choice);
    }

    /** `process_choice` on a regular draft, with a pick from the current step's offer by its giver. */
    method ProcessRegularChoice(s: DraftSession, choice: Class) returns (outcome: ChoiceOutcome)
      requires s.Regular() && s.active && 1 <= s.step <= LastStep && StepOf(choice) == s.step
      modifies s`deckA, s`deckB, s`step, s`active, s`picks, this`sessions
      ensures s.Regular() && s.picks == old(s.picks) + [choice]
      ensures old(s.step) < LastStep ==> s.active && outcome.Next? && outcome.view.step == s.step && sessions == old(sessions)
      ensures old(s.step) == LastStep ==> !s.active && outcome == Finished(s.deckA, s.deckB) && sessions == old(sessions) - {s.id}
    {
      ghost var (picks, deckA, deckB, step) := (s.picks, s.deckA, s.deckB, s.step);
      outcome := ProcessChoice(s, StepTable(s.step).0, choice);
      RegularAfterPick(picks, deckA, deckB, step, choice, s.deckA, s.deckB, s.step, s.active);
      s.picks := picks + [choice];
    }

    /**
     * The cancel button: only player A or B may cancel; the session becomes
     * inactive and is unregistered (`del` raises KeyError, reported as
     * `false`, when it was already gone).
     */
    method Cancel(s: DraftSession, user: int) returns (allowed: bool, wasRegistered: bool)
      modifies s`active, this`sessions
      ensures allowed <==> Some(user) == old(s.playerA) || Some(user) == old(s.playerB)
      ensures !allowed ==> s.active == old(s.active) && sessions == old(sessions)
      ensures allowed ==> !s.active && sessions == old(sessions) - {s.id} && wasRegistered == (s.id in old(sessions))
    {
      if Some(user) != s.playerA && Some(user) != s.playerB {
        return false, false;
      }
      s.active := false;
      wasRegistered := s.id in sessions;
      sessions := sessions - {s.id};
      allowed := true;
    }
  }

  /** The two deals of the scenario below, worked out once. */
  lemma StaleDeals()
    ensures Deal([], [], A, 1, Xelor) == ([Xelor], [Eniripsa])
    ensures Deal([Xelor], [Eniripsa], A, 2, Xelor) == ([Xelor, Xelor], [Eniripsa, Zobal])
  {
    assert Pair(1) == [Xelor, Eniripsa] && Other(Pair(1), Xelor) == Eniripsa;
    assert Deal([], [], A, 1, Xelor) == DealPair([], [], A, Pair(1), Xelor) == ([] + [Xelor], [] + [Eniripsa]);
    assert [] + [Xelor] == [Xelor] && [] + [Eniripsa] == [Eniripsa];
    assert Pair(2) == [Zobal, Feca] && Other(Pair(2), Xelor) == Zobal;
    assert Deal([Xelor], [Eniripsa], A, 2, Xelor) == DealPair([Xelor], [Eniripsa], A, Pair(2), Xelor)
      == ([Xelor] + [Xelor], [Eniripsa] + [Zobal]);
    assert [Xelor] + [Xelor] == [Xelor, Xelor] && [Eniripsa] + [Zobal] == [Eniripsa, Zobal];
  }

  /** A draft with both players joined, and the step-1 view sent to A. */
  method JoinedDraft() returns (cog: DraftCog, s: DraftSession, view: StepView)
    ensures fresh(cog) && fresh(s)
    ensures s.Valid() && s.active && s.step == 1 && s.playerA == Some(10)
    ensures s.deckA == [] && s.deckB == []
    ensures view.giver == A && Xelor in view.choices
  {
    cog := new DraftCog();
    s := cog.StartDraft(1);
    var _, _ := s.JoinA(10);
    var _, first := s.JoinB(20);
    view := first.value;
  }

  /**
   * The stale-button scenario: A picks Xélor at step 1, then presses the
   * still-live Xélor button of the step-1 message again while step 2 (B's
   * turn) is open. The click is accepted: A's deck holds Xélor twice and B's
   * pick at step 2 was never asked for.
   */
  method StaleClickScenario() returns (deckA: seq<Class>, deckB: seq<Class>, step: int)
    ensures deckA == [Xelor, Xelor] && deckB == [Eniripsa, Zobal] && step == 3
    ensures !RegularPicks([Xelor, Xelor])
  {
    var cog, s, view := JoinedDraft();
    StaleDeals();
    var _ := cog.ChoiceClickAsWritten(s, view, 10, Xelor);
    assert s.deckA == [Xelor] && s.deckB == [Eniripsa];
    assert s.step == 2 && s.active && s.playerA == Some(10);
    var _ := cog.ChoiceClickAsWritten(s, view, 10, Xelor);
    deckA, deckB, step := s.deckA, s.deckB, s.step;
    assert StepOf([Xelor, Xelor][1]) != 2;
  }
}
