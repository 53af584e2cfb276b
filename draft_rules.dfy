/**
 * The rules of the class draft of cogs/draft.py: the step table of
 * `send_step`, how `process_choice` deals a pick into the two decks, and what
 * a full draft deals.
 */
module DraftRules {

  const LastStep := 7

  datatype Giver = A | B

  /** The fifteen classes the draft offers; a button's label is the class's name. */
  datatype Class =
    | Xelor | Eniripsa | Zobal | Feca | Pandawa | Sacrieur | Sadida | Osamodas
    | Enutrof | Steamer | Iop | Ecaflip | Cra | Sram | Roublard

  /** The name written on the class's button and in the decks. */
  function Name(c: Class): (r: string)
    ensures r != ""
  {
    match c
    case Xelor => "Xélor"
    case Eniripsa => "Eniripsa"
    case Zobal => "Zobal"
    case Feca => "Féca"
    case Pandawa => "Pandawa"
    case Sacrieur => "Sacrieur"
    case Sadida => "Sadida"
    case Osamodas => "Osamodas"
    case Enutrof => "Enutrof"
    case Steamer => "Steamer"
    case Iop => "Iop"
    case Ecaflip => "Ecaflip"
    case Cra => "Cra"
    case Sram => "Sram"
    case Roublard => "Roublard"
  }

  /** The classes `send_step` offers at steps 1 to 7, in order. */
  const Offers: seq<seq<Class>> := [[Xelor, Eniripsa], [Zobal, Feca], [Pandawa, Sacrieur], [Sadida, Osamodas],
                                    [Enutrof, Steamer], [Iop, Ecaflip], [Cra, Sram, Roublard]]

  /** The table of `send_step`: who gives at each step (A on the odd steps, B on the even ones) and the classes offered. */
  function StepTable(step: int): (r: (Giver, seq<Class>))
    requires 1 <= step <= LastStep
    ensures r.0 == (if step == 2 || step == 4 || step == 6 then B else A)
    ensures |r.1| == (if step == LastStep then 3 else 2)
  {
    (if step == 2 || step == 4 || step == 6 then B else A, Offers[step - 1])
  }

  /** The step that offers the class: every class is offered at exactly one step. */
  function StepOf(c: Class): (step: int)
    ensures 1 <= step <= LastStep
  {
    match c
    case Xelor | Eniripsa => 1
    case Zobal | Feca => 2
    case Pandawa | Sacrieur => 3
    case Sadida | Osamodas => 4
    case Enutrof | Steamer => 5
    case Iop | Ecaflip => 6
    case Cra | Sram | Roublard => 7
  }

  /** A class is offered at a step exactly when that step is its own. */
  lemma OfferMembership(step: int, c: Class)
    requires 1 <= step <= LastStep
    ensures c in StepTable(step).1 <==> StepOf(c) == step
  {
  }

  /** The pairs of `process_choice`, for steps 1 to 6. */
  const Pairs: seq<seq<Class>> := [[Xelor, Eniripsa], [Zobal, Feca], [Pandawa, Sacrieur], [Sadida, Osamodas],
                                   [Enutrof, Steamer], [Iop, Ecaflip]]

  function Pair(step: int): (r: seq<Class>)
    requires 1 <= step < LastStep
    ensures |r| == 2 && r[0] != r[1]
  {
    Pairs[step - 1]
  }

  /** The last step's three classes in `process_choice`. */
  const LastThree: seq<Class> := [Cra, Sram, Roublard]

  /** The two tables of the source agree: `process_choice` splits exactly what `send_step` offered. */
  lemma TablesAgree(step: int)
    requires 1 <= step <= LastStep
    ensures step < LastStep ==> Pair(step) == StepTable(step).1
    ensures step == LastStep ==> LastThree == StepTable(step).1
  {
  }

  /** Every step offers distinct classes. */
  lemma OfferDistinct(step: int)
    requires 1 <= step <= LastStep
    ensures forall i, j :: 0 <= i < j < |StepTable(step).1| ==> StepTable(step).1[i] != StepTable(step).1[j]
  {
  }

  /** `[c for c in s if c != x]`. */
  function Without(s: seq<Class>, x: Class): seq<Class>
    decreases |s|
  {
    if s == [] then []
    else (if s[0] == x then [] else [s[0]]) + Without(s[1..], x)
  }

  /** `Without` keeps every class but `x`, as often as it occurs. */
  lemma {:induction false} WithoutSpec(s: seq<Class>, x: Class)
    ensures multiset(Without(s, x)) == multiset(s)[x := 0]
    decreases |s|
  {
    if s != [] {
      WithoutSpec(s[1..], x);
      assert s == [s[0]] + s[1..];
    }
  }

  /** Distinct classes hold each of their classes once. */
  lemma {:induction false} CountDistinct(s: seq<Class>, x: Class)
    requires x in s
    requires forall i, j :: 0 <= i < j < |s| ==> s[i] != s[j]
    ensures multiset(s)[x] == 1
    decreases |s|
  {
    assert s == [s[0]] + s[1..];
    if s[0] == x {
      assert x !in s[1..];
    } else {
      CountDistinct(s[1..], x);
    }
  }

  /** Removing one class from distinct classes that hold it leaves all the others. */
  lemma WithoutOne(s: seq<Class>, x: Class)
    requires x in s
    requires forall i, j :: 0 <= i < j < |s| ==> s[i] != s[j]
    ensures multiset(Without(s, x)) + multiset{x} == multiset(s)
    ensures |Without(s, x)| == |s| - 1
  {
    WithoutSpec(s, x);
    CountDistinct(s, x);
  }

  /** Removing a class that is not there keeps everything. */
  lemma WithoutAbsent(s: seq<Class>, x: Class)
    requires x !in s
    ensures multiset(Without(s, x)) == multiset(s)
  {
    WithoutSpec(s, x);
  }

  /**
   * What `process_choice` does to the decks: at steps 1 to 6 the pick goes to
   * the giver's deck and the first other class of the step's pair to the
   * opponent's; at step 7 the pick goes to A and the other two to B.
   */
  function Deal(deckA: seq<Class>, deckB: seq<Class>, giver: Giver, step: int, chosen: Class): (r: (seq<Class>, seq<Class>))
    requires 1 <= step <= LastStep
  {
    if step < LastStep then DealPair(deckA, deckB, giver, Pair(step), chosen) else DealLast(deckA, deckB, chosen)
  }

  /** Steps 1 to 6: the pick to the giver, the pair's other class to the opponent. */
  function DealPair(deckA: seq<Class>, deckB: seq<Class>, giver: Giver, pair: seq<Class>, chosen: Class): (r: (seq<Class>, seq<Class>))
    requires |pair| == 2 && pair[0] != pair[1]
  {
    var other := Other(pair, chosen);
    if giver == A then (deckA + [chosen], deckB + [other]) else (deckA + [other], deckB + [chosen])
  }

  /** Step 7: the pick to A, the classes of the last three other than the pick to B. */
  function DealLast(deckA: seq<Class>, deckB: seq<Class>, chosen: Class): (r: (seq<Class>, seq<Class>)) {
    (deckA + [chosen], deckB + Without(LastThree, chosen))
  }

  /** The first class of a pair other than the pick. */
  function Other(pair: seq<Class>, chosen: Class): Class
    requires |pair| == 2 && pair[0] != pair[1]
  {
    if pair[0] != chosen then pair[0] else pair[1]
  }

  /** `Other` is `[c for c in pair if c != chosen][0]`. */
  lemma OtherIsFirstRest(pair: seq<Class>, chosen: Class)
    requires |pair| == 2 && pair[0] != pair[1]
    ensures Without(pair, chosen) != [] && Without(pair, chosen)[0] == Other(pair, chosen)
  {
    assert pair[1..] == [pair[1]];
    assert pair[1..][1..] == [];
  }

  /** A pair always keeps some class after removing the pick, so `[0]` never fails. */
  lemma OtherExists(step: int, chosen: Class)
    requires 1 <= step < LastStep
    ensures |Without(Pair(step), chosen)| >= 1
  {
    var p := Pair(step);
    OfferDistinct(step);
    if chosen in p {
      WithoutOne(p, chosen);
    } else {
      WithoutAbsent(p, chosen);
    }
  }

  /** One step of a regular draft: a pick from the offer adds exactly the offered classes, one to each deck (two to B at the end). */
  lemma DealStep(deckA: seq<Class>, deckB: seq<Class>, step: int, chosen: Class)
    requires 1 <= step <= LastStep
    requires StepOf(chosen) == step
    ensures multiset(Deal(deckA, deckB, StepTable(step).0, step, chosen).0) + multiset(Deal(deckA, deckB, StepTable(step).0, step, chosen).1)
      == multiset(deckA) + multiset(deckB) + multiset(StepTable(step).1)
    ensures |Deal(deckA, deckB, StepTable(step).0, step, chosen).0| == |deckA| + 1
    ensures |Deal(deckA, deckB, StepTable(step).0, step, chosen).1| == |deckB| + (if step == LastStep then 2 else 1)
  {
    TablesAgree(step);
    OfferMembership(step, chosen);
    if step < LastStep {
      DealPairSpec(deckA, deckB, StepTable(step).0, Pair(step), chosen);
    } else {
      DealLastSpec(deckA, deckB, chosen);
    }
  }

  /** Steps 1 to 6 deal the whole pair, one class to each deck. */
  lemma DealPairSpec(deckA: seq<Class>, deckB: seq<Class>, giver: Giver, pair: seq<Class>, chosen: Class)
    requires |pair| == 2 && pair[0] != pair[1] && chosen in pair
    ensures multiset(DealPair(deckA, deckB, giver, pair, chosen).0) + multiset(DealPair(deckA, deckB, giver, pair, chosen).1)
      == multiset(deckA) + multiset(deckB) + multiset(pair)
    ensures |DealPair(deckA, deckB, giver, pair, chosen).0| == |deckA| + 1
    ensures |DealPair(deckA, deckB, giver, pair, chosen).1| == |deckB| + 1
  {
    PairSplit(pair, chosen);
  }

  /** A pair is the pick and the other class. */
  lemma PairSplit(pair: seq<Class>, chosen: Class)
    requires |pair| == 2 && pair[0] != pair[1] && chosen in pair
    ensures multiset(pair) == multiset{chosen, Other(pair, chosen)}
  {
    assert pair == [pair[0], pair[1]];
  }

  /** Step 7 deals the last three classes, the pick to A and the two others to B. */
  lemma DealLastSpec(deckA: seq<Class>, deckB: seq<Class>, chosen: Class)
    requires chosen in LastThree
    ensures multiset(DealLast(deckA, deckB, chosen).0) + multiset(DealLast(deckA, deckB, chosen).1)
      == multiset(deckA) + multiset(deckB) + multiset(LastThree)
    ensures |DealLast(deckA, deckB, chosen).0| == |deckA| + 1
    ensures |DealLast(deckA, deckB, chosen).1| == |deckB| + 2
  {
    LastThreeDistinct();
    DealRest(deckA, deckB, chosen, LastThree);
  }

  /** Dealing the pick to A and the rest of distinct offered classes to B deals all of them. */
  lemma DealRest(deckA: seq<Class>, deckB: seq<Class>, chosen: Class, offer: seq<Class>)
    requires chosen in offer
    requires forall i, j :: 0 <= i < j < |offer| ==> offer[i] != offer[j]
    ensures multiset(deckA + [chosen]) + multiset(deckB + Without(offer, chosen)) == multiset(deckA) + multiset(deckB) + multiset(offer)
    ensures |deckB + Without(offer, chosen)| == |deckB| + |offer| - 1
  {
    WithoutOne(offer, chosen);
  }

  lemma LastThreeDistinct()
    ensures forall i, j :: 0 <= i < j < |LastThree| ==> LastThree[i] != LastThree[j]
  {
  }

  /**
   * Whatever the pick, it goes to the giver's deck (to A at the last step)
   * and the opponent's deck grows too.
   */
  lemma DealGiver(deckA: seq<Class>, deckB: seq<Class>, giver: Giver, step: int, chosen: Class)
    requires 1 <= step <= LastStep
    ensures var r := Deal(deckA, deckB, giver, step, chosen);
      && (giver == A || step == LastStep ==> r.0 == deckA + [chosen] && |r.1| > |deckB|)
      && (giver == B && step < LastStep ==> r.1 == deckB + [chosen] && |r.0| == |deckA| + 1)
  {
    if step == LastStep {
      LastRest(chosen);
    }
  }

  /** At the last step B receives at least two classes, whatever the pick. */
  lemma LastRest(chosen: Class)
    ensures |Without(LastThree, chosen)| >= 2
  {
    WithoutSpec(LastThree, chosen);
    LastThreeDistinct();
    if chosen in LastThree {
      CountDistinct(LastThree, chosen);
    }
    assert |multiset(Without(LastThree, chosen))| == |Without(LastThree, chosen)|;
  }

  /** `picks` could have been made in a regular draft: each from the offer of its own step. */
  predicate RegularPicks(picks: seq<Class>) {
    |picks| <= LastStep && forall i :: 0 <= i < |picks| ==> StepOf(picks[i]) == i + 1
  }

  /** The decks after the picks, each made at its own step by that step's giver. */
  function DealAll(picks: seq<Class>): (r: (seq<Class>, seq<Class>))
    requires RegularPicks(picks)
    decreases |picks|
  {
    if picks == [] then ([], [])
    else
      var n := |picks|;
      var before := DealAll(picks[..n - 1]);
      Deal(before.0, before.1, StepTable(n).0, n, picks[n - 1])
  }

  /** Everything offered in the first `n` steps, in order. */
  function Offered(n: nat): seq<Class>
    requires n <= LastStep
  {
    if n == 0 then [] else Offered(n - 1) + StepTable(n).1
  }

  /** The fifteen classes of a full draft. */
  const AllClasses: seq<Class> := [Xelor, Eniripsa, Zobal, Feca, Pandawa, Sacrieur, Sadida, Osamodas,
                                    Enutrof, Steamer, Iop, Ecaflip, Cra, Sram, Roublard]

  /**
   * After `n` regular picks both decks hold `n` classes (B one more once the
   * last step is dealt) and together exactly the classes offered so far.
   */
  lemma {:induction false} DealAllSpec(picks: seq<Class>)
    requires RegularPicks(picks)
    ensures multiset(DealAll(picks).0) + multiset(DealAll(picks).1) == multiset(Offered(|picks|))
    ensures |DealAll(picks).0| == |picks|
    ensures |DealAll(picks).1| == (if |picks| == LastStep then LastStep + 1 else |picks|)
    decreases |picks|
  {
    if picks != [] {
      var n := |picks|;
      var init := picks[..n - 1];
      assert RegularPicks(init);
      DealAllSpec(init);
      var before := DealAll(init);
      DealStep(before.0, before.1, n, picks[n - 1]);
      assert DealAll(picks) == Deal(before.0, before.1, StepTable(n).0, n, picks[n - 1]);
      assert multiset(Offered(n)) == multiset(Offered(n - 1)) + multiset(StepTable(n).1);
    }
  }

  /** A regular pick at the next step extends a regular draft by one deal. */
  lemma DealAllSnoc(picks: seq<Class>, choice: Class)
    requires RegularPicks(picks) && |picks| < LastStep && StepOf(choice) == |picks| + 1
    ensures RegularPicks(picks + [choice])
    ensures DealAll(picks + [choice]) ==
      Deal(DealAll(picks).0, DealAll(picks).1, StepTable(|picks| + 1).0, |picks| + 1, choice)
  {
    assert (picks + [choice])[..|picks|] == picks;
  }

  /**
   * A full regular draft: deck A holds 7 classes, deck B 8, and together they
   * are the fifteen offered classes, each once.
   */
  lemma FullDraft(picks: seq<Class>)
    requires RegularPicks(picks) && |picks| == LastStep
    ensures |DealAll(picks).0| == 7 && |DealAll(picks).1| == 8
    ensures multiset(DealAll(picks).0) + multiset(DealAll(picks).1) == multiset(AllClasses)
  {
    DealAllSpec(picks);
    OfferedAll();
  }

  /** The seven offers together are the fifteen classes. */
  lemma OfferedAll()
    ensures Offered(LastStep) == AllClasses
  {
    assert Offered(1) == [Xelor, Eniripsa];
    assert Offered(2) == [Xelor, Eniripsa, Zobal, Feca];
    assert Offered(3) == [Xelor, Eniripsa, Zobal, Feca, Pandawa, Sacrieur];
    assert Offered(4) == [Xelor, Eniripsa, Zobal, Feca, Pandawa, Sacrieur, Sadida, Osamodas];
    assert Offered(5) == [Xelor, Eniripsa, Zobal, Feca, Pandawa, Sacrieur, Sadida, Osamodas, Enutrof, Steamer];
    assert Offered(6) == [Xelor, Eniripsa, Zobal, Feca, Pandawa, Sacrieur, Sadida, Osamodas, Enutrof, Steamer, Iop, Ecaflip];
  }

  /** Button labels identify classes: no two classes share a name. */
  lemma NameInjective(a: Class, b: Class)
    requires Name(a) == Name(b)
    ensures a == b
  {
    assert Name(a)[..2] == Name(b)[..2] && Name(a)[|Name(a)| - 1] == Name(b)[|Name(b)| - 1];
  }

  /** The fifteen classes are distinct. */
  lemma AllClassesDistinct()
    ensures forall i, j :: 0 <= i < j < |AllClasses| ==> AllClasses[i] != AllClasses[j]
  {
  }

}
