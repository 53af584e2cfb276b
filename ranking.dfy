/**
 * Top-N selection by a score and the rank prefixes shared by
 * cogs/leaderboard.py and cogs/leaderboard_triggers.py (sort the entries by
 * non-increasing score, keep the first N, prefix rank k with a medal for
 * k <= 3 and "k." after that). `get_leaderboard_totals` in storage.py
 * orders and limits its rows the same way.
 */
module Ranking {

  import Sorting
  import Text

  /** The three medal prefixes. */
  const Medals: seq<string> := ["🥇", "🥈", "🥉"]

  /**
   * The keys of `scores` with the `limit` highest scores, best first. Keys of
   * equal score come in an unspecified order.
   */
  method Top(scores: map<int, int>, limit: nat) returns (top: seq<int>)
    ensures |top| == if limit < |scores| then limit else |scores|
    ensures forall i :: 0 <= i < |top| ==> top[i] in scores
    ensures forall i, j :: 0 <= i < j < |top| ==> top[i] != top[j]
    ensures forall i, j :: 0 <= i < j < |top| ==> scores[top[i]] >= scores[top[j]]
    ensures forall i, u :: 0 <= i < |top| && u in scores && u !in top ==> scores[top[i]] >= scores[u]
  {
    var key := x => if x in scores then -scores[x] else 0;
    var sorted := Sorting.SortedKeys(scores.Keys, key);
    assert |multiset(sorted)| == |multiset(scores.Keys)|;
    assert forall i :: 0 <= i < |sorted| ==> sorted[i] in scores by {
      forall i | 0 <= i < |sorted| ensures sorted[i] in scores {
        assert sorted[i] in multiset(sorted);
      }
    }
    var n := if limit < |sorted| then limit else |sorted|;
    top := sorted[..n];
    forall i, j | 0 <= i < j < |top| ensures top[i] != top[j] {
      Distinct(sorted, scores.Keys, i, j);
    }
    forall i, j | 0 <= i < j < |top| ensures scores[top[i]] >= scores[top[j]] {
      assert key(sorted[i]) <= key(sorted[j]);
    }
    forall i, u | 0 <= i < |top| && u in scores && u !in top
      ensures scores[top[i]] >= scores[u]
    {
      assert u in multiset(sorted);
      var j :| 0 <= j < |sorted| && sorted[j] == u;
      assert key(sorted[i]) <= key(sorted[j]);
    }
  }

  /** Two positions of a sequence that lists each member of a set once hold different members. */
  lemma Distinct(s: seq<int>, keys: set<int>, i: int, j: int)
    requires multiset(s) == multiset(keys)
    requires 0 <= i < j < |s|
    ensures s[i] != s[j]
  {
    var x := s[i];
    assert s == s[..i] + [s[i]] + s[i + 1..j] + [s[j]] + s[j + 1..];
    assert multiset(s)[x] == multiset(s[..i])[x] + 1 + multiset(s[i + 1..j])[x] + multiset([s[j]])[x] + multiset(s[j + 1..])[x];
    assert multiset(keys)[x] <= 1;
  }

  /** The prefix of rank `rank` (counted from 1). */
  function RankPrefix(rank: nat): (p: string)
    requires rank >= 1
    ensures rank <= 3 ==> p == Medals[rank - 1] && |p| == 1
    ensures rank > 3 ==> |p| >= 2 && p[|p| - 1] == '.' && Text.IsDigits(p[..|p| - 1]) && Text.DigitsValue(p[..|p| - 1]) == rank
  {
    if rank <= 3 then Medals[rank - 1]
    else
      Text.NatToStringRoundTrip(rank);
      assert (Text.NatToString(rank) + ".")[..|Text.NatToString(rank)|] == Text.NatToString(rank);
      Text.NatToString(rank) + "."
  }

  /** Different ranks never share a prefix. */
  lemma RankPrefixInjective(i: nat, j: nat)
    requires i >= 1 && j >= 1 && i != j
    ensures RankPrefix(i) != RankPrefix(j)
  {
  }

  /** A user mention, `<@id>`. */
  function Mention(userId: int): string {
    "<@" + Text.IntToString(userId) + ">"
  }
}
