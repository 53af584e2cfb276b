/** Ordering by an integer key: the model of SQL `ORDER BY` and Python `sorted(key=...)`. */
module Sorting {

  import Sets

  /** `s` is in non-decreasing order of `key`. Descending orders use a negated key. */
  ghost predicate SortedBy<T>(s: seq<T>, key: T -> int) {
    forall i, j :: 0 <= i < j < |s| ==> key(s[i]) <= key(s[j])
  }

  /** Inserts `x` in front of the first element whose key is not smaller. */
  function InsertBy<T>(x: T, s: seq<T>, key: T -> int): (r: seq<T>)
    ensures multiset(r) == multiset(s) + multiset{x}
    ensures |r| == |s| + 1
    decreases |s|
  {
    if s == [] || key(x) <= key(s[0]) then [x] + s
    else
      assert s == [s[0]] + s[1..];
      [s[0]] + InsertBy(x, s[1..], key)
  }

  /** Inserting into a sorted sequence keeps it sorted. */
  lemma {:induction false} InsertBySorted<T>(x: T, s: seq<T>, key: T -> int)
    requires SortedBy(s, key)
    ensures SortedBy(InsertBy(x, s, key), key)
    decreases |s|
  {
    if s == [] || key(x) <= key(s[0]) {
      var r := [x] + s;
      forall i, j | 0 <= i < j < |r| ensures key(r[i]) <= key(r[j]) {
        assert r[j] == s[j - 1];
        if i > 0 {
          assert r[i] == s[i - 1];
        }
      }
    } else {
      var rest := InsertBy(x, s[1..], key);
      InsertBySorted(x, s[1..], key);
      forall j | 0 <= j < |rest| ensures key(s[0]) <= key(rest[j]) {
        assert rest[j] in multiset(rest);
        if rest[j] != x {
          assert rest[j] in multiset(s[1..]);
          var m :| 0 <= m < |s[1..]| && s[1..][m] == rest[j];
          assert s[m + 1] == rest[j];
        }
      }
      var r := [s[0]] + rest;
      forall i, j | 0 <= i < j < |r| ensures key(r[i]) <= key(r[j]) {
        assert r[j] == rest[j - 1];
        if i > 0 {
          assert r[i] == rest[i - 1];
        }
      }
    }
  }

  /**
   * The members of `keys`, each exactly once, sorted by `key`.
   * The order among members of equal key is left open.
   */
  method SortedKeys(keys: set<int>, key: int -> int) returns (r: seq<int>)
    ensures SortedBy(r, key)
    ensures multiset(r) == multiset(keys)
  {
    var todo := keys;
    r := [];
    while todo != {}
      invariant todo <= keys
      invariant SortedBy(r, key)
      invariant multiset(r) == multiset(keys - todo)
      decreases |todo|
    {
      Sets.NonEmpty(todo);
      var k :| k in todo;
      InsertBySorted(k, r, key);
      assert multiset(keys - (todo - {k})) == multiset(keys - todo) + multiset{k} by {
        assert keys - (todo - {k}) == (keys - todo) + {k};
      }
      r, todo := InsertBy(k, r, key), todo - {k};
    }
    assert keys - todo == keys;
  }
}
