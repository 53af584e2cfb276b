/**
 * The time-keyed cooldown rule shared by cogs/alerts.py, cogs/panel.py and
 * cogs/attackers.py: each keeps its own map from a key to the time (in
 * seconds) of the last accepted attempt, and an attempt is refused while
 * fewer than `period` seconds have passed since then.
 */
module Cooldown {

  /** An attempt on `key` at `now` is accepted: never accepted before, or `period` seconds have passed. */
  predicate Ready<K>(last: map<K, int>, key: K, now: int, period: int) {
    !(key in last && now - last[key] < period)
  }

  /** The stamp map after an attempt: an accepted attempt records `now` for its key only. */
  function Stamp<K>(last: map<K, int>, key: K, now: int, period: int): (r: map<K, int>)
    ensures key in r
    ensures r.Keys == last.Keys + {key} || r == last
    ensures Ready(last, key, now, period) ==> r[key] == now
    ensures !Ready(last, key, now, period) ==> r == last
    ensures forall k :: k != key && k in last ==> k in r && r[k] == last[k]
  {
    if Ready(last, key, now, period) then last[key := now] else last
  }

  /** The first attempt on a key always succeeds. */
  lemma FirstAttemptAccepted<K>(last: map<K, int>, key: K, now: int, period: int)
    requires key !in last
    ensures Ready(last, key, now, period)
  {
  }

  /** Once accepted at `t`, the key is refused until `t + period` and accepted from then on. */
  lemma AcceptedThenWindow<K>(last: map<K, int>, key: K, t: int, now: int, period: int)
    requires Ready(last, key, t, period)
    requires t <= now
    ensures !Ready(Stamp(last, key, t, period), key, now, period) <==> now < t + period
  {
  }

  /** An attempt on one key never changes whether another key is ready. */
  lemma KeysIndependent<K>(last: map<K, int>, key: K, other: K, t: int, now: int, period: int)
    requires other != key
    ensures Ready(Stamp(last, key, t, period), other, now, period) == Ready(last, other, now, period)
  {
  }
}
