/**
 * Model of cogs/attackers.py: the attacking-alliance panel. A click on an
 * alliance button is refused for 60 seconds after the same user's last
 * accepted click on the same alliance; an accepted click either updates the
 * user's last alert or leaves the alliance pending for the user's next alert,
 * for 120 seconds. The three module dictionaries are the fields of
 * `AttackersState`; `time.time()` is the parameter `now`, in whole seconds.
 * Fetching and editing Discord messages are left out: their outcomes are
 * parameters.
 */
module Attackers {

  import opened Wrappers
  import Cooldown

  const AttackerCooldown := 60
  const AttackerExpiration := 120
  const AttackerList: seq<string> := ["VAE", "WBC", "BRUT", "KOBO", "HZN", "CLT", "METAA", "AUTRE"]

  /** A pending click: the alliance and when it was made. */
  type Pending = (string, int)

  // ---------------- the rules, on the dictionaries' values ----------------

  /** The name `get_pending_attacker` returns: the pending alliance while at most 120 seconds old. */
  function PendingName(pending: map<int, Pending>, userId: int, now: int): Option<string> {
    if userId !in pending then None
    else if now - pending[userId].1 > AttackerExpiration then None
    else Some(pending[userId].0)
  }

  /** The pending dictionary after `get_pending_attacker`: an expired entry is deleted, anything else kept. */
  function AfterPendingRead(pending: map<int, Pending>, userId: int, now: int): map<int, Pending> {
    if userId in pending && now - pending[userId].1 > AttackerExpiration then pending - {userId} else pending
  }

  /** An accepted click puts its (user, alliance) pair on cooldown for the next 60 seconds and no other pair. */
  lemma ClickCooldown(cooldowns: map<(int, string), int>, userId: int, alliance: string, t: int, d: int,
                      otherUser: int, otherAlliance: string, now: int)
    requires 0 <= d
    ensures !Cooldown.Ready(cooldowns[(userId, alliance) := t], (userId, alliance), t + d, AttackerCooldown) <==> d < AttackerCooldown
    ensures (otherUser, otherAlliance) != (userId, alliance) ==>
      Cooldown.Ready(cooldowns[(userId, alliance) := t], (otherUser, otherAlliance), now, AttackerCooldown)
        == Cooldown.Ready(cooldowns, (otherUser, otherAlliance), now, AttackerCooldown)
  {
  }

  /**
   * A pending alliance reads back for 120 seconds, the 120th included, and
   * the read keeps it; after that the read gives nothing and deletes it.
   * A newer click overrides an older one.
   */
  lemma PendingLifetime(pending: map<int, Pending>, userId: int, alliance: string, t: int, d: int)
    ensures PendingName(pending[userId := (alliance, t)], userId, t + d) == (if d <= AttackerExpiration then Some(alliance) else None)
    ensures AfterPendingRead(pending[userId := (alliance, t)], userId, t + d)
      == (if d <= AttackerExpiration then pending[userId := (alliance, t)] else pending - {userId})
  {
  }

  /** A read only ever deletes the reader's own expired entry, and only when it returns nothing. */
  lemma PendingReadEffect(pending: map<int, Pending>, userId: int, now: int)
    ensures PendingName(pending, userId, now).Some? ==> AfterPendingRead(pending, userId, now) == pending
    ensures forall u :: u != userId ==> (u in AfterPendingRead(pending, userId, now) <==> u in pending)
    ensures forall u :: u != userId && u in pending ==> AfterPendingRead(pending, userId, now)[u] == pending[u]
    ensures userId in pending && PendingName(pending, userId, now).None? ==> userId !in AfterPendingRead(pending, userId, now)
  {
  }

  // ---------------- the module state ----------------

  /** What a click on an alliance button led to. */
  datatype ClickOutcome =
    | CooldownRefused
    | AppliedToLastAlert
    | EditFailed
    | StoredPending

  class AttackersState {
    /** `attack_cooldowns`: (user, alliance) to the time of the last accepted click. */
    var cooldowns: map<(int, string), int>
    /** `pending_attackers`: user to the alliance clicked and when. */
    var pending: map<int, Pending>
    /** `user_last_alert`: user to the id of their last alert (nothing in the file writes it). */
    var userLastAlert: map<int, int>

    constructor ()
      ensures cooldowns == map[] && pending == map[] && userLastAlert == map[]
    {
      cooldowns, pending, userLastAlert := map[], map[], map[];
    }

    /** `is_on_cooldown`: the pair was accepted less than 60 seconds ago. */
    function IsOnCooldown(userId: int, alliance: string, now: int): (r: bool)
      reads this
      ensures r <==> !Cooldown.Ready(cooldowns, (userId, alliance), now, AttackerCooldown)
      ensures (userId, alliance) !in cooldowns ==> !r
    {
      (userId, alliance) in cooldowns && now - cooldowns[(userId, alliance)] < AttackerCooldown
    }

    /** `set_cooldown`: the pair's last accepted click is now. */
    method SetCooldown(userId: int, alliance: string, now: int)
      modifies this`cooldowns
      ensures cooldowns == old(cooldowns)[(userId, alliance) := now]
      ensures !Cooldown.Ready(cooldowns, (userId, alliance), now, AttackerCooldown)
    {
      cooldowns := cooldowns[(userId, alliance) := now];
    }

    /** `set_pending_attacker`: the user's pending alliance, replacing any earlier one. */
    method SetPendingAttacker(userId: int, alliance: string, now: int)
      modifies this`pending
      ensures pending == old(pending)[userId := (alliance, now)]
      ensures PendingName(pending, userId, now) == Some(alliance)
    {
      pending := pending[userId := (alliance, now)];
    }

    /** `get_pending_attacker`: the pending alliance if at most 120 seconds old; an older entry is deleted. */
    method GetPendingAttacker(userId: int, now: int) returns (name: Option<string>)
      modifies this`pending
      ensures name == PendingName(old(pending), userId, now)
      ensures pending == AfterPendingRead(old(pending), userId, now)
    {
      if userId !in pending {
        return None;
      }
      var (n, ts) := pending[userId];
      if now - ts > AttackerExpiration {
        pending := pending - {userId};
        return None;
      }
      name := Some(n);
    }

    /**
     * A click on an alliance's button. A click during the cooldown is refused
     * and changes nothing; otherwise the cooldown is set first. When the user
     * has a last alert and it could be fetched with its embed
     * (`lastAlertFound`), that alert is edited (`editOk` says whether the edit
     * went through) and nothing is left pending; otherwise the alliance is
     * left pending.
     */
    method OnClick(userId: int, alliance: string, now: int, lastAlertFound: bool, editOk: bool) returns (outcome: ClickOutcome)
      modifies this`cooldowns, this`pending
      ensures cooldowns == Cooldown.Stamp(old(cooldowns), (userId, alliance), now, AttackerCooldown)
      ensures !Cooldown.Ready(old(cooldowns), (userId, alliance), now, AttackerCooldown) ==>
        outcome == CooldownRefused && pending == old(pending)
      ensures Cooldown.Ready(old(cooldowns), (userId, alliance), now, AttackerCooldown) && userId in userLastAlert && lastAlertFound ==>
        outcome == (if editOk then AppliedToLastAlert else EditFailed) && pending == old(pending)
      ensures Cooldown.Ready(old(cooldowns), (userId, alliance), now, AttackerCooldown) && !(userId in userLastAlert && lastAlertFound) ==>
        outcome == StoredPending && pending == old(pending)[userId := (alliance, now)]
    {
      if IsOnCooldown(userId, alliance, now) {
        return CooldownRefused;
      }
      SetCooldown(userId, alliance, now);
      var found := userId in userLastAlert && lastAlertFound;
      if found {
        outcome := if editOk then AppliedToLastAlert else EditFailed;
      } else {
        SetPendingAttacker(userId, alliance, now);
        outcome := StoredPending;
      }
    }

    /**
     * `apply_pending_attacker`, called when the user's alert is sent: without
     * a valid non-empty pending alliance nothing is applied (an expired entry
     * is still deleted by the read); otherwise the alert is edited, and the
     * entry is deleted only when the edit succeeds.
     */
    method ApplyPendingAttacker(userId: int, now: int, editOk: bool) returns (applied: bool)
      modifies this`pending
      ensures applied <==> PendingName(old(pending), userId, now).Some? && PendingName(old(pending), userId, now).value != "" && editOk
      ensures applied ==> pending == old(pending) - {userId}
      ensures !applied ==> pending == AfterPendingRead(old(pending), userId, now)
    {
      var alliance := GetPendingAttacker(userId, now);
      if alliance.None? || alliance.value == "" {
        return false;
      }
      PendingReadEffect(old(pending), userId, now);
      if !editOk {
        return false;
      }
      pending := pending - {userId};
      applied := true;
    }
  }
}
