/**
 * Model of cogs/alerts.py: the in-memory `alerts_data` records of the alert
 * panel (defenders capped at four, a result, an incomplete flag), the
 * `last_ping` cooldown map, and the operations that change them. Discord
 * messages, embeds and views are left out; a guild's text channels are the
 * set of their ids, and the id Discord gives a newly sent message is a
 * parameter.
 */
module Alerts {

  import Cooldown
  import Sets

  const MaxDefenders := 4
  const CooldownSeconds := 30
  const AlertChannelId := 1327548733398843413
  const AdminRoleId := 1280396795046006836
  const RoleTestId := 1358771105980088390

  /** The `result` field: None, "win" or "lose" (the only values ever stored). */
  datatype DefenseResult = Undecided | Win | Lose

  /** One `alerts_data` record. */
  datatype Alert = Alert(author: int, channelId: int, defenders: set<int>, result: DefenseResult, incomplete: bool)

  /** A ping-panel button: (caption, role pinged, cooldown key). */
  datatype Button = Button(caption: string, roleId: int, key: string)

  /** The two panel buttons; both ping the same role under the same cooldown key. */
  const Buttons: seq<Button> := [
    Button("WANTED", 1326671483455537172, "Def"),
    Button("Attaque simultanée", 1326671483455537172, "Def")
  ]

  /** What `send_alert` / `send_test_alert` answer. */
  datatype SendReply = CooldownRefused | AdminOnly | ChannelMissing | Sent(messageId: int)

  /** What `DefenderSelect.callback` answers. */
  datatype SelectReply = CogUnavailable | AlertGone | LimitReached | Added(users: seq<int>)

  /** What `AlertView.defender_button` answers. */
  datatype ButtonReply = ButtonAlertGone | NotADefender | ButtonLimitReached | OpenSelect

  /** The record `send_alert` and `send_test_alert` store for a new alert. */
  function NewAlert(author: int, channelId: int): (a: Alert)
    ensures a.author == author && a.channelId == channelId
    ensures a.defenders == {} && a.result == Undecided && !a.incomplete
  {
    Alert(author, channelId, {}, Undecided, false)
  }

  /** The incomplete flag flipped; nothing else changes. */
  function Toggled(a: Alert): (r: Alert)
    ensures r.incomplete != a.incomplete
    ensures r.author == a.author && r.channelId == a.channelId && r.defenders == a.defenders && r.result == a.result
  {
    a.(incomplete := !a.incomplete)
  }

  /** Two toggles restore the record. */
  lemma ToggleTwice(a: Alert)
    ensures Toggled(Toggled(a)) == a
  {
  }

  /**
   * The selection loop of `DefenderSelect.callback` on a defenders set: the
   * users are tried in order, each new one is added, and the loop stops as
   * soon as the set holds four. Returns the final set and the users added,
   * in order.
   */
  function Admit(defenders: set<int>, users: seq<int>): (set<int>, seq<int>)
    decreases |users|
  {
    if users == [] || |defenders| >= MaxDefenders then (defenders, [])
    else if users[0] in defenders then Admit(defenders, users[1..])
    else
      var rest := Admit(defenders + {users[0]}, users[1..]);
      (rest.0, [users[0]] + rest.1)
  }

  /** `r` with `added` reported in front of its users. */
  function After(added: seq<int>, r: (set<int>, seq<int>)): (set<int>, seq<int>) {
    (r.0, added + r.1)
  }

  /** At the cap nobody more is admitted. */
  lemma AdmitCapped(defenders: set<int>, users: seq<int>)
    requires |defenders| >= MaxDefenders
    ensures Admit(defenders, users) == (defenders, [])
  {
  }

  /** One step of `Admit` from position `i`, below the cap. */
  lemma AdmitFirst(defenders: set<int>, users: seq<int>, i: int)
    requires 0 <= i < |users| && |defenders| < MaxDefenders
    ensures users[i] in defenders ==> Admit(defenders, users[i..]) == Admit(defenders, users[i + 1..])
    ensures users[i] !in defenders ==>
      Admit(defenders, users[i..]) == After([users[i]], Admit(defenders + {users[i]}, users[i + 1..]))
  {
    assert users[i..][1..] == users[i + 1..];
  }

  /**
   * What the selection loop promises: the final set is the old one plus the
   * users reported as added; each added user was selected, was not yet a
   * defender and is reported once; the cap of four is never passed; and
   * when the cap was not reached every selected user ends up defending.
   */
  lemma {:induction false} AdmitSpec(defenders: set<int>, users: seq<int>)
    ensures forall u :: u in Admit(defenders, users).0 <==> u in defenders || u in Admit(defenders, users).1
    ensures forall i :: 0 <= i < |Admit(defenders, users).1| ==>
      Admit(defenders, users).1[i] in users && Admit(defenders, users).1[i] !in defenders
    ensures forall i, j :: 0 <= i < j < |Admit(defenders, users).1| ==> Admit(defenders, users).1[i] != Admit(defenders, users).1[j]
    ensures |defenders| <= MaxDefenders ==> |Admit(defenders, users).0| <= MaxDefenders
    ensures |Admit(defenders, users).0| < MaxDefenders ==> forall u :: u in users ==> u in Admit(defenders, users).0
    decreases |users|
  {
    if users == [] || |defenders| >= MaxDefenders {
    } else if users[0] in defenders {
      AdmitSpec(defenders, users[1..]);
      assert forall u :: u in users ==> u == users[0] || u in users[1..];
    } else {
      var d := defenders + {users[0]};
      AdmitSpec(d, users[1..]);
      assert forall u :: u in users ==> u == users[0] || u in users[1..];
      assert |d| == |defenders| + 1;
    }
  }

  /** Both panel buttons share one cooldown: pressing either blocks both for 30 seconds. */
  lemma ButtonsShareCooldown(last: map<string, int>, i: int, j: int, t: int, now: int)
    requires 0 <= i < |Buttons| && 0 <= j < |Buttons|
    requires Cooldown.Ready(last, Buttons[i].key, t, CooldownSeconds)
    requires t <= now < t + CooldownSeconds
    ensures !Cooldown.Ready(Cooldown.Stamp(last, Buttons[i].key, t, CooldownSeconds), Buttons[j].key, now, CooldownSeconds)
  {
    assert Buttons[i].key == Buttons[j].key == "Def";
  }

  class AlertsCog {
    var alertsData: map<int, Alert>
    var lastPing: map<string, int>

    /** No alert ever holds more than four defenders. */
    ghost predicate Valid()
      reads this
    {
      forall id :: id in alertsData ==> |alertsData[id].defenders| <= MaxDefenders
    }

    /** The process starts with no alerts and no pings. */
    constructor ()
      ensures Valid()
      ensures alertsData == map[] && lastPing == map[]
    {
      alertsData, lastPing := map[], map[];
    }

    /** `check_cooldown`: refused within 30 seconds of the key's last accepted ping, else stamps `now`. */
    method CheckCooldown(key: string, now: int) returns (ok: bool)
      modifies this`lastPing
      ensures ok <==> Cooldown.Ready(old(lastPing), key, now, CooldownSeconds)
      ensures lastPing == Cooldown.Stamp(old(lastPing), key, now, CooldownSeconds)
    {
      if key in lastPing && now - lastPing[key] < CooldownSeconds {
        return false;
      }
      lastPing := lastPing[key := now];
      return true;
    }

    /**
     * `add_defender_to_alert`: refused (false, nothing changes) for an unknown
     * alert, a user already defending or a full alert; otherwise adds the user.
     */
    method AddDefenderToAlert(alertId: int, userId: int) returns (ok: bool)
      requires Valid()
      modifies this`alertsData
      ensures Valid()
      ensures ok <==> alertId in old(alertsData) && userId !in old(alertsData)[alertId].defenders
                      && |old(alertsData)[alertId].defenders| < MaxDefenders
      ensures ok ==> alertsData == old(alertsData)[alertId := old(alertsData)[alertId].(defenders := old(alertsData)[alertId].defenders + {userId})]
      ensures !ok ==> alertsData == old(alertsData)
    {
      if alertId !in alertsData {
        return false;
      }
      var data := alertsData[alertId];
      if userId in data.defenders {
        return false;
      }
      if |data.defenders| >= MaxDefenders {
        return false;
      }
      alertsData := alertsData[alertId := data.(defenders := data.defenders + {userId})];
      return true;
    }

    /** `remove_defender_from_alert`: discards only that user; result and flag untouched. */
    method RemoveDefenderFromAlert(alertId: int, userId: int)
      requires Valid()
      modifies this`alertsData
      ensures Valid()
      ensures alertId !in old(alertsData) ==> alertsData == old(alertsData)
      ensures alertId in old(alertsData) ==>
        alertsData == old(alertsData)[alertId := old(alertsData)[alertId].(defenders := old(alertsData)[alertId].defenders - {userId})]
    {
      if alertId in alertsData {
        var data := alertsData[alertId];
        assert data.defenders - {userId} <= data.defenders;
        Sets.SubsetCard(data.defenders - {userId}, data.defenders);
        alertsData := alertsData[alertId := data.(defenders := data.defenders - {userId})];
      }
    }

    /** `mark_defense_won`: the result becomes "win" whatever it was. */
    method MarkDefenseWon(alertId: int)
      requires Valid()
      modifies this`alertsData
      ensures Valid()
      ensures alertId !in old(alertsData) ==> alertsData == old(alertsData)
      ensures alertId in old(alertsData) ==> alertsData == old(alertsData)[alertId := old(alertsData)[alertId].(result := Win)]
    {
      if alertId in alertsData {
        alertsData := alertsData[alertId := alertsData[alertId].(result := Win)];
      }
    }

    /** `mark_defense_lost`: the result becomes "lose" whatever it was. */
    method MarkDefenseLost(alertId: int)
      requires Valid()
      modifies this`alertsData
      ensures Valid()
      ensures alertId !in old(alertsData) ==> alertsData == old(alertsData)
      ensures alertId in old(alertsData) ==> alertsData == old(alertsData)[alertId := old(alertsData)[alertId].(result := Lose)]
    {
      if alertId in alertsData {
        alertsData := alertsData[alertId := alertsData[alertId].(result := Lose)];
      }
    }

    /** `toggle_incomplete`: flips the flag of a known alert. */
    method ToggleIncomplete(alertId: int)
      requires Valid()
      modifies this`alertsData
      ensures Valid()
      ensures alertId !in old(alertsData) ==> alertsData == old(alertsData)
      ensures alertId in old(alertsData) ==> alertsData == old(alertsData)[alertId := Toggled(old(alertsData)[alertId])]
    {
      if alertId in alertsData {
        alertsData := alertsData[alertId := Toggled(alertsData[alertId])];
      }
    }

    /**
     * `send_alert`: the cooldown is consumed first, so a missing alert channel
     * still starts the cooldown; on success a fresh record is stored under the
     * id of the embed message.
     */
    method SendAlert(cooldownKey: string, invoker: int, textChannels: set<int>, newMessageId: int, now: int)
      returns (reply: SendReply)
      requires Valid()
      modifies this`alertsData, this`lastPing
      ensures Valid()
      ensures lastPing == Cooldown.Stamp(old(lastPing), cooldownKey, now, CooldownSeconds)
      ensures !Cooldown.Ready(old(lastPing), cooldownKey, now, CooldownSeconds) ==> reply == CooldownRefused
      ensures Cooldown.Ready(old(lastPing), cooldownKey, now, CooldownSeconds) && AlertChannelId !in textChannels ==> reply == ChannelMissing
      ensures Cooldown.Ready(old(lastPing), cooldownKey, now, CooldownSeconds) && AlertChannelId in textChannels ==> reply == Sent(newMessageId)
      ensures reply.Sent? ==> alertsData == old(alertsData)[newMessageId := NewAlert(invoker, AlertChannelId)]
      ensures !reply.Sent? ==> alertsData == old(alertsData)
    {
      var ok := CheckCooldown(cooldownKey, now);
      if !ok {
        return CooldownRefused;
      }
      if AlertChannelId !in textChannels {
        return ChannelMissing;
      }
      alertsData := alertsData[newMessageId := NewAlert(invoker, AlertChannelId)];
      return Sent(newMessageId);
    }

    /** `send_test_alert`: admins only, no cooldown; otherwise stores a fresh record like `send_alert`. */
    method SendTestAlert(invoker: int, invokerRoles: seq<int>, textChannels: set<int>, newMessageId: int)
      returns (reply: SendReply)
      requires Valid()
      modifies this`alertsData
      ensures Valid()
      ensures AdminRoleId !in invokerRoles ==> reply == AdminOnly
      ensures AdminRoleId in invokerRoles && AlertChannelId !in textChannels ==> reply == ChannelMissing
      ensures AdminRoleId in invokerRoles && AlertChannelId in textChannels ==> reply == Sent(newMessageId)
      ensures reply.Sent? ==> alertsData == old(alertsData)[newMessageId := NewAlert(invoker, AlertChannelId)]
      ensures !reply.Sent? ==> alertsData == old(alertsData)
    {
      if AdminRoleId !in invokerRoles {
        return AdminOnly;
      }
      if AlertChannelId !in textChannels {
        return ChannelMissing;
      }
      alertsData := alertsData[newMessageId := NewAlert(invoker, AlertChannelId)];
      return Sent(newMessageId);
    }

    /** `AlertView.defender_button`: the gate in front of the defender selector. */
    function DefenderButton(alertId: int, userId: int): (reply: ButtonReply)
      reads this
      ensures reply == OpenSelect <==>
        (alertId in alertsData && userId in alertsData[alertId].defenders && |alertsData[alertId].defenders| < MaxDefenders)
      ensures reply == ButtonAlertGone <==> alertId !in alertsData
      ensures reply == NotADefender <==> alertId in alertsData && userId !in alertsData[alertId].defenders
      ensures reply == ButtonLimitReached <==>
        (alertId in alertsData && userId in alertsData[alertId].defenders && |alertsData[alertId].defenders| >= MaxDefenders)
    {
      if alertId !in alertsData then ButtonAlertGone
      else if userId !in alertsData[alertId].defenders then NotADefender
      else if |alertsData[alertId].defenders| >= MaxDefenders then ButtonLimitReached
      else OpenSelect
    }

    /**
     * `DefenderSelect.callback`: after the cog, alert and cap guards, adds the
     * selected users one by one until the alert holds four defenders.
     */
    method DefenderSelectCallback(alertId: int, users: seq<int>, cogLoaded: bool) returns (reply: SelectReply)
      requires Valid()
      modifies this`alertsData
      ensures Valid()
      ensures !cogLoaded ==> reply == CogUnavailable && alertsData == old(alertsData)
      ensures cogLoaded && alertId !in old(alertsData) ==> reply == AlertGone && alertsData == old(alertsData)
      ensures cogLoaded && alertId in old(alertsData) && |old(alertsData)[alertId].defenders| >= MaxDefenders ==>
        reply == LimitReached && alertsData == old(alertsData)
      ensures cogLoaded && alertId in old(alertsData) && |old(alertsData)[alertId].defenders| < MaxDefenders ==>
        reply == Added(Admit(old(alertsData)[alertId].defenders, users).1)
        && alertsData == old(alertsData)[alertId := old(alertsData)[alertId].(defenders := Admit(old(alertsData)[alertId].defenders, users).0)]
    {
      if !cogLoaded {
        return CogUnavailable;
      }
      if alertId !in alertsData {
        return AlertGone;
      }
      if |alertsData[alertId].defenders| >= MaxDefenders {
        return LimitReached;
      }
      var added := AddSelected(alertId, users);
      return Added(added);
    }

    /** The loop of `DefenderSelect.callback`: one `add_defender_to_alert` per selected user until the cap is hit. */
    method AddSelected(alertId: int, users: seq<int>) returns (added: seq<int>)
      requires Valid() && alertId in alertsData
      modifies this`alertsData
      ensures Valid()
      ensures added == Admit(old(alertsData)[alertId].defenders, users).1
      ensures alertsData == old(alertsData)[alertId := old(alertsData)[alertId].(defenders := Admit(old(alertsData)[alertId].defenders, users).0)]
    {
      ghost var start := alertsData[alertId].defenders;
      added := [];
      var i := 0;
      assert users[i..] == users;
      assert [] + Admit(start, users).1 == Admit(start, users).1;
      while i < |users|
        invariant 0 <= i <= |users|
        invariant Valid()
        invariant alertId in alertsData
        invariant alertsData == old(alertsData)[alertId := old(alertsData)[alertId].(defenders := alertsData[alertId].defenders)]
        invariant Admit(start, users) == After(added, Admit(alertsData[alertId].defenders, users[i..]))
      {
        if |alertsData[alertId].defenders| >= MaxDefenders {
          AdmitCapped(alertsData[alertId].defenders, users[i..]);
          break;
        }
        ghost var d := alertsData[alertId].defenders;
        AdmitFirst(d, users, i);
        var ok := AddDefenderToAlert(alertId, users[i]);
        if ok {
          assert alertsData[alertId].defenders == d + {users[i]};
          ghost var rest := Admit(d + {users[i]}, users[i + 1..]);
          assert (added + [users[i]]) + rest.1 == added + ([users[i]] + rest.1);
          added := added + [users[i]];
        } else {
          assert users[i] in d;
        }
        i := i + 1;
      }
    }
  }
}
