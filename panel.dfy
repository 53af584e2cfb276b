/**
 * Model of cogs/panel.py: the defence ping panel. Each of its two buttons
 * pings the defence role and posts an alert, at most once per 30 seconds per
 * button; the TEST button is for admins only and has no cooldown. Alerts are
 * registered with the reaction-driven runtime of cogs/alerts_runtime.py when
 * that cog is loaded. The module dictionary `last_ping` is a field of
 * `PanelState`; `time.time()` is the parameter `now`, in whole seconds.
 */
module Panel {

  import Cooldown
  import AlertsRuntime
  import Text

  const AlertChannelId := 1327548733398843413
  const AdminRoleId := 1280396795046006836
  const RoleTestId := 1358771105980088390
  const CooldownSeconds := 30

  /** A panel button: its label, the role it pings and the label of its embed. */
  datatype Button = Button(caption: string, roleId: int, embedLabel: string)

  const Buttons: seq<Button> := [
    Button("WANTED", 1326671483455537172, "Def"),
    Button("Attaque simultanée", 1326671483455537172, "Def")
  ]

  /** The cooldown key of a button: its callback passes its own label as `cooldown_key`. */
  function ButtonKey(i: int): (key: string)
    requires 0 <= i < |Buttons|
    ensures key == Buttons[i].caption
  {
    Buttons[i].caption
  }

  /** The two buttons have independent cooldowns: pressing one never blocks the other. */
  lemma ButtonsIndependent(last: map<string, int>, i: int, j: int, t: int, now: int)
    requires 0 <= i < |Buttons| && 0 <= j < |Buttons| && i != j
    ensures Cooldown.Ready(Cooldown.Stamp(last, ButtonKey(i), t, CooldownSeconds), ButtonKey(j), now, CooldownSeconds)
      == Cooldown.Ready(last, ButtonKey(j), now, CooldownSeconds)
  {
    assert Buttons[0].caption[0] != Buttons[1].caption[0];
    Cooldown.KeysIndependent(last, ButtonKey(i), ButtonKey(j), t, now, CooldownSeconds);
  }

  /** What a button press answers. */
  datatype Reply = Refused | AdminOnly | ChannelMissing | Sent(ping: string, title: string)

  class PanelState {
    /** `last_ping`: cooldown key to the time of its last accepted ping. */
    var lastPing: map<string, int>

    constructor ()
      ensures lastPing == map[]
    {
      lastPing := map[];
    }

    /** `check_cooldown`: refused within 30 seconds of the key's last accepted ping, else stamps `now` for that key only. */
    method CheckCooldown(key: string, now: int) returns (ok: bool)
      modifies this`lastPing
      ensures ok <==> Cooldown.Ready(old(lastPing), key, now, CooldownSeconds)
      ensures lastPing == Cooldown.Stamp(old(lastPing), key, now, CooldownSeconds)
    {
      if key in lastPing && now - lastPing[key] < CooldownSeconds {
        return false;
      }
      lastPing := lastPing[key := now];
      ok := true;
    }

    /**
     * `send_alert`: a refused ping returns before anything is sent or
     * registered; otherwise the cooldown is consumed (even when the alert
     * channel turns out to be missing), the role is pinged, the alert posted
     * as `messageId`, and registered with the runtime cog when it is loaded.
     */
    method SendAlert(cooldownKey: string, roleId: int, embedLabel: string, invoker: int, channels: set<int>,
                     messageId: int, runtime: AlertsRuntime.AlertsRuntimeCog?, now: int) returns (reply: Reply)
      modifies this`lastPing, runtime
      ensures lastPing == Cooldown.Stamp(old(lastPing), cooldownKey, now, CooldownSeconds)
      ensures !Cooldown.Ready(old(lastPing), cooldownKey, now, CooldownSeconds) ==> reply == Refused
      ensures Cooldown.Ready(old(lastPing), cooldownKey, now, CooldownSeconds) && AlertChannelId !in channels ==> reply == ChannelMissing
      ensures Cooldown.Ready(old(lastPing), cooldownKey, now, CooldownSeconds) && AlertChannelId in channels ==>
        reply == Sent(PingText(roleId), AlertTitle(embedLabel))
      ensures runtime != null && reply.Sent? ==>
        runtime.alertsData == old(runtime.alertsData)[messageId := AlertsRuntime.Registered(invoker)]
      ensures runtime != null && !reply.Sent? ==> runtime.alertsData == old(runtime.alertsData)
    {
      var ok := CheckCooldown(cooldownKey, now);
      if !ok {
        return Refused;
      }
      if AlertChannelId !in channels {
        return ChannelMissing;
      }
      reply := Sent(PingText(roleId), AlertTitle(embedLabel));
      if runtime != null {
        runtime.RegisterAlert(messageId, invoker);
      }
    }

    /** `send_test_alert`: admins only and no cooldown; pings the test role and registers the alert like `send_alert`. */
    method SendTestAlert(invoker: int, invokerRoles: seq<int>, channels: set<int>, messageId: int,
                         runtime: AlertsRuntime.AlertsRuntimeCog?) returns (reply: Reply)
      modifies runtime
      ensures AdminRoleId !in invokerRoles ==> reply == AdminOnly
      ensures AdminRoleId in invokerRoles && AlertChannelId !in channels ==> reply == ChannelMissing
      ensures AdminRoleId in invokerRoles && AlertChannelId in channels ==> reply == Sent(RoleMention(RoleTestId), AlertTitle("TEST"))
      ensures runtime != null && reply.Sent? ==>
        runtime.alertsData == old(runtime.alertsData)[messageId := AlertsRuntime.Registered(invoker)]
      ensures runtime != null && !reply.Sent? ==> runtime.alertsData == old(runtime.alertsData)
    {
      if AdminRoleId !in invokerRoles {
        return AdminOnly;
      }
      if AlertChannelId !in channels {
        return ChannelMissing;
      }
      reply := Sent(RoleMention(RoleTestId), AlertTitle("TEST"));
      if runtime != null {
        runtime.RegisterAlert(messageId, invoker);
      }
    }

    /** The callback of panel button `i`: `send_alert` keyed by the button's own label. */
    method PressButton(i: int, invoker: int, channels: set<int>, messageId: int,
                       runtime: AlertsRuntime.AlertsRuntimeCog?, now: int) returns (reply: Reply)
      requires 0 <= i < |Buttons|
      modifies this`lastPing, runtime
      ensures lastPing == Cooldown.Stamp(old(lastPing), ButtonKey(i), now, CooldownSeconds)
      ensures reply == Refused <==> !Cooldown.Ready(old(lastPing), ButtonKey(i), now, CooldownSeconds)
    {
      var b := Buttons[i];
      reply := SendAlert(b.caption, b.roleId, b.embedLabel, invoker, channels, messageId, runtime, now);
    }
  }

  /** `<@&id>`: the mention of a role. */
  function RoleMention(roleId: int): string {
    "<@&" + Text.IntToString(roleId) + ">"
  }

  /** The ping message of `send_alert`. */
  function PingText(roleId: int): string {
    RoleMention(roleId) + " les cafards se font attaquer ! 🚨"
  }

  /** The title of the alert embed. */
  function AlertTitle(embedLabel: string): string {
    "⚠️ Percepteur attaqué : " + embedLabel
  }
}
