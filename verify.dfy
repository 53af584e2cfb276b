/**
 * Model of the rules of cogs/verify.py: name normalisation, the guild options
 * offered to a newcomer (the guild's teams, then "Invité"), the paired roles
 * (Wanted with Wanted 2, HagraTime with HagraPaLtime), the roles granted on
 * approval, the guild select's chosen option and the extra-roles select's ids.
 * Discord members, roles and the views' I/O are left out: options are
 * (label, role id) pairs and a select's values are its strings.
 */
module Verify {

  import opened Wrappers
  import Text
  import Storage

  const DirectionRoleId := 1139555104463257671
  const InviteRoleId := 1139574688255844484
  const MemberRoleId := 1139556803638726717
  const InviteLabel := "Invité"

  /** A guild option: its label and its role id. */
  type GuildOption = (string, int)

  // ---------------- normalize_name ----------------

  predicate IsLower(s: string) {
    forall i :: 0 <= i < |s| ==> Text.LowerChar(s[i]) == s[i]
  }

  predicate Trimmed(s: string) {
    s == [] || (!Text.IsSpace(s[0]) && !Text.IsSpace(s[|s| - 1]))
  }

  /** `normalize_name`: no name reads as "", otherwise surrounding whitespace is removed and letters are lower-cased. */
  function NormalizeName(name: Option<string>): string {
    Text.Lower(Text.Strip(name.GetOr("")))
  }

  /** A normalised name has no surrounding whitespace and no capital letter; no name normalises to "". */
  lemma NormalizeSpec(name: Option<string>)
    ensures name.None? ==> NormalizeName(name) == ""
    ensures Trimmed(NormalizeName(name)) && IsLower(NormalizeName(name))
  {
    var s := Text.Strip(name.GetOr(""));
    StripTrims(name.GetOr(""));
    LowerKeepsSpaces(s);
  }

  /** Lower-casing never turns a space into a letter or a letter into a space, and is idempotent. */
  lemma LowerKeepsSpaces(s: string)
    ensures forall i :: 0 <= i < |s| ==> (Text.IsSpace(Text.LowerChar(s[i])) <==> Text.IsSpace(s[i]))
    ensures IsLower(Text.Lower(s))
  {
  }

  /** A stripped string has no surrounding whitespace. */
  lemma StripTrims(s: string)
    ensures Trimmed(Text.Strip(s))
  {
    var t := Text.TrimStart(s);
    var r := Text.TrimEnd(t);
    Text.TrimStartSpec(s);
    Text.TrimEndSpec(t);
    if r != [] {
      assert r[0] == t[0];
    }
  }

  /** A string without surrounding whitespace is its own strip. */
  lemma StripTrimmed(s: string)
    requires Trimmed(s)
    ensures Text.Strip(s) == s
  {
  }

  /** Normalising is idempotent: a normalised name normalises to itself. */
  lemma NormalizeIdempotent(name: Option<string>)
    ensures NormalizeName(Some(NormalizeName(name))) == NormalizeName(name)
  {
    var n := NormalizeName(name);
    NormalizeSpec(name);
    StripTrimmed(n);
    assert Text.Lower(n) == n;
  }

  // ---------------- build_guild_options ----------------

  /**
   * `build_guild_options`: one (name, role id) option per team of the guild,
   * in the ascending `order_index` order of `get_teams`, then the guest option.
   */
  method BuildGuildOptions(store: Storage.Store, guildId: int) returns (opts: seq<GuildOption>, ghost teams: seq<Storage.Team>)
    requires store.Valid()
    ensures |opts| == |store.TeamIds(guildId)| + 1 && |teams| + 1 == |opts|
    ensures opts[|opts| - 1] == (InviteLabel, InviteRoleId)
    ensures forall i :: 0 <= i < |teams| ==> opts[i] == (teams[i].name, teams[i].roleId)
    ensures forall i :: 0 <= i < |teams| ==> (guildId, teams[i].teamId) in store.teamConfig && store.teamConfig[(guildId, teams[i].teamId)] == teams[i]
    ensures forall t :: t in store.TeamIds(guildId) ==> exists i :: 0 <= i < |teams| && teams[i].teamId == t
    ensures forall i, j :: 0 <= i < j < |teams| ==> teams[i].orderIndex <= teams[j].orderIndex
  {
    var ts := store.GetTeams(guildId);
    teams := ts;
    opts := [];
    for k := 0 to |ts|
      invariant |opts| == k
      invariant forall i :: 0 <= i < k ==> opts[i] == (ts[i].name, ts[i].roleId)
    {
      opts := opts + [(ts[k].name, ts[k].roleId)];
    }
    opts := opts + [(InviteLabel, InviteRoleId)];
  }

  // ---------------- compute_pair_roles ----------------

  /** The paired names of `compute_pair_roles`. */
  const Pairs: seq<(string, string)> := [("wanted", "wanted 2"), ("hagratime", "hagrapaltime")]

  /** The name paired with `name`, if any. */
  function Partner(name: string): Option<string> {
    if name == "wanted" then Some("wanted 2")
    else if name == "wanted 2" then Some("wanted")
    else if name == "hagratime" then Some("hagrapaltime")
    else if name == "hagrapaltime" then Some("hagratime")
    else None
  }

  /** Pairing is symmetric: the partner's partner is the name itself. */
  lemma PartnerSymmetric(name: string)
    requires Partner(name).Some?
    ensures Partner(Partner(name).value) == Some(name)
  {
    var p := Partner(name).value;
    assert "wanted"[0] != "hagratime"[0];
    assert |"wanted"| != |"wanted 2"| && |"hagratime"| != |"hagrapaltime"|;
    assert "wanted 2"[0] != "hagrapaltime"[0];
  }

  /** Each option keyed by its normalised label. */
  function Keyed(options: seq<GuildOption>): seq<(string, int)>
    decreases |options|
  {
    if options == [] then []
    else
      var last := options[|options| - 1];
      Keyed(options[..|options| - 1]) + [(NormalizeName(Some(last.0)), last.1)]
  }

  lemma {:induction false} KeyedSpec(options: seq<GuildOption>)
    ensures |Keyed(options)| == |options|
    ensures forall i :: 0 <= i < |options| ==> Keyed(options)[i] == (NormalizeName(Some(options[i].0)), options[i].1)
    decreases |options|
  {
    if options != [] {
      KeyedSpec(options[..|options| - 1]);
    }
  }

  /** A dictionary built by assigning the entries in order: a later entry overrides an earlier one. */
  function LastWins(entries: seq<(string, int)>): map<string, int>
    decreases |entries|
  {
    if entries == [] then map[]
    else LastWins(entries[..|entries| - 1])[entries[|entries| - 1].0 := entries[|entries| - 1].1]
  }

  /** `i` is the last entry with key `key`. */
  ghost predicate LastKeyed(entries: seq<(string, int)>, key: string, i: int) {
    0 <= i < |entries| && entries[i].0 == key && forall j :: i < j < |entries| ==> entries[j].0 != key
  }

  /** A key is in the dictionary exactly when some entry has it. */
  lemma {:induction false} LastWinsKeys(entries: seq<(string, int)>, key: string)
    ensures key in LastWins(entries) <==> exists i :: 0 <= i < |entries| && entries[i].0 == key
    decreases |entries|
  {
    if entries != [] {
      var n := |entries|;
      var init := entries[..n - 1];
      LastWinsKeys(init, key);
      if entries[n - 1].0 != key && exists i :: 0 <= i < n && entries[i].0 == key {
        var i :| 0 <= i < n && entries[i].0 == key;
        assert init[i] == entries[i];
      }
    }
  }

  /** A key maps to the value of the last entry with that key. */
  lemma {:induction false} LastWinsValue(entries: seq<(string, int)>, key: string, i: int)
    requires LastKeyed(entries, key, i)
    ensures key in LastWins(entries) && LastWins(entries)[key] == entries[i].1
    decreases |entries|
  {
    var n := |entries|;
    if i != n - 1 {
      LastWinsValue(entries[..n - 1], key, i);
    }
  }

  /** The dictionary `name_to_role_id`: each normalised label to its role id, a later label overriding an earlier one. */
  function NameMap(options: seq<GuildOption>): map<string, int> {
    LastWins(Keyed(options))
  }

  /** `i` is the last option whose label normalises to `name`. */
  ghost predicate LastNamed(options: seq<GuildOption>, name: string, i: int) {
    0 <= i < |options| && NormalizeName(Some(options[i].0)) == name
    && forall j :: i < j < |options| ==> NormalizeName(Some(options[j].0)) != name
  }

  /** A name is in the dictionary exactly when some label normalises to it, and it maps to the last such option's role id. */
  lemma NameMapSpec(options: seq<GuildOption>, name: string)
    ensures name in NameMap(options) <==> exists i :: 0 <= i < |options| && NormalizeName(Some(options[i].0)) == name
    ensures forall i :: LastNamed(options, name, i) ==> name in NameMap(options) && NameMap(options)[name] == options[i].1
  {
    var keyed := Keyed(options);
    KeyedSpec(options);
    LastWinsKeys(keyed, name);
    forall i | LastNamed(options, name, i) ensures name in NameMap(options) && NameMap(options)[name] == options[i].1 {
      LastWinsValue(keyed, name, i);
    }
    if exists i :: 0 <= i < |keyed| && keyed[i].0 == name {
      var i :| 0 <= i < |keyed| && keyed[i].0 == name;
      assert NormalizeName(Some(options[i].0)) == name;
    }
  }

  /** The roles paired with the chosen label: the partner's role id when the partner is among the options. */
  function PairRoles(chosenLabel: string, options: seq<GuildOption>): (r: seq<int>)
    ensures |r| <= 1
  {
    var partner := Partner(NormalizeName(Some(chosenLabel)));
    var names := NameMap(options);
    if partner.Some? && partner.value in names then [names[partner.value]] else []
  }

  /**
   * The paired role is granted exactly when the chosen label has a partner
   * and some option's label normalises to it; it is then the role of the
   * last such option.
   */
  lemma PairRolesSpec(chosenLabel: string, options: seq<GuildOption>)
    ensures var partner := Partner(NormalizeName(Some(chosenLabel)));
      PairRoles(chosenLabel, options) != [] <==>
        partner.Some? && exists i :: 0 <= i < |options| && NormalizeName(Some(options[i].0)) == partner.value
    ensures var partner := Partner(NormalizeName(Some(chosenLabel)));
      forall i :: partner.Some? && LastNamed(options, partner.value, i) ==> PairRoles(chosenLabel, options) == [options[i].1]
  {
    var partner := Partner(NormalizeName(Some(chosenLabel)));
    if partner.Some? {
      NameMapSpec(options, partner.value);
    }
  }

  /**
   * `compute_pair_roles`: build the name dictionary, then look the chosen
   * name up in each pair. The pairs are a set in the source; the four names
   * are distinct, so at most one pair matches and the visiting order does not
   * matter.
   */
  method ComputePairRoles(chosenLabel: string, options: seq<GuildOption>) returns (extra: seq<int>)
    ensures extra == PairRoles(chosenLabel, options)
  {
    var name := NormalizeName(Some(chosenLabel));
    var names := NameDictionary(options);
    extra := [];
    var pairs := Pairs;
    for k := 0 to |pairs|
      invariant extra == (if PairIndex(name) < k && Partner(name).value in names then [names[Partner(name).value]] else [])
    {
      var (a, b) := pairs[k];
      if name == a && b in names {
        extra := extra + [names[b]];
      } else if name == b && a in names {
        extra := extra + [names[a]];
      }
    }
  }

  /** The first loop of `compute_pair_roles`: the dictionary `name_to_role_id`. */
  method NameDictionary(options: seq<GuildOption>) returns (names: map<string, int>)
    ensures names == NameMap(options)
  {
    names := map[];
    for k := 0 to |options|
      invariant names == LastWins(Keyed(options[..k]))
    {
      NameMapStep(options, k);
      names := names[NormalizeName(Some(options[k].0)) := options[k].1];
    }
    assert options[..|options|] == options;
  }

  /** One more option assigns its normalised label last. */
  lemma NameMapStep(options: seq<GuildOption>, k: int)
    requires 0 <= k < |options|
    ensures LastWins(Keyed(options[..k + 1])) == LastWins(Keyed(options[..k]))[NormalizeName(Some(options[k].0)) := options[k].1]
  {
    var e := Keyed(options[..k]);
    var x := (NormalizeName(Some(options[k].0)), options[k].1);
    assert options[..k + 1][..k] == options[..k];
    assert Keyed(options[..k + 1]) == e + [x];
    assert (e + [x])[..|e|] == e;
  }

  /** The position in Pairs of the pair holding `name` (|Pairs| when none does). */
  function PairIndex(name: string): (k: nat)
    ensures k < |Pairs| <==> Partner(name).Some?
    ensures k < |Pairs| ==> (name == Pairs[k].0 && Partner(name) == Some(Pairs[k].1)) || (name == Pairs[k].1 && Partner(name) == Some(Pairs[k].0))
    ensures forall j :: 0 <= j < |Pairs| && j != k ==> name != Pairs[j].0 && name != Pairs[j].1
  {
    assert "wanted"[0] != "hagratime"[0] && "wanted 2"[0] != "hagrapaltime"[0];
    assert "wanted"[0] != "hagrapaltime"[0] && "wanted 2"[0] != "hagratime"[0];
    if name == "wanted" || name == "wanted 2" then 0
    else if name == "hagratime" || name == "hagrapaltime" then 1
    else 2
  }

  // ---------------- ValidationButtons.approve ----------------

  /**
   * The roles `approve` grants, in order: the chosen role, its paired role if
   * any, then the member role unless it is already in the list.
   */
  method ApproveRoles(chosenLabel: string, chosenRoleId: int, options: seq<GuildOption>) returns (roles: seq<int>)
    ensures |roles| >= 1 + |PairRoles(chosenLabel, options)| && roles[0] == chosenRoleId
    ensures roles[1..1 + |PairRoles(chosenLabel, options)|] == PairRoles(chosenLabel, options)
    ensures MemberRoleId in roles
    ensures MemberRoleId in [chosenRoleId] + PairRoles(chosenLabel, options) ==> roles == [chosenRoleId] + PairRoles(chosenLabel, options)
    ensures MemberRoleId !in [chosenRoleId] + PairRoles(chosenLabel, options) ==> roles == [chosenRoleId] + PairRoles(chosenLabel, options) + [MemberRoleId]
  {
    roles := [chosenRoleId];
    var extra := ComputePairRoles(chosenLabel, options);
    roles := roles + extra;
    if MemberRoleId !in roles {
      roles := roles + [MemberRoleId];
    }
  }

  // ---------------- GuildSelect.chosen ----------------

  /** The dictionary `_options_src`: each option's role id, as a string, to its label (a later option overriding). */
  function OptionsSrc(options: seq<GuildOption>): map<string, string>
    decreases |options|
  {
    if options == [] then map[]
    else
      var last := options[|options| - 1];
      OptionsSrc(options[..|options| - 1])[Text.IntToString(last.1) := last.0]
  }

  /** The last option whose role id is written `value`, if any. */
  function LastWithId(options: seq<GuildOption>, value: string): (r: Option<GuildOption>)
    ensures r.Some? ==> r.value in options && Text.IntToString(r.value.1) == value
    ensures r.None? ==> forall i :: 0 <= i < |options| ==> Text.IntToString(options[i].1) != value
    decreases |options|
  {
    if options == [] then None
    else if Text.IntToString(options[|options| - 1].1) == value then Some(options[|options| - 1])
    else LastWithId(options[..|options| - 1], value)
  }

  /**
   * `GuildSelect.chosen`: nothing selected, or a value that is no option's
   * role id, gives None; otherwise the option's label and the value read
   * back as an integer.
   */
  function Chosen(options: seq<GuildOption>, values: seq<string>): Option<GuildOption> {
    if values == [] then None
    else
      var src := OptionsSrc(options);
      if values[0] !in src then None
      else
        OptionsSrcKeys(options, values[0]);
        Some((src[values[0]], Text.ParseInt(values[0]).value))
  }

  /** Every key of `_options_src` reads back as a role id: `int(role_id_str)` never fails there. */
  lemma {:induction false} OptionsSrcKeys(options: seq<GuildOption>, key: string)
    requires key in OptionsSrc(options)
    ensures Text.ParseInt(key).Some?
    ensures LastWithId(options, key) == Some((OptionsSrc(options)[key], Text.ParseInt(key).value))
    decreases |options|
  {
    var n := |options|;
    var last := options[n - 1];
    Text.ParseIntRoundTrip(last.1);
    if Text.IntToString(last.1) != key {
      OptionsSrcKeys(options[..n - 1], key);
    }
  }

  /** A value that is no option's key selects nothing. */
  lemma OptionsSrcMissing(options: seq<GuildOption>, key: string)
    requires key !in OptionsSrc(options)
    ensures LastWithId(options, key) == None
    decreases |options|
  {
    if options != [] {
      OptionsSrcMissing(options[..|options| - 1], key);
    }
  }

  /** The chosen option is the last option whose role id is the selected value, or None. */
  lemma ChosenSpec(options: seq<GuildOption>, values: seq<string>)
    ensures Chosen(options, values) == (if values == [] then None else LastWithId(options, values[0]))
  {
    if values != [] {
      if values[0] in OptionsSrc(options) {
        OptionsSrcKeys(options, values[0]);
      } else {
        OptionsSrcMissing(options, values[0]);
      }
    }
  }

  /** Selecting an option's own value chooses that option, when its role id is unique among the options. */
  lemma ChosenRoundTrip(options: seq<GuildOption>, i: int)
    requires 0 <= i < |options|
    requires forall j :: 0 <= j < |options| && j != i ==> options[j].1 != options[i].1
    ensures Chosen(options, [Text.IntToString(options[i].1)]) == Some(options[i])
  {
    ChosenSpec(options, [Text.IntToString(options[i].1)]);
    var r := LastWithId(options, Text.IntToString(options[i].1));
    assert r.Some? ==> r.value == options[i] by {
      if r.Some? {
        var j :| 0 <= j < |options| && options[j] == r.value;
        IntToStringInjective(options[j].1, options[i].1);
      }
    }
  }

  lemma IntToStringInjective(a: int, b: int)
    requires Text.IntToString(a) == Text.IntToString(b)
    ensures a == b
  {
    Text.ParseIntRoundTrip(a);
    Text.ParseIntRoundTrip(b);
  }

  // ---------------- ExtraRolesSelect.selected_ids ----------------

  /** `selected_ids`: the values made of digits only, read as integers, in order. */
  function SelectedIds(values: seq<string>): (r: seq<int>)
    ensures |r| <= |values|
    ensures forall i :: 0 <= i < |r| ==> r[i] >= 0
    decreases |values|
  {
    if values == [] then []
    else
      var rest := SelectedIds(values[1..]);
      if Text.IsDigits(values[0]) then [Text.DigitsValue(values[0]) as int] + rest else rest
  }

  /** A non-numeric value such as the placeholder "none" is dropped, wherever it is. */
  lemma {:induction false} SelectedIdsDrops(before: seq<string>, v: string, after: seq<string>)
    requires !Text.IsDigits(v)
    ensures SelectedIds(before + [v] + after) == SelectedIds(before + after)
    decreases |before|
  {
    if before == [] {
      assert before + [v] + after == [v] + after && before + after == after;
      assert ([v] + after)[1..] == after;
    } else {
      SelectedIdsDrops(before[1..], v, after);
      assert (before + [v] + after)[1..] == before[1..] + [v] + after;
      assert (before + after)[1..] == before[1..] + after;
    }
  }

  /** Role ids written as select values are read back unchanged. */
  lemma {:induction false} SelectedIdsRoundTrip(ids: seq<nat>)
    ensures SelectedIds(seq(|ids|, i requires 0 <= i < |ids| => Text.NatToString(ids[i]))) == ids
    decreases |ids|
  {
    if ids != [] {
      var values := seq(|ids|, i requires 0 <= i < |ids| => Text.NatToString(ids[i]));
      SelectedIdsRoundTrip(ids[1..]);
      Text.NatToStringRoundTrip(ids[0]);
      assert values[1..] == seq(|ids[1..]|, i requires 0 <= i < |ids[1..]| => Text.NatToString(ids[1..][i]));
    }
  }
}
