/**
 * Model of storage.py: the SQLite tables `messages`, `participants`,
 * `leaderboard_totals`, `guild_config`, `team_config` and `user_last_alert`
 * as maps keyed by each table's primary key, held by one store object whose
 * methods are the module's INSERT / UPDATE / DELETE statements and whose
 * functions are its SELECTs. The clock (`utcnow_i()`) is the parameter `now`.
 */
module Storage {

  import opened Wrappers
  import Sorting
  import Sets
  import Ranking

  /** A row of `messages` (its key, message_id, is the map key). */
  datatype MessageRow = MessageRow(
    guildId: int,
    channelId: int,
    createdTs: int,
    outcome: Option<string>,
    incomplete: int,
    lastTs: int,
    creatorId: Option<int>,
    team: Option<int>,
    attackIncomplete: int)

  /** A row of `participants` (its key, (message_id, user_id), is the map key). */
  datatype ParticipantRow = ParticipantRow(addedBy: Option<int>, source: string, ts: int)

  /** A row of `guild_config` (its key, guild_id, is the map key). */
  datatype GuildConfig = GuildConfig(
    alertChannelId: int,
    leaderboardChannelId: int,
    snapshotChannelId: int,
    roleG1Id: int,
    roleG2Id: int,
    roleG3Id: int,
    roleG4Id: int,
    roleTestId: int,
    adminRoleId: int)

  /** A row of `team_config` as `get_teams` returns it. */
  datatype Team = Team(teamId: int, name: string, roleId: int, teamLabel: string, orderIndex: int)

  /** A row of `user_last_alert` (its key, user_id, is the map key). */
  datatype LastAlert = LastAlert(messageId: int, ts: int)

  /** Key of `leaderboard_totals`: (guild_id, type, user_id). */
  type CounterKey = (int, string, int)

  /** Every stored leaderboard count is at least 1: a count that reaches 0 is deleted. */
  ghost predicate Positive(counts: map<CounterKey, int>) {
    forall k :: k in counts ==> counts[k] >= 1
  }

  /** What `get_leaderboard_value` reads: the stored count, or 0 when there is no row. */
  function CounterValue(counts: map<CounterKey, int>, k: CounterKey): int {
    if k in counts then counts[k] else 0
  }

  /** The upsert of `incr_leaderboard`: a new row holds 1, an existing one grows by 1. */
  function IncrCounter(counts: map<CounterKey, int>, k: CounterKey): (r: map<CounterKey, int>)
    ensures CounterValue(r, k) == CounterValue(counts, k) + 1
    ensures forall k' :: k' != k ==> CounterValue(r, k') == CounterValue(counts, k')
    ensures r.Keys == counts.Keys + {k}
    ensures Positive(counts) ==> Positive(r)
  {
    counts[k := if k in counts then counts[k] + 1 else 1]
  }

  /**
   * The two statements of `decr_leaderboard`: subtract 1 from an existing row,
   * then delete the row if its count is now 0 or less. A missing row stays missing.
   */
  function DecrCounter(counts: map<CounterKey, int>, k: CounterKey): (r: map<CounterKey, int>)
    ensures forall k' :: k' != k ==> CounterValue(r, k') == CounterValue(counts, k')
    ensures Positive(counts) ==> Positive(r)
    ensures Positive(counts) ==> CounterValue(r, k) == if CounterValue(counts, k) > 0 then CounterValue(counts, k) - 1 else 0
    ensures k !in counts ==> r == counts
    ensures k in r <==> k in counts && counts[k] - 1 > 0
  {
    if k !in counts then counts
    else if counts[k] - 1 <= 0 then counts - {k}
    else counts[k := counts[k] - 1]
  }

  /** A decrement undoes an increment, row for row, as long as counts are positive. */
  lemma IncrThenDecr(counts: map<CounterKey, int>, k: CounterKey)
    requires Positive(counts)
    ensures DecrCounter(IncrCounter(counts, k), k) == counts
  {
    if k !in counts {
      assert IncrCounter(counts, k) - {k} == counts;
    }
  }

  /** Whatever sequence of increments and decrements, no count ever reads negative. */
  lemma {:induction false} CountersNeverNegative(counts: map<CounterKey, int>, ops: seq<(bool, CounterKey)>, k: CounterKey)
    requires Positive(counts)
    ensures Positive(ApplyCounterOps(counts, ops))
    ensures CounterValue(ApplyCounterOps(counts, ops), k) >= 0
    decreases |ops|
  {
    if ops != [] {
      var (up, key) := ops[0];
      var next := if up then IncrCounter(counts, key) else DecrCounter(counts, key);
      CountersNeverNegative(next, ops[1..], k);
    }
  }

  /** Replays increments (true) and decrements (false) in order. */
  function ApplyCounterOps(counts: map<CounterKey, int>, ops: seq<(bool, CounterKey)>): map<CounterKey, int>
    decreases |ops|
  {
    if ops == [] then counts
    else
      var (up, key) := ops[0];
      ApplyCounterOps(if up then IncrCounter(counts, key) else DecrCounter(counts, key), ops[1..])
  }

  /** A count as `get_leaderboard_totals` orders it: higher counts first. */
  function ByCountDesc(row: (int, int)): int {
    -row.1
  }

  class Store {
    var messages: map<int, MessageRow>
    var participants: map<(int, int), ParticipantRow>
    var leaderboardTotals: map<CounterKey, int>
    var guildConfig: map<int, GuildConfig>
    var teamConfig: map<(int, int), Team>
    var userLastAlert: map<int, LastAlert>

    /** The table invariants the statements below maintain. */
    ghost predicate Valid()
      reads this
    {
      && Positive(leaderboardTotals)
      && (forall k :: k in teamConfig ==> teamConfig[k].teamId == k.1)
    }

    /** `create_db`: every table exists and is empty. */
    constructor ()
      ensures Valid()
      ensures messages == map[] && participants == map[] && leaderboardTotals == map[]
      ensures guildConfig == map[] && teamConfig == map[] && userLastAlert == map[]
    {
      messages, participants, leaderboardTotals := map[], map[], map[];
      guildConfig, teamConfig, userLastAlert := map[], map[], map[];
    }

    // ---------------- guild_config ----------------

    /** `upsert_guild_config`: insert, or on conflict replace every column (last write wins). */
    method UpsertGuildConfig(guildId: int, config: GuildConfig)
      requires Valid()
      modifies this`guildConfig
      ensures Valid()
      ensures guildConfig == old(guildConfig)[guildId := config]
      ensures GetGuildConfig(guildId) == Some(config)
    {
      guildConfig := guildConfig[guildId := config];
    }

    /** `get_guild_config`. */
    function GetGuildConfig(guildId: int): (r: Option<GuildConfig>)
      reads this
      ensures r.Some? <==> guildId in guildConfig
      ensures r.Some? ==> r.value == guildConfig[guildId]
    {
      if guildId in guildConfig then Some(guildConfig[guildId]) else None
    }

    // ---------------- team_config ----------------

    /** `upsert_team`: insert, or on conflict (guild, team) replace name, role, label and order. */
    method UpsertTeam(guildId: int, teamId: int, name: string, roleId: int, teamLabel: string, orderIndex: int)
      requires Valid()
      modifies this`teamConfig
      ensures Valid()
      ensures teamConfig == old(teamConfig)[(guildId, teamId) := Team(teamId, name, roleId, teamLabel, orderIndex)]
    {
      teamConfig := teamConfig[(guildId, teamId) := Team(teamId, name, roleId, teamLabel, orderIndex)];
    }

    /** The team ids registered for a guild. */
    ghost function TeamIds(guildId: int): set<int>
      reads this
    {
      set k | k in teamConfig && k.0 == guildId :: k.1
    }

    /**
     * `get_teams`: every team of the guild exactly once, in ascending `order_index`
     * (teams of equal order in unspecified order, as SQLite leaves them).
     */
    method GetTeams(guildId: int) returns (teams: seq<Team>)
      requires Valid()
      ensures |teams| == |TeamIds(guildId)|
      ensures forall i :: 0 <= i < |teams| ==> (guildId, teams[i].teamId) in teamConfig && teamConfig[(guildId, teams[i].teamId)] == teams[i]
      ensures forall t :: t in TeamIds(guildId) ==> exists i :: 0 <= i < |teams| && teams[i].teamId == t
      ensures forall i, j :: 0 <= i < j < |teams| ==> teams[i].orderIndex <= teams[j].orderIndex
    {
      var ids := set k | k in teamConfig && k.0 == guildId :: k.1;
      var config := teamConfig;
      var key := t => if (guildId, t) in config then config[(guildId, t)].orderIndex else 0;
      var sorted := Sorting.SortedKeys(ids, key);
      assert forall i :: 0 <= i < |sorted| ==> sorted[i] in ids by {
        forall i | 0 <= i < |sorted| ensures sorted[i] in ids {
          assert sorted[i] in multiset(sorted);
        }
      }
      teams := seq(|sorted|, i requires 0 <= i < |sorted| => config[(guildId, sorted[i])]);
      assert |multiset(sorted)| == |multiset(ids)|;
      forall t | t in TeamIds(guildId) ensures exists i :: 0 <= i < |teams| && teams[i].teamId == t {
        assert t in multiset(sorted);
        var i :| 0 <= i < |sorted| && sorted[i] == t;
        assert teams[i].teamId == t;
      }
    }

    // ---------------- messages ----------------

    /**
     * `upsert_message`: a new id gets a fresh row (no outcome, not incomplete);
     * then, when `team` is given, the row's team and last_ts are overwritten.
     * An existing row is otherwise left alone.
     */
    method UpsertMessage(messageId: int, guildId: int, channelId: int, createdTs: int,
                         creatorId: Option<int>, team: Option<int>, now: int)
      requires Valid()
      modifies this`messages
      ensures Valid()
      ensures messageId !in old(messages) ==>
        messages == old(messages)[messageId := MessageRow(guildId, channelId, createdTs, None, 0, now, creatorId, team, 0)]
      ensures messageId in old(messages) && team.None? ==> messages == old(messages)
      ensures messageId in old(messages) && team.Some? ==>
        messages == old(messages)[messageId := old(messages)[messageId].(team := team, lastTs := now)]
    {
      if messageId !in messages {
        messages := messages[messageId := MessageRow(guildId, channelId, createdTs, None, 0, now, creatorId, team, 0)];
      }
      if team.Some? {
        messages := messages[messageId := messages[messageId].(team := team, lastTs := now)];
      }
    }

    /** `is_tracked_message`. */
    function IsTrackedMessage(messageId: int): (r: bool)
      reads this
      ensures r <==> messageId in messages
    {
      messageId in messages
    }

    /** `get_message_creator`: None for an unknown message or a NULL creator. */
    function GetMessageCreator(messageId: int): (r: Option<int>)
      reads this
      ensures messageId !in messages ==> r.None?
      ensures messageId in messages ==> r == messages[messageId].creatorId
    {
      if messageId in messages then messages[messageId].creatorId else None
    }

    /** `get_message_team`: None for an unknown message or a NULL team. */
    function GetMessageTeam(messageId: int): (r: Option<int>)
      reads this
      ensures messageId !in messages ==> r.None?
      ensures messageId in messages ==> r == messages[messageId].team
    {
      if messageId in messages then messages[messageId].team else None
    }

    /** `get_message_outcome`: None for an unknown message or a NULL outcome. */
    function GetMessageOutcome(messageId: int): (r: Option<string>)
      reads this
      ensures messageId !in messages ==> r.None?
      ensures messageId in messages ==> r == messages[messageId].outcome
    {
      if messageId in messages then messages[messageId].outcome else None
    }

    /** `get_message_info`: (guild_id, creator_id) of a tracked message. */
    function GetMessageInfo(messageId: int): (r: Option<(int, Option<int>)>)
      reads this
      ensures r.Some? <==> messageId in messages
      ensures r.Some? ==> r.value == (messages[messageId].guildId, messages[messageId].creatorId)
    {
      if messageId in messages then Some((messages[messageId].guildId, messages[messageId].creatorId)) else None
    }

    /** `set_outcome`: an UPDATE, so an untracked id changes nothing. */
    method SetOutcome(messageId: int, outcome: Option<string>, now: int)
      requires Valid()
      modifies this`messages
      ensures Valid()
      ensures messageId !in old(messages) ==> messages == old(messages)
      ensures messageId in old(messages) ==>
        messages == old(messages)[messageId := old(messages)[messageId].(outcome := outcome, lastTs := now)]
    {
      if messageId in messages {
        messages := messages[messageId := messages[messageId].(outcome := outcome, lastTs := now)];
      }
    }

    /** `set_incomplete`: stores 1 or 0; an untracked id changes nothing. */
    method SetIncomplete(messageId: int, incomplete: bool, now: int)
      requires Valid()
      modifies this`messages
      ensures Valid()
      ensures messageId !in old(messages) ==> messages == old(messages)
      ensures messageId in old(messages) ==>
        messages == old(messages)[messageId := old(messages)[messageId].(incomplete := if incomplete then 1 else 0, lastTs := now)]
    {
      if messageId in messages {
        messages := messages[messageId := messages[messageId].(incomplete := if incomplete then 1 else 0, lastTs := now)];
      }
    }

    // ---------------- participants ----------------

    /**
     * `add_participant`: the INSERT succeeds (true) exactly when the
     * (message, user) pair is new; a duplicate hits the primary key and
     * leaves the existing row as it was (false).
     */
    method AddParticipant(messageId: int, userId: int, addedBy: Option<int>, source: string, now: int)
      returns (inserted: bool)
      requires Valid()
      modifies this`participants
      ensures Valid()
      ensures inserted <==> (messageId, userId) !in old(participants)
      ensures inserted ==> participants == old(participants)[(messageId, userId) := ParticipantRow(addedBy, source, now)]
      ensures !inserted ==> participants == old(participants)
    {
      inserted := (messageId, userId) !in participants;
      if inserted {
        participants := participants[(messageId, userId) := ParticipantRow(addedBy, source, now)];
      }
    }

    /** `remove_participant`: true exactly when a row was deleted; no other row changes. */
    method RemoveParticipant(messageId: int, userId: int) returns (removed: bool)
      requires Valid()
      modifies this`participants
      ensures Valid()
      ensures removed <==> (messageId, userId) in old(participants)
      ensures participants == old(participants) - {(messageId, userId)}
    {
      removed := (messageId, userId) in participants;
      participants := participants - {(messageId, userId)};
    }

    /** `get_participant_entry`: (added_by, source, ts) of the pair, if any. */
    function GetParticipantEntry(messageId: int, userId: int): (r: Option<ParticipantRow>)
      reads this
      ensures r.Some? <==> (messageId, userId) in participants
      ensures r.Some? ==> r.value == participants[(messageId, userId)]
    {
      if (messageId, userId) in participants then Some(participants[(messageId, userId)]) else None
    }

    /** The users recorded as participants of a message. */
    ghost function ParticipantIds(messageId: int): set<int>
      reads this
    {
      set k | k in participants && k.0 == messageId :: k.1
    }

    /**
     * `get_participants_detailed`: (user_id, added_by, ts) of every participant
     * of the message exactly once, in ascending `ts`.
     */
    method GetParticipantsDetailed(messageId: int) returns (rows: seq<(int, Option<int>, int)>)
      requires Valid()
      ensures |rows| == |ParticipantIds(messageId)|
      ensures forall i :: 0 <= i < |rows| ==>
        (messageId, rows[i].0) in participants
        && rows[i].1 == participants[(messageId, rows[i].0)].addedBy
        && rows[i].2 == participants[(messageId, rows[i].0)].ts
      ensures forall u :: u in ParticipantIds(messageId) ==> exists i :: 0 <= i < |rows| && rows[i].0 == u
      ensures forall i, j :: 0 <= i < j < |rows| ==> rows[i].2 <= rows[j].2
    {
      var ids := set k | k in participants && k.0 == messageId :: k.1;
      var table := participants;
      var key := u => if (messageId, u) in table then table[(messageId, u)].ts else 0;
      var sorted := Sorting.SortedKeys(ids, key);
      assert forall i :: 0 <= i < |sorted| ==> sorted[i] in ids by {
        forall i | 0 <= i < |sorted| ensures sorted[i] in ids {
          assert sorted[i] in multiset(sorted);
        }
      }
      rows := seq(|sorted|, i requires 0 <= i < |sorted| =>
        (sorted[i], table[(messageId, sorted[i])].addedBy, table[(messageId, sorted[i])].ts));
      assert |multiset(sorted)| == |multiset(ids)|;
      forall u | u in ParticipantIds(messageId) ensures exists i :: 0 <= i < |rows| && rows[i].0 == u {
        assert u in multiset(sorted);
        var i :| 0 <= i < |sorted| && sorted[i] == u;
        assert rows[i].0 == u;
      }
    }

    /** `get_first_defender`: the participant with the earliest `ts`, None when there is none. */
    method GetFirstDefender(messageId: int) returns (first: Option<int>)
      requires Valid()
      ensures first.None? <==> ParticipantIds(messageId) == {}
      ensures first.Some? ==> (messageId, first.value) in participants
      ensures first.Some? ==> forall u :: (messageId, u) in participants ==>
        participants[(messageId, first.value)].ts <= participants[(messageId, u)].ts
    {
      var rows := GetParticipantsDetailed(messageId);
      if rows == [] {
        first := None;
      } else {
        first := Some(rows[0].0);
        forall u | (messageId, u) in participants
          ensures participants[(messageId, rows[0].0)].ts <= participants[(messageId, u)].ts
        {
          assert u in ParticipantIds(messageId);
          var i :| 0 <= i < |rows| && rows[i].0 == u;
          assert i == 0 || rows[0].2 <= rows[i].2;
        }
      }
    }

    /** `get_participants_user_ids`: every participant of the message exactly once. */
    method GetParticipantsUserIds(messageId: int) returns (ids: seq<int>)
      requires Valid()
      ensures forall u :: u in ids <==> u in ParticipantIds(messageId)
      ensures |ids| == |ParticipantIds(messageId)|
    {
      var rows := GetParticipantsDetailed(messageId);
      ids := seq(|rows|, i requires 0 <= i < |rows| => rows[i].0);
      forall u ensures u in ids <==> u in ParticipantIds(messageId) {
        if u in ParticipantIds(messageId) {
          var i :| 0 <= i < |rows| && rows[i].0 == u;
          assert ids[i] == u;
        }
        if u in ids {
          var i :| 0 <= i < |ids| && ids[i] == u;
          assert (messageId, rows[i].0) in participants;
        }
      }
    }

    // ---------------- leaderboard_totals ----------------

    /** `incr_leaderboard`: the value read back grows by one; no other key changes. */
    method IncrLeaderboard(guildId: int, kind: string, userId: int)
      requires Valid()
      modifies this`leaderboardTotals
      ensures Valid()
      ensures leaderboardTotals == IncrCounter(old(leaderboardTotals), (guildId, kind, userId))
      ensures GetLeaderboardValue(guildId, kind, userId) == old(GetLeaderboardValue(guildId, kind, userId)) + 1
    {
      leaderboardTotals := IncrCounter(leaderboardTotals, (guildId, kind, userId));
    }

    /**
     * `decr_leaderboard`: a count above 1 drops by one, a count of 1 is deleted
     * (and reads 0 again), a missing row stays missing.
     */
    method DecrLeaderboard(guildId: int, kind: string, userId: int)
      requires Valid()
      modifies this`leaderboardTotals
      ensures Valid()
      ensures leaderboardTotals == DecrCounter(old(leaderboardTotals), (guildId, kind, userId))
      ensures GetLeaderboardValue(guildId, kind, userId) ==
        if old(GetLeaderboardValue(guildId, kind, userId)) > 0 then old(GetLeaderboardValue(guildId, kind, userId)) - 1 else 0
    {
      leaderboardTotals := DecrCounter(leaderboardTotals, (guildId, kind, userId));
    }

    /** `get_leaderboard_value`: never negative, 0 when there is no row. */
    function GetLeaderboardValue(guildId: int, kind: string, userId: int): (r: int)
      requires Valid()
      reads this
      ensures r >= 0
      ensures r == 0 <==> (guildId, kind, userId) !in leaderboardTotals
    {
      CounterValue(leaderboardTotals, (guildId, kind, userId))
    }

    /** The users that have a row for (guild, type). */
    ghost function CounterUsers(guildId: int, kind: string): set<int>
      reads this
    {
      set k | k in leaderboardTotals && k.0 == guildId && k.1 == kind :: k.2
    }

    /** `get_leaderboard_totals_all`: user -> count for every row of (guild, type). */
    function GetLeaderboardTotalsAll(guildId: int, kind: string): (r: map<int, int>)
      reads this
      ensures forall u :: u in r <==> (guildId, kind, u) in leaderboardTotals
      ensures forall u :: u in r ==> r[u] == leaderboardTotals[(guildId, kind, u)]
    {
      map u | u in (set k | k in leaderboardTotals && k.0 == guildId && k.1 == kind :: k.2) ::
        leaderboardTotals[(guildId, kind, u)]
    }

    /** The user column of (user, count) rows. */
    function RowUsers(rows: seq<(int, int)>): (users: seq<int>)
      ensures |users| == |rows| && forall i :: 0 <= i < |rows| ==> users[i] == rows[i].0
    {
      seq(|rows|, i requires 0 <= i < |rows| => rows[i].0)
    }

    /**
     * `get_leaderboard_totals`: the (user, count) rows of (guild, type) by
     * non-increasing count, cut to `limit` rows (SQLite reads a negative LIMIT
     * as no limit). Every user left out counts no more than any user kept.
     */
    method GetLeaderboardTotals(guildId: int, kind: string, limit: int) returns (rows: seq<(int, int)>)
      requires Valid()
      ensures |rows| == if 0 <= limit < |CounterUsers(guildId, kind)| then limit else |CounterUsers(guildId, kind)|
      ensures forall i :: 0 <= i < |rows| ==>
        (guildId, kind, rows[i].0) in leaderboardTotals && rows[i].1 == leaderboardTotals[(guildId, kind, rows[i].0)]
      ensures forall i, j :: 0 <= i < j < |rows| ==> rows[i].1 >= rows[j].1 && rows[i].0 != rows[j].0
      ensures forall i, u :: 0 <= i < |rows| && (guildId, kind, u) in leaderboardTotals && u !in RowUsers(rows) ==>
        rows[i].1 >= leaderboardTotals[(guildId, kind, u)]
    {
      var all := GetLeaderboardTotalsAll(guildId, kind);
      assert all.Keys == CounterUsers(guildId, kind);
      var n := if limit < 0 then |all| else limit;
      var users := Ranking.Top(all, n);
      rows := seq(|users|, i requires 0 <= i < |users| => (users[i], all[users[i]]));
      assert RowUsers(rows) == users;
    }

    // ---------------- delete ----------------

    /**
     * `delete_message_and_participants`: removes the message row and exactly the
     * participant rows of that message; every other row is unchanged.
     */
    method DeleteMessageAndParticipants(messageId: int)
      requires Valid()
      modifies this`participants, this`messages
      ensures Valid()
      ensures messages == old(messages) - {messageId}
      ensures forall k :: k in participants <==> k in old(participants) && k.0 != messageId
      ensures forall k :: k in participants ==> participants[k] == old(participants)[k]
    {
      participants := map k | k in participants && k.0 != messageId :: participants[k];
      messages := messages - {messageId};
    }

    // ---------------- user_last_alert ----------------

    /** `save_last_alert_for_user`: insert or overwrite the user's last alert (last write wins). */
    method SaveLastAlertForUser(userId: int, messageId: int, now: int)
      requires Valid()
      modifies this`userLastAlert
      ensures Valid()
      ensures userLastAlert == old(userLastAlert)[userId := LastAlert(messageId, now)]
      ensures GetLastAlertForUser(userId) == Some(messageId)
    {
      userLastAlert := userLastAlert[userId := LastAlert(messageId, now)];
    }

    /** `get_last_alert_for_user`. */
    function GetLastAlertForUser(userId: int): (r: Option<int>)
      reads this
      ensures r.Some? <==> userId in userLastAlert
      ensures r.Some? ==> r.value == userLastAlert[userId].messageId
    {
      if userId in userLastAlert then Some(userLastAlert[userId].messageId) else None
    }
  }
}
