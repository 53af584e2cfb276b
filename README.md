# Bot-Alli core, modelled in Dafny

Bot-Alli is a Discord bot for a Dofus alliance. Its members raise alerts when
one of their tax collectors is attacked and react to those alerts to sign up
as defenders. They also mark the result (win or loss) and flag a defence as
incomplete. Leaderboards rank defenders and alert triggerers, snapshots save
the leaderboard tables to a channel and restore them at start-up, and `/stats`
summarises a player. Smaller features are also covered:
- a two-player class draft;
- a guild-membership validation flow;
- an attacking-alliance panel with per-user cooldowns;
- a screenshot collector for attack reports;
- a logger of messages deleted by moderators.

This project models the logic of those features and proves what it promises.

## Form of the model

Each source file becomes one module, and the module takes the source's form:
- Code that mutates module-level dictionaries or object fields becomes a Dafny `class`: the SQLite tables of `storage.py`, the `alerts_data` and `last_ping` dictionaries, the draft sessions, the attackers' cooldowns. Its fields are `map`s and `seq`s, and its methods state the whole new state.
- Loops become methods with loop invariants, proved against a specification function. Examples: the leaderboard tallies, the trigger ranking, the snapshot history scan, the screenshot collection, the audit-log scan, the option dictionaries of the validation flow.
- Pure case splits become functions with lemmas. Examples: reaction dispatch, label mappings, fence extraction, truncation.

Shared pieces:
- `Cooldown` holds the "accepted unless accepted less than `period` seconds ago" rule that `alerts.py`, `panel.py` and `attackers.py` each implement on their own dictionary.
- `Text` holds the Python string operations the code relies on: `str`/`int` for decimals, `strip`, `lower`, `index`, `join`, `startswith`, `endswith`.
- `Ranking`, `Sorting`, `Sets` and `MapSum` are helpers.

Wall-clock time is an integer parameter `now`, in seconds, or in microseconds for the audit log. Discord calls are left out: what they return becomes a parameter, such as whether a channel exists, whether an edit succeeded, or the fetched history.

## Behaviour of the code the model keeps

- **Participants.** `add_participant` and `remove_participant` are a plain `INSERT OR IGNORE` and a plain `DELETE`. They change no counter, and the same rule applies to adding and removing (`Storage.Store.AddParticipant`, `Storage.Store.RemoveParticipant`).
- **Results.** The result is a single field that the latest 🏆/❌ overwrites (`AlertsRuntime.LatestResultDecides`). `set_outcome` rewrites only that message's outcome and its last-activity time. Withdrawing either reaction only chooses the call `clear_result`, which `AlertsCog` does not define, so the result is never cleared that way (`Reactions.OnRawReactionRemove`).
- **Restore.** Restore takes the first bot message of the 50 newest whose `json` block parses. It then gives up if that document is for another guild, instead of looking further for one that matches. The counters of that document are passed to the seeding functions as they are (`Snapshots.RestoreFrom`, `Snapshots.SaveThenRestore`).
- **Payload.** The snapshot is an inline code fence in the message, not an attachment.
- **Outcome spelling.** `stats.py` reads the outcome "loss", while every writer stores "lose" (`Stats.LoseIsRunning`). The model keeps both spellings as written.

## Model

| member | source | states |
|---|---|---|
| Storage.IncrCounter | storage.py:316-323 | the key's count reads one more than before (an absent row reads 0); every other key reads as before; positivity of stored counts is kept |
| Storage.DecrCounter | storage.py:325-334 | a count above 1 drops by one, a count of 1 is deleted and reads 0, an absent row stays absent; no other key changes and no stored count is ever 0 or less |
| Storage.IncrThenDecr | storage.py:316-334 | a decrement undoes an increment exactly, row for row |
| Storage.CountersNeverNegative | storage.py:316-334 | after any sequence of increments and decrements, every stored count is positive and every value read is non-negative |
| Storage.Store.constructor | storage.py:31-146 | every table starts empty |
| Storage.Store.UpsertGuildConfig | storage.py:148-177 | insert or replace every column for the guild; the configuration read back is the one written |
| Storage.Store.GetGuildConfig | storage.py:180-183 | None exactly for an unconfigured guild, else its stored row |
| Storage.Store.UpsertTeam | storage.py:189-199 | insert or replace the (guild, team) row with the given name, role, label and order |
| Storage.Store.GetTeams | storage.py:201-209 | each team of the guild exactly once, each as stored, in non-decreasing `order_index` |
| Storage.Store.UpsertMessage | storage.py:215-226 | a new id gets a row with no outcome and incomplete 0; an existing row changes only its team and last timestamp, and only when a team is given |
| Storage.Store.IsTrackedMessage | storage.py:229-230 | true exactly for a message id that has a row |
| Storage.Store.GetMessageCreator | storage.py:232-235 | nothing for an untracked message; for a tracked one exactly its stored creator (None when NULL) |
| Storage.Store.GetMessageTeam | storage.py:237-240 | nothing for an untracked message; for a tracked one exactly its stored team (None when NULL) |
| Storage.Store.GetMessageOutcome | storage.py:242-245 | nothing for an untracked message; for a tracked one exactly its stored outcome (None when NULL) |
| Storage.Store.GetMessageInfo | storage.py:369-375 | (guild, creator) exactly for tracked messages |
| Storage.Store.SetOutcome | storage.py:247-250 | on a tracked message only the outcome and last timestamp change; an untracked id changes nothing |
| Storage.Store.SetIncomplete | storage.py:252-255 | on a tracked message only the flag and last timestamp change; an untracked id changes nothing |
| Storage.Store.AddParticipant | storage.py:261-270 | returns true exactly when the (message, user) pair was absent and then inserts it; a duplicate leaves the existing row untouched |
| Storage.Store.RemoveParticipant | storage.py:272-276 | returns true exactly when the pair existed; afterwards it is absent and every other row is unchanged |
| Storage.Store.GetParticipantEntry | storage.py:278-285 | (added_by, source, ts) exactly for a recorded pair |
| Storage.Store.GetParticipantsDetailed | storage.py:287-295 | every participant of the message once, with its stored fields, in non-decreasing timestamp order |
| Storage.Store.GetFirstDefender | storage.py:297-304 | None exactly when the message has no participant, else a participant with the earliest timestamp |
| Storage.Store.GetParticipantsUserIds | storage.py:306-310 | exactly the message's participants, each once |
| Storage.Store.IncrLeaderboard | storage.py:316-323 | the value read back grows by one; no other key changes |
| Storage.Store.DecrLeaderboard | storage.py:325-334 | the value read back drops by one but never below 0; the row disappears at 0 |
| Storage.Store.GetLeaderboardValue | storage.py:357-363 | never negative, and 0 exactly when there is no row |
| Storage.Store.GetLeaderboardTotalsAll | storage.py:347-355 | user to count for exactly the rows of (guild, type) |
| Storage.Store.GetLeaderboardTotals | storage.py:336-345 | at most `limit` distinct users of (guild, type) with their counts, in non-increasing count, none left out that counts more than a listed one |
| Storage.Store.DeleteMessageAndParticipants | storage.py:377-380 | removes the message row and exactly the participant rows of that message; everything else is unchanged |
| Storage.Store.SaveLastAlertForUser | storage.py:386-394 | insert or overwrite the user's last alert; it reads back |
| Storage.Store.GetLastAlertForUser | storage.py:396-402 | the stored message id exactly for users with a row |
| Cooldown.Stamp | cogs/alerts.py:38-43 | an accepted attempt records `now` for its key and nothing else; a refused one changes nothing |
| Cooldown.FirstAttemptAccepted | cogs/alerts.py:38-43 | the first attempt on a key is always accepted |
| Cooldown.AcceptedThenWindow | cogs/alerts.py:38-43 | after acceptance at t, the key is refused exactly until t + period |
| Cooldown.KeysIndependent | cogs/panel.py:30-35 | an attempt on one key never changes whether another key is ready |
| Alerts.NewAlert | cogs/alerts.py:285-294 | a new alert has its author and channel, no defenders, no result and no flag |
| Alerts.Toggled | cogs/alerts.py:256-261 | only the incomplete flag changes, and it flips |
| Alerts.ToggleTwice | cogs/alerts.py:256-261 | toggling twice restores the record |
| Alerts.AdmitCapped | cogs/alerts.py:74-86 | an alert that already has 4 defenders admits nobody |
| Alerts.AdmitFirst | cogs/alerts.py:80-86 | below the cap, a user already present is skipped and a new user is admitted and reported |
| Alerts.AdmitSpec | cogs/alerts.py:74-86 | the admitted users are the reported ones, each once and new; the total never exceeds 4; below 4 everybody selected is admitted |
| Alerts.ButtonsShareCooldown | cogs/alerts.py:24-27 | both panel buttons use the key "Def", so pressing either blocks both for 30 seconds |
| Alerts.AlertsCog.constructor | cogs/alerts.py:19-31 | no alerts and no pings at start |
| Alerts.AlertsCog.CheckCooldown | cogs/alerts.py:38-43 | accepted exactly when the key is ready; the stamp map is updated as `Cooldown.Stamp` says |
| Alerts.AlertsCog.AddDefenderToAlert | cogs/alerts.py:222-233 | true exactly for a known alert below 4 defenders that lacks the user, which is then added; otherwise nothing changes |
| Alerts.AlertsCog.RemoveDefenderFromAlert | cogs/alerts.py:235-240 | only that user is discarded; result and flag untouched; unknown alert is a no-op |
| Alerts.AlertsCog.MarkDefenseWon | cogs/alerts.py:242-247 | the result becomes "win" whatever it was; nothing else changes |
| Alerts.AlertsCog.MarkDefenseLost | cogs/alerts.py:249-254 | the result becomes "lose" whatever it was; nothing else changes |
| Alerts.AlertsCog.ToggleIncomplete | cogs/alerts.py:256-261 | flips the flag of a known alert; unknown alert is a no-op |
| Alerts.AlertsCog.SendAlert | cogs/alerts.py:264-297 | refused during the cooldown; a missing channel sends nothing; a sent alert is recorded fresh under its message id, and only then |
| Alerts.AlertsCog.SendTestAlert | cogs/alerts.py:300-333 | admins only, no cooldown; otherwise as `SendAlert` |
| Alerts.AlertsCog.DefenderButton | cogs/alerts.py:113-143 | an unknown alert is reported; a presser not among the defenders is told to react 👍 first; a defender of an alert holding 4 defenders is told the limit is reached; the selector opens exactly for a defender of a known alert below 4 defenders |
| Alerts.AlertsCog.DefenderSelectCallback | cogs/alerts.py:59-93 | without the cog or with an unknown alert nothing changes; a full alert is reported full; otherwise the selection is admitted as `Admit` says, keeping every alert at 4 defenders or fewer |
| Alerts.AlertsCog.AddSelected | cogs/alerts.py:80-86 | the loop adds, in order, the selected users `Admit` admits and stops at the cap |
| AlertsRuntime.Registered | cogs/alerts_runtime.py:101-108 | a registered alert has its author and nothing else |
| AlertsRuntime.React | cogs/alerts_runtime.py:127-139 | 👍 adds the user, 🏆/❌ set the result, 😡 sets the flag, any other emoji changes nothing; defenders only grow |
| AlertsRuntime.ThumbsUpIdempotent | cogs/alerts_runtime.py:127-128 | a second 👍 by the same user changes nothing |
| AlertsRuntime.ReactAllMonotone | cogs/alerts_runtime.py:116-139 | over any reaction sequence, defenders only grow, the author stays, and a set flag stays set |
| AlertsRuntime.LatestResultDecides | cogs/alerts_runtime.py:130-136 | the latest 🏆/❌ by a human decides the result, whatever came before |
| AlertsRuntime.ResultUntouched | cogs/alerts_runtime.py:116-139 | reactions other than a human's 🏆/❌ leave the result alone |
| AlertsRuntime.FirstMentions | cogs/alerts_runtime.py:64 | a submission contributes its first four mentions at most, in order |
| AlertsRuntime.WithMentions | cogs/alerts_runtime.py:64-65 | defenders grow by exactly those mentions, by four at most |
| AlertsRuntime.NoOverallCap | cogs/alerts_runtime.py:64-65 | unlike the select path, the modal can take an alert past four defenders |
| AlertsRuntime.ResultLabel | cogs/alerts_runtime.py:18-23 | each result has its own label, in both directions |
| AlertsRuntime.EmbedFields | cogs/alerts_runtime.py:9-36 | defenders and result fields always; the defenders field holds the rendered list, or the placeholder when there are no defenders; the incomplete field exactly when flagged |
| AlertsRuntime.AlertsRuntimeCog.constructor | cogs/alerts_runtime.py:6 | no alert is tracked at start |
| AlertsRuntime.AlertsRuntimeCog.RegisterAlert | cogs/alerts_runtime.py:101-108 | the message id is tracked with a fresh record, replacing any earlier one |
| AlertsRuntime.AlertsRuntimeCog.OnReactionAdd | cogs/alerts_runtime.py:116-146 | bots and untracked messages change nothing; otherwise only that record changes, as `React` says |
| AlertsRuntime.AlertsRuntimeCog.AddDefenderModalSubmit | cogs/alerts_runtime.py:50-78 | unknown alerts and requesters who are not defenders change nothing; otherwise the defenders become `WithMentions` of the submission |
| Reactions.OnRawReactionAdd | cogs/reactions.py:14-35 | no call outside a guild, for the bot, on untracked messages or without the cog; otherwise exactly one call per known emoji, on that message |
| Reactions.OnRawReactionRemove | cogs/reactions.py:38-55 | the same guards without the bot filter; the call chosen is `remove_defender` for 👍, `clear_result` for 🏆/❌ and `clear_incomplete` for 😡 |
| Reactions.RemoveDoesNotFilterBot | cogs/reactions.py:14-20 | the bot's own 👍 is ignored when added, but its withdrawal still chooses `remove_defender` |
| Reactions.AddRemovePairs | cogs/reactions.py:14-55 | whenever adding a reaction chooses a call, withdrawing it chooses the opposite call |
| Ranking.Top | cogs/leaderboard.py:89-93 | at most `limit` distinct keys, in non-increasing score, and no key left out scores above a listed one |
| Ranking.RankPrefix | cogs/leaderboard.py:104-107 | ranks 1-3 get their medal; rank n > 3 gets the decimal digits of n and a dot |
| Ranking.RankPrefixInjective | cogs/leaderboard_triggers.py:58-63 | two different ranks never get the same prefix |
| Leaderboard.GlobalBounds | cogs/leaderboard.py:35-45 | wins + losses ≤ attacks and incomplete ≤ attacks |
| Leaderboard.PlayerBounds | cogs/leaderboard.py:47-61 | for each player, wins + losses ≤ defences and incomplete ≤ defences |
| Leaderboard.ComputeStats | cogs/leaderboard.py:24-63 | the global counters and each player's counters equal the counting definitions over all alerts, and the players are exactly the defenders |
| Leaderboard.CountOne | cogs/leaderboard.py:35-61 | one outer iteration keeps the counters exact for the alerts counted so far |
| Leaderboard.AddAlertDefenders | cogs/leaderboard.py:47-61 | each defender of the alert is credited once; the defences total grows by the number of defenders |
| Leaderboard.CreditDefender | cogs/leaderboard.py:48-61 | a missing player starts at zero and the player gets the alert's credits |
| Leaderboard.AttacksCountAll | cogs/leaderboard.py:35-36 | `attacks` is the number of alerts |
| Leaderboard.DefendersTally | cogs/leaderboard.py:47-53 | a user is listed exactly when they defended at least one alert |
| Leaderboard.RankingMeaning | cogs/leaderboard.py:89-93 | the top 20 by defences of `compute_stats`' players is a top 20 by the counting definition |
| Leaderboard.BuildEmbed | cogs/leaderboard.py:68-123 | the global field, then the placeholder exactly when nobody defended, else one line per top-20 defender with their counters |
| Leaderboard.RenderLines | cogs/leaderboard.py:103-114 | one line per ranked player, the k-th prefixed for rank k |
| LeaderboardTriggers.ComputeRanking | cogs/leaderboard_triggers.py:22-29 | each author's count is the number of alerts they triggered, and only authors appear; counts sum to the number of alerts |
| LeaderboardTriggers.CountsPositive | cogs/leaderboard_triggers.py:22-29 | every count present is at least 1 |
| LeaderboardTriggers.CountedAreAuthors | cogs/leaderboard_triggers.py:22-29 | the counted users are exactly the authors; the ranking is empty exactly when there are no alerts |
| LeaderboardTriggers.RankingMeaning | cogs/leaderboard_triggers.py:52-56 | the sorted top 20 is a top 20 by number of alerts triggered |
| LeaderboardTriggers.BuildEmbed | cogs/leaderboard_triggers.py:34-72 | the placeholder exactly when there are no alerts, else one line per top-20 author with their count |
| LeaderboardTriggers.RenderLines | cogs/leaderboard_triggers.py:58-63 | one line per ranked author, the k-th prefixed for rank k |
| Snapshots.Extract | cogs/snapshots.py:84-88 | a block is found only where the message holds "```json" (the full case analysis is stated by Snapshots.ExtractSpec) |
| Snapshots.ExtractSpec | cogs/snapshots.py:84-88 | nothing without "```json"; nothing when no "```" follows the first "```json" (the ValueError of `index`); otherwise exactly the stripped text between the first "```json" and the first "```" after it |
| Snapshots.ExtractFrame | cogs/snapshots.py:59 | the JSON text a snapshot message frames is the text extracted from it |
| Snapshots.StripFramed | cogs/snapshots.py:88 | stripping the framing newlines gives compact JSON back |
| Snapshots.SavePayload | cogs/snapshots.py:47-57 | schema 1, the guild, and the two leaderboard tables as saved |
| Snapshots.IntKeysSpec | cogs/snapshots.py:97-98 | the conversion succeeds exactly when every key reads as an integer; its keys are the integers read, each holding the value of the last item that reads as it |
| Snapshots.IntKeysDefined | cogs/snapshots.py:97-98 | the conversion raises exactly when some key is not an integer, and otherwise holds every key read |
| Snapshots.IntKeysFrom | cogs/snapshots.py:97-98 | each key of the result comes from an item that reads as it, with that item's value |
| Snapshots.IntKeysLast | cogs/snapshots.py:97-98 | a later duplicate key wins: the last item reading as a key gives its value |
| Snapshots.IntKeysItemsOf | cogs/snapshots.py:97-98 | counters written as JSON items and converted back are the counters |
| Snapshots.RestoreFrom | cogs/snapshots.py:93-98 | nothing without a document; another guild's document is refused; otherwise defence counters, then ping counters only when the defence ones converted |
| Snapshots.SaveRestore | cogs/snapshots.py:47-98 | a saved payload read back for its guild seeds exactly the saved counters |
| Snapshots.Candidates | cogs/snapshots.py:81-92 | one candidate per message, each the parse of the bot's framed block |
| Snapshots.FirstSomeSpec | cogs/snapshots.py:81-92 | the scan yields nothing exactly when no message parses, else the first that does |
| Snapshots.Recent | cogs/snapshots.py:81 | the 50 newest messages, or all of them when there are fewer |
| Snapshots.ScanHistory | cogs/snapshots.py:80-92 | the loop with `continue`/`break` returns the first parsable block among the 50 newest bot messages |
| Snapshots.SnapshotSave | cogs/snapshots.py:27-61 | no configuration or no channel posts nothing; otherwise the framed payload is posted |
| Snapshots.SaveThenRestore | cogs/snapshots.py:27-98 | a snapshot just posted restores its counters for its own guild and is refused for every other guild |
| Snapshots.SnapshotsCog.constructor | cogs/snapshots.py:24 | nothing restored yet |
| Snapshots.SnapshotsCog.OnReady | cogs/snapshots.py:64-73 | the first call runs the restores of the configured guilds in order, ending after the first one that raises; later calls restore nothing |
| Snapshots.AttemptedSpec | cogs/snapshots.py:69-73 | the restores that run are a prefix of the configured guilds; every one run except the last did not raise; when they stop short, the last one raised |
| Snapshots.AttemptedAll | cogs/snapshots.py:69-73 | when no configured guild's restore raises, every configured guild is restored |
| Snapshots.Configured | cogs/snapshots.py:69-73 | exactly the configured guilds, in order |
| Stats.FirstMax | cogs/stats.py:48 | the first index holding the largest count |
| Stats.ActiveBucket | cogs/stats.py:47-51 | None exactly when all counts are 0, else the first most active bucket |
| Stats.ActiveLabel | cogs/stats.py:47-51 | "—" exactly when there is no activity, else the most active bucket's label |
| Stats.OutcomeLabel | cogs/stats.py:59-64 | "win" and "loss" get their labels, in both directions; anything else reads as running |
| Stats.LoseIsRunning | cogs/stats.py:59-64 | the stored spelling "lose" shows as running |
| Stats.ZeroRatio | cogs/stats.py:44 | "0%" exactly when nobody won or lost |
| Stats.RecentLine | cogs/stats.py:65 | each recent line is a bullet |
| Stats.RecentBlock | cogs/stats.py:67 | the placeholder exactly when there is no recent defence, else the lines joined |
| Stats.StatsReply | cogs/stats.py:27-80 | refused outside a guild or on a database error; otherwise seven fields: the defences, pings, wins and losses as decimal text, the ratio ("0%" when nobody won or lost), the most active bucket and the recent block |
| DraftRules.StepTable | cogs/draft.py:66-76 | A gives at the odd steps and B at the even ones; two classes are offered, three at step 7 |
| DraftRules.StepOf | cogs/draft.py:66-76 | every class is offered at exactly one step |
| DraftRules.OfferMembership | cogs/draft.py:66-76 | a class is offered at a step exactly when it is its step |
| DraftRules.TablesAgree | cogs/draft.py:99-121 | `process_choice` splits exactly what `send_step` offered |
| DraftRules.OfferDistinct | cogs/draft.py:66-76 | each offer holds distinct classes |
| DraftRules.WithoutSpec | cogs/draft.py:109 | the comprehension keeps every class but the pick, as often as it occurs |
| DraftRules.OtherIsFirstRest | cogs/draft.py:109 | the class dealt to the opponent is the first of the pair other than the pick |
| DraftRules.OtherExists | cogs/draft.py:109 | the `[0]` never fails on a pair |
| DraftRules.DealStep | cogs/draft.py:99-124 | a regular pick deals exactly the offered classes, one to each deck, two to B at step 7 |
| DraftRules.DealPairSpec | cogs/draft.py:109-116 | steps 1-6 deal the whole pair, one class to each deck |
| DraftRules.DealLastSpec | cogs/draft.py:119-124 | step 7 deals the pick to A and the two others to B |
| DraftRules.DealGiver | cogs/draft.py:111-116 | the giver's deck receives the pick |
| DraftRules.LastRest | cogs/draft.py:121 | B gets at least two classes at step 7 |
| DraftRules.DealAllSpec | cogs/draft.py:99-124 | after n regular picks the two decks hold exactly what the first n steps offered |
| DraftRules.DealAllSnoc | cogs/draft.py:99-129 | one more regular pick extends the deal by one step |
| DraftRules.FullDraft | cogs/draft.py:134-152 | a finished regular draft deals 7 classes to A and 8 to B, all fifteen classes once |
| DraftRules.OfferedAll | cogs/draft.py:66-76 | the seven offers together are the fifteen classes |
| DraftRules.NameInjective | cogs/draft.py:248 | a button label identifies its class |
| DraftRules.AllClassesDistinct | cogs/draft.py:66-76 | no class is offered twice in a draft |
| Draft.DeckText | cogs/draft.py:134-152 | a deck's text is empty exactly when the deck is |
| Draft.RegularAfterPick | cogs/draft.py:99-129 | a regular draft stays regular after a pick from its current offer |
| Draft.DraftSession.constructor | cogs/draft.py:16-31 | a new session has both slots free, empty decks, step 0, and is active |
| Draft.DraftSession.SendStep | cogs/draft.py:62-90 | advances one step and offers that step's table to its giver |
| Draft.DraftSession.TakeChoice | cogs/draft.py:99-129 | deals the pick; then the next step is sent, or after step 7 the draft stops |
| Draft.DraftSession.JoinA | cogs/draft.py:173-179 | a taken slot changes nothing; otherwise the user takes A, and when B is there step 1 starts |
| Draft.DraftSession.JoinB | cogs/draft.py:182-188 | a taken slot changes nothing; otherwise the user takes B, and when A is there step 1 starts |
| Draft.DraftSession.JoinTimeout | cogs/draft.py:167-170 | a draft still waiting for a player is called off |
| Draft.DraftSession.StepTimeout | cogs/draft.py:220-223 | a step's timeout calls the draft off |
| Draft.DraftCog.constructor | cogs/draft.py:40 | no session registered |
| Draft.DraftCog.StartDraft | cogs/draft.py:46-48 | a fresh session is registered under its id |
| Draft.DraftCog.ProcessChoice | cogs/draft.py:95-129 | an inactive session ignores the pick; otherwise it is dealt and the next step is sent, or the draft finishes and is unregistered |
| Draft.DraftCog.ChoiceClickAsWritten | cogs/draft.py:233-249 | only the view's giver may choose; an inactive session ignores the click; otherwise the pick is dealt at the session's current step, whatever step the view was sent for, then the next step is sent, or after step 7 the draft finishes and is unregistered |
| Draft.DraftCog.ChoiceClick | cogs/draft.py:233-249 | the corrected click: a stale view is ignored, and a regular draft stays regular with the pick appended |
| Draft.DraftCog.ProcessRegularChoice | cogs/draft.py:95-129 | a regular pick keeps the draft regular; the next step follows, or the draft finishes and is unregistered |
| Draft.DraftCog.Cancel | cogs/draft.py:259-265 | only A or B may cancel; a cancel stops and unregisters the draft |
| Draft.StaleClickScenario | cogs/draft.py:233-249 | pressing the step-1 button again at step 2 deals Xélor to A twice and skips B's pick |
| Verify.NormalizeSpec | cogs/verify.py:25-26 | a normalised name has no surrounding whitespace and no capital, and no name gives "" |
| Verify.NormalizeIdempotent | cogs/verify.py:25-26 | normalising twice is normalising once |
| Verify.BuildGuildOptions | cogs/verify.py:29-41 | one option per team of the guild, every team of the guild present, each with its stored name and role, in order_index order, with "Invité" last |
| Verify.PartnerSymmetric | cogs/verify.py:52-55 | the pairing is symmetric |
| Verify.NameMapSpec | cogs/verify.py:58-60 | a name is in the dictionary exactly when some label normalises to it, and it maps to the last such option's role |
| Verify.NameDictionary | cogs/verify.py:58-60 | the loop builds `NameMap` |
| Verify.PairRoles | cogs/verify.py:62-68 | at most one extra role |
| Verify.PairRolesSpec | cogs/verify.py:44-68 | the extra role is the partner's, present exactly when the chosen name has a partner among the options |
| Verify.ComputePairRoles | cogs/verify.py:44-68 | the loops compute `PairRoles` |
| Verify.PairIndex | cogs/verify.py:52-55 | each paired name belongs to exactly one pair |
| Verify.ApproveRoles | cogs/verify.py:201-205 | the chosen role first, then the paired role, then the member role unless already there |
| Verify.LastWithId | cogs/verify.py:84 | the option found has the selected role id as its string, and None means no option has it |
| Verify.OptionsSrcKeys | cogs/verify.py:84-93 | every key of `_options_src` converts back with `int`, to the option it was built from |
| Verify.OptionsSrcMissing | cogs/verify.py:90-92 | a value that is no option's key selects nothing |
| Verify.ChosenSpec | cogs/verify.py:86-93 | nothing without a value, else the last option whose role id the value writes |
| Verify.ChosenRoundTrip | cogs/verify.py:76-93 | selecting an option's own value chooses that option when its role id is unique |
| Verify.SelectedIds | cogs/verify.py:266-267 | only digit values are kept, as non-negative integers, in order |
| Verify.SelectedIdsDrops | cogs/verify.py:266-267 | a non-numeric value such as the placeholder "none" is dropped |
| Verify.SelectedIdsRoundTrip | cogs/verify.py:266-267 | role ids written as values are read back unchanged |
| Attackers.ClickCooldown | cogs/attackers.py:35-42 | an accepted click blocks the same (user, alliance) for exactly 60 seconds and no other pair |
| Attackers.PendingLifetime | cogs/attackers.py:44-54 | a pending alliance reads back for 120 seconds and is kept; after that it reads nothing and is deleted; a newer click overrides |
| Attackers.PendingReadEffect | cogs/attackers.py:47-54 | a read deletes only the reader's own expired entry |
| Attackers.AttackersState.constructor | cogs/attackers.py:23-29 | all three dictionaries start empty |
| Attackers.AttackersState.IsOnCooldown | cogs/attackers.py:35-39 | on cooldown exactly when the pair is not ready under the 60-second rule; never for a pair never clicked |
| Attackers.AttackersState.SetCooldown | cogs/attackers.py:41-42 | the pair is stamped now and is then on cooldown |
| Attackers.AttackersState.SetPendingAttacker | cogs/attackers.py:44-45 | the user's pending alliance is replaced and reads back |
| Attackers.AttackersState.GetPendingAttacker | cogs/attackers.py:47-54 | returns the pending alliance while fresh, deleting an expired one |
| Attackers.AttackersState.OnClick | cogs/attackers.py:66-111 | refused during the cooldown with nothing changed; otherwise stamped, then the last alert is edited or the alliance is left pending |
| Attackers.AttackersState.ApplyPendingAttacker | cogs/attackers.py:141-153 | applied exactly for a fresh non-empty pending alliance whose edit succeeds, and then deleted; otherwise only the read's own effect |
| Panel.ButtonsIndependent | cogs/panel.py:145-167 | each button is keyed by its own label, so pressing one never blocks the other |
| Panel.PanelState.constructor | cogs/panel.py:16 | no pings at start |
| Panel.PanelState.CheckCooldown | cogs/panel.py:30-35 | accepted exactly when the key is ready; the stamp changes for that key only |
| Panel.PanelState.SendAlert | cogs/panel.py:48-94 | refused during the cooldown before anything is sent or registered; a missing channel sends nothing; otherwise the role is pinged and the alert registered |
| Panel.PanelState.SendTestAlert | cogs/panel.py:99-137 | admins only, no cooldown; pings the test role and registers the alert |
| Panel.PanelState.PressButton | cogs/panel.py:145-167 | a press is refused exactly when its own button's key is on cooldown |
| Attaque.NameCaseInsensitive | cogs/attaque.py:83-89 | without a content type, a file name and its lower-case form are judged alike |
| Attaque.NonImageTypeFallsBack | cogs/attaque.py:83-89 | a content type not starting with "image" is the same as none: the file name decides |
| Attaque.CapitalExtensionAccepted | cogs/attaque.py:83-89 | example: "SHOT.PNG" without a content type is an image |
| Attaque.VideoRefused | cogs/attaque.py:83-89 | example: a "video/mp4" attachment named "clip.mp4" is refused |
| Attaque.Window | cogs/attaque.py:78 | a prefix of the history (newest first) of length 200, or the whole history when shorter |
| Attaque.ImageUrlsMembers | cogs/attaque.py:78-93 | a URL is collected exactly when some image attachment has it |
| Attaque.UrlsSaturated | cogs/attaque.py:79-93 | once three URLs are held, further attachments change nothing |
| Attaque.CollectedSpec | cogs/attaque.py:76-93 | the first image URLs in visiting order: all of them when there are three or fewer, exactly three otherwise, each from an image attachment |
| Attaque.CollectImages | cogs/attaque.py:76-93 | the nested loops with their bound checks and breaks compute `Collected` |
| Attaque.CollectFromMessage | cogs/attaque.py:82-93 | one message's attachments extend the collection as the specification says |
| Attaque.Mentions | cogs/attaque.py:96-102 | one mention per co-op player, in order |
| Attaque.DescriptionShape | cogs/attaque.py:96-102 | the guild line always, last; the co-op line exactly when there are co-op players, first |
| Attaque.CaptureLinksFromSpec | cogs/attaque.py:109-119 | the links numbered from n are one per URL |
| Attaque.CaptureNumbering | cogs/attaque.py:109-119 | with k images the links are "Capture 2" to "Capture k", the j-th pointing at image j+1 |
| Attaque.EmbedImages | cogs/attaque.py:104-119 | the first image is the embed image; the other-captures field exists exactly with two images or more |
| Attaque.Publish | cogs/attaque.py:67-130 | refused outside the origin thread; otherwise the embed of the collected images is published unless the send fails |
| MessageDeleteLogger.TruncateSpec | cogs/message_delete_logger.py:118-120 | a field never exceeds 1024 characters; a short text is kept; a long one keeps its first 1000 and ends with the marker |
| MessageDeleteLogger.TruncateIdempotent | cogs/message_delete_logger.py:118-120 | truncating twice is truncating once |
| MessageDeleteLogger.ContentFieldSpec | cogs/message_delete_logger.py:118-120 | an empty message shows the placeholder, a short one is shown whole, every field fits |
| MessageDeleteLogger.AttachmentsFieldSpec | cogs/message_delete_logger.py:171-179 | the field exists exactly with attachments, fits, and is the URL list when short |
| MessageDeleteLogger.LookbackBoundary | cogs/message_delete_logger.py:88-89 | an entry exactly 10 seconds old still matches; one a microsecond older does not |
| MessageDeleteLogger.FirstMatchSpec | cogs/message_delete_logger.py:73-96 | nothing exactly when no entry matches, else the deleter of the earliest matching entry |
| MessageDeleteLogger.FindMessageDeleter | cogs/message_delete_logger.py:54-106 | nothing without the audit-log permission; otherwise the first match among the ten entries read |
| MessageDeleteLogger.OnMessageDelete | cogs/message_delete_logger.py:19-52 | DMs, bot authors, a missing log channel and deletions with no matching entry log nothing; everything else is logged with its deleter |
| MessageDeleteLogger.LoggedFieldsFit | cogs/message_delete_logger.py:108-179 | every logged field fits Discord's 1024-character limit |
| Text.NatToStringRoundTrip | cogs/leaderboard.py:107 | `str(n)` is digits only and reads back as n |
| Text.ParseIntRoundTrip | cogs/snapshots.py:97-98 | `int(str(i)) == i` |
| Text.TrimStartSpec | cogs/snapshots.py:88 | `lstrip` removes exactly the leading whitespace |
| Text.TrimEndSpec | cogs/snapshots.py:88 | `rstrip` removes exactly the trailing whitespace |
| Text.FindFrom | cogs/snapshots.py:86-87 | `index` finds the first occurrence at or after the start, or fails when there is none |
| Text.FindFromFirst | cogs/snapshots.py:86-87 | an occurrence with none before it is the one `index` finds |

## Left out

- Discord transport and UI are left out:
  - sending, editing, fetching and deleting messages;
  - adding and clearing reactions;
  - role changes and thread creation;
  - views, modals, selects and interaction responses;
  - embed colours, footers and timestamps.

  What these calls return is a parameter of the model: a channel found, an edit that succeeded, a fetched history.
- `main.py` (the keep-alive web server, extension loading and command sync) is not part of this model. It is bootstrap, I/O and concurrency.
- `cog/panel.py`, `cogs/pvp.py` and `cogs/rota.py` are not part of this model. They hold no state and only build messages or toggle a role.
- SQLite connections, commits and `with_db` are left out: each table is a `map` field.
- `utcnow_i`, `time.time`, `datetime.now` and the Paris time zone become an integer `now`. Audit-log times are in microseconds.
- Concurrency between `await` points is not modelled: each handler runs to completion.
- The `asyncio.sleep` before the audit-log lookup is not modelled.
- `json.dumps` and `json.loads` are abstract: the parse is a function parameter, and the saved document is related to the payload by a predicate.
- The aggregate functions that `snapshots.py` and `stats.py` import are not modelled: `storage.py` lacks them, so they are uninterpreted inputs.
- Snapshots.SavePayload: covers only the two leaderboard tables, because the global, team and hourly aggregates come from functions `storage.py` lacks.
- `update_leaderboards` is not modelled: `cogs/leaderboard.py` does not define it.
- Calls to functions the called cog does not define are modelled only as the call chosen:
  - `reactions.py` calls `add_defender`, `set_result`, `remove_defender`, `clear_result` and `clear_incomplete`, which `AlertsCog` lacks;
  - `attackers.py` imports `build_ping_embed` and `update_attack_log_embed`, which `alerts.py` lacks.
- Stats.ZeroRatio: the formatted floating-point percentage is not modelled, only the zero case.
- Stats.StatsReply: the ratio field is stated only for the zero case; with wins or losses it holds the floating-point percentage, which is not modelled.
- Text.Lower: covers ASCII and Latin-1 capitals only; other letters are left unchanged, where Python's `lower` maps every Unicode capital.
- Text.IsDigits: accepts ASCII digits only, where Python's `isdigit` also accepts other Unicode digits, such as Arabic-Indic digits or superscripts. `Verify.SelectedIds` filters with it. The select values it reads are role ids written with `str` or the placeholder "none", so they never hold such characters.
- Text.ParseInt: accepts an optional sign followed by ASCII digits only. Python's `int` also skips surrounding whitespace, accepts `_` between digits and accepts other Unicode digits. `Snapshots.IntKeys` parses the snapshot keys with it, and those keys were written by `str` of an integer.
- Ranking.Top: ties are in unspecified order, because Python's stable sort over dictionary insertion order is not modelled.
- Leaderboard.BuildEmbed: the same tie caveat applies.
- LeaderboardTriggers.BuildEmbed: the same tie caveat applies.
- Verify.ComputePairRoles: ignores the unused `chosen_role_id` argument and iterates the pairs in a fixed order. Python's set order could differ, but at most one pair can match.
- Attackers.AttackersState.OnClick: the embed edit of the user's last alert is the `editOk` parameter. `user_last_alert` is never written in `attackers.py`, so that branch is reachable only through the model's initial state.
- Attackers.AttackersState.ApplyPendingAttacker: it is not called from any file of this model. The fetch of the alert is folded into `editOk`.
- Attaque.Publish: the UI flow around it is left out: the co-op selector, the guild-name modal, thread naming and archiving. A history fetch error is modelled as a shorter history.
- MessageDeleteLogger.FindMessageDeleter: a Forbidden or HTTP error while reading the audit log is modelled as a shorter entry list.
- Image file checks of the draft (`os.path.exists`) are left out. The deck text covers only the embed lines.
- Alerts.AlertsCog.SendAlert: the ping text and embed of `alerts.py` are not modelled, only the reply and the record. `Panel.PanelState.SendAlert` models them for `panel.py`.

## Findings

| source | as written | input that shows it | evidently intended | confidence | as-written member | corrected member |
|---|---|---|---|---|---|---|
| cogs/draft.py:233-249 | a class button stays live after its step and processes the click at the session's current step, so `other = [c for c in pairs[step] if c != chosen][0]` (cogs/draft.py:109) deals a class from a pair that was never offered | A picks Xélor at step 1, then presses the step-1 Xélor button again during step 2: A's deck is [Xélor, Xélor], B's is [Eniripsa, Zobal], Féca is never dealt, and the draft moves to step 3 without B choosing | a button of an earlier step is ignored, so every finished draft deals each of the fifteen classes exactly once | not executed | Draft.StaleClickScenario | Draft.DraftCog.ChoiceClick |
