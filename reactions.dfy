/**
 * Model of cogs/reactions.py: the guards and the emoji-to-action case split of
 * the raw reaction listeners. The handlers change nothing themselves; they name
 * a call on the alerts cog, which is what is returned here. (`add_defender`,
 * `set_result`, `remove_defender`, `clear_result` and `clear_incomplete` are
 * called by name but the alerts cog defines none of them; their effect is not
 * modelled.)
 */
module Reactions {

  import opened Wrappers

  /** The call a handler makes on the alerts cog. */
  datatype Action =
    | AddDefender(messageId: int, userId: int)
    | SetResult(messageId: int, result: string)
    | ToggleIncomplete(messageId: int)
    | RemoveDefender(messageId: int, userId: int)
    | ClearResult(messageId: int)
    | ClearIncomplete(messageId: int)

  /** The fields of a raw reaction event the handlers read. */
  datatype RawReaction = RawReaction(guildId: Option<int>, userId: int, messageId: int, emoji: string)

  /**
   * `on_raw_reaction_add`: no action outside a guild, for the bot's own
   * reactions, on untracked messages or without the alerts cog; otherwise one
   * action per known emoji.
   */
  function OnRawReactionAdd(p: RawReaction, botUserId: int, tracked: set<int>, cogLoaded: bool): (r: Option<Action>)
    ensures p.guildId.None? || p.userId == botUserId || p.messageId !in tracked || !cogLoaded ==> r.None?
    ensures r.Some? ==> r.value.messageId == p.messageId
    ensures r.Some? && p.emoji == "👍" ==> r.value == AddDefender(p.messageId, p.userId)
    ensures r.Some? && p.emoji == "🏆" ==> r.value == SetResult(p.messageId, "win")
    ensures r.Some? && p.emoji == "❌" ==> r.value == SetResult(p.messageId, "lose")
    ensures r.Some? && p.emoji == "😡" ==> r.value == ToggleIncomplete(p.messageId)
    ensures r.Some? <==> (p.guildId.Some? && p.userId != botUserId && p.messageId in tracked && cogLoaded
                          && p.emoji in {"👍", "🏆", "❌", "😡"})
  {
    if p.guildId.None? then None
    else if p.userId == botUserId then None
    else if p.messageId !in tracked then None
    else if !cogLoaded then None
    else if p.emoji == "👍" then Some(AddDefender(p.messageId, p.userId))
    else if p.emoji == "🏆" then Some(SetResult(p.messageId, "win"))
    else if p.emoji == "❌" then Some(SetResult(p.messageId, "lose"))
    else if p.emoji == "😡" then Some(ToggleIncomplete(p.messageId))
    else None
  }

  /**
   * `on_raw_reaction_remove`: the same guards except the bot filter; the call
   * chosen is `remove_defender` for 👍, `clear_result` for 🏆 or ❌ and
   * `clear_incomplete` for 😡.
   */
  function OnRawReactionRemove(p: RawReaction, tracked: set<int>, cogLoaded: bool): (r: Option<Action>)
    ensures p.guildId.None? || p.messageId !in tracked || !cogLoaded ==> r.None?
    ensures r.Some? ==> r.value.messageId == p.messageId
    ensures r.Some? && p.emoji == "👍" ==> r.value == RemoveDefender(p.messageId, p.userId)
    ensures r.Some? && p.emoji in {"🏆", "❌"} ==> r.value == ClearResult(p.messageId)
    ensures r.Some? && p.emoji == "😡" ==> r.value == ClearIncomplete(p.messageId)
    ensures r.Some? <==> (p.guildId.Some? && p.messageId in tracked && cogLoaded && p.emoji in {"👍", "🏆", "❌", "😡"})
  {
    if p.guildId.None? then None
    else if p.messageId !in tracked then None
    else if !cogLoaded then None
    else if p.emoji == "👍" then Some(RemoveDefender(p.messageId, p.userId))
    else if p.emoji in {"🏆", "❌"} then Some(ClearResult(p.messageId))
    else if p.emoji == "😡" then Some(ClearIncomplete(p.messageId))
    else None
  }

  /**
   * The remove path does not filter the bot: the bot's own 👍 leads to no
   * action when added but to a removal when withdrawn.
   */
  lemma RemoveDoesNotFilterBot(guildId: int, botUserId: int, messageId: int, tracked: set<int>)
    requires messageId in tracked
    ensures OnRawReactionAdd(RawReaction(Some(guildId), botUserId, messageId, "👍"), botUserId, tracked, true).None?
    ensures OnRawReactionRemove(RawReaction(Some(guildId), botUserId, messageId, "👍"), tracked, true)
      == Some(RemoveDefender(messageId, botUserId))
  {
  }

  /** Adding and then withdrawing the same reaction names opposite calls (a clearing call, not one that restores the old result or flag). */
  lemma AddRemovePairs(p: RawReaction, botUserId: int, tracked: set<int>)
    requires OnRawReactionAdd(p, botUserId, tracked, true).Some?
    ensures OnRawReactionRemove(p, tracked, true).Some?
    ensures OnRawReactionAdd(p, botUserId, tracked, true).value.AddDefender? <==> OnRawReactionRemove(p, tracked, true).value.RemoveDefender?
    ensures OnRawReactionAdd(p, botUserId, tracked, true).value.SetResult? <==> OnRawReactionRemove(p, tracked, true).value.ClearResult?
    ensures OnRawReactionAdd(p, botUserId, tracked, true).value.ToggleIncomplete? <==> OnRawReactionRemove(p, tracked, true).value.ClearIncomplete?
  {
  }
}
