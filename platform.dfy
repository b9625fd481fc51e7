/**
 * The chat-platform values the bots read. Every platform call whose
 * outcome matters to the order stores is an input here: a call that
 * may throw is a boolean saying whether it succeeded.
 */
module Platform {
  import opened Wrappers

  /** One `{ name, value }` entry of an embed. */
  datatype Field = Field(name: string, value: string)

  /** A rich embed; a missing `fields` array is the empty sequence (both bots treat the two alike). */
  datatype Embed = Embed(title: Option<string>, fields: seq<Field>)

  /** An incoming message: who wrote it, where, its text and its embeds. */
  datatype Message = Message(
    id: string,
    channelId: string,
    authorIsBot: bool,
    webhookId: Option<string>,
    content: string,
    embeds: seq<Embed>)

  /** A guild member: the user's tag and username, and the member's display name. */
  datatype Member = Member(tag: string, username: string, displayName: string)

  /** A guild in the client's cache: whether `members.fetch()` succeeded, and its member cache in order. */
  datatype Guild = Guild(fetched: bool, members: seq<Member>)

  /** Whether each awaited platform call of a handler resolves (true) or throws (false). */
  datatype Effects = Effects(
    membersFetched: bool,   // guild.members.fetch()
    dmSent: bool,           // user.send(...)
    channelSent: bool,      // channel.send(...) used when the DM fails
    replySent: bool,        // message.reply(...) / interaction.reply(...) before the store is touched
    messageEdited: bool)    // edit of the order message before the store is touched
}
