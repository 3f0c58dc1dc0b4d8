/**
 A chat message as the purge checks see it: an immutable record of the
 fields they read. Identifiers (users, webhooks, stickers) are snowflakes,
 plain naturals here; times are integers in microseconds on one clock.
 */
module Messages {
  import opened Python

  /** An embed, compared as a whole through its serialised form (`to_dict()`). */
  datatype Embed = Embed(serialised: string)

  datatype Message = Message(
    authorId: nat,
    authorIsBot: bool,
    webhookId: Option<nat>,
    hasInteraction: bool,
    content: string,
    embeds: seq<Embed>,
    attachments: nat,
    reactions: seq<nat>,    // the count of each reaction on the message
    stickerIds: seq<nat>,
    createdAt: int,
    pinned: bool)

  /** A message-id argument is set when it is present and non-zero, as Python
      tests an optional int. */
  predicate IdGiven(id: Option<nat>)
  {
    id.Some? && id.value != 0
  }

  /** Fourteen days in microseconds: messages older than this cannot be bulk deleted. */
  const Horizon: int := 14 * 24 * 60 * 60 * 1000000
}
