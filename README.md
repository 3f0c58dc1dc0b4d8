# Purge cog: message selection, modelled in Dafny

This project models how the `purge` moderation command decides which chat messages to delete. A message is an immutable record. It holds:

- the author id and whether the author is a bot;
- an optional webhook id and an interaction flag;
- the content, embeds, attachment count, reaction counts and sticker ids;
- the creation time and the pinned flag.

The model covers:

- the single-mode checks (`purge`, `embeds`, `regex`, `files`, `images`, `user`, `self`, `mine`, `contains`, `bot`, `emoji`, `links`), with Python's truthiness rules for `and`/`or`/`len`;
- the `custom` subcommand: the ordered list of checks built from the flags, the `all`/`any` combinator and the scan-count defaulting;
- the stateful duplicate detector of `duplicates`, as a class whose `seen` fingerprint list and `spam` list are updated in place;
- finding the bounding messages of `after`, `before` and `between`, putting together the delete set, and the "message"/"messages" wording of the confirmation;
- the reaction tally loop of `reactions`;
- the length check of `contains`.

Modules:

- `Python`: truthiness, `and`/`or`, `in`, `startswith`/`endswith`, decimal formatting.
- `Messages`: the message record and the 14-day horizon.
- `Predicates`: the single-mode checks.
- `Custom`: the `custom` subcommand.
- `Duplicates`: the duplicate detector.
- `Deletion`: bounding messages, the delete set and the confirmation.
- `Reactions`: the reaction tally.

Times are integers in microseconds on one clock, and the current time is the parameter `now`. Regular expressions are uninterpreted parameters:

- `reMatch(pattern, text)` stands for `re.match`;
- `emojiSearch` and `linksSearch` stand for `search` with the custom-emoji and link patterns.

Looking a message up by id is the parameter `fetch`. The scanned channel history is a given sequence, newest first.

## Model

| member | source | states |
|---|---|---|
| Python.DecimalRoundTrip | purge/core.py:433 | the count printed in a reply reads back as the same number |
| Python.CountBetween | purge/core.py:317 | a count printed between two fixed texts is found again between them as a non-empty decimal with no leading zero that reads as the same number |
| Python.InConcat | purge/core.py:238 | `text in content` holds whenever the text occurs in the content at any position |
| Predicates.Recent | purge/core.py:114-116 | the default purge matches exactly the messages younger than 14 days (strict cutoff) |
| Predicates.EmbedsCheck | purge/core.py:135 | `embeds` matches exactly the messages with at least one embed |
| Predicates.PatternText | purge/core.py:159 | a given pattern is used as is; an absent one becomes the text "None" |
| Predicates.RegexCheck | purge/core.py:157-160 | `regex` matches exactly when the pattern matches at the start of the content and the message is younger than 14 days |
| Predicates.FilesCheck | purge/core.py:177 | `files` matches exactly the messages with attachments |
| Predicates.ImagesCheck | purge/core.py:194 | `images` matches exactly when there are embeds or attachments, i.e. when `embeds` or `files` would match |
| Predicates.AuthorCheck | purge/core.py:215 | `user`, `self` and `mine` match exactly the messages by the target author |
| Predicates.ContainsCheck | purge/core.py:238 | `contains` matches exactly when the text occurs somewhere in the content |
| Predicates.BotCheck | purge/core.py:260-265 | `bot` matches iff the message is recent and either has no webhook and a bot author, or the prefix is present, non-empty and starts the content |
| Predicates.EmojiCheck | purge/core.py:287-289 | `emoji` yields a bool that is true iff the content has a custom emoji and the message is recent |
| Predicates.LinksCheck | purge/core.py:377 | `links` matches exactly when the content has a link, with no age check |
| Predicates.ContainsCommand | purge/core.py:231-238 | text shorter than 3 characters is rejected with the fixed reply and no scan; otherwise 100 messages are scanned for that same text |
| Predicates.ContainsMatchesOccurrences | purge/core.py:231-238 | accepted text matches every message whose content contains it |
| Custom.Origin | purge/core.py:626-634 | an origin entry exists exactly when `bot` or `webhooks` is set |
| Custom.Candidate | purge/core.py:624-658 | each flag asks only for an entry of its own slot in the fixed order |
| Custom.UpToOrdered | purge/core.py:624-658 | the entries of the first k slots are in strictly increasing slot order |
| Custom.UpToMembers | purge/core.py:624-658 | an entry is among the first k slots' entries iff its slot is below k and its flag asks for it |
| Custom.UpToLength | purge/core.py:624-658 | the first k slots contribute one entry per set flag among them |
| Custom.RequestedOrdered | purge/core.py:624-658 | the list follows the order origin, embeds, files, reactions, emoji, user, contains, prefix, suffix, with at most one entry per slot |
| Custom.RequestedMembers | purge/core.py:624-658 | an entry is in the list exactly when its flag is set (falsy flags and empty strings add nothing) |
| Custom.RequestedLength | purge/core.py:624-658 | the list has one entry per set flag, with `bot` and `webhooks` sharing one |
| Custom.OriginRule | purge/core.py:626-634 | `author.bot` iff both origin flags are set; the bot-but-not-webhook check iff only `bot`; the webhook check iff only `webhooks` |
| Custom.RequestedFlat | purge/core.py:624-658 | the list is the origin entry (if any) followed by one entry for each set flag, written out in the source's order |
| Custom.BuildChecks | purge/core.py:624-658 | the origin rule and the conditional appends build exactly the requested list |
| Custom.CombinatorFor | purge/core.py:660 | the combinator is `all` exactly when `require` is "all" |
| Custom.Eval | purge/core.py:628-658 | the `len` entries and the emoji entry return a non-bool that is true exactly when there is an embed, attachment, reaction or custom emoji; every other entry returns a bool |
| Custom.Holds | purge/core.py:662-664 | `all` holds iff every entry is true of the message (always, on no entries); `any` iff some entry is (never, on no entries) |
| Custom.SlotMeaning | purge/core.py:626-658 | each slot has an entry exactly when its flag is set, and the entry is true exactly when the message meets that flag as its help text describes |
| Custom.RequestedAll | purge/core.py:624-664 | under `all` the list holds iff the message meets every set flag |
| Custom.RequestedAny | purge/core.py:624-664 | under `any` the list holds iff the message meets some set flag |
| Custom.Matches | purge/core.py:660-664 | with `require all` a message matches iff it meets every set flag (origin, embeds, files, reactions, custom emoji, user, contains, prefix, suffix); with any other `require` iff it meets at least one |
| Custom.NoFlags | purge/core.py:660-664 | with no flag set the list is empty, and the check matches every message under "all" and none otherwise |
| Custom.OnlyOrigin | purge/core.py:626-634 | with only origin flags set, the list is the origin entry alone |
| Custom.HoldsSingle | purge/core.py:662-664 | on a one-entry list `all` and `any` both give that entry's truth value |
| Custom.BotAndWebhooksMatchAnyBot | purge/core.py:626-628 | `bot` with `webhooks` matches exactly the bot-authored messages, webhooks included |
| Custom.BotAloneSkipsWebhooks | purge/core.py:629-632 | `bot` alone matches bot messages without a webhook or with an interaction |
| Custom.WebhooksAloneMatchWebhooks | purge/core.py:633-634 | `webhooks` alone matches exactly the messages with a webhook id |
| Custom.ScanCount | purge/core.py:666-671 | a given number is kept; a missing one is 2000 with `after` and 100 without; the count always lies in 1..2000 |
| Custom.CustomCommand | purge/core.py:624-676 | the request carries the requested list (one entry per set flag), the combinator, the defaulted count and only the set bounds |
| Duplicates.SameFingerprint | purge/core.py:564-569 | two messages are copies iff author id, content, embeds and sticker ids all agree; nothing else about them matters |
| Duplicates.SeenAfterHolds | purge/core.py:561-575 | a fingerprint is remembered iff some checked message without attachments has it |
| Duplicates.SeenAfterDistinct | purge/core.py:570-575 | the remembered fingerprints never repeat |
| Duplicates.DuplicateIffEarlierCopy | purge/core.py:561-575 | a message matches iff it has no attachments and an earlier checked message without attachments has its fingerprint; the first copy never matches |
| Duplicates.CheckedPartition | purge/core.py:561-575 | every checked message is counted once: with attachments, first copy, or spam |
| Duplicates.SpamFromChecked | purge/core.py:570-572 | every spam entry is a checked message without attachments |
| Duplicates.DuplicateDetector.constructor | purge/core.py:558-559 | both lists start empty |
| Duplicates.DuplicateDetector.Check | purge/core.py:561-575 | a message with attachments is no match and changes nothing; otherwise it matches iff its fingerprint was seen, goes to `spam` on a match and its fingerprint to `seen` otherwise; `seen` stays free of repeats |
| Duplicates.SelectDuplicates | purge/core.py:577-579 | over a history, the matches are exactly the accumulated spam, each one a history message without attachments |
| Deletion.ResolveAnchor | purge/core.py:388-411 | a given id resolves to the fetched message or replies "Message not found."; without one the replied-to message is used, else the reply is "Could not find any messages to delete." |
| Deletion.ResolveBetween | purge/core.py:509-526 | both ids must resolve; the first id that does not is named in the reply |
| Deletion.MissingIdReply | purge/core.py:512-516 | the reply is the fixed text, the missing id as plain decimal (non-empty, no leading zero, reading back as that id) and a full stop |
| Deletion.DeleteSet | purge/core.py:473-476 | the delete set is the matches in order, followed by the invoking message for every subcommand except `after` |
| Deletion.AssembleDeleteSet | purge/core.py:527-530 | the in-place append gives exactly that delete set |
| Deletion.Confirmation | purge/core.py:432-436 | the reply opens with "Successfully deleted " followed by the count as plain decimal (non-empty, no leading zero, so "0" for none), which reads back as the number deleted |
| Deletion.ConfirmationWording | purge/core.py:432-436 | the reply ends in " message." iff exactly one message was deleted, and in " messages." otherwise (zero included) |
| Deletion.DeleteSetWording | purge/core.py:590-594 | `before`/`between`/`duplicates` delete at least one message and say "message" iff nothing matched; `after` says "message" iff one matched |
| Reactions.TotalOverCleared | purge/core.py:310-314 | summing only over the cleared messages gives the total over all scanned messages |
| Reactions.ClearedAreThoseWithReactions | purge/core.py:312-314 | a message is cleared iff it was scanned and has at least one reaction |
| Reactions.TallyReactions | purge/core.py:310-314 | the loop's total is the sum of all reaction counts, and the cleared messages are exactly those with reactions, in scan order |
| Reactions.ReactionsReply | purge/core.py:316-320 | the reply opens with "Successfully removed ", ends with " reactions.", and the count between them is the total as plain decimal (non-empty, no leading zero) |

## Left out

- Async lifecycle (`purge/core.py:36-87`): task creation, done callbacks, cancel on unload and case-type registration are concurrency and host plumbing.
- Host I/O:
  - `fetch_message` and `ctx.history` become parameters (`fetch`, a given history).
  - Bulk delete, mod-log cases, `clear_reactions` and `ctx.send` are represented by what they are given: the delete set, the cleared list and the reply text.
  - The typing and permission decorators are not modelled.
- The cleanup scan is not part of this model: `_cleanup`, `get_messages_for_deletion` and `get_message_from_reference` live in `purge/utils.py`. So paging, the limit, excluding pinned messages and the `before`/`after` bounds of the scan are not modelled. Which message the scan returns, and in what order, is an input (`matches`, `history`). `Duplicates.SelectDuplicates` stands for the scan calling the detector on each message of a given history.
- Regular expression semantics and errors from an invalid user pattern: the patterns are uninterpreted boolean functions.
- Predicates.Recent: models the intended 14-day cutoff on integer timestamps. In the source, `created_at` is timezone-aware and `datetime.utcnow()` is naive, so the comparisons at `purge/core.py:116`, `159`, `265` and `289` raise `TypeError` whenever they are evaluated. That error is not modelled.
- `embed.to_dict()`: embeds are compared as opaque serialised values.
- `humanize_number` and the mod-log reason strings: cosmetic formatting.
- `format_help_for_context` and `captcha/commands.py`: cosmetic or thin wrappers over an unseen config store.
- `Custom.ScanCount` and `Custom.CustomCommand` require a given number to lie in 1..2000, because the framework's range converter rejects any other value before the command runs.
- Identity of users is compared by id; `discord.Member` equality beyond the id is not modelled.
- Even when the scan matches nothing, the code still runs the bulk delete and replies. The model follows this: a zero count reads "0 messages".
