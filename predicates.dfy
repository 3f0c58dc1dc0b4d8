/**
 The checks the single-mode purge subcommands hand to the cleanup scan,
 one function per subcommand. Each body follows the Python expression
 (operands of `and` / `or` are returned, not converted to bool), and each
 contract states when the scan treats the result as a match.

 The regular expressions (a user's pattern, the custom-emoji pattern and
 the link pattern) are parameters: `reMatch(pattern, text)` stands for
 `re.match`, `emojiSearch` and `linksSearch` for `search` with the fixed
 patterns. `now` stands for the current time.
 */
module Predicates {
  import opened Python
  import opened Messages

  /** `message.created_at > utcnow() - timedelta(days=14)`: the age check of the
      default purge, also part of `regex`, `bot` and `emoji`. */
  function Recent(m: Message, now: int): (v: Value)
    ensures Truthy(v) <==> now - m.createdAt < Horizon
    ensures v.Bool?
  {
    Bool(m.createdAt > now - Horizon)
  }

  /** `purge embeds`: `len(e.embeds)`. */
  function EmbedsCheck(m: Message): (v: Value)
    ensures Truthy(v) <==> m.embeds != []
  {
    Len(|m.embeds|)
  }

  /** The text `rf"{pattern}"` gives for an optional pattern: an absent one prints as "None". */
  function PatternText(pattern: Option<string>): (p: string)
    ensures pattern.Some? ==> p == pattern.value
    ensures pattern.None? ==> p == "None"
  {
    match pattern
    case None => "None"
    case Some(s) => s
  }

  /** `purge regex`: `bool(re.match(pattern, content)) and recent`. */
  function RegexCheck(pattern: Option<string>, m: Message, now: int, reMatch: (string, string) -> bool): (v: Value)
    ensures Truthy(v) <==> reMatch(PatternText(pattern), m.content) && now - m.createdAt < Horizon
  {
    And(Bool(reMatch(PatternText(pattern), m.content)), Recent(m, now))
  }

  /** `purge files`: `len(e.attachments)`. */
  function FilesCheck(m: Message): (v: Value)
    ensures Truthy(v) <==> m.attachments > 0
  {
    Len(m.attachments)
  }

  /** `purge images`: `len(e.embeds) or len(e.attachments)`. */
  function ImagesCheck(m: Message): (v: Value)
    ensures Truthy(v) <==> m.embeds != [] || m.attachments > 0
    ensures Truthy(v) <==> Truthy(EmbedsCheck(m)) || Truthy(FilesCheck(m))
  {
    Or(Len(|m.embeds|), Len(m.attachments))
  }

  /** `purge user`, `purge self` and `purge mine`: `e.author == target`, where the
      target is the named member, the invoking user or the bot's own member.
      Users compare equal exactly when their ids do. */
  function AuthorCheck(m: Message, target: nat): (v: Value)
    ensures Truthy(v) <==> m.authorId == target
  {
    Bool(m.authorId == target)
  }

  /** `purge contains`: `text in e.content`. */
  function ContainsCheck(text: string, m: Message): (v: Value)
    ensures Truthy(v) <==> exists k: nat | k <= |m.content| :: OccursAt(text, m.content, k)
  {
    Bool(In(text, m.content))
  }

  /** `purge bot`: `((webhook_id is None and author.bot) or (prefix and
      content.startswith(prefix))) and recent`. An absent or empty prefix is false,
      and then `startswith` is never reached. */
  function BotCheck(prefix: Option<string>, m: Message, now: int): (v: Value)
    ensures Truthy(v) <==>
      now - m.createdAt < Horizon &&
      ((m.webhookId.None? && m.authorIsBot) ||
       (prefix.Some? && prefix.value != "" && StartsWith(m.content, prefix.value)))
  {
    var byPrefix :=
      match prefix
      case None => NoneValue
      case Some(p) => And(OptionalStr(prefix), Bool(StartsWith(m.content, p)));
    And(Or(And(Bool(m.webhookId.None?), Bool(m.authorIsBot)), byPrefix), Recent(m, now))
  }

  /** `purge emoji`: `bool(CUSTOM_EMOJI_RE.search(content) and recent)`. */
  function EmojiCheck(m: Message, now: int, emojiSearch: string -> bool): (v: Value)
    ensures v.Bool?
    ensures Truthy(v) <==> emojiSearch(m.content) && now - m.createdAt < Horizon
  {
    Bool(Truthy(And(Search(emojiSearch(m.content)), Recent(m, now))))
  }

  /** `purge links`: `LINKS_RE.search(m.content)`, with no age check. */
  function LinksCheck(m: Message, linksSearch: string -> bool): (v: Value)
    ensures Truthy(v) <==> linksSearch(m.content)
  {
    Search(linksSearch(m.content))
  }

  /** What `purge contains <text>` does before any message is read. */
  datatype ContainsRequest =
    | Rejected(reply: string)
    | Scan(limit: nat, text: string)

  const TooShortReply: string := "The text length must be at least 3 characters long."

  /** `purge contains`: text shorter than three characters gets the error reply and
      no scan; otherwise the last 100 messages are scanned for the text. */
  function ContainsCommand(text: string): (r: ContainsRequest)
    ensures r.Rejected? <==> |text| < 3
    ensures r.Rejected? ==> r.reply == TooShortReply
    ensures r.Scan? ==> r.limit == 100 && r.text == text
  {
    if |text| < 3 then Rejected(TooShortReply) else Scan(100, text)
  }

  /** Once accepted, `contains` matches exactly the messages whose content has the
      text somewhere in it, wherever it stands. */
  lemma ContainsMatchesOccurrences(text: string, m: Message, before: string, after: string)
    requires |text| >= 3
    requires m.content == before + text + after
    ensures ContainsCommand(text).Scan?
    ensures Truthy(ContainsCheck(ContainsCommand(text).text, m))
  {
    InConcat(before, text, after);
  }
}
