/**
 `purge custom`: a list of checks built from flags, combined with `all` or
 `any`. The source builds a list of closures; here each closure is a tagged
 `Check` value and `Eval` is what the closure computes.
 */
module Custom {
  import opened Python
  import opened Messages

  /** The parsed flags. `user` is the id of the given user; `contains`, `prefix`
      and `suffix` are the given strings; `after` and `before` are message ids.
      Each flag counts when it is true in Python's sense. */
  datatype Flags = Flags(
    bot: bool,
    webhooks: bool,
    embeds: bool,
    files: bool,
    reactions: bool,
    emoji: bool,
    user: Option<nat>,
    contains: Option<string>,
    prefix: Option<string>,
    suffix: Option<string>,
    after: Option<nat>,
    before: Option<nat>,
    require: string)

  /** One entry of the `predicates` list. */
  datatype Check =
    | FromBot                   // m.author.bot
    | FromBotNotWebhook         // (m.webhook_id is None or m.interaction is not None) and m.author.bot
    | FromWebhook               // m.webhook_id is not None
    | HasEmbeds                 // len(m.embeds)
    | HasFiles                  // len(m.attachments)
    | HasReactions              // len(m.reactions)
    | HasCustomEmoji            // CUSTOM_EMOJI_RE.search(m.content)
    | ByUser(id: nat)           // m.author == flags.user
    | ContentHas(text: string)  // flags.contains in m.content
    | ContentStarts(p: string)  // m.content.startswith(flags.prefix)
    | ContentEnds(s: string)    // m.content.endswith(flags.suffix)

  /** What one entry returns for a message. The `len` entries return an int and
      the emoji entry a match or None, each true exactly when there is something
      to count or find; every other entry returns a bool. */
  function Eval(c: Check, m: Message, emojiSearch: string -> bool): (v: Value)
    ensures v.Bool? <==> !(c.HasEmbeds? || c.HasFiles? || c.HasReactions? || c.HasCustomEmoji?)
    ensures c.HasEmbeds? ==> (Truthy(v) <==> m.embeds != [])
    ensures c.HasFiles? ==> (Truthy(v) <==> m.attachments > 0)
    ensures c.HasReactions? ==> (Truthy(v) <==> m.reactions != [])
    ensures c.HasCustomEmoji? ==> (Truthy(v) <==> emojiSearch(m.content))
  {
    match c
    case FromBot => Bool(m.authorIsBot)
    case FromBotNotWebhook => Bool((m.webhookId.None? || m.hasInteraction) && m.authorIsBot)
    case FromWebhook => Bool(m.webhookId.Some?)
    case HasEmbeds => Len(|m.embeds|)
    case HasFiles => Len(m.attachments)
    case HasReactions => Len(|m.reactions|)
    case HasCustomEmoji => Search(emojiSearch(m.content))
    case ByUser(id) => Bool(m.authorId == id)
    case ContentHas(t) => Bool(In(t, m.content))
    case ContentStarts(p) => Bool(StartsWith(m.content, p))
    case ContentEnds(s) => Bool(EndsWith(m.content, s))
  }

  /** The place of each kind of entry in the fixed order the flags are examined:
      origin, embeds, files, reactions, emoji, user, contains, prefix, suffix. */
  const Slots: nat := 9

  function Slot(c: Check): (s: nat)
    ensures s < Slots
  {
    match c
    case FromBot => 0
    case FromBotNotWebhook => 0
    case FromWebhook => 0
    case HasEmbeds => 1
    case HasFiles => 2
    case HasReactions => 3
    case HasCustomEmoji => 4
    case ByUser(_) => 5
    case ContentHas(_) => 6
    case ContentStarts(_) => 7
    case ContentEnds(_) => 8
  }

  /** An optional string flag is set when it is true in Python's sense. */
  predicate Given(s: Option<string>)
  {
    Truthy(OptionalStr(s))
  }

  /** The origin entry: `bot` and `webhooks` together ask for bot authorship
      alone, `bot` alone for bot authorship outside webhooks (interactions
      allowed), `webhooks` alone for webhook origin; neither asks for nothing. */
  function Origin(f: Flags): (o: Option<Check>)
    ensures o.Some? <==> f.bot || f.webhooks
  {
    if f.bot then (if f.webhooks then Some(FromBot) else Some(FromBotNotWebhook))
    else if f.webhooks then Some(FromWebhook)
    else None
  }

  /** What slot `i` asks for under the flags, if anything. */
  function Candidate(f: Flags, i: nat): (o: Option<Check>)
    ensures o.Some? ==> Slot(o.value) == i
  {
    if i == 0 then Origin(f)
    else if i == 1 then (if f.embeds then Some(HasEmbeds) else None)
    else if i == 2 then (if f.files then Some(HasFiles) else None)
    else if i == 3 then (if f.reactions then Some(HasReactions) else None)
    else if i == 4 then (if f.emoji then Some(HasCustomEmoji) else None)
    else if i == 5 then (if f.user.Some? then Some(ByUser(f.user.value)) else None)
    else if i == 6 then (if Given(f.contains) then Some(ContentHas(f.contains.value)) else None)
    else if i == 7 then (if Given(f.prefix) then Some(ContentStarts(f.prefix.value)) else None)
    else if i == 8 then (if Given(f.suffix) then Some(ContentEnds(f.suffix.value)) else None)
    else None
  }

  function AsSeq(o: Option<Check>): seq<Check>
  {
    match o
    case Some(c) => [c]
    case None => []
  }

  /** The entries slots `0 .. k-1` ask for, in slot order. */
  function UpTo(f: Flags, k: nat): seq<Check>
  {
    if k == 0 then [] else UpTo(f, k - 1) + AsSeq(Candidate(f, k - 1))
  }

  /** The whole `predicates` list the flags ask for. */
  function Requested(f: Flags): seq<Check>
  {
    UpTo(f, Slots)
  }

  function Ord(b: bool): nat
  {
    if b then 1 else 0
  }

  function CountUpTo(f: Flags, k: nat): nat
  {
    if k == 0 then 0 else CountUpTo(f, k - 1) + Ord(Candidate(f, k - 1).Some?)
  }

  /** How many flags are set, counting `bot` and `webhooks` together as one. */
  function FlagCount(f: Flags): nat
  {
    Ord(f.bot || f.webhooks) + Ord(f.embeds) + Ord(f.files) + Ord(f.reactions) + Ord(f.emoji) +
    Ord(f.user.Some?) + Ord(Given(f.contains)) + Ord(Given(f.prefix)) + Ord(Given(f.suffix))
  }

  lemma {:induction false} UpToOrdered(f: Flags, k: nat)
    ensures forall p :: 0 <= p < |UpTo(f, k)| ==> Slot(UpTo(f, k)[p]) < k
    ensures forall p, q :: 0 <= p < q < |UpTo(f, k)| ==> Slot(UpTo(f, k)[p]) < Slot(UpTo(f, k)[q])
  {
    if k > 0 {
      UpToOrdered(f, k - 1);
    }
  }

  lemma {:induction false} UpToMembers(f: Flags, k: nat, c: Check)
    ensures c in UpTo(f, k) <==> Slot(c) < k && Candidate(f, Slot(c)) == Some(c)
  {
    if k > 0 {
      UpToMembers(f, k - 1, c);
    }
  }

  lemma {:induction false} UpToLength(f: Flags, k: nat)
    ensures |UpTo(f, k)| == CountUpTo(f, k)
  {
    if k > 0 {
      UpToLength(f, k - 1);
    }
  }

  /** The list follows the fixed flag order, so no slot (in particular the
      origin slot) holds more than one entry. */
  lemma RequestedOrdered(f: Flags)
    ensures forall i, j :: 0 <= i < j < |Requested(f)| ==> Slot(Requested(f)[i]) < Slot(Requested(f)[j])
  {
    UpToOrdered(f, Slots);
  }

  /** An entry is in the list exactly when the flags ask for it in its slot. */
  lemma RequestedMembers(f: Flags, c: Check)
    ensures c in Requested(f) <==> Candidate(f, Slot(c)) == Some(c)
  {
    UpToMembers(f, Slots, c);
  }

  /** The count of the first five slots, flag by flag. */
  lemma CountOriginToEmoji(f: Flags)
    ensures CountUpTo(f, 5) ==
      Ord(f.bot || f.webhooks) + Ord(f.embeds) + Ord(f.files) + Ord(f.reactions) + Ord(f.emoji)
  {
    assert CountUpTo(f, 1) == CountUpTo(f, 0) + Ord(f.bot || f.webhooks);
    assert CountUpTo(f, 2) == CountUpTo(f, 1) + Ord(f.embeds);
    assert CountUpTo(f, 3) == CountUpTo(f, 2) + Ord(f.files);
    assert CountUpTo(f, 4) == CountUpTo(f, 3) + Ord(f.reactions);
    assert CountUpTo(f, 5) == CountUpTo(f, 4) + Ord(f.emoji);
  }

  /** The count of the last four slots, flag by flag. */
  lemma CountUserToSuffix(f: Flags)
    ensures CountUpTo(f, 9) ==
      CountUpTo(f, 5) + Ord(f.user.Some?) + Ord(Given(f.contains)) + Ord(Given(f.prefix)) + Ord(Given(f.suffix))
  {
    assert CountUpTo(f, 6) == CountUpTo(f, 5) + Ord(f.user.Some?);
    assert CountUpTo(f, 7) == CountUpTo(f, 6) + Ord(Given(f.contains));
    assert CountUpTo(f, 8) == CountUpTo(f, 7) + Ord(Given(f.prefix));
    assert CountUpTo(f, 9) == CountUpTo(f, 8) + Ord(Given(f.suffix));
  }

  /** One entry per set flag, with `bot` and `webhooks` sharing one. */
  lemma RequestedLength(f: Flags)
    ensures |Requested(f)| == FlagCount(f)
  {
    UpToLength(f, Slots);
    CountOriginToEmoji(f);
    CountUserToSuffix(f);
  }

  /** The origin rule: which of the three origin entries the list holds. At most
      one of them is ever there, by `RequestedOrdered`. */
  lemma OriginRule(f: Flags)
    ensures FromBot in Requested(f) <==> f.bot && f.webhooks
    ensures FromBotNotWebhook in Requested(f) <==> f.bot && !f.webhooks
    ensures FromWebhook in Requested(f) <==> !f.bot && f.webhooks
  {
    RequestedMembers(f, FromBot);
    RequestedMembers(f, FromBotNotWebhook);
    RequestedMembers(f, FromWebhook);
  }

  /** The first five slots written out: origin, embeds, files, reactions, emoji. */
  lemma FlatOriginToEmoji(f: Flags)
    ensures UpTo(f, 5) == AsSeq(Origin(f))
      + (if f.embeds then [HasEmbeds] else [])
      + (if f.files then [HasFiles] else [])
      + (if f.reactions then [HasReactions] else [])
      + (if f.emoji then [HasCustomEmoji] else [])
  {
    assert UpTo(f, 1) == AsSeq(Origin(f));
    assert UpTo(f, 2) == UpTo(f, 1) + (if f.embeds then [HasEmbeds] else []);
    assert UpTo(f, 3) == UpTo(f, 2) + (if f.files then [HasFiles] else []);
    assert UpTo(f, 4) == UpTo(f, 3) + (if f.reactions then [HasReactions] else []);
    assert UpTo(f, 5) == UpTo(f, 4) + (if f.emoji then [HasCustomEmoji] else []);
  }

  /** The last four slots written out: user, contains, prefix, suffix. */
  lemma FlatUserToSuffix(f: Flags)
    ensures Requested(f) == UpTo(f, 5)
      + (if f.user.Some? then [ByUser(f.user.value)] else [])
      + (if Given(f.contains) then [ContentHas(f.contains.value)] else [])
      + (if Given(f.prefix) then [ContentStarts(f.prefix.value)] else [])
      + (if Given(f.suffix) then [ContentEnds(f.suffix.value)] else [])
  {
    assert UpTo(f, 6) == UpTo(f, 5) + (if f.user.Some? then [ByUser(f.user.value)] else []);
    assert UpTo(f, 7) == UpTo(f, 6) + (if Given(f.contains) then [ContentHas(f.contains.value)] else []);
    assert UpTo(f, 8) == UpTo(f, 7) + (if Given(f.prefix) then [ContentStarts(f.prefix.value)] else []);
    assert UpTo(f, 9) == UpTo(f, 8) + (if Given(f.suffix) then [ContentEnds(f.suffix.value)] else []);
  }

  /** The list written out flag by flag. */
  lemma RequestedFlat(f: Flags)
    ensures Requested(f) == AsSeq(Origin(f))
      + (if f.embeds then [HasEmbeds] else [])
      + (if f.files then [HasFiles] else [])
      + (if f.reactions then [HasReactions] else [])
      + (if f.emoji then [HasCustomEmoji] else [])
      + (if f.user.Some? then [ByUser(f.user.value)] else [])
      + (if Given(f.contains) then [ContentHas(f.contains.value)] else [])
      + (if Given(f.prefix) then [ContentStarts(f.prefix.value)] else [])
      + (if Given(f.suffix) then [ContentEnds(f.suffix.value)] else [])
  {
    FlatOriginToEmoji(f);
    FlatUserToSuffix(f);
  }

  /** The body of `_custom` up to the combinator: the origin rule, then one
      conditional append per flag, in the source's order. */
  method BuildChecks(f: Flags) returns (predicates: seq<Check>)
    ensures predicates == Requested(f)
  {
    predicates := [];
    if f.bot {
      if f.webhooks {
        predicates := predicates + [FromBot];
      } else {
        predicates := predicates + [FromBotNotWebhook];
      }
    } else if f.webhooks {
      predicates := predicates + [FromWebhook];
    }
    assert predicates == AsSeq(Origin(f));
    predicates := predicates + (if f.embeds then [HasEmbeds] else []);
    predicates := predicates + (if f.files then [HasFiles] else []);
    predicates := predicates + (if f.reactions then [HasReactions] else []);
    predicates := predicates + (if f.emoji then [HasCustomEmoji] else []);
    predicates := predicates + (if f.user.Some? then [ByUser(f.user.value)] else []);
    predicates := predicates + (if Given(f.contains) then [ContentHas(f.contains.value)] else []);
    predicates := predicates + (if Given(f.prefix) then [ContentStarts(f.prefix.value)] else []);
    predicates := predicates + (if Given(f.suffix) then [ContentEnds(f.suffix.value)] else []);
    RequestedFlat(f);
  }

  datatype Combinator = All | Any

  /** `all if flags.require == "all" else any`. */
  function CombinatorFor(require: string): (op: Combinator)
    ensures op == All <==> require == "all"
  {
    if require == "all" then All else Any
  }

  /** `op(p(m) for p in predicates)`: `all` and `any` over the truth values,
      stopping at the first entry that decides. `all` holds when every entry
      is true (so always, on no entries), `any` when some entry is (so never,
      on no entries). */
  function Holds(op: Combinator, cs: seq<Check>, m: Message, emojiSearch: string -> bool): (r: bool)
    ensures op == All ==> (r <==> forall i :: 0 <= i < |cs| ==> Truthy(Eval(cs[i], m, emojiSearch)))
    ensures op == Any ==> (r <==> exists i :: 0 <= i < |cs| && Truthy(Eval(cs[i], m, emojiSearch)))
  {
    if cs == [] then op == All
    else
      assert forall i :: 1 <= i < |cs| ==> cs[i] == cs[1..][i - 1];
      if op == All then Truthy(Eval(cs[0], m, emojiSearch)) && Holds(op, cs[1..], m, emojiSearch)
      else Truthy(Eval(cs[0], m, emojiSearch)) || Holds(op, cs[1..], m, emojiSearch)
  }

  /** Whether the flag of slot `i` is set. */
  predicate FlagSet(f: Flags, i: nat)
  {
    if i == 0 then f.bot || f.webhooks
    else if i == 1 then f.embeds
    else if i == 2 then f.files
    else if i == 3 then f.reactions
    else if i == 4 then f.emoji
    else if i == 5 then f.user.Some?
    else if i == 6 then Given(f.contains)
    else if i == 7 then Given(f.prefix)
    else if i == 8 then Given(f.suffix)
    else false
  }

  /** What the origin flags ask of a message: a bot author, with webhooks
      allowed only when `webhooks` is set too or the message comes from an
      interaction; a webhook when `webhooks` is set alone. */
  predicate OriginMet(f: Flags, m: Message)
  {
    if f.bot then m.authorIsBot && (f.webhooks || m.webhookId.None? || m.hasInteraction)
    else m.webhookId.Some?
  }

  /** What the flag of slot `i` asks of a message, as the subcommand's help
      describes it. The custom-emoji flag has no age check. */
  predicate FlagMet(f: Flags, i: nat, m: Message, emojiSearch: string -> bool)
  {
    if i == 0 then OriginMet(f, m)
    else if i == 1 then m.embeds != []
    else if i == 2 then m.attachments > 0
    else if i == 3 then m.reactions != []
    else if i == 4 then emojiSearch(m.content)
    else if i == 5 then f.user.Some? && m.authorId == f.user.value
    else if i == 6 then f.contains.Some? && In(f.contains.value, m.content)
    else if i == 7 then f.prefix.Some? && StartsWith(m.content, f.prefix.value)
    else if i == 8 then f.suffix.Some? && EndsWith(m.content, f.suffix.value)
    else false
  }

  /** Slot `i` holds an entry exactly when its flag is set, and that entry is
      true of a message exactly when the message meets the flag. */
  lemma SlotMeaning(f: Flags, i: nat, m: Message, emojiSearch: string -> bool)
    requires i < Slots
    ensures Candidate(f, i).Some? <==> FlagSet(f, i)
    ensures Candidate(f, i).Some? ==>
      (Truthy(Eval(Candidate(f, i).value, m, emojiSearch)) <==> FlagMet(f, i, m, emojiSearch))
  {
  }

  /** Under `all`, the list holds exactly when the message meets every set flag. */
  lemma RequestedAll(f: Flags, m: Message, emojiSearch: string -> bool)
    ensures Holds(All, Requested(f), m, emojiSearch) <==>
      forall i :: 0 <= i < Slots && FlagSet(f, i) ==> FlagMet(f, i, m, emojiSearch)
  {
    var r := Requested(f);
    forall i | 0 <= i < Slots {
      SlotMeaning(f, i, m, emojiSearch);
    }
    if forall p :: 0 <= p < |r| ==> Truthy(Eval(r[p], m, emojiSearch)) {
      forall i | 0 <= i < Slots && FlagSet(f, i)
        ensures FlagMet(f, i, m, emojiSearch)
      {
        var c := Candidate(f, i).value;
        RequestedMembers(f, c);
        var p :| 0 <= p < |r| && r[p] == c;
      }
    }
    if forall i :: 0 <= i < Slots && FlagSet(f, i) ==> FlagMet(f, i, m, emojiSearch) {
      forall p | 0 <= p < |r|
        ensures Truthy(Eval(r[p], m, emojiSearch))
      {
        RequestedMembers(f, r[p]);
      }
    }
  }

  /** Under `any`, the list holds exactly when the message meets some set flag. */
  lemma RequestedAny(f: Flags, m: Message, emojiSearch: string -> bool)
    ensures Holds(Any, Requested(f), m, emojiSearch) <==>
      exists i :: 0 <= i < Slots && FlagSet(f, i) && FlagMet(f, i, m, emojiSearch)
  {
    var r := Requested(f);
    if exists p :: 0 <= p < |r| && Truthy(Eval(r[p], m, emojiSearch)) {
      var p :| 0 <= p < |r| && Truthy(Eval(r[p], m, emojiSearch));
      RequestedMembers(f, r[p]);
      SlotMeaning(f, Slot(r[p]), m, emojiSearch);
    }
    if exists i :: 0 <= i < Slots && FlagSet(f, i) && FlagMet(f, i, m, emojiSearch) {
      var i :| 0 <= i < Slots && FlagSet(f, i) && FlagMet(f, i, m, emojiSearch);
      SlotMeaning(f, i, m, emojiSearch);
      var c := Candidate(f, i).value;
      RequestedMembers(f, c);
      var p :| 0 <= p < |r| && r[p] == c;
    }
  }

  /** The check `_custom` hands to the scan: with `require all`, a message must
      meet every set flag; with any other `require`, at least one. */
  function Matches(f: Flags, m: Message, emojiSearch: string -> bool): (r: bool)
    ensures f.require == "all" ==>
      (r <==> forall i :: 0 <= i < Slots && FlagSet(f, i) ==> FlagMet(f, i, m, emojiSearch))
    ensures f.require != "all" ==>
      (r <==> exists i :: 0 <= i < Slots && FlagSet(f, i) && FlagMet(f, i, m, emojiSearch))
  {
    RequestedAll(f, m, emojiSearch);
    RequestedAny(f, m, emojiSearch);
    Holds(CombinatorFor(f.require), Requested(f), m, emojiSearch)
  }

  /** With no flag set the list is empty: `require all` then matches every
      message and any other `require` matches none. */
  lemma NoFlags(f: Flags, m: Message, emojiSearch: string -> bool)
    requires FlagCount(f) == 0
    ensures Requested(f) == []
    ensures Matches(f, m, emojiSearch) <==> f.require == "all"
  {
    RequestedLength(f);
  }

  /** No flag other than `bot` and `webhooks` is set. */
  predicate OnlyOriginFlags(f: Flags)
  {
    !f.embeds && !f.files && !f.reactions && !f.emoji && f.user.None? &&
    !Given(f.contains) && !Given(f.prefix) && !Given(f.suffix)
  }

  /** With only origin flags set, the list is the origin entry alone. */
  lemma OnlyOrigin(f: Flags)
    requires OnlyOriginFlags(f) && (f.bot || f.webhooks)
    ensures Requested(f) == [Origin(f).value]
  {
    RequestedLength(f);
    RequestedMembers(f, Origin(f).value);
  }

  /** With a single entry, `all` and `any` agree: both are that entry's truth value. */
  lemma HoldsSingle(op: Combinator, c: Check, m: Message, emojiSearch: string -> bool)
    ensures Holds(op, [c], m, emojiSearch) <==> Truthy(Eval(c, m, emojiSearch))
  {
  }

  /** `bot` with `webhooks` selects every bot-authored message, webhook or not,
      whatever `require` says. */
  lemma BotAndWebhooksMatchAnyBot(f: Flags, m: Message, emojiSearch: string -> bool)
    requires f.bot && f.webhooks && OnlyOriginFlags(f)
    ensures Matches(f, m, emojiSearch) <==> m.authorIsBot
  {
    OnlyOrigin(f);
    HoldsSingle(CombinatorFor(f.require), Origin(f).value, m, emojiSearch);
  }

  /** `bot` alone leaves out webhook messages unless they come from an interaction. */
  lemma BotAloneSkipsWebhooks(f: Flags, m: Message, emojiSearch: string -> bool)
    requires f.bot && !f.webhooks && OnlyOriginFlags(f)
    ensures Matches(f, m, emojiSearch) <==> m.authorIsBot && (m.webhookId.None? || m.hasInteraction)
  {
    OnlyOrigin(f);
    HoldsSingle(CombinatorFor(f.require), Origin(f).value, m, emojiSearch);
  }

  /** `webhooks` alone selects exactly the webhook messages. */
  lemma WebhooksAloneMatchWebhooks(f: Flags, m: Message, emojiSearch: string -> bool)
    requires !f.bot && f.webhooks && OnlyOriginFlags(f)
    ensures Matches(f, m, emojiSearch) <==> m.webhookId.Some?
  {
    OnlyOrigin(f);
    HoldsSingle(CombinatorFor(f.require), Origin(f).value, m, emojiSearch);
  }

  /** How many messages the scan reads: a given `number` as it is, otherwise 2000
      when `after` is set and 100 when it is not. */
  function ScanCount(number: Option<int>, after: Option<nat>): (n: int)
    requires number.Some? ==> 1 <= number.value <= 2000
    ensures 1 <= n <= 2000
    ensures number.Some? ==> n == number.value
    ensures number.None? && IdGiven(after) ==> n == 2000
    ensures number.None? && !IdGiven(after) ==> n == 100
  {
    match number
    case Some(k) => k
    case None => if IdGiven(after) then 2000 else 100
  }

  /** Everything `_custom` passes to the cleanup scan. */
  datatype CleanupRequest = CleanupRequest(
    checks: seq<Check>, op: Combinator, limit: int, before: Option<nat>, after: Option<nat>)

  /** `_custom`: build the list, pick the combinator, default the count and drop
      bounds that are not set. `number` is within 1..2000 when given; the
      framework's range converter sees to that. */
  method CustomCommand(f: Flags, number: Option<int>) returns (req: CleanupRequest)
    requires number.Some? ==> 1 <= number.value <= 2000
    ensures req.checks == Requested(f) && |req.checks| == FlagCount(f)
    ensures req.op == All <==> f.require == "all"
    ensures req.limit == ScanCount(number, f.after) && 1 <= req.limit <= 2000
    ensures req.before == (if IdGiven(f.before) then f.before else None)
    ensures req.after == (if IdGiven(f.after) then f.after else None)
  {
    var predicates := BuildChecks(f);
    var op := if f.require == "all" then All else Any;
    var count := number;
    if IdGiven(f.after) {
      if count.None? {
        count := Some(2000);
      }
    }
    if count.None? {
      count := Some(100);
    }
    var before := if IdGiven(f.before) then f.before else None;
    var after := if IdGiven(f.after) then f.after else None;
    RequestedLength(f);
    req := CleanupRequest(predicates, op, count.value, before, after);
  }
}
