/**
 The range subcommands `after`, `before` and `between`, and the tail they
 share with `duplicates`: finding the bounding message, putting together
 the list handed to the bulk delete, and the confirmation reply.

 Looking a message up by id is the parameter `fetch` (None when the channel
 answers "not found"); the scan's result is given as `matches`.
 */
module Deletion {
  import opened Python
  import opened Messages

  datatype Resolution<T> = Resolved(value: T) | Reply(text: string)

  const NotFoundReply: string := "Message not found."
  const NothingReply: string := "Could not find any messages to delete."

  /** The bounding message of `after` and `before`: the message with the given id,
      or else the message the command replies to. `reference` is None when the
      command is not a reply, and otherwise what looking up the replied-to
      message gave. */
  function ResolveAnchor(messageId: Option<nat>, fetch: nat -> Option<Message>,
                         reference: Option<Option<Message>>): (r: Resolution<Message>)
    ensures IdGiven(messageId) ==>
      (r.Resolved? <==> fetch(messageId.value).Some?) &&
      (r.Resolved? ==> r.value == fetch(messageId.value).value) &&
      (r.Reply? ==> r.text == NotFoundReply)
    ensures !IdGiven(messageId) ==>
      (r.Resolved? <==> reference.Some? && reference.value.Some?) &&
      (r.Resolved? ==> r.value == reference.value.value) &&
      (r.Reply? ==> r.text == NothingReply)
  {
    var anchor: Resolution<Option<Message>> :=
      if IdGiven(messageId) then
        match fetch(messageId.value)
        case None => Reply(NotFoundReply)
        case Some(m) => Resolved(Some(m))
      else
        match reference
        case Some(replied) => Resolved(replied)
        case None => Resolved(None);
    match anchor
    case Reply(text) => Reply(text)
    case Resolved(None) => Reply(NothingReply)
    case Resolved(Some(m)) => Resolved(m)
  }

  /** The reply naming an id that was not found: the fixed text, the id in
      decimal, and a full stop. */
  function MissingIdReply(id: nat): (s: string)
    ensures 41 < |s| && s[..40] == "Could not find a message with the ID of " && s[|s| - 1] == '.'
    ensures ReadsAs(s[40..|s| - 1], id)
  {
    CountBetween("Could not find a message with the ID of ", id, ".");
    "Could not find a message with the ID of " + Decimal(id) + "."
  }

  /** The two bounding messages of `between`, looked up in order; the first id
      that is not found is named in the reply. */
  function ResolveBetween(one: nat, two: nat, fetch: nat -> Option<Message>): (r: Resolution<(Message, Message)>)
    ensures r.Resolved? <==> fetch(one).Some? && fetch(two).Some?
    ensures r.Resolved? ==> r.value == (fetch(one).value, fetch(two).value)
    ensures fetch(one).None? ==> r == Reply(MissingIdReply(one))
    ensures fetch(one).Some? && fetch(two).None? ==> r == Reply(MissingIdReply(two))
  {
    match fetch(one)
    case None => Reply(MissingIdReply(one))
    case Some(first) =>
      match fetch(two)
      case None => Reply(MissingIdReply(two))
      case Some(second) => Resolved((first, second))
  }

  /** The subcommands that end in a bulk delete of scanned matches. */
  datatype RangeCommand = After | Before | Between | Duplicates

  /** The list handed to the bulk delete: the matches as the scan returned them,
      followed by the command message itself for every subcommand but `after`. */
  function DeleteSet(cmd: RangeCommand, matches: seq<Message>, invoking: Message): (d: seq<Message>)
    ensures |d| == |matches| + (if cmd == After then 0 else 1)
    ensures d[..|matches|] == matches
    ensures cmd != After ==> d[|matches|] == invoking
  {
    if cmd == After then matches else matches + [invoking]
  }

  /** `to_delete.append(ctx.message)` where the subcommand does it. */
  method AssembleDeleteSet(cmd: RangeCommand, matches: seq<Message>, invoking: Message)
    returns (toDelete: seq<Message>)
    ensures toDelete == DeleteSet(cmd, matches, invoking)
  {
    toDelete := matches;
    if cmd != After {
      toDelete := toDelete + [invoking];
    }
  }

  /** The success reply: the count, then "message" or "messages". The count can
      be read back from the text between the opening words and the noun. */
  function Confirmation(n: nat): (s: string)
    ensures 31 <= |s| && s[..21] == "Successfully deleted "
    ensures ReadsAs(s[21..|s| - (if n == 1 then 9 else 10)], n)
  {
    var tail := if n == 1 then " message." else " messages.";
    CountBetween("Successfully deleted ", n, tail);
    "Successfully deleted " + Decimal(n) + tail
  }

  /** The reply reads "... message." for exactly one deleted message and
      "... messages." for any other count, zero included. */
  lemma ConfirmationWording(n: nat)
    ensures EndsWith(Confirmation(n), " message.") <==> n == 1
    ensures EndsWith(Confirmation(n), " messages.") <==> n != 1
  {
    var head := "Successfully deleted " + Decimal(n);
    if n == 1 {
      assert Confirmation(n) == head + " message.";
      assert Confirmation(n)[|Confirmation(n)| - 10] == Decimal(n)[|Decimal(n)| - 1];
    } else {
      assert Confirmation(n) == head + " messages.";
      assert Confirmation(n)[|Confirmation(n)| - 9] != ' ';
    }
  }

  /** For `before`, `between` and `duplicates` at least one message is deleted and
      the reply is singular exactly when the scan matched nothing; for `after`
      it is singular exactly when one message matched. */
  lemma DeleteSetWording(cmd: RangeCommand, matches: seq<Message>, invoking: Message)
    ensures cmd != After ==> |DeleteSet(cmd, matches, invoking)| >= 1
    ensures EndsWith(Confirmation(|DeleteSet(cmd, matches, invoking)|), " message.") <==>
      (if cmd == After then |matches| == 1 else matches == [])
  {
    ConfirmationWording(|DeleteSet(cmd, matches, invoking)|);
  }
}
