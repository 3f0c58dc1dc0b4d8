/**
 `purge duplicates`: a check with memory. Every message without attachments
 is reduced to a fingerprint (author id, content, embeds, sticker ids); the
 check answers true for a message whose fingerprint it has seen before and
 otherwise remembers the fingerprint. The scan reads the history newest
 first, so the copy that survives is the first one it reads, i.e. the newest.

 The functions below describe the closure's two lists after any sequence of
 calls; the class is the closure itself, updating them in place.
 */
module Duplicates {
  import opened Messages

  datatype Fingerprint = Fingerprint(authorId: nat, content: string, embeds: seq<Embed>, stickerIds: seq<nat>)

  function FingerprintOf(m: Message): Fingerprint
  {
    Fingerprint(m.authorId, m.content, m.embeds, m.stickerIds)
  }

  /** Two messages count as copies exactly when author id, content, embeds and
      sticker ids all agree; time, attachments, reactions and the rest play no part. */
  lemma SameFingerprint(a: Message, b: Message)
    ensures FingerprintOf(a) == FingerprintOf(b) <==>
      a.authorId == b.authorId && a.content == b.content && a.embeds == b.embeds && a.stickerIds == b.stickerIds
  {
  }

  /** The `messages` list after `check` was called on each of `ms` in turn. */
  function SeenAfter(ms: seq<Message>): seq<Fingerprint>
  {
    if ms == [] then []
    else
      var prev := SeenAfter(ms[..|ms| - 1]);
      var m := ms[|ms| - 1];
      if m.attachments > 0 || FingerprintOf(m) in prev then prev else prev + [FingerprintOf(m)]
  }

  /** What `check(m)` answers once `ms` have been checked. */
  predicate IsDuplicate(ms: seq<Message>, m: Message)
  {
    m.attachments == 0 && FingerprintOf(m) in SeenAfter(ms)
  }

  /** The `spam` list after `check` was called on each of `ms` in turn. */
  function SpamAfter(ms: seq<Message>): seq<Message>
  {
    if ms == [] then []
    else
      var prev := SpamAfter(ms[..|ms| - 1]);
      var m := ms[|ms| - 1];
      if IsDuplicate(ms[..|ms| - 1], m) then prev + [m] else prev
  }

  function WithAttachments(ms: seq<Message>): nat
  {
    if ms == [] then 0
    else WithAttachments(ms[..|ms| - 1]) + (if ms[|ms| - 1].attachments > 0 then 1 else 0)
  }

  predicate Distinct(fs: seq<Fingerprint>)
  {
    forall i, j :: 0 <= i < j < |fs| ==> fs[i] != fs[j]
  }

  /** A fingerprint is remembered exactly when some checked message without
      attachments has it. */
  lemma {:induction false} SeenAfterHolds(ms: seq<Message>, fp: Fingerprint)
    ensures fp in SeenAfter(ms) <==>
      exists j :: 0 <= j < |ms| && ms[j].attachments == 0 && FingerprintOf(ms[j]) == fp
  {
    if ms != [] {
      var init := ms[..|ms| - 1];
      SeenAfterHolds(init, fp);
      assert forall j :: 0 <= j < |init| ==> init[j] == ms[j];
    }
  }

  /** The remembered fingerprints never repeat. */
  lemma {:induction false} SeenAfterDistinct(ms: seq<Message>)
    ensures Distinct(SeenAfter(ms))
  {
    if ms != [] {
      SeenAfterDistinct(ms[..|ms| - 1]);
    }
  }

  /** The check on the message at position `i` of the scan answers true exactly
      when an earlier message without attachments has the same fingerprint:
      the first copy never matches, every later copy does. */
  lemma DuplicateIffEarlierCopy(ms: seq<Message>, i: nat)
    requires i < |ms|
    ensures IsDuplicate(ms[..i], ms[i]) <==>
      ms[i].attachments == 0 &&
      exists j :: 0 <= j < i && ms[j].attachments == 0 && FingerprintOf(ms[j]) == FingerprintOf(ms[i])
  {
    SeenAfterHolds(ms[..i], FingerprintOf(ms[i]));
    assert forall j :: 0 <= j < i ==> ms[..i][j] == ms[j];
  }

  /** Every checked message is accounted for exactly once: it carries attachments,
      or it is the first copy of its fingerprint, or it is spam. */
  lemma {:induction false} CheckedPartition(ms: seq<Message>)
    ensures |SpamAfter(ms)| + |SeenAfter(ms)| + WithAttachments(ms) == |ms|
  {
    if ms != [] {
      CheckedPartition(ms[..|ms| - 1]);
    }
  }

  /** Every spam entry is one of the checked messages and has no attachments. */
  lemma {:induction false} SpamFromChecked(ms: seq<Message>)
    ensures forall s :: s in SpamAfter(ms) ==> s in ms && s.attachments == 0
  {
    if ms != [] {
      var init := ms[..|ms| - 1];
      SpamFromChecked(init);
      assert forall s :: s in init ==> s in ms;
    }
  }

  /** The closure of `_duplicates`: the two lists and the `check` that updates them. */
  class DuplicateDetector {
    var seen: seq<Fingerprint>   // the closure's `messages`
    var spam: seq<Message>
    ghost var checked: seq<Message>

    ghost predicate Valid()
      reads this
    {
      seen == SeenAfter(checked) && spam == SpamAfter(checked)
    }

    constructor ()
      ensures Valid() && checked == [] && seen == [] && spam == []
    {
      seen := [];
      spam := [];
      checked := [];
    }

    /** `check(m)`. */
    method Check(m: Message) returns (isDuplicate: bool)
      requires Valid()
      modifies this
      ensures Valid() && checked == old(checked) + [m]
      ensures isDuplicate <==> m.attachments == 0 && FingerprintOf(m) in old(seen)
      ensures m.attachments > 0 ==> seen == old(seen) && spam == old(spam)
      ensures m.attachments == 0 && isDuplicate ==> seen == old(seen) && spam == old(spam) + [m]
      ensures m.attachments == 0 && !isDuplicate ==> seen == old(seen) + [FingerprintOf(m)] && spam == old(spam)
      ensures Distinct(seen)
    {
      assert (checked + [m])[..|checked|] == checked;
      if m.attachments > 0 {
        isDuplicate := false;
      } else {
        var content := FingerprintOf(m);
        if content in seen {
          spam := spam + [m];
          isDuplicate := true;
        } else {
          seen := seen + [content];
          isDuplicate := false;
        }
      }
      checked := checked + [m];
      SeenAfterDistinct(checked);
    }
  }

  /** The scan's use of the check over a given history, newest first: the
      messages it answers true for, in the order read. These are the spam
      entries, so every one of them repeats an earlier-read message. */
  method SelectDuplicates(history: seq<Message>) returns (matches: seq<Message>)
    ensures matches == SpamAfter(history)
    ensures |matches| <= |history|
    ensures forall s :: s in matches ==> s in history && s.attachments == 0
  {
    var detector := new DuplicateDetector();
    matches := [];
    for i := 0 to |history|
      invariant detector.Valid() && detector.checked == history[..i]
      invariant matches == detector.spam
    {
      var isDuplicate := detector.Check(history[i]);
      assert history[..i + 1] == history[..i] + [history[i]];
      if isDuplicate {
        matches := matches + [history[i]];
      }
    }
    assert history[..|history|] == history;
    CheckedPartition(history);
    SpamFromChecked(history);
  }
}
