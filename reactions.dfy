/**
 `purge reactions`: reads the recent history, clears the reactions of every
 message that has any, and reports how many reactions were removed. The
 history is given newest first; clearing is recorded as the list of
 messages cleared, in order.
 */
module Reactions {
  import opened Python
  import opened Messages

  /** `sum(counts)`. */
  function Sum(counts: seq<nat>): nat
  {
    if counts == [] then 0 else Sum(counts[..|counts| - 1]) + counts[|counts| - 1]
  }

  /** The number of reactions on all of `ms` together. */
  function ReactionTotal(ms: seq<Message>): nat
  {
    if ms == [] then 0 else ReactionTotal(ms[..|ms| - 1]) + Sum(ms[|ms| - 1].reactions)
  }

  /** The messages of `ms` that carry at least one reaction, in order. */
  function WithReactions(ms: seq<Message>): seq<Message>
  {
    if ms == [] then []
    else
      var m := ms[|ms| - 1];
      WithReactions(ms[..|ms| - 1]) + (if |m.reactions| > 0 then [m] else [])
  }

  /** Skipping messages without reactions loses nothing from the total. */
  lemma {:induction false} TotalOverCleared(ms: seq<Message>)
    ensures ReactionTotal(WithReactions(ms)) == ReactionTotal(ms)
  {
    if ms != [] {
      var init, m := ms[..|ms| - 1], ms[|ms| - 1];
      TotalOverCleared(init);
      if |m.reactions| > 0 {
        var w := WithReactions(ms);
        assert w == WithReactions(init) + [m];
        assert w[..|w| - 1] == WithReactions(init) && w[|w| - 1] == m;
        assert ReactionTotal(w) == ReactionTotal(WithReactions(init)) + Sum(m.reactions);
        assert ReactionTotal(ms) == ReactionTotal(init) + Sum(m.reactions);
      } else {
        assert WithReactions(ms) == WithReactions(init) + [] == WithReactions(init);
        assert ReactionTotal(ms) == ReactionTotal(init) + Sum(m.reactions);
        assert m.reactions == [];
      }
    }
  }

  /** Exactly the messages with reactions are cleared. */
  lemma {:induction false} ClearedAreThoseWithReactions(ms: seq<Message>, m: Message)
    ensures m in WithReactions(ms) <==> m in ms && |m.reactions| > 0
  {
    if ms != [] {
      var init := ms[..|ms| - 1];
      ClearedAreThoseWithReactions(init, m);
      assert ms == init + [ms[|ms| - 1]];
    }
  }

  /** The loop of `_reactions`: add up the reaction counts of each message that
      has reactions and clear that message's reactions. */
  method TallyReactions(history: seq<Message>) returns (total: nat, cleared: seq<Message>)
    ensures total == ReactionTotal(history)
    ensures cleared == WithReactions(history)
  {
    total, cleared := 0, [];
    for i := 0 to |history|
      invariant total == ReactionTotal(history[..i])
      invariant cleared == WithReactions(history[..i])
    {
      var message := history[i];
      assert history[..i + 1][..i] == history[..i];
      if |message.reactions| > 0 {
        total := total + Sum(message.reactions);
        cleared := cleared + [message];
      }
    }
    assert history[..|history|] == history;
  }

  /** The reply after the loop: the total reads back from between its fixed
      opening and closing words. */
  function ReactionsReply(total: nat): (s: string)
    ensures 32 <= |s| && s[..21] == "Successfully removed " && s[|s| - 11..] == " reactions."
    ensures ReadsAs(s[21..|s| - 11], total)
  {
    CountBetween("Successfully removed ", total, " reactions.");
    "Successfully removed " + Decimal(total) + " reactions."
  }
}
