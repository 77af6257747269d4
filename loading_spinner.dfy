/** The loading spinner: an index into the current language's loading
    messages, advanced by a timer every 2.5 seconds. */
module LoadingSpinner {
  import opened Wrappers

  const TickMillis: nat := 2500

  /** The index state: a whole number, or NaN once `% 0` has produced one. */
  datatype MessageIndex = At(k: nat) | NotANumber

  /** `(prevIndex + 1) % loadingMessages.length`: with no messages the
      remainder is NaN, and NaN stays NaN. */
  function Next(i: MessageIndex, count: nat): (r: MessageIndex)
    ensures r.At? <==> i.At? && count > 0
    ensures r.At? ==> r.k < count
  {
    match i
    case NotANumber => NotANumber
    case At(k) => if count == 0 then NotANumber else At((k + 1) % count)
  }

  /** The index after `n` ticks. */
  function After(i: MessageIndex, count: nat, n: nat): MessageIndex
  {
    if n == 0 then i else Next(After(i, count, n - 1), count)
  }

  /** The closed form within one round: `n` ticks (at most `count`) from
      index `k` land on `k + n`, wrapped once past the end. */
  lemma {:induction false} AfterTicks(k: nat, count: nat, n: nat)
    requires k < count && n <= count
    ensures After(At(k), count, n) == At(if k + n < count then k + n else k + n - count)
  {
    if n > 0 {
      AfterTicks(k, count, n - 1);
      var m := if k + n - 1 < count then k + n - 1 else k + n - 1 - count;
      NextStep(m, count);
    }
  }

  /** One tick from index `m`: the next index, or 0 past the end. */
  lemma NextStep(m: nat, count: nat)
    requires m < count
    ensures Next(At(m), count) == At(if m + 1 < count then m + 1 else 0)
  {
    if m + 1 == count {
      WrapsToZero(count);
    } else {
      StaysBelow(m + 1, count);
    }
  }

  lemma WrapsToZero(count: nat)
    requires count > 0
    ensures count % count == 0
  {
  }

  lemma StaysBelow(x: nat, count: nat)
    requires x < count
    ensures x % count == x
  {
  }

  /** Starting from any message, the spinner shows every message in turn
      and is back where it started after `count` ticks. */
  lemma Cycles(count: nat, k: nat, j: nat)
    requires k < count && j < count
    ensures After(At(0), count, j) == At(j)
    ensures After(At(k), count, count) == At(k)
  {
    AfterTicks(0, count, j);
    AfterTicks(k, count, count);
  }

  /** With no messages the index becomes NaN on the first tick and stays
      NaN. */
  lemma EmptyStaysNaN(i: MessageIndex, n: nat)
    requires n > 0
    ensures After(i, 0, n) == NotANumber
  {
  }

  /** `loadingMessages[messageIndex]`: `undefined` (None) for NaN or an
      index outside the list. */
  function MessageAt(messages: seq<string>, i: MessageIndex): (r: Option<string>)
    ensures r.Some? <==> i.At? && i.k < |messages|
    ensures r.Some? ==> r.value == messages[i.k]
  {
    if i.At? && i.k < |messages| then Some(messages[i.k]) else None
  }

  class Spinner {
    var messages: seq<string>
    var index: MessageIndex

    /** Mounting: the index starts at 0. */
    constructor(messages: seq<string>)
      ensures this.messages == messages && index == At(0)
    {
      this.messages := messages;
      index := At(0);
    }

    /** The interval callback. */
    method Tick()
      modifies this
      ensures index == Next(old(index), |messages|) && messages == old(messages)
    {
      index := Next(index, |messages|);
    }

    /** A language change swaps the message list; the effect restarts its
        timer but the index is kept. */
    method ChangeMessages(newMessages: seq<string>)
      modifies this
      ensures messages == newMessages && index == old(index)
    {
      messages := newMessages;
    }

    /** The text under the spinner. */
    function Shown(): Option<string>
      reads this
    {
      MessageAt(messages, index)
    }
  }

  /** A language change keeps the index, so against a shorter list it may
      point past the end; the next tick wraps it back into the new list. */
  method SwitchThenTick(s: Spinner, newMessages: seq<string>) returns (shown: Option<string>)
    requires s.index.At? && |newMessages| > 0
    modifies s
    ensures s.messages == newMessages && s.index == At((old(s.index.k) + 1) % |newMessages|)
    ensures shown == Some(newMessages[(old(s.index.k) + 1) % |newMessages|])
  {
    s.ChangeMessages(newMessages);
    s.Tick();
    shown := s.Shown();
  }
}
