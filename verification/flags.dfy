/** Folding the host's flag lists into the native `int` flag word. */
module Flags {
  import opened Zmq
  import opened Tables

  /**
   * The flag word after ORing `send_flag` of each element, left to right:
   * the value the loop in `wrap_send` has accumulated after walking `flags`.
   */
  function SendFlags(flags: seq<SendFlagOrdinal>): bv32
  {
    if flags == [] then 0 else SendFlags(flags[..|flags| - 1]) | SendFlag(flags[|flags| - 1])
  }

  /** The word `wrap_send` hands to zmq_send: walks the host list, ORing each flag in. */
  method SendFlagWord(flags: seq<SendFlagOrdinal>) returns (word: bv32)
    ensures word == SendFlags(flags)
  {
    word := 0;
    var rest := flags;
    while rest != []
      invariant |rest| <= |flags| && rest == flags[|flags| - |rest|..]
      invariant word == SendFlags(flags[..|flags| - |rest|])
    {
      var head := rest[0];
      ghost var done := flags[..|flags| - |rest|];
      assert flags[..|flags| - |rest| + 1] == done + [head];
      word := word | SendFlag(head);
      rest := rest[1..];
    }
    assert flags[..|flags|] == flags;
  }

  /**
   * The send flag word is the union of the flags that occur in the list:
   * NOBLOCK is set iff ordinal 0 occurs, SNDMORE iff ordinal 1 occurs, and
   * nothing else is ever set; the empty list gives 0.
   */
  lemma {:induction false} SendFlagsUnion(flags: seq<SendFlagOrdinal>)
    ensures SendFlags(flags) == (if 0 in flags then ZMQ_NOBLOCK else 0) | (if 1 in flags then ZMQ_SNDMORE else 0)
  {
    if flags != [] {
      var init := flags[..|flags| - 1];
      SendFlagsUnion(init);
      assert flags == init + [flags[|flags| - 1]];
      assert forall k :: k in flags <==> k in init || k == flags[|flags| - 1];
    }
  }

  /** Order and repetitions in the host list do not affect the flag word. */
  lemma SendFlagsIgnoreOrder(a: seq<SendFlagOrdinal>, b: seq<SendFlagOrdinal>)
    requires forall k :: k in a <==> k in b
    ensures SendFlags(a) == SendFlags(b)
  {
    assert (0 in a) == (0 in b) && (1 in a) == (1 in b);
    SendFlagsUnion(a);
    SendFlagsUnion(b);
  }

  /**
   * The word `wrap_recv` hands to zmq_recv: NOBLOCK iff the list is nonempty
   * and its head has ordinal 1; the rest of the list is not looked at.
   */
  function RecvFlags(flags: seq<int>): (word: bv32)
    ensures word == ZMQ_NOBLOCK <==> |flags| > 0 && flags[0] == 1
    ensures word == 0 <==> !(|flags| > 0 && flags[0] == 1)
  {
    if flags != [] && flags[0] == 1 then ZMQ_NOBLOCK else 0
  }

  /** Only the head of the receive flag list matters. */
  lemma RecvFlagsHeadOnly(head: int, tail: seq<int>, other: seq<int>)
    ensures RecvFlags([head] + tail) == RecvFlags([head] + other)
  {
  }
}
