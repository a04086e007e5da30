/**
 * The ordinal-indexed tables of the binding. The host passes the ordinal of a
 * variant (its constructor index); the binding indexes a C array with it to
 * obtain the native constant.
 */
module Tables {
  import opened Wrappers
  import opened CTypes
  import opened Zmq

  /** Ordinal of the host's socket type variant: REQ, REP, XREQ, XREP, PUB, SUB, PUSH, PULL, PAIR. */
  type SocketOrdinal = t: int | 0 <= t < 9

  /** `socket_type[t]`. */
  function SocketType(t: SocketOrdinal): int
  {
    match t
    case 0 => ZMQ_REQ
    case 1 => ZMQ_REP
    case 2 => ZMQ_XREQ
    case 3 => ZMQ_XREP
    case 4 => ZMQ_PUB
    case 5 => ZMQ_SUB
    case 6 => ZMQ_PUSH
    case 7 => ZMQ_PULL
    case 8 => ZMQ_PAIR
  }

  /** The host ordinal of a native socket type, if it has one. */
  function SocketOrdinalOf(c: int): (t: Option<SocketOrdinal>)
    ensures t.Some? ==> SocketType(t.value) == c
  {
    if c == ZMQ_REQ then Some(0)
    else if c == ZMQ_REP then Some(1)
    else if c == ZMQ_XREQ then Some(2)
    else if c == ZMQ_XREP then Some(3)
    else if c == ZMQ_PUB then Some(4)
    else if c == ZMQ_SUB then Some(5)
    else if c == ZMQ_PUSH then Some(6)
    else if c == ZMQ_PULL then Some(7)
    else if c == ZMQ_PAIR then Some(8)
    else None
  }

  /**
   * The socket type table is a bijection between the nine host variants and
   * the nine native socket types: distinct variants create distinct kinds of
   * socket, and every native type is reachable.
   */
  lemma SocketTypeBijective(t: SocketOrdinal, c: int)
    ensures SocketOrdinalOf(SocketType(t)) == Some(t)
    ensures SocketOrdinalOf(c).Some? <==> 0 <= c < 9
  {
  }

  /** Ordinal of the host's send flag variant: NOBLOCK, SNDMORE. */
  type SendFlagOrdinal = k: int | 0 <= k < 2

  /** `send_flag[k]`. */
  function SendFlag(k: SendFlagOrdinal): (f: bv32)
    ensures f == ZMQ_NOBLOCK || f == ZMQ_SNDMORE
  {
    if k == 0 then ZMQ_NOBLOCK else ZMQ_SNDMORE
  }

  /** Ordinal of the host's socket option variant, in the order of `option_name`. */
  type OptionOrdinal = n: int | 0 <= n < 16

  const LINGER: OptionOrdinal := 0
  const RECONNECT_IVL: OptionOrdinal := 1
  const RECONNECT_IVL_MAX: OptionOrdinal := 2
  const BACKLOG: OptionOrdinal := 3
  const SWAP: OptionOrdinal := 4
  const RATE: OptionOrdinal := 5
  const RECOVERY_IVL: OptionOrdinal := 6
  const RECOVERY_IVL_MSEC: OptionOrdinal := 7
  const HWM: OptionOrdinal := 8
  const SNDBUF: OptionOrdinal := 9
  const RCVBUF: OptionOrdinal := 10
  const IDENTITY: OptionOrdinal := 11
  const SUBSCRIBE: OptionOrdinal := 12
  const UNSUBSCRIBE: OptionOrdinal := 13
  const MCAST_LOOP: OptionOrdinal := 14
  const AFFINITY: OptionOrdinal := 15

  /** `option_name[n]`. */
  function OptionName(n: OptionOrdinal): int
  {
    match n
    case 0 => ZMQ_LINGER
    case 1 => ZMQ_RECONNECT_IVL
    case 2 => ZMQ_RECONNECT_IVL_MAX
    case 3 => ZMQ_BACKLOG
    case 4 => ZMQ_SWAP
    case 5 => ZMQ_RATE
    case 6 => ZMQ_RECOVERY_IVL
    case 7 => ZMQ_RECOVERY_IVL_MSEC
    case 8 => ZMQ_HWM
    case 9 => ZMQ_SNDBUF
    case 10 => ZMQ_RCVBUF
    case 11 => ZMQ_IDENTITY
    case 12 => ZMQ_SUBSCRIBE
    case 13 => ZMQ_UNSUBSCRIBE
    case 14 => ZMQ_MCAST_LOOP
    case 15 => ZMQ_AFFINITY
  }

  /** The `size_t` value of `-1`, the width given for SUBSCRIBE and UNSUBSCRIBE. */
  const SIZE_MAX: nat := TWO_64 - 1

  /** Width of the identity buffer: 256 chars. */
  const IDENTITY_LEN: nat := 256

  /** `map_option_len[n]`: the size of the buffer getsockopt allocates. */
  function OptionLen(n: OptionOrdinal): nat
  {
    if n < 4 then SIZEOF_INT
    else if n < 11 then SIZEOF_INT64
    else if n == IDENTITY then IDENTITY_LEN
    else if n < 14 then SIZE_MAX
    else SIZEOF_INT64
  }

  /** How an option's value is carried between host and native layer. */
  datatype Kind =
    | CInt          // host int, native int (saturated on set)
    | CInt64        // host int64, native int64
    | CUint64       // host int64, native uint64
    | Identity      // host string option, native string; empty means none
    | Subscription  // host string, native string (set only)
    | Bitmask       // host array of 64 bools, native uint64

  /**
   * The kind of each option: the setsockopt `switch(name)` branch it belongs
   * to. getsockopt has the same cases except the Subscription one.
   */
  function KindOf(n: OptionOrdinal): Kind
  {
    if n < 4 then CInt
    else if n < 8 then CInt64
    else if n < 11 then CUint64
    else if n == IDENTITY then Identity
    else if n < 14 then Subscription
    else Bitmask
  }

  /**
   * The case labels of the `switch(name)` in setsockopt: the kind of the
   * branch a native option name selects, None for `default`.
   */
  function SetBranchOf(name: int): Option<Kind>
  {
    if name in {ZMQ_LINGER, ZMQ_RECONNECT_IVL, ZMQ_RECONNECT_IVL_MAX, ZMQ_BACKLOG} then Some(CInt)
    else if name in {ZMQ_SWAP, ZMQ_RATE, ZMQ_RECOVERY_IVL, ZMQ_RECOVERY_IVL_MSEC} then Some(CInt64)
    else if name in {ZMQ_HWM, ZMQ_SNDBUF, ZMQ_RCVBUF} then Some(CUint64)
    else if name == ZMQ_IDENTITY then Some(Identity)
    else if name in {ZMQ_SUBSCRIBE, ZMQ_UNSUBSCRIBE} then Some(Subscription)
    else if name in {ZMQ_MCAST_LOOP, ZMQ_AFFINITY} then Some(Bitmask)
    else None
  }

  /**
   * The case labels of the `switch(name)` in getsockopt: the same as in
   * setsockopt except that SUBSCRIBE and UNSUBSCRIBE have no case of their
   * own, so they fall to `default`.
   */
  function GetBranchOf(name: int): Option<Kind>
  {
    if name in {ZMQ_LINGER, ZMQ_RECONNECT_IVL, ZMQ_RECONNECT_IVL_MAX, ZMQ_BACKLOG} then Some(CInt)
    else if name in {ZMQ_SWAP, ZMQ_RATE, ZMQ_RECOVERY_IVL, ZMQ_RECOVERY_IVL_MSEC} then Some(CInt64)
    else if name in {ZMQ_HWM, ZMQ_SNDBUF, ZMQ_RCVBUF} then Some(CUint64)
    else if name == ZMQ_IDENTITY then Some(Identity)
    else if name in {ZMQ_MCAST_LOOP, ZMQ_AFFINITY} then Some(Bitmask)
    else None
  }

  /** The host ordinal of a native option name, if it has one. */
  function OptionOrdinalOf(name: int): (n: Option<OptionOrdinal>)
    ensures n.Some? ==> OptionName(n.value) == name
  {
    if name == ZMQ_LINGER then Some(LINGER)
    else if name == ZMQ_RECONNECT_IVL then Some(RECONNECT_IVL)
    else if name == ZMQ_RECONNECT_IVL_MAX then Some(RECONNECT_IVL_MAX)
    else if name == ZMQ_BACKLOG then Some(BACKLOG)
    else if name == ZMQ_SWAP then Some(SWAP)
    else if name == ZMQ_RATE then Some(RATE)
    else if name == ZMQ_RECOVERY_IVL then Some(RECOVERY_IVL)
    else if name == ZMQ_RECOVERY_IVL_MSEC then Some(RECOVERY_IVL_MSEC)
    else if name == ZMQ_HWM then Some(HWM)
    else if name == ZMQ_SNDBUF then Some(SNDBUF)
    else if name == ZMQ_RCVBUF then Some(RCVBUF)
    else if name == ZMQ_IDENTITY then Some(IDENTITY)
    else if name == ZMQ_SUBSCRIBE then Some(SUBSCRIBE)
    else if name == ZMQ_UNSUBSCRIBE then Some(UNSUBSCRIBE)
    else if name == ZMQ_MCAST_LOOP then Some(MCAST_LOOP)
    else if name == ZMQ_AFFINITY then Some(AFFINITY)
    else None
  }

  /**
   * `option_name` is injective, so switching on the native name identifies
   * the option. The setsockopt switch selects for every option the branch of
   * the kind `KindOf` gives it, so its `default` is reached by no option.
   * The getsockopt switch does the same for every option except SUBSCRIBE
   * and UNSUBSCRIBE, which are exactly the options reaching its `default`.
   */
  lemma OptionTableConsistent(n: OptionOrdinal)
    ensures OptionOrdinalOf(OptionName(n)) == Some(n)
    ensures SetBranchOf(OptionName(n)) == Some(KindOf(n))
    ensures GetBranchOf(OptionName(n)).None? <==> KindOf(n) == Subscription
    ensures GetBranchOf(OptionName(n)).Some? ==> GetBranchOf(OptionName(n)).value == KindOf(n)
  {
  }

  /**
   * The buffer width the table gives each option is the width of the native
   * type of its kind; SUBSCRIBE and UNSUBSCRIBE have the width `(size_t) -1`.
   */
  lemma OptionLenMatchesKind(n: OptionOrdinal)
    ensures KindOf(n) == CInt ==> OptionLen(n) == SIZEOF_INT
    ensures KindOf(n) in {CInt64, CUint64, Bitmask} ==> OptionLen(n) == SIZEOF_INT64
    ensures KindOf(n) == Identity ==> OptionLen(n) == IDENTITY_LEN
    ensures KindOf(n) == Subscription <==> OptionLen(n) == SIZE_MAX
  {
  }
}
