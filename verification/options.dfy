/**
 * The socket option codec of `wrap_getsockopt` and `wrap_setsockopt`: how a
 * host value is laid out in the buffer handed to zmq_setsockopt, and how the
 * buffer filled by zmq_getsockopt is read back into a host value. The native
 * calls are oracles; an idealised option store stands for the socket when
 * stating set-then-get round trips.
 */
module Options {
  import opened Wrappers
  import opened CTypes
  import opened Zmq
  import opened Tables
  import opened Bitmask
  import opened Errors

  /** A host option value, one variant per representation the host uses. */
  datatype HostValue =
    | IntVal(i: OInt)                       // int
    | Int64Val(x: Int64)                    // int64
    | IdentityVal(id: Option<seq<Byte>>)     // string option
    | StringVal(s: seq<Byte>)                // string
    | BoolsVal(bits: seq<bool>)             // bool array

  /**
   * The host value has the representation the option's kind expects; the
   * bool array of a bitmask has the 64 fields the encoder reads.
   */
  predicate Fits(k: Kind, v: HostValue)
  {
    match k
    case CInt => v.IntVal?
    case CInt64 => v.Int64Val?
    case CUint64 => v.Int64Val?
    case Identity => v.IdentityVal?
    case Subscription => v.StringVal?
    case Bitmask => v.BoolsVal? && |v.bits| == 64
  }

  /** The arguments of a zmq_setsockopt call: name, value pointer (None for NULL), length. */
  datatype SetRequest = SetRequest(name: int, data: Option<seq<Byte>>, len: nat)

  /** What zmq_getsockopt returns: its rc, the errno, and the contents of the buffer. */
  datatype GetReply = GetReply(rc: int, errno: int, buffer: seq<Byte>)

  /**
   * The int branch of setsockopt: a host int above INT_MAX is written as
   * INT_MAX; any other value goes through the C `(int)` conversion, which keeps
   * an int in range and wraps one below INT_MIN modulo 2^32.
   */
  function Saturate(v: OInt): (r: Int32)
    ensures r <= INT_MAX
    ensures v > INT_MAX ==> r == INT_MAX
    ensures INT_MIN <= v <= INT_MAX ==> r == v
    ensures v < INT_MIN ==> (v - r) % TWO_32 == 0
  {
    if v > INT_MAX then INT_MAX else TruncateToInt(v)
  }

  /** The setsockopt arguments the encoder produces for option n and value v. */
  function SetRequestOf(n: OptionOrdinal, v: HostValue): (r: SetRequest)
    requires Fits(KindOf(n), v)
  {
    var name := OptionName(n);
    match KindOf(n)
    case CInt => SetRequest(name, Some(IntBytes(Saturate(v.i))), SIZEOF_INT)
    case CInt64 => SetRequest(name, Some(Int64Bytes(v.x)), SIZEOF_INT64)
    case CUint64 => SetRequest(name, Some(Uint64Bytes(Int64Bits(v.x))), SIZEOF_INT64)
    case Identity => SetRequest(name, v.id, SIZEOF_POINTER)
    case Subscription => SetRequest(name, Some(v.s), SIZEOF_POINTER)
    case Bitmask =>
      Pow2Widths();
      SetRequest(name, Some(Uint64Bytes(MaskOf(v.bits))), SIZEOF_INT64)
  }

  /**
   * Every option is written under its own native name; the fixed-width kinds
   * pass a buffer exactly as long as the length they give, and the string
   * kinds give the width of a pointer whatever the string's length.
   */
  lemma SetRequestShape(n: OptionOrdinal, v: HostValue)
    requires Fits(KindOf(n), v)
    ensures SetRequestOf(n, v).name == OptionName(n)
    ensures KindOf(n) !in {Identity, Subscription} ==>
      SetRequestOf(n, v).data.Some? && |SetRequestOf(n, v).data.value| == SetRequestOf(n, v).len == OptionLen(n)
    ensures KindOf(n) in {Identity, Subscription} ==> SetRequestOf(n, v).len == SIZEOF_POINTER
    ensures SetRequestOf(n, v).data.None? <==> v == IdentityVal(None)
  {
  }

  /** The outcome of setsockopt once zmq_setsockopt has answered `rc`. */
  function SetSpec(rc: Rc): (r: Outcome<()>)
    ensures r.Ok? <==> rc.code == 0
    ensures r.Raised? ==> r.exn.name == Canonical(rc.errno, SetsockoptErrnos)
  {
    if rc.code == 0 then Ok(()) else Raised(SetsockoptFailure(rc.errno))
  }

  /**
   * `wrap_setsockopt`: switches on the native name, encodes the value and
   * calls zmq_setsockopt. No option reaches the `default`.
   */
  method Setsockopt(n: OptionOrdinal, v: HostValue, zmqSet: SetRequest -> Rc) returns (r: Outcome<()>)
    requires Fits(KindOf(n), v)
    ensures r == SetSpec(zmqSet(SetRequestOf(n, v)))
  {
    var name := OptionName(n);
    OptionTableConsistent(n);
    var request: SetRequest;
    var kind := SetBranchOf(name);
    assert kind.Some?;  // the `default` is reached by no option
    match kind.value {
      case CInt =>
        var intVal := Saturate(v.i);
        request := SetRequest(name, Some(IntBytes(intVal)), SIZEOF_INT);
      case CInt64 =>
        request := SetRequest(name, Some(Int64Bytes(v.x)), SIZEOF_INT64);
      case CUint64 =>
        var val := Int64Bits(v.x);
        request := SetRequest(name, Some(Uint64Bytes(val)), SIZEOF_INT64);
      case Identity =>
        if v.id.None? {
          request := SetRequest(name, None, SIZEOF_POINTER);
        } else {
          request := SetRequest(name, Some(v.id.value), SIZEOF_POINTER);
        }
      case Subscription =>
        request := SetRequest(name, Some(v.s), SIZEOF_POINTER);
      case Bitmask =>
        var val := EncodeMask(v.bits);
        request := SetRequest(name, Some(Uint64Bytes(val)), SIZEOF_INT64);
    }
    var rc := zmqSet(request);
    r := if rc.code == 0 then Ok(()) else Raised(SetsockoptFailure(rc.errno));
  }

  /** The C string at the start of a buffer: the bytes before the first NUL, or all of them. */
  function CString(buf: seq<Byte>): (s: seq<Byte>)
    ensures |s| <= |buf| && s == buf[..|s|]
    ensures forall i :: 0 <= i < |s| ==> s[i] != 0
    ensures |s| < |buf| ==> buf[|s|] == 0
  {
    if buf == [] || buf[0] == 0 then [] else [buf[0]] + CString(buf[1..])
  }

  /**
   * The IDENTITY branch of getsockopt: `strcmp(str, "")` is non-zero when the
   * first byte is not NUL, and then the C string is copied into `Some`.
   */
  function DecodeIdentity(buf: seq<Byte>): (r: Option<seq<Byte>>)
    ensures r.None? <==> CString(buf) == []
    ensures r.Some? ==> r.value == CString(buf) && r.value != []
  {
    if |buf| > 0 && buf[0] != 0 then Some(CString(buf)) else None
  }

  /** zmq_getsockopt wrote into the buffer of the width the table gives, when it succeeded. */
  predicate ReplyFits(n: OptionOrdinal, reply: GetReply)
  {
    reply.rc == 0 && KindOf(n) != Subscription ==> |reply.buffer| == OptionLen(n)
  }

  /** The outcome of getsockopt once zmq_getsockopt has answered `reply`. */
  function GetSpec(n: OptionOrdinal, reply: GetReply): (r: Outcome<HostValue>)
    requires ReplyFits(n, reply)
    ensures reply.rc != 0 ==> r == Raised(GetsockoptFailure(reply.errno))
    ensures reply.rc == 0 ==> (r.Ok? <==> KindOf(n) != Subscription)
    ensures reply.rc == 0 && KindOf(n) == Subscription ==> r == Raised(Unexpected)
    ensures r.Ok? ==> Fits(KindOf(n), r.value)
  {
    if reply.rc != 0 then Raised(GetsockoptFailure(reply.errno))
    else
      match KindOf(n)
      case CInt => Ok(IntVal(IntAt(reply.buffer)))
      case CInt64 => Ok(Int64Val(Int64At(reply.buffer)))
      case CUint64 => Ok(Int64Val(Int64OfBits(Uint64At(reply.buffer))))
      case Identity => Ok(IdentityVal(DecodeIdentity(reply.buffer)))
      case Subscription => Raised(Unexpected)
      case Bitmask => Ok(BoolsVal(BitsOf(Uint64At(reply.buffer))))
  }

  /**
   * A successful get of MCAST_LOOP or AFFINITY yields exactly 64 booleans,
   * the i-th true iff bit i of the native uint64 is set; a get of IDENTITY
   * yields None iff the native string is empty.
   */
  lemma GetDecodes(n: OptionOrdinal, reply: GetReply)
    requires ReplyFits(n, reply) && reply.rc == 0
    ensures KindOf(n) == Bitmask ==>
      var bits := GetSpec(n, reply).value.bits;
      |bits| == 64 && forall i :: 0 <= i < 64 ==> bits[i] == Bit(Uint64At(reply.buffer), i)
    ensures KindOf(n) == Identity ==>
      (GetSpec(n, reply) == Ok(IdentityVal(None)) <==> reply.buffer[0] == 0)
  {
  }

  /**
   * `wrap_getsockopt`: asks zmq_getsockopt for the option into a buffer of
   * the table's width, then switches on the native name to decode it.
   */
  method Getsockopt(n: OptionOrdinal, zmqGet: (int, nat) -> GetReply) returns (r: Outcome<HostValue>)
    requires ReplyFits(n, zmqGet(OptionName(n), OptionLen(n)))
    ensures r == GetSpec(n, zmqGet(OptionName(n), OptionLen(n)))
  {
    var name := OptionName(n);
    var reply := zmqGet(name, OptionLen(n));
    if reply.rc != 0 {
      return Raised(GetsockoptFailure(reply.errno));
    }
    OptionTableConsistent(n);
    match GetBranchOf(name)
    case Some(CInt) =>
      r := Ok(IntVal(IntAt(reply.buffer)));
    case Some(CInt64) =>
      r := Ok(Int64Val(Int64At(reply.buffer)));
    case Some(CUint64) =>
      var val := Uint64At(reply.buffer);
      r := Ok(Int64Val(Int64OfBits(val)));
    case Some(Identity) =>
      r := Ok(IdentityVal(DecodeIdentity(reply.buffer)));
    case Some(Bitmask) =>
      var fields := DecodeMask(Uint64At(reply.buffer));
      r := Ok(BoolsVal(fields[..]));
    case _ =>  // `default`: SUBSCRIBE and UNSUBSCRIBE
      r := Raised(Unexpected);
  }

  /** An idealised socket option store: the bytes last set under each native name. */
  type Store = map<int, seq<Byte>>

  /** zmq_setsockopt on the store: keeps the `len` bytes it is given. */
  function StoreSet(store: Store, req: SetRequest): (s: Store)
    ensures req.data.Some? && req.len <= |req.data.value| ==> s == store[req.name := req.data.value[..req.len]]
  {
    if req.data.Some? && req.len <= |req.data.value| then store[req.name := req.data.value[..req.len]] else store
  }

  /** zmq_getsockopt on the store: hands back the stored bytes if they fill the buffer. */
  function StoreGet(store: Store, name: int, len: nat): (reply: GetReply)
    ensures reply.rc == 0 ==> name in store && reply.buffer == store[name] && |reply.buffer| == len
  {
    if name in store && |store[name]| == len then GetReply(0, 0, store[name]) else GetReply(-1, Zmq.EINVAL, [])
  }

  /** Get after set on the store, for a fixed-width option. */
  function SetThenGet(store: Store, n: OptionOrdinal, v: HostValue): Outcome<HostValue>
    requires Fits(KindOf(n), v)
  {
    var reply := StoreGet(StoreSet(store, SetRequestOf(n, v)), OptionName(n), OptionLen(n));
    if ReplyFits(n, reply) then GetSpec(n, reply) else Raised(Unexpected)
  }

  /**
   * Set-then-get on an int option yields the saturated value: the host int
   * itself iff it lies in the C int range, and INT_MAX for anything larger.
   */
  lemma {:induction false} SetThenGetInt(store: Store, n: OptionOrdinal, v: OInt)
    requires KindOf(n) == CInt
    ensures SetThenGet(store, n, IntVal(v)) == Ok(IntVal(Saturate(v)))
    ensures SetThenGet(store, n, IntVal(v)) == Ok(IntVal(v)) <==> INT_MIN <= v <= INT_MAX
    ensures v > INT_MAX ==> SetThenGet(store, n, IntVal(v)) == Ok(IntVal(INT_MAX))
  {
    var req := SetRequestOf(n, IntVal(v));
    assert req.data.value[..req.len] == IntBytes(Saturate(v));
    IntRoundTrip(Saturate(v));
  }

  /**
   * Set-then-get on an int64 option gives back the int64, both where the
   * native type is int64 and where it is uint64 (the reinterpretation is a
   * bijection).
   */
  lemma {:induction false} SetThenGetInt64(store: Store, n: OptionOrdinal, x: Int64)
    requires KindOf(n) in {CInt64, CUint64}
    ensures SetThenGet(store, n, Int64Val(x)) == Ok(Int64Val(x))
  {
    var req := SetRequestOf(n, Int64Val(x));
    assert req.data.value[..req.len] == req.data.value;
    if KindOf(n) == CInt64 {
      Int64RoundTrip(x);
    } else {
      Uint64RoundTrip(Int64Bits(x));
      Int64BitsInverse(x);
    }
  }

  /** Set-then-get on MCAST_LOOP or AFFINITY gives back the 64 booleans bit for bit. */
  lemma {:induction false} SetThenGetBitmask(store: Store, n: OptionOrdinal, bits: seq<bool>)
    requires KindOf(n) == Bitmask && |bits| == 64
    ensures SetThenGet(store, n, BoolsVal(bits)) == Ok(BoolsVal(bits))
  {
    var req := SetRequestOf(n, BoolsVal(bits));
    assert req.data.value[..req.len] == req.data.value;
    Pow2Widths();
    Uint64RoundTrip(MaskOf(bits));
    DecodeEncode(bits);
  }
}
