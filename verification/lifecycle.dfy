/**
 * Context and socket lifecycle: `wrap_init`, `wrap_socket`, `wrap_bind`,
 * `wrap_connect`, `wrap_close` and `wrap_term`. Each passes its arguments to
 * the native call (an oracle here) and either returns what it produced or
 * raises the exception its errno switch selects.
 */
module Lifecycle {
  import opened CTypes
  import opened Zmq
  import opened Tables
  import opened Errors

  /** A native context or socket pointer, handed to the host as an opaque value. */
  datatype Handle = Handle(address: nat)

  /**
   * `wrap_init`: the host int is passed to zmq_init's C int parameter, so it
   * is converted with `(int)`; a NULL context raises.
   */
  function Init(ioThreads: OInt, zmqInit: Int32 -> PtrReply<Handle>): (r: Outcome<Handle>)
    ensures r.Ok? <==> zmqInit(TruncateToInt(ioThreads)).ptr.Some?
    ensures r.Ok? ==> r.value == zmqInit(TruncateToInt(ioThreads)).ptr.value
    ensures r.Raised? ==> r.exn.name == Canonical(zmqInit(TruncateToInt(ioThreads)).errno, InitErrnos)
  {
    var reply := zmqInit(TruncateToInt(ioThreads));
    if reply.ptr.Some? then Ok(reply.ptr.value) else Raised(InitFailure(reply.errno))
  }

  /** A thread count within the C int range reaches zmq_init unchanged. */
  lemma InitPassesThreadCount(ioThreads: OInt, zmqInit: Int32 -> PtrReply<Handle>)
    requires INT_MIN <= ioThreads <= INT_MAX
    ensures Init(ioThreads, zmqInit).Ok? <==> zmqInit(ioThreads as Int32).ptr.Some?
  {
  }

  /**
   * Outside that range the conversion is lossy: host thread counts that
   * differ by 2^32 make the same zmq_init call.
   */
  lemma InitWrapsThreadCount(ioThreads: OInt, zmqInit: Int32 -> PtrReply<Handle>)
    requires ioThreads + TWO_32 < TWO_62
    ensures Init(ioThreads + TWO_32, zmqInit) == Init(ioThreads, zmqInit)
  {
    assert (ioThreads + TWO_32) % TWO_32 == ioThreads % TWO_32;
  }

  /** `wrap_socket`: the type ordinal goes through `socket_type`; a NULL socket raises. */
  function Socket(context: Handle, t: SocketOrdinal, zmqSocket: (Handle, int) -> PtrReply<Handle>): (r: Outcome<Handle>)
    ensures r.Ok? <==> zmqSocket(context, SocketType(t)).ptr.Some?
    ensures r.Ok? ==> r.value == zmqSocket(context, SocketType(t)).ptr.value
    ensures r.Raised? ==> r.exn.name == Canonical(zmqSocket(context, SocketType(t)).errno, SocketErrnos)
  {
    var reply := zmqSocket(context, SocketType(t));
    if reply.ptr.Some? then Ok(reply.ptr.value) else Raised(SocketFailure(reply.errno))
  }

  /** `wrap_bind`. */
  function Bind(socket: Handle, endpoint: seq<Byte>, zmqBind: (Handle, seq<Byte>) -> Rc): (r: Outcome<()>)
    ensures r.Ok? <==> zmqBind(socket, endpoint).code == 0
    ensures r.Raised? ==> r.exn.name == Canonical(zmqBind(socket, endpoint).errno, BindErrnos)
  {
    var rc := zmqBind(socket, endpoint);
    if rc.code == 0 then Ok(()) else Raised(BindFailure(rc.errno))
  }

  /** `wrap_connect`. */
  function Connect(socket: Handle, endpoint: seq<Byte>, zmqConnect: (Handle, seq<Byte>) -> Rc): (r: Outcome<()>)
    ensures r.Ok? <==> zmqConnect(socket, endpoint).code == 0
    ensures r.Raised? ==> r.exn.name == Canonical(zmqConnect(socket, endpoint).errno, ConnectErrnos)
  {
    var rc := zmqConnect(socket, endpoint);
    if rc.code == 0 then Ok(()) else Raised(ConnectFailure(rc.errno))
  }

  /** `wrap_close`. */
  function Close(socket: Handle, zmqClose: Handle -> Rc): (r: Outcome<()>)
    ensures r.Ok? <==> zmqClose(socket).code == 0
    ensures r.Raised? ==> r.exn.name == Canonical(zmqClose(socket).errno, CloseErrnos)
  {
    var rc := zmqClose(socket);
    if rc.code == 0 then Ok(()) else Raised(CloseFailure(rc.errno))
  }

  /** `wrap_term`. */
  function Term(context: Handle, zmqTerm: Handle -> Rc): (r: Outcome<()>)
    ensures r.Ok? <==> zmqTerm(context).code == 0
    ensures r.Raised? ==> r.exn.name == Canonical(zmqTerm(context).errno, TermErrnos)
  {
    var rc := zmqTerm(context);
    if rc.code == 0 then Ok(()) else Raised(TermFailure(rc.errno))
  }
}
