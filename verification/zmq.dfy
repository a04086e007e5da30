/**
 * The native constants the binding passes to and receives from the 0MQ 2.x
 * library: socket types, send/receive flags, socket option names and errno
 * codes. The values are those of zmq.h in the 2.x series and of Linux's
 * errno.h; the binding's switches only rely on their being distinct.
 */
module Zmq {
  import opened Wrappers

  // Socket types.
  const ZMQ_PAIR: int := 0
  const ZMQ_PUB: int := 1
  const ZMQ_SUB: int := 2
  const ZMQ_REQ: int := 3
  const ZMQ_REP: int := 4
  const ZMQ_XREQ: int := 5
  const ZMQ_XREP: int := 6
  const ZMQ_PULL: int := 7
  const ZMQ_PUSH: int := 8

  // Send and receive flags.
  const ZMQ_NOBLOCK: bv32 := 1
  const ZMQ_SNDMORE: bv32 := 2

  // Socket option names.
  const ZMQ_HWM: int := 1
  const ZMQ_SWAP: int := 3
  const ZMQ_AFFINITY: int := 4
  const ZMQ_IDENTITY: int := 5
  const ZMQ_SUBSCRIBE: int := 6
  const ZMQ_UNSUBSCRIBE: int := 7
  const ZMQ_RATE: int := 8
  const ZMQ_RECOVERY_IVL: int := 9
  const ZMQ_MCAST_LOOP: int := 10
  const ZMQ_SNDBUF: int := 11
  const ZMQ_RCVBUF: int := 12
  const ZMQ_LINGER: int := 17
  const ZMQ_RECONNECT_IVL: int := 18
  const ZMQ_BACKLOG: int := 19
  const ZMQ_RECOVERY_IVL_MSEC: int := 20
  const ZMQ_RECONNECT_IVL_MAX: int := 21

  // errno codes (Linux).
  const EINTR: int := 4
  const EAGAIN: int := 11
  const ENOMEM: int := 12
  const EFAULT: int := 14
  const ENODEV: int := 19
  const EINVAL: int := 22
  const EPROTONOSUPPORT: int := 93
  const ENOTSUP: int := 95
  const EADDRINUSE: int := 98
  const EADDRNOTAVAIL: int := 99

  // errno codes native to 0MQ.
  const ZMQ_HAUSNUMERO: int := 156384712
  const EFSM: int := ZMQ_HAUSNUMERO + 51
  const ENOCOMPATPROTO: int := ZMQ_HAUSNUMERO + 52
  const ETERM: int := ZMQ_HAUSNUMERO + 53
  const EMTHREAD: int := ZMQ_HAUSNUMERO + 54

  /** What a native call that returns an `int` status leaves behind: the status and `zmq_errno()` read right after it. */
  datatype Rc = Rc(code: int, errno: int)

  /** What a native call that returns a pointer leaves behind: the pointer (None for NULL) and `zmq_errno()`. */
  datatype PtrReply<H> = PtrReply(ptr: Option<H>, errno: int)
}
