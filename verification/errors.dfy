/**
 * Error translation. Every wrapper reads `zmq_errno()` right after a failed
 * native call and raises one of the OCaml exceptions registered under an errno
 * name, with a fixed message chosen by a `switch` whose `default` raises "ERR".
 * Each switch is a total function here; its contract relates the exception
 * name to the canonical name of the errno and the codes that call site lists.
 */
module Errors {
  import Zmq

  /** The names under which the host registers the exceptions the wrappers raise. */
  datatype ExnName =
    | EINVAL | EFAULT | ETERM | EPROTONOSUPPORT | ENOCOMPATPROTO | EADDRINUSE | EADDRNOTAVAIL
    | ENODEV | EMTHREAD | EINTR | ENOMEM | EAGAIN | ENOTSUP | EFSM | ERR

  /** An exception raised through `caml_named_value(name)`, with its message. */
  datatype Exn = Exn(name: ExnName, message: string)

  /** The result of a wrapper: a host value, or an exception. */
  datatype Outcome<T> = Ok(value: T) | Raised(exn: Exn)

  /** The symbolic name of an errno code; "ERR" for a code with no registered exception. */
  function ErrnoName(errno: int): ExnName
  {
    if errno == Zmq.EINTR then EINTR
    else if errno == Zmq.EAGAIN then EAGAIN
    else if errno == Zmq.ENOMEM then ENOMEM
    else if errno == Zmq.EFAULT then EFAULT
    else if errno == Zmq.ENODEV then ENODEV
    else if errno == Zmq.EINVAL then EINVAL
    else if errno == Zmq.EPROTONOSUPPORT then EPROTONOSUPPORT
    else if errno == Zmq.ENOTSUP then ENOTSUP
    else if errno == Zmq.EADDRINUSE then EADDRINUSE
    else if errno == Zmq.EADDRNOTAVAIL then EADDRNOTAVAIL
    else if errno == Zmq.EFSM then EFSM
    else if errno == Zmq.ENOCOMPATPROTO then ENOCOMPATPROTO
    else if errno == Zmq.ETERM then ETERM
    else if errno == Zmq.EMTHREAD then EMTHREAD
    else ERR
  }

  /** The exception name a switch listing the codes `known` gives to `errno` when it names each listed code after itself. */
  function Canonical(errno: int, known: set<int>): ExnName
  {
    if errno in known then ErrnoName(errno) else ERR
  }

  // The fixed messages.
  const INIT_EINVAL := "An invalid number of io threads was requested."
  const INIT_ERR := "Error in wrap_init."
  const SOCKET_EINVAL := "The requested socket type is invalid."
  const CONTEXT_NOT_VALID := "The provided context was not valid."
  const SOCKET_ETERM := "The context specified was terminated."
  const SOCKET_ERR := "Error in wrap_socket."
  const PROTOCOL_NOT_SUPPORTED := "The requested transport protocol is not supported."
  const PROTOCOL_NOT_COMPATIBLE := "The requested transport protocol is not compatible with the socket type."
  const BIND_EADDRINUSE := "The requested address is already in use."
  const BIND_EADDRNOTAVAIL := "The requested address was not local."
  const BIND_ENODEV := "The requested address specifies a nonexistent interface."
  const CONTEXT_TERMINATED := "The 0MQ context associated with the specified socket was terminated."
  const SOCKET_NOT_VALID := "The provided socket was not valid."
  const NO_IO_THREAD := "No I/O thread is available to accomplish the task."
  const BIND_ERR := "Unknown error in wrap_bind."
  const CONNECT_ERR := "Error in wrap_zmq_connect."
  const CLOSE_ERR := "Unknown error in wrap_close"
  const TERM_EINTR := "Termination was interrupted by a signal.  It can be restarted if needed."
  const TERM_ERR := "Unknown error in wrap_term"
  const MSG_INIT_SIZE_ENOMEM := "Insufficient storage space is available."
  const MSG_INIT_SIZE_ERR := "Unknown error in wrap_send during zmq_msg_init_size."
  const SEND_EAGAIN := "Non-blocking mode was requested and the message cannot be sent at the moment."
  const SEND_ENOTSUP := "The zmq_send() operation is not supported by this socket type."
  const SEND_EFSM := "The zmq_send() operation cannot be performed on this socket at the moment due to the socket not being in the appropriate state."
  const SEND_EINTR := "The operation was interrupted by delivery of a signal before the message was sent."
  const SEND_DEFAULT := "Error in wrap_zmq_send."
  const RECV_EAGAIN := "Non-blocking mode was requested and no messages are available at the moment."
  const RECV_ENOTSUP := "The zmq_recv() operation is not supported by this socket type."
  const RECV_EFSM := "The zmq_recv() operation cannot be performed on this socket at the moment due to the socket not being in the appropriate state."
  const RECV_EINTR := "The operation was interrupted by delivery of a signal before a message was available."
  const RECV_ERR := "Unknown error in wrap_recv at zmq_recv."
  const GETSOCKOPT_EINVAL := "The requested option option_name is unknown, or the requested option_len or option_value is invalid, or the size of the buffer pointed to by option_value, as specified by option_len, is insufficient for storing the option value."
  const GETSOCKOPT_ETERM := "The provided socket was not valid (NULL)."
  const INTERRUPTED := "The operation was interrupted by delivery of a signal."
  const GETSOCKOPT_ERR := "Unknown error in wrap_getsockopt."
  const SETSOCKOPT_EINVAL := "The requested option is unknown, or the requested option_len or option_value is invalid."
  const SETSOCKOPT_ERR := "Unknown error in wrap_setsockopt."

  // The codes each call site lists in its switch.
  const InitErrnos: set<int> := {Zmq.EINVAL}
  const SocketErrnos: set<int> := {Zmq.EINVAL, Zmq.EFAULT, Zmq.ETERM}
  const BindErrnos: set<int> := {Zmq.EPROTONOSUPPORT, Zmq.ENOCOMPATPROTO, Zmq.EADDRINUSE, Zmq.EADDRNOTAVAIL, Zmq.ENODEV, Zmq.ETERM, Zmq.EFAULT, Zmq.EMTHREAD}
  const ConnectErrnos: set<int> := {Zmq.EPROTONOSUPPORT, Zmq.ENOCOMPATPROTO, Zmq.ETERM, Zmq.EFAULT, Zmq.EMTHREAD}
  const CloseErrnos: set<int> := {Zmq.EFAULT}
  const TermErrnos: set<int> := {Zmq.EFAULT, Zmq.EINTR}
  const MsgInitSizeErrnos: set<int> := {Zmq.ENOMEM}
  const SendErrnos: set<int> := {Zmq.EAGAIN, Zmq.ENOTSUP, Zmq.EFSM, Zmq.ETERM, Zmq.EFAULT, Zmq.EINTR}
  const RecvErrnos: set<int> := {Zmq.EAGAIN, Zmq.ENOTSUP, Zmq.EFSM, Zmq.ETERM, Zmq.EFAULT, Zmq.EINTR}
  const GetsockoptErrnos: set<int> := {Zmq.EINVAL, Zmq.ETERM, Zmq.EFAULT, Zmq.EINTR}
  const SetsockoptErrnos: set<int> := {Zmq.EINVAL, Zmq.ETERM, Zmq.EFAULT, Zmq.EINTR}

  /** `wrap_init`: zmq_init returned NULL. */
  function InitFailure(errno: int): (x: Exn)
    ensures x.name == Canonical(errno, InitErrnos)
  {
    if errno == Zmq.EINVAL then Exn(EINVAL, INIT_EINVAL)
    else Exn(ERR, INIT_ERR)
  }

  /** `wrap_socket`: zmq_socket returned NULL. */
  function SocketFailure(errno: int): (x: Exn)
    ensures x.name == Canonical(errno, SocketErrnos)
  {
    if errno == Zmq.EINVAL then Exn(EINVAL, SOCKET_EINVAL)
    else if errno == Zmq.EFAULT then Exn(EFAULT, CONTEXT_NOT_VALID)
    else if errno == Zmq.ETERM then Exn(ETERM, SOCKET_ETERM)
    else Exn(ERR, SOCKET_ERR)
  }

  /** `wrap_bind`: zmq_bind returned nonzero. */
  function BindFailure(errno: int): (x: Exn)
    ensures x.name == Canonical(errno, BindErrnos)
  {
    if errno == Zmq.EPROTONOSUPPORT then Exn(EPROTONOSUPPORT, PROTOCOL_NOT_SUPPORTED)
    else if errno == Zmq.ENOCOMPATPROTO then Exn(ENOCOMPATPROTO, PROTOCOL_NOT_COMPATIBLE)
    else if errno == Zmq.EADDRINUSE then Exn(EADDRINUSE, BIND_EADDRINUSE)
    else if errno == Zmq.EADDRNOTAVAIL then Exn(EADDRNOTAVAIL, BIND_EADDRNOTAVAIL)
    else if errno == Zmq.ENODEV then Exn(ENODEV, BIND_ENODEV)
    else if errno == Zmq.ETERM then Exn(ETERM, CONTEXT_TERMINATED)
    else if errno == Zmq.EFAULT then Exn(EFAULT, SOCKET_NOT_VALID)
    else if errno == Zmq.EMTHREAD then Exn(EMTHREAD, NO_IO_THREAD)
    else Exn(ERR, BIND_ERR)
  }

  /** `wrap_connect`: zmq_connect returned nonzero. */
  function ConnectFailure(errno: int): (x: Exn)
    ensures x.name == Canonical(errno, ConnectErrnos)
  {
    if errno == Zmq.EPROTONOSUPPORT then Exn(EPROTONOSUPPORT, PROTOCOL_NOT_SUPPORTED)
    else if errno == Zmq.ENOCOMPATPROTO then Exn(ENOCOMPATPROTO, PROTOCOL_NOT_COMPATIBLE)
    else if errno == Zmq.ETERM then Exn(ETERM, CONTEXT_TERMINATED)
    else if errno == Zmq.EFAULT then Exn(EFAULT, SOCKET_NOT_VALID)
    else if errno == Zmq.EMTHREAD then Exn(EMTHREAD, NO_IO_THREAD)
    else Exn(ERR, CONNECT_ERR)
  }

  /** `wrap_close`: zmq_close returned nonzero. */
  function CloseFailure(errno: int): (x: Exn)
    ensures x.name == Canonical(errno, CloseErrnos)
  {
    if errno == Zmq.EFAULT then Exn(EFAULT, SOCKET_NOT_VALID)
    else Exn(ERR, CLOSE_ERR)
  }

  /** `wrap_term`: zmq_term returned nonzero. */
  function TermFailure(errno: int): (x: Exn)
    ensures x.name == Canonical(errno, TermErrnos)
  {
    if errno == Zmq.EFAULT then Exn(EFAULT, CONTEXT_NOT_VALID)
    else if errno == Zmq.EINTR then Exn(EINTR, TERM_EINTR)
    else Exn(ERR, TERM_ERR)
  }

  /** `wrap_send`: zmq_msg_init_size returned nonzero. */
  function MsgInitSizeFailure(errno: int): (x: Exn)
    ensures x.name == Canonical(errno, MsgInitSizeErrnos)
  {
    if errno == Zmq.ENOMEM then Exn(ENOMEM, MSG_INIT_SIZE_ENOMEM)
    else Exn(ERR, MSG_INIT_SIZE_ERR)
  }

  /**
   * `wrap_send`: zmq_send returned nonzero. Unlike every other switch, the
   * default raises "EINTR", not "ERR".
   */
  function SendFailure(errno: int): (x: Exn)
    ensures x.name == if errno in SendErrnos then ErrnoName(errno) else EINTR
  {
    if errno == Zmq.EAGAIN then Exn(EAGAIN, SEND_EAGAIN)
    else if errno == Zmq.ENOTSUP then Exn(ENOTSUP, SEND_ENOTSUP)
    else if errno == Zmq.EFSM then Exn(EFSM, SEND_EFSM)
    else if errno == Zmq.ETERM then Exn(ETERM, CONTEXT_TERMINATED)
    else if errno == Zmq.EFAULT then Exn(EFAULT, SOCKET_NOT_VALID)
    else if errno == Zmq.EINTR then Exn(EINTR, SEND_EINTR)
    else Exn(EINTR, SEND_DEFAULT)
  }

  /** `wrap_recv`: zmq_msg_init returned nonzero (no switch on errno). */
  const MsgInitFailure: Exn := Exn(ERR, "Unknown error in wrap_recv at zmq_msg_init.")

  /** The `default` of the option switches: get on SUBSCRIBE or UNSUBSCRIBE. */
  const Unexpected: Exn := Exn(ERR, "This should not be happening.")

  /** `wrap_recv`: zmq_msg_close returned nonzero after a successful receive (no switch on errno). */
  const MsgCloseFailure: Exn := Exn(ERR, "Unknown error in wrap_recv at zmq_msg_close.")

  /** `wrap_recv`: zmq_recv returned nonzero. */
  function RecvFailure(errno: int): (x: Exn)
    ensures x.name == Canonical(errno, RecvErrnos)
  {
    if errno == Zmq.EAGAIN then Exn(EAGAIN, RECV_EAGAIN)
    else if errno == Zmq.ENOTSUP then Exn(ENOTSUP, RECV_ENOTSUP)
    else if errno == Zmq.EFSM then Exn(EFSM, RECV_EFSM)
    else if errno == Zmq.ETERM then Exn(ETERM, CONTEXT_TERMINATED)
    else if errno == Zmq.EFAULT then Exn(EFAULT, SOCKET_NOT_VALID)
    else if errno == Zmq.EINTR then Exn(EINTR, RECV_EINTR)
    else Exn(ERR, RECV_ERR)
  }

  /**
   * `wrap_getsockopt`: zmq_getsockopt returned nonzero. EFAULT is listed but
   * raises "ETERM", not "EFAULT".
   */
  function GetsockoptFailure(errno: int): (x: Exn)
    ensures x.name == if errno == Zmq.EFAULT then ETERM else Canonical(errno, GetsockoptErrnos)
    ensures x.name in {EINVAL, ETERM, EINTR, ERR}
  {
    if errno == Zmq.EINVAL then Exn(EINVAL, GETSOCKOPT_EINVAL)
    else if errno == Zmq.ETERM then Exn(ETERM, CONTEXT_TERMINATED)
    else if errno == Zmq.EFAULT then Exn(ETERM, GETSOCKOPT_ETERM)
    else if errno == Zmq.EINTR then Exn(EINTR, INTERRUPTED)
    else Exn(ERR, GETSOCKOPT_ERR)
  }

  /** `wrap_setsockopt`: zmq_setsockopt returned nonzero. */
  function SetsockoptFailure(errno: int): (x: Exn)
    ensures x.name == Canonical(errno, SetsockoptErrnos)
  {
    if errno == Zmq.EINVAL then Exn(EINVAL, SETSOCKOPT_EINVAL)
    else if errno == Zmq.ETERM then Exn(ETERM, CONTEXT_TERMINATED)
    else if errno == Zmq.EFAULT then Exn(EFAULT, SOCKET_NOT_VALID)
    else if errno == Zmq.EINTR then Exn(EINTR, INTERRUPTED)
    else Exn(ERR, SETSOCKOPT_ERR)
  }

  /**
   * A getsockopt failure is reported as "ETERM" exactly for a terminated
   * context and for an invalid socket; the two are told apart only by message.
   */
  lemma GetsockoptTermAmbiguous(errno: int)
    ensures GetsockoptFailure(errno).name == ETERM <==> errno == Zmq.ETERM || errno == Zmq.EFAULT
    ensures GetsockoptFailure(Zmq.ETERM) != GetsockoptFailure(Zmq.EFAULT)
  {
  }

  /**
   * A send failure with an unlisted code is reported under the same name as
   * a genuine interruption, and only its message differs.
   */
  lemma SendDefaultLooksInterrupted(errno: int)
    requires errno !in SendErrnos
    ensures SendFailure(errno).name == SendFailure(Zmq.EINTR).name == EINTR
    ensures SendFailure(errno).message != SendFailure(Zmq.EINTR).message
  {
  }

  /** Every code connect lists is reported exactly as bind reports it. */
  lemma ConnectAgreesWithBind(errno: int)
    requires errno in ConnectErrnos
    ensures ConnectFailure(errno) == BindFailure(errno)
  {
  }
}
