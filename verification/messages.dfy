/**
 * Message copy-in of `wrap_send` and copy-out of `wrap_recv`. The native
 * message calls are oracles: each is a function from its arguments to the
 * rc/errno pair it answers with.
 */
module Messages {
  import opened CTypes
  import opened Zmq
  import opened Tables
  import opened Flags
  import opened Errors

  /** What zmq_recv answers: its rc, the errno, and the bytes of the received message. */
  datatype RecvReply = RecvReply(rc: int, errno: int, data: seq<Byte>)

  /**
   * `wrap_send`: folds the flag list into the flag word, sizes a native
   * message to the string, copies the string into it and sends it.
   * zmq_msg_init_size and zmq_send are the oracles `msgInitSize` and
   * `zmqSend`; the latter sees the message bytes and the flag word.
   */
  method Send(message: seq<Byte>, flags: seq<SendFlagOrdinal>,
              msgInitSize: nat -> Rc, zmqSend: (seq<Byte>, bv32) -> Rc)
    returns (r: Outcome<()>)
    ensures msgInitSize(|message|).code != 0 ==> r == Raised(MsgInitSizeFailure(msgInitSize(|message|).errno))
    ensures msgInitSize(|message|).code == 0 ==>
      var rc := zmqSend(message, SendFlags(flags));
      r == if rc.code == 0 then Ok(()) else Raised(SendFailure(rc.errno))
    ensures r.Ok? <==> msgInitSize(|message|).code == 0 && zmqSend(message, SendFlags(flags)).code == 0
  {
    var word := SendFlagWord(flags);
    var init := msgInitSize(|message|);
    if init.code != 0 {
      return Raised(MsgInitSizeFailure(init.errno));
    }
    var data := new Byte[|message|];
    forall i | 0 <= i < |message| {
      data[i] := message[i];
    }
    assert data[..] == message;
    var rc := zmqSend(data[..], word);
    if rc.code == 0 {
      r := Ok(());
    } else {
      r := Raised(SendFailure(rc.errno));
    }
  }

  /**
   * `wrap_recv`: computes the flag word from the head of the list, receives
   * into a fresh native message and, on success, copies its bytes out into a
   * new host string before closing the message. zmq_msg_init, zmq_recv and
   * zmq_msg_close are the oracles `msgInit`, `zmqRecv` and `msgClose`.
   */
  method Recv(flags: seq<int>, msgInit: Rc, zmqRecv: bv32 -> RecvReply, msgClose: Rc)
    returns (r: Outcome<seq<Byte>>)
    ensures msgInit.code != 0 ==> r == Raised(MsgInitFailure)
    ensures msgInit.code == 0 && zmqRecv(RecvFlags(flags)).rc != 0 ==>
      r == Raised(RecvFailure(zmqRecv(RecvFlags(flags)).errno))
    ensures msgInit.code == 0 && zmqRecv(RecvFlags(flags)).rc == 0 && msgClose.code != 0 ==>
      r == Raised(MsgCloseFailure)
    ensures r.Ok? <==> msgInit.code == 0 && zmqRecv(RecvFlags(flags)).rc == 0 && msgClose.code == 0
    ensures r.Ok? ==> r.value == zmqRecv(RecvFlags(flags)).data
  {
    var word := RecvFlags(flags);
    if msgInit.code != 0 {
      return Raised(MsgInitFailure);
    }
    var reply := zmqRecv(word);
    if reply.rc != 0 {
      return Raised(RecvFailure(reply.errno));
    }
    var size := |reply.data|;
    var copy := new Byte[size];
    forall i | 0 <= i < size {
      copy[i] := reply.data[i];
    }
    if msgClose.code != 0 {
      return Raised(MsgCloseFailure);
    }
    assert copy[..] == reply.data;
    r := Ok(copy[..]);
  }
}
