/** The sender's and the receiver's loops. */
module LocIpc {
  import opened LocIpcFraming

  /** The datagrams handed to the socket for one message; every send succeeds. */
  method Send(data: string) returns (sent: seq<string>)
    ensures sent == Frames(data)
  {
    if |data| <= BUF_LEN {
      return [data];
    }
    sent := [Header(|data|)];
    var sentBytes := 0;
    while sentBytes < |data|
      invariant sentBytes <= |data|
      invariant sent + Pieces(data[sentBytes..]) == Frames(data)
    {
      var partLen := |data| - sentBytes;
      if partLen > BUF_LEN {
        partLen := BUF_LEN;
      }
      ghost var left := data[sentBytes..];
      assert left[partLen..] == data[sentBytes + partLen..] && left[..partLen] == data[sentBytes..sentBytes + partLen];
      if |left| <= BUF_LEN {
        assert left[..partLen] == left && left[partLen..] == "";
      }
      assert Pieces(left) == [left[..partLen]] + Pieces(left[partLen..]);
      sent := sent + [data[sentBytes..sentBytes + partLen]];
      sentBytes := sentBytes + partLen;
    }
  }

  /** Puts a datagram at the beginning of the buffer and returns how much of it fitted. */
  method RecvFrom(buf: array<char>, d: string) returns (nBytes: nat)
    requires buf.Length == BUF_LEN
    modifies buf
    ensures nBytes == |Clipped(d)| && buf[..] == Overlaid(old(buf[..]), Clipped(d))
  {
    nBytes := if |d| > BUF_LEN then BUF_LEN else |d|;
    for i := 0 to nBytes
      invariant forall k :: 0 <= k < BUF_LEN ==> buf[k] == if k < i then d[k] else old(buf[k])
    {
      buf[i] := d[i];
    }
  }

  /** Collects datagrams until msgLen bytes are there or nothing more can be read. */
  method CollectLong(buf: array<char>, datagrams: seq<string>, from: nat, msgLen: nat, ghost received: seq<string>)
    returns (msg: string, next: nat)
    requires buf.Length == BUF_LEN && from <= |datagrams|
    modifies buf
    ensures from <= next <= |datagrams| && (|msg| < msgLen ==> next == |datagrams|)
    ensures ReceiveAll(Settle(Receiver(old(buf[..]), Collecting(msgLen, ""), received)), datagrams[from..]) ==
      ReceiveAll(Settle(Receiver(buf[..], Collecting(msgLen, msg), received)), datagrams[next..])
  {
    msg, next := "", from;
    while |msg| < msgLen && next < |datagrams|
      invariant from <= next <= |datagrams|
      invariant ReceiveAll(Settle(Receiver(buf[..], Collecting(msgLen, msg), received)), datagrams[next..]) ==
        ReceiveAll(Settle(Receiver(old(buf[..]), Collecting(msgLen, ""), received)), datagrams[from..])
      decreases |datagrams| - next
    {
      assert datagrams[next..][1..] == datagrams[next + 1..];
      var nBytes := RecvFrom(buf, datagrams[next]);
      assert buf[..nBytes] == Clipped(datagrams[next]);
      msg := msg + buf[..nBytes];
      next := next + 1;
    }
  }

  /** Reads datagrams until there are no more and returns the messages handed on. */
  method StartListeningBlocking(datagrams: seq<string>) returns (received: seq<string>)
    ensures received == ReceiveAll(Receiver(EMPTY_BUFFER, Idle, []), datagrams).received
  {
    var buf := new char[BUF_LEN](_ => '\0');
    received := [];
    var next := 0;
    ghost var end := ReceiveAll(Receiver(EMPTY_BUFFER, Idle, []), datagrams);
    assert buf[..] == EMPTY_BUFFER;
    while next < |datagrams|
      invariant next <= |datagrams| && fresh(buf)
      invariant ReceiveAll(Receiver(buf[..], Idle, received), datagrams[next..]) == end
    {
      ghost var before := buf[..];
      var nBytes := RecvFrom(buf, datagrams[next]);
      assert datagrams[next..][1..] == datagrams[next + 1..];
      assert buf[..nBytes] == Clipped(datagrams[next]);
      next := next + 1;
      if nBytes == 0 {
        assert buf[..] == before;
      } else if buf[..|HEAD|] != HEAD {
        assert buf[..][..|HEAD|] == buf[..|HEAD|];
        received := received + [buf[..nBytes]];
      } else {
        assert buf[..][..|HEAD|] == buf[..|HEAD|];
        var msgLen := ScannedSize(buf[..][|HEAD|..]);
        var msg;
        msg, next := CollectLong(buf, datagrams, next, msgLen, received);
        if |msg| < msgLen {
          return;
        }
        received := received + [msg];
      }
    }
  }
}
