/** How a message travels over the datagram socket: short ones as they are, long ones cut
    into pieces after a header that announces the length in decimal. The receiver reuses
    one buffer, and bytes an earlier datagram left there can be misread. */
module LocIpcFraming {

  const BUF_LEN: nat := 1024
  const HEAD: string := "$MSGLEN$"
  /** One more than the largest length the receiver can represent. */
  const SIZE_LIMIT: nat := 0x1_0000_0000_0000_0000

  // ----- decimal numbers

  predicate IsDigit(c: char) { '0' <= c <= '9' }

  function Digit(c: char): nat
    requires IsDigit(c)
  {
    c as nat - '0' as nat
  }

  function Decimal(n: nat): string {
    var last := [('0' as nat + n % 10) as char];
    if n < 10 then last else Decimal(n / 10) + last
  }

  /** The number written by the digits s begins with; 0 if there are none. */
  function LeadingNumber(s: string, sofar: nat): nat {
    if s == "" || !IsDigit(s[0]) then sofar else LeadingNumber(s[1..], 10 * sofar + Digit(s[0]))
  }

  predicate IsSpace(c: char) { c == ' ' || '\t' <= c <= '\r' }

  function SkipSpaces(s: string): string {
    if s != "" && IsSpace(s[0]) then SkipSpaces(s[1..]) else s
  }

  /** What scanning an unsigned size yields: white space and a sign may precede the digits,
      too large numbers are cut to the largest one, whatever their sign, and other negative
      ones wrap. */
  function ScannedSize(s: string): nat {
    var t := SkipSpaces(s);
    var signed := t != "" && (t[0] == '+' || t[0] == '-');
    var n := LeadingNumber(if signed then t[1..] else t, 0);
    if n >= SIZE_LIMIT then SIZE_LIMIT - 1
    else if signed && t[0] == '-' then (SIZE_LIMIT - n) % SIZE_LIMIT else n
  }

  // ----- the sender

  function Pieces(data: string): seq<string> {
    if data == "" then []
    else if |data| <= BUF_LEN then [data]
    else [data[..BUF_LEN]] + Pieces(data[BUF_LEN..])
  }

  function Header(n: nat): string { HEAD + Decimal(n) }

  function Frames(data: string): seq<string> {
    if |data| <= BUF_LEN then [data] else [Header(|data|)] + Pieces(data)
  }

  function Joined(parts: seq<string>): string { if parts == [] then "" else parts[0] + Joined(parts[1..]) }

  /** A short message travels as it is. A long one travels as a header, which is the mark and
      the length in decimal, and pieces that make it up again: each but the last fills the
      buffer, and the last is not empty. */
  lemma FramesMakeUpTheMessage(data: string)
    ensures |data| <= BUF_LEN ==> Frames(data) == [data]
    ensures |data| > BUF_LEN ==>
      Frames(data) != [] && Frames(data)[0] == HEAD + Decimal(|data|) && MakesUp(Frames(data)[1..], data)
  {
    PiecesMakeUp(data);
  }

  ghost predicate MakesUp(parts: seq<string>, data: string) {
    && Joined(parts) == data
    && (forall i :: 0 <= i < |parts| ==> 0 < |parts[i]| <= BUF_LEN)
    && (forall i :: 0 <= i < |parts| - 1 ==> |parts[i]| == BUF_LEN)
  }

  lemma {:induction false} PiecesMakeUp(data: string)
    ensures MakesUp(Pieces(data), data)
    decreases |data|
  {
    if |data| > BUF_LEN {
      PiecesMakeUp(data[BUF_LEN..]);
      assert Pieces(data)[1..] == Pieces(data[BUF_LEN..]);
      assert Pieces(data[BUF_LEN..]) != [];
    } else if data != "" {
      assert Pieces(data)[1..] == [];
    }
  }

  // ----- the receiver

  datatype Mode = Idle | Collecting(need: nat, msg: string)

  datatype Receiver = Receiver(buf: string, mode: Mode, received: seq<string>)

  /** The part of a datagram that fits the buffer. */
  function Clipped(d: string): string { if |d| > BUF_LEN then d[..BUF_LEN] else d }

  function Overlaid(buf: string, d: string): string
    requires |d| <= |buf|
  {
    d + buf[|d|..]
  }

  /** Deliver what was collected once it is long enough. */
  function Settle(r: Receiver): Receiver {
    if r.mode.Collecting? && |r.mode.msg| >= r.mode.need
    then Receiver(r.buf, Idle, r.received + [r.mode.msg]) else r
  }

  /** One datagram arrives. */
  function Receive(r: Receiver, d: string): Receiver
    requires |r.buf| == BUF_LEN
  {
    var got := Clipped(d);
    var buf := Overlaid(r.buf, got);
    match r.mode
    case Collecting(need, msg) => Settle(Receiver(buf, Collecting(need, msg + got), r.received))
    case Idle =>
      if got == "" then r
      else if buf[..|HEAD|] != HEAD then Receiver(buf, Idle, r.received + [got])
      else Settle(Receiver(buf, Collecting(ScannedSize(buf[|HEAD|..]), ""), r.received))
  }

  function ReceiveAll(r: Receiver, ds: seq<string>): (n: Receiver)
    requires |r.buf| == BUF_LEN
    ensures |n.buf| == BUF_LEN
    decreases |ds|
  {
    if ds == [] then r else ReceiveAll(Receive(r, ds[0]), ds[1..])
  }

  lemma {:induction false} ReceiveAllConcat(r: Receiver, a: seq<string>, b: seq<string>)
    requires |r.buf| == BUF_LEN
    ensures ReceiveAll(r, a + b) == ReceiveAll(ReceiveAll(r, a), b)
    decreases |a|
  {
    if a == [] {
      assert a + b == b;
    } else {
      assert (a + b)[0] == a[0] && (a + b)[1..] == a[1..] + b;
      var n := Receive(r, a[0]);
      assert ReceiveAll(r, a + b) == ReceiveAll(n, a[1..] + b) && ReceiveAll(r, a) == ReceiveAll(n, a[1..]);
      ReceiveAllConcat(n, a[1..], b);
    }
  }

  // ----- printing and scanning

  function Pow10(n: nat): nat { if n == 0 then 1 else 10 * Pow10(n - 1) }

  lemma {:induction false} DecimalDigits(n: nat)
    ensures |Decimal(n)| >= 1 && forall i :: 0 <= i < |Decimal(n)| ==> IsDigit(Decimal(n)[i])
    ensures forall k: nat :: k >= 1 && n < Pow10(k) ==> |Decimal(n)| <= k
    decreases n
  {
    if n >= 10 {
      DecimalDigits(n / 10);
      forall k: nat | k >= 1 && n < Pow10(k) ensures |Decimal(n)| <= k {
        assert Pow10(1) == 10 * Pow10(0) && k > 1;
        assert Pow10(k) == 10 * Pow10(k - 1);
      }
    }
  }

  lemma {:induction false} LeadingNumberGrows(s: string, sofar: nat)
    ensures LeadingNumber(s, sofar) >= sofar
    ensures s != "" && IsDigit(s[0]) ==> LeadingNumber(s, sofar) >= 10 * sofar
    decreases |s|
  {
    if s != "" && IsDigit(s[0]) {
      LeadingNumberGrows(s[1..], 10 * sofar + Digit(s[0]));
    }
  }

  /** Scanning what was printed continues with what follows it. */
  lemma {:induction false} ScanPrinted(n: nat, rest: string)
    ensures LeadingNumber(Decimal(n) + rest, 0) == LeadingNumber(rest, n)
    decreases n
  {
    var last := [('0' as nat + n % 10) as char];
    if n < 10 {
      assert (last + rest)[1..] == rest;
    } else {
      ScanPrinted(n / 10, last + rest);
      assert Decimal(n) + rest == Decimal(n / 10) + (last + rest);
      assert (last + rest)[1..] == rest;
    }
  }

  /** The length in a header is read back exactly if no digit follows it in the buffer; a
      stale digit makes the receiver expect more than was announced. */
  lemma ScanHeader(n: nat, rest: string)
    requires 0 < n < SIZE_LIMIT - 1
    ensures rest == "" || !IsDigit(rest[0]) ==> ScannedSize(Decimal(n) + rest) == n
    ensures rest != "" && IsDigit(rest[0]) ==> ScannedSize(Decimal(n) + rest) > n
  {
    DecimalDigits(n);
    ScanPrinted(n, rest);
    LeadingNumberGrows(rest, n);
    var s := Decimal(n) + rest;
    assert s[0] == Decimal(n)[0];
    assert SkipSpaces(s) == s;
  }

  lemma {:induction false} SpacesAreSkipped(spaces: string, t: string)
    requires forall i :: 0 <= i < |spaces| ==> IsSpace(spaces[i])
    requires t == "" || !IsSpace(t[0])
    ensures SkipSpaces(spaces + t) == t
    decreases |spaces|
  {
    if spaces == "" {
      assert spaces + t == t;
    } else {
      SpacesAreSkipped(spaces[1..], t);
      assert (spaces + t)[1..] == spaces[1..] + t;
    }
  }

  predicate StartsPlainly(s: string) { s == "" || !(IsSpace(s[0]) || s[0] == '+' || s[0] == '-') }

  function Signed(sign: string, n: nat): nat {
    if n >= SIZE_LIMIT then SIZE_LIMIT - 1 else if sign == "-" && n > 0 then SIZE_LIMIT - n else n
  }

  lemma ScanSigned(spaces: string, sign: string, s: string)
    requires forall i :: 0 <= i < |spaces| ==> IsSpace(spaces[i])
    requires (sign == "" || sign == "+" || sign == "-") && StartsPlainly(s)
    ensures ScannedSize(spaces + (sign + s)) == Signed(sign, LeadingNumber(s, 0))
  {
    SpacesAreSkipped(spaces, sign + s);
    if sign == "" {
      assert sign + s == s;
    } else {
      assert (sign + s)[1..] == s;
    }
  }

  /** What may follow the mark: white space and a sign are passed over, a minus wraps, what is
      too large counts as the largest length, and without digits it is 0. */
  lemma ScanAnything(spaces: string, sign: string, n: nat, rest: string)
    requires forall i :: 0 <= i < |spaces| ==> IsSpace(spaces[i])
    requires (sign == "" || sign == "+" || sign == "-") && (rest == "" || !IsDigit(rest[0]))
    ensures ScannedSize(spaces + (sign + (Decimal(n) + rest))) == Signed(sign, n)
    ensures StartsPlainly(rest) ==> ScannedSize(spaces + (sign + rest)) == 0
  {
    DecimalDigits(n);
    ScanPrinted(n, rest);
    assert (Decimal(n) + rest)[0] == Decimal(n)[0];
    ScanSigned(spaces, sign, Decimal(n) + rest);
    if StartsPlainly(rest) {
      ScanSigned(spaces, sign, rest);
    }
  }

  // ----- one message

  predicate Delivers(buf: string, data: string)
    requires |buf| == BUF_LEN
  {
    var r := ReceiveAll(Receiver(buf, Idle, []), Frames(data));
    r.mode == Idle && r.received == [data]
  }

  lemma ReceiveOne(r: Receiver, d: string)
    requires |r.buf| == BUF_LEN
    ensures ReceiveAll(r, [d]) == Receive(r, d)
  {
    assert [d][1..] == [];
  }

  /** A short message arrives as it is exactly if it is not empty and the buffer, once the
      message lies over it, does not begin with the long-message mark. */
  lemma ShortMessageArrives(buf: string, data: string)
    requires |buf| == BUF_LEN && |data| <= BUF_LEN
    ensures Delivers(buf, data) <==> data != "" && Overlaid(buf, data)[..|HEAD|] != HEAD
  {
    ReceiveOne(Receiver(buf, Idle, []), data);
  }

  /** Whatever an earlier datagram left behind, a short message arrives exactly if it is
      not empty and neither begins with the mark nor is the beginning of it. */
  lemma ShortMessageArrivesAlways(data: string)
    requires |data| <= BUF_LEN
    ensures (forall buf | |buf| == BUF_LEN :: Delivers(buf, data)) <==> !(data <= HEAD) && !(HEAD <= data)
  {
    if data <= HEAD || HEAD <= data {
      var buf := HEAD + seq(BUF_LEN - |HEAD|, _ => ' ');
      ShortMessageArrives(buf, data);
      var o := Overlaid(buf, data);
      assert forall i :: 0 <= i < |HEAD| ==> o[i] == HEAD[i];
      assert o[..|HEAD|] == HEAD;
      assert !Delivers(buf, data);
    } else {
      forall buf | |buf| == BUF_LEN ensures Delivers(buf, data) {
        ShortMessageArrives(buf, data);
        MarkComesFromData(buf, data);
      }
    }
  }

  lemma MarkComesFromData(buf: string, data: string)
    requires |data| <= |buf| == BUF_LEN
    ensures Overlaid(buf, data)[..|HEAD|] == HEAD ==> data <= HEAD || HEAD <= data
  {
  }

  lemma {:induction false} PiecesAreCollected(r: Receiver, data: string)
    requires |r.buf| == BUF_LEN && r.mode.Collecting?
    requires |r.mode.msg| < r.mode.need && |r.mode.msg| + |data| <= r.mode.need
    ensures var n := ReceiveAll(r, Pieces(data));
      if |r.mode.msg| + |data| == r.mode.need
      then n.mode == Idle && n.received == r.received + [r.mode.msg + data]
      else n.mode == Collecting(r.mode.need, r.mode.msg + data) && n.received == r.received
    decreases |data|
  {
    if data == "" {
      assert r.mode.msg + data == r.mode.msg;
    } else if |data| <= BUF_LEN {
      ReceiveOne(r, data);
    } else {
      var first, rest := data[..BUF_LEN], data[BUF_LEN..];
      assert Pieces(data)[0] == first && Pieces(data)[1..] == Pieces(rest);
      assert (r.mode.msg + first) + rest == r.mode.msg + data by { assert first + rest == data; }
      PiecesAreCollected(Receiver(first, Collecting(r.mode.need, r.mode.msg + first), r.received), rest);
      assert Receive(r, first).buf == first;
    }
  }

  lemma HeaderIsShort(n: nat)
    requires n < SIZE_LIMIT
    ensures |Header(n)| <= |HEAD| + 20 < BUF_LEN
  {
    DecimalDigits(n);
    assert Pow10(20) == 100_000_000_000_000_000_000 by {
      assert Pow10(4) == 10_000 by { assert Pow10(2) == 100; }
      assert Pow10(8) == 100_000_000 by { assert Pow10(6) == 1_000_000; }
      assert Pow10(12) == 1_000_000_000_000 by { assert Pow10(10) == 10_000_000_000; }
      assert Pow10(16) == 10_000_000_000_000_000 by { assert Pow10(14) == 100_000_000_000_000; }
      assert Pow10(18) == 1_000_000_000_000_000_000;
    }
  }

  /** The byte of the buffer that follows a header for data. */
  function AfterHeader(buf: string, n: nat): char
    requires |buf| == BUF_LEN && n < SIZE_LIMIT
  {
    HeaderIsShort(n);
    buf[|Header(n)|]
  }

  lemma HeaderIsRead(buf: string, n: nat)
    requires |buf| == BUF_LEN && 0 < n < SIZE_LIMIT - 1
    ensures var r := Receive(Receiver(buf, Idle, []), Header(n));
      && r.mode.Collecting? && r.mode.msg == "" && r.received == []
      && (if IsDigit(AfterHeader(buf, n)) then r.mode.need > n else r.mode.need == n)
  {
    HeaderIsShort(n);
    DecimalDigits(n);
    var o := Overlaid(buf, Header(n));
    var rest := buf[|Header(n)|..];
    assert o[..|HEAD|] == HEAD;
    assert o[|HEAD|..] == Decimal(n) + rest;
    assert rest[0] == AfterHeader(buf, n);
    ScanHeader(n, rest);
  }

  /** A long message is put together again exactly if the byte an earlier datagram left
      behind the header is not a digit. Otherwise the receiver keeps collecting. */
  lemma LongMessageArrives(buf: string, data: string)
    requires |buf| == BUF_LEN < |data| < SIZE_LIMIT - 1
    ensures Delivers(buf, data) <==> !IsDigit(AfterHeader(buf, |data|))
    ensures IsDigit(AfterHeader(buf, |data|)) ==>
      var n := ReceiveAll(Receiver(buf, Idle, []), Frames(data)); n.mode.Collecting? && n.received == []
  {
    var r := Receiver(buf, Idle, []);
    var h := Receive(r, Header(|data|));
    HeaderIsRead(buf, |data|);
    assert Frames(data)[0] == Header(|data|) && Frames(data)[1..] == Pieces(data);
    PiecesAreCollected(h, data);
    assert h.mode.msg + data == data && h.received + [data] == [data];
  }

  // ----- many messages from one sender

  /** The receivers differ only in what the first received before. */
  predicate DifferBy(n: Receiver, m: Receiver, before: seq<string>) {
    n.buf == m.buf && n.mode == m.mode && n.received == before + m.received
  }

  lemma ReceiveIgnoresReceived(n: Receiver, m: Receiver, before: seq<string>, d: string)
    requires |n.buf| == BUF_LEN && DifferBy(n, m, before)
    ensures DifferBy(Receive(n, d), Receive(m, d), before)
  {
    assert forall x :: (before + m.received) + [x] == before + (m.received + [x]);
  }

  lemma {:induction false} ReceiveAllIgnoresReceived(n: Receiver, m: Receiver, before: seq<string>, ds: seq<string>)
    requires |n.buf| == BUF_LEN && DifferBy(n, m, before)
    ensures DifferBy(ReceiveAll(n, ds), ReceiveAll(m, ds), before)
    decreases |ds|
  {
    if ds != [] {
      ReceiveIgnoresReceived(n, m, before, ds[0]);
      ReceiveAllIgnoresReceived(Receive(n, ds[0]), Receive(m, ds[0]), before, ds[1..]);
    }
  }

  function FramesOfAll(msgs: seq<string>): seq<string> {
    if msgs == [] then [] else FramesOfAll(msgs[..|msgs| - 1]) + Frames(msgs[|msgs| - 1])
  }

  /** The messages are handed on complete and in order, and the receiver is idle again. */
  predicate Arrived(r: Receiver, msgs: seq<string>)
    requires |r.buf| == BUF_LEN
  {
    var n := ReceiveAll(r, FramesOfAll(msgs));
    n.mode == Idle && n.received == r.received + msgs
  }

  /** So it is after each of them. */
  predicate AlwaysArrived(r: Receiver, msgs: seq<string>)
    requires |r.buf| == BUF_LEN
    decreases |msgs|
  {
    Arrived(r, msgs) && (msgs == [] || AlwaysArrived(r, msgs[..|msgs| - 1]))
  }

  /** Delivery does not depend on what was received before. */
  lemma DeliversNext(n: Receiver, m: string)
    requires |n.buf| == BUF_LEN && n.mode == Idle
    ensures var after := ReceiveAll(n, Frames(m));
      after.mode == Idle && after.received == n.received + [m] <==> Delivers(n.buf, m)
  {
    ReceiveAllIgnoresReceived(n, Receiver(n.buf, Idle, []), n.received, Frames(m));
    var got := ReceiveAll(Receiver(n.buf, Idle, []), Frames(m)).received;
    if n.received + got == n.received + [m] {
      SamePrefix(n.received, got, [m]);
    }
  }

  lemma NextArrives(r: Receiver, msgs: seq<string>)
    requires |r.buf| == BUF_LEN && msgs != [] && Arrived(r, msgs[..|msgs| - 1])
    ensures Arrived(r, msgs) <==> Delivers(ReceiveAll(r, FramesOfAll(msgs[..|msgs| - 1])).buf, msgs[|msgs| - 1])
  {
    var front, m := msgs[..|msgs| - 1], msgs[|msgs| - 1];
    ReceiveAllConcat(r, FramesOfAll(front), Frames(m));
    DeliversNext(ReceiveAll(r, FramesOfAll(front)), m);
    LastOne(r.received, msgs);
  }

  lemma LastOne(a: seq<string>, msgs: seq<string>)
    requires msgs != []
    ensures a + msgs == (a + msgs[..|msgs| - 1]) + [msgs[|msgs| - 1]]
  {
  }

  lemma SamePrefix(a: seq<string>, b: seq<string>, c: seq<string>)
    requires a + b == a + c
    ensures b == c
  {
    assert b == (a + b)[|a|..] && c == (a + c)[|a|..];
  }

  // ----- a condition on the messages alone

  /** The byte at position p of the latest datagram that reached so far; if there was none,
      that of the buffer before. */
  function LatestByte(buf: string, ds: seq<string>, p: nat): char
    requires p < |buf|
  {
    if ds == [] then buf[p]
    else
      var last := Clipped(ds[|ds| - 1]);
      if p < |last| then last[p] else LatestByte(buf, ds[..|ds| - 1], p)
  }

  lemma {:induction false} BufferHoldsLatest(r: Receiver, ds: seq<string>, p: nat)
    requires |r.buf| == BUF_LEN && p < BUF_LEN
    ensures ReceiveAll(r, ds).buf[p] == LatestByte(r.buf, ds, p)
    decreases |ds|
  {
    if ds != [] {
      var front, last := ds[..|ds| - 1], ds[|ds| - 1];
      BufferHoldsLatest(r, front, p);
      assert ds == front + [last];
      ReceiveAllConcat(r, front, [last]);
      ReceiveOne(ReceiveAll(r, front), last);
    }
  }

  /** After the datagrams ds a message is neither misread nor swallowed: a short one has a
      byte and, continued with what was left behind, not the mark; a long one has no digit
      left behind its header. */
  predicate CleanAfter(buf: string, ds: seq<string>, m: string)
    requires |buf| == BUF_LEN && |m| < SIZE_LIMIT
  {
    if |m| <= BUF_LEN then
      m != "" && exists i :: 0 <= i < |HEAD| && (if i < |m| then m[i] else LatestByte(buf, ds, i)) != HEAD[i]
    else
      HeaderIsShort(|m|);
      !IsDigit(LatestByte(buf, ds, |Header(|m|)|))
  }

  lemma CleanIsDelivered(r: Receiver, ds: seq<string>, m: string)
    requires |r.buf| == BUF_LEN && |m| < SIZE_LIMIT - 1
    ensures Delivers(ReceiveAll(r, ds).buf, m) <==> CleanAfter(r.buf, ds, m)
  {
    var buf := ReceiveAll(r, ds).buf;
    if |m| <= BUF_LEN {
      ShortMessageArrives(buf, m);
      forall i | 0 <= i < |HEAD| { BufferHoldsLatest(r, ds, i); }
      MarkByByte(Overlaid(buf, m));
      assert forall i :: 0 <= i < |HEAD| ==> Overlaid(buf, m)[i] == if i < |m| then m[i] else LatestByte(r.buf, ds, i);
    } else {
      HeaderIsShort(|m|);
      LongMessageArrives(buf, m);
      BufferHoldsLatest(r, ds, |Header(|m|)|);
    }
  }

  lemma MarkByByte(s: string)
    requires |s| >= |HEAD|
    ensures s[..|HEAD|] == HEAD <==> forall i :: 0 <= i < |HEAD| ==> s[i] == HEAD[i]
  {
  }

  predicate AllSizable(msgs: seq<string>) { forall m :: m in msgs ==> |m| < SIZE_LIMIT - 1 }

  /** Each message was clean after the datagrams sent before it. */
  predicate AlwaysClean(buf: string, msgs: seq<string>)
    requires |buf| == BUF_LEN && AllSizable(msgs)
    decreases |msgs|
  {
    msgs == [] ||
    (var front, m := msgs[..|msgs| - 1], msgs[|msgs| - 1];
     AlwaysClean(buf, front) && CleanAfter(buf, FramesOfAll(front), m))
  }

  /** Messages of any number, length and content arrive complete and in order all through a
      run exactly if each of them was clean after the ones before it. */
  lemma {:induction false} TrafficArrives(r: Receiver, msgs: seq<string>)
    requires |r.buf| == BUF_LEN && r.mode == Idle && AllSizable(msgs)
    ensures AlwaysArrived(r, msgs) <==> AlwaysClean(r.buf, msgs)
    decreases |msgs|
  {
    if msgs == [] {
      assert r.received + msgs == r.received;
    } else {
      TrafficArrives(r, msgs[..|msgs| - 1]);
      if AlwaysArrived(r, msgs[..|msgs| - 1]) {
        NextIsClean(r, msgs);
      }
    }
  }

  lemma NextIsClean(r: Receiver, msgs: seq<string>)
    requires |r.buf| == BUF_LEN && msgs != [] && AllSizable(msgs) && Arrived(r, msgs[..|msgs| - 1])
    ensures Arrived(r, msgs) <==> CleanAfter(r.buf, FramesOfAll(msgs[..|msgs| - 1]), msgs[|msgs| - 1])
  {
    NextArrives(r, msgs);
    CleanIsDelivered(r, FramesOfAll(msgs[..|msgs| - 1]), msgs[|msgs| - 1]);
  }

  /** The buffer of a receiver that starts to listen. */
  const EMPTY_BUFFER: string := seq(BUF_LEN, _ => '\0')

  lemma TwoPieces(a: string)
    requires |a| == 2 * BUF_LEN
    ensures Frames(a) == [Header(|a|), a[..BUF_LEN], a[BUF_LEN..]]
  {
    var rest := a[BUF_LEN..];
    assert Pieces(rest) == [rest];
    assert Pieces(a) == [a[..BUF_LEN]] + Pieces(rest);
  }

  /** The condition is not idle: of two long messages, the first made of digits and two
      buffers long, the second is swallowed although nothing was lost on the way. */
  lemma DigitsSwallowTheNextLongMessage(a: string, b: string)
    requires |a| == 2 * BUF_LEN && forall i :: 0 <= i < |a| ==> IsDigit(a[i])
    requires BUF_LEN < |b| < SIZE_LIMIT - 1
    ensures var r := Receiver(EMPTY_BUFFER, Idle, []);
      AlwaysArrived(r, [a]) && !Arrived(r, [a, b]) && ReceiveAll(r, FramesOfAll([a, b])).mode.Collecting?
  {
    var r := Receiver(EMPTY_BUFFER, Idle, []);
    DigitsArrive(a);
    LeavesDigits(a, |b|);
    var both := [a, b];
    assert both[..|both| - 1] == [a] && both[|both| - 1] == b;
    SwallowedNext(r, both);
  }

  lemma SwallowedNext(r: Receiver, msgs: seq<string>)
    requires |r.buf| == BUF_LEN && msgs != [] && Arrived(r, msgs[..|msgs| - 1])
    requires BUF_LEN < |msgs[|msgs| - 1]| < SIZE_LIMIT - 1
    requires IsDigit(AfterHeader(ReceiveAll(r, FramesOfAll(msgs[..|msgs| - 1])).buf, |msgs[|msgs| - 1]|))
    ensures !Arrived(r, msgs) && ReceiveAll(r, FramesOfAll(msgs)).mode.Collecting?
  {
    var front, m := msgs[..|msgs| - 1], msgs[|msgs| - 1];
    ReceiveAllConcat(r, FramesOfAll(front), Frames(m));
    Swallowed(ReceiveAll(r, FramesOfAll(front)), m);
  }

  lemma Swallowed(n: Receiver, b: string)
    requires |n.buf| == BUF_LEN && n.mode == Idle
    requires BUF_LEN < |b| < SIZE_LIMIT - 1 && IsDigit(AfterHeader(n.buf, |b|))
    ensures ReceiveAll(n, Frames(b)).mode.Collecting? && ReceiveAll(n, Frames(b)).received == n.received
  {
    LongMessageArrives(n.buf, b);
    ReceiveAllIgnoresReceived(n, Receiver(n.buf, Idle, []), n.received, Frames(b));
    assert n.received + [] == n.received;
  }

  lemma DigitsArrive(a: string)
    requires |a| == 2 * BUF_LEN
    ensures AlwaysArrived(Receiver(EMPTY_BUFFER, Idle, []), [a])
  {
    assert [a][..0] == [];
    HeaderIsShort(|a|);
    assert CleanAfter(EMPTY_BUFFER, [], a);
    TrafficArrives(Receiver(EMPTY_BUFFER, Idle, []), [a]);
  }

  /** The last piece covers the buffer. */
  lemma LeavesDigits(a: string, n: nat)
    requires |a| == 2 * BUF_LEN && n < SIZE_LIMIT && forall i :: 0 <= i < |a| ==> IsDigit(a[i])
    ensures IsDigit(AfterHeader(ReceiveAll(Receiver(EMPTY_BUFFER, Idle, []), FramesOfAll([a])).buf, n))
  {
    assert [a][..0] == [];
    TwoPieces(a);
    HeaderIsShort(n);
    BufferHoldsLatest(Receiver(EMPTY_BUFFER, Idle, []), FramesOfAll([a]), |Header(n)|);
    assert FramesOfAll([a]) == Frames(a);
  }
}
