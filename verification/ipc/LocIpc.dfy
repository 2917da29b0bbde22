/**
LocIpc's framing over datagrams: a message of up to 8192 bytes is one datagram; a longer one is
a header with its length in decimal, and then its bytes in pieces. Bytes are chars.
*/
module LocIpc {
  import opened Decimal

  const LOC_MSG_BUF_LEN: nat := 8192
  const LOC_MSG_HEAD := "$MSGLEN$"
  const LOC_MSG_ABORT := "LocIpcMsg::ABORT"

  /** What one recvfrom yields. */
  datatype Arrival = Datagram(bytes: string) | Failure

  // ---------------------------------------------------------------- sending

  ghost function Concat(chunks: seq<string>): string {
    if chunks == [] then "" else chunks[0] + Concat(chunks[1..])
  }

  ghost predicate Pieces(chunks: seq<string>) {
    forall i :: 0 <= i < |chunks| ==> 0 < |chunks[i]| <= LOC_MSG_BUF_LEN
  }

  function Head(length: nat): string { LOC_MSG_HEAD + Print(length) }

  /** The datagrams of a message sent without an error. */
  ghost predicate Sent(data: string, datagrams: seq<string>) {
    if |data| <= LOC_MSG_BUF_LEN then datagrams == [data]
    else datagrams != [] && datagrams[0] == Head(|data|) && Pieces(datagrams[1..]) && Concat(datagrams[1..]) == data
  }

  lemma {:induction false} ConcatAppend(chunks: seq<string>, c: string)
    ensures Concat(chunks + [c]) == Concat(chunks) + c
  {
    if chunks == [] {
      assert [c][1..] == [] && chunks + [c] == [c];
    } else {
      assert (chunks + [c])[1..] == chunks[1..] + [c];
      ConcatAppend(chunks[1..], c);
    }
  }

  /**
  sendData: sendto on the header or a short message sends all of it or fails; on a piece it
  sends some of its bytes or fails. On failure what was sent is the start of the message.
  */
  method SendData(data: string) returns (result: bool, datagrams: seq<string>)
    ensures result ==> Sent(data, datagrams)
    ensures !result && |data| <= LOC_MSG_BUF_LEN ==> datagrams == []
    ensures !result && |data| > LOC_MSG_BUF_LEN && datagrams != [] ==>
      datagrams[0] == Head(|data|) && Pieces(datagrams[1..]) && Concat(datagrams[1..]) < data
  {
    datagrams := [];
    result := *;
    if |data| <= LOC_MSG_BUF_LEN {
      if result { datagrams := [data]; }
    } else if result {
      var head := LOC_MSG_HEAD + Print(|data|);
      var sentBytes, pieces := 0, [];
      while sentBytes < |data| && result
        invariant 0 <= sentBytes <= |data| && Pieces(pieces) && Concat(pieces) == data[..sentBytes]
        invariant !result ==> sentBytes < |data|
        decreases |data| - sentBytes, result
      {
        var partLen := if |data| - sentBytes > LOC_MSG_BUF_LEN then LOC_MSG_BUF_LEN else |data| - sentBytes;
        var rv := SendTo(partLen);
        if rv < 0 {
          result := false;
        } else {
          ConcatAppend(pieces, data[sentBytes..sentBytes + rv]);
          pieces := pieces + [data[sentBytes..sentBytes + rv]];
          sentBytes := sentBytes + rv;
        }
      }
      datagrams := [head] + pieces;
    }
  }

  /** sendto of a piece: an error, or how many of its bytes the socket took. */
  method SendTo(partLen: nat) returns (rv: int)
    requires partLen > 0
    ensures rv < 0 || 0 < rv <= partLen
  {
    var failed: bool := *;
    if failed { return -1; }
    rv :| 0 < rv <= partLen;
  }

  // ---------------------------------------------------------------- receiving

  function Zeros(n: nat): string { seq(n, _ => 0 as char) }

  /** std::string::resize. */
  function Resized(s: string, n: nat): (r: string)
    ensures |r| == n
  {
    if |s| >= n then s[..n] else s + Zeros(n - |s|)
  }

  predicate StartsWith(s: string, prefix: string) { prefix <= s }

  /** recvfrom into s at a position: the datagram, or as much of it as there is room for. */
  function Copied(s: string, at: nat, bytes: string): (r: (string, nat))
    requires at <= |s|
    ensures |r.0| == |s| && at + r.1 <= |s|
  {
    var n := if |bytes| <= |s| - at then |bytes| else |s| - at;
    (s[..at] + bytes[..n] + s[at + n..], n)
  }

  /** The outcome of the inner loop: a full message and what is still to arrive, or none. */
  datatype Collected = Full(msg: string, rest: seq<Arrival>) | Broken

  function Collect(msg: string, received: nat, arrivals: seq<Arrival>): (c: Collected)
    requires received <= |msg|
    ensures c.Full? ==> |c.rest| <= |arrivals|
    decreases |arrivals|
  {
    if received >= |msg| then Full(msg, arrivals)
    else if arrivals == [] || arrivals[0].Failure? || arrivals[0].bytes == "" then Broken
    else
      var (msg', n) := Copied(msg, received, arrivals[0].bytes);
      Collect(msg', received + n, arrivals[1..])
  }

  /** One round of the listening loop: it stops, or hands out at most one message and goes on. */
  datatype Round = Stop | Go(out: seq<string>, msg: string, rest: seq<Arrival>)

  function Next(msg: string, arrivals: seq<Arrival>): (r: Round)
    requires arrivals != []
    ensures r.Go? ==> |r.rest| < |arrivals|
  {
    if arrivals[0].Failure? then Stop
    else
      var (buf, n) := Copied(Resized(msg, LOC_MSG_BUF_LEN), 0, arrivals[0].bytes);
      if n == 0 then Go([], buf, arrivals[1..])
      else if StartsWith(buf, LOC_MSG_ABORT) then Stop
      else if !StartsWith(buf, LOC_MSG_HEAD) then Go([buf[..n]], buf[..n], arrivals[1..])
      else
        var msgLen := ReadFrom(0, buf[|LOC_MSG_HEAD|..]);
        match Collect(Resized(buf, msgLen), 0, arrivals[1..])
        case Full(m, rest) => Go([m], m, rest)
        case Broken => Stop
  }

  /** The messages handed to onReceive, when msg holds what the last receive left in it. */
  function Heard(msg: string, arrivals: seq<Arrival>): seq<string>
    decreases |arrivals|
  {
    if arrivals == [] then []
    else
      match Next(msg, arrivals)
      case Stop => []
      case Go(out, m, rest) => out + Heard(m, rest)
  }

  lemma Regroup<T>(a: seq<T>, b: seq<T>, c: seq<T>)
    ensures (a + b) + c == a + (b + c)
  {
  }

  class LocIpcListener {
    var socket: seq<Arrival>     // what is still to arrive
    var received: seq<string>    // the calls of onReceive

    constructor (socket: seq<Arrival>)
      ensures this.socket == socket && received == []
    {
      this.socket, received := socket, [];
    }

    /** recvfrom: -1 on an error. */
    method RecvFrom(msg: string, at: nat) returns (nBytes: int, msg': string)
      requires at <= |msg| && socket != []
      modifies `socket
      ensures socket == old(socket)[1..]
      ensures if old(socket)[0].Failure? then nBytes == -1 && msg' == msg
              else (msg', nBytes) == Copied(msg, at, old(socket)[0].bytes)
    {
      nBytes, msg' := -1, msg;
      if socket[0].Datagram? {
        var (m, n) := Copied(msg, at, socket[0].bytes);
        msg', nBytes := m, n;
      }
      socket := socket[1..];
    }

    /** The loop of startListeningBlocking, until nothing more arrives. */
    method Listen()
      modifies this
      ensures received == old(received) + Heard("", old(socket))
    {
      var msg, go := "", true;
      ghost var start, heard, ahead := received, [], Heard("", socket);
      while go && socket != []
        invariant received == start + heard
        invariant heard + ahead == Heard("", old(socket))
        invariant ahead == if go then Heard(msg, socket) else []
        decreases |socket|, go
      {
        ghost var out := if Next(msg, socket).Go? then Next(msg, socket).out else [];
        go, msg := ListenRound(msg);
        Regroup(start, heard, out);
        Regroup(heard, out, if go then Heard(msg, socket) else []);
        heard, ahead := heard + out, if go then Heard(msg, socket) else [];
      }
    }

    method ListenRound(msg: string) returns (go: bool, msg': string)
      requires socket != []
      modifies this
      ensures |socket| < |old(socket)|
      ensures match Next(msg, old(socket))
              case Stop => !go && received == old(received)
              case Go(out, m, rest) => go && received == old(received) + out && msg' == m && socket == rest
    {
      var nBytes;
      msg' := Resized(msg, LOC_MSG_BUF_LEN);
      nBytes, msg' := RecvFrom(msg', 0);
      if nBytes < 0 {
        return false, msg';
      } else if nBytes == 0 {
        return true, msg';
      }
      if StartsWith(msg', LOC_MSG_ABORT) {
        return false, msg';
      }
      if !StartsWith(msg', LOC_MSG_HEAD) {
        msg' := msg'[..nBytes];
        received := received + [msg'];
      } else {
        var msgLen := ReadFrom(0, msg'[|LOC_MSG_HEAD|..]);
        msg' := Resized(msg', msgLen);
        nBytes, msg' := CollectLoop(msg');
        if nBytes <= 0 {
          return false, msg';
        }
        received := received + [msg'];
      }
      return true, msg';
    }

    /** The inner loop; a socket with nothing more to give counts as a failed receive. */
    method CollectLoop(msg: string) returns (nBytes: int, msg': string)
      modifies `socket
      ensures |socket| <= |old(socket)|
      ensures Collect(msg, 0, old(socket)) == if nBytes > 0 then Full(msg', socket) else Broken
    {
      nBytes, msg' := 1, msg;
      var msgLenReceived := 0;
      while msgLenReceived < |msg'| && nBytes > 0
        invariant nBytes > 0 ==> 0 <= msgLenReceived <= |msg'|
        invariant |socket| <= |old(socket)|
        invariant Collect(msg, 0, old(socket)) == if nBytes > 0 then Collect(msg', msgLenReceived, socket) else Broken
        decreases |socket|, nBytes > 0
      {
        if socket == [] {
          nBytes := -1;
        } else {
          nBytes, msg' := RecvFrom(msg', msgLenReceived);
          msgLenReceived := msgLenReceived + nBytes;
        }
      }
    }
  }

  // ---------------------------------------------------------------- round trip

  ghost function Arrivals(datagrams: seq<string>): seq<Arrival> {
    seq(|datagrams|, i requires 0 <= i < |datagrams| => Datagram(datagrams[i]))
  }

  lemma ArrivalsSplit(datagrams: seq<string>, rest: seq<Arrival>)
    requires datagrams != []
    ensures (Arrivals(datagrams) + rest)[0] == Datagram(datagrams[0])
    ensures (Arrivals(datagrams) + rest)[1..] == Arrivals(datagrams[1..]) + rest
  {
  }

  /** Pieces that add up to the room that is left fill it, in order, and what arrives after them is left alone. */
  lemma {:induction false} CollectPieces(msg: string, received: nat, chunks: seq<string>, rest: seq<Arrival>)
    requires received <= |msg| && Pieces(chunks) && |Concat(chunks)| == |msg| - received
    ensures Collect(msg, received, Arrivals(chunks) + rest) == Full(msg[..received] + Concat(chunks), rest)
    decreases |chunks|
  {
    if chunks != [] {
      var c := chunks[0];
      var (msg', n) := Copied(msg, received, c);
      ArrivalsSplit(chunks, rest);
      CollectPieces(msg', received + n, chunks[1..], rest);
      assert msg'[..received + n] == msg[..received] + c;
      assert msg[..received] + c + Concat(chunks[1..]) == msg[..received] + (c + Concat(chunks[1..]));
    } else {
      assert Arrivals(chunks) + rest == rest;
      assert msg[..received] + "" == msg;
    }
  }

  /** Pieces that do not fill the room leave the message open. */
  lemma {:induction false} CollectTooFew(msg: string, received: nat, chunks: seq<string>)
    requires received <= |msg| && Pieces(chunks) && |Concat(chunks)| < |msg| - received
    ensures Collect(msg, received, Arrivals(chunks)) == Broken
    decreases |chunks|
  {
    if chunks != [] {
      var (msg', n) := Copied(msg, received, chunks[0]);
      assert Arrivals(chunks)[1..] == Arrivals(chunks[1..]);
      CollectTooFew(msg', received + n, chunks[1..]);
    }
  }

  lemma HeadFits(length: nat, width: nat)
    requires length < Pow10(width)
    requires width > 0
    ensures |Print(length)| <= width
    decreases width
  {
    if length >= 10 {
      HeadFits(length / 10, width - 1);
    }
  }

  ghost function Pow10(n: nat): nat { if n == 0 then 1 else 10 * Pow10(n - 1) }

  /** The buffer after the header arrived: header, then whatever was there before. */
  lemma HeaderInBuffer(msg: string, length: nat)
    requires length < 0x1_0000_0000
    ensures var (buf, n) := Copied(Resized(msg, LOC_MSG_BUF_LEN), 0, Head(length));
      && n == |Head(length)| <= 18
      && buf == Head(length) + Resized(msg, LOC_MSG_BUF_LEN)[n..]
      && StartsWith(buf, LOC_MSG_HEAD) && !StartsWith(buf, LOC_MSG_ABORT)
      && buf[|LOC_MSG_HEAD|..] == Print(length) + Resized(msg, LOC_MSG_BUF_LEN)[n..]
  {
    assert Pow10(10) == 10000000000 by {
      assert Pow10(5) == 100000;
      assert Pow10(10) == 10 * Pow10(9) == 100 * Pow10(8) == 1000 * Pow10(7) == 10000 * Pow10(6) == 100000 * Pow10(5);
    }
    HeadFits(length, 10);
    var (buf, n) := Copied(Resized(msg, LOC_MSG_BUF_LEN), 0, Head(length));
    assert buf[..8] == LOC_MSG_HEAD;
    assert buf[0] == '$';
  }

  /** The stale byte that follows the header in the listener's buffer. */
  function ByteAfterHeader(msg: string, length: nat): char {
    var buf := Resized(msg, LOC_MSG_BUF_LEN);
    if |Head(length)| < |buf| then buf[|Head(length)|] else 0 as char
  }

  /** The listener's buffer after a short message arrived: the message, then what was there before. */
  function ShortBuffer(msg: string, data: string): string {
    Copied(Resized(msg, LOC_MSG_BUF_LEN), 0, data).0
  }

  /**
  What msg, left by an earlier receive, must not do to a message: put a digit behind the header of
  a long one, or complete the header or the abort text in front of a short one.
  */
  predicate Clean(msg: string, data: string) {
    if |data| > LOC_MSG_BUF_LEN then !IsDigit(ByteAfterHeader(msg, |data|))
    else !StartsWith(ShortBuffer(msg, data), LOC_MSG_HEAD) && !StartsWith(ShortBuffer(msg, data), LOC_MSG_ABORT)
  }

  lemma LongerIfDigit(n: nat, rest: string)
    requires n > 0
    ensures ReadFrom(0, Print(n) + rest) >= n
  {
    PrintsDigits(n);
    ReadDigits(0, Print(n), rest);
    ReadUndoesPrint(n);
    ReadGrows(n, rest);
  }

  lemma LongRead(msg: string, length: nat)
    requires LOC_MSG_BUF_LEN < length < 0x1_0000_0000
    ensures var buf := Copied(Resized(msg, LOC_MSG_BUF_LEN), 0, Head(length)).0;
      var msgLen := ReadFrom(0, buf[|LOC_MSG_HEAD|..]);
      msgLen >= length && (msgLen == length <==> !IsDigit(ByteAfterHeader(msg, length)))
  {
    HeaderInBuffer(msg, length);
    var stale := Resized(msg, LOC_MSG_BUF_LEN)[|Head(length)|..];
    ReadBackIff(length, stale);
    LongerIfDigit(length, stale);
    assert ByteAfterHeader(msg, length) == stale[0];
  }

  /** A clean long message is handed out in one round, and the next one finds it in the buffer. */
  lemma {:induction false} LongMessageHeard(msg: string, data: string, datagrams: seq<string>, rest: seq<Arrival>)
    requires LOC_MSG_BUF_LEN < |data| < 0x1_0000_0000 && Sent(data, datagrams) && Clean(msg, data)
    ensures Heard(msg, Arrivals(datagrams) + rest) == [data] + Heard(data, rest)
  {
    var chunks := datagrams[1..];
    HeaderInBuffer(msg, |data|);
    LongRead(msg, |data|);
    ArrivalsSplit(datagrams, rest);
    var buf := Copied(Resized(msg, LOC_MSG_BUF_LEN), 0, datagrams[0]).0;
    CollectPieces(Resized(buf, |data|), 0, chunks, rest);
    assert Resized(buf, |data|)[..0] + data == data;
  }

  lemma {:induction false} ShortMessageHeard(msg: string, data: string, rest: seq<Arrival>)
    requires 0 < |data| <= LOC_MSG_BUF_LEN && Clean(msg, data)
    ensures Heard(msg, [Datagram(data)] + rest) == [data] + Heard(data, rest)
  {
    assert ([Datagram(data)] + rest)[1..] == rest;
    assert ShortBuffer(msg, data)[..|data|] == data;
  }

  /**
  A long message arrives unchanged, whatever pieces it was sent in, exactly when the byte that an
  earlier receive left behind the header is no digit.
  */
  lemma {:induction false} LongMessageIff(msg: string, data: string, datagrams: seq<string>)
    requires LOC_MSG_BUF_LEN < |data| < 0x1_0000_0000 && Sent(data, datagrams)
    ensures Heard(msg, Arrivals(datagrams)) == [data] <==> !IsDigit(ByteAfterHeader(msg, |data|))
  {
    assert Arrivals(datagrams) + [] == Arrivals(datagrams);
    if Clean(msg, data) {
      LongMessageHeard(msg, data, datagrams, []);
    } else {
      var chunks := datagrams[1..];
      HeaderInBuffer(msg, |data|);
      LongRead(msg, |data|);
      ArrivalsSplit(datagrams, []);
      assert Arrivals(chunks) + [] == Arrivals(chunks);
      var buf := Copied(Resized(msg, LOC_MSG_BUF_LEN), 0, datagrams[0]).0;
      CollectTooFew(Resized(buf, ReadFrom(0, buf[|LOC_MSG_HEAD|..])), 0, chunks);
    }
  }

  /**
  A short message arrives unchanged exactly when it does not, with the bytes that an earlier
  receive left behind it, start like a header or an abort message.
  */
  lemma {:induction false} ShortMessageIff(msg: string, data: string)
    requires 0 < |data| <= LOC_MSG_BUF_LEN
    ensures Heard(msg, [Datagram(data)]) == [data] <==>
      !StartsWith(ShortBuffer(msg, data), LOC_MSG_HEAD) && !StartsWith(ShortBuffer(msg, data), LOC_MSG_ABORT)
  {
    assert [Datagram(data)] + [] == [Datagram(data)];
    if Clean(msg, data) {
      ShortMessageHeard(msg, data, []);
    } else if !StartsWith(ShortBuffer(msg, data), LOC_MSG_ABORT) {
      assert [Datagram(data)][1..] == [];
      var buf := ShortBuffer(msg, data);
      var m := Resized(buf, ReadFrom(0, buf[|LOC_MSG_HEAD|..]));
      assert Collect(m, 0, []) == if m == "" then Full(m, []) else Broken;
      assert [m] + [] == [m];
    }
  }

  lemma {:induction false} MessageIff(msg: string, data: string, datagrams: seq<string>)
    requires 0 < |data| < 0x1_0000_0000 && Sent(data, datagrams)
    ensures Heard(msg, Arrivals(datagrams)) == [data] <==> Clean(msg, data)
  {
    if |data| > LOC_MSG_BUF_LEN {
      LongMessageIff(msg, data, datagrams);
    } else {
      assert Arrivals(datagrams) == [Datagram(data)];
      ShortMessageIff(msg, data);
    }
  }

  lemma {:induction false} MessageHeard(msg: string, data: string, datagrams: seq<string>, rest: seq<Arrival>)
    requires 0 < |data| < 0x1_0000_0000 && Sent(data, datagrams) && Clean(msg, data)
    ensures Heard(msg, Arrivals(datagrams) + rest) == [data] + Heard(data, rest)
  {
    if |data| > LOC_MSG_BUF_LEN {
      LongMessageHeard(msg, data, datagrams, rest);
    } else {
      assert Arrivals(datagrams) == [Datagram(data)];
      ShortMessageHeard(msg, data, rest);
    }
  }

  /**
  On a fresh listener every message round-trips, in whatever pieces it was sent, except a short
  one that starts with the header or the abort text.
  */
  lemma {:induction false} RoundTripIff(data: string, datagrams: seq<string>)
    requires 0 < |data| < 0x1_0000_0000 && Sent(data, datagrams)
    ensures Heard("", Arrivals(datagrams)) == [data] <==>
      (|data| <= 8192 ==> !StartsWith(data, "$MSGLEN$") && !StartsWith(data, "LocIpcMsg::ABORT"))
  {
    MessageIff("", data, datagrams);
    if |data| > LOC_MSG_BUF_LEN {
      HeaderInBuffer("", |data|);
    } else {
      FreshBufferAddsNothing(data, LOC_MSG_HEAD);
      FreshBufferAddsNothing(data, LOC_MSG_ABORT);
    }
  }

  lemma FreshBufferAddsNothing(data: string, prefix: string)
    requires |data| <= LOC_MSG_BUF_LEN && 0 as char !in prefix
    ensures StartsWith(ShortBuffer("", data), prefix) <==> StartsWith(data, prefix)
  {
    var buf := ShortBuffer("", data);
    assert buf[..|data|] == data;
    if prefix <= data {
      assert buf[..|prefix|] == data[..|prefix|];
    } else {
      NoPrefixAcrossZeros(data, buf, prefix);
    }
  }

  // ---------------------------------------------------------------- what ends the listening

  /** An abort message ends it: neither it nor anything after it is heard. */
  lemma {:induction false} AbortEnds(msg: string, data: string, rest: seq<Arrival>)
    requires |data| <= LOC_MSG_BUF_LEN && StartsWith(data, LOC_MSG_ABORT)
    ensures Heard(msg, [Datagram(data)] + rest) == []
  {
    var buf := ShortBuffer(msg, data);
    assert buf[..|LOC_MSG_ABORT|] == data[..|LOC_MSG_ABORT|] == LOC_MSG_ABORT;
    assert ([Datagram(data)] + rest)[0] == Datagram(data);
  }

  /** So does a failed receive. */
  lemma {:induction false} FailureEnds(msg: string, rest: seq<Arrival>)
    ensures Heard(msg, [Failure] + rest) == []
  {
    assert ([Failure] + rest)[0] == Failure;
  }

  /** An empty datagram is skipped. */
  lemma {:induction false} EmptyIsSkipped(msg: string, rest: seq<Arrival>)
    ensures Heard(msg, [Datagram("")] + rest) == Heard(msg, rest)
  {
    var all := [Datagram("")] + rest;
    assert all[0] == Datagram("") && all[1..] == rest;
    var buf := Copied(Resized(msg, LOC_MSG_BUF_LEN), 0, "").0;
    assert buf == Resized(msg, LOC_MSG_BUF_LEN);
    assert Resized(buf, LOC_MSG_BUF_LEN) == buf;
    assert Heard(msg, all) == [] + Heard(buf, rest);
    if rest != [] { assert Next(buf, rest) == Next(msg, rest); }
  }

  /** Pieces that do not fill the room, and then a failure or an empty datagram, leave no message. */
  lemma {:induction false} CollectBroken(msg: string, received: nat, chunks: seq<string>, x: Arrival,
                                         rest: seq<Arrival>)
    requires received <= |msg| && Pieces(chunks) && |Concat(chunks)| < |msg| - received
    requires x.Failure? || x.bytes == ""
    ensures Collect(msg, received, Arrivals(chunks) + ([x] + rest)) == Broken
    decreases |chunks|
  {
    if chunks == [] {
      assert Arrivals(chunks) + ([x] + rest) == [x] + rest;
    } else {
      var (msg', n) := Copied(msg, received, chunks[0]);
      ArrivalsSplit(chunks, [x] + rest);
      CollectBroken(msg', received + n, chunks[1..], x, rest);
    }
  }

  /** A long message that is broken off ends it: neither it nor anything after it is heard. */
  lemma {:induction false} BrokenEnds(msg: string, length: nat, chunks: seq<string>, x: Arrival, rest: seq<Arrival>)
    requires LOC_MSG_BUF_LEN < length < 0x1_0000_0000 && Pieces(chunks) && |Concat(chunks)| < length
    requires x.Failure? || x.bytes == ""
    ensures Heard(msg, [Datagram(Head(length))] + (Arrivals(chunks) + ([x] + rest))) == []
  {
    var tail := Arrivals(chunks) + ([x] + rest);
    var all := [Datagram(Head(length))] + tail;
    assert all[0] == Datagram(Head(length)) && all[1..] == tail;
    HeaderInBuffer(msg, length);
    LongRead(msg, length);
    var buf := Copied(Resized(msg, LOC_MSG_BUF_LEN), 0, Head(length)).0;
    CollectBroken(Resized(buf, ReadFrom(0, buf[|LOC_MSG_HEAD|..])), 0, chunks, x, rest);
  }

  /** A datagram that is longer than the buffer is heard up to the end of the buffer. */
  lemma {:induction false} CutToBuffer(msg: string, data: string, rest: seq<Arrival>)
    requires |data| >= 8192 && !StartsWith(data, LOC_MSG_HEAD) && !StartsWith(data, LOC_MSG_ABORT)
    ensures Heard(msg, [Datagram(data)] + rest) == [data[..8192]] + Heard(data[..8192], rest)
  {
    var all := [Datagram(data)] + rest;
    assert all[0] == Datagram(data) && all[1..] == rest;
    var buf := Copied(Resized(msg, LOC_MSG_BUF_LEN), 0, data).0;
    assert buf == data[..8192] == buf[..8192];
    assert LOC_MSG_HEAD <= buf ==> LOC_MSG_HEAD <= data;
    assert LOC_MSG_ABORT <= buf ==> LOC_MSG_ABORT <= data;
  }

  // ---------------------------------------------------------------- conversations

  /** The datagrams of message after message. */
  ghost function Wire(sent: seq<seq<string>>): seq<Arrival> {
    if sent == [] then [] else Arrivals(sent[0]) + Wire(sent[1..])
  }

  ghost predicate Conversation(ds: seq<string>, sent: seq<seq<string>>) {
    |sent| == |ds| && forall i :: 0 <= i < |ds| ==> 0 < |ds[i]| < 0x1_0000_0000 && Sent(ds[i], sent[i])
  }

  /** Every message is clean after the one before it, the first one after msg. */
  predicate AllClean(msg: string, ds: seq<string>)
    decreases |ds|
  {
    ds == [] || (Clean(msg, ds[0]) && AllClean(ds[0], ds[1..]))
  }

  lemma {:induction false} CleanConversationHeard(msg: string, ds: seq<string>, sent: seq<seq<string>>)
    requires Conversation(ds, sent) && AllClean(msg, ds)
    ensures Heard(msg, Wire(sent)) == ds
    decreases |ds|
  {
    if ds != [] {
      MessageHeard(msg, ds[0], sent[0], Wire(sent[1..]));
      CleanConversationHeard(ds[0], ds[1..], sent[1..]);
      assert ds == [ds[0]] + ds[1..];
    }
  }

  /**
  A listener has heard exactly what was sent, after every message of a conversation, if and only
  if every message is clean after the one before it.
  */
  lemma {:induction false} ConversationIff(msg: string, ds: seq<string>, sent: seq<seq<string>>)
    requires Conversation(ds, sent)
    ensures (forall k :: 0 <= k <= |ds| ==> HeardSoFar(msg, ds, sent, k)) <==> AllClean(msg, ds)
    decreases |ds|
  {
    if ds != [] {
      HeardFirst(msg, ds, sent);
      if Clean(msg, ds[0]) {
        ConversationIff(ds[0], ds[1..], sent[1..]);
        forall k: nat | k < |ds| { HeardNext(msg, ds, sent, k); }
        assert HeardSoFar(msg, ds, sent, 0);
        assert forall k :: 1 <= k <= |ds| ==>
          HeardSoFar(msg, ds, sent, k) == HeardSoFar(ds[0], ds[1..], sent[1..], k - 1);
        assert forall k :: 0 <= k < |ds| ==>
          HeardSoFar(ds[0], ds[1..], sent[1..], k) == HeardSoFar(msg, ds, sent, k + 1);
      }
    }
  }

  ghost predicate HeardSoFar(msg: string, ds: seq<string>, sent: seq<seq<string>>, k: nat)
    requires k <= |ds| == |sent|
  {
    Heard(msg, Wire(sent[..k])) == ds[..k]
  }

  lemma HeardFirst(msg: string, ds: seq<string>, sent: seq<seq<string>>)
    requires Conversation(ds, sent) && ds != []
    ensures HeardSoFar(msg, ds, sent, 1) <==> Clean(msg, ds[0])
  {
    MessageIff(msg, ds[0], sent[0]);
    assert sent[..1] == [sent[0]] && ds[..1] == [ds[0]];
    assert Wire([sent[0]]) == Arrivals(sent[0]) + Wire([]) == Arrivals(sent[0]);
  }

  lemma HeardNext(msg: string, ds: seq<string>, sent: seq<seq<string>>, k: nat)
    requires Conversation(ds, sent) && k < |ds| && Clean(msg, ds[0])
    ensures HeardSoFar(msg, ds, sent, k + 1) <==> HeardSoFar(ds[0], ds[1..], sent[1..], k)
  {
    var rest := Wire(sent[1..][..k]);
    MessageHeard(msg, ds[0], sent[0], rest);
    PrefixStep(ds, k);
    PrefixStep(sent, k);
    WireStep(sent[0], sent[1..][..k]);
    SameTail(ds[0], Heard(ds[0], rest), ds[1..][..k]);
  }

  lemma WireStep(first: seq<string>, others: seq<seq<string>>)
    ensures Wire([first] + others) == Arrivals(first) + Wire(others)
  {
    assert ([first] + others)[1..] == others;
  }

  lemma PrefixStep<T>(s: seq<T>, k: nat)
    requires k < |s|
    ensures s[..k + 1] == [s[0]] + s[1..][..k]
  {
  }

  lemma SameTail(x: string, a: seq<string>, b: seq<string>)
    ensures [x] + a == [x] + b <==> a == b
  {
    assert ([x] + a)[1..] == a && ([x] + b)[1..] == b;
  }

  lemma OtherFirstByte(s: string, prefix: string)
    requires s != "" && prefix != "" && s[0] != prefix[0]
    ensures !StartsWith(s, prefix)
  {
  }

  /** A short message whose first byte starts neither a header nor the abort text is always heard. */
  lemma {:induction false} OtherStartIsHeard(msg: string, data: string, rest: seq<Arrival>)
    requires 0 < |data| <= LOC_MSG_BUF_LEN && data[0] != '$' && data[0] != 'L'
    ensures Heard(msg, [Datagram(data)] + rest) == [data] + Heard(data, rest)
  {
    var buf := ShortBuffer(msg, data);
    assert buf[0] == data[0];
    OtherFirstByte(buf, LOC_MSG_HEAD);
    OtherFirstByte(buf, LOC_MSG_ABORT);
    ShortMessageHeard(msg, data, rest);
  }

  /** A message of one byte is lost when the one before it left the rest of a header behind. */
  lemma {:induction false} StaleHeader()
    ensures Heard("", [Datagram("?MSGLEN$5"), Datagram("$")]) == ["?MSGLEN$5"]
  {
    OtherStartIsHeard("", "?MSGLEN$5", [Datagram("$")]);
    assert [Datagram("?MSGLEN$5")] + [Datagram("$")] == [Datagram("?MSGLEN$5"), Datagram("$")];
    HeaderCompleted();
    OneByteTaken("?MSGLEN$5", "$");
  }

  lemma HeaderCompleted()
    ensures StartsWith(ShortBuffer("?MSGLEN$5", "$"), LOC_MSG_HEAD)
    ensures ShortBuffer("?MSGLEN$5", "$")[|LOC_MSG_HEAD|] == '5'
  {
    var was, buf := "?MSGLEN$5", ShortBuffer("?MSGLEN$5", "$");
    assert forall i :: 1 <= i < 9 ==> buf[i] == was[i];
    assert buf[..8] == LOC_MSG_HEAD;
  }

  /** A short message that completes a header with a length is taken for one, and nothing is heard. */
  lemma {:induction false} OneByteTaken(msg: string, data: string)
    requires 0 < |data| <= LOC_MSG_BUF_LEN && StartsWith(ShortBuffer(msg, data), LOC_MSG_HEAD)
    requires '1' <= ShortBuffer(msg, data)[|LOC_MSG_HEAD|] <= '9'
    ensures Heard(msg, [Datagram(data)]) == []
  {
    var buf := ShortBuffer(msg, data);
    var digits := buf[|LOC_MSG_HEAD|..];
    assert [Datagram(data)][1..] == [];
    ReadGrows(DigitOf(digits[0]), digits[1..]);
    assert ReadFrom(0, digits) == ReadFrom(DigitOf(digits[0]), digits[1..]) > 0;
    OtherFirstByte(buf, LOC_MSG_ABORT);
    assert Collect(Resized(buf, ReadFrom(0, digits)), 0, []) == Broken;
  }

  /** A long message is lost when the one before it left a digit where its header ends. */
  lemma {:induction false} StaleDigit(data: string, datagrams: seq<string>)
    requires LOC_MSG_BUF_LEN < |data| < 10000 && Sent(data, datagrams)
    ensures Heard("", [Datagram("............5")] + Arrivals(datagrams)) != ["............5", data]
  {
    var first := "............5";
    OtherStartIsHeard("", first, Arrivals(datagrams));
    FourDigits(|data|);
    assert ByteAfterHeader(first, |data|) == Resized(first, LOC_MSG_BUF_LEN)[12] == '5';
    LongMessageIff(first, data, datagrams);
    SameTail(first, Heard(first, Arrivals(datagrams)), [data]);
    assert [first] + [data] == [first, data];
  }

  lemma OneMoreDigit(n: nat, width: nat, low: nat)
    requires 10 * low <= n < 100 * low && low > 0
    requires forall m: nat :: low <= m < 10 * low ==> |Print(m)| == width
    ensures |Print(n)| == width + 1
  {
    assert low <= n / 10 < 10 * low;
  }

  lemma FourDigits(n: nat)
    requires 1000 <= n < 10000
    ensures |Print(n)| == 4
  {
    forall m: nat | 10 <= m < 100 ensures |Print(m)| == 2 { OneMoreDigit(m, 1, 1); }
    forall m: nat | 100 <= m < 1000 ensures |Print(m)| == 3 { OneMoreDigit(m, 2, 10); }
    OneMoreDigit(n, 3, 100);
  }

  lemma NoPrefixAcrossZeros(data: string, buf: string, prefix: string)
    requires data <= buf && (forall i :: |data| <= i < |buf| ==> buf[i] == 0 as char)
    requires 0 as char !in prefix && !(prefix <= data)
    ensures !(prefix <= buf)
  {
    if |prefix| > |data| {
      assert prefix[|data|] in prefix;
      assert |prefix| <= |buf| ==> prefix[|data|] != buf[|data|];
    } else {
      assert buf[..|prefix|] == data[..|prefix|];
    }
  }
}
