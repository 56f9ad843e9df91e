/** Receiving on a session: src/libtrading/proto/fix_session.c, and what a stream of frames becomes. */
module FixSessions {
  import opened Options
  import opened Bytes
  import opened Atoi
  import opened Buffers
  import opened FixTypes
  import opened FixScan
  import opened FixMessages
  import opened FixPrint
  import opened FixRoundTrip
  import Modp

  const RECV_BUFFER_SIZE := 4096

  /** Receive buffer, number left by the last message, and the bytes still in the network. */
  datatype RxState = RxState(unread: seq<byte>, seqNum: int, incoming: seq<byte>)

  /** One call of `fix_session_recv`: whether it read, which bytes it got, what it returned. */
  datatype Call = Call(asked: bool, got: seq<byte>, ret: int, msg: Option<Message>, after: RxState)

  /** What a call returning after a successful parse of `u` looks like. */
  ghost predicate Delivers(u: seq<byte>, r: Outcome, incoming: seq<byte>, c: Call) {
    && r.Parsed? && r.n <= |u| && c.ret == 1 && c.msg == Some(r.msg)
    && c.after == RxState(u[r.n..], r.msg.seqNum, incoming)
  }

  ghost predicate RecvStep(st: RxState, c: Call) {
    var r := Parse(st.unread, st.seqNum);
    if r.Parsed? then !c.asked && c.got == [] && Delivers(st.unread, r, st.incoming, c)
    else
      var u := st.unread[r.n..];
      && c.got <= st.incoming
      && (c.asked <==> HasRoom(u))
      && (if c.asked then |u| + |c.got| + FIX_MAX_MESSAGE_SIZE <= RECV_BUFFER_SIZE else c.got == [])
      && if c.ret == -1 then c.asked && c.got == [] && c.msg == None && c.after == st.(unread := u)
         else (c.asked ==> c.got != []) && AfterRead(u + c.got, st.seqNum, st.incoming[|c.got|..], c)
  }

  /** After compaction there would be space to read into. */
  predicate HasRoom(u: seq<byte>) {
    |u| + FIX_MAX_MESSAGE_SIZE < RECV_BUFFER_SIZE
  }

  ghost predicate AfterRead(v: seq<byte>, seqNum: int, incoming: seq<byte>, c: Call) {
    var r := Parse(v, seqNum);
    if r.Parsed? then Delivers(v, r, incoming, c)
    else c.ret == 0 && c.msg == None && c.after == RxState(v[r.n..], seqNum, incoming)
  }

  class FixSession {
    const rxBuffer: Buffer
    const rxMessage: FixMessage
    const sock: Socket
    var inMsgSeqNum: nat
    var now: int
    var rxTimestamp: int

    ghost predicate Valid()
      reads this, rxBuffer
    {
      && rxBuffer.Valid() && rxBuffer.data.Length == RECV_BUFFER_SIZE
      && rxBuffer.end + FIX_MAX_MESSAGE_SIZE <= RECV_BUFFER_SIZE
    }

    ghost function State(): RxState
      requires Valid()
      reads this, rxBuffer, rxBuffer.data, rxMessage, sock
    {
      RxState(rxBuffer.Unread(), rxMessage.msgSeqNum, sock.incoming)
    }

    constructor (sock: Socket, inMsgSeqNum: nat, now: int)
      ensures Valid() && fresh(rxBuffer) && fresh(rxBuffer.data) && fresh(rxMessage) && this.sock == sock
      ensures State() == RxState([], 0, sock.incoming)
      ensures this.inMsgSeqNum == inMsgSeqNum
    {
      rxBuffer := new Buffer(RECV_BUFFER_SIZE);
      rxMessage := new FixMessage();
      this.sock := sock;
      this.inMsgSeqNum, this.now, this.rxTimestamp := inMsgSeqNum, now, now;
    }

    predicate BufferFull()
      requires Valid()
      reads this, rxBuffer
    {
      rxBuffer.Remaining() <= FIX_MAX_MESSAGE_SIZE
    }

    /** Bookkeeping for a received message. */
    method Count(keepInMsgSeqNum: bool)
      modifies this`rxTimestamp, this`inMsgSeqNum
      ensures rxTimestamp == now
      ensures inMsgSeqNum == if keepInMsgSeqNum then old(inMsgSeqNum) else (old(inMsgSeqNum) + 1) % TWO_64
    {
      rxTimestamp := now;
      if !keepInMsgSeqNum {
        inMsgSeqNum := (inMsgSeqNum + 1) % TWO_64;
      }
    }

    /** Makes room if the buffer is full, then reads one chunk unless there is still none. */
    method Fill() returns (nr: int, asked: bool)
      requires Valid()
      modifies rxBuffer, rxBuffer.data, sock
      ensures Valid()
      ensures asked <==> HasRoom(old(rxBuffer.Unread()))
      ensures -1 <= nr <= |old(sock.incoming)| && (!asked ==> nr == 0)
      ensures var got := if nr > 0 then old(sock.incoming)[..nr] else [];
        rxBuffer.Unread() == old(rxBuffer.Unread()) + got && sock.incoming == old(sock.incoming)[|got|..]
    {
      ghost var u := rxBuffer.Unread();
      assert u + [] == u && sock.incoming[0..] == sock.incoming;
      if BufferFull() {
        rxBuffer.Compact();
      }
      assert |u| <= rxBuffer.end;
      nr, asked := 0, false;
      var size := rxBuffer.Remaining();
      if size > FIX_MAX_MESSAGE_SIZE {
        asked := true;
        nr := rxBuffer.Recv(sock, size - FIX_MAX_MESSAGE_SIZE);
      }
    }

    /** Parses what is buffered and books a message if there is one. */
    method TryParse(keepInMsgSeqNum: bool) returns (ok: bool)
      requires Valid()
      modifies this`rxTimestamp, this`inMsgSeqNum, rxBuffer`start, rxMessage
      ensures Valid()
      ensures var r := FixScan.Parse(old(rxBuffer.Unread()), old(rxMessage.msgSeqNum));
        && (ok <==> r.Parsed?) && r.n <= |old(rxBuffer.Unread())|
        && State().unread == old(rxBuffer.Unread())[r.n..] && State().incoming == sock.incoming
        && State().seqNum == (if ok then r.msg.seqNum else old(rxMessage.msgSeqNum))
        && (ok ==> rxMessage.Shows(rxBuffer, r.msg))
      ensures inMsgSeqNum == if ok && !keepInMsgSeqNum then (old(inMsgSeqNum) + 1) % TWO_64 else old(inMsgSeqNum)
      ensures rxTimestamp == if ok then now else old(rxTimestamp)
    {
      hide FixScan.Parse;
      ghost var start := rxBuffer.start;
      ok := rxMessage.Parse(rxBuffer);
      SliceOfSlice(rxBuffer.data[..], start, rxBuffer.end, rxBuffer.start, rxBuffer.end);
      if ok {
        Count(keepInMsgSeqNum);
      }
    }

    /** The second half of a call, when what was buffered in `st` made no message: read a chunk and parse again. */
    method ReadOn(keepInMsgSeqNum: bool, ghost st: RxState) returns (ret: int, ghost call: Call)
      requires Valid()
      requires var r := FixScan.Parse(st.unread, st.seqNum);
        r.NoMessage? && State() == st.(unread := st.unread[r.n..])
      modifies this`rxTimestamp, this`inMsgSeqNum, rxBuffer, rxBuffer.data, rxMessage, sock
      ensures Valid()
      ensures RecvStep(st, call) && call.after == State() && ret == call.ret
      ensures call.msg.Some? <==> ret == 1
      ensures ret == 1 ==> rxMessage.Shows(rxBuffer, call.msg.value)
      ensures inMsgSeqNum == if ret == 1 && !keepInMsgSeqNum then (old(inMsgSeqNum) + 1) % TWO_64 else old(inMsgSeqNum)
      ensures rxTimestamp == if ret == 1 then now else old(rxTimestamp)
    {
      hide FixScan.Parse, FixMessage.Shows, RecvStep, AfterRead, Delivers, HasRoom;
      var nr, asked := Fill();
      ghost var got := if nr > 0 then st.incoming[..nr] else [];
      if asked && nr <= 0 {
        ReadFails(st, State());
        return -1, Call(true, [], -1, None, State());
      }
      ghost var v := rxBuffer.Unread();
      ghost var r2 := FixScan.Parse(v, st.seqNum);
      assert |v| + FIX_MAX_MESSAGE_SIZE <= RECV_BUFFER_SIZE;
      var ok := TryParse(keepInMsgSeqNum);
      DeliversAfterRead(st, asked, got, State());
      if ok {
        return 1, Call(asked, got, 1, Some(r2.msg), State());
      }
      return 0, Call(asked, got, 0, None, State());
    }

    method Recv(keepInMsgSeqNum: bool) returns (ret: int, ghost call: Call)
      requires Valid()
      modifies this`rxTimestamp, this`inMsgSeqNum, rxBuffer, rxBuffer.data, rxMessage, sock
      ensures Valid()
      ensures RecvStep(old(State()), call) && call.after == State() && ret == call.ret
      ensures call.msg.Some? <==> ret == 1
      ensures ret == 1 ==> rxMessage.Shows(rxBuffer, call.msg.value)
      ensures inMsgSeqNum == if ret == 1 && !keepInMsgSeqNum then (old(inMsgSeqNum) + 1) % TWO_64 else old(inMsgSeqNum)
      ensures rxTimestamp == if ret == 1 then now else old(rxTimestamp)
    {
      hide FixScan.Parse, FixMessage.Shows, RecvStep, AfterRead, Delivers, HasRoom;
      ghost var st := State();
      var ok := TryParse(keepInMsgSeqNum);
      if ok {
        DeliversAtOnce(st, State());
        return 1, Call(false, [], 1, Some(FixScan.Parse(st.unread, st.seqNum).msg), State());
      }
      ret, call := ReadOn(keepInMsgSeqNum, st);
    }
  }

  lemma DeliversAtOnce(st: RxState, after: RxState)
    requires var r := Parse(st.unread, st.seqNum);
      r.Parsed? && after == RxState(st.unread[r.n..], r.msg.seqNum, st.incoming)
    ensures RecvStep(st, Call(false, [], 1, Some(Parse(st.unread, st.seqNum).msg), after))
  {
    hide Parse;
  }

  lemma ReadFails(st: RxState, after: RxState)
    requires var r := Parse(st.unread, st.seqNum);
      r.NoMessage? && HasRoom(st.unread[r.n..]) && after == st.(unread := st.unread[r.n..])
    ensures RecvStep(st, Call(true, [], -1, None, after))
  {
    hide Parse;
  }

  lemma DeliversAfterRead(st: RxState, asked: bool, got: seq<byte>, after: RxState)
    requires got <= st.incoming
    requires var r := Parse(st.unread, st.seqNum);
      && r.NoMessage? && (asked <==> HasRoom(st.unread[r.n..])) && (asked <==> got != [])
      && |st.unread[r.n..]| + |got| + FIX_MAX_MESSAGE_SIZE <= RECV_BUFFER_SIZE
      && var v := st.unread[r.n..] + got; var r2 := Parse(v, st.seqNum);
        after == RxState(v[r2.n..], if r2.Parsed? then r2.msg.seqNum else st.seqNum, st.incoming[|got|..])
    ensures var r2 := Parse(st.unread[Parse(st.unread, st.seqNum).n..] + got, st.seqNum);
      RecvStep(st, if r2.Parsed? then Call(asked, got, 1, Some(r2.msg), after) else Call(asked, got, 0, None, after))
  {
    hide Parse;
  }

  // ---- a stream of frames

  /** A message whose frame the receive buffer can always take in. */
  predicate Deliverable(m: OutMessage) {
    Admissible(m) && |Frame(m)| + FIX_MAX_MESSAGE_SIZE <= RECV_BUFFER_SIZE
  }

  function Stream(ms: seq<OutMessage>): seq<byte> {
    if ms == [] then [] else Frame(ms[0]) + Stream(ms[1..])
  }

  /** What is buffered and what is still to come make up exactly the frames of `ms`. */
  ghost predicate Carries(st: RxState, ms: seq<OutMessage>) {
    && (forall m :: m in ms ==> Deliverable(m))
    && st.unread + st.incoming == Stream(ms)
  }

  /** Parsing a prefix of the stream returns the first message as soon as its frame is complete, never before. */
  lemma ParseStream(u: seq<byte>, later: seq<byte>, ms: seq<OutMessage>, seqNum: int)
    requires (forall m :: m in ms ==> Deliverable(m)) && u + later == Stream(ms)
    ensures ms != [] && |Frame(ms[0])| <= |u| ==>
      && Parse(u, seqNum) == Parsed(Received(ms[0]), |Frame(ms[0])|)
      && u[|Frame(ms[0])|..] + later == Stream(ms[1..])
    ensures ms == [] || |u| < |Frame(ms[0])| ==> Parse(u, seqNum) == NoMessage(0) && HasRoom(u)
  {
    hide Parse, Received, WellFormed, PlainTags, Frame;
    if ms == [] {
      ParseStep(u, seqNum);
    } else {
      var f, rest := Frame(ms[0]), Stream(ms[1..]);
      assert ms[0] in ms;
      assert forall i :: 0 <= i < |u| ==> u[i] == (f + rest)[i];
      if |u| < |f| {
        assert u <= f;
        PartialFrame(ms[0], u, seqNum);
      } else {
        var t := u[|f|..];
        assert u == f + t;
        RoundTrip(ms[0], t, seqNum);
        assert (f + rest)[|f|..] == rest && (u + later)[|f|..] == t + later;
      }
    }
  }

  /** Whatever chunk a call gets: it returns the next message of the stream or leaves the stream as it was. */
  lemma RecvKeepsStream(st: RxState, c: Call, ms: seq<OutMessage>)
    requires Carries(st, ms) && RecvStep(st, c)
    ensures c.ret == 1 ==> ms != [] && c.msg == Some(Received(ms[0])) && Carries(c.after, ms[1..])
    ensures c.ret != 1 ==> c.asked && c.msg == None && Carries(c.after, ms) && HasRoom(c.after.unread)
  {
    hide Parse, Received, Stream, Frame, Deliverable;
    var u, inc := st.unread, st.incoming;
    ParseStream(u, inc, ms, st.seqNum);
    if ms == [] || |u| < |Frame(ms[0])| {
      assert u[0..] == u;
      var v := u + c.got;
      assert inc == c.got + inc[|c.got|..];
      assert v + inc[|c.got|..] == u + inc;
      ParseStream(v, inc[|c.got|..], ms, st.seqNum);
      assert v[0..] == v;
    }
  }

  /** A call that finds a whole frame buffered returns it without reading. */
  lemma NextCallDelivers(st: RxState, c: Call, ms: seq<OutMessage>)
    requires Carries(st, ms) && RecvStep(st, c) && ms != [] && |Frame(ms[0])| <= |st.unread|
    ensures c.ret == 1 && c.msg == Some(Received(ms[0])) && !c.asked
  {
    hide Received, Parse, Frame, Stream;
    ParseStream(st.unread, st.incoming, ms, st.seqNum);
  }

  ghost predicate IsRun(st: RxState, calls: seq<Call>)
    decreases calls
  {
    calls == [] || (RecvStep(st, calls[0]) && IsRun(calls[0].after, calls[1..]))
  }

  function Final(st: RxState, calls: seq<Call>): RxState
    decreases calls
  {
    if calls == [] then st else Final(calls[0].after, calls[1..])
  }

  /** The messages the calls of a run returned, in order. */
  function Delivered(calls: seq<Call>): seq<Message> {
    if calls == [] then []
    else (if calls[0].ret == 1 && calls[0].msg.Some? then [calls[0].msg.value] else []) + Delivered(calls[1..])
  }

  function ReceivedAll(ms: seq<OutMessage>): seq<Message> {
    if ms == [] then [] else [Received(ms[0])] + ReceivedAll(ms[1..])
  }

  /** Over every run and every slicing into chunks: the messages in order, none lost, repeated or merged. */
  lemma {:induction false} Reassembly(st: RxState, calls: seq<Call>, ms: seq<OutMessage>) returns (k: nat)
    requires Carries(st, ms) && IsRun(st, calls)
    ensures k == |Delivered(calls)| <= |ms|
    ensures Delivered(calls) == ReceivedAll(ms[..k])
    ensures Carries(Final(st, calls), ms[k..])
    decreases calls
  {
    hide Carries, RecvStep, Received;
    if calls == [] {
      assert ms[0..] == ms;
      return 0;
    }
    RecvKeepsStream(st, calls[0], ms);
    if calls[0].ret == 1 {
      k := Reassembly(calls[0].after, calls[1..], ms[1..]);
      k := k + 1;
      assert ms[..k][1..] == ms[1..][..k - 1];
      assert ms[1..][k - 1..] == ms[k..];
    } else {
      k := Reassembly(calls[0].after, calls[1..], ms);
    }
  }

  /** Once every byte has arrived, each further call returns one message until none is left. */
  lemma {:induction false} AllDelivered(st: RxState, calls: seq<Call>, ms: seq<OutMessage>)
    requires Carries(st, ms) && IsRun(st, calls) && st.incoming == [] && |calls| == |ms|
    ensures Delivered(calls) == ReceivedAll(ms) && Final(st, calls).unread == []
    decreases calls
  {
    hide Received, Parse, Frame, Deliverable;
    if calls == [] {
    } else {
      assert |Frame(ms[0])| <= |st.unread| by { assert st.unread + [] == st.unread; }
      NextCallDelivers(st, calls[0], ms);
      RecvKeepsStream(st, calls[0], ms);
      AllDelivered(calls[0].after, calls[1..], ms[1..]);
    }
  }

  /** A call on a stream returns a message, takes bytes from the network, or reports that reading failed. */
  lemma RecvProgress(st: RxState, c: Call, ms: seq<OutMessage>)
    requires Carries(st, ms) && RecvStep(st, c) && c.ret != -1
    ensures |c.after.incoming| + (if c.ret == 1 then 0 else 1) <= |st.incoming|
    ensures c.ret == 1 <==> c.msg.Some?
  {
    hide Parse, Received, Stream, Frame, Deliverable, Carries;
    RecvKeepsStream(st, c, ms);
  }

  /** Reading fails only when the network holds nothing. */
  ghost predicate Prompt(st: RxState, calls: seq<Call>)
    decreases calls
  {
    calls == [] || ((calls[0].ret == -1 ==> st.incoming == []) && Prompt(calls[0].after, calls[1..]))
  }

  lemma FailsWhenDone(st: RxState, c: Call, ms: seq<OutMessage>)
    requires Carries(st, ms) && RecvStep(st, c) && c.ret == -1 && st.incoming == []
    ensures ms == [] && c.after.incoming == []
  {
    hide Parse, Received, Frame, Deliverable;
    assert st.unread + [] == st.unread;
    if ms != [] {
      NextCallDelivers(st, c, ms);
    }
  }

  /** However the bytes are chunked, one call per message and per byte is enough to get every message. */
  lemma {:induction false} EverythingArrives(st: RxState, calls: seq<Call>, ms: seq<OutMessage>)
    requires Carries(st, ms) && IsRun(st, calls) && Prompt(st, calls)
    requires |calls| >= |ms| + |st.incoming|
    ensures Delivered(calls) == ReceivedAll(ms)
    decreases calls
  {
    hide Carries, RecvStep, Received;
    if calls != [] {
      var c := calls[0];
      RecvKeepsStream(st, c, ms);
      if c.ret == -1 {
        FailsWhenDone(st, c, ms);
        EverythingArrives(c.after, calls[1..], ms);
      } else {
        RecvProgress(st, c, ms);
        EverythingArrives(c.after, calls[1..], if c.ret == 1 then ms[1..] else ms);
      }
    }
  }

  /**
   Without a stream of frames the guarantee ends. A call does nothing at all, not even read, exactly when what
   is buffered makes no message, none of it is garbled, and there is no room for more.
   */
  lemma FullBufferStalls(st: RxState, c: Call)
    requires RecvStep(st, c)
    ensures c.ret == 0 && c.after == st <==> Parse(st.unread, st.seqNum) == NoMessage(0) && !HasRoom(st.unread)
    ensures c.ret == 0 && c.after == st ==> c.msg == None && !c.asked
  {
    hide Parse;
    var u := st.unread;
    assert u[0..] == u && u + [] == u && st.incoming[0..] == st.incoming;
  }

  /** Any unread bytes without an '=' are such bytes. */
  lemma NoEqualsNoMessage(u: seq<byte>, seqNum: int)
    requires forall i :: 0 <= i < |u| ==> u[i] != EQ
    ensures Parse(u, seqNum) == NoMessage(0)
  {
    hide Parse, Try;
    ParseStep(u, seqNum);
    IndexOfUnique(u, EQ, |u|);
    TryOfHead(u, seqNum);
  }

  /** A stalled session stays so, whatever else is in the network. */
  lemma {:induction false} StalledForever(st: RxState, calls: seq<Call>)
    requires IsRun(st, calls) && Parse(st.unread, st.seqNum) == NoMessage(0) && !HasRoom(st.unread)
    ensures Final(st, calls) == st && Delivered(calls) == []
    decreases calls
  {
    hide Parse, RecvStep;
    if calls != [] {
      FullBufferStalls(st, calls[0]);
      StalledForever(calls[0].after, calls[1..]);
    }
  }

  /** A new session whose first read brings as many bytes without an '=' as there is room for is stalled for good. */
  lemma StallsFromStart(z: seq<byte>, later: seq<byte>, calls: seq<Call>) returns (c: Call)
    requires |z| == RECV_BUFFER_SIZE - FIX_MAX_MESSAGE_SIZE && forall i :: 0 <= i < |z| ==> z[i] != EQ
    requires IsRun(RxState(z, 0, later), calls)
    ensures var start := RxState([], 0, z + later);
      && RecvStep(start, c) && c.got == z && c.after == RxState(z, 0, later)
      && IsRun(start, [c] + calls) && Final(start, [c] + calls) == c.after && Delivered([c] + calls) == []
  {
    hide Parse;
    var start := RxState([], 0, z + later);
    c := Call(true, z, 0, None, RxState(z, 0, later));
    ParseStep([], 0);
    NoEqualsNoMessage(z, 0);
    assert z[0..] == z && [] + z == z && (z + later)[|z|..] == later;
    assert ([c] + calls)[0] == c && ([c] + calls)[1..] == calls;
    StalledForever(c.after, calls);
  }

  /** 2816 zeros are such bytes. */
  lemma ZerosStall(later: seq<byte>, calls: seq<Call>) returns (c: Call)
    requires IsRun(RxState(Modp.Zeros(2816), 0, later), calls)
    ensures var start := RxState([], 0, Modp.Zeros(2816) + later);
      IsRun(start, [c] + calls) && Delivered([c] + calls) == []
  {
    hide IsRun, Delivered;
    Modp.ZerosAreZero(2816);
    assert forall i :: 0 <= i < 2816 ==> IsDigit(Modp.Zeros(2816)[i]);
    c := StallsFromStart(Modp.Zeros(2816), later, calls);
  }
}
