/** `fix_session_send`: numbering a message, printing it into the transmit buffers, handing it to the socket. */
module FixSender {
  import opened Options
  import opened Bytes
  import opened Buffers
  import opened FixTypes
  import opened FixPrint
  import opened FixRoundTrip
  import opened FixSessions
  import SC = SessionControl

  const FIX_TX_HEAD_BUFFER_SIZE := FIX_MAX_HEAD_LEN
  const FIX_TX_BODY_BUFFER_SIZE := FIX_MAX_BODY_LEN

  /** What a session adds to every message. */
  datatype Identity = Identity(beginString: seq<byte>, senderCompId: seq<byte>, targetCompId: seq<byte>)

  /** An entry of the send log as it is printed. */
  function OnWire(id: Identity, e: SC.Sent, strNow: seq<byte>): OutMessage {
    OutMessage(e.typ, [], id.beginString, id.senderCompId, id.targetCompId, e.seqNum, strNow, e.fields)
  }

  /** The message fits the transmit buffers. */
  predicate FitsTx(m: OutMessage) {
    |Head(m)| <= FIX_TX_HEAD_BUFFER_SIZE && |Body(m)| + |Trailer(m)| <= FIX_TX_BODY_BUFFER_SIZE
  }

  class SendingSession {
    const id: Identity
    const txHeadBuffer: Buffer
    const txBodyBuffer: Buffer
    var outMsgSeqNum: nat
    var now: int
    var txTimestamp: int
    var strNow: seq<byte>
    /** All bytes handed to the socket, and the messages they are the frames of. */
    ghost var wire: seq<byte>
    ghost var log: seq<OutMessage>

    ghost predicate Valid()
      reads this, txHeadBuffer, txBodyBuffer
    {
      && txHeadBuffer != txBodyBuffer && txHeadBuffer.data != txBodyBuffer.data
      && txHeadBuffer.data.Length == FIX_TX_HEAD_BUFFER_SIZE
      && txBodyBuffer.data.Length == FIX_TX_BODY_BUFFER_SIZE
      && wire == Stream(log)
    }

    constructor (id: Identity, outMsgSeqNum: nat, now: int, strNow: seq<byte>)
      ensures Valid() && fresh(txHeadBuffer) && fresh(txBodyBuffer)
      ensures fresh(txHeadBuffer.data) && fresh(txBodyBuffer.data)
      ensures this.id == id && this.outMsgSeqNum == (if outMsgSeqNum > 1 then outMsgSeqNum else 1) && log == []
      ensures this.now == now && txTimestamp == now && this.strNow == strNow
    {
      this.id := id;
      txHeadBuffer := new Buffer(FIX_TX_HEAD_BUFFER_SIZE);
      txBodyBuffer := new Buffer(FIX_TX_BODY_BUFFER_SIZE);
      this.outMsgSeqNum := if outMsgSeqNum > 1 then outMsgSeqNum else 1;
      this.now, txTimestamp, this.strNow := now, now, strNow;
      wire, log := [], [];
    }

    /** `preserved` is the message's own number when the caller asks to keep it. */
    method Send(typ: MsgType, fields: seq<OutField>, preserved: Option<nat>)
      requires Valid() && |CString(strNow)| < 64
      requires var n := if preserved.Some? then preserved.value else outMsgSeqNum;
        var m := OnWire(id, SC.Sent(typ, n, fields), strNow);
        Sendable(m) && FitsTx(m)
      modifies this`outMsgSeqNum, this`txTimestamp, this`wire, this`log
      modifies txHeadBuffer, txHeadBuffer.data, txBodyBuffer, txBodyBuffer.data
      ensures Valid()
      ensures var n := if preserved.Some? then preserved.value else old(outMsgSeqNum);
        log == old(log) + [OnWire(id, SC.Sent(typ, n, fields), strNow)]
      ensures outMsgSeqNum == old(outMsgSeqNum) + if preserved.Some? then 0 else 1
      ensures txTimestamp == now
    {
      hide Sendable, Head, Body, Trailer, Frame, SpeltFrame, Stream, CString;
      var n := outMsgSeqNum;
      if preserved.Some? {
        n := preserved.value;
      } else {
        outMsgSeqNum := outMsgSeqNum + 1;
      }
      var m := OnWire(id, SC.Sent(typ, n, fields), strNow);
      txHeadBuffer.Reset();
      txBodyBuffer.Reset();
      txTimestamp := now;
      MessageUnparse(m, txHeadBuffer, txBodyBuffer);
      StreamSnoc(log, m);
      wire := wire + (txHeadBuffer.Unread() + txBodyBuffer.Unread());
      log := log + [m];
    }
  }

  lemma {:induction false} StreamSnoc(ms: seq<OutMessage>, m: OutMessage)
    ensures Stream(ms + [m]) == Stream(ms) + Frame(m)
  {
    hide Frame;
    if ms == [] {
      assert ms + [m] == [m] && [m][1..] == [];
    } else {
      StreamSnoc(ms[1..], m);
      assert (ms + [m])[1..] == ms[1..] + [m];
    }
  }

  /** What fits the transmit buffers also fits every receive buffer of the protocol, whatever it already holds. */
  lemma SentIsDeliverable(m: OutMessage)
    requires Sendable(m) && PlainTags(m) && FitsTx(m)
    requires m.typ != UnknownType && TablesAgree(m.typ)
    requires Clean(CString(m.beginString)) && Clean(CString(m.senderCompId))
    requires Clean(CString(m.targetCompId)) && Clean(CString(m.strNow))
    requires forall f :: f in m.fields ==> Receivable(f)
    ensures Deliverable(m)
  {
    hide Head, Body, Trailer, Sendable, Receivable, CString;
  }
}
