/**
 Exchanges between two engines over printed and parsed frames: a test request and its answer, a gap behind a
 gap fill and its closing, a message that is too low. Tags are written as numbers here.
 */
module Exchanges {
  import opened Options
  import opened Bytes
  import opened Decimal
  import opened Atoi
  import opened FixTypes
  import opened FixScan
  import opened FixPrint
  import opened FixRoundTrip
  import opened FixSender
  import opened SessionControl
  import opened SessionGate
  import opened SessionWire
  import opened SessionEnd
  import opened GapRecovery
  import KA = KeepAlive

  /** What a side is left with after the newest entry of the other side's log has been delivered to it. */
  function Told(to: Session, from: Session, id: Identity, strNow: seq<byte>): Session {
    Deliver(to, id, Newest(from.sent), strNow)
  }

  // ---- one own field

  lemma OneReadBack(f: OutField)
    ensures GetField(ReadBacks([f]), f.tag) == Some(ReadBack(f))
    ensures forall tag: int :: tag != f.tag ==> GetField(ReadBacks([f]), tag) == None
    ensures PrintFields([f]) == PrintField(f)
  {
    hide TypedField, PrintField;
    assert [f][..0] == [] && ReadBacks([f]) == [] + [ReadBack(f)] && PrintFields([f]) == [] + PrintField(f);
    var r := [ReadBack(f)];
    assert r[1..] == [];
  }

  lemma OneCarriable(typ: MsgType, seqNum: nat, f: OutField)
    requires typ != UnknownType && TablesAgree(typ) && seqNum < TWO_31
    requires Receivable(f) && PlainTag(f.tag) && |PrintField(f)| <= 200
    ensures Carriable(Sent(typ, seqNum, [f]))
  {
    hide Receivable, PrintField, PrintFields, ReadBacks;
    OneReadBack(f);
    assert forall g :: g in [f] ==> g == f;
  }

  /** A message with a TestReqID. */
  function WithId(typ: MsgType, seqNum: nat, text: seq<byte>): Sent {
    Sent(typ, seqNum, [OutField(112, StringValue(text))])
  }

  lemma IdArrives(typ: MsgType, seqNum: nat, text: seq<byte>, id: Identity, strNow: seq<byte>)
    requires typ in {Heartbeat, TestRequest} && seqNum < TWO_31 && VisibleBytes(text)
    ensures Carriable(WithId(typ, seqNum, text))
    ensures GetField(Carried(id, WithId(typ, seqNum, text), strNow).fields, 112) == Some(StringField(112, text))
  {
    hide Receivable, PrintField, Carriable, ReadBack, Received, ReadBacks, GetField;
    VisibleText(112, text);
    var f := TextOut(112, text);
    OneCarriable(typ, seqNum, f);
    OneReadBack(f);
    CarriedField(id, WithId(typ, seqNum, text), strNow, 112);
  }

  // ---- the test request

  /** A Heartbeat in sequence with TestReqID `text` ends the pending request exactly when `text` begins with its id. */
  lemma AnswerExactly(a: Session, text: seq<byte>, id: Identity, strNow: seq<byte>)
    requires SafeIdentity(id) && ShortText(strNow) && VisibleBytes(text) && a.inSeq < TWO_64 && Next(a) < TWO_31
    ensures var t := Deliver(a, id, WithId(Heartbeat, Next(a), text), strNow);
      && t.trPending == (a.trPending && !(a.testReqId <= text))
      && t.inSeq == Next(a) && t.active == a.active && t.sent == a.sent
  {
    hide PollMessage, Carried, Deliver, Carriable, SafeIdentity, ShortText, GetField, WithId, VisibleBytes, Ends;
    var e := WithId(Heartbeat, Next(a), text);
    IdArrives(Heartbeat, Next(a), text, id, strNow);
    IdHead(Heartbeat, Next(a), text);
    EntryArrives(a, e, id, strNow);
    var m := Carried(id, e, strNow);
    NotTooLow(a, m);
    PollGoesOn(a, m, []);
    PollReplies(a, m, []);
    PollNumbers(a, m, []);
    NextGivesIn(PollMessage(a, m, []).s, Next(a));
    assert a.sent + [] == a.sent;
  }

  lemma IdHead(typ: MsgType, seqNum: nat, text: seq<byte>)
    ensures WithId(typ, seqNum, text).typ == typ && WithId(typ, seqNum, text).seqNum == seqNum
  {
  }

  lemma EntryArrives(to: Session, e: Sent, id: Identity, strNow: seq<byte>)
    requires SafeIdentity(id) && ShortText(strNow) && Carriable(e)
    ensures var m := Carried(id, e, strNow);
      m.typ == e.typ && m.seqNum == e.seqNum && Deliver(to, id, e, strNow) == PollMessage(to, m, []).s
  {
    hide PollMessage, Carried, Deliver, Carriable, SafeIdentity, ShortText;
    NewestArrives(to, [], e, id, strNow);
    assert Newest([] + [e]) == e by { NewestOne([], e); }
  }

  lemma NewestOne(log: seq<Sent>, e: Sent)
    ensures Newest(log + [e]) == e
  {
  }

  lemma NotTooLow(s: Session, m: Message)
    requires s.inSeq < TWO_64 && m.seqNum == Next(s)
    ensures !Ends(s, m) && U64(m.seqNum) == Next(s)
  {
    CountUncount(s);
  }

  lemma NextGivesIn(t: Session, n: nat)
    requires t.inSeq < TWO_64 && Next(t) == Succ(n) && n < TWO_64
    ensures t.inSeq == n
  {
  }

  /** A TestRequest in sequence is answered by a Heartbeat with the same id. */
  lemma RequestIsEchoed(b: Session, text: seq<byte>, id: Identity, strNow: seq<byte>)
    requires SafeIdentity(id) && ShortText(strNow) && VisibleBytes(text) && b.inSeq < TWO_64 && Next(b) < TWO_31
    ensures var t := Deliver(b, id, WithId(TestRequest, Next(b), text), strNow);
      && t.sent == b.sent + [WithId(Heartbeat, b.outSeq, text)]
      && t.inSeq == Next(b) && t.active == b.active && t.trPending == b.trPending
  {
    hide PollMessage, Carried, Deliver, Carriable, SafeIdentity, ShortText, GetField, VisibleBytes, Ends;
    var e := WithId(TestRequest, Next(b), text);
    IdArrives(TestRequest, Next(b), text, id, strNow);
    EntryArrives(b, e, id, strNow);
    var m := Carried(id, e, strNow);
    assert |text| <= 127 by { ShortId(text); }
    NotTooLow(b, m);
    PollGoesOn(b, m, []);
    PollReplies(b, m, []);
    PollNumbers(b, m, []);
    NextGivesIn(PollMessage(b, m, []).s, Next(b));
  }

  lemma ShortId(text: seq<byte>)
    requires VisibleBytes(text)
    ensures |text| <= 127
  {
  }

  /** A TestRequest without an id is answered all the same. */
  lemma EmptyRequestAnswered(b: Session, id: Identity, strNow: seq<byte>)
    requires SafeIdentity(id) && ShortText(strNow) && b.inSeq < TWO_64 && Next(b) < TWO_31
    ensures Deliver(b, id, Sent(TestRequest, Next(b), []), strNow).sent ==
      b.sent + [WithId(Heartbeat, b.outSeq, Ascii("TestReqID"))]
  {
    hide PollMessage, Carried, Deliver, SafeIdentity, ShortText, Ends, Ascii;
    var e := Sent(TestRequest, Next(b), []);
    EntryArrives(b, e, id, strNow);
    var m := Carried(id, e, strNow);
    CarriedField(id, e, strNow, 112);
    assert ReadBacks([]) == [];
    NotTooLow(b, m);
    PollReplies(b, m, []);
  }

  /**
   A test request and its answer, between two engines that are in sequence: the request on the wire carries the
   time text as its id, the peer says one thing, a Heartbeat with that id, and with it the request is pending
   no more.
   */
  lemma TestRequestRoundTrip(a: Session, b: Session, now: seq<byte>, idA: Identity, idB: Identity,
                             t1: seq<byte>, t2: seq<byte>)
    requires SafeIdentity(idA) && SafeIdentity(idB) && ShortText(t1) && ShortText(t2) && VisibleBytes(now)
    requires a.inSeq < TWO_64 && b.inSeq < TWO_64 && Next(a) == b.outSeq < TWO_31 && Next(b) == a.outSeq < TWO_31
    ensures var a1 := SendTestRequest(a, now);
      var b1 := Told(b, a1, idA, t1);
      var a2 := Told(a1, b1, idB, t2);
      && a1.trPending && a1.testReqId == now
      && Says(a, a1, idA, "1", a.outSeq, t1, Spelt("112=", now))
      && Says(b, b1, idB, "0", b.outSeq, t2, Spelt("112=", now))
      && !a2.trPending && a2.sent == a1.sent && Next(a2) == Succ(Next(a)) && Next(b1) == Succ(Next(b))
  {
    hide Deliver, Newest, SafeIdentity, ShortText, VisibleBytes, Says, Spelt, CString, Succ;
    var a1 := SendTestRequest(a, now);
    TimeIsWhole(now);
    TestRequestLogged(a, now, idA, t1);
    NewestOne(a.sent, WithId(TestRequest, a.outSeq, now));
    RequestIsEchoed(b, now, idA, t1);
    var b1 := Told(b, a1, idA, t1);
    HeartbeatLogged(b, b1, now, idB, t2);
    NewestOne(b.sent, WithId(Heartbeat, b.outSeq, now));
    AnswerExactly(a1, now, idB, t2);
  }

  lemma TimeIsWhole(now: seq<byte>)
    requires VisibleBytes(now)
    ensures CString(now) == now
  {
    VisibleIsWhole(now);
  }

  lemma TestRequestLogged(a: Session, now: seq<byte>, id: Identity, strNow: seq<byte>)
    requires CString(now) == now
    ensures SendTestRequest(a, now).sent == a.sent + [WithId(TestRequest, a.outSeq, now)]
    ensures Says(a, SendTestRequest(a, now), id, "1", a.outSeq, strNow, Spelt("112=", now))
  {
    hide Says, Spelt, SpeltFields, CString, Digits;
    var after := SendTestRequest(a, now);
    Logged(a, after, WithId(TestRequest, a.outSeq, now), id, strNow);
    ThreeDigitLabel(112, "112=");
    OneSpelt(OutField(112, StringValue(now)), "112=");
  }

  lemma HeartbeatLogged(b: Session, after: Session, text: seq<byte>, id: Identity, strNow: seq<byte>)
    requires after.sent == b.sent + [WithId(Heartbeat, b.outSeq, text)] && CString(text) == text
    ensures Says(b, after, id, "0", b.outSeq, strNow, Spelt("112=", text))
  {
    hide Says, Spelt, SpeltFields, CString, Digits;
    Logged(b, after, WithId(Heartbeat, b.outSeq, text), id, strNow);
    ThreeDigitLabel(112, "112=");
    OneSpelt(OutField(112, StringValue(text)), "112=");
  }

  // ---- what the clocks are told of a message

  function GotOf(s: Session, m: Message): KA.Got {
    KA.Got.Message(Answers(s, m), Reply(s, m) != [])
  }

  /** The clocks' pending flag follows the handler's, and the transmit clock is set exactly when it says something. */
  lemma ClocksFollow(s: Session, c: KA.Clocks, m: Message, script: seq<Event>)
    requires s.inSeq < TWO_64 && !Ends(s, m) && c.trPending == s.trPending
    ensures var h, p := KA.Heard(c, GotOf(s, m)), PollMessage(s, m, script).s;
      && h.trPending == p.trPending && h.rx == c.now
      && h.tx == if p.sent == s.sent then c.tx else c.now
  {
    hide Reply, Answers, Ends, PollMessage;
    PollGoesOn(s, m, script);
    PollReplies(s, m, script);
    assert |s.sent + Reply(s, m)| == |s.sent| + |Reply(s, m)|;
    assert s.sent + [] == s.sent;
  }

  // ---- a message that is too low

  lemma {:induction false} FieldArrives(fs: seq<OutField>, tag: int)
    ensures GetField(ReadBacks(fs), tag).Some? <==> exists i :: 0 <= i < |fs| && fs[i].tag == tag
  {
    hide ReadBack;
    if fs != [] {
      var front, last := fs[..|fs| - 1], fs[|fs| - 1];
      FieldArrives(front, tag);
      GetFieldConcat(ReadBacks(front), [ReadBack(last)], tag);
      OneField(last, tag);
      assert forall i :: 0 <= i < |front| ==> front[i] == fs[i];
    }
  }

  lemma OneField(f: OutField, tag: int)
    ensures GetField([ReadBack(f)], tag).Some? <==> f.tag == tag
  {
    hide TypedField;
    var r := [ReadBack(f)];
    assert r[1..] == [];
  }

  /** It leaves the session active exactly when it carries PossDupFlag. */
  lemma LowMessage(a: Session, e: Sent, id: Identity, strNow: seq<byte>)
    requires SafeIdentity(id) && ShortText(strNow) && Carriable(e) && a.inSeq < TWO_64 && a.active
    requires e.typ in {Heartbeat, TestRequest, ResendRequest} && e.seqNum < Next(a)
    ensures Deliver(a, id, e, strNow).active <==> exists i :: 0 <= i < |e.fields| && e.fields[i].tag == 43
  {
    hide PollMessage, Carried, Deliver, Carriable, SafeIdentity, ShortText, GetField, ReadBacks, TooLow;
    EntryArrives(a, e, id, strNow);
    var m := Carried(id, e, strNow);
    CarriedField(id, e, strNow, 43);
    FieldArrives(e.fields, 43);
    if Ends(a, m) {
      TooLowEnds(a, m, []);
      LogoutEnds(a, Some(TooLow(a, m)), []);
    } else {
      PollGoesOn(a, m, []);
    }
  }

  // ---- a gap behind a gap fill

  function GapFillEntry(seqNum: nat, newSeqNum: nat): Sent {
    Sent(SequenceReset, seqNum, [Number(36, newSeqNum), Words(123, Ascii("Y"))])
  }

  function RangeRequest(seqNum: nat, begin: nat, end: nat): Sent {
    Sent(ResendRequest, seqNum, [Number(7, begin), Number(16, end)])
  }

  lemma TwoArrive(e: Sent, f: OutField, g: OutField, id: Identity, strNow: seq<byte>)
    requires e.fields == [f, g] && f.tag != g.tag && PlainTag(f.tag) && PlainTag(g.tag)
    requires {f.tag, g.tag} !! {TAG_SENDER_COMP_ID, TAG_TARGET_COMP_ID, TAG_SENDING_TIME}
    ensures var fs := Carried(id, e, strNow).fields;
      && GetField(fs, f.tag) == Some(ReadBack(f)) && GetField(fs, g.tag) == Some(ReadBack(g))
      && (43 !in {f.tag, g.tag} ==> GetField(fs, 43) == None)
  {
    hide ReadBack, ReadBacks, GetField, Carried, PrintField, PrintFields;
    TwoFields(f, g);
    CarriedField(id, e, strNow, f.tag);
    CarriedField(id, e, strNow, g.tag);
    CarriedField(id, e, strNow, 43);
    FieldArrives([f, g], 43);
  }

  lemma NumberArrives(tag: nat, n: nat)
    requires tag in {7, 16, 36} && n < TWO_31
    ensures Receivable(Number(tag, n)) && |PrintField(Number(tag, n))| <= 15 && Number(tag, n).tag == tag
    ensures ReadBack(Number(tag, n)) == IntField(tag, n)
  {
    hide Receivable, PrintField, ReadBack, Wrap64;
    assert Number(tag, n) == IntOut(tag, n);
    IntOutReceivable(tag, n);
  }

  lemma GapFillArrives(seqNum: nat, newSeqNum: nat, id: Identity, strNow: seq<byte>)
    requires seqNum < TWO_31 && newSeqNum < TWO_31
    ensures var m := Carried(id, GapFillEntry(seqNum, newSeqNum), strNow);
      Carriable(GapFillEntry(seqNum, newSeqNum)) && Fills(m) && NewNumber(m) == Some(newSeqNum)
  {
    hide Receivable, PrintField, Carriable, ReadBack, GetField, Ascii, Number, Carried;
    var f, g := Number(36, newSeqNum), Words(123, Ascii("Y"));
    NumberArrives(36, newSeqNum);
    YesReadBack();
    PairCarriable(SequenceReset, seqNum, f, g);
    TwoArrive(GapFillEntry(seqNum, newSeqNum), f, g, id, strNow);
    OneChar("Y");
  }

  lemma RangeArrives(seqNum: nat, begin: nat, end: nat, id: Identity, strNow: seq<byte>)
    requires seqNum < TWO_31 && begin < TWO_31 && end < TWO_31
    ensures var m := Carried(id, RangeRequest(seqNum, begin, end), strNow);
      && Carriable(RangeRequest(seqNum, begin, end))
      && GetField(m.fields, 7) == Some(IntField(7, begin)) && GetField(m.fields, 16) == Some(IntField(16, end))
  {
    hide Receivable, PrintField, Carriable, ReadBack, GetField, Number, Carried;
    var f, g := Number(7, begin), Number(16, end);
    NumberArrives(7, begin);
    NumberArrives(16, end);
    PairCarriable(ResendRequest, seqNum, f, g);
    TwoArrive(RangeRequest(seqNum, begin, end), f, g, id, strNow);
  }

  /** A gap fill that is too high draws a request up to its own number. */
  lemma GapFillTooHigh(a: Session, q: nat, number: nat, id: Identity, strNow: seq<byte>)
    requires SafeIdentity(id) && ShortText(strNow) && a.inSeq < TWO_64 && Next(a) < q < TWO_31 && number < TWO_31
    ensures var t := Deliver(a, id, GapFillEntry(q, number), strNow);
      && t.sent == a.sent + [RangeRequest(a.outSeq, Next(a), q)] && Next(t) == Next(a) && t.inSeq < TWO_64
  {
    hide PollMessage, Carried, Deliver, Carriable, SafeIdentity, ShortText, GetField, GapFillEntry, Fills, NewNumber;
    EntryHead(q, number);
    GapFillArrives(q, number, id, strNow);
    EntryArrives(a, GapFillEntry(q, number), id, strNow);
    var m := Carried(id, GapFillEntry(q, number), strNow);
    assert U64(m.seqNum) == q;
    PollReplies(a, m, []);
    PollNumbers(a, m, []);
  }

  lemma EntryHead(q: nat, number: nat)
    ensures GapFillEntry(q, number).typ == SequenceReset && GapFillEntry(q, number).seqNum == q
  {
  }

  /** The peer fills the whole range at once. */
  lemma RangeIsFilled(b: Session, begin: nat, end: nat, id: Identity, strNow: seq<byte>)
    requires SafeIdentity(id) && ShortText(strNow) && b.inSeq < TWO_64 && Next(b) < TWO_31
    requires begin < TWO_31 && end < TWO_31
    ensures var t := Deliver(b, id, RangeRequest(Next(b), begin, end), strNow);
      t.sent == b.sent + [GapFillEntry(begin, end + 1)]
  {
    hide PollMessage, Carried, Deliver, Carriable, SafeIdentity, ShortText, GetField, Ends;
    RangeArrives(Next(b), begin, end, id, strNow);
    EntryArrives(b, RangeRequest(Next(b), begin, end), id, strNow);
    var m := Carried(id, RangeRequest(Next(b), begin, end), strNow);
    NotTooLow(b, m);
    assert U64(begin) == begin && U64(U64(end) + 1) == end + 1;
    PollReplies(b, m, []);
  }

  /** A gap fill in sequence that raises the number. */
  lemma GapFillTaken(a: Session, number: nat, id: Identity, strNow: seq<byte>)
    requires SafeIdentity(id) && ShortText(strNow) && a.inSeq < TWO_64 && Next(a) < number < TWO_31
    ensures var t := Deliver(a, id, GapFillEntry(Next(a), number), strNow);
      Next(t) == number && t.sent == a.sent && t.active == a.active
  {
    hide PollMessage, Carried, Deliver, Carriable, SafeIdentity, ShortText, GetField, GapFillEntry;
    hide Fills, NewNumber, Ends;
    EntryHead(Next(a), number);
    GapFillArrives(Next(a), number, id, strNow);
    EntryArrives(a, GapFillEntry(Next(a), number), id, strNow);
    var m := Carried(id, GapFillEntry(Next(a), number), strNow);
    NotTooLow(a, m);
    PollReplies(a, m, []);
    PollNumbers(a, m, []);
    PollGoesOn(a, m, []);
    assert a.sent + [] == a.sent;
  }

  /**
   A gap that a gap fill reveals is closed by one exchange: the request names the range up to the gap fill's own
   number q, the peer fills it with NewSeqNo q + 1, and that is what is expected next, however wide the gap was.
   */
  lemma GapFillCloses(a: Session, b: Session, q: nat, number: nat, idA: Identity, idB: Identity,
                      t0: seq<byte>, t1: seq<byte>, t2: seq<byte>)
    requires SafeIdentity(idA) && SafeIdentity(idB) && ShortText(t0) && ShortText(t1) && ShortText(t2)
    requires a.inSeq < TWO_64 && b.inSeq < TWO_64 && Next(a) < q && q + 1 < TWO_31 && number < TWO_31
    requires Next(b) == a.outSeq < TWO_31
    ensures var n := Next(a);
      var a1 := Deliver(a, idB, GapFillEntry(q, number), t0);
      var b1 := Told(b, a1, idA, t1);
      var a2 := Told(a1, b1, idB, t2);
      && a1.sent == a.sent + [RangeRequest(a.outSeq, n, q)] && b1.sent == b.sent + [GapFillEntry(n, q + 1)]
      && Next(a2) == q + 1 && a2.sent == a1.sent
  {
    hide Deliver, Newest, SafeIdentity, ShortText, RangeRequest, GapFillEntry;
    var n := Next(a);
    GapFillTooHigh(a, q, number, idB, t0);
    var a1 := Deliver(a, idB, GapFillEntry(q, number), t0);
    NewestOne(a.sent, RangeRequest(a.outSeq, n, q));
    RangeIsFilled(b, n, q, idA, t1);
    NewestOne(b.sent, GapFillEntry(n, q + 1));
    GapFillTaken(a1, q + 1, idB, t2);
  }
}
