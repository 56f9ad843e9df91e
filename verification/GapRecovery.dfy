/**
 What becomes of a gap between two of these engines: the request, its answer and the reaction to the answer,
 each printed, parsed and handled by the other side.
 */
module GapRecovery {
  import opened Options
  import opened Bytes
  import opened Decimal
  import opened Atoi
  import Buffers
  import opened FixTypes
  import opened FixScan
  import opened FixPrint
  import opened FixRoundTrip
  import opened FixSender
  import opened SessionControl
  import opened SessionGate
  import opened SessionWire

  // ---- over the wire

  const MAX_TEXT_LEN := 100

  predicate ShortText(s: seq<byte>) {
    Clean(CString(s)) && |CString(s)| <= MAX_TEXT_LEN
  }

  predicate SafeIdentity(id: Identity) {
    ShortText(id.beginString) && ShortText(id.senderCompId) && ShortText(id.targetCompId)
  }

  /** A log entry whose frame the other side reads back. */
  predicate Carriable(e: Sent) {
    && e.typ != UnknownType && TablesAgree(e.typ) && e.seqNum < TWO_31
    && (forall f :: f in e.fields ==> Receivable(f) && PlainTag(f.tag))
    && |PrintFields(e.fields)| <= 500
  }

  /** The entry as the other side receives it. */
  function Carried(id: Identity, e: Sent, strNow: seq<byte>): Message {
    Received(OnWire(id, e, strNow))
  }

  lemma SmallDigits(n: nat)
    requires n < TWO_31
    ensures |Digits(n)| <= 10
  {
    assert Pow10(10) == 100 * Pow10(8) && Pow10(8) == 100 * Pow10(6) && Pow10(6) == 100 * Pow10(4);
    assert Pow10(4) == 100 * Pow10(2) && Pow10(2) == 100;
    DigitsLength(n, 10);
  }

  lemma BodyFits(id: Identity, e: Sent, strNow: seq<byte>)
    requires SafeIdentity(id) && ShortText(strNow) && Carriable(e)
    ensures |Body(OnWire(id, e, strNow))| <= FIX_MAX_MESSAGE_SIZE
  {
    hide FieldBytes, Digits, PrintFields, CString, Receivable, Clean;
    TypeRoundTrip(e.typ);
    FieldShape(TAG_MSG_TYPE, TypeText(e.typ), []);
    FieldShape(TAG_SENDER_COMP_ID, CString(id.senderCompId), []);
    FieldShape(TAG_TARGET_COMP_ID, CString(id.targetCompId), []);
    FieldShape(TAG_MSG_SEQ_NUM, Digits(e.seqNum), []);
    FieldShape(TAG_SENDING_TIME, CString(strNow), []);
    OneDigit(TAG_MSG_TYPE);
    OneDigit(TAG_SENDER_COMP_ID);
    OneDigit(TAG_TARGET_COMP_ID);
    OneDigit(TAG_MSG_SEQ_NUM);
    OneDigit(TAG_SENDING_TIME);
    SmallDigits(e.seqNum);
  }

  /** The printed entry is parsed as `Carried` says, whatever follows it. */
  lemma CarriedIsParsed(id: Identity, e: Sent, strNow: seq<byte>, tail: seq<byte>, seqNum: int)
    requires SafeIdentity(id) && ShortText(strNow) && Carriable(e)
    ensures var m := OnWire(id, e, strNow); Parse(Frame(m) + tail, seqNum) == Parsed(Carried(id, e, strNow), |Frame(m)|)
  {
    hide Body, Frame, Parse, Received, CString, PrintFields, Clean;
    BodyFits(id, e, strNow);
    var m := OnWire(id, e, strNow);
    assert forall f :: f in m.fields ==> Receivable(f) && Printable(f);
    RoundTrip(m, tail, seqNum);
  }

  // ---- looking up fields

  lemma {:induction false} GetFieldConcat(s: seq<Field>, t: seq<Field>, tag: int)
    ensures GetField(s + t, tag) == if GetField(s, tag).Some? then GetField(s, tag) else GetField(t, tag)
  {
    if s == [] {
      assert s + t == t;
    } else {
      GetFieldConcat(s[1..], t, tag);
      assert (s + t)[1..] == s[1..] + t;
    }
  }

  /** An own field is found behind the three header fields. */
  lemma CarriedField(id: Identity, e: Sent, strNow: seq<byte>, tag: int)
    requires tag != TAG_SENDER_COMP_ID && tag != TAG_TARGET_COMP_ID && tag != TAG_SENDING_TIME
    ensures GetField(Carried(id, e, strNow).fields, tag) == GetField(ReadBacks(e.fields), tag)
  {
    hide TypedField, ReadBacks, CString;
    var h := HeaderReceived(OnWire(id, e, strNow));
    GetFieldConcat(h, ReadBacks(e.fields), tag);
    var h1, h2 := h[1..], h[2..];
    assert h1[1..] == h2 && h2[1..] == [];
    assert GetField(h2, tag).None?;
    assert GetField(h1, tag).None?;
  }

  lemma TwoFields(f: OutField, g: OutField)
    ensures ReadBacks([f, g]) == [ReadBack(f), ReadBack(g)]
    ensures GetField(ReadBacks([f, g]), f.tag) == Some(ReadBack(f))
    ensures g.tag != f.tag ==> GetField(ReadBacks([f, g]), g.tag) == Some(ReadBack(g))
    ensures PrintFields([f, g]) == PrintField(f) + PrintField(g)
  {
    hide TypedField, PrintField;
    assert [f, g][..1] == [f] && [f][..0] == [];
    assert ReadBacks([f]) == [] + [ReadBack(f)] && PrintFields([f]) == [] + PrintField(f);
    var r := [ReadBack(f), ReadBack(g)];
    assert r[1..] == [ReadBack(g)] && r[1..][1..] == [];
  }

  // ---- the three kinds of message the exchange consists of

  function Request(seqNum: nat, bgn: nat): Sent {
    Sent(ResendRequest, seqNum, [IntOut(TAG_BEGIN_SEQ_NO, bgn), IntOut(TAG_END_SEQ_NO, 0)])
  }

  function Answer(bgn: nat): Sent {
    Sent(SequenceReset, bgn, [IntOut(TAG_NEW_SEQ_NO, 1), TextOut(TAG_GAP_FILL_FLAG, Ascii("Y"))])
  }

  function Refusal(seqNum: nat, bgn: nat): Sent {
    Sent(Reject, seqNum, [IntOut(TAG_REF_SEQ_NUM, bgn), TextOut(TAG_TEXT, LowerText(1))])
  }

  lemma IntOutReceivable(tag: nat, n: nat)
    requires tag < 1000 && n < TWO_31
    ensures Receivable(IntOut(tag, n)) && |PrintField(IntOut(tag, n))| <= 15
    ensures TagKind(tag) == IntKind ==> ReadBack(IntOut(tag, n)) == IntField(tag, n)
  {
    hide Digits, TagKind, FieldBytes;
    assert Wrap64(n) == n;
    DigitsClean(n);
    SmallDigits(n);
    ShortDigits(tag);
    FieldShape(tag, Digits(n), []);
    ReadBackSame(IntOut(tag, n));
  }

  predicate VisibleBytes(s: seq<byte>) {
    |s| <= MAX_TEXT_LEN && forall i :: 0 <= i < |s| ==> s[i] > SOH
  }

  /** A text without control characters is sent as it is. */
  lemma VisibleText(tag: nat, s: seq<byte>)
    requires tag < 1000 && VisibleBytes(s)
    ensures CString(s) == s && Receivable(TextOut(tag, s)) && |PrintField(TextOut(tag, s))| <= 110
    ensures TagKind(tag) == StringKind ==> ReadBack(TextOut(tag, s)) == StringField(tag, s)
  {
    hide Digits, TagKind, FieldBytes;
    Buffers.IndexOfUnique(s, NUL, |s|);
    ShortDigits(tag);
    FieldShape(tag, s, []);
    ReadBackSame(TextOut(tag, s));
  }

  lemma PairCarriable(typ: MsgType, seqNum: nat, f: OutField, g: OutField)
    requires typ != UnknownType && TablesAgree(typ) && seqNum < TWO_31
    requires Receivable(f) && PlainTag(f.tag) && |PrintField(f)| <= 200
    requires Receivable(g) && PlainTag(g.tag) && |PrintField(g)| <= 200
    ensures Carriable(Sent(typ, seqNum, [f, g]))
  {
    hide Receivable, PrintField, PrintFields, ReadBacks;
    TwoFields(f, g);
    assert forall h :: h in [f, g] ==> h == f || h == g;
  }

  lemma RequestCarriable(seqNum: nat, bgn: nat)
    requires seqNum < TWO_31 && bgn < TWO_31
    ensures Carriable(Request(seqNum, bgn))
  {
    hide Receivable, PrintField, IntOut, Carriable;
    var f, g := IntOut(TAG_BEGIN_SEQ_NO, bgn), IntOut(TAG_END_SEQ_NO, 0);
    IntOutReceivable(TAG_BEGIN_SEQ_NO, bgn);
    IntOutReceivable(TAG_END_SEQ_NO, 0);
    IntOutTag(TAG_BEGIN_SEQ_NO, bgn);
    IntOutTag(TAG_END_SEQ_NO, 0);
    PairCarriable(ResendRequest, seqNum, f, g);
  }

  lemma IntOutTag(tag: nat, n: nat)
    ensures IntOut(tag, n).tag == tag
  {
  }

  lemma AnswerCarriable(bgn: nat)
    requires bgn < TWO_31
    ensures Carriable(Answer(bgn))
  {
    hide Receivable, PrintField, IntOut, Carriable, ReadBack;
    var f, g := IntOut(TAG_NEW_SEQ_NO, 1), TextOut(TAG_GAP_FILL_FLAG, Ascii("Y"));
    IntOutReceivable(TAG_NEW_SEQ_NO, 1);
    IntOutTag(TAG_NEW_SEQ_NO, 1);
    YesReadBack();
    PairCarriable(SequenceReset, bgn, f, g);
  }

  /** What the peer reads in the request. */
  lemma RequestFields(id: Identity, seqNum: nat, bgn: nat, strNow: seq<byte>)
    requires seqNum < TWO_31 && bgn < TWO_31
    ensures var fs := Carried(id, Request(seqNum, bgn), strNow).fields;
      && GetField(fs, TAG_BEGIN_SEQ_NO) == Some(IntField(TAG_BEGIN_SEQ_NO, bgn))
      && GetField(fs, TAG_END_SEQ_NO) == Some(IntField(TAG_END_SEQ_NO, 0))
  {
    hide Received, ReadBacks, GetField, IntOut, ReadBack, Receivable;
    var e := Request(seqNum, bgn);
    CarriedField(id, e, strNow, TAG_BEGIN_SEQ_NO);
    CarriedField(id, e, strNow, TAG_END_SEQ_NO);
    TwoFields(e.fields[0], e.fields[1]);
    IntOutTag(TAG_BEGIN_SEQ_NO, bgn);
    IntOutTag(TAG_END_SEQ_NO, 0);
    IntOutReceivable(TAG_BEGIN_SEQ_NO, bgn);
    IntOutReceivable(TAG_END_SEQ_NO, 0);
  }

  lemma AnswerList(bgn: nat)
    ensures Answer(bgn).fields == [IntOut(TAG_NEW_SEQ_NO, 1), TextOut(TAG_GAP_FILL_FLAG, Ascii("Y"))]
  {
    hide Ascii, IntOut, TextOut;
  }

  lemma GapFillWithOne(m: Message)
    requires GetField(m.fields, TAG_GAP_FILL_FLAG) == Some(StringField(TAG_GAP_FILL_FLAG, Ascii("Y")))
    requires GetField(m.fields, TAG_NEW_SEQ_NO) == Some(IntField(TAG_NEW_SEQ_NO, 1))
    ensures IsGapFill(m) && NewSeq(m) == Some(1)
  {
    hide GetField, Ascii;
  }

  lemma YesReadBack()
    ensures var g := TextOut(TAG_GAP_FILL_FLAG, Ascii("Y"));
      && g.tag == TAG_GAP_FILL_FLAG && Receivable(g) && |PrintField(g)| <= 110
      && ReadBack(g) == StringField(TAG_GAP_FILL_FLAG, Ascii("Y"))
  {
    hide ReadBack, Receivable, Ascii, PrintField;
    OneChar("Y");
    VisibleText(TAG_GAP_FILL_FLAG, Ascii("Y"));
  }

  lemma TwoFound(f: OutField, g: OutField, x: Field, y: Field)
    requires f.tag != g.tag && ReadBack(f) == x && ReadBack(g) == y
    ensures GetField(ReadBacks([f, g]), f.tag) == Some(x) && GetField(ReadBacks([f, g]), g.tag) == Some(y)
  {
    hide ReadBack, ReadBacks, GetField, PrintFields;
    TwoFields(f, g);
  }

  lemma AnswerReadBack(bgn: nat)
    ensures var fs := ReadBacks(Answer(bgn).fields);
      && GetField(fs, TAG_NEW_SEQ_NO) == Some(IntField(TAG_NEW_SEQ_NO, 1))
      && GetField(fs, TAG_GAP_FILL_FLAG) == Some(StringField(TAG_GAP_FILL_FLAG, Ascii("Y")))
  {
    hide ReadBacks, GetField, IntOut, TextOut, ReadBack, Receivable, Ascii, Answer, PrintField;
    AnswerList(bgn);
    IntOutTag(TAG_NEW_SEQ_NO, 1);
    IntOutReceivable(TAG_NEW_SEQ_NO, 1);
    YesReadBack();
    var y := Ascii("Y");
    TwoFound(IntOut(TAG_NEW_SEQ_NO, 1), TextOut(TAG_GAP_FILL_FLAG, y),
             IntField(TAG_NEW_SEQ_NO, 1), StringField(TAG_GAP_FILL_FLAG, y));
  }

  /** What the requester reads in the answer. */
  lemma AnswerFields(id: Identity, bgn: nat, strNow: seq<byte>)
    requires bgn < TWO_31
    ensures var m := Carried(id, Answer(bgn), strNow); IsGapFill(m) && NewSeq(m) == Some(1)
  {
    hide Carried, ReadBacks, GetField, Ascii, Answer, IsGapFill, NewSeq;
    CarriedField(id, Answer(bgn), strNow, TAG_NEW_SEQ_NO);
    CarriedField(id, Answer(bgn), strNow, TAG_GAP_FILL_FLAG);
    AnswerReadBack(bgn);
    GapFillWithOne(Carried(id, Answer(bgn), strNow));
  }

  // ---- the reactions

  /** A checked message that is too high is dropped, and a resend is asked for from the expected number on. */
  lemma AsksForResend(a: Session, m: Message, rest: seq<Event>)
    requires a.inSeq < TWO_64 && IsChecked(m) && m.typ != SequenceReset && U64(m.seqNum) > Next(a)
    ensures PollMessage(a, m, rest) ==
      Step(a.(outSeq := a.outSeq + 1, sent := a.sent + [Request(a.outSeq, Next(a))]), rest, false)
  {
    hide IntOut, Handle;
    CountUncount(a);
    var c := Counted(a);
    assert !Expected(c, m);
    assert DoUnexpected(c, m, rest) == Step(Uncounted(SendResendRequest(c, Next(a), 0)), rest, 0);
    assert Uncounted(SendResendRequest(c, Next(a), 0)).inSeq == a.inSeq;
  }

  /** The peer answers it with NewSeqNo 1. */
  lemma AnswersWithOne(b: Session, m: Message, bgn: nat, rest: seq<Event>)
    requires b.inSeq < TWO_64 && m.typ == ResendRequest && m.seqNum == Next(b) && bgn < TWO_31
    requires GetField(m.fields, TAG_BEGIN_SEQ_NO) == Some(IntField(TAG_BEGIN_SEQ_NO, bgn))
    requires GetField(m.fields, TAG_END_SEQ_NO) == Some(IntField(TAG_END_SEQ_NO, 0))
    ensures PollMessage(b, m, rest) ==
      Step(b.(inSeq := Next(b), accepted := b.accepted + [Next(b)], sent := b.sent + [Answer(bgn)]), rest, false)
  {
    hide IntOut, TextOut, Ascii, GetField, DoUnexpected;
    CountUncount(b);
    var a := Accept(Counted(b), m);
    assert Expected(Counted(b), m);
    assert [IntOut(TAG_NEW_SEQ_NO, 1)] + [TextOut(TAG_GAP_FILL_FLAG, Ascii("Y"))] == Answer(bgn).fields;
    assert SendSequenceReset(a, bgn, 1, true) == a.(sent := a.sent + [Answer(bgn)]);
    assert Handle(a, m, rest) == Step(SendSequenceReset(a, bgn, 1, true), rest, true);
  }

  /** The requester counts the answer as one message and refuses it. */
  lemma RefusesAnswer(a: Session, m: Message, rest: seq<Event>)
    requires a.inSeq < TWO_64 && m.typ == SequenceReset && m.seqNum == Next(a) && Next(a) >= 1
    requires IsGapFill(m) && NewSeq(m) == Some(1)
    ensures PollMessage(a, m, rest) ==
      Step(a.(inSeq := Next(a), outSeq := a.outSeq + 1, sent := a.sent + [Refusal(a.outSeq, Next(a))]), rest, false)
  {
    hide IntOut, TextOut, GetField, LowerText, Ascii, TextOf, SessionControl.Logout, DoUnexpected, TooLowText;
    CountUncount(a);
    var c := Counted(a);
    assert Admin(c, m, rest) == Handle(c, m, rest) == GapFill(c, m, rest);
    assert GapFill(c, m, rest) == Step(SendReject(c, Next(a), LowerText(1)), rest, true);
  }

  /**
   One exchange over a gap: requester `a` expects n and sees the checked message m with a higher number; its
   request goes through the peer `b`, whose answer comes back. The requester then expects n + 1 and has sent a
   Reject; so the gap from n up to m's number is closed exactly when it was one message wide.
   */
  lemma GapExchange(a: Session, b: Session, m: Message, idA: Identity, idB: Identity,
                    t1: seq<byte>, t2: seq<byte>, tail: seq<byte>,
                    r1: seq<Event>, r2: seq<Event>, r3: seq<Event>)
    requires SafeIdentity(idA) && SafeIdentity(idB) && ShortText(t1) && ShortText(t2)
    requires a.inSeq < TWO_64 && b.inSeq < TWO_64 && 1 <= Next(a) < TWO_31 && a.outSeq < TWO_31
    requires IsChecked(m) && m.typ != SequenceReset && U64(m.seqNum) > Next(a) && Next(b) == a.outSeq
    ensures var n, request, answer := Next(a), Request(a.outSeq, Next(a)), Answer(Next(a));
      var a1 := PollMessage(a, m, r1).s;
      var b1 := PollMessage(b, Carried(idA, request, t1), r2).s;
      var a2 := PollMessage(a1, Carried(idB, answer, t2), r3).s;
      && a1.sent == a.sent + [request] && b1.sent == b.sent + [answer]
      && Parse(Frame(OnWire(idA, request, t1)) + tail, 0) ==
           Parsed(Carried(idA, request, t1), |Frame(OnWire(idA, request, t1))|)
      && Parse(Frame(OnWire(idB, answer, t2)) + tail, 0) ==
           Parsed(Carried(idB, answer, t2), |Frame(OnWire(idB, answer, t2))|)
      && Next(a2) == n + 1 && a2.accepted == a.accepted
      && a2.sent == a.sent + [request, Refusal(a.outSeq + 1, n)]
      && (Next(a2) == U64(m.seqNum) <==> U64(m.seqNum) == n + 1)
  {
    hide PollMessage, Parse, Frame, Received, Carriable, Request, Answer, Refusal, SafeIdentity, ShortText;
    var n := Next(a);
    var request, answer := Request(a.outSeq, n), Answer(n);
    RequestCarriable(a.outSeq, n);
    AnswerCarriable(n);
    CarriedIsParsed(idA, request, t1, tail, 0);
    CarriedIsParsed(idB, answer, t2, tail, 0);
    AsksForResend(a, m, r1);
    var a1 := PollMessage(a, m, r1).s;
    RequestFields(idA, a.outSeq, n, t1);
    CarriedHead(idA, request, t1);
    CarriedHead(idB, answer, t2);
    ExchangeHeads(a.outSeq, n);
    AnswersWithOne(b, Carried(idA, request, t1), n, r2);
    AnswerFields(idB, n, t2);
    RefusesAnswer(a1, Carried(idB, answer, t2), r3);
    assert a.sent + [request] + [Refusal(a.outSeq + 1, n)] == a.sent + [request, Refusal(a.outSeq + 1, n)];
  }

  lemma CarriedHead(id: Identity, e: Sent, strNow: seq<byte>)
    ensures Carried(id, e, strNow).typ == e.typ && Carried(id, e, strNow).seqNum == e.seqNum
  {
    hide ReceivedFields, CString;
  }

  lemma ExchangeHeads(seqNum: nat, bgn: nat)
    ensures Request(seqNum, bgn).typ == ResendRequest && Request(seqNum, bgn).seqNum == seqNum
    ensures Answer(bgn).typ == SequenceReset && Answer(bgn).seqNum == bgn
    ensures Refusal(seqNum, bgn).typ == Reject && Refusal(seqNum, bgn).seqNum == seqNum
  {
  }

  // ---- a peer that keeps sending

  lemma LowerTextVisible()
    ensures VisibleBytes(LowerText(1))
  {
    hide Ascii;
    LowerVisible();
    assert |Digits(1)| == 1;
  }

  lemma RefusalCarriable(seqNum: nat, bgn: nat)
    requires seqNum < TWO_31 && bgn < TWO_31
    ensures Carriable(Refusal(seqNum, bgn))
  {
    hide Receivable, PrintField, IntOut, LowerText, Carriable;
    IntOutReceivable(TAG_REF_SEQ_NUM, bgn);
    IntOutTag(TAG_REF_SEQ_NUM, bgn);
    LowerTextVisible();
    VisibleText(TAG_TEXT, LowerText(1));
    PairCarriable(Reject, seqNum, IntOut(TAG_REF_SEQ_NUM, bgn), TextOut(TAG_TEXT, LowerText(1)));
  }

  /** Requester and peer. */
  datatype Engines = Engines(a: Session, b: Session)

  /** The peer's next message of its own, and the times the messages of the round are stamped with. */
  datatype Turn = Turn(typ: MsgType, fields: seq<OutField>, t0: seq<byte>, t1: seq<byte>, t2: seq<byte>, t3: seq<byte>)

  /** Any message that can be read back, but for the one kind that moves numbers itself. */
  predicate TurnOk(x: Turn) {
    && x.typ != SequenceReset && Carriable(Sent(x.typ, 0, x.fields))
    && ShortText(x.t0) && ShortText(x.t1) && ShortText(x.t2) && ShortText(x.t3)
  }

  /** The receiver judges it by its number. */
  predicate Checked(x: Turn) {
    IsChecked(Message(x.typ, [], 0, []))
  }

  function Newest(log: seq<Sent>): Sent {
    if log == [] then Request(0, 0) else log[|log| - 1]
  }

  /** What `to` makes of the bytes printed for an entry of the other side's log. */
  function Deliver(to: Session, id: Identity, e: Sent, strNow: seq<byte>): Session {
    match Parse(Frame(OnWire(id, e, strNow)), 0)
    case Parsed(m, _) => PollMessage(to, m, []).s
    case NoMessage(_) => to
  }

  /** The requester has just sent something: the answer to it, and what follows from that. */
  function Exchange(p: Engines, idA: Identity, idB: Identity, x: Turn): Engines
  {
    var b1 := Deliver(p.b, idA, Newest(p.a.sent), x.t1);
    var a2 := Deliver(p.a, idB, Newest(b1.sent), x.t2);
    Engines(a2, Deliver(b1, idA, Newest(a2.sent), x.t3))
  }

  /** One message of the peer, and the exchange when the requester reacts to it. */
  function RoundOf(p: Engines, idA: Identity, idB: Identity, x: Turn): Engines
  {
    var b := Send(p.b, x.typ, x.fields);
    var a := Deliver(p.a, idB, Newest(b.sent), x.t0);
    if a.sent == p.a.sent then Engines(a, b) else Exchange(Engines(a, b), idA, idB, x)
  }

  /** The peer is `d` messages ahead of what the requester expects; the other direction is in sequence. */
  ghost predicate Gapped(p: Engines, d: nat) {
    && p.a.inSeq < TWO_64 && p.b.inSeq < TWO_64 && 1 <= Next(p.a)
    && p.b.outSeq == Next(p.a) + d && Next(p.b) == p.a.outSeq
  }

  /** The newest entry arrives as it was sent. */
  lemma NewestArrives(to: Session, log: seq<Sent>, e: Sent, id: Identity, strNow: seq<byte>)
    requires SafeIdentity(id) && ShortText(strNow) && Carriable(e)
    ensures var m := Carried(id, e, strNow);
      && m.typ == e.typ && m.seqNum == e.seqNum
      && Deliver(to, id, Newest(log + [e]), strNow) == PollMessage(to, m, []).s
  {
    hide PollMessage, Parse, Frame, OnWire, Carried, Carriable, SafeIdentity, ShortText;
    CarriedHead(id, e, strNow);
    CarriedIsParsed(id, e, strNow, [], 0);
    var u := Frame(OnWire(id, e, strNow));
    assert u + [] == u;
  }

  lemma CarriableAt(x: Turn, seqNum: nat)
    requires TurnOk(x) && seqNum < TWO_31
    ensures Carriable(Sent(x.typ, seqNum, x.fields))
  {
    hide Receivable, PrintFields;
  }

  lemma PassedOn(s: Session, m: Message)
    requires !IsChecked(m)
    ensures PollMessage(s, m, []).s == Counted(s)
  {
  }

  /** The peer's message is taken unseen, or draws a request. */
  lemma PeerMessage(a: Session, log: seq<Sent>, x: Turn, seqNum: nat, idB: Identity)
    requires SafeIdentity(idB) && TurnOk(x) && a.inSeq < TWO_64 && Next(a) < seqNum < TWO_31
    ensures Deliver(a, idB, Newest(log + [Sent(x.typ, seqNum, x.fields)]), x.t0) ==
      if Checked(x) then Said(a, Request(a.outSeq, Next(a))) else Counted(a)
  {
    hide PollMessage, Carried, Request, Newest, Deliver, Carriable, SafeIdentity, ShortText;
    var e := Sent(x.typ, seqNum, x.fields);
    CarriableAt(x, seqNum);
    NewestArrives(a, log, e, idB, x.t0);
    var m := Carried(idB, e, x.t0);
    if IsChecked(m) {
      AsksForResend(a, m, []);
    } else {
      PassedOn(a, m);
    }
  }

  /** The request draws the answer. */
  lemma DrawsAnswer(b: Session, log: seq<Sent>, seqNum: nat, n: nat, idA: Identity, strNow: seq<byte>)
    requires SafeIdentity(idA) && ShortText(strNow)
    requires b.inSeq < TWO_64 && seqNum == Next(b) && seqNum < TWO_31 && n < TWO_31
    ensures Deliver(b, idA, Newest(log + [Request(seqNum, n)]), strNow) ==
      b.(inSeq := Next(b), accepted := b.accepted + [Next(b)], sent := b.sent + [Answer(n)])
  {
    hide PollMessage, Carried, Request, Answer, Newest, GetField, Deliver, Carriable, SafeIdentity, ShortText;
    ExchangeHeads(seqNum, n);
    RequestCarriable(seqNum, n);
    NewestArrives(b, log, Request(seqNum, n), idA, strNow);
    RequestFields(idA, seqNum, n, strNow);
    AnswersWithOne(b, Carried(idA, Request(seqNum, n), strNow), n, []);
  }

  /** The answer draws a refusal. */
  lemma DrawsRefusal(a: Session, log: seq<Sent>, idB: Identity, strNow: seq<byte>)
    requires SafeIdentity(idB) && ShortText(strNow) && a.inSeq < TWO_64 && 1 <= Next(a) < TWO_31
    ensures var n := Next(a);
      Deliver(a, idB, Newest(log + [Answer(n)]), strNow) ==
        a.(inSeq := n, outSeq := a.outSeq + 1, sent := a.sent + [Refusal(a.outSeq, n)])
  {
    hide PollMessage, Carried, Answer, Refusal, Newest, IsGapFill, NewSeq, Deliver, Carriable, SafeIdentity, ShortText;
    var n := Next(a);
    ExchangeHeads(a.outSeq, n);
    AnswerCarriable(n);
    NewestArrives(a, log, Answer(n), idB, strNow);
    AnswerFields(idB, n, strNow);
    RefusesAnswer(a, Carried(idB, Answer(n), strNow), []);
  }

  /** The peer hands the refusal on. */
  lemma RefusalPassed(b: Session, log: seq<Sent>, seqNum: nat, n: nat, idA: Identity, strNow: seq<byte>)
    requires SafeIdentity(idA) && ShortText(strNow) && seqNum < TWO_31 && n < TWO_31
    ensures Deliver(b, idA, Newest(log + [Refusal(seqNum, n)]), strNow) == Counted(b)
  {
    hide PollMessage, Carried, Refusal, Newest, Deliver, Carriable, SafeIdentity, ShortText;
    ExchangeHeads(seqNum, n);
    RefusalCarriable(seqNum, n);
    NewestArrives(b, log, Refusal(seqNum, n), idA, strNow);
    PassedOn(b, Carried(idA, Refusal(seqNum, n), strNow));
  }

  function Said(s: Session, e: Sent): Session {
    s.(outSeq := s.outSeq + 1, sent := s.sent + [e])
  }

  lemma SaidIsSent(s: Session, e: Sent)
    ensures Said(s, e).sent != s.sent
  {
    assert |Said(s, e).sent| == |s.sent| + 1;
  }

  /** What follows from a request, up to the refusal. */
  lemma ExchangeSteps(p: Engines, log: seq<Sent>, idA: Identity, idB: Identity, x: Turn)
    requires SafeIdentity(idA) && SafeIdentity(idB) && TurnOk(x)
    requires p.a.inSeq < TWO_64 && p.b.inSeq < TWO_64 && 1 <= Next(p.a) < TWO_31
    requires Next(p.b) + 1 == p.a.outSeq < TWO_31 && p.a.sent == log + [Request(Next(p.b), Next(p.a))]
    ensures var p' := Exchange(p, idA, idB, x);
      && p'.a.inSeq == Next(p.a) && p'.a.outSeq == p.a.outSeq + 1 && p'.a.accepted == p.a.accepted
      && p'.b.inSeq == Succ(Next(p.b)) && p'.b.outSeq == p.b.outSeq
  {
    hide Deliver, Request, Answer, Refusal, Newest, ShortText, SafeIdentity, Carriable;
    var n, b := Next(p.a), p.b;
    DrawsAnswer(b, log, Next(b), n, idA, x.t1);
    DrawsRefusal(p.a, b.sent, idB, x.t2);
    var b1 := b.(inSeq := Next(b), accepted := b.accepted + [Next(b)], sent := b.sent + [Answer(n)]);
    RefusalPassed(b1, p.a.sent, p.a.outSeq, n, idA, x.t3);
  }

  /** The peer's message, and whether the exchange follows. */
  lemma RoundStarts(p: Engines, idA: Identity, idB: Identity, x: Turn)
    requires SafeIdentity(idB) && TurnOk(x) && p.a.inSeq < TWO_64 && Next(p.a) < p.b.outSeq < TWO_31
    ensures var b := Send(p.b, x.typ, x.fields);
      RoundOf(p, idA, idB, x) ==
        if Checked(x) then Exchange(Engines(Said(p.a, Request(p.a.outSeq, Next(p.a))), b), idA, idB, x)
        else Engines(Counted(p.a), b)
  {
    hide Deliver, Exchange, Request, Newest, SafeIdentity, TurnOk, Checked, Said;
    PeerMessage(p.a, p.b.sent, x, p.b.outSeq, idB);
    SaidIsSent(p.a, Request(p.a.outSeq, Next(p.a)));
  }

  lemma SuccSmall(n: nat)
    requires n + 1 < TWO_64
    ensures Succ(n) == n + 1
  {
  }

  /** The two sessions after a round: what the requester said, and that the peer counted it. */
  lemma RoundSteps(p: Engines, d: nat, idA: Identity, idB: Identity, x: Turn)
    requires SafeIdentity(idA) && SafeIdentity(idB) && TurnOk(x)
    requires Gapped(p, d) && d >= 1 && p.b.outSeq < TWO_31 && p.a.outSeq + 1 < TWO_31
    ensures var p', k := RoundOf(p, idA, idB, x), if Checked(x) then 2 else 0;
      && p'.a.inSeq == Next(p.a) && p'.a.outSeq == p.a.outSeq + k && p'.a.accepted == p.a.accepted
      && Next(p'.b) == Next(p.b) + k && p'.b.inSeq < TWO_64 && p'.b.outSeq == p.b.outSeq + 1
  {
    hide RoundOf, Exchange, Request, SafeIdentity, TurnOk, Checked, Succ, Counted;
    RoundStarts(p, idA, idB, x);
    CountUncount(p.a);
    SuccSmall(Next(p.b));
    SuccSmall(Next(p.b) + 1);
    if Checked(x) {
      var a := Said(p.a, Request(p.a.outSeq, Next(p.a)));
      ExchangeSteps(Engines(a, Send(p.b, x.typ, x.fields)), p.a.sent, idA, idB, x);
    }
  }

  /** A round leaves the gap as wide as it was: the requester gains one number and loses the one just sent. */
  lemma RoundKeepsGap(p: Engines, d: nat, idA: Identity, idB: Identity, x: Turn)
    requires SafeIdentity(idA) && SafeIdentity(idB) && TurnOk(x)
    requires Gapped(p, d) && d >= 1 && p.b.outSeq < TWO_31 && p.a.outSeq + 1 < TWO_31
    ensures var p' := RoundOf(p, idA, idB, x);
      && Gapped(p', d) && Next(p'.a) == Next(p.a) + 1 && p'.a.accepted == p.a.accepted
      && p'.a.outSeq == p.a.outSeq + if Checked(x) then 2 else 0
  {
    hide RoundOf, TurnOk, SafeIdentity;
    RoundSteps(p, d, idA, idB, x);
  }

  function Rounds(p: Engines, idA: Identity, idB: Identity, xs: seq<Turn>): Engines
    decreases |xs|
  {
    if xs == [] then p else Rounds(RoundOf(p, idA, idB, xs[0]), idA, idB, xs[1..])
  }

  /**
   However often the peer sends a message of its own, checked or not, and both sides run the exchange that
   follows, the gap stays as wide as it was: the requester's expected number rises by one a round, as the
   peer's own does, and the requester accepts nothing.
   */
  lemma {:induction false} GapNeverCloses(p: Engines, d: nat, idA: Identity, idB: Identity, xs: seq<Turn>)
    requires SafeIdentity(idA) && SafeIdentity(idB) && forall i :: 0 <= i < |xs| ==> TurnOk(xs[i])
    requires Gapped(p, d) && d >= 1 && p.b.outSeq + |xs| < TWO_31 && p.a.outSeq + 2 * |xs| < TWO_31
    ensures var p' := Rounds(p, idA, idB, xs);
      Gapped(p', d) && Next(p'.a) == Next(p.a) + |xs| && p'.a.accepted == p.a.accepted
    decreases |xs|
  {
    hide RoundOf, TurnOk, SafeIdentity;
    if xs != [] {
      RoundKeepsGap(p, d, idA, idB, xs[0]);
      assert forall i :: 0 <= i < |xs[1..]| ==> xs[1..][i] == xs[i + 1];
      GapNeverCloses(RoundOf(p, idA, idB, xs[0]), d, idA, idB, xs[1..]);
    }
  }
}
