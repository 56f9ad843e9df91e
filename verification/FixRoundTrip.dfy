/** The parser undoes the printer, whatever follows the frame; a cut frame is left alone. */
module FixRoundTrip {
  import opened Bytes
  import opened Decimal
  import opened Atoi
  import opened Itoa
  import opened Modp
  import opened Buffers
  import opened FixTypes
  import opened FixScan
  import opened FixMessages
  import opened FixPrint

  predicate Clean(s: seq<byte>) {
    forall i :: 0 <= i < |s| ==> s[i] != SOH
  }

  // ---- one field

  lemma FieldShape(tag: nat, v: seq<byte>, rest: seq<byte>)
    ensures FieldBytes(tag, v) + rest == Digits(tag) + ([EQ] + (v + ([SOH] + rest)))
    ensures |FieldBytes(tag, v)| == |Digits(tag)| + |v| + 2
  {
    hide Digits;
  }

  lemma ValueShape(w: seq<byte>, v: seq<byte>, rest: seq<byte>)
    requires w == v + ([SOH] + rest)
    ensures w[..|v|] == v && w[..|v| + 1] == v + [SOH] && w[|v| + 1..] == rest
  {
  }

  lemma FieldParts(tag: nat, v: seq<byte>, rest: seq<byte>)
    ensures var u, k, n := FieldBytes(tag, v) + rest, |Digits(tag)|, |FieldBytes(tag, v)|;
      && n == k + |v| + 2
      && u[k] == EQ && u == Digits(tag) + ([EQ] + (v + ([SOH] + rest)))
      && u[k + 1..] == v + ([SOH] + rest) && u[k + 1..n] == v + [SOH] && u[k + 1..n - 1] == v
      && u[n..] == rest
  {
    hide Digits, FieldBytes;
    var u, k, w := FieldBytes(tag, v) + rest, |Digits(tag)|, v + ([SOH] + rest);
    FieldShape(tag, v, rest);
    ValueShape(w, v, rest);
    assert u[k + 1..] == w;
    SliceOfSlice(u, k + 1, |u|, k + 1, k + 1 + |v|);
    SliceOfSlice(u, k + 1, |u|, k + 1, k + 2 + |v|);
    SliceOfSlice(u, k + 1, |u|, k + 2 + |v|, |u|);
  }

  /** Scanning what was printed finds the tag, the value and nothing of what follows. */
  lemma ScanPrinted(tag: nat, v: seq<byte>, rest: seq<byte>)
    requires tag < TWO_31 && Clean(v)
    ensures var u, f := FieldBytes(tag, v) + rest, Scanned(tag, |Digits(tag)| + 1, |FieldBytes(tag, v)|);
      && ScanField(u) == f && ScanExpected(u, tag) == f
  {
    var u, k := FieldBytes(tag, v) + rest, |Digits(tag)|;
    FieldParts(tag, v, rest);
    assert forall i :: 0 <= i < k ==> u[i] == Digits(tag)[i];
    IndexOfUnique(u, EQ, k);
    UatoiReadsDigits(tag, [EQ] + (v + ([SOH] + rest)));
    var w := v + ([SOH] + rest);
    assert w[|v|] == SOH && forall i :: 0 <= i < |v| ==> w[i] == v[i];
    IndexOfUnique(w, SOH, |v|);
  }

  /** A field cut anywhere before its end is partial. */
  lemma ScanCut(tag: nat, v: seq<byte>, p: seq<byte>)
    requires tag < TWO_31 && Clean(v)
    requires p <= FieldBytes(tag, v) && |p| < |FieldBytes(tag, v)|
    ensures ScanExpected(p, tag) == Partial
  {
    hide Digits, UatoiOf, FieldBytes;
    var u, k := FieldBytes(tag, v) + [], |Digits(tag)|;
    assert u == FieldBytes(tag, v);
    FieldParts(tag, v, []);
    assert forall i :: 0 <= i < k ==> u[i] == Digits(tag)[i];
    assert forall i :: 0 <= i < |p| ==> p[i] == u[i];
    if |p| <= k {
      IndexOfUnique(p, EQ, |p|);
    } else {
      IndexOfUnique(p, EQ, k);
      assert p == Digits(tag) + p[k..];
      UatoiReadsDigits(tag, p[k..]);
      var w := p[k + 1..];
      assert forall i :: 0 <= i < |w| ==> w[i] == u[k + 1..][i] == v[i];
      IndexOfUnique(w, SOH, |w|);
    }
  }

  // ---- the fields after MsgType

  /** What the receiver stores for a printed field: typed by its tag, not by its sender. */
  function ReadBack(f: OutField): Field {
    TypedField(f.tag, FieldText(f.value) + [SOH])
  }

  function ReadBacks(fs: seq<OutField>): (r: seq<Field>)
    ensures |r| == |fs|
  {
    if fs == [] then [] else ReadBacks(fs[..|fs| - 1]) + [ReadBack(fs[|fs| - 1])]
  }

  /** A tag the receiver keeps as a field. */
  predicate PlainTag(tag: int) {
    tag != 10 && tag != 34 && tag != 789
  }

  /** The number and the fields the receiver has taken from printed fields. */
  datatype Kept = Kept(seqNum: int, fields: seq<Field>)

  /** A field with tag 34 or 789 overwrites the number and is not kept. */
  function KeepOne(k: Kept, f: OutField): Kept {
    if f.tag == 34 || f.tag == 789
    then k.(seqNum := UatoiOf(FieldText(f.value) + [SOH]))
    else k.(fields := k.fields + [ReadBack(f)])
  }

  function Keep(fs: seq<OutField>, k: Kept): Kept {
    if fs == [] then k else KeepOne(Keep(fs[..|fs| - 1], k), fs[|fs| - 1])
  }

  /** Index of the first field with tag 10, where the receiver stops, or |fs|. */
  function FirstCheckSum(fs: seq<OutField>): (k: nat)
    ensures k <= |fs|
    ensures forall j :: 0 <= j < k ==> fs[j].tag != 10
    ensures k < |fs| ==> fs[k].tag == 10
  {
    if fs == [] || fs[0].tag == 10 then 0 else 1 + FirstCheckSum(fs[1..])
  }

  lemma RestOfPlain(tag: nat, v: seq<byte>, tail: seq<byte>, seqNum: int, done: seq<Field>)
    requires tag < TWO_31 && Clean(v) && PlainTag(tag)
    ensures ScanRest(FieldBytes(tag, v) + tail, seqNum, done) ==
      Later(ScanRest(tail, seqNum, done + [TypedField(tag, v + [SOH])]), |FieldBytes(tag, v)|)
  {
    hide FieldBytes, TypedField;
    ScanPrinted(tag, v, tail);
    FieldParts(tag, v, tail);
    PlainKind(tag);
    RestUnrolled(FieldBytes(tag, v) + tail, seqNum, done);
  }

  lemma PlainKind(tag: int)
    ensures TagKind(tag) == ChecksumKind <==> tag == TAG_CHECK_SUM
    ensures TagKind(tag) == SeqNumKind <==> tag == TAG_MSG_SEQ_NUM || tag == TAG_NEXT_EXPECTED_MSG_SEQ_NUM
  {
  }

  lemma RestUnrolled(u: seq<byte>, seqNum: int, done: seq<Field>)
    requires ScanField(u).Scanned?
    ensures var f := ScanField(u);
      && (TagKind(f.tag) == ChecksumKind ==> ScanRest(u, seqNum, done) == Rest(seqNum, done, f.n))
      && (TagKind(f.tag) == SeqNumKind ==>
        ScanRest(u, seqNum, done) == Later(ScanRest(u[f.n..], UatoiOf(u[f.val..f.n]), done), f.n))
      && (TagKind(f.tag) != ChecksumKind && TagKind(f.tag) != SeqNumKind ==>
        ScanRest(u, seqNum, done) ==
          Later(ScanRest(u[f.n..], seqNum, done + [TypedField(f.tag, u[f.val..f.n])]), f.n))
  {
    hide TagKind, ScanField, TypedField, UatoiOf;
  }

  lemma RestOfSeqNum(tag: nat, v: seq<byte>, tail: seq<byte>, seqNum: int, done: seq<Field>)
    requires (tag == TAG_MSG_SEQ_NUM || tag == TAG_NEXT_EXPECTED_MSG_SEQ_NUM) && Clean(v)
    ensures ScanRest(FieldBytes(tag, v) + tail, seqNum, done) ==
      Later(ScanRest(tail, UatoiOf(v + [SOH]), done), |FieldBytes(tag, v)|)
  {
    hide FieldBytes, TypedField, UatoiOf;
    ScanPrinted(tag, v, tail);
    FieldParts(tag, v, tail);
    PlainKind(tag);
    RestUnrolled(FieldBytes(tag, v) + tail, seqNum, done);
  }

  lemma RestOfTrailer(ck: seq<byte>, tail: seq<byte>, seqNum: int, done: seq<Field>)
    requires Clean(ck)
    ensures ScanRest(FieldBytes(TAG_CHECK_SUM, ck) + tail, seqNum, done) ==
      Rest(seqNum, done, |FieldBytes(TAG_CHECK_SUM, ck)|)
  {
    hide FieldBytes, TypedField;
    ScanPrinted(TAG_CHECK_SUM, ck, tail);
    PlainKind(TAG_CHECK_SUM);
    RestUnrolled(FieldBytes(TAG_CHECK_SUM, ck) + tail, seqNum, done);
  }

  /** A field the scanner gets through undisturbed. */
  predicate Receivable(f: OutField) {
    Printable(f) && Clean(FieldText(f.value))
  }

  lemma RestOfOne(f: OutField, tail: seq<byte>, k: Kept)
    requires Receivable(f) && f.tag != TAG_CHECK_SUM
    ensures ScanRest(PrintField(f) + tail, k.seqNum, k.fields) ==
      Later(ScanRest(tail, KeepOne(k, f).seqNum, KeepOne(k, f).fields), |PrintField(f)|)
  {
    hide FieldText, FieldBytes, TypedField, ScanRest, UatoiOf;
    if PlainTag(f.tag) {
      RestOfPlain(f.tag, FieldText(f.value), tail, k.seqNum, k.fields);
    } else {
      RestOfSeqNum(f.tag, FieldText(f.value), tail, k.seqNum, k.fields);
    }
  }

  /** Scanning a printed list of fields keeps what `Keep` says of it. */
  lemma {:induction false} RestOfFields(fs: seq<OutField>, tail: seq<byte>, k: Kept)
    requires forall f :: f in fs ==> Receivable(f) && f.tag != TAG_CHECK_SUM
    ensures ScanRest(PrintFields(fs) + tail, k.seqNum, k.fields) ==
      Later(ScanRest(tail, Keep(fs, k).seqNum, Keep(fs, k).fields), |PrintFields(fs)|)
  {
    hide PrintField, ScanRest, KeepOne, Receivable;
    if fs == [] {
      assert PrintFields(fs) + tail == tail;
    } else {
      var front, f := fs[..|fs| - 1], fs[|fs| - 1];
      assert f in fs;
      var tail1 := PrintField(f) + tail;
      assert PrintFields(fs) + tail == PrintFields(front) + tail1;
      RestOfFields(front, tail1, k);
      RestOfOne(f, tail, Keep(front, k));
    }
  }

  /** With plain tags only, every field is kept. */
  lemma {:induction false} KeepPlain(fs: seq<OutField>, k: Kept)
    requires forall f :: f in fs ==> PlainTag(f.tag)
    ensures Keep(fs, k) == k.(fields := k.fields + ReadBacks(fs))
  {
    hide ReadBack;
    if fs == [] {
      assert k.fields + ReadBacks(fs) == k.fields;
    } else {
      var front, f := fs[..|fs| - 1], fs[|fs| - 1];
      assert f in fs;
      KeepPlain(front, k);
      assert k.fields + ReadBacks(front) + [ReadBack(f)] == k.fields + ReadBacks(fs);
    }
  }

  /** The fields that are kept. */
  function PlainCount(fs: seq<OutField>): nat {
    if fs == [] then 0 else PlainCount(fs[..|fs| - 1]) + if PlainTag(fs[|fs| - 1].tag) then 1 else 0
  }

  lemma {:induction false} KeepCount(fs: seq<OutField>, k: Kept)
    requires forall f :: f in fs ==> f.tag != TAG_CHECK_SUM
    ensures |Keep(fs, k).fields| == |k.fields| + PlainCount(fs)
  {
    hide ReadBack;
    if fs != [] {
      var front, f := fs[..|fs| - 1], fs[|fs| - 1];
      assert f in fs;
      KeepCount(front, k);
    }
  }

  /** A tag that is not plain costs a field. */
  lemma {:induction false} PlainCountFull(fs: seq<OutField>)
    ensures PlainCount(fs) <= |fs|
    ensures PlainCount(fs) == |fs| <==> forall f :: f in fs ==> PlainTag(f.tag)
  {
    if fs != [] {
      var front, f := fs[..|fs| - 1], fs[|fs| - 1];
      assert forall g :: g in fs <==> g in front || g == f;
      PlainCountFull(front);
    }
  }

  // ---- the whole frame

  /** The receiver's field table also takes SenderCompID, TargetCompID and SendingTime. */
  const HEADER_FIELD_NUMBER := 3

  /** A known type, no stray SOH, a length in range. */
  predicate Framed(m: OutMessage) {
    && Sendable(m) && m.typ != UnknownType
    && Clean(CString(m.beginString)) && Clean(CString(m.senderCompId))
    && Clean(CString(m.targetCompId)) && Clean(CString(m.strNow))
    && (forall f :: f in m.fields ==> Receivable(f))
    && |Body(m)| <= FIX_MAX_MESSAGE_SIZE
  }

  /** A message whose frame the parser accepts. */
  predicate WellFormed(m: OutMessage) {
    Framed(m) && TablesAgree(m.typ)
  }

  /** The message's own fields and number mean the same to the receiver. */
  predicate PlainTags(m: OutMessage) {
    (forall f :: f in m.fields ==> PlainTag(f.tag)) && m.msgSeqNum < TWO_31
  }

  predicate Admissible(m: OutMessage) {
    WellFormed(m) && PlainTags(m)
  }

  function HeaderReceived(m: OutMessage): seq<Field> {
    [ TypedField(TAG_SENDER_COMP_ID, CString(m.senderCompId) + [SOH])
    , TypedField(TAG_TARGET_COMP_ID, CString(m.targetCompId) + [SOH])
    , TypedField(TAG_SENDING_TIME, CString(m.strNow) + [SOH])
    ]
  }

  function ReceivedFields(m: OutMessage): seq<Field> {
    HeaderReceived(m) + ReadBacks(m.fields)
  }

  /** The message as it was meant. */
  function Received(m: OutMessage): Message {
    Message(m.typ, CString(m.beginString), m.msgSeqNum, ReceivedFields(m))
  }

  /** What the receiver takes from the fields after MsgType. */
  function KeptOf(m: OutMessage): Kept {
    Keep(m.fields[..FirstCheckSum(m.fields)], Kept(Wrap32(m.msgSeqNum), HeaderReceived(m)))
  }

  /** The message as it is understood. */
  function Understood(m: OutMessage): Message {
    Message(m.typ, CString(m.beginString), KeptOf(m).seqNum, KeptOf(m).fields)
  }

  /** How much of the frame is consumed: a field with tag 10 ends the message. */
  function UnderstoodLength(m: OutMessage): nat {
    var k := FirstCheckSum(m.fields);
    if k == |m.fields| then |Frame(m)|
    else |Head(m)| + |TypeField(m)| + |HeaderFields(m)| + |PrintFields(m.fields[..k + 1])|
  }

  lemma {:induction false} PrintFieldsSplit(fs: seq<OutField>, i: nat)
    requires i <= |fs|
    ensures PrintFields(fs) == PrintFields(fs[..i]) + PrintFields(fs[i..])
  {
    hide PrintField;
    if i == |fs| {
      assert fs[..i] == fs && fs[i..] == [];
    } else {
      var front := fs[..|fs| - 1];
      PrintFieldsSplit(front, i);
      assert front[..i] == fs[..i] && fs[i..][..|fs| - i - 1] == front[i..];
    }
  }

  /** SenderCompID to SendingTime. */
  lemma RestOfHeader(m: OutMessage, tail: seq<byte>, seqNum: int)
    requires WellFormed(m)
    ensures ScanRest(HeaderFields(m) + tail, seqNum, []) ==
      Later(ScanRest(tail, Wrap32(m.msgSeqNum), HeaderReceived(m)), |HeaderFields(m)|)
  {
    hide FieldBytes, TypedField, ScanRest, Body, CString, Receivable, Printable, Digits;
    var a := FieldBytes(TAG_SENDER_COMP_ID, CString(m.senderCompId));
    var b := FieldBytes(TAG_TARGET_COMP_ID, CString(m.targetCompId));
    var c := FieldBytes(TAG_MSG_SEQ_NUM, Digits(m.msgSeqNum));
    var d := FieldBytes(TAG_SENDING_TIME, CString(m.strNow));
    assert HeaderFields(m) + tail == a + (b + (c + (d + tail)));
    var d1 := [TypedField(TAG_SENDER_COMP_ID, CString(m.senderCompId) + [SOH])];
    var d2 := d1 + [TypedField(TAG_TARGET_COMP_ID, CString(m.targetCompId) + [SOH])];
    var d3 := d2 + [TypedField(TAG_SENDING_TIME, CString(m.strNow) + [SOH])];
    RestOfPlain(TAG_SENDER_COMP_ID, CString(m.senderCompId), b + (c + (d + tail)), seqNum, []);
    assert [] + d1 == d1;
    RestOfPlain(TAG_TARGET_COMP_ID, CString(m.targetCompId), c + (d + tail), seqNum, d1);
    DigitsClean(m.msgSeqNum);
    RestOfSeqNum(TAG_MSG_SEQ_NUM, Digits(m.msgSeqNum), d + tail, seqNum, d2);
    UatoiReadsDigits(m.msgSeqNum, [SOH]);
    RestOfPlain(TAG_SENDING_TIME, CString(m.strNow), tail, Wrap32(m.msgSeqNum), d2);
    assert d3 == HeaderReceived(m);
  }

  lemma DigitsClean(n: nat)
    ensures Clean(Digits(n))
  {
  }

  /** The own fields and the trailer, when no own field ends the message. */
  lemma RestToTrailer(fs: seq<OutField>, ck: seq<byte>, tail: seq<byte>, k: Kept)
    requires (forall f :: f in fs ==> Receivable(f) && f.tag != TAG_CHECK_SUM) && Clean(ck)
    ensures var t := FieldBytes(TAG_CHECK_SUM, ck);
      ScanRest(PrintFields(fs) + (t + tail), k.seqNum, k.fields) ==
        Rest(Keep(fs, k).seqNum, Keep(fs, k).fields, |PrintFields(fs)| + |t|)
  {
    hide FieldBytes, ScanRest, PrintFields, Keep, Receivable;
    RestOfFields(fs, FieldBytes(TAG_CHECK_SUM, ck) + tail, k);
    RestOfTrailer(ck, tail, Keep(fs, k).seqNum, Keep(fs, k).fields);
  }

  /** The own fields up to the first with tag 10. */
  lemma RestToFirstCheckSum(fs: seq<OutField>, tail: seq<byte>, k: Kept)
    requires (forall f :: f in fs ==> Receivable(f)) && FirstCheckSum(fs) < |fs|
    ensures var i := FirstCheckSum(fs);
      ScanRest(PrintFields(fs) + tail, k.seqNum, k.fields) ==
        Rest(Keep(fs[..i], k).seqNum, Keep(fs[..i], k).fields, |PrintFields(fs[..i + 1])|)
  {
    hide FieldBytes, FieldText, ScanRest, Keep, PrintFields, Receivable, FirstCheckSum;
    var i := FirstCheckSum(fs);
    var front, f := fs[..i], fs[i];
    assert forall g :: g in front ==> g in fs && g.tag != TAG_CHECK_SUM;
    assert f in fs && Clean(FieldText(f.value)) by { ReceivableText(f); }
    var later := PrintFields(fs[i + 1..]) + tail;
    PrintFieldsSplit(fs, i + 1);
    PrintedOne(fs, i);
    assert PrintFields(fs) + tail == PrintFields(front) + (PrintField(f) + later);
    RestOfFields(front, PrintField(f) + later, k);
    RestOfTrailer(FieldText(f.value), later, Keep(front, k).seqNum, Keep(front, k).fields);
  }

  lemma ReceivableText(f: OutField)
    requires Receivable(f)
    ensures Clean(FieldText(f.value)) && Printable(f)
  {
  }

  lemma PrintedOne(fs: seq<OutField>, i: nat)
    requires i < |fs|
    ensures PrintFields(fs[..i + 1]) == PrintFields(fs[..i]) + PrintField(fs[i])
  {
    hide PrintField;
    assert fs[..i + 1][..i] == fs[..i];
  }

  /** The fields after MsgType, up to and including a trailer with any three characters. */
  lemma RestOfFrame(m: OutMessage, ck: seq<byte>, tail: seq<byte>, seqNum: int)
    requires WellFormed(m) && Clean(ck)
    ensures var t, i := FieldBytes(TAG_CHECK_SUM, ck), FirstCheckSum(m.fields);
      ScanRest(HeaderFields(m) + PrintFields(m.fields) + t + tail, seqNum, []) ==
        Rest(KeptOf(m).seqNum, KeptOf(m).fields, |HeaderFields(m)| +
          if i == |m.fields| then |PrintFields(m.fields)| + |t| else |PrintFields(m.fields[..i + 1])|)
  {
    hide FieldBytes, ScanRest, HeaderFields, PrintFields, CString, Receivable, Body, Sendable, Keep, HeaderReceived;
    var fs, t := PrintFields(m.fields), FieldBytes(TAG_CHECK_SUM, ck);
    var k := Kept(Wrap32(m.msgSeqNum), HeaderReceived(m));
    assert HeaderFields(m) + fs + t + tail == HeaderFields(m) + (fs + (t + tail));
    RestOfHeader(m, fs + (t + tail), seqNum);
    if FirstCheckSum(m.fields) == |m.fields| {
      assert m.fields[..|m.fields|] == m.fields;
      RestToTrailer(m.fields, ck, tail, k);
    } else {
      RestToFirstCheckSum(m.fields, t + tail, k);
    }
  }

  /** A frame with a correct head and MsgType, any `r` in the rest of its body and any trailer text `ck`. */
  function RawHead(bs: seq<byte>, len: nat): seq<byte> {
    FieldBytes(TAG_BEGIN_STRING, bs) + FieldBytes(TAG_BODY_LENGTH, Digits(len))
  }

  function RawBody(typ: MsgType, r: seq<byte>): seq<byte>
    requires typ != UnknownType
  {
    FieldBytes(TAG_MSG_TYPE, TypeText(typ)) + r
  }

  function RawFrame(bs: seq<byte>, typ: MsgType, r: seq<byte>, ck: seq<byte>): seq<byte>
    requires typ != UnknownType
  {
    RawHead(bs, |RawBody(typ, r)|) + RawBody(typ, r) + FieldBytes(TAG_CHECK_SUM, ck)
  }

  predicate RawOk(bs: seq<byte>, typ: MsgType, r: seq<byte>, ck: seq<byte>) {
    && typ != UnknownType && TablesAgree(typ)
    && Clean(bs) && Clean(ck) && |ck| == 3
    && |RawBody(typ, r)| <= FIX_MAX_MESSAGE_SIZE
  }

  lemma ScanLengthPrinted(len: nat, rest: seq<byte>)
    requires 0 < len <= FIX_MAX_MESSAGE_SIZE
    ensures ScanLength(FieldBytes(TAG_BODY_LENGTH, Digits(len)) + rest) ==
      Scanned(len, 2, |FieldBytes(TAG_BODY_LENGTH, Digits(len))|)
  {
    hide FieldBytes, ScanExpected, Digits, UatoiOf;
    ScanPrinted(TAG_BODY_LENGTH, Digits(len), rest);
    FieldParts(TAG_BODY_LENGTH, Digits(len), rest);
    UatoiReadsDigits(len, [SOH]);
    OneDigit(TAG_BODY_LENGTH);
  }

  lemma OneDigit(tag: nat)
    requires tag < 100
    ensures |Digits(tag)| == if tag < 10 then 1 else 2
  {
  }

  lemma ScanTypeOf(u: seq<byte>)
    requires ScanExpected(u, TAG_MSG_TYPE).Scanned?
    ensures var f := ScanExpected(u, TAG_MSG_TYPE);
      && f.val < f.n <= |u|
      && ScanType(u) == if TypeOfText(u[f.val..f.n - 1]) == UnknownType then Garbled(f.n) else f
  {
    hide ScanExpected, TypeOfText;
  }

  /** A printed MsgType field is read as the table says. */
  lemma ScanTypePrinted(typ: MsgType, rest: seq<byte>)
    requires typ != UnknownType
    ensures var u, n := FieldBytes(TAG_MSG_TYPE, TypeText(typ)) + rest, |FieldBytes(TAG_MSG_TYPE, TypeText(typ))|;
      if TablesAgree(typ) then ScanType(u) == Scanned(TAG_MSG_TYPE, 3, n) && TypeOfText(u[3..n - 1]) == typ
      else ScanType(u) == Garbled(n)
  {
    hide FieldBytes, ScanExpected, TypeOfText, TypeText, Digits, ScanType;
    TypeRoundTrip(typ);
    ScanPrinted(TAG_MSG_TYPE, TypeText(typ), rest);
    FieldParts(TAG_MSG_TYPE, TypeText(typ), rest);
    OneDigit(TAG_MSG_TYPE);
    ScanTypeOf(FieldBytes(TAG_MSG_TYPE, TypeText(typ)) + rest);
  }

  lemma HeadOfRaw(bs: seq<byte>, typ: MsgType, len: nat, rest: seq<byte>)
    requires typ != UnknownType && TablesAgree(typ)
    requires Clean(bs) && 0 < len <= FIX_MAX_MESSAGE_SIZE
    ensures var h, t := RawHead(bs, len), FieldBytes(TAG_MSG_TYPE, TypeText(typ));
      ScanHead(h + (t + rest)) == HeadOk(typ, 2, len, |h|, |h| + |t|)
  {
    hide FieldBytes, ScanExpected, ScanLength, ScanType, TypeOfText;
    var b, l := FieldBytes(TAG_BEGIN_STRING, bs), FieldBytes(TAG_BODY_LENGTH, Digits(len));
    var t := FieldBytes(TAG_MSG_TYPE, TypeText(typ));
    var u := RawHead(bs, len) + (t + rest);
    assert u == b + (l + (t + rest));
    ScanPrinted(TAG_BEGIN_STRING, bs, l + (t + rest));
    OneDigit(TAG_BEGIN_STRING);
    assert u[|b|..] == l + (t + rest);
    ScanLengthPrinted(len, t + rest);
    assert u[|b| + |l|..] == t + rest;
    ScanTypePrinted(typ, rest);
  }

  lemma TrailerText(ck: seq<byte>, tail: seq<byte>)
    requires Clean(ck) && |ck| == 3
    ensures var f := FieldBytes(TAG_CHECK_SUM, ck);
      && |f| == 7 && (f + tail)[3..7] == ck + [SOH]
      && ScanExpected(f + tail, TAG_CHECK_SUM) == Scanned(TAG_CHECK_SUM, 3, 7)
  {
    hide FieldBytes, ScanExpected;
    OneDigit(TAG_CHECK_SUM);
    ScanPrinted(TAG_CHECK_SUM, ck, tail);
    FieldParts(TAG_CHECK_SUM, ck, tail);
  }

  lemma AfterPrefix(b: seq<byte>, w: seq<byte>)
    requires |w| >= 7
    ensures (b + w)[|b|..] == w && (b + w)[0..|b|] == b && (b + w)[|b| + 3..|b| + 7] == w[3..7]
  {
    assert (b + w)[|b| + 3..|b| + 7] == (b + w)[|b|..][3..7];
  }

  lemma TrailerAfter(b: seq<byte>, w: seq<byte>, v: seq<byte>)
    requires 2 < |b| && |w| >= 7 && w[3..7] == v && ScanExpected(w, TAG_CHECK_SUM) == Scanned(TAG_CHECK_SUM, 3, 7)
    ensures ScanTrailer(b + w, 2, |b|) ==
      if UatoiOf(v) == ByteSum(b) % 256 then TrailerGood else TrailerBad(|b| + 7)
  {
    hide ScanExpected, UatoiOf, ByteSum, ScanTrailer;
    AfterPrefix(b, w);
    TrailerCases(b + w, 2, |b|);
  }

  lemma TrailerOfRaw(b: seq<byte>, ck: seq<byte>, tail: seq<byte>)
    requires Clean(ck) && |ck| == 3 && 2 < |b|
    ensures var f := FieldBytes(TAG_CHECK_SUM, ck);
      && |f| == 7
      && ScanTrailer(b + f + tail, 2, |b|) ==
         if UatoiOf(ck + [SOH]) == ByteSum(b) % 256 then TrailerGood else TrailerBad(|b| + 7)
  {
    hide FieldBytes, ScanExpected, UatoiOf, ByteSum, ScanTrailer, Clean;
    var f := FieldBytes(TAG_CHECK_SUM, ck);
    TrailerText(ck, tail);
    Assoc(b, f, tail);
    TrailerAfter(b, f + tail, ck + [SOH]);
  }

  lemma Assoc(a: seq<byte>, b: seq<byte>, c: seq<byte>)
    ensures a + b + c == a + (b + c)
  {
  }

  /** The groupings of such a frame that the passes over it see. */
  lemma RawParts(bs: seq<byte>, typ: MsgType, r: seq<byte>, ck: seq<byte>, tail: seq<byte>)
    requires typ != UnknownType
    ensures var body, t, f := RawBody(typ, r), FieldBytes(TAG_MSG_TYPE, TypeText(typ)), FieldBytes(TAG_CHECK_SUM, ck);
      var h, u := RawHead(bs, |body|), RawFrame(bs, typ, r, ck) + tail;
      && u == h + (t + (r + f + tail)) && u == h + body + f + tail
      && u[|h| + |t|..] == r + f + tail
      && u == FieldBytes(TAG_BEGIN_STRING, bs) + (FieldBytes(TAG_BODY_LENGTH, Digits(|body|)) + (t + (r + f + tail)))
      && |body| > 0 && |h| > 2 && |u| == |h| + |body| + |f| + |tail|
  {
    hide FieldBytes, TypeText, Digits;
    FieldParts(TAG_MSG_TYPE, TypeText(typ), r);
    FieldParts(TAG_BEGIN_STRING, bs, []);
  }

  lemma TryOfTrailer(u: seq<byte>, seqNum: int)
    requires var h := ScanHead(u); h.HeadOk? && |u| - h.body >= h.bodyLength + 7
    ensures var h := ScanHead(u); var t := ScanTrailer(u, h.val1, h.body + h.bodyLength);
      && (t.TrailerBad? ==> Try(u, seqNum) == Skip(t.n))
      && (t.TrailerGood? ==>
          var rest := ScanRest(u[h.n..], seqNum, []);
          Try(u, seqNum) == Got(Message(h.typ, BeginValue(u, h.val1), rest.seqNum, rest.fields), h.n + rest.n))
  {
    hide ScanHead, ScanTrailer, ScanRest, BeginValue;
  }

  /** The parser's verdict on such a frame rests on the sum alone. */
  lemma TryRaw(bs: seq<byte>, typ: MsgType, r: seq<byte>, ck: seq<byte>, tail: seq<byte>, seqNum: int)
    requires RawOk(bs, typ, r, ck)
    ensures var h, body := RawHead(bs, |RawBody(typ, r)|), RawBody(typ, r);
      var u, st := RawFrame(bs, typ, r, ck) + tail, |h| + |FieldBytes(TAG_MSG_TYPE, TypeText(typ))|;
      Try(u, seqNum) ==
        if UatoiOf(ck + [SOH]) == ByteSum(h + body) % 256 then
          var rest := ScanRest(r + FieldBytes(TAG_CHECK_SUM, ck) + tail, seqNum, []);
          Got(Message(typ, bs, rest.seqNum, rest.fields), st + rest.n)
        else Skip(|RawFrame(bs, typ, r, ck)|)
  {
    hide FieldBytes, ScanHead, ScanTrailer, ScanRest, UatoiOf, ByteSum, Try, RawBody, RawHead, RawFrame, TypeText;
    hide BeginValue, Digits;
    var body, t, f := RawBody(typ, r), FieldBytes(TAG_MSG_TYPE, TypeText(typ)), FieldBytes(TAG_CHECK_SUM, ck);
    var h, u := RawHead(bs, |body|), RawFrame(bs, typ, r, ck) + tail;
    RawParts(bs, typ, r, ck, tail);
    HeadOfRaw(bs, typ, |body|, r + f + tail);
    TrailerOfRaw(h + body, ck, tail);
    BeginOfRaw(bs, FieldBytes(TAG_BODY_LENGTH, Digits(|body|)) + (t + (r + f + tail)));
    TryOfTrailer(u, seqNum);
  }

  lemma BeginOfRaw(bs: seq<byte>, rest: seq<byte>)
    requires Clean(bs)
    ensures BeginValue(FieldBytes(TAG_BEGIN_STRING, bs) + rest, 2) == bs
  {
    FieldParts(TAG_BEGIN_STRING, bs, rest);
    OneDigit(TAG_BEGIN_STRING);
    var w := bs + ([SOH] + rest);
    assert forall i :: 0 <= i < |bs| ==> w[i] == bs[i];
    IndexOfUnique(w, SOH, |bs|);
  }

  function AfterType(m: OutMessage): seq<byte> {
    HeaderFields(m) + PrintFields(m.fields)
  }

  function SumText(m: OutMessage): seq<byte> {
    ThreeDigits(ByteSum(Head(m) + Body(m)) % 256)
  }

  lemma FrameIsRaw(m: OutMessage)
    requires WellFormed(m)
    ensures Body(m) == RawBody(m.typ, AfterType(m))
    ensures Head(m) == RawHead(CString(m.beginString), |Body(m)|)
    ensures Frame(m) == RawFrame(CString(m.beginString), m.typ, AfterType(m), SumText(m))
    ensures RawOk(CString(m.beginString), m.typ, AfterType(m), SumText(m))
    ensures UatoiOf(SumText(m) + [SOH]) == ByteSum(Head(m) + Body(m)) % 256
  {
    hide FieldBytes, HeaderFields, PrintFields, CString, ByteSum, Sendable, Receivable;
    assert Body(m) == RawBody(m.typ, AfterType(m));
    SumTextValue(ByteSum(Head(m) + Body(m)) % 256);
  }

  lemma SumTextValue(n: nat)
    requires n < 256
    ensures Clean(ThreeDigits(n)) && UatoiOf(ThreeDigits(n) + [SOH]) == n
  {
    ThreeDigitsValue(n);
    var s := ThreeDigits(n) + [SOH];
    DigitRunUnique(s, 3);
    assert s[..3] == ThreeDigits(n);
  }

  /** One pass over a printed frame yields the message as it is understood. */
  lemma TryFrame(m: OutMessage, tail: seq<byte>, seqNum: int)
    requires WellFormed(m)
    ensures Try(Frame(m) + tail, seqNum) == Got(Understood(m), UnderstoodLength(m))
  {
    hide FieldBytes, HeaderFields, PrintFields, CString, ByteSum, Sendable, Receivable, Try, ScanRest, UatoiOf;
    hide Body, Head, KeptOf;
    FrameIsRaw(m);
    var ck := SumText(m);
    TryRaw(CString(m.beginString), m.typ, AfterType(m), ck, tail, seqNum);
    RestOfFrame(m, ck, tail, seqNum);
    FrameLength(m);
  }

  lemma FrameLength(m: OutMessage)
    requires WellFormed(m)
    ensures |Frame(m)| == |Head(m)| + |TypeField(m)| + |HeaderFields(m)| + |PrintFields(m.fields)| + |Trailer(m)|
    ensures |Trailer(m)| == 7
  {
    hide FieldBytes, HeaderFields, PrintFields, CString, ByteSum, Sendable, Receivable, Head;
    TypedBody(m);
    SumTextValue(ByteSum(Head(m) + Body(m)) % 256);
    TrailerText(SumText(m), []);
  }

  /** What becomes of a printed frame, whatever tags its fields carry and whatever follows it. */
  lemma WhatIsUnderstood(m: OutMessage, tail: seq<byte>, seqNum: int)
    requires WellFormed(m)
    ensures Parse(Frame(m) + tail, seqNum) == Parsed(Understood(m), UnderstoodLength(m))
  {
    hide Try, Frame, Understood, UnderstoodLength, WellFormed;
    TryFrame(m, tail, seqNum);
    ParseStep(Frame(m) + tail, seqNum);
  }

  lemma NoCheckSum(fs: seq<OutField>)
    requires forall f :: f in fs ==> PlainTag(f.tag)
    ensures FirstCheckSum(fs) == |fs|
  {
    if fs != [] {
      assert fs[0] in fs;
      NoCheckSum(fs[1..]);
    }
  }

  lemma UnderstoodPlain(m: OutMessage)
    requires PlainTags(m)
    ensures Understood(m) == Received(m) && UnderstoodLength(m) == |Frame(m)|
  {
    hide Frame, CString, HeaderReceived, Keep, ReadBacks;
    var n := FirstCheckSum(m.fields);
    NoCheckSum(m.fields);
    assert m.fields[..n] == m.fields;
    KeepPlain(m.fields, Kept(Wrap32(m.msgSeqNum), HeaderReceived(m)));
  }

  lemma CutIsShorter(m: OutMessage)
    requires WellFormed(m) && FirstCheckSum(m.fields) < |m.fields|
    ensures UnderstoodLength(m) < |Frame(m)|
  {
    hide Frame, Head, TypeField, HeaderFields, PrintFields, Trailer, WellFormed, FirstCheckSum;
    FrameLength(m);
    PrintFieldsSplit(m.fields, FirstCheckSum(m.fields) + 1);
  }

  /** Any other tag costs a field or the end of the frame, any other number is wrapped. */
  lemma UnderstoodOtherwise(m: OutMessage)
    requires WellFormed(m) && !PlainTags(m)
    ensures Understood(m) != Received(m) || UnderstoodLength(m) < |Frame(m)|
  {
    hide Frame, CString, HeaderReceived, Keep, ReadBacks, PrintFields, HeaderFields, Trailer, Receivable, Body;
    var n := FirstCheckSum(m.fields);
    var k := Kept(Wrap32(m.msgSeqNum), HeaderReceived(m));
    if n < |m.fields| {
      CutIsShorter(m);
    } else {
      assert m.fields[..n] == m.fields;
      KeepCount(m.fields, k);
      PlainCountFull(m.fields);
      if forall f :: f in m.fields ==> PlainTag(f.tag) {
        KeepPlain(m.fields, k);
      }
    }
  }

  /**
   Parsing a printed frame, whatever follows it, gives the message back and consumes exactly the frame
   if and only if no own field carries tag 10, 34 or 789 and the number fits the receiver's `int`.
   */
  lemma RoundTrip(m: OutMessage, tail: seq<byte>, seqNum: int)
    requires WellFormed(m)
    ensures Parse(Frame(m) + tail, seqNum) == Parsed(Received(m), |Frame(m)|) <==> PlainTags(m)
  {
    hide Frame, Understood, UnderstoodLength, WellFormed, Received, PlainTags, Parse;
    WhatIsUnderstood(m, tail, seqNum);
    if PlainTags(m) {
      UnderstoodPlain(m);
    } else {
      UnderstoodOtherwise(m);
    }
  }

  /** An own field with tag 789 (or 34) replaces the message's number and is gone. */
  lemma NumberOverwritten(m: OutMessage, tag: nat, n: nat, tail: seq<byte>, seqNum: int)
    requires WellFormed(m) && (tag == 789 || tag == 34) && n < TWO_31
    requires m.fields == [OutField(tag, IntValue(n))]
    ensures Parse(Frame(m) + tail, seqNum) ==
      Parsed(Message(m.typ, CString(m.beginString), n, HeaderReceived(m)), |Frame(m)|)
  {
    hide Frame, CString, HeaderReceived, Parse, WellFormed;
    WhatIsUnderstood(m, tail, seqNum);
    var k := Kept(Wrap32(m.msgSeqNum), HeaderReceived(m));
    assert m.fields[..1] == m.fields && m.fields[..0] == [];
    assert FirstCheckSum(m.fields) == 1;
    assert Keep(m.fields, k) == KeepOne(Keep([], k), m.fields[0]);
    UatoiReadsDigits(n, [SOH]);
  }

  /** A heartbeat with number 1 that says it expects number 5 next. */
  function ExpectsFive(): OutMessage {
    OutMessage(Heartbeat, [], [], [], [], 1, [], [OutField(789, IntValue(5))])
  }

  /** It is understood as number 5 without that field. */
  lemma ExpectsFiveIsMisread(tail: seq<byte>)
    ensures var m := ExpectsFive();
      Parse(Frame(m) + tail, 0) == Parsed(Message(Heartbeat, [], 5, HeaderReceived(m)), |Frame(m)|)
  {
    hide Frame, HeaderReceived, Parse;
    ExpectsFiveWellFormed();
    NumberOverwritten(ExpectsFive(), 789, 5, tail, 0);
  }

  lemma ExpectsFiveWellFormed()
    ensures WellFormed(ExpectsFive())
  {
    hide FieldBytes, PrintFields, Digits;
    var m, f := ExpectsFive(), OutField(789, IntValue(5));
    assert Clean(Digits(5)) by { DigitsClean(5); }
    assert FieldText(IntValue(5)) == Digits(5);
    EmptyHeader(m);
    FieldShape(f.tag, Digits(5), []);
    ShortDigits(f.tag);
    ShortDigits(5);
    OneField(f);
  }

  lemma OneField(f: OutField)
    ensures PrintFields([f]) == PrintField(f)
  {
    assert [f][..0] == [] && PrintFields([]) == [];
    assert [] + PrintField(f) == PrintField(f);
  }

  /** The body of a heartbeat with number 1 and empty texts, without its own fields. */
  lemma EmptyHeader(m: OutMessage)
    requires m.typ == Heartbeat && m.msgSeqNum == 1
    requires m.senderCompId == [] && m.targetCompId == [] && m.strNow == []
    ensures |TypeField(m)| + |HeaderFields(m)| <= 60 && |Body(m)| <= 60 + |PrintFields(m.fields)|
  {
    hide FieldBytes, Digits, PrintFields;
    FieldShape(TAG_MSG_TYPE, TypeText(Heartbeat), []);
    FieldShape(TAG_SENDER_COMP_ID, [], []);
    FieldShape(TAG_TARGET_COMP_ID, [], []);
    FieldShape(TAG_MSG_SEQ_NUM, Digits(1), []);
    FieldShape(TAG_SENDING_TIME, [], []);
    ShortDigits(TAG_MSG_TYPE);
    ShortDigits(TAG_SENDER_COMP_ID);
    ShortDigits(TAG_TARGET_COMP_ID);
    ShortDigits(TAG_MSG_SEQ_NUM);
    ShortDigits(TAG_SENDING_TIME);
    ShortDigits(1);
  }

  lemma ShortDigits(n: nat)
    requires n < 1000
    ensures |Digits(n)| <= 3
  {
    assert Pow10(3) == 10 * Pow10(2) == 100 * Pow10(1) == 1000;
    DigitsLength(n, 3);
  }

  /** The slots of the receiver's field table that a message fills: the header's and its kept fields, up to tag 10. */
  function TableUse(m: OutMessage): nat {
    HEADER_FIELD_NUMBER + PlainCount(m.fields[..FirstCheckSum(m.fields)])
  }

  lemma UnderstoodCount(m: OutMessage)
    ensures |Understood(m).fields| == TableUse(m)
  {
    hide CString, ReadBack, TypedField, KeepOne;
    KeepCount(m.fields[..FirstCheckSum(m.fields)], Kept(Wrap32(m.msgSeqNum), HeaderReceived(m)));
  }

  /** A scan that gets to CheckSum returns what it stored. */
  lemma {:induction false} StoredIsReturned(u: seq<byte>, seqNum: int, done: seq<Field>)
    ensures var r := ScanRest(u, seqNum, done); r.fields == [] || |r.fields| == |done| + Slots(u)
    decreases |u|
  {
    hide TagKind, ScanField, TypedField, UatoiOf;
    var f := ScanField(u);
    if f.Scanned? && TagKind(f.tag) != ChecksumKind {
      RestUnrolled(u, seqNum, done);
      if TagKind(f.tag) == SeqNumKind {
        StoredIsReturned(u[f.n..], UatoiOf(u[f.val..f.n]), done);
      } else {
        StoredIsReturned(u[f.n..], seqNum, done + [TypedField(f.tag, u[f.val..f.n])]);
      }
    }
  }

  /**
   How much of the table of 48 slots a frame fills, and that this is what the returned message holds: the
   scan stays within the table exactly when header fields and kept own fields together are at most 48.
   */
  lemma TableNotOverrun(m: OutMessage, tail: seq<byte>, seqNum: int)
    requires WellFormed(m)
    ensures var r := Parse(Frame(m) + tail, seqNum);
      && r.Parsed? && |r.msg.fields| == TableUse(m)
      && (|r.msg.fields| <= 48 <==> TableUse(m) <= 48)
    ensures Slots(AfterType(m) + Trailer(m) + tail) == TableUse(m)
  {
    hide Frame, Understood, UnderstoodLength, WellFormed, Parse, TableUse, AfterType, Trailer;
    WhatIsUnderstood(m, tail, seqNum);
    UnderstoodCount(m);
    SlotsOfFrame(m, tail, seqNum);
  }

  lemma SlotsOfFrame(m: OutMessage, tail: seq<byte>, seqNum: int)
    requires WellFormed(m)
    ensures Slots(AfterType(m) + Trailer(m) + tail) == |Understood(m).fields|
  {
    hide FieldBytes, HeaderFields, PrintFields, CString, ByteSum, Framed, ScanRest, Slots, Body, Head, Keep, PlainCount;
    SumTextValue(ByteSum(Head(m) + Body(m)) % 256);
    RestOfFrame(m, SumText(m), tail, seqNum);
    UnderstoodCount(m);
    StoredIsReturned(AfterType(m) + Trailer(m) + tail, seqNum, []);
  }

  /** `n` times the same field. */
  function Copies(f: OutField, n: nat): (fs: seq<OutField>)
    ensures |fs| == n && forall g :: g in fs ==> g == f
  {
    if n == 0 then [] else Copies(f, n - 1) + [f]
  }

  lemma OneMore(n: nat, k: nat)
    requires n > 0
    ensures (n - 1) * k + k == n * k
  {
  }

  lemma {:induction false} CopiesPrinted(f: OutField, n: nat)
    ensures |PrintFields(Copies(f, n))| == n * |PrintField(f)|
  {
    hide PrintField;
    var k := |PrintField(f)|;
    if n > 0 {
      var front := Copies(f, n - 1);
      CopiesPrinted(f, n - 1);
      assert Copies(f, n)[..n - 1] == front && Copies(f, n)[n - 1] == f;
      assert PrintFields(Copies(f, n)) == PrintFields(front) + PrintField(f);
      OneMore(n, k);
    }
  }

  /** A heartbeat with `n` one-letter Text fields. */
  function Wordy(n: nat): OutMessage {
    OutMessage(Heartbeat, [], [], [], [], 1, [], Copies(OutField(TAG_TEXT, CharValue(120)), n))
  }

  lemma WordyWellFormed(n: nat)
    requires n <= FIX_MAX_FIELD_NUMBER
    ensures WellFormed(Wordy(n)) && PlainTags(Wordy(n))
  {
    hide FieldBytes, PrintFields, Digits, Copies;
    var m, f := Wordy(n), OutField(TAG_TEXT, CharValue(120));
    assert Receivable(f);
    EmptyHeader(m);
    CopiesPrinted(f, n);
    FieldShape(TAG_TEXT, [120], []);
    ShortDigits(TAG_TEXT);
    assert n * |PrintField(f)| <= 48 * 6;
  }

  /** One own field more than fits: 46 plain fields, which the sender admits, make 49 at the receiver. */
  lemma FortySixOverrun(tail: seq<byte>, seqNum: int)
    ensures WellFormed(Wordy(46)) && |Wordy(46).fields| == 46 < FIX_MAX_FIELD_NUMBER == 48
    ensures var r := Parse(Frame(Wordy(46)) + tail, seqNum);
      r.Parsed? && |r.msg.fields| == 49
  {
    hide Frame, Parse, Copies, WellFormed, PlainTags;
    var m := Wordy(46);
    WordyWellFormed(46);
    TableNotOverrun(m, tail, seqNum);
    PlainUse(m);
  }

  lemma PlainUse(m: OutMessage)
    requires PlainTags(m)
    ensures TableUse(m) == HEADER_FIELD_NUMBER + |m.fields|
  {
    NoCheckSum(m.fields);
    PlainCountFull(m.fields);
    assert m.fields[..|m.fields|] == m.fields;
  }

  /** An own field with tag 10 ends the message: what follows it stays unread. */
  lemma MessageCutShort(m: OutMessage, x: OutValue, tail: seq<byte>, seqNum: int)
    requires WellFormed(m) && m.fields == [OutField(10, x)]
    ensures Parse(Frame(m) + tail, seqNum) ==
      Parsed(Message(m.typ, CString(m.beginString), Wrap32(m.msgSeqNum), HeaderReceived(m)), |Frame(m)| - 7)
  {
    hide Frame, CString, HeaderReceived, Parse, WellFormed, Head, HeaderFields, PrintFields, Trailer;
    WhatIsUnderstood(m, tail, seqNum);
    FrameLength(m);
    assert FirstCheckSum(m.fields) == 0;
    assert m.fields[..1] == m.fields && m.fields[..0] == [];
  }

  /** A field whose value agrees with the type of its tag is received as it was sent. */
  lemma ReadBackSame(f: OutField)
    requires Receivable(f)
    ensures TagKind(f.tag) == IntKind && f.value.IntValue? ==> ReadBack(f) == IntField(f.tag, f.value.n)
    ensures TagKind(f.tag) == CharKind && f.value.CharValue? ==> ReadBack(f) == CharField(f.tag, f.value.c)
    ensures TagKind(f.tag) == StringKind && f.value.StringValue? ==>
      ReadBack(f) == StringField(f.tag, CString(f.value.s))
    ensures TagKind(f.tag) == StringKind && f.value.CharValue? ==> ReadBack(f) == StringField(f.tag, [f.value.c])
  {
    hide TagKind, SignedDigits;
    var t := FieldText(f.value);
    assert (t + [SOH])[..|t|] == t;
    if f.value.IntValue? {
      Atoi64ReadsDigits(f.value.n, [SOH]);
    }
  }

  /** A float reaches the reader as a text within half a unit of the seventh place, except in the tie case. */
  lemma ReadBackFloat(f: OutField)
    requires Receivable(f) && TagKind(f.tag) == FloatKind && f.value.FloatValue?
    ensures var g, x := ReadBack(f), f.value.x;
      && g.FloatField? && g.tag == f.tag
      && (Abs(TextValue(g.floatText) - x) <= 0.5 / 10000000.0 <==> !Tie(x, FLOAT_PLACES))
  {
    hide TagKind, Dtoa2Text, TextValue, Tie;
    var t := FieldText(f.value);
    assert (t + [SOH])[..|t|] == t;
    RoundingBound(f.value.x, FLOAT_PLACES);
    SeventhPlace();
  }

  // The tags by the type the readers give their values; all others are texts.

  predicate IntTag(tag: int) {
    tag in {
      7, 16, 36, 45, 67, 68, 73, 83, 93, 95, 97, 102, 103, 146, 204, 264, 265, 267,
      268, 295, 296, 302, 304, 354, 369, 371, 373, 383, 384, 552, 569, 580, 727, 748,
      749, 750, 753, 911, 1023}
  }

  predicate FloatTag(tag: int) {
    tag in {
      6, 14, 31, 32, 38, 44, 99, 132, 133, 134, 135, 151, 270, 271, 704, 705, 730,
      10103}
  }

  predicate CharTag(tag: int) {
    tag in {
      18, 59, 156, 263, 266, 276, 281, 297, 298, 385, 434, 442, 464, 537, 581, 694,
      708, 728, 729, 731, 734, 742, 912, 1385, 10104}
  }

  predicate TextTag(tag: int) {
    !IntTag(tag) && !FloatTag(tag) && !CharTag(tag) && PlainTag(tag)
  }

  /** A price or quantity arrives as a float within half a unit of the seventh place, outside the tie. */
  predicate FloatNear(g: Field, tag: int, x: real) {
    && g.FloatField? && g.tag == tag
    && (Abs(TextValue(g.floatText) - x) <= 0.5 / 10000000.0 <==> !Tie(x, 7))
  }

  lemma KindOfTag(tag: int)
    ensures IntTag(tag) ==> TagKind(tag) == IntKind
    ensures FloatTag(tag) ==> TagKind(tag) == FloatKind
    ensures CharTag(tag) ==> TagKind(tag) == CharKind
    ensures TextTag(tag) ==> TagKind(tag) == StringKind
  {
  }

  /** What becomes of a field under any tag that is kept. */
  lemma ReadBackByTag(f: OutField)
    requires Receivable(f)
    ensures IntTag(f.tag) && f.value.IntValue? ==> ReadBack(f) == IntField(f.tag, f.value.n)
    ensures FloatTag(f.tag) && f.value.FloatValue? ==> FloatNear(ReadBack(f), f.tag, f.value.x)
    ensures CharTag(f.tag) && f.value.CharValue? ==> ReadBack(f) == CharField(f.tag, f.value.c)
    ensures TextTag(f.tag) && f.value.StringValue? ==> ReadBack(f) == StringField(f.tag, CString(f.value.s))
    ensures TextTag(f.tag) && f.value.CharValue? ==> ReadBack(f) == StringField(f.tag, [f.value.c])
  {
    hide TagKind, ReadBack, Receivable, IntTag, FloatTag, CharTag, TextTag, TextValue, Tie, CString;
    KindOfTag(f.tag);
    ReadBackSame(f);
    if TagKind(f.tag) == FloatKind && f.value.FloatValue? {
      ReadBackFloat(f);
    }
  }

  lemma SeventhPlace()
    ensures Pow10(7) == 10000000
  {
    assert Pow10(2) == 100 && Pow10(4) == 100 * Pow10(2) && Pow10(6) == 100 * Pow10(4);
  }

  // ---- frames that have not fully arrived

  /** A prefix of `b + w` is a prefix of `b` or `b` followed by a prefix of `w`. */
  lemma PrefixCases(p: seq<byte>, b: seq<byte>, w: seq<byte>)
    requires p <= b + w
    ensures |p| < |b| ==> p <= b
    ensures |p| >= |b| ==> p == b + p[|b|..] && p[|b|..] <= w
  {
    assert forall i :: 0 <= i < |p| ==> p[i] == (b + w)[i];
  }

  lemma LengthAndTypeCut(len: nat, typ: MsgType, w: seq<byte>, p: seq<byte>)
    requires typ != UnknownType && 0 < len <= FIX_MAX_MESSAGE_SIZE
    requires var l, t := FieldBytes(TAG_BODY_LENGTH, Digits(len)), FieldBytes(TAG_MSG_TYPE, TypeText(typ));
      p <= l + (t + w) && |p| < |l| + |t|
    ensures var f := ScanLength(p); f.Partial? || (f.Scanned? && ScanType(p[f.n..]) == Partial)
  {
    hide FieldBytes, ScanExpected, UatoiOf, TypeOfText;
    var l, t := FieldBytes(TAG_BODY_LENGTH, Digits(len)), FieldBytes(TAG_MSG_TYPE, TypeText(typ));
    PrefixCases(p, l, t + w);
    if |p| < |l| {
      ScanCut(TAG_BODY_LENGTH, Digits(len), p);
    } else {
      PrefixCases(p[|l|..], t, w);
      ScanLengthPrinted(len, p[|l|..]);
      TypeRoundTrip(typ);
      ScanCut(TAG_MSG_TYPE, TypeText(typ), p[|l|..]);
    }
  }

  lemma HeadCut(m: OutMessage, p: seq<byte>)
    requires WellFormed(m) && p <= Frame(m)
    requires |p| < |Head(m)| + |TypeField(m)|
    ensures ScanHead(p) == HeadPartial
  {
    hide FieldBytes, ScanExpected, ScanLength, ScanType, PrintFields, HeaderFields, CString, TypeOfText, Trailer;
    hide Receivable, Printable, Body, Digits, PlainTag, TypeText;
    TypedBody(m);
    var b, t := FieldBytes(TAG_BEGIN_STRING, CString(m.beginString)), TypeField(m);
    var l := FieldBytes(TAG_BODY_LENGTH, Digits(|Body(m)|));
    var rest := HeaderFields(m) + PrintFields(m.fields) + Trailer(m);
    assert Frame(m) == b + (l + (t + rest));
    PrefixCases(p, b, l + (t + rest));
    if |p| < |b| {
      ScanCut(TAG_BEGIN_STRING, CString(m.beginString), p);
    } else {
      ScanPrinted(TAG_BEGIN_STRING, CString(m.beginString), p[|b|..]);
      assert |Body(m)| > 0 by { FieldParts(TAG_MSG_TYPE, TypeText(m.typ), []); }
      LengthAndTypeCut(|Body(m)|, m.typ, rest, p[|b|..]);
      var f := ScanLength(p[|b|..]);
      assert f.Scanned? ==> p[|b|..][f.n..] == p[|b| + f.n..];
    }
  }

  /** A strict prefix of a frame is never garbled and none of it is consumed. */
  lemma PartialFrame(m: OutMessage, p: seq<byte>, seqNum: int)
    requires WellFormed(m) && p <= Frame(m) && |p| < |Frame(m)|
    ensures Parse(p, seqNum) == NoMessage(0)
  {
    hide ScanHead, WellFormed, Head, Frame, Trailer, Body, HeaderFields, PrintFields, TypeText, Parse, Try;
    ParseStep(p, seqNum);
    if |p| < |Head(m)| + |TypeField(m)| {
      HeadCut(m, p);
      TryOfHead(p, seqNum);
    } else {
      HeadArrived(m, p);
      TryOfHead(p, seqNum);
    }
  }

  lemma TryOfHead(u: seq<byte>, seqNum: int)
    ensures ScanHead(u) == HeadPartial ==> Try(u, seqNum) == NeedMore
    ensures var h := ScanHead(u); h.HeadOk? && |u| - h.body < h.bodyLength + 7 ==> Try(u, seqNum) == NeedMore
  {
    hide ScanHead, ScanTrailer, ScanRest;
  }

  lemma HeadArrived(m: OutMessage, p: seq<byte>)
    requires WellFormed(m) && p <= Frame(m) && |Head(m)| + |TypeField(m)| <= |p|
    ensures ScanHead(p) == HeadOk(m.typ, 2, |Body(m)|, |Head(m)|, |Head(m)| + |TypeField(m)|)
    ensures |Frame(m)| == |Head(m)| + |Body(m)| + 7
  {
    hide FieldBytes, ScanExpected, PrintFields, HeaderFields, CString, TypeOfText, UatoiOf, ByteSum, ScanHead;
    hide Receivable, Printable;
    FrameIsRaw(m);
    var h, t := Head(m), TypeField(m);
    var rest := p[|h| + |t|..];
    assert Frame(m) == h + t + (HeaderFields(m) + PrintFields(m.fields) + Trailer(m));
    assert p == h + (t + rest);
    assert |Body(m)| > 0 by { FieldParts(TAG_MSG_TYPE, TypeText(m.typ), []); }
    HeadOfRaw(CString(m.beginString), m.typ, |Body(m)|, rest);
    TrailerText(SumText(m), []);
  }

  // ---- frames damaged on the way

  /** A frame whose sum does not match is skipped as a whole, and the search resumes right after it. */
  lemma MismatchSkipped(bs: seq<byte>, typ: MsgType, r: seq<byte>, ck: seq<byte>, tail: seq<byte>, seqNum: int)
    requires RawOk(bs, typ, r, ck)
    requires UatoiOf(ck + [SOH]) != ByteSum(RawHead(bs, |RawBody(typ, r)|) + RawBody(typ, r)) % 256
    ensures Parse(RawFrame(bs, typ, r, ck) + tail, seqNum) == Shift(Parse(tail, seqNum), |RawFrame(bs, typ, r, ck)|)
  {
    hide Try, RawFrame, RawHead, RawBody, UatoiOf, ByteSum, Parse;
    TryRaw(bs, typ, r, ck, tail, seqNum);
    var u := RawFrame(bs, typ, r, ck);
    assert (u + tail)[|u|..] == tail;
    ParseStep(u + tail, seqNum);
  }

  /** `m`'s frame with one byte after the MsgType field replaced. */
  function Damaged(m: OutMessage, j: nat, b: byte): seq<byte>
    requires j < |Body(m)|
  {
    Head(m) + Body(m)[j := b] + Trailer(m)
  }

  /** Two bytes differ by less than 256, so the sum modulo 256 tells them apart. */
  lemma SumNoticesByte(h: seq<byte>, s: seq<byte>, j: nat, b: byte)
    requires j < |s| && b != s[j]
    ensures ByteSum(h + s[j := b]) % 256 != ByteSum(h + s) % 256
  {
    hide ByteSum;
    ByteSumConcat(h, s);
    ByteSumConcat(h, s[j := b]);
    ByteSumUpdate(s, j, b);
  }

  /** A substituted body byte is caught, and the good frame that follows is returned by the same call. */
  lemma DamageSkipped(m: OutMessage, j: nat, b: byte, next: OutMessage, tail: seq<byte>, seqNum: int)
    requires WellFormed(m) && Admissible(next)
    requires |TypeField(m)| <= j < |Body(m)| && b != Body(m)[j]
    ensures Parse(Damaged(m, j, b) + Frame(next) + tail, seqNum) ==
      Parsed(Received(next), |Damaged(m, j, b)| + |Frame(next)|)
  {
    hide WellFormed, Frame, Received, TypeText, HeaderFields, PrintFields, FieldBytes, ByteSum, UatoiOf, CString;
    hide Try, Parse;
    FrameIsRaw(m);
    var t, r0 := TypeField(m), AfterType(m);
    var r := r0[j - |t| := b];
    TypedBody(m);
    assert Body(m)[j := b] == t + r;
    SumNoticesByte(Head(m), Body(m), j, b);
    MismatchSkipped(CString(m.beginString), m.typ, r, SumText(m), Frame(next) + tail, seqNum);
    assert Damaged(m, j, b) == RawFrame(CString(m.beginString), m.typ, r, SumText(m));
    assert Damaged(m, j, b) + Frame(next) + tail == Damaged(m, j, b) + (Frame(next) + tail);
    RoundTrip(next, tail, seqNum);
  }

  lemma TypedBody(m: OutMessage)
    requires WellFormed(m)
    ensures Body(m) == TypeField(m) + AfterType(m) && TypeField(m) == FieldBytes(TAG_MSG_TYPE, TypeText(m.typ))
  {
    hide FieldBytes, HeaderFields, PrintFields, TypeText;
  }

  /** Wrong CheckSum characters are caught in the same way. */
  lemma WrongChecksumSkipped(m: OutMessage, ck: seq<byte>, next: OutMessage, tail: seq<byte>, seqNum: int)
    requires WellFormed(m) && Admissible(next) && |ck| == 3 && Clean(ck)
    requires UatoiOf(ck + [SOH]) != ByteSum(Head(m) + Body(m)) % 256
    ensures var bad := Head(m) + Body(m) + FieldBytes(TAG_CHECK_SUM, ck);
      Parse(bad + Frame(next) + tail, seqNum) == Parsed(Received(next), |bad| + |Frame(next)|)
  {
    hide WellFormed, Frame, Received, TypeText, HeaderFields, PrintFields, FieldBytes, ByteSum, UatoiOf, CString;
    hide Try, Parse;
    FrameIsRaw(m);
    var bad := Head(m) + Body(m) + FieldBytes(TAG_CHECK_SUM, ck);
    MismatchSkipped(CString(m.beginString), m.typ, AfterType(m), ck, Frame(next) + tail, seqNum);
    assert bad == RawFrame(CString(m.beginString), m.typ, AfterType(m), ck);
    assert bad + Frame(next) + tail == bad + (Frame(next) + tail);
    RoundTrip(next, tail, seqNum);
  }
}
