/** The printing side of src/libtrading/proto/fix_message.c. */
module FixPrint {
  import opened Bytes
  import opened Decimal
  import opened Atoi
  import opened Itoa
  import opened Modp
  import opened ModpPrint
  import opened Buffers
  import opened FixTypes
  import opened FixScan

  datatype OutValue =
    | IntValue(n: int)
    | FloatValue(x: real)
    | CharValue(c: byte)
    | StringValue(s: seq<byte>)
    | String8Value(chars: seq<byte>)
    | ChecksumValue(sum: byte)

  datatype OutField = OutField(tag: nat, value: OutValue)

  /** A message to send; `typeText` is used only when the type is unknown. */
  datatype OutMessage = OutMessage(
    typ: MsgType,
    typeText: seq<byte>,
    beginString: seq<byte>,
    senderCompId: seq<byte>,
    targetCompId: seq<byte>,
    msgSeqNum: nat,
    strNow: seq<byte>,
    fields: seq<OutField>)

  const FLOAT_PLACES := 7

  /** A C string ends at its first NUL. */
  function CString(s: seq<byte>): seq<byte> {
    UpTo(s, NUL)
  }

  function FieldText(v: OutValue): seq<byte>
  {
    match v
    case IntValue(n) => SignedDigits(n)
    case FloatValue(x) => Dtoa2Text(x, FLOAT_PLACES)
    case CharValue(c) => [c]
    case StringValue(s) => CString(s)
    case String8Value(s) => CString(if |s| <= 8 then s else s[..8])
    case ChecksumValue(sum) => ThreeDigits(sum)
  }

  /** What the number printers accept without leaving their hand-written branches. */
  predicate Printable(f: OutField) {
    && f.tag < TWO_31
    && match f.value
       case IntValue(n) => -TWO_63 <= n < TWO_63
       case FloatValue(x) => Abs(x) <= THRES_MAX
       case _ => true
  }

  function FieldBytes(tag: nat, text: seq<byte>): seq<byte> {
    Digits(tag) + [EQ] + text + [SOH]
  }

  function PrintField(f: OutField): seq<byte> {
    FieldBytes(f.tag, FieldText(f.value))
  }

  function PrintFields(fs: seq<OutField>): seq<byte> {
    if fs == [] then [] else PrintFields(fs[..|fs| - 1]) + PrintField(fs[|fs| - 1])
  }

  /** Writing at the end of the buffer appends to what is unread. */
  lemma AppendWrote(now: seq<byte>, before: seq<byte>, start: nat, end: nat, text: seq<byte>, extra: seq<byte>)
    requires start <= end && Wrote(now, before, end, text + extra)
    ensures now[start..end + |text|] == before[start..end] + text
  {
    assert forall i :: 0 <= i < |text| ==> now[end + i] == (text + extra)[i] == text[i];
    assert now[start..end + |text|] == now[start..end] + now[end..end + |text|];
    assert now[end..end + |text|] == text;
    assert now[start..end] == before[start..end];
  }

  method PutAll(s: seq<byte>, limit: nat, buf: Buffer)
    requires buf.Valid() && |CString(if |s| <= limit then s else s[..limit])| <= buf.Remaining()
    modifies buf`end, buf.data
    ensures buf.Valid() && buf.end == old(buf.end) + |CString(if |s| <= limit then s else s[..limit])|
    ensures buf.Unread() == old(buf.Unread()) + CString(if |s| <= limit then s else s[..limit])
  {
    ghost var t, u, e := if |s| <= limit then s else s[..limit], buf.Unread(), buf.end;
    var i := 0;
    while i < limit && i < |s| && s[i] != NUL
      invariant 0 <= i <= |t| && forall j :: 0 <= j < i ==> t[j] != NUL
      invariant buf.Valid() && buf.end == e + i && i <= |CString(t)|
      invariant buf.Unread() == u + t[..i]
    {
      assert i < |CString(t)|;
      buf.Put(s[i]);
      assert t[..i + 1] == t[..i] + [t[i]];
      i := i + 1;
    }
    IndexOfUnique(t, NUL, i);
  }

  method FieldUnparse(f: OutField, buf: Buffer)
    requires Printable(f) && buf.Valid() && |PrintField(f)| <= buf.Remaining()
    modifies buf`end, buf.data
    ensures buf.Valid() && buf.end == old(buf.end) + |PrintField(f)|
    ensures buf.Unread() == old(buf.Unread()) + PrintField(f)
  {
    hide FieldText, Digits;
    ghost var u, text := buf.Unread(), FieldText(f.value);
    PutTag(f.tag, buf);
    buf.Put(EQ);
    PutValue(f.value, buf);
    assert buf.Unread() == u + Digits(f.tag) + [EQ] + text;
    buf.Put(SOH);
    assert u + Digits(f.tag) + [EQ] + text + [SOH] == u + PrintField(f);
  }

  /** The switch on the field's type. */
  method PutValue(value: OutValue, buf: Buffer)
    requires Printable(OutField(0, value)) && buf.Valid() && |FieldText(value)| < buf.Remaining()
    modifies buf`end, buf.data
    ensures buf.Valid() && buf.end == old(buf.end) + |FieldText(value)|
    ensures buf.Unread() == old(buf.Unread()) + FieldText(value)
  {
    hide Dtoa2Text, SignedDigits, ThreeDigits, CString;
    match value {
      case StringValue(s) => PutAll(s, |s|, buf);
      case String8Value(s) => PutAll(s, 8, buf);
      case _ => PutNumber(value, buf);
    }
  }

  method PutTag(tag: nat, buf: Buffer)
    requires tag < TWO_31 && buf.Valid() && |Digits(tag)| <= buf.Remaining()
    modifies buf`end, buf.data
    ensures buf.Valid() && buf.end == old(buf.end) + |Digits(tag)|
    ensures buf.Unread() == old(buf.Unread()) + Digits(tag)
  {
    ghost var d := buf.data[..];
    var len := Uitoa(tag, buf.data, buf.end);
    assert Digits(tag) + [] == Digits(tag);
    AppendWrote(buf.data[..], d, buf.start, buf.end, Digits(tag), []);
    buf.end := buf.end + len;
  }

  method PutFloat(x: real, buf: Buffer)
    requires Abs(x) <= THRES_MAX && buf.Valid() && |Dtoa2Text(x, FLOAT_PLACES)| < buf.Remaining()
    modifies buf`end, buf.data
    ensures buf.Valid() && buf.end == old(buf.end) + |Dtoa2Text(x, FLOAT_PLACES)|
    ensures buf.Unread() == old(buf.Unread()) + Dtoa2Text(x, FLOAT_PLACES)
  {
    hide Dtoa2Text;
    ghost var d := buf.data[..];
    var len := Dtoa2(x, buf.data, buf.end, FLOAT_PLACES);
    AppendWrote(buf.data[..], d, buf.start, buf.end, Dtoa2Text(x, FLOAT_PLACES), [NUL]);
    buf.end := buf.end + len;
  }

  method PutInt(n: int, buf: Buffer)
    requires -TWO_63 <= n < TWO_63 && buf.Valid() && |SignedDigits(n)| < buf.Remaining()
    modifies buf`end, buf.data
    ensures buf.Valid() && buf.end == old(buf.end) + |SignedDigits(n)|
    ensures buf.Unread() == old(buf.Unread()) + SignedDigits(n)
  {
    hide SignedDigits;
    ghost var d := buf.data[..];
    var len, end := PrintInt64(n, buf.data, buf.end);
    AppendWrote(buf.data[..], d, buf.start, buf.end, SignedDigits(n), end);
    buf.end := buf.end + len;
  }

  method PutCheckSum(sum: byte, buf: Buffer)
    requires buf.Valid() && 3 < buf.Remaining()
    modifies buf`end, buf.data
    ensures buf.Valid() && buf.end == old(buf.end) + 3
    ensures buf.Unread() == old(buf.Unread()) + ThreeDigits(sum)
  {
    ghost var d := buf.data[..];
    assert ThreeDigits(sum) + [] == ThreeDigits(sum);
    var len := ChecksumToA(sum, buf.data, buf.end);
    AppendWrote(buf.data[..], d, buf.start, buf.end, ThreeDigits(sum), []);
    buf.end := buf.end + len;
  }

  method PutNumber(value: OutValue, buf: Buffer)
    requires Printable(OutField(0, value)) && !value.StringValue? && !value.String8Value?
    requires buf.Valid() && |FieldText(value)| < buf.Remaining()
    modifies buf`end, buf.data
    ensures buf.Valid() && buf.end == old(buf.end) + |FieldText(value)|
    ensures buf.Unread() == old(buf.Unread()) + FieldText(value)
  {
    hide Dtoa2Text, SignedDigits, ThreeDigits;
    match value {
      case CharValue(c) => buf.Put(c);
      case FloatValue(x) => PutFloat(x, buf);
      case IntValue(n) => PutInt(n, buf);
      case ChecksumValue(sum) => PutCheckSum(sum, buf);
      case StringValue(_) => assert false;
      case String8Value(_) => assert false;
    }
  }

  // ---- the message on the wire

  function TypeField(m: OutMessage): seq<byte> {
    FieldBytes(TAG_MSG_TYPE, if m.typ != UnknownType then TypeText(m.typ) else CString(m.typeText))
  }

  /** The body fields before the message's own. */
  function HeaderFields(m: OutMessage): seq<byte> {
    FieldBytes(TAG_SENDER_COMP_ID, CString(m.senderCompId)) +
    FieldBytes(TAG_TARGET_COMP_ID, CString(m.targetCompId)) +
    FieldBytes(TAG_MSG_SEQ_NUM, Digits(m.msgSeqNum)) +
    FieldBytes(TAG_SENDING_TIME, CString(m.strNow))
  }

  predicate Sendable(m: OutMessage) {
    && m.msgSeqNum < TWO_63
    && forall f :: f in m.fields ==> Printable(f)
  }

  function Body(m: OutMessage): seq<byte> {
    TypeField(m) + HeaderFields(m) + PrintFields(m.fields)
  }

  function Head(m: OutMessage): seq<byte> {
    FieldBytes(TAG_BEGIN_STRING, CString(m.beginString)) + FieldBytes(TAG_BODY_LENGTH, Digits(|Body(m)|))
  }

  function Trailer(m: OutMessage): seq<byte> {
    FieldBytes(TAG_CHECK_SUM, ThreeDigits(ByteSum(Head(m) + Body(m)) % 256))
  }

  function Frame(m: OutMessage): seq<byte> {
    Head(m) + Body(m) + Trailer(m)
  }

  // ---- the same bytes spelt out, without the tables the parser shares

  /** `key` is a tag in decimal and the equals sign. */
  function Spelt(key: string, text: seq<byte>): seq<byte> {
    Ascii(key) + text + [1]
  }

  function TypeCode(t: MsgType): string
    requires t != UnknownType
  {
    match t
    case Heartbeat => "0"
    case TestRequest => "1"
    case ResendRequest => "2"
    case Reject => "3"
    case SequenceReset => "4"
    case Logout => "5"
    case Logon => "A"
    case MarketDataRequest => "V"
    case MarketDataSnapshotFullRefresh => "W"
    case MarketDataIncrementalRefresh => "X"
    case MarketDataRequestReject => "Y"
    case ExecutionReport => "8"
    case OrderCancelReject => "9"
    case NewOrderSingle => "D"
    case OrderCancelRequest => "F"
    case OrderCancelReplaceRequest => "G"
    case OrderStatusRequest => "H"
    case TradeCaptureReportRequest => "AD"
    case TradeCaptureReport => "AE"
    case TradeCaptureReportRequestAck => "AQ"
    case QuoteRequest => "R"
    case MassQuote => "i"
    case MassQuoteAck => "b"
    case QuoteRequestReject => "AG"
    case QuoteCancel => "Z"
    case Quote => "S"
    case QuoteResponse => "AJ"
    case NewOrderList => "E"
    case RequestForPositions => "AN"
    case RequestForPositionsAck => "AO"
    case PositionReport => "AP"
    case OrderMassStatusRequest => "AF"
  }

  function SpeltFields(fs: seq<OutField>): seq<byte> {
    if fs == [] then []
    else Digits(fs[0].tag) + Ascii("=") + FieldText(fs[0].value) + [1] + SpeltFields(fs[1..])
  }

  function SpeltBody(m: OutMessage): seq<byte> {
    var code := if m.typ == UnknownType then CString(m.typeText) else Ascii(TypeCode(m.typ));
    Spelt("35=", code) + Spelt("49=", CString(m.senderCompId)) + Spelt("56=", CString(m.targetCompId)) +
    Spelt("34=", Digits(m.msgSeqNum)) + Spelt("52=", CString(m.strNow)) + SpeltFields(m.fields)
  }

  function Total(s: seq<byte>): nat {
    if s == [] then 0 else s[0] + Total(s[1..])
  }

  /** A body between BeginString, its length and the sum over all three. */
  function Sealed(beginString: seq<byte>, body: seq<byte>): seq<byte> {
    var front := Spelt("8=", beginString) + Spelt("9=", Digits(|body|)) + body;
    var n := Total(front) % 256;
    front + Spelt("10=", [48 + n / 100, 48 + n / 10 % 10, 48 + n % 10])
  }

  function SpeltFrame(m: OutMessage): seq<byte> {
    Sealed(CString(m.beginString), SpeltBody(m))
  }

  lemma {:induction false} TotalIsSum(s: seq<byte>)
    ensures Total(s) == ByteSum(s)
  {
    if s != [] {
      TotalIsSum(s[1..]);
      assert s == [s[0]] + s[1..] && [s[0]][..0] == [];
      ByteSumConcat([s[0]], s[1..]);
    }
  }

  /** The labels are the tags. */
  lemma Labels()
    ensures Digits(TAG_BEGIN_STRING) + [EQ] == Ascii("8=") && Digits(TAG_BODY_LENGTH) + [EQ] == Ascii("9=")
    ensures Digits(TAG_CHECK_SUM) + [EQ] == Ascii("10=") && Digits(TAG_MSG_TYPE) + [EQ] == Ascii("35=")
    ensures Digits(TAG_SENDER_COMP_ID) + [EQ] == Ascii("49=") && Digits(TAG_TARGET_COMP_ID) + [EQ] == Ascii("56=")
    ensures Digits(TAG_MSG_SEQ_NUM) + [EQ] == Ascii("34=") && Digits(TAG_SENDING_TIME) + [EQ] == Ascii("52=")
  {
    OneDigitLabel(8, "8=");
    OneDigitLabel(9, "9=");
    TwoDigitLabel(10, "10=");
    TwoDigitLabel(34, "34=");
    TwoDigitLabel(35, "35=");
    TwoDigitLabel(49, "49=");
    TwoDigitLabel(52, "52=");
    TwoDigitLabel(56, "56=");
  }

  lemma OneDigitLabel(tag: nat, key: string)
    requires tag < 10 && |key| == 2 && key[0] as int == 48 + tag && key[1] == '='
    ensures Digits(tag) + [EQ] == Ascii(key)
  {
    assert key[1..][1..] == [];
    assert Ascii(key) == [48 + tag] + Ascii(key[1..]) && Ascii(key[1..]) == [61] + Ascii([]);
  }

  lemma TwoDigitLabel(tag: nat, key: string)
    requires 10 <= tag < 100 && |key| == 3 && key[0] as int == 48 + tag / 10
    requires key[1] as int == 48 + tag % 10 && key[2] == '='
    ensures Digits(tag) + [EQ] == Ascii(key)
  {
    var l1 := key[1..];
    OneDigitLabel(tag % 10, l1);
    assert Ascii(key) == [48 + tag / 10] + Ascii(l1);
    assert Digits(tag) == [48 + tag / 10] + Digits(tag % 10);
  }

  lemma ThreeDigitLabel(tag: nat, key: string)
    requires 100 <= tag < 1000 && |key| == 4 && key[0] as int == 48 + tag / 100
    requires key[1] as int == 48 + tag / 10 % 10 && key[2] as int == 48 + tag % 10 && key[3] == '='
    ensures Digits(tag) + [EQ] == Ascii(key)
  {
    var l1, l2 := key[1..], key[1..][1..];
    OneDigitLabel(tag % 10, l2);
    assert Ascii(key) == [48 + tag / 100] + Ascii(l1) && Ascii(l1) == [48 + tag / 10 % 10] + Ascii(l2);
    assert Digits(tag / 10) == [48 + tag / 100] + [48 + tag / 10 % 10];
    assert Digits(tag) == Digits(tag / 10) + Digits(tag % 10);
  }

  lemma OneChar(c: string)
    requires |c| == 1 && c[0] < 128 as char
    ensures Ascii(c) == [c[0] as int]
  {
    assert c[1..] == "" && Ascii(c) == [c[0] as int] + Ascii(c[1..]);
  }

  lemma CodeIsText(t: MsgType)
    requires t != UnknownType
    ensures Ascii(TypeCode(t)) == TypeText(t)
  {
    hide Ascii;
    var c := TypeCode(t);
    if |c| == 1 {
      OneChar(c);
    } else {
      TwoLetters(c);
    }
  }

  lemma SpeltField(tag: nat, key: string, text: seq<byte>)
    requires Digits(tag) + [EQ] == Ascii(key)
    ensures FieldBytes(tag, text) == Spelt(key, text)
  {
    hide Digits, Ascii;
  }

  lemma {:induction false} FieldsAreSpelt(fs: seq<OutField>)
    ensures PrintFields(fs) == SpeltFields(fs)
  {
    hide FieldText, Digits;
    if fs != [] {
      FieldsAreSpelt(fs[1..]);
      assert Ascii("=") == [EQ];
      PrintFieldsCons(fs);
    }
  }

  lemma {:induction false} PrintFieldsCons(fs: seq<OutField>)
    requires fs != []
    ensures PrintFields(fs) == PrintField(fs[0]) + PrintFields(fs[1..])
  {
    hide PrintField;
    var front := fs[..|fs| - 1];
    if front == [] {
      assert PrintFields(fs) == [] + PrintField(fs[0]) && fs[1..] == [];
    } else {
      PrintFieldsCons(front);
      var rest, last := fs[1..], PrintField(fs[|fs| - 1]);
      assert rest[..|rest| - 1] == front[1..] && rest[|rest| - 1] == fs[|fs| - 1];
      assert PrintFields(rest) == PrintFields(front[1..]) + last;
      var a, b := PrintField(fs[0]), PrintFields(front[1..]);
      assert (a + b) + last == a + (b + last);
    }
  }

  lemma BodyIsSpelt(m: OutMessage)
    ensures Body(m) == SpeltBody(m)
  {
    hide FieldBytes, Spelt, Digits, Ascii, TypeText, TypeCode, PrintFields, SpeltFields, CString;
    Labels();
    FieldsAreSpelt(m.fields);
    if m.typ != UnknownType {
      CodeIsText(m.typ);
      SpeltField(TAG_MSG_TYPE, "35=", TypeText(m.typ));
    } else {
      SpeltField(TAG_MSG_TYPE, "35=", CString(m.typeText));
    }
    SpeltField(TAG_SENDER_COMP_ID, "49=", CString(m.senderCompId));
    SpeltField(TAG_TARGET_COMP_ID, "56=", CString(m.targetCompId));
    SpeltField(TAG_MSG_SEQ_NUM, "34=", Digits(m.msgSeqNum));
    SpeltField(TAG_SENDING_TIME, "52=", CString(m.strNow));
  }

  lemma HeadIsSpelt(m: OutMessage)
    ensures Head(m) == Spelt("8=", CString(m.beginString)) + Spelt("9=", Digits(|SpeltBody(m)|))
  {
    hide FieldBytes, Spelt, Digits, Ascii, CString, Body, SpeltBody;
    Labels();
    BodyIsSpelt(m);
    SpeltField(TAG_BEGIN_STRING, "8=", CString(m.beginString));
    SpeltField(TAG_BODY_LENGTH, "9=", Digits(|Body(m)|));
  }

  /** What is printed for a message, character by character. */
  lemma FrameIsSpelt(m: OutMessage)
    ensures Frame(m) == SpeltFrame(m)
  {
    hide FieldBytes, Spelt, Digits, Ascii, CString, Body, SpeltBody, Head, ByteSum, Total;
    Labels();
    BodyIsSpelt(m);
    HeadIsSpelt(m);
    TotalIsSum(Head(m) + Body(m));
    var n := ByteSum(Head(m) + Body(m)) % 256;
    SpeltField(TAG_CHECK_SUM, "10=", ThreeDigits(n));
  }

  method PutText(tag: nat, s: seq<byte>, buf: Buffer)
    requires tag < TWO_31 && buf.Valid() && |FieldBytes(tag, CString(s))| <= buf.Remaining()
    modifies buf`end, buf.data
    ensures buf.Valid() && buf.end == old(buf.end) + |FieldBytes(tag, CString(s))|
    ensures buf.Unread() == old(buf.Unread()) + FieldBytes(tag, CString(s))
  {
    FieldUnparse(OutField(tag, StringValue(s)), buf);
  }

  method PutFields(fs: seq<OutField>, buf: Buffer)
    requires (forall f :: f in fs ==> Printable(f)) && buf.Valid() && |PrintFields(fs)| <= buf.Remaining()
    modifies buf`end, buf.data
    ensures buf.Valid() && buf.end == old(buf.end) + |PrintFields(fs)|
    ensures buf.Unread() == old(buf.Unread()) + PrintFields(fs)
  {
    hide PrintField, Printable;
    ghost var u := buf.Unread();
    assert u + [] == u;
    var i := 0;
    while i < |fs|
      invariant 0 <= i <= |fs|
      invariant buf.Valid() && |PrintFields(fs[..i])| <= |PrintFields(fs)|
      invariant buf.end == old(buf.end) + |PrintFields(fs[..i])|
      invariant buf.Unread() == u + PrintFields(fs[..i])
    {
      PrintFieldsPrefix(fs, i);
      FieldUnparse(fs[i], buf);
      i := i + 1;
    }
    assert fs[..i] == fs;
  }

  lemma {:induction false} PrintFieldsPrefix(fs: seq<OutField>, i: nat)
    requires i < |fs| && forall f :: f in fs ==> Printable(f)
    ensures Printable(fs[i])
    ensures PrintFields(fs[..i + 1]) == PrintFields(fs[..i]) + PrintField(fs[i])
    ensures |PrintFields(fs[..i + 1])| <= |PrintFields(fs)|
    decreases |fs|
  {
    hide PrintField;
    assert fs[i] in fs;
    assert fs[..i + 1][..i] == fs[..i];
    if i + 1 == |fs| {
      assert fs[..i + 1] == fs;
    } else {
      PrintFieldsPrefix(fs[..|fs| - 1], i);
      assert fs[..|fs| - 1][..i + 1] == fs[..i + 1];
    }
  }

  method PutNat(tag: nat, n: nat, buf: Buffer)
    requires tag < TWO_31 && n < TWO_63 && buf.Valid() && |FieldBytes(tag, Digits(n))| <= buf.Remaining()
    modifies buf`end, buf.data
    ensures buf.Valid() && buf.end == old(buf.end) + |FieldBytes(tag, Digits(n))|
    ensures buf.Unread() == old(buf.Unread()) + FieldBytes(tag, Digits(n))
  {
    FieldUnparse(OutField(tag, IntValue(n)), buf);
  }

  /** No type text holds a NUL. */
  lemma TypeIsCString(m: OutMessage)
    ensures TypeField(m) ==
      FieldBytes(TAG_MSG_TYPE, CString(if m.typ != UnknownType then TypeText(m.typ) else m.typeText))
  {
    if m.typ != UnknownType {
      TypeRoundTrip(m.typ);
      IndexOfUnique(TypeText(m.typ), NUL, |TypeText(m.typ)|);
    }
  }

  lemma Regroup(t: seq<byte>, a: seq<byte>, b: seq<byte>, c: seq<byte>, d: seq<byte>)
    ensures [] + t + a + b + c + d == t + (a + b + c + d)
  {
  }

  method PutBody(m: OutMessage, body: Buffer)
    requires Sendable(m) && |CString(m.strNow)| < 64
    requires body.Valid() && body.Unread() == [] && |Body(m)| <= body.Remaining()
    modifies body`end, body.data
    ensures body.Valid() && body.end == old(body.end) + |Body(m)| && body.Unread() == Body(m)
  {
    hide FieldBytes, CString, PrintFields, FieldText, Printable, Digits, TypeText;
    TypeIsCString(m);
    PutText(TAG_MSG_TYPE, if m.typ != UnknownType then TypeText(m.typ) else m.typeText, body);
    PutText(TAG_SENDER_COMP_ID, m.senderCompId, body);
    PutText(TAG_TARGET_COMP_ID, m.targetCompId, body);
    PutNat(TAG_MSG_SEQ_NUM, m.msgSeqNum, body);
    PutText(TAG_SENDING_TIME, m.strNow, body);
    Regroup(TypeField(m), FieldBytes(TAG_SENDER_COMP_ID, CString(m.senderCompId)),
            FieldBytes(TAG_TARGET_COMP_ID, CString(m.targetCompId)),
            FieldBytes(TAG_MSG_SEQ_NUM, Digits(m.msgSeqNum)), FieldBytes(TAG_SENDING_TIME, CString(m.strNow)));
    PutFields(m.fields, body);
  }

  method PutHead(m: OutMessage, bodyLength: nat, head: Buffer)
    requires bodyLength == |Body(m)| < TWO_31
    requires head.Valid() && head.Unread() == [] && |Head(m)| <= head.Remaining()
    modifies head`end, head.data
    ensures head.Valid() && head.Unread() == Head(m)
  {
    hide FieldBytes, CString, Body, Digits;
    PutText(TAG_BEGIN_STRING, m.beginString, head);
    PutNat(TAG_BODY_LENGTH, bodyLength, head);
  }

  lemma SumOfTwo(s: seq<byte>, t: seq<byte>)
    ensures (ByteSum(s) % 256 + ByteSum(t) % 256) % 256 == ByteSum(s + t) % 256
  {
    hide ByteSum;
    ByteSumConcat(s, t);
  }

  method PutTrailer(m: OutMessage, sum1: nat, sum2: nat, body: Buffer)
    requires sum1 == ByteSum(Head(m)) % 256 && sum2 == ByteSum(Body(m)) % 256
    requires body.Valid() && body.Unread() == Body(m) && |Trailer(m)| <= body.Remaining()
    modifies body`end, body.data
    ensures body.Valid() && body.Unread() == Body(m) + Trailer(m)
  {
    hide FieldBytes, Head, Body, ThreeDigits;
    var cksum := sum1 + sum2;
    SumOfTwo(Head(m), Body(m));
    FieldUnparse(OutField(TAG_CHECK_SUM, ChecksumValue(cksum % 256)), body);
  }

  /** Prints a message into two empty buffers; the head follows the body because it holds its length. */
  method MessageUnparse(m: OutMessage, head: Buffer, body: Buffer)
    requires Sendable(m) && |CString(m.strNow)| < 64 && |Body(m)| < TWO_31
    requires head != body && head.data != body.data
    requires head.Valid() && head.Unread() == [] && |Head(m)| <= head.Remaining()
    requires body.Valid() && body.Unread() == [] && |Body(m)| + |Trailer(m)| <= body.Remaining()
    modifies head`end, head.data, body`end, body.data
    ensures head.Valid() && body.Valid()
    ensures head.Unread() + body.Unread() == Frame(m) == SpeltFrame(m)
  {
    hide Body, Head, Trailer, ByteSum, SpeltFrame;
    FrameIsSpelt(m);
    PutBody(m, body);
    assert |body.Unread()| == body.Size();
    PutHead(m, body.Size(), head);
    var sum1 := SumRange(head.data, head.start, head.end);
    var sum2 := SumRange(body.data, body.start, body.end);
    PutTrailer(m, sum1, sum2, body);
  }
}
