/**
 The meaning of the parser of src/libtrading/proto/fix_message.c as functions of the unread bytes.
 Every scan says how many bytes it consumes, so that scanning depends on nothing before them.
 */
module FixScan {
  import opened Bytes
  import opened Atoi
  import opened Decimal
  import opened Buffers
  import opened FixTypes

  /** A parsed field. The text of a float is what `strtod` is given. */
  datatype Field =
    | IntField(tag: int, intValue: int)
    | FloatField(tag: int, floatText: seq<byte>)
    | CharField(tag: int, charValue: byte)
    | StringField(tag: int, text: seq<byte>)

  /** The part of `s` before the first `c`. */
  function UpTo(s: seq<byte>, c: byte): seq<byte> {
    s[..IndexOf(s, c)]
  }

  datatype TagScan = NoTag | BadTag(at: nat) | Tag(tag: int, n: nat)

  /** Digits up to the first '='. */
  function ScanTag(u: seq<byte>): (r: TagScan)
    ensures r.BadTag? ==> r.at < |u|
    ensures r.Tag? ==> 1 <= r.n <= |u|
  {
    var k := IndexOf(u, EQ);
    if k == |u| then NoTag
    else if DigitRun(u) != k then BadTag(k)
    else Tag(UatoiOf(u), k + 1)
  }

  /** One field: `val` is the offset of its value, `n` the bytes up to and including its SOH. */
  datatype FieldScan = Partial | Garbled(n: nat) | Scanned(tag: int, val: nat, n: nat)

  /** Where `next_tag` stops when started at offset `i`. */
  function SkipField(u: seq<byte>, i: nat): (n: nat)
    requires i <= |u|
    ensures i <= n <= |u|
    ensures i < |u| ==> i < n
  {
    var k := i + IndexOf(u[i..], SOH);
    if k == |u| then k else k + 1
  }

  function ScanValue(u: seq<byte>, tag: int, n: nat): (r: FieldScan)
    requires 1 <= n <= |u|
    ensures r.Scanned? ==> n == r.val < r.n <= |u| && u[r.n - 1] == SOH
  {
    var k := n + IndexOf(u[n..], SOH);
    if k == |u| then Partial else Scanned(tag, n, k + 1)
  }

  function ScanField(u: seq<byte>): (r: FieldScan)
    ensures r.Garbled? ==> 0 < r.n <= |u|
    ensures r.Scanned? ==> 1 <= r.val < r.n <= |u| && u[r.n - 1] == SOH
  {
    match ScanTag(u)
    case NoTag => Partial
    case BadTag(k) => Garbled(SkipField(u, k))
    case Tag(tag, n) => ScanValue(u, tag, n)
  }

  /** A field that must carry `tag`. */
  function ScanExpected(u: seq<byte>, tag: int): (r: FieldScan)
    ensures r.Garbled? ==> 0 < r.n <= |u|
    ensures r.Scanned? ==> r.tag == tag && 1 <= r.val < r.n <= |u| && u[r.n - 1] == SOH
  {
    match ScanTag(u)
    case NoTag => Partial
    case BadTag(k) => Garbled(SkipField(u, k))
    case Tag(t, n) => if t != tag then Garbled(SkipField(u, n)) else ScanValue(u, t, n)
  }

  /** The value of a scanned field, without its SOH. */
  function ValueOf(u: seq<byte>, f: FieldScan): seq<byte>
    requires f.Scanned? && f.val < f.n <= |u|
  {
    u[f.val..f.n - 1]
  }

  /** A field as the parser stores it; `v` is the value with its SOH. */
  function TypedField(tag: int, v: seq<byte>): (f: Field)
    requires v != []
    ensures f.tag == tag
  {
    match TagKind(tag)
    case IntKind => IntField(tag, Atoi64Of(v))
    case FloatKind => FloatField(tag, v[..|v| - 1])
    case CharKind => CharField(tag, v[0])
    case _ => StringField(tag, v[..|v| - 1])
  }

  /** What `rest_of_message` leaves behind: nothing counts unless CheckSum was reached. */
  datatype Rest = Rest(seqNum: int, fields: seq<Field>, n: nat)

  /** `seqNum` and `done` are the state accumulated before `u`. */
  function ScanRest(u: seq<byte>, seqNum: int, done: seq<Field>): (r: Rest)
    ensures r.n <= |u|
  {
    match ScanField(u)
    case Partial => Rest(seqNum, [], |u|)
    case Garbled(n) => Rest(seqNum, [], n)
    case Scanned(tag, val, n) =>
      var kind := TagKind(tag);
      if kind == ChecksumKind then Rest(seqNum, done, n)
      else
        var r :=
          if kind == SeqNumKind then ScanRest(u[n..], UatoiOf(u[val..n]), done)
          else ScanRest(u[n..], seqNum, done + [TypedField(tag, u[val..n])]);
        r.(n := n + r.n)
  }

  /** How many slots of the field table the scan fills, whether or not it gets to CheckSum. */
  function Slots(u: seq<byte>): nat {
    match ScanField(u)
    case Scanned(tag, _, n) =>
      var kind := TagKind(tag);
      if kind == ChecksumKind then 0 else (if kind == SeqNumKind then 0 else 1) + Slots(u[n..])
    case _ => 0
  }

  /** A message as the receiver sees it. */
  datatype Message = Message(typ: MsgType, beginString: seq<byte>, seqNum: int, fields: seq<Field>)

  /** BodyLength, with the length in place of the tag. */
  function ScanLength(u: seq<byte>): (r: FieldScan)
    ensures r.Garbled? ==> 0 < r.n <= |u|
    ensures r.Scanned? ==> 0 < r.tag <= FIX_MAX_MESSAGE_SIZE && 1 <= r.val < r.n <= |u|
  {
    match ScanExpected(u, TAG_BODY_LENGTH)
    case Scanned(_, val, n) =>
      var len := UatoiOf(u[val..n]);
      if len <= 0 || len > FIX_MAX_MESSAGE_SIZE then Garbled(n) else Scanned(len, val, n)
    case other => other
  }

  /** MsgType, garbled when the type is unknown. */
  function ScanType(u: seq<byte>): (r: FieldScan)
    ensures r.Garbled? ==> 0 < r.n <= |u|
    ensures r.Scanned? ==> 3 <= r.val < r.n <= |u| && TypeOfText(ValueOf(u, r)) != UnknownType
  {
    var f := ScanExpected(u, TAG_MSG_TYPE);
    if f.Scanned? then
      LongTag(u, TAG_MSG_TYPE);
      if TypeOfText(ValueOf(u, f)) == UnknownType then Garbled(f.n) else f
    else f
  }

  /** The first three fields: `val1` is the offset of the BeginString value and `body` that of "35=". */
  datatype HeadScan =
    | HeadPartial
    | HeadSkip(n: nat)
    | HeadOk(typ: MsgType, val1: nat, bodyLength: nat, body: nat, n: nat)

  function ScanHead(u: seq<byte>): (r: HeadScan)
    ensures r.HeadSkip? ==> 0 < r.n <= |u|
    ensures r.HeadOk? ==> 2 <= r.val1 <= r.body < r.n <= |u| && 0 < r.bodyLength <= FIX_MAX_MESSAGE_SIZE
  {
    match ScanExpected(u, TAG_BEGIN_STRING)
    case Partial => HeadPartial
    case Garbled(n) => HeadSkip(n)
    case Scanned(_, val1, n1) =>
      LongTag(u, TAG_BEGIN_STRING);
      match ScanLength(u[n1..])
      case Partial => HeadPartial
      case Garbled(n) => HeadSkip(n1 + n)
      case Scanned(len, _, n2) =>
        var a := n1 + n2;
        match ScanType(u[a..])
        case Partial => HeadPartial
        case Garbled(n) => HeadSkip(a + n)
        case Scanned(_, val3, n3) =>
          HeadOk(TypeOfText(u[a..][val3..n3 - 1]), val1, len, a + val3 - 3, a + n3)
  }

  datatype Attempt = NeedMore | Skip(n: nat) | Got(msg: Message, n: nat)

  /** One pass of the retry loop over `u`; `seqNum` is the number left from the previous message. */
  function Try(u: seq<byte>, seqNum: int): (r: Attempt)
    ensures r.Skip? ==> 0 < r.n <= |u|
    ensures r.Got? ==> 0 < r.n <= |u|
  {
    match ScanHead(u)
    case HeadPartial => NeedMore
    case HeadSkip(n) => Skip(n)
    case HeadOk(typ, val1, len, body, st) =>
      if |u| - body < len + 7 then NeedMore
      else
        match ScanTrailer(u, val1, body + len)
        case TrailerPartial => NeedMore
        case TrailerBad(n) => Skip(n)
        case TrailerGood =>
          var rest := ScanRest(u[st..], seqNum, []);
          Got(Message(typ, BeginValue(u, val1), rest.seqNum, rest.fields), st + rest.n)
  }

  /** The BeginString value, whose offset is `val1`. */
  function BeginValue(u: seq<byte>, val1: nat): seq<byte>
    requires val1 <= |u|
  {
    UpTo(u[val1..], SOH)
  }

  datatype TrailerScan = TrailerPartial | TrailerBad(n: nat) | TrailerGood

  /** The trailer at offset `c` against the sum of the bytes before it. */
  function ScanTrailer(u: seq<byte>, val1: nat, c: nat): (r: TrailerScan)
    requires 2 <= val1 < c <= |u|
    ensures r.TrailerBad? ==> c < r.n <= |u|
  {
    match ScanExpected(u[c..], TAG_CHECK_SUM)
    case Partial => TrailerPartial
    case Garbled(n) => TrailerBad(c + n)
    case Scanned(_, val, n) =>
      LongTag(u[c..], TAG_CHECK_SUM);
      if UatoiOf(u[c + val..c + n]) == ByteSum(u[val1 - 2..c + val - 3]) % 256
      then TrailerGood else TrailerBad(c + n)
  }

  /** A positive tag takes a digit and the '='; one above nine takes two digits. */
  lemma LongTag(u: seq<byte>, tag: int)
    requires tag > 0 && ScanExpected(u, tag).Scanned?
    ensures ScanExpected(u, tag).val >= if tag > 9 then 3 else 2
  {
    var k := DigitRun(u);
    assert tag == UatoiOf(u) && ScanExpected(u, tag).val == k + 1;
    assert u[..0] == [] && (k > 0 ==> u[..1][..0] == []);
    if k == 1 {
      assert Value(u[..1]) == u[0] - ZERO;
    }
  }

  datatype Outcome = NoMessage(n: nat) | Parsed(msg: Message, n: nat)

  function Shift(r: Outcome, n: nat): Outcome {
    r.(n := n + r.n)
  }

  /** The whole retry loop: `n` bytes are consumed, by garbled tries and by the message if there is one. */
  function Parse(u: seq<byte>, seqNum: int): (r: Outcome)
    ensures r.n <= |u|
    ensures r.Parsed? ==> r.n > 0
  {
    if u == [] then NoMessage(0)
    else
      match Try(u, seqNum)
      case NeedMore => NoMessage(0)
      case Got(msg, n) => Parsed(msg, n)
      case Skip(n) => Shift(Parse(u[n..], seqNum), n)
  }

  /** The retry loop unrolled once. */
  lemma ParseStep(u: seq<byte>, seqNum: int)
    ensures u == [] ==> Parse(u, seqNum) == NoMessage(0)
    ensures var t := Try(u, seqNum); u != [] ==>
      && (t.NeedMore? ==> Parse(u, seqNum) == NoMessage(0))
      && (t.Got? ==> Parse(u, seqNum) == Parsed(t.msg, t.n))
      && (t.Skip? ==> Parse(u, seqNum) == Shift(Parse(u[t.n..], seqNum), t.n))
  {
  }
}
