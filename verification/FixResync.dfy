/** The retry loop of the parser on arbitrary bytes: it ends, returns only checked frames, finds the next frame. */
module FixResync {
  import opened Bytes
  import opened Decimal
  import opened Atoi
  import opened Itoa
  import opened Buffers
  import opened FixTypes
  import opened FixScan
  import opened FixMessages
  import opened FixPrint
  import opened FixRoundTrip

  /** What is left unread when there is no message: a suffix on which a further call changes nothing. */
  lemma {:induction false} LeftoverIsSettled(u: seq<byte>, seqNum: int)
    requires Parse(u, seqNum).NoMessage?
    ensures var rest := u[Parse(u, seqNum).n..];
      Parse(rest, seqNum) == NoMessage(0) && (rest != [] ==> Try(rest, seqNum) == NeedMore)
    decreases |u|
  {
    hide Parse, Try;
    ParseStep(u, seqNum);
    if u != [] && Try(u, seqNum).Skip? {
      var k := Try(u, seqNum).n;
      LeftoverIsSettled(u[k..], seqNum);
      assert u[k..][Parse(u[k..], seqNum).n..] == u[Parse(u, seqNum).n..];
    } else {
      assert u[0..] == u;
    }
  }

  /** A garbled attempt consumes something; with a whole head it passes where BodyLength pointed, even backwards. */
  lemma SkipGoesForward(u: seq<byte>, seqNum: int)
    requires Try(u, seqNum).Skip?
    ensures 0 < Try(u, seqNum).n <= |u|
    ensures var h := ScanHead(u); h.HeadOk? ==> h.body + h.bodyLength < Try(u, seqNum).n
  {
    hide ScanHead, ScanTrailer;
  }

  /** The bytes from BeginString up to the CheckSum field add up to the CheckSum value. */
  predicate SumAgrees(u: seq<byte>) {
    var h := ScanHead(u);
    && h.HeadOk? && h.body + h.bodyLength <= |u|
    && var c := h.body + h.bodyLength;
       var f := ScanExpected(u[c..], TAG_CHECK_SUM);
       && f.Scanned? && h.val1 - 2 <= c + f.val - 3 <= |u| && c + f.n <= |u|
       && UatoiOf(u[c + f.val..c + f.n]) == ByteSum(u[h.val1 - 2..c + f.val - 3]) % 256
  }

  lemma GotIsChecked(u: seq<byte>, seqNum: int)
    requires Try(u, seqNum).Got?
    ensures SumAgrees(u)
  {
    hide ScanHead, ScanTrailer, ScanRest, ScanExpected, UatoiOf, ByteSum;
    var h := ScanHead(u);
    TrailerCases(u, h.val1, h.body + h.bodyLength);
  }

  /** Whatever the bytes, a message is only ever returned from a place where head, trailer and sum agree. */
  lemma {:induction false} ReturnedIsChecked(u: seq<byte>, seqNum: int) returns (k: nat)
    requires Parse(u, seqNum).Parsed?
    ensures k < Parse(u, seqNum).n && SumAgrees(u[k..])
    ensures Try(u[k..], seqNum) == Got(Parse(u, seqNum).msg, Parse(u, seqNum).n - k)
    decreases |u|
  {
    hide Parse, Try, SumAgrees;
    ParseStep(u, seqNum);
    if Try(u, seqNum).Got? {
      GotIsChecked(u, seqNum);
      assert u[0..] == u;
      k := 0;
    } else {
      var n := Try(u, seqNum).n;
      k := ReturnedIsChecked(u[n..], seqNum);
      assert u[n..][k..] == u[n + k..];
      k := n + k;
    }
  }

  // ---- how much a returned message consumes

  /** Where the field scan gets to, seen from a trailer `k` bytes ahead. */
  datatype Walk = AtTrailer | StopsBefore | StopsBeyond | RunsOver

  /** BodyLength plays no part in the scan: fields are taken one by one up to the first CheckSum or garbled one. */
  function WalkTo(w: seq<byte>, k: int): Walk
    decreases |w|
  {
    if k == 0 then AtTrailer
    else if k < 0 then RunsOver
    else
      match ScanField(w)
      case Partial => StopsBeyond
      case Garbled(n) => if n <= k then StopsBefore else StopsBeyond
      case Scanned(tag, _, n) =>
        if TagKind(tag) != ChecksumKind then WalkTo(w[n..], k - n)
        else if n <= k then StopsBefore else StopsBeyond
  }

  lemma ExpectedIsField(u: seq<byte>, tag: int)
    requires ScanExpected(u, tag).Scanned?
    ensures ScanField(u) == ScanExpected(u, tag)
  {
    hide ScanTag, ScanValue;
  }

  /** Inside a scanned field the only SOH is its last byte, and there is an '=' in front of it. */
  lemma InsideField(u: seq<byte>, tag: int)
    requires ScanExpected(u, tag).Scanned?
    ensures var f := ScanExpected(u, tag);
      u[f.val - 1] == EQ && u[f.n - 1] == SOH && forall i :: 0 <= i < f.n - 1 ==> u[i] != SOH
  {
    hide Wrap32, Value;
    var f := ScanExpected(u, tag);
    forall i | 0 <= i < f.n - 1 ensures u[i] != SOH {
      if i >= f.val {
        assert u[f.val..][i - f.val] == u[i];
      }
    }
  }

  lemma FirstSoh(w: seq<byte>, s: nat, k: nat, end: nat)
    requires s < end <= |w| && k < end && w[end - 1] == SOH && forall i :: k <= i < end - 1 ==> w[i] != SOH
    ensures s + IndexOf(w[s..], SOH) < k || s + IndexOf(w[s..], SOH) == end - 1
  {
    var j := IndexOf(w[s..], SOH);
    assert w[s..][end - 1 - s] == SOH;
    assert j < |w[s..]| && w[s + j] == SOH;
  }

  /** A field that starts in front of a trailer ends in front of it, or together with it. */
  lemma PieceEnds(w: seq<byte>, k: nat)
    requires 0 < k <= |w| && ScanExpected(w[k..], TAG_CHECK_SUM).Scanned?
    ensures var g, end := ScanField(w), k + ScanExpected(w[k..], TAG_CHECK_SUM).n;
      !g.Partial? && (g.n <= k || g.n == end)
  {
    hide DigitRun, UatoiOf, IndexOf, ScanExpected;
    var f := ScanExpected(w[k..], TAG_CHECK_SUM);
    InsideField(w[k..], TAG_CHECK_SUM);
    var end, a := k + f.n, IndexOf(w, EQ);
    assert w[k + f.val - 1] == EQ && w[end - 1] == SOH;
    assert forall i :: k <= i < end - 1 ==> w[i] == w[k..][i - k];
    assert a <= k + f.val - 1 by { FirstEquals(w, k + f.val - 1); }
    FirstSoh(w, a, k, end);
    FirstSoh(w, a + 1, k, end);
  }

  lemma FirstEquals(w: seq<byte>, i: nat)
    requires i < |w| && w[i] == EQ
    ensures IndexOf(w, EQ) <= i
  {
  }

  /** How far the field scan gets. */
  lemma {:induction false} ScanPassesTrailer(w: seq<byte>, k: nat, seqNum: int, done: seq<Field>)
    requires k <= |w| && ScanExpected(w[k..], TAG_CHECK_SUM).Scanned?
    ensures var n, end := ScanRest(w, seqNum, done).n, k + ScanExpected(w[k..], TAG_CHECK_SUM).n;
      match WalkTo(w, k)
      case StopsBefore => n <= k
      case RunsOver => end <= n && (n == end <==> |w| == end)
      case _ => n == end
    decreases |w|
  {
    hide ScanField, ScanExpected, TypedField, UatoiOf;
    var f := ScanExpected(w[k..], TAG_CHECK_SUM);
    if k == 0 {
      assert w[0..] == w;
      ExpectedIsField(w, TAG_CHECK_SUM);
      RestUnrolled(w, seqNum, done);
    } else {
      PieceEnds(w, k);
      var g := ScanField(w);
      if g.Scanned? && TagKind(g.tag) != ChecksumKind {
        RestUnrolled(w, seqNum, done);
        var isNumber := TagKind(g.tag) == SeqNumKind;
        var seqNum' := if isNumber then UatoiOf(w[g.val..g.n]) else seqNum;
        var done' := if isNumber then done else done + [TypedField(g.tag, w[g.val..g.n])];
        if g.n <= k {
          assert w[g.n..][k - g.n..] == w[k..];
          ScanPassesTrailer(w[g.n..], k - g.n, seqNum', done');
        } else {
          ScanTakesSome(w[g.n..], seqNum', done');
          BehindTrailer(w[g.n..], k - g.n);
        }
      }
    }
  }

  lemma ScanTakesSome(u: seq<byte>, seqNum: int, done: seq<Field>)
    ensures ScanRest(u, seqNum, done).n == 0 <==> u == []
  {
    hide TypedField, UatoiOf;
  }

  /** A CheckSum field, right or wrong, stands at `c` and ends at `end`. */
  predicate TrailerAt(u: seq<byte>, c: nat, end: nat) {
    && c < end <= |u|
    && var f := ScanExpected(u[c..], TAG_CHECK_SUM);
       f.Scanned? && end == c + f.n
  }

  /** Where the MsgType field stands. */
  lemma HeadPlace(u: seq<byte>) returns (a: nat)
    requires ScanHead(u).HeadOk?
    ensures a <= ScanHead(u).body && a < |u|
    ensures ScanExpected(u[a..], TAG_MSG_TYPE).Scanned? && ScanHead(u).n == a + ScanExpected(u[a..], TAG_MSG_TYPE).n
  {
    hide ScanExpected, TypeOfText;
    var n1 := ScanExpected(u, TAG_BEGIN_STRING).n;
    a := n1 + ScanLength(u[n1..]).n;
  }

  /** That field, too, ends in front of the trailer or together with it. */
  lemma HeadEnds(u: seq<byte>, end: nat)
    requires var h := ScanHead(u); h.HeadOk? && TrailerAt(u, h.body + h.bodyLength, end)
    ensures var h := ScanHead(u); h.n <= h.body + h.bodyLength || h.n == end
  {
    hide ScanHead, ScanExpected, ScanField;
    var a := HeadPlace(u);
    var c := ScanHead(u).body + ScanHead(u).bodyLength;
    ExpectedIsField(u[a..], TAG_MSG_TYPE);
    assert u[a..][c - a..] == u[c..];
    PieceEnds(u[a..], c - a);
  }

  /** The scan of the fields from `st` on, with a trailer at `c`, consumes the bytes up to `n`. */
  predicate EndsAsWalked(u: seq<byte>, st: nat, c: nat, end: nat, n: nat)
    requires st <= |u|
  {
    var walk := WalkTo(u[st..], c - st);
    && (n == end <==> walk.AtTrailer? || walk.StopsBeyond? || (walk.RunsOver? && |u| == end))
    && (n < end <==> walk.StopsBefore?)
  }

  lemma ScanFrom(u: seq<byte>, st: nat, c: nat, end: nat, seqNum: int)
    requires st <= |u| && TrailerAt(u, c, end) && (st <= c || st == end)
    ensures EndsAsWalked(u, st, c, end, st + ScanRest(u[st..], seqNum, []).n)
  {
    hide ScanRest, ScanExpected, WalkTo;
    var w := u[st..];
    if st <= c {
      assert w[c - st..] == u[c..];
      ScanPassesTrailer(w, c - st, seqNum, []);
    } else {
      ScanTakesSome(w, seqNum, []);
      BehindTrailer(w, c - st);
    }
  }

  /**
   Where a returned message ends, whatever the bytes. It ends with its trailer exactly when the field scan
   arrives there, or stops at a CheckSum or garbled field that swallowed the trailer, or has run over the last
   bytes there are. It ends earlier exactly when the scan stops before, and it runs on into what follows in all
   other cases.
   */
  lemma ConsumedLength(u: seq<byte>, seqNum: int) returns (end: nat)
    requires Try(u, seqNum).Got?
    ensures var h := ScanHead(u);
      && h.HeadOk? && TrailerAt(u, h.body + h.bodyLength, end)
      && EndsAsWalked(u, h.n, h.body + h.bodyLength, end, Try(u, seqNum).n)
  {
    hide ScanHead, ScanRest, ScanExpected, SumAgrees, TrailerAt, EndsAsWalked, Try;
    GotIsChecked(u, seqNum);
    GotRest(u, seqNum);
    end := SumPlace(u);
    HeadEnds(u, end);
    var h := ScanHead(u);
    ScanFrom(u, h.n, h.body + h.bodyLength, end, seqNum);
  }

  lemma BehindTrailer(w: seq<byte>, k: int)
    requires k < 0
    ensures WalkTo(w, k) == RunsOver
  {
  }

  lemma GotRest(u: seq<byte>, seqNum: int)
    requires Try(u, seqNum).Got?
    ensures ScanHead(u).HeadOk? && Try(u, seqNum).n == ScanHead(u).n + ScanRest(u[ScanHead(u).n..], seqNum, []).n
  {
    hide ScanHead, ScanTrailer, ScanRest;
  }

  lemma SumPlace(u: seq<byte>) returns (end: nat)
    requires SumAgrees(u)
    ensures var h := ScanHead(u); h.HeadOk? && TrailerAt(u, h.body + h.bodyLength, end)
  {
    hide ScanHead, ScanExpected, UatoiOf, ByteSum;
    var c := ScanHead(u).body + ScanHead(u).bodyLength;
    end := c + ScanExpected(u[c..], TAG_CHECK_SUM).n;
  }

  /** A body field without its SOH, in a frame whose sum is right. */
  function OpenField(tag: nat, v: seq<byte>): seq<byte> {
    Digits(tag) + [EQ] + v
  }

  /** Its value takes the trailer in, and the scan goes on behind the frame. */
  lemma OpenFieldRunsOver(bs: seq<byte>, typ: MsgType, tag: nat, v: seq<byte>, ck: seq<byte>,
                          tail: seq<byte>, seqNum: int)
    requires tag < TWO_31 && TagKind(tag) == StringKind && Clean(v) && RawOk(bs, typ, OpenField(tag, v), ck)
    requires var body := RawBody(typ, OpenField(tag, v));
      UatoiOf(ck + [SOH]) == ByteSum(RawHead(bs, |body|) + body) % 256
    ensures var text := v + Digits(TAG_CHECK_SUM) + [EQ] + ck;
      var u, rest := RawFrame(bs, typ, OpenField(tag, v), ck), ScanRest(tail, seqNum, [StringField(tag, text)]);
      Try(u + tail, seqNum) == Got(Message(typ, bs, rest.seqNum, rest.fields), |u| + rest.n)
  {
    hide RawBody, RawHead, RawFrame, UatoiOf, ByteSum, Try, ScanRest, Digits, TagKind, TypedField;
    hide OpenField, FieldBytes, Clean, TypeText;
    var r, text := OpenField(tag, v), v + Digits(TAG_CHECK_SUM) + [EQ] + ck;
    TryRaw(bs, typ, r, ck, tail, seqNum);
    OpenText(tag, v, ck);
    RestOfText(tag, text, tail, seqNum);
    RawLength(bs, typ, r, ck);
  }

  lemma OpenText(tag: nat, v: seq<byte>, ck: seq<byte>)
    requires Clean(v) && Clean(ck)
    ensures var text := v + Digits(TAG_CHECK_SUM) + [EQ] + ck;
      Clean(text) && OpenField(tag, v) + FieldBytes(TAG_CHECK_SUM, ck) == FieldBytes(tag, text)
  {
    hide Digits;
    DigitsClean(TAG_CHECK_SUM);
    var d := Digits(TAG_CHECK_SUM);
    assert forall i :: 0 <= i < |d| ==> d[i] != SOH;
  }

  lemma RestOfText(tag: nat, text: seq<byte>, tail: seq<byte>, seqNum: int)
    requires tag < TWO_31 && TagKind(tag) == StringKind && Clean(text)
    ensures ScanRest(FieldBytes(tag, text) + tail, seqNum, []) ==
      Later(ScanRest(tail, seqNum, [StringField(tag, text)]), |FieldBytes(tag, text)|)
  {
    hide ScanRest, FieldBytes, TagKind;
    PlainKind(tag);
    RestOfPlain(tag, text, tail, seqNum, []);
    assert (text + [SOH])[..|text|] == text;
    assert [] + [StringField(tag, text)] == [StringField(tag, text)];
  }

  lemma RawLength(bs: seq<byte>, typ: MsgType, r: seq<byte>, ck: seq<byte>)
    requires typ != UnknownType
    ensures |RawFrame(bs, typ, r, ck)| ==
      |RawHead(bs, |RawBody(typ, r)|)| + |FieldBytes(TAG_MSG_TYPE, TypeText(typ))| + |r + FieldBytes(TAG_CHECK_SUM, ck)|
  {
    hide FieldBytes, RawHead, TypeText;
  }

  /** Exactly a BodyLength of zero or above 1280 is garbled, and the search goes on right behind it. */
  lemma LengthRefused(bs: seq<byte>, len: nat, rest: seq<byte>, seqNum: int)
    requires Clean(bs) && len < TWO_31
    ensures Try(RawHead(bs, len) + rest, seqNum) == Skip(|RawHead(bs, len)|) <==> len == 0 || len > 1280
  {
    hide FieldBytes, ScanExpected, ScanType, ScanTrailer, ScanRest, UatoiOf, Digits;
    var b, l := FieldBytes(TAG_BEGIN_STRING, bs), FieldBytes(TAG_BODY_LENGTH, Digits(len));
    var u := RawHead(bs, len) + rest;
    assert u == b + (l + rest);
    ScanPrinted(TAG_BEGIN_STRING, bs, l + rest);
    assert u[|b|..] == l + rest;
    LengthScan(len, rest);
  }

  lemma LengthScan(len: nat, rest: seq<byte>)
    requires len < TWO_31
    ensures var l := FieldBytes(TAG_BODY_LENGTH, Digits(len));
      ScanLength(l + rest) == if 0 < len <= 1280 then Scanned(len, 2, |l|) else Garbled(|l|)
  {
    hide FieldBytes, ScanExpected, UatoiOf, Digits;
    var l := FieldBytes(TAG_BODY_LENGTH, Digits(len));
    DigitsClean(len);
    OneDigit(TAG_BODY_LENGTH);
    ScanPrinted(TAG_BODY_LENGTH, Digits(len), rest);
    FieldParts(TAG_BODY_LENGTH, Digits(len), rest);
    UatoiReadsDigits(len, [SOH]);
  }

  // ---- noise in front of a frame

  /** A field that does not start a message is skipped by itself. */
  lemma ForeignFieldSkipped(tag: nat, v: seq<byte>, rest: seq<byte>, seqNum: int)
    requires tag < TWO_31 && tag != TAG_BEGIN_STRING && Clean(v)
    ensures Parse(FieldBytes(tag, v) + rest, seqNum) == Shift(Parse(rest, seqNum), |FieldBytes(tag, v)|)
  {
    hide Parse, FieldBytes, Digits;
    var u, k := FieldBytes(tag, v) + rest, |Digits(tag)|;
    FieldParts(tag, v, rest);
    ScanForeign(tag, v, rest);
    TryForeign(u, |FieldBytes(tag, v)|, seqNum);
    ParseStep(u, seqNum);
  }

  lemma ScanForeign(tag: nat, v: seq<byte>, rest: seq<byte>)
    requires tag < TWO_31 && tag != TAG_BEGIN_STRING && Clean(v)
    ensures ScanExpected(FieldBytes(tag, v) + rest, TAG_BEGIN_STRING) == Garbled(|FieldBytes(tag, v)|)
  {
    hide FieldBytes, Digits, UatoiOf;
    var u, k := FieldBytes(tag, v) + rest, |Digits(tag)|;
    FieldParts(tag, v, rest);
    assert forall i :: 0 <= i < k ==> u[i] == Digits(tag)[i];
    IndexOfUnique(u, EQ, k);
    UatoiReadsDigits(tag, [EQ] + (v + ([SOH] + rest)));
    var w := v + ([SOH] + rest);
    assert w[|v|] == SOH && forall i :: 0 <= i < |v| ==> w[i] == v[i];
    IndexOfUnique(w, SOH, |v|);
  }

  lemma TryForeign(u: seq<byte>, n: nat, seqNum: int)
    requires ScanExpected(u, TAG_BEGIN_STRING) == Garbled(n)
    ensures Try(u, seqNum) == Skip(n)
  {
    hide ScanExpected, ScanLength, ScanType, ScanTrailer, ScanRest;
  }

  predicate Foreign(f: OutField) {
    f.tag < TWO_31 && f.tag != TAG_BEGIN_STRING && Clean(FieldText(f.value))
  }

  lemma {:induction false} ForeignFieldsSkipped(fs: seq<OutField>, rest: seq<byte>, seqNum: int)
    requires forall f :: f in fs ==> Foreign(f)
    ensures Parse(PrintFields(fs) + rest, seqNum) == Shift(Parse(rest, seqNum), |PrintFields(fs)|)
  {
    hide Parse, FieldText, FieldBytes;
    if fs == [] {
      assert PrintFields(fs) + rest == rest;
    } else {
      var front, f := fs[..|fs| - 1], fs[|fs| - 1];
      assert f in fs;
      assert PrintFields(fs) + rest == PrintFields(front) + (PrintField(f) + rest);
      ForeignFieldsSkipped(front, PrintField(f) + rest, seqNum);
      ForeignFieldSkipped(f.tag, FieldText(f.value), rest, seqNum);
    }
  }

  /** A frame that lost its BeginString field is skipped field by field. */
  function Beheaded(m: OutMessage): seq<byte> {
    FieldBytes(TAG_BODY_LENGTH, Digits(|Body(m)|)) + Body(m) + Trailer(m)
  }

  /** No own field looks like the start of another frame. */
  predicate NoBeginString(m: OutMessage) {
    forall f :: f in m.fields ==> f.tag != TAG_BEGIN_STRING
  }

  lemma HeaderSkipped(m: OutMessage, rest: seq<byte>, seqNum: int)
    requires Framed(m)
    ensures Parse(HeaderFields(m) + rest, seqNum) == Shift(Parse(rest, seqNum), |HeaderFields(m)|)
  {
    hide Parse, FieldBytes, CString, Body, Receivable, Printable, Digits;
    var a := FieldBytes(TAG_SENDER_COMP_ID, CString(m.senderCompId));
    var b := FieldBytes(TAG_TARGET_COMP_ID, CString(m.targetCompId));
    var c := FieldBytes(TAG_MSG_SEQ_NUM, Digits(m.msgSeqNum));
    var d := FieldBytes(TAG_SENDING_TIME, CString(m.strNow));
    assert HeaderFields(m) + rest == a + (b + (c + (d + rest)));
    DigitsClean(m.msgSeqNum);
    ForeignFieldSkipped(TAG_SENDER_COMP_ID, CString(m.senderCompId), b + (c + (d + rest)), seqNum);
    ForeignFieldSkipped(TAG_TARGET_COMP_ID, CString(m.targetCompId), c + (d + rest), seqNum);
    ForeignFieldSkipped(TAG_MSG_SEQ_NUM, Digits(m.msgSeqNum), d + rest, seqNum);
    ForeignFieldSkipped(TAG_SENDING_TIME, CString(m.strNow), rest, seqNum);
  }

  lemma AfterTypeSkipped(m: OutMessage, rest: seq<byte>, seqNum: int)
    requires Framed(m) && NoBeginString(m)
    ensures Parse(AfterType(m) + rest, seqNum) == Shift(Parse(rest, seqNum), |AfterType(m)|)
  {
    hide Parse, FieldBytes, CString, HeaderFields, PrintFields, FieldText, TypeText, Body;
    var fs := PrintFields(m.fields);
    assert AfterType(m) + rest == HeaderFields(m) + (fs + rest);
    HeaderSkipped(m, fs + rest, seqNum);
    ForeignFieldsSkipped(m.fields, rest, seqNum);
  }

  lemma BodySkipped(m: OutMessage, rest: seq<byte>, seqNum: int)
    requires Framed(m) && NoBeginString(m)
    ensures Parse(Body(m) + rest, seqNum) == Shift(Parse(rest, seqNum), |Body(m)|)
  {
    hide Parse, FieldBytes, CString, HeaderFields, PrintFields, FieldText, TypeText, Framed, NoBeginString;
    BodyParts(m);
    assert Body(m) + rest == TypeField(m) + (AfterType(m) + rest);
    TypeRoundTrip(m.typ);
    ForeignFieldSkipped(TAG_MSG_TYPE, TypeText(m.typ), AfterType(m) + rest, seqNum);
    AfterTypeSkipped(m, rest, seqNum);
  }

  lemma BodyParts(m: OutMessage)
    requires Framed(m)
    ensures Body(m) == TypeField(m) + AfterType(m)
    ensures m.typ != UnknownType && TypeField(m) == FieldBytes(TAG_MSG_TYPE, TypeText(m.typ))
  {
    hide FieldBytes, HeaderFields, PrintFields, TypeText;
  }

  lemma BeheadedSkipped(m: OutMessage, rest: seq<byte>, seqNum: int)
    requires Framed(m) && NoBeginString(m)
    ensures Parse(Beheaded(m) + rest, seqNum) == Shift(Parse(rest, seqNum), |Beheaded(m)|)
  {
    hide Parse, FieldBytes, Body, Digits, Framed, SumText;
    var l, b, t := FieldBytes(TAG_BODY_LENGTH, Digits(|Body(m)|)), Body(m), Trailer(m);
    assert Beheaded(m) + rest == l + (b + (t + rest));
    DigitsClean(|Body(m)|);
    ForeignFieldSkipped(TAG_BODY_LENGTH, Digits(|Body(m)|), b + (t + rest), seqNum);
    BodySkipped(m, t + rest, seqNum);
    TrailerSkipped(m, rest, seqNum);
  }

  lemma TrailerSkipped(m: OutMessage, rest: seq<byte>, seqNum: int)
    ensures Parse(Trailer(m) + rest, seqNum) == Shift(Parse(rest, seqNum), |Trailer(m)|)
  {
    hide Parse, FieldBytes, Head, Body, ByteSum, ThreeDigits;
    var n := ByteSum(Head(m) + Body(m)) % 256;
    SumTextValue(n);
    ForeignFieldSkipped(TAG_CHECK_SUM, ThreeDigits(n), rest, seqNum);
  }

  // ---- types the tables disagree on

  lemma HeadUnreadable(bs: seq<byte>, typ: MsgType, len: nat, rest: seq<byte>)
    requires typ != UnknownType && !TablesAgree(typ)
    requires Clean(bs) && 0 < len <= FIX_MAX_MESSAGE_SIZE
    ensures var h, t := RawHead(bs, len), FieldBytes(TAG_MSG_TYPE, TypeText(typ));
      ScanHead(h + (t + rest)) == HeadSkip(|h| + |t|)
  {
    hide FieldBytes, ScanExpected, ScanLength, ScanType, TypeOfText, TypeText;
    var b, l := FieldBytes(TAG_BEGIN_STRING, bs), FieldBytes(TAG_BODY_LENGTH, Digits(len));
    var t := FieldBytes(TAG_MSG_TYPE, TypeText(typ));
    var u := RawHead(bs, len) + (t + rest);
    assert u == b + (l + (t + rest));
    ScanPrinted(TAG_BEGIN_STRING, bs, l + (t + rest));
    assert u[|b|..] == l + (t + rest);
    ScanLengthPrinted(len, t + rest);
    assert u[|b| + |l|..] == t + rest;
    ScanTypePrinted(typ, rest);
  }

  lemma TryOfSkip(u: seq<byte>, seqNum: int)
    requires ScanHead(u).HeadSkip?
    ensures Try(u, seqNum) == Skip(ScanHead(u).n)
  {
    hide ScanHead, ScanTrailer, ScanRest;
  }

  /** A frame of such a type is dropped without a trace, and the search goes on right behind it. */
  lemma UnreadableTypeSkipped(m: OutMessage, tail: seq<byte>, seqNum: int)
    requires Framed(m) && !TablesAgree(m.typ) && NoBeginString(m)
    ensures Parse(Frame(m) + tail, seqNum) == Shift(Parse(tail, seqNum), |Frame(m)|)
  {
    hide Parse, Try, FieldBytes, Body, TypeText, AfterType, Trailer, CString, Receivable, Sendable, Digits, ScanHead;
    var h, t, rest := Head(m), TypeField(m), AfterType(m) + (Trailer(m) + tail);
    var u := Frame(m) + tail;
    BodyParts(m);
    assert |Body(m)| > 0 by { FieldParts(TAG_MSG_TYPE, TypeText(m.typ), []); }
    HeadUnreadable(CString(m.beginString), m.typ, |Body(m)|, rest);
    assert u == h + (t + rest);
    TryOfSkip(u, seqNum);
    ParseStep(u, seqNum);
    assert u[|h| + |t|..] == rest;
    AfterTypeSkipped(m, Trailer(m) + tail, seqNum);
    TrailerSkipped(m, tail, seqNum);
  }

  /** The round trip over all types: exactly the plain messages of types both tables agree on come back. */
  lemma RoundTripAnyType(m: OutMessage, tail: seq<byte>, seqNum: int)
    requires Framed(m) && NoBeginString(m)
    ensures Parse(Frame(m) + tail, seqNum) == Parsed(Received(m), |Frame(m)|) <==>
      PlainTags(m) && TablesAgree(m.typ)
  {
    hide Parse, Frame, Received, PlainTags, Framed, NoBeginString;
    if TablesAgree(m.typ) {
      RoundTrip(m, tail, seqNum);
    } else {
      UnreadableTypeSkipped(m, tail, seqNum);
    }
  }

  // ---- bytes in front of a frame

  predicate NoEquals(z: seq<byte>) {
    forall i :: 0 <= i < |z| ==> z[i] != EQ
  }

  /** In front of "8=" the bytes make a number that the 32-bit reader takes for 8. */
  predicate ReadsAsBegin(z: seq<byte>) {
    AllDigits(z) && Wrap32(Value(z) * 10 + 8) == TAG_BEGIN_STRING
  }

  lemma DigitEight()
    ensures Digits(TAG_BEGIN_STRING) == [ZERO + 8]
  {
  }

  lemma ScanTagAt(u: seq<byte>, k: nat)
    requires k < |u| && IndexOf(u, EQ) == k
    ensures ScanTag(u) == if DigitRun(u) == k then Tag(Wrap32(Value(u[..k])), k + 1) else BadTag(k)
  {
    hide IndexOf, DigitRun, Wrap32, Value;
  }

  lemma DigitsBefore(z: seq<byte>, w: seq<byte>)
    requires w != [] && w[0] == EQ
    ensures DigitRun(z + ([ZERO + 8] + w)) == |z| + 1 <==> AllDigits(z)
  {
    hide DigitRun;
    var u := z + ([ZERO + 8] + w);
    assert u[|z|] == ZERO + 8 && u[|z| + 1] == EQ;
    if AllDigits(z) {
      assert forall i :: 0 <= i < |z| ==> u[i] == z[i];
      DigitRunUnique(u, |z| + 1);
    } else {
      var j :| 0 <= j < |z| && !IsDigit(z[j]);
      assert u[j] == z[j];
    }
  }

  lemma PrefixedTag(z: seq<byte>, w: seq<byte>)
    requires NoEquals(z) && w != [] && w[0] == EQ
    ensures ScanTag(z + ([ZERO + 8] + w)) ==
      if AllDigits(z) then Tag(Wrap32(Value(z) * 10 + 8), |z| + 2) else BadTag(|z| + 1)
  {
    hide DigitRun, IndexOf, Wrap32, Value, ScanTag;
    var u, k := z + ([ZERO + 8] + w), |z| + 1;
    assert u[|z|] == ZERO + 8 && u[k] == EQ && u[..|z|] == z;
    assert forall i :: 0 <= i < |z| ==> u[i] == z[i];
    IndexOfUnique(u, EQ, k);
    ScanTagAt(u, k);
    DigitsBefore(z, w);
    if AllDigits(z) {
      ValueSnoc(u, |z|);
    }
  }

  /** Where a value that ends in the first SOH ends, seen from its start and from the '=' before it. */
  lemma ValueEnd(v: seq<byte>, rest: seq<byte>)
    requires Clean(v)
    ensures IndexOf(v + ([SOH] + rest), SOH) == |v|
    ensures IndexOf([EQ] + (v + ([SOH] + rest)), SOH) == |v| + 1
  {
    hide IndexOf;
    var x := v + ([SOH] + rest);
    var w := [EQ] + x;
    assert x[|v|] == SOH && forall i :: 0 <= i < |v| ==> x[i] == v[i];
    IndexOfUnique(x, SOH, |v|);
    assert w[|v| + 1] == SOH && forall i :: 1 <= i < |v| + 1 ==> w[i] == v[i - 1];
    IndexOfUnique(w, SOH, |v| + 1);
  }

  lemma ExpectedByTag(u: seq<byte>, tag: int)
    ensures var s := ScanTag(u);
      && (s.BadTag? ==> ScanExpected(u, tag) == Garbled(SkipField(u, s.at)))
      && (s.Tag? && s.tag != tag ==> ScanExpected(u, tag) == Garbled(SkipField(u, s.n)))
      && (s.Tag? && s.tag == tag ==> ScanExpected(u, tag) == ScanValue(u, tag, s.n))
  {
    hide ScanTag, SkipField, ScanValue;
  }

  lemma PrefixedBegin(z: seq<byte>, v: seq<byte>, rest: seq<byte>)
    requires NoEquals(z) && Clean(v)
    ensures var b := FieldBytes(TAG_BEGIN_STRING, v);
      ScanExpected(z + (b + rest), TAG_BEGIN_STRING) ==
        if ReadsAsBegin(z) then Scanned(TAG_BEGIN_STRING, |z| + 2, |z| + |b|) else Garbled(|z| + |b|)
  {
    hide FieldBytes, ScanTag, NoEquals, Wrap32, Value, IndexOf, ScanExpected, AllDigits, Clean;
    var x := v + ([SOH] + rest);
    var w := [EQ] + x;
    var u := z + ([ZERO + 8] + w);
    BeginParts(v, rest);
    PrefixedTag(z, w);
    ExpectedByTag(u, TAG_BEGIN_STRING);
    assert u[|z| + 1..] == w && u[|z| + 2..] == x;
    ValueEnd(v, rest);
  }

  lemma BeginParts(v: seq<byte>, rest: seq<byte>)
    ensures var b := FieldBytes(TAG_BEGIN_STRING, v);
      b + rest == [ZERO + 8] + ([EQ] + (v + ([SOH] + rest))) && |b| == |v| + 3
  {
    hide FieldBytes;
    FieldParts(TAG_BEGIN_STRING, v, rest);
    DigitEight();
  }

  function MovedHead(h: HeadScan, k: nat): HeadScan {
    match h
    case HeadPartial => HeadPartial
    case HeadSkip(n) => HeadSkip(k + n)
    case HeadOk(typ, val1, len, body, n) => HeadOk(typ, k + val1, len, k + body, k + n)
  }

  function MovedTrailer(t: TrailerScan, k: nat): TrailerScan {
    if t.TrailerBad? then TrailerBad(k + t.n) else t
  }

  function Moved(a: FixScan.Attempt, k: nat): FixScan.Attempt {
    match a
    case NeedMore => NeedMore
    case Skip(n) => Skip(k + n)
    case Got(msg, n) => Got(msg, k + n)
  }

  /** The first field absorbs `z`; from its value on everything is as without `z`. */
  ghost predicate Absorbs(z: seq<byte>, u: seq<byte>) {
    var f := ScanExpected(u, TAG_BEGIN_STRING);
    f.Scanned? && ScanExpected(z + u, TAG_BEGIN_STRING) == Scanned(TAG_BEGIN_STRING, |z| + f.val, |z| + f.n)
  }

  lemma MovedHeadScan(z: seq<byte>, u: seq<byte>)
    requires Absorbs(z, u)
    ensures ScanHead(z + u) == MovedHead(ScanHead(u), |z|)
  {
    hide ScanExpected, ScanLength, ScanType, TypeOfText;
    var f := ScanExpected(u, TAG_BEGIN_STRING);
    DropBoth(z, u, f.n);
    var l := ScanLength(u[f.n..]);
    if l.Scanned? {
      DropBoth(z, u, f.n + l.n);
    }
  }

  lemma DropBoth(z: seq<byte>, u: seq<byte>, n: nat)
    requires n <= |u|
    ensures (z + u)[|z| + n..] == u[n..]
  {
  }

  lemma SliceBoth(z: seq<byte>, u: seq<byte>, a: nat, b: nat)
    requires a <= b <= |u|
    ensures (z + u)[|z| + a..|z| + b] == u[a..b]
  {
  }

  lemma MovedTrailerScan(z: seq<byte>, u: seq<byte>, val1: nat, c: nat)
    requires 2 <= val1 < c <= |u|
    ensures ScanTrailer(z + u, |z| + val1, |z| + c) == MovedTrailer(ScanTrailer(u, val1, c), |z|)
  {
    hide ScanExpected, UatoiOf, ByteSum, ScanTrailer;
    TrailerCases(u, val1, c);
    TrailerCases(z + u, |z| + val1, |z| + c);
    DropBoth(z, u, c);
    var f := ScanExpected(u[c..], TAG_CHECK_SUM);
    if f.Scanned? {
      SliceBoth(z, u, c + f.val, c + f.n);
      SliceBoth(z, u, val1 - 2, c + f.val - 3);
    }
  }

  lemma MovedTry(z: seq<byte>, u: seq<byte>, seqNum: int)
    requires Absorbs(z, u)
    ensures Try(z + u, seqNum) == Moved(Try(u, seqNum), |z|)
  {
    hide ScanHead, ScanTrailer, ScanRest, Absorbs;
    MovedHeadScan(z, u);
    var h := ScanHead(u);
    if h.HeadOk? {
      DropBoth(z, u, h.n);
      DropBoth(z, u, h.val1);
      if |u| - h.body >= h.bodyLength + 7 {
        MovedTrailerScan(z, u, h.val1, h.body + h.bodyLength);
      }
    }
  }

  /** Bytes that read as the tag's leading zeros are passed over. */
  lemma PrefixAbsorbed(z: seq<byte>, m: OutMessage, tail: seq<byte>, seqNum: int)
    requires NoEquals(z) && ReadsAsBegin(z) && Admissible(m)
    ensures Parse(z + (Frame(m) + tail), seqNum) == Parsed(Received(m), |z| + |Frame(m)|)
  {
    hide Parse, Try, NoEquals, ReadsAsBegin, FieldBytes, Beheaded, CString, Framed, PlainTags, Received, ScanExpected;
    hide UnderstoodLength, Understood, Frame;
    var bs := CString(m.beginString);
    var b, u := FieldBytes(TAG_BEGIN_STRING, bs), Frame(m) + tail;
    FrameBeheaded(m);
    assert u == b + (Beheaded(m) + tail);
    assert Clean(bs) by { BeginClean(m); }
    PrefixedBegin(z, bs, Beheaded(m) + tail);
    ScanPrinted(TAG_BEGIN_STRING, bs, Beheaded(m) + tail);
    DigitEight();
    MovedTry(z, u, seqNum);
    TryFrame(m, tail, seqNum);
    UnderstoodPlain(m);
    ParseStep(z + u, seqNum);
  }

  lemma BeginClean(m: OutMessage)
    requires Framed(m)
    ensures Clean(CString(m.beginString))
  {
  }

  lemma FrameBeheaded(m: OutMessage)
    ensures Frame(m) == FieldBytes(TAG_BEGIN_STRING, CString(m.beginString)) + Beheaded(m)
  {
    hide FieldBytes, Body, Trailer, CString, Digits;
  }

  /** A garbled first field is passed over. */
  lemma ForeignStart(y: seq<byte>, rest: seq<byte>, seqNum: int)
    requires y != [] && ScanExpected(y + rest, TAG_BEGIN_STRING) == Garbled(|y|)
    ensures Parse(y + rest, seqNum) == Shift(Parse(rest, seqNum), |y|)
  {
    hide Parse, Try, ScanExpected;
    TryForeign(y + rest, |y|, seqNum);
    ParseStep(y + rest, seqNum);
    assert (y + rest)[|y|..] == rest;
  }

  /** Any others take the BeginString field with them, and the rest of the frame is skipped field by field. */
  lemma PrefixCostsFrame(z: seq<byte>, m: OutMessage, rest: seq<byte>, seqNum: int)
    requires NoEquals(z) && !ReadsAsBegin(z) && Framed(m) && NoBeginString(m)
    ensures Parse(z + (Frame(m) + rest), seqNum) == Shift(Parse(rest, seqNum), |z| + |Frame(m)|)
  {
    hide Parse, NoEquals, ReadsAsBegin, FieldBytes, Beheaded, CString, Framed, NoBeginString, Frame, ScanExpected;
    var bs := CString(m.beginString);
    var b, after := FieldBytes(TAG_BEGIN_STRING, bs), Beheaded(m) + rest;
    FrameBeheaded(m);
    BeginClean(m);
    BeginParts(bs, []);
    PrefixedBegin(z, bs, after);
    assert z + (Frame(m) + rest) == (z + b) + after && z + (b + after) == (z + b) + after;
    ForeignStart(z + b, after, seqNum);
    BeheadedSkipped(m, rest, seqNum);
  }

  /**
   Bytes without '=' in front of a frame: the frame is returned exactly when they read as leading zeros of
   its tag, which is when they are all digits and the 32-bit value of the whole tag is 8; otherwise it is
   lost, and the same call returns the frame that follows.
   */
  lemma NoiseCostsOneFrame(z: seq<byte>, m: OutMessage, next: OutMessage, tail: seq<byte>, seqNum: int)
    requires NoEquals(z) && Admissible(m) && NoBeginString(m) && Admissible(next)
    ensures var u := z + Frame(m) + Frame(next) + tail;
      && (Parse(u, seqNum) == Parsed(Received(m), |z| + |Frame(m)|) <==> ReadsAsBegin(z))
      && (Parse(u, seqNum) == Parsed(Received(next), |z| + |Frame(m)| + |Frame(next)|) <==> !ReadsAsBegin(z))
  {
    hide Parse, NoEquals, ReadsAsBegin, Frame, Received, Framed, NoBeginString, PlainTags;
    assert z + Frame(m) + Frame(next) + tail == z + (Frame(m) + (Frame(next) + tail));
    assert |Frame(next)| > 0 by { FrameNotEmpty(next); }
    if ReadsAsBegin(z) {
      PrefixAbsorbed(z, m, Frame(next) + tail, seqNum);
    } else {
      PrefixCostsFrame(z, m, Frame(next) + tail, seqNum);
      RoundTrip(next, tail, seqNum);
    }
  }

  lemma FrameNotEmpty(m: OutMessage)
    ensures |Frame(m)| > 0
  {
    hide FieldBytes, Body, Beheaded, CString;
    FrameBeheaded(m);
    FieldShape(TAG_BEGIN_STRING, CString(m.beginString), []);
  }

  /** Zeros are harmless, any other digit is not, and neither are letters. */
  lemma PrefixExamples()
    ensures ReadsAsBegin([]) && ReadsAsBegin([ZERO, ZERO]) && !ReadsAsBegin([ZERO + 1]) && !ReadsAsBegin(Ascii("x"))
  {
    assert [ZERO, ZERO][..1] == [ZERO] && [ZERO][..0] == [] && [ZERO + 1][..0] == [];
    assert Value([ZERO]) == 0;
    assert Digits(1) == [ZERO + 1];
    ValueOfDigits(1);
    assert !IsDigit(Ascii("x")[0]);
  }
}
