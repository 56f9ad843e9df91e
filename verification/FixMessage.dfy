/** `struct fix_message` on the receiving side: the parser that moves a buffer's start in place. */
module FixMessages {
  import opened Bytes
  import opened Atoi
  import opened Buffers
  import opened FixTypes
  import opened FixScan

  const FIX_MSG_STATE_PARTIAL := 1
  const FIX_MSG_STATE_GARBLED := 2

  /** The return code that stands for a scan's result. */
  ghost predicate Matches(f: FieldScan, ret: int, from: nat, value: int, start: nat, end: nat) {
    match f
    case Partial => ret == FIX_MSG_STATE_PARTIAL && start == end
    case Garbled(n) => ret == FIX_MSG_STATE_GARBLED && start == from + n
    case Scanned(_, val, n) => ret == 0 && value == from + val && start == from + n
  }

  method ParseTag(buf: Buffer) returns (ret: int, tag: int)
    requires buf.Valid()
    modifies buf`start
    ensures buf.Valid()
    ensures match ScanTag(old(buf.Unread()))
      case NoTag => ret == FIX_MSG_STATE_PARTIAL && buf.start == buf.end
      case BadTag(k) => ret == FIX_MSG_STATE_GARBLED && buf.start == old(buf.start) + k
      case Tag(t, n) => ret == 0 && tag == t && buf.start == old(buf.start) + n
  {
    ghost var u := buf.Unread();
    var start := buf.start;
    tag := 0;
    var found := buf.Find(EQ);
    if !found {
      return FIX_MSG_STATE_PARTIAL, tag;
    }
    assert u == buf.data[start..buf.end] && u[buf.start - start] == EQ;
    var value, end := FixUatoi(buf.data, start, buf.end);
    if end != buf.start {
      return FIX_MSG_STATE_GARBLED, tag;
    }
    buf.Advance(1);
    ret, tag := 0, value;
  }

  method ParseValue(buf: Buffer) returns (ret: int, value: nat)
    requires buf.Valid()
    modifies buf`start
    ensures buf.Valid() && value == old(buf.start)
    ensures var k := IndexOf(old(buf.Unread()), SOH);
      if k == |old(buf.Unread())| then ret == FIX_MSG_STATE_PARTIAL && buf.start == buf.end
      else ret == 0 && buf.start == value + k + 1
  {
    value := buf.start;
    var found := buf.Find(SOH);
    if !found {
      return FIX_MSG_STATE_PARTIAL, value;
    }
    buf.Advance(1);
    ret := 0;
  }

  method NextTag(buf: Buffer)
    requires buf.Valid()
    modifies buf`start
    ensures buf.Valid()
    ensures var u := old(buf.Unread()); var k := IndexOf(u, SOH);
      buf.start == old(buf.start) + if k == |u| then k else k + 1
  {
    var found := buf.Find(SOH);
    if !found {
      return;
    }
    buf.Advance(1);
  }

  method MatchField(buf: Buffer, tag: int) returns (ret: int, value: nat)
    requires buf.Valid()
    modifies buf`start
    ensures buf.Valid()
    ensures Matches(ScanExpected(old(buf.Unread()), tag), ret, old(buf.start), value, buf.start, buf.end)
  {
    ghost var u, from := buf.Unread(), buf.start;
    value := 0;
    var ptag;
    ret, ptag := ParseTag(buf);
    assert buf.Unread() == u[buf.start - from..];
    if ret == 0 && ptag != tag {
      ret := FIX_MSG_STATE_GARBLED;
    }
    if ret != 0 {
      NextTag(buf);
      return;
    }
    ret, value := ParseValue(buf);
  }

  method ParseField(buf: Buffer) returns (ret: int, tag: int, value: nat)
    requires buf.Valid()
    modifies buf`start
    ensures buf.Valid()
    ensures var f := ScanField(old(buf.Unread()));
      && Matches(f, ret, old(buf.start), value, buf.start, buf.end)
      && (f.Scanned? ==> tag == f.tag)
  {
    ghost var u, from := buf.Unread(), buf.start;
    value := 0;
    ret, tag := ParseTag(buf);
    assert buf.Unread() == u[buf.start - from..];
    if ret != 0 {
      NextTag(buf);
      return;
    }
    ret, value := ParseValue(buf);
  }

  /** The value of an expected field has no SOH before its end. */
  lemma FirstSoh(u: seq<byte>, tag: int)
    requires ScanExpected(u, tag).Scanned?
    ensures var f := ScanExpected(u, tag); forall i :: f.val <= i < f.n - 1 ==> u[i] != SOH
  {
    var f := ScanExpected(u, tag);
    assert forall i :: f.val <= i < |u| ==> u[i] == u[f.val..][i - f.val];
  }

  lemma SliceOfSlice(d: seq<byte>, from: nat, end: nat, lo: nat, hi: nat)
    requires from <= lo <= hi <= end <= |d|
    ensures d[from..end][lo - from..hi - from] == d[lo..hi]
  {
    assert forall i :: 0 <= i < hi - lo ==> d[from..end][lo - from..hi - from][i] == d[lo..hi][i];
  }

  lemma TypeSlices(buf: Buffer, v: seq<byte>, at: nat, value: nat)
    requires buf.Valid() && at <= buf.start && v == buf.data[at..buf.end]
    requires var f := ScanExpected(v, TAG_MSG_TYPE); f.Scanned? && value == at + f.val && buf.start == at + f.n
    ensures var f := ScanExpected(v, TAG_MSG_TYPE);
      && buf.data[value..buf.start - 1] == ValueOf(v, f) && buf.data[buf.start - 1] == SOH
      && (forall i :: value <= i < buf.start - 1 ==> buf.data[i] != SOH)
  {
    SliceOfSlice(buf.data[..], at, buf.end, value, buf.start - 1);
    FirstSoh(v, TAG_MSG_TYPE);
    assert forall i :: value <= i < buf.start ==> buf.data[i] == v[i - at];
  }

  /** A value just scanned: its bytes in the buffer, and what is unread after it. */
  lemma FieldSlices(buf: Buffer, v: seq<byte>, at: nat, f: FieldScan, value: nat)
    requires buf.Valid() && at <= buf.start && v == buf.data[at..buf.end]
    requires f.Scanned? && f.val < f.n <= |v| && v[f.n - 1] == SOH
    requires value == at + f.val && buf.start == at + f.n
    ensures buf.Unread() == v[f.n..]
    ensures buf.data[value..buf.start] == v[f.val..f.n]
    ensures value < buf.start && buf.data[buf.start - 1] == SOH
    ensures DigitRun(v[f.val..f.n]) < f.n - f.val
  {
    SliceOfSlice(buf.data[..], at, buf.end, value, buf.start);
    SliceOfSlice(buf.data[..], at, buf.end, buf.start, buf.end);
    var s := v[f.val..f.n];
    assert s[|s| - 1] == SOH;
  }

  /** Reads up to two bytes past the value's SOH; the outcome does not depend on them. */
  method FixMsgTypeParse(a: array<byte>, p: nat, ghost stop: nat) returns (typ: MsgType)
    requires p <= stop < a.Length && a[stop] == SOH && p + 2 < a.Length
    requires forall i :: p <= i < stop ==> a[i] != SOH
    ensures typ == TypeOfText(a[p..stop])
  {
    if a[p + 1] != SOH {
      if a[p + 2] != SOH {
        return UnknownType;
      }
      assert stop == p || (stop == p + 2 && a[p..stop] == [a[p], a[p + 1]]);
      return TypeOfText([a[p], a[p + 1]]);
    }
    assert stop == p || (stop == p + 1 && a[p..stop] == [a[p]]);
    typ := TypeOfText([a[p]]);
  }

  datatype RestStatus = Retry | Failed | ReachedCheckSum

  /** What one step of the field loop does to the number and the fields. */
  ghost predicate Stored(f: FieldScan, v: seq<byte>, seqNum: int, done: seq<Field>,
                         seqNum': int, done': seq<Field>, status: RestStatus)
    requires f.Scanned? ==> f.val < f.n <= |v|
  {
    if !f.Scanned? then status == Failed && seqNum' == seqNum && done' == done
    else
      match TagKind(f.tag)
      case ChecksumKind => status == ReachedCheckSum && seqNum' == seqNum && done' == done
      case SeqNumKind => status == Retry && seqNum' == UatoiOf(v[f.val..f.n]) && done' == done
      case _ => status == Retry && seqNum' == seqNum && done' == done + [TypedField(f.tag, v[f.val..f.n])]
  }

  lemma TrailerCases(u: seq<byte>, val1: nat, c: nat)
    requires 2 <= val1 < c <= |u|
    ensures var f := ScanExpected(u[c..], TAG_CHECK_SUM);
      && (f.Partial? ==> ScanTrailer(u, val1, c) == TrailerPartial)
      && (f.Garbled? ==> ScanTrailer(u, val1, c) == TrailerBad(c + f.n))
      && (f.Scanned? ==> 3 <= f.val < f.n <= |u| - c)
      && (f.Scanned? && UatoiOf(u[c + f.val..c + f.n]) == ByteSum(u[val1 - 2..c + f.val - 3]) % 256
          ==> ScanTrailer(u, val1, c) == TrailerGood)
      && (f.Scanned? && UatoiOf(u[c + f.val..c + f.n]) != ByteSum(u[val1 - 2..c + f.val - 3]) % 256
          ==> ScanTrailer(u, val1, c) == TrailerBad(c + f.n))
  {
    hide UatoiOf, ByteSum, ScanExpected;
    if ScanExpected(u[c..], TAG_CHECK_SUM).Scanned? {
      LongTag(u[c..], TAG_CHECK_SUM);
    }
  }

  /** The sum range and the CheckSum value, in the buffer and in the attempt's bytes. */
  lemma TrailerSlices(buf: Buffer, s0: nat, u: seq<byte>, val1: nat, c: nat, value: nat)
    requires buf.Valid() && s0 <= buf.end && u == buf.data[s0..buf.end] && 2 <= val1 < c <= |u|
    requires var f := ScanExpected(u[c..], TAG_CHECK_SUM);
      f.Scanned? && f.val >= 3 && value == s0 + c + f.val && buf.start == s0 + c + f.n
    ensures var f := ScanExpected(u[c..], TAG_CHECK_SUM);
      && c + f.n <= |u|
      && buf.data[value..buf.start] == u[c + f.val..c + f.n]
      && value < buf.start && buf.data[buf.start - 1] == SOH
      && buf.data[s0 + val1 - 2..value - 3] == u[val1 - 2..c + f.val - 3]
  {
    hide ScanExpected;
    SliceOfSlice(buf.data[..], s0, buf.end, value, buf.start);
    SliceOfSlice(buf.data[..], s0, buf.end, s0 + val1 - 2, value - 3);
    assert buf.data[buf.start - 1] == u[c..][buf.start - s0 - c - 1];
  }

  function Later(r: Rest, n: nat): Rest {
    r.(n := n + r.n)
  }

  lemma RestAfterStore(v: seq<byte>, f: FieldScan, seqNum: int, done: seq<Field>,
                       seqNum': int, done': seq<Field>, status: RestStatus)
    requires f == ScanField(v) && Stored(f, v, seqNum, done, seqNum', done', status)
    ensures var r := ScanRest(v, seqNum, done);
      && (status == Failed ==> r == Rest(seqNum', [], if f.Partial? then |v| else f.n))
      && (status == ReachedCheckSum ==> f.Scanned? && r == Rest(seqNum', done', f.n))
      && (status == Retry ==> f.Scanned? && 0 < f.n <= |v| && r == Later(ScanRest(v[f.n..], seqNum', done'), f.n))
    ensures |done'| + (if status == Retry then Slots(v[f.n..]) else 0) == |done| + Slots(v)
  {
    hide TagKind, ScanField, UatoiOf, TypedField;
  }

  /** The switch on the tag's type in `rest_of_message`. */
  method ReadField(data: array<byte>, tag: int, value: nat, limit: nat) returns (f: Field)
    requires value < limit <= data.Length && data[limit - 1] == SOH
    ensures f == TypedField(tag, data[value..limit])
  {
    match TagKind(tag) {
      case IntKind =>
        var x := FixAtoi64(data, value, limit);
        f := IntField(tag, x);
      case FloatKind =>
        f := FloatField(tag, data[value..limit - 1]);
      case CharKind =>
        f := CharField(tag, data[value]);
      case _ =>
        f := StringField(tag, data[value..limit - 1]);
    }
  }

  class FixMessage {
    var typ: MsgType
    /** Positions of values in the receive buffer. */
    var beginString: nat
    var msgType: nat
    var checkSum: nat
    var bodyLength: nat
    var msgSeqNum: int
    var fields: seq<Field>
    var nrFields: nat

    constructor ()
      ensures msgSeqNum == 0 && nrFields == 0 && fields == []
    {
      typ, beginString, msgType, checkSum, bodyLength := Heartbeat, 0, 0, 0, 0;
      msgSeqNum, fields, nrFields := 0, [], 0;
    }

    method ParseBeginString(buf: Buffer) returns (ret: int)
      requires buf.Valid()
      modifies buf`start, this`beginString
      ensures buf.Valid()
      ensures var f := ScanExpected(old(buf.Unread()), TAG_BEGIN_STRING);
        Matches(f, ret, old(buf.start), beginString, buf.start, buf.end)
    {
      ret, beginString := MatchField(buf, TAG_BEGIN_STRING);
    }

    method ParseBodyLength(buf: Buffer) returns (ret: int)
      requires buf.Valid()
      modifies buf`start, this`bodyLength
      ensures buf.Valid()
      ensures var f := ScanLength(old(buf.Unread()));
        && (f.Partial? ==> ret == FIX_MSG_STATE_PARTIAL && buf.start == buf.end)
        && (f.Garbled? ==> ret == FIX_MSG_STATE_GARBLED && buf.start == old(buf.start) + f.n)
        && (f.Scanned? ==> ret == 0 && bodyLength == f.tag && buf.start == old(buf.start) + f.n)
    {
      ghost var v, at := buf.Unread(), buf.start;
      var ptr;
      ret, ptr := MatchField(buf, TAG_BODY_LENGTH);
      if ret != 0 {
        return;
      }
      FieldSlices(buf, v, at, ScanExpected(v, TAG_BODY_LENGTH), ptr);
      var len, _ := FixUatoi(buf.data, ptr, buf.start);
      if len <= 0 || len > FIX_MAX_MESSAGE_SIZE {
        return FIX_MSG_STATE_GARBLED;
      }
      bodyLength := len;
    }

    method ParseMsgType(buf: Buffer) returns (ret: int)
      requires buf.Valid() && buf.end + 2 <= buf.data.Length
      modifies buf`start, this`msgType, this`typ
      ensures buf.Valid()
      ensures var f := ScanType(old(buf.Unread()));
        Matches(f, ret, old(buf.start), msgType, buf.start, buf.end)
        && (f.Scanned? ==> typ == TypeOfText(ValueOf(old(buf.Unread()), f)))
    {
      hide TypeOfText, ScanExpected;
      ghost var v, at := buf.Unread(), buf.start;
      ret, msgType := MatchField(buf, TAG_MSG_TYPE);
      if ret != 0 {
        return;
      }
      TypeSlices(buf, v, at, msgType);
      typ := FixMsgTypeParse(buf.data, msgType, buf.start - 1);
      if typ == UnknownType {
        ret := FIX_MSG_STATE_GARBLED;
      }
    }

    /** Positions are recorded relative to the start of the attempt. */
    method FirstThreeFields(buf: Buffer) returns (ret: int)
      requires buf.Valid() && buf.end + 2 <= buf.data.Length
      modifies buf`start, this`beginString, this`bodyLength, this`msgType, this`typ
      ensures buf.Valid()
      ensures var s0 := old(buf.start);
        match ScanHead(old(buf.Unread()))
        case HeadPartial => ret == FIX_MSG_STATE_PARTIAL
        case HeadSkip(n) => ret == FIX_MSG_STATE_GARBLED && buf.start == s0 + n
        case HeadOk(t, val1, len, body, n) =>
          && ret == 0 && buf.start == s0 + n
          && typ == t && bodyLength == len && beginString == s0 + val1 && msgType == s0 + body + 3
    {
      hide ScanExpected, ScanLength, ScanType, TypeOfText;
      ghost var u, s0 := buf.Unread(), buf.start;
      ret := ParseBeginString(buf);
      if ret != 0 {
        return;
      }
      assert buf.Unread() == u[buf.start - s0..];
      ret := ParseBodyLength(buf);
      if ret != 0 {
        return;
      }
      assert buf.Unread() == u[buf.start - s0..];
      ret := ParseMsgType(buf);
    }

    /** Handles one field after the first three. */
    method StoreNext(buf: Buffer) returns (status: RestStatus)
      requires buf.Valid()
      modifies buf`start, this`fields, this`msgSeqNum
      ensures buf.Valid()
      ensures var v := old(buf.Unread()); var f := ScanField(v);
        && Stored(f, v, old(msgSeqNum), old(fields), msgSeqNum, fields, status)
        && buf.start == if f.Partial? then buf.end else old(buf.start) + f.n
    {
      hide TagKind, UatoiOf, TypedField, ScanField, DigitRun;
      ghost var v, at := buf.Unread(), buf.start;
      var ret, tag, value := ParseField(buf);
      if ret != 0 {
        return Failed;
      }
      FieldSlices(buf, v, at, ScanField(v), value);
      var kind := TagKind(tag);
      if kind == ChecksumKind {
        return ReachedCheckSum;
      }
      if kind == SeqNumKind {
        var x, _ := FixUatoi(buf.data, value, buf.start);
        msgSeqNum := x;
      } else {
        var field := ReadField(buf.data, tag, value, buf.start);
        fields := fields + [field];
      }
      status := Retry;
    }

    /** Fields become visible only when CheckSum is reached; the table is filled all the same. */
    method RestOfMessage(buf: Buffer)
      requires buf.Valid()
      modifies buf`start, this`fields, this`nrFields, this`msgSeqNum
      ensures buf.Valid()
      ensures var r := ScanRest(old(buf.Unread()), old(msgSeqNum), []);
        && msgSeqNum == r.seqNum
        && nrFields <= |fields| && fields[..nrFields] == r.fields
        && buf.start == old(buf.start) + r.n
      ensures |fields| == Slots(old(buf.Unread()))
    {
      hide ScanRest, ScanField, Stored, Slots;
      ghost var from, target := buf.start, ScanRest(buf.Unread(), msgSeqNum, []);
      ghost var slots := Slots(buf.Unread());
      fields, nrFields := [], 0;
      while true
        invariant buf.Valid() && from <= buf.start && nrFields == 0
        invariant target == Later(ScanRest(buf.Unread(), msgSeqNum, fields), buf.start - from)
        invariant slots == |fields| + Slots(buf.Unread())
        decreases buf.end - buf.start
      {
        ghost var v, at, seqNum, done := buf.Unread(), buf.start, msgSeqNum, fields;
        var status := StoreNext(buf);
        RestAfterStore(v, ScanField(v), seqNum, done, msgSeqNum, fields, status);
        if status == Failed {
          assert fields[..0] == [];
          return;
        }
        if status == ReachedCheckSum {
          break;
        }
      }
      nrFields := |fields|;
      assert fields[..nrFields] == fields;
    }

    method VerifyChecksum(buf: Buffer) returns (ok: bool)
      requires buf.Valid() && 2 <= beginString && 3 <= checkSum < buf.start && beginString - 2 <= checkSum - 3
      requires buf.data[buf.start - 1] == SOH
      ensures ok <==> UatoiOf(buf.data[checkSum..buf.start]) == ByteSum(buf.data[beginString - 2..checkSum - 3]) % 256
    {
      ghost var v := buf.data[checkSum..buf.start];
      assert v[|v| - 1] == SOH;
      var cksum, _ := FixUatoi(buf.data, checkSum, buf.start);
      var actual := SumRange(buf.data, beginString - 2, checkSum - 3);
      ok := actual == cksum;
    }

    /** The trailer at the buffer's start, which is offset `c` of the attempt's bytes `u`. */
    method MatchTrailer(buf: Buffer, ghost s0: nat, ghost u: seq<byte>, ghost val1: nat, ghost c: nat)
      returns (ret: int)
      requires buf.Valid() && s0 <= buf.end && u == buf.data[s0..buf.end]
      requires beginString == s0 + val1 && 2 <= val1 < c <= |u| && buf.start == s0 + c
      modifies buf`start, this`checkSum
      ensures buf.Valid()
      ensures match ScanTrailer(u, val1, c)
        case TrailerPartial => ret == FIX_MSG_STATE_PARTIAL
        case TrailerBad(n) => ret == FIX_MSG_STATE_GARBLED && buf.start == s0 + n
        case TrailerGood => ret == 0
    {
      hide ScanExpected, UatoiOf, ByteSum, ScanTrailer;
      SliceOfSlice(buf.data[..], s0, buf.end, buf.start, buf.end);
      TrailerCases(u, val1, c);
      ret, checkSum := MatchField(buf, TAG_CHECK_SUM);
      if ret != 0 {
        return;
      }
      TrailerSlices(buf, s0, u, val1, c, checkSum);
      var ok := VerifyChecksum(buf);
      if !ok {
        ret := FIX_MSG_STATE_GARBLED;
      }
    }

    /** Looks for the trailer by BodyLength, then returns to the fields. `u` was unread at `s0`. */
    method Checksum(buf: Buffer, ghost s0: nat, ghost u: seq<byte>, ghost val1: nat, ghost body: nat) returns (ret: int)
      requires buf.Valid() && s0 <= buf.start && u == buf.data[s0..buf.end]
      requires beginString == s0 + val1 && msgType == s0 + body + 3
      requires 2 <= val1 <= body && s0 + body <= buf.start && 0 < bodyLength
      modifies buf`start, this`checkSum
      ensures buf.Valid()
      ensures
        if |u| - body < bodyLength + 7 then ret == FIX_MSG_STATE_PARTIAL
        else
          match ScanTrailer(u, val1, body + bodyLength)
          case TrailerPartial => ret == FIX_MSG_STATE_PARTIAL
          case TrailerBad(n) => ret == FIX_MSG_STATE_GARBLED && buf.start == s0 + n
          case TrailerGood => ret == 0 && buf.start == old(buf.start)
    {
      hide ScanTrailer;
      var start := buf.start;
      var offset := start - (msgType - 3);
      if buf.Size() + offset < bodyLength + 7 {
        return FIX_MSG_STATE_PARTIAL;
      }
      buf.Advance(bodyLength - offset);
      ret := MatchTrailer(buf, s0, u, val1, body + bodyLength);
      if ret != 0 {
        return;
      }
      buf.Advance(start - buf.start);
    }

    /** The message as its reader sees it while the buffer is not compacted. */
    ghost predicate Shows(buf: Buffer, msg: Message)
      reads this, buf, buf.data
    {
      && buf.Valid() && beginString <= buf.end && nrFields <= |fields|
      && msg == Message(typ, UpTo(buf.data[beginString..buf.end], SOH), msgSeqNum, fields[..nrFields])
    }

    /** One pass of the retry loop. */
    method Attempt(buf: Buffer) returns (ret: int)
      requires buf.Valid() && buf.end + 2 <= buf.data.Length
      modifies buf`start, this
      ensures buf.Valid()
      ensures var t := Try(old(buf.Unread()), old(msgSeqNum));
        match t
        case NeedMore => ret == FIX_MSG_STATE_PARTIAL && msgSeqNum == old(msgSeqNum)
        case Skip(n) => ret == FIX_MSG_STATE_GARBLED && buf.start == old(buf.start) + n && msgSeqNum == old(msgSeqNum)
        case Got(msg, n) => ret == 0 && buf.start == old(buf.start) + n && Shows(buf, msg)
    {
      hide ScanHead, ScanTrailer, ScanRest, Slots, IndexOf;
      ghost var u, start := buf.Unread(), buf.start;
      ret := FirstThreeFields(buf);
      if ret != 0 {
        return;
      }
      ghost var h := ScanHead(u);
      ret := Checksum(buf, start, u, h.val1, h.body);
      if ret != 0 {
        return;
      }
      SliceOfSlice(buf.data[..], start, buf.end, buf.start, buf.end);
      RestOfMessage(buf);
      SliceOfSlice(buf.data[..], start, buf.end, beginString, buf.end);
    }

    method Parse(buf: Buffer) returns (ok: bool)
      requires buf.Valid() && buf.end + 2 <= buf.data.Length
      modifies buf`start, this
      ensures buf.Valid()
      ensures var r := FixScan.Parse(old(buf.Unread()), old(msgSeqNum));
        && buf.start == old(buf.start) + r.n
        && (ok <==> r.Parsed?)
        && (ok ==> Shows(buf, r.msg))
        && (!ok ==> msgSeqNum == old(msgSeqNum))
    {
      hide Try, FixScan.Parse;
      ghost var u0, from := buf.Unread(), buf.start;
      assert u0[0..] == u0;
      while true
        invariant buf.Valid() && from <= buf.start && msgSeqNum == old(msgSeqNum)
        invariant FixScan.Parse(u0, msgSeqNum) == Shift(FixScan.Parse(buf.Unread(), msgSeqNum), buf.start - from)
        decreases buf.end - buf.start
      {
        var start := buf.start;
        ghost var u := buf.Unread();
        ParseStep(u, msgSeqNum);
        if buf.Size() == 0 {
          return false;
        }
        var ret := Attempt(buf);
        if ret == 0 {
          return true;
        }
        if ret == FIX_MSG_STATE_PARTIAL {
          buf.Advance(start - buf.start);
          return false;
        }
        SliceOfSlice(buf.data[..], start, buf.end, buf.start, buf.end);
      }
    }
  }
}
