/**
 The session level of src/libtrading/proto/fix_common.c as functions of the session state and of a
 script of what the environment does next. The logout drain calls the admin handler again, so the
 functions are mutually recursive; every call consumes a prefix of the script.
 */
module SessionControl {
  import opened Options
  import opened Bytes
  import opened Decimal
  import opened Atoi
  import opened FixTypes
  import opened FixScan
  import opened FixPrint

  /** One entry of the send log. */
  datatype Sent = Sent(typ: MsgType, seqNum: nat, fields: seq<OutField>)

  datatype Session = Session(
    inSeq: nat,
    outSeq: nat,
    active: bool,
    trPending: bool,
    testReqId: seq<byte>,
    sent: seq<Sent>,
    accepted: seq<nat>)

  /** What a non-blocking receive or the grace-period clock reports next. */
  datatype Event = Nothing | Arrives(msg: Message) | GraceOver

  function U64(x: int): nat {
    x % TWO_64
  }

  function GetField(fs: seq<Field>, tag: int): Option<Field> {
    if fs == [] then None else if fs[0].tag == tag then Some(fs[0]) else GetField(fs[1..], tag)
  }

  function IntOf(f: Field): int {
    if f.IntField? then f.intValue else 0
  }

  function TextOf(f: Field): seq<byte> {
    if f.StringField? then f.text else []
  }

  function IntOut(tag: nat, n: nat): OutField {
    OutField(tag, IntValue(Wrap64(n)))
  }

  function TextOut(tag: nat, s: seq<byte>): OutField {
    OutField(tag, StringValue(s))
  }

  // ---- sending

  /** `fix_session_send` with flags 0: takes the next outgoing number. */
  function Send(s: Session, typ: MsgType, fields: seq<OutField>): Session {
    s.(outSeq := s.outSeq + 1, sent := s.sent + [Sent(typ, s.outSeq, fields)])
  }

  function SendHeartbeat(s: Session, id: Option<seq<byte>>): Session {
    Send(s, Heartbeat, if id.Some? then [TextOut(TAG_TEST_REQ_ID, id.value)] else [])
  }

  function SendTestRequest(s: Session, strNow: seq<byte>): Session {
    Send(s.(testReqId := strNow, trPending := true), TestRequest, [TextOut(TAG_TEST_REQ_ID, strNow)])
  }

  function SendResendRequest(s: Session, bgn: nat, end: nat): Session {
    Send(s, ResendRequest, [IntOut(TAG_BEGIN_SEQ_NO, bgn), IntOut(TAG_END_SEQ_NO, end)])
  }

  function SendReject(s: Session, refSeqNum: nat, text: seq<byte>): Session {
    Send(s, Reject, [IntOut(TAG_REF_SEQ_NUM, refSeqNum), TextOut(TAG_TEXT, text)])
  }

  /** Sent with its own number, leaving the outgoing counter alone. */
  function SendSequenceReset(s: Session, seqNum: nat, newSeqNum: nat, gapFill: bool): Session {
    var flag := if gapFill then [TextOut(TAG_GAP_FILL_FLAG, Ascii("Y"))] else [];
    var fields := [IntOut(TAG_NEW_SEQ_NO, newSeqNum)] + flag;
    s.(sent := s.sent + [Sent(SequenceReset, seqNum, fields)])
  }

  function TooLowText(expecting: nat, received: nat): seq<byte> {
    Ascii("MsgSeqNum too low, expecting ") + Digits(expecting) + Ascii(" received ") + Digits(received)
  }

  function LowerText(newSeqNum: nat): seq<byte> {
    Ascii("Attempt to lower sequence ") + Ascii("number, invalid value ") + Ascii("NewSeqNum = ") + Digits(newSeqNum)
  }

  function IncorrectText(newSeqNum: nat): seq<byte> {
    Ascii("Value is incorrect (too low) ") + Digits(newSeqNum)
  }

  // ---- receiving

  /** The counter `fix_session_recv` keeps. */
  function Counted(s: Session): Session {
    s.(inSeq := (s.inSeq + 1) % TWO_64)
  }

  /** Takes back the count of a message that is not in sequence. */
  function Uncounted(s: Session): Session {
    s.(inSeq := (s.inSeq + TWO_64 - 1) % TWO_64)
  }

  predicate Expected(s: Session, m: Message) {
    U64(m.seqNum) == s.inSeq || m.typ == SequenceReset
  }

  /** State, rest of the script, and a result. */
  datatype Step<T> = Step(s: Session, script: seq<Event>, result: T)

  function Logout(s: Session, text: Option<seq<byte>>, script: seq<Event>): (r: Step<int>)
    ensures |r.script| <= |script|
    decreases |script|, 1
  {
    var fields := if text.Some? then [TextOut(TAG_TEXT, text.value)] else [];
    Drain(Send(s, MsgType.Logout, fields).(active := false), script)
  }

  /** The loop that waits for the peer's logout; a finished script means that the time is over. */
  function Drain(s: Session, script: seq<Event>): (r: Step<int>)
    ensures |r.script| <= |script|
    decreases |script|, 0
  {
    if script == [] then Step(s, [], 0)
    else match script[0]
      case GraceOver => Step(s, script[1..], 0)
      case Nothing => Drain(s, script[1..])
      case Arrives(m) =>
        var a := Admin(Counted(s), m, script[1..]);
        if a.result then Drain(a.s, a.script)
        else Step(a.s, a.script, if m.typ == MsgType.Logout then 0 else -1)
  }

  function DoUnexpected(s: Session, m: Message, script: seq<Event>): (r: Step<int>)
    ensures |r.script| <= |script|
    decreases |script|, 2
  {
    hide TooLowText;
    var q := U64(m.seqNum);
    if q > s.inSeq then Step(Uncounted(SendResendRequest(s, s.inSeq, 0)), script, 0)
    else if q < s.inSeq then
      if GetField(m.fields, TAG_POSS_DUP_FLAG).Some? then Step(Uncounted(s), script, 0)
      else Logout(Uncounted(s), Some(TooLowText(s.inSeq, q)), script).(result := 1)
    else Step(s, script, 0)
  }

  /** `accepted` records the numbers of the messages that pass the sequence check. */
  function Accept(s: Session, m: Message): Session {
    if m.typ == SequenceReset then s else s.(accepted := s.accepted + [U64(m.seqNum)])
  }

  /** True when the message needs no further handling. */
  function Admin(s: Session, m: Message, script: seq<Event>): (r: Step<bool>)
    ensures |r.script| <= |script|
    decreases |script|, 3, 1
  {
    if !Expected(s, m) then
      var r := DoUnexpected(s, m, script);
      Step(r.s, r.script, true)
    else Handle(Accept(s, m), m, script)
  }

  /** The switch on the type of a message that passed the check. */
  function Handle(s: Session, m: Message, script: seq<Event>): (r: Step<bool>)
    ensures |r.script| <= |script|
    decreases |script|, 3, 0
  {
    match m.typ
      case Heartbeat =>
        var f := GetField(m.fields, TAG_TEST_REQ_ID);
        Step(if f.Some? && s.testReqId <= TextOf(f.value) then s.(trPending := false) else s, script, true)
      case TestRequest =>
        Step(SendHeartbeat(s, Some(EchoedId(m))), script, true)
      case ResendRequest =>
        var bgn, end := GetField(m.fields, TAG_BEGIN_SEQ_NO), GetField(m.fields, TAG_END_SEQ_NO);
        if bgn.None? || end.None? then Step(s, script, false)
        else Step(SendSequenceReset(s, U64(IntOf(bgn.value)), U64(U64(IntOf(end.value)) + 1), true), script, true)
      case SequenceReset =>
        var flag := GetField(m.fields, TAG_GAP_FILL_FLAG);
        if flag.Some? && Ascii("Y") <= TextOf(flag.value) then GapFill(s, m, script) else Reset(s, m, script)
      case _ => Step(s, script, false)
  }

  /** The TestReqID to echo; a missing or overlong one is replaced by the literal. */
  function EchoedId(m: Message): seq<byte> {
    var f := GetField(m.fields, TAG_TEST_REQ_ID);
    if f.Some? && |TextOf(f.value)| < 128 then TextOf(f.value) else Ascii("TestReqID")
  }

  function GapFill(s: Session, m: Message, script: seq<Event>): (r: Step<bool>)
    ensures |r.script| <= |script|
    decreases |script|, 2
  {
    hide TooLowText, LowerText;
    var f := GetField(m.fields, TAG_NEW_SEQ_NO);
    if f.None? then Step(s, script, true)
    else
      var q, newSeqNum := U64(m.seqNum), U64(IntOf(f.value));
      if q > s.inSeq then Step(Uncounted(SendResendRequest(s, s.inSeq, q)), script, true)
      else if q < s.inSeq then
        if GetField(m.fields, TAG_POSS_DUP_FLAG).Some? then Step(Uncounted(s), script, true)
        else
          var r := Logout(Uncounted(s), Some(TooLowText(s.inSeq, q)), script);
          Step(r.s, r.script, true)
      else if newSeqNum > q then Step(s.(inSeq := newSeqNum - 1), script, true)
      else Step(SendReject(s, q, LowerText(newSeqNum)), script, true)
  }

  function Reset(s: Session, m: Message, script: seq<Event>): (r: Step<bool>)
    ensures r.script == script
  {
    hide IncorrectText;
    var f := GetField(m.fields, TAG_NEW_SEQ_NO);
    if f.None? then Step(s, script, true)
    else
      var newSeqNum := U64(IntOf(f.value));
      if newSeqNum > s.inSeq then Step(s.(inSeq := newSeqNum - 1), script, true)
      else if newSeqNum < s.inSeq then
        Step(SendReject(Uncounted(s), s.inSeq, IncorrectText(newSeqNum)), script, true)
      else Step(s, script, true)
  }

  /** The Logon message's own fields. */
  function LogonFields(heartbtint: nat, username: seq<byte>, password: seq<byte>): seq<OutField> {
    [IntOut(98, 0), TextOut(141, Ascii("Y")), IntOut(108, heartbtint), TextOut(553, username), TextOut(554, password)]
  }

  /** `fix_session_logon`; no result while it still waits. */
  function Logon(s: Session, fields: seq<OutField>, script: seq<Event>): (r: Step<Option<int>>)
    ensures |r.script| <= |script|
  {
    AwaitLogon(Send(s, MsgType.Logon, fields).(active := true), script)
  }

  function AwaitLogon(s: Session, script: seq<Event>): (r: Step<Option<int>>)
    ensures |r.script| <= |script|
    decreases |script|
  {
    if script == [] then Step(s, [], None)
    else match script[0]
      case Arrives(m) =>
        var c := Counted(s);
        if !Expected(c, m) then
          var u := DoUnexpected(c, m, script[1..]);
          if u.result != 0 then Step(u.s, u.script, Some(-1)) else AwaitLogon(u.s, u.script)
        else if m.typ != MsgType.Logon then
          var l := Logout(c, Some(Ascii("First message not a logon")), script[1..]);
          Step(l.s, l.script, Some(-1))
        else Step(c, script[1..], Some(0))
      case _ => AwaitLogon(s, script[1..])
  }

  /** The types `poll` gives to the admin handler. */
  predicate IsChecked(m: Message) {
    m.typ in {Heartbeat, TestRequest, ResendRequest, SequenceReset}
  }

  /** A message received by `poll`: admin types are handled, all others go to the application uninspected. */
  function PollMessage(s: Session, m: Message, script: seq<Event>): (r: Step<bool>)
    ensures |r.script| <= |script|
  {
    if IsChecked(m) then Admin(Counted(s), m, script).(result := false)
    else Step(Counted(s), script, true)
  }
}
