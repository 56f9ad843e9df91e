/** Outgoing numbering: every sending operation, including those made while handling messages. */
module SessionNumbers {
  import opened Options
  import opened Bytes
  import opened FixTypes
  import opened FixScan
  import opened FixPrint
  import opened SessionControl

  /** The numbers of the messages in the log other than SequenceReset. */
  function Numbers(log: seq<Sent>): seq<nat> {
    if log == [] then []
    else
      var e := log[|log| - 1];
      Numbers(log[..|log| - 1]) + if e.typ == SequenceReset then [] else [e.seqNum]
  }

  function CountFrom(first: nat, k: nat): seq<nat> {
    seq(k, i requires 0 <= i < k => first + i)
  }

  /** The log is numbered without gap or repeat from `first`, and the counter holds the next number. */
  ghost predicate Numbered(s: Session, first: nat) {
    var k := |Numbers(s.sent)|;
    Numbers(s.sent) == CountFrom(first, k) && s.outSeq == first + k
  }

  /** Only the log and the counter matter. */
  lemma SameNumbered(s: Session, s': Session, first: nat)
    requires Numbered(s, first) && s'.sent == s.sent && s'.outSeq == s.outSeq
    ensures Numbered(s', first)
  {
  }

  lemma SendNumbered(s: Session, typ: MsgType, fields: seq<OutField>, first: nat)
    requires Numbered(s, first) && typ != SequenceReset
    ensures Numbered(Send(s, typ, fields), first)
  {
    var s' := Send(s, typ, fields);
    assert s'.sent[..|s'.sent| - 1] == s.sent;
    var k := |Numbers(s.sent)|;
    assert CountFrom(first, k + 1) == CountFrom(first, k) + [first + k];
  }

  lemma ResetNumbered(s: Session, seqNum: nat, newSeqNum: nat, gapFill: bool, first: nat)
    requires Numbered(s, first)
    ensures Numbered(SendSequenceReset(s, seqNum, newSeqNum, gapFill), first)
    ensures SendSequenceReset(s, seqNum, newSeqNum, gapFill).outSeq == s.outSeq
  {
    var s' := SendSequenceReset(s, seqNum, newSeqNum, gapFill);
    assert s'.sent[..|s'.sent| - 1] == s.sent;
  }

  lemma LogoutNumbered(s: Session, text: Option<seq<byte>>, script: seq<Event>, first: nat)
    requires Numbered(s, first)
    ensures Numbered(SessionControl.Logout(s, text, script).s, first)
    decreases |script|, 1
  {
    hide Numbered, Drain;
    var fields := if text.Some? then [TextOut(TAG_TEXT, text.value)] else [];
    SendNumbered(s, MsgType.Logout, fields, first);
    var s' := Send(s, MsgType.Logout, fields);
    SameNumbered(s', s'.(active := false), first);
    DrainNumbered(s'.(active := false), script, first);
  }

  lemma DrainNumbered(s: Session, script: seq<Event>, first: nat)
    requires Numbered(s, first)
    ensures Numbered(Drain(s, script).s, first)
    decreases |script|, 0
  {
    hide Numbered, Admin;
    if script != [] {
      match script[0]
      case GraceOver =>
      case Nothing => DrainNumbered(s, script[1..], first);
      case Arrives(m) =>
        SameNumbered(s, Counted(s), first);
        AdminNumbered(Counted(s), m, script[1..], first);
        var a := Admin(Counted(s), m, script[1..]);
        if a.result {
          DrainNumbered(a.s, a.script, first);
        }
    }
  }

  lemma AdminNumbered(s: Session, m: Message, script: seq<Event>, first: nat)
    requires Numbered(s, first)
    ensures Numbered(Admin(s, m, script).s, first)
    decreases |script|, 4
  {
    hide Numbered, Send, SendSequenceReset, SessionControl.Logout, TooLowText, LowerText, IncorrectText, GapFill;
    hide EchoedId;
    if !Expected(s, m) {
      UnexpectedNumbered(s, m, script, first);
    } else {
      var a := Accept(s, m);
      SameNumbered(s, a, first);
      SameNumbered(a, a.(trPending := false), first);
      SendNumbered(a, Heartbeat, [TextOut(TAG_TEST_REQ_ID, EchoedId(m))], first);
      if m.typ == ResendRequest {
        var bgn, end := GetField(m.fields, TAG_BEGIN_SEQ_NO), GetField(m.fields, TAG_END_SEQ_NO);
        if bgn.Some? && end.Some? {
          ResetNumbered(a, U64(IntOf(bgn.value)), U64(U64(IntOf(end.value)) + 1), true, first);
        }
      } else if m.typ == SequenceReset {
        GapFillNumbered(a, m, script, first);
        ResetHandled(a, m, script, first);
      }
    }
  }

  lemma RejectNumbered(s: Session, ref: nat, text: seq<byte>, first: nat)
    requires Numbered(s, first)
    ensures Numbered(SendReject(s, ref, text), first)
  {
    SendNumbered(s, Reject, [IntOut(TAG_REF_SEQ_NUM, ref), TextOut(TAG_TEXT, text)], first);
  }

  lemma ResendNumbered(s: Session, bgn: nat, end: nat, first: nat)
    requires Numbered(s, first)
    ensures Numbered(Uncounted(SendResendRequest(s, bgn, end)), first)
  {
    SendNumbered(s, ResendRequest, [IntOut(TAG_BEGIN_SEQ_NO, bgn), IntOut(TAG_END_SEQ_NO, end)], first);
    SameNumbered(SendResendRequest(s, bgn, end), Uncounted(SendResendRequest(s, bgn, end)), first);
  }

  lemma UnexpectedNumbered(s: Session, m: Message, script: seq<Event>, first: nat)
    requires Numbered(s, first)
    ensures Numbered(DoUnexpected(s, m, script).s, first)
    decreases |script|, 3
  {
    hide Numbered, SendResendRequest, SessionControl.Logout, TooLowText;
    ResendNumbered(s, s.inSeq, 0, first);
    SameNumbered(s, Uncounted(s), first);
    LogoutNumbered(Uncounted(s), Some(TooLowText(s.inSeq, U64(m.seqNum))), script, first);
  }

  lemma GapFillNumbered(s: Session, m: Message, script: seq<Event>, first: nat)
    requires Numbered(s, first)
    ensures Numbered(GapFill(s, m, script).s, first)
    decreases |script|, 3
  {
    hide Numbered, SendResendRequest, SendReject, SessionControl.Logout, TooLowText, LowerText;
    var q, f := U64(m.seqNum), GetField(m.fields, TAG_NEW_SEQ_NO);
    if f.Some? {
      ResendNumbered(s, s.inSeq, q, first);
      SameNumbered(s, Uncounted(s), first);
      LogoutNumbered(Uncounted(s), Some(TooLowText(s.inSeq, q)), script, first);
      RejectNumbered(s, q, LowerText(U64(IntOf(f.value))), first);
      if U64(IntOf(f.value)) > q {
        SameNumbered(s, s.(inSeq := U64(IntOf(f.value)) - 1), first);
      }
    }
  }

  lemma ResetHandled(s: Session, m: Message, script: seq<Event>, first: nat)
    requires Numbered(s, first)
    ensures Numbered(Reset(s, m, script).s, first)
  {
    hide Numbered, SendReject, IncorrectText;
    var f := GetField(m.fields, TAG_NEW_SEQ_NO);
    if f.Some? {
      var n := U64(IntOf(f.value));
      SameNumbered(s, Uncounted(s), first);
      RejectNumbered(Uncounted(s), s.inSeq, IncorrectText(n), first);
      if n > s.inSeq {
        SameNumbered(s, s.(inSeq := n - 1), first);
      }
    }
  }

  lemma {:induction false} AwaitNumbered(s: Session, script: seq<Event>, first: nat)
    requires Numbered(s, first)
    ensures Numbered(AwaitLogon(s, script).s, first)
    decreases |script|
  {
    hide Numbered, DoUnexpected, SessionControl.Logout, Ascii, Expected;
    if script != [] {
      match script[0]
      case Arrives(m) =>
        var c, rest := Counted(s), script[1..];
        SameNumbered(s, c, first);
        UnexpectedNumbered(c, m, rest, first);
        LogoutNumbered(c, Some(Ascii("First message not a logon")), rest, first);
        if !Expected(c, m) && DoUnexpected(c, m, rest).result == 0 {
          AwaitNumbered(DoUnexpected(c, m, rest).s, DoUnexpected(c, m, rest).script, first);
        }
      case _ => AwaitNumbered(s, script[1..], first);
    }
  }

  /** What the owner of a session can do with it. */
  datatype Op =
    | SendOp(typ: MsgType, fields: seq<OutField>)
    | TestRequestOp(strNow: seq<byte>)
    | ResendRequestOp(bgn: nat, end: nat)
    | RejectOp(refSeqNum: nat, text: seq<byte>)
    | SequenceResetOp(seqNum: nat, newSeqNum: nat, gapFill: bool)
    | LogonOp(hello: seq<OutField>)
    | LogoutOp(farewell: Option<seq<byte>>)
    | PollOp(msg: Message)

  function RunOp(s: Session, op: Op, script: seq<Event>): (Session, seq<Event>) {
    match op
    case SendOp(typ, fields) => (Send(s, typ, fields), script)
    case TestRequestOp(strNow) => (SendTestRequest(s, strNow), script)
    case ResendRequestOp(bgn, end) => (SendResendRequest(s, bgn, end), script)
    case RejectOp(ref, text) => (SendReject(s, ref, text), script)
    case SequenceResetOp(q, n, gapFill) => (SendSequenceReset(s, q, n, gapFill), script)
    case LogonOp(fields) => var r := SessionControl.Logon(s, fields, script); (r.s, r.script)
    case LogoutOp(text) => var r := SessionControl.Logout(s, text, script); (r.s, r.script)
    case PollOp(m) => var r := PollMessage(s, m, script); (r.s, r.script)
  }

  function RunOps(s: Session, ops: seq<Op>, script: seq<Event>): Session
    decreases |ops|
  {
    if ops == [] then s
    else
      var r := RunOp(s, ops[0], script);
      RunOps(r.0, ops[1..], r.1)
  }

  lemma OpNumbered(s: Session, op: Op, script: seq<Event>, first: nat)
    requires Numbered(s, first) && (op.SendOp? ==> op.typ != SequenceReset)
    ensures Numbered(RunOp(s, op, script).0, first)
  {
    hide Numbered, SessionControl.Logout, AwaitLogon, Admin, SendSequenceReset;
    match op
    case SendOp(typ, fields) => SendNumbered(s, typ, fields, first);
    case TestRequestOp(strNow) =>
      var s' := s.(testReqId := strNow, trPending := true);
      SameNumbered(s, s', first);
      SendNumbered(s', TestRequest, [TextOut(TAG_TEST_REQ_ID, strNow)], first);
    case ResendRequestOp(bgn, end) =>
      SendNumbered(s, ResendRequest, [IntOut(TAG_BEGIN_SEQ_NO, bgn), IntOut(TAG_END_SEQ_NO, end)], first);
    case RejectOp(ref, text) => RejectNumbered(s, ref, text, first);
    case SequenceResetOp(q, n, gapFill) => ResetNumbered(s, q, n, gapFill, first);
    case LogonOp(fields) =>
      SendNumbered(s, MsgType.Logon, fields, first);
      var s' := Send(s, MsgType.Logon, fields);
      SameNumbered(s', s'.(active := true), first);
      AwaitNumbered(s'.(active := true), script, first);
    case LogoutOp(text) => LogoutNumbered(s, text, script, first);
    case PollOp(m) =>
      SameNumbered(s, Counted(s), first);
      AdminNumbered(Counted(s), m, script, first);
  }

  /** Over every run of operations the numbers sent are first, first + 1, ... with no gap and no repeat. */
  lemma {:induction false} RunNumbered(s: Session, ops: seq<Op>, script: seq<Event>, first: nat)
    requires Numbered(s, first)
    requires forall i :: 0 <= i < |ops| && ops[i].SendOp? ==> ops[i].typ != SequenceReset
    ensures Numbered(RunOps(s, ops, script), first)
    decreases |ops|
  {
    hide Numbered, RunOp;
    if ops != [] {
      OpNumbered(s, ops[0], script, first);
      var r := RunOp(s, ops[0], script);
      assert forall i :: 0 <= i < |ops[1..]| ==> ops[1..][i] == ops[i + 1];
      RunNumbered(r.0, ops[1..], r.1, first);
    }
  }
}
