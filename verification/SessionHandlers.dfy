/** The handlers of src/libtrading/proto/fix_common.c updating a session in place. */
module SessionHandlers {
  import opened Options
  import opened Bytes
  import opened Atoi
  import opened FixTypes
  import opened FixScan
  import opened FixPrint
  import SC = SessionControl
  import opened SessionControl

  class ControlledSession {
    var inMsgSeqNum: nat
    var outMsgSeqNum: nat
    var active: bool
    var trPending: bool
    var testReqId: seq<byte>
    /** The messages handed to the socket, and the numbers that passed the sequence check. */
    ghost var sent: seq<Sent>
    ghost var accepted: seq<nat>
    /** What the socket and the clock are going to report. */
    var env: seq<Event>

    ghost function State(): Session
      reads this
    {
      Session(inMsgSeqNum, outMsgSeqNum, active, trPending, testReqId, sent, accepted)
    }

    constructor (inMsgSeqNum: nat, outMsgSeqNum: nat, env: seq<Event>)
      ensures State() == Session(inMsgSeqNum, if outMsgSeqNum > 1 then outMsgSeqNum else 1, false, false, [], [], [])
      ensures this.env == env
    {
      this.inMsgSeqNum := inMsgSeqNum;
      this.outMsgSeqNum := if outMsgSeqNum > 1 then outMsgSeqNum else 1;
      active, trPending, testReqId, sent, accepted := false, false, [], [], [];
      this.env := env;
    }

    method SendMessage(typ: MsgType, fields: seq<OutField>)
      modifies this`outMsgSeqNum, this`sent
      ensures State() == SC.Send(old(State()), typ, fields)
    {
      sent := sent + [Sent(typ, outMsgSeqNum, fields)];
      outMsgSeqNum := outMsgSeqNum + 1;
    }

    method SendHeartbeatMessage(id: Option<seq<byte>>)
      modifies this`outMsgSeqNum, this`sent
      ensures State() == SC.SendHeartbeat(old(State()), id)
    {
      match id {
        case None => SendMessage(Heartbeat, []);
        case Some(text) => SendMessage(Heartbeat, [TextOut(TAG_TEST_REQ_ID, text)]);
      }
    }

    method RequestResend(bgn: nat, end: nat)
      modifies this`outMsgSeqNum, this`sent
      ensures State() == SC.SendResendRequest(old(State()), bgn, end)
    {
      SendMessage(ResendRequest, [IntOut(TAG_BEGIN_SEQ_NO, bgn), IntOut(TAG_END_SEQ_NO, end)]);
    }

    method RejectMessage(refSeqNum: nat, text: seq<byte>)
      modifies this`outMsgSeqNum, this`sent
      ensures State() == SC.SendReject(old(State()), refSeqNum, text)
    {
      SendMessage(Reject, [IntOut(TAG_REF_SEQ_NUM, refSeqNum), TextOut(TAG_TEXT, text)]);
    }

    method ResetSequence(seqNum: nat, newSeqNum: nat, gapFill: bool)
      modifies this`sent
      ensures State() == SC.SendSequenceReset(old(State()), seqNum, newSeqNum, gapFill)
    {
      var fields := [IntOut(TAG_NEW_SEQ_NO, newSeqNum)];
      if gapFill {
        fields := fields + [TextOut(TAG_GAP_FILL_FLAG, Ascii("Y"))];
      }
      assert !gapFill ==> fields + [] == fields;
      sent := sent + [Sent(SequenceReset, seqNum, fields)];
    }

    method Uncount()
      modifies this`inMsgSeqNum
      ensures State() == SC.Uncounted(old(State()))
    {
      inMsgSeqNum := (inMsgSeqNum + TWO_64 - 1) % TWO_64;
    }

    /** The clock check of the drain; the script ends when the time is over. */
    method GraceOver() returns (over: bool)
      modifies this`env
      ensures over <==> old(env) == [] || old(env)[0] == Event.GraceOver
      ensures env == if over && old(env) != [] then old(env)[1..] else old(env)
    {
      over := env == [] || env[0] == Event.GraceOver;
      if over && env != [] {
        env := env[1..];
      }
    }

    /** A non-blocking receive. */
    method Recv() returns (msg: Option<Message>)
      requires env != [] && env[0] != Event.GraceOver
      modifies this`env, this`inMsgSeqNum
      ensures env == old(env)[1..]
      ensures msg == if old(env)[0].Arrives? then Some(old(env)[0].msg) else None
      ensures State() == if old(env)[0].Arrives? then SC.Counted(old(State())) else old(State())
    {
      match env[0] {
        case Arrives(m) =>
          inMsgSeqNum := (inMsgSeqNum + 1) % TWO_64;
          msg := Some(m);
        case _ =>
          msg := None;
      }
      env := env[1..];
    }

    method Logout(text: Option<seq<byte>>) returns (ret: int)
      modifies this
      ensures SC.Step(State(), env, ret) == SC.Logout(old(State()), text, old(env))
      ensures |env| <= |old(env)|
      decreases |env|, 1
    {
      hide SC.Send, SC.Counted, SC.Admin;
      SendMessage(MsgType.Logout, if text.Some? then [TextOut(TAG_TEXT, text.value)] else []);
      active := false;
      ghost var target := SC.Drain(State(), env);
      while true
        invariant |env| <= |old(env)|
        invariant SC.Drain(State(), env) == target
        decreases |env|
      {
        var over := GraceOver();
        if over {
          return 0;
        }
        var response := Recv();
        if response.Some? {
          var handled := Admin(response.value);
          if !handled {
            return if response.value.typ == MsgType.Logout then 0 else -1;
          }
        }
      }
    }

    /** None while it still waits for an answer. */
    method Logon(heartbtint: nat, username: seq<byte>, password: seq<byte>) returns (ret: Option<int>)
      modifies this
      ensures SC.Step(State(), env, ret) ==
        SC.Logon(old(State()), LogonFields(heartbtint, username, password), old(env))
    {
      hide SC.Send, SC.Counted, SC.Logout, SC.DoUnexpected, Ascii, LogonFields;
      SendMessage(MsgType.Logon, LogonFields(heartbtint, username, password));
      active := true;
      ghost var target := SC.AwaitLogon(State(), env);
      while env != []
        invariant SC.AwaitLogon(State(), env) == target
        decreases |env|
      {
        if env[0].GraceOver? {
          env := env[1..];
          continue;
        }
        var response := Recv();
        if response.Some? {
          var m := response.value;
          if !(U64(m.seqNum) == inMsgSeqNum || m.typ == SequenceReset) {
            var failed := DoUnexpected(m);
            if failed != 0 {
              return Some(-1);
            }
          } else if m.typ != MsgType.Logon {
            var _ := Logout(Some(Ascii("First message not a logon")));
            return Some(-1);
          } else {
            return Some(0);
          }
        }
      }
      ret := None;
    }

    method DoUnexpected(msg: Message) returns (ret: int)
      modifies this
      ensures SC.Step(State(), env, ret) == SC.DoUnexpected(old(State()), msg, old(env))
      ensures |env| <= |old(env)|
      decreases |env|, 2
    {
      hide SC.Logout, SC.TooLowText, SC.SendResendRequest;
      var q := U64(msg.seqNum);
      if q > inMsgSeqNum {
        RequestResend(inMsgSeqNum, 0);
        Uncount();
      } else if q < inMsgSeqNum {
        var text := TooLowText(inMsgSeqNum, q);
        Uncount();
        if GetField(msg.fields, TAG_POSS_DUP_FLAG).None? {
          var _ := Logout(Some(text));
          return 1;
        }
      }
      ret := 0;
    }

    method Admin(msg: Message) returns (handled: bool)
      modifies this
      ensures SC.Step(State(), env, handled) == SC.Admin(old(State()), msg, old(env))
      ensures |env| <= |old(env)|
      decreases |env|, 3, 1
    {
      hide SC.Handle, SC.DoUnexpected;
      if !(U64(msg.seqNum) == inMsgSeqNum || msg.typ == SequenceReset) {
        var _ := DoUnexpected(msg);
        return true;
      }
      accepted := if msg.typ == SequenceReset then accepted else accepted + [U64(msg.seqNum)];
      handled := Handle(msg);
    }

    method Handle(msg: Message) returns (handled: bool)
      modifies this
      ensures SC.Step(State(), env, handled) == SC.Handle(old(State()), msg, old(env))
      ensures |env| <= |old(env)|
      decreases |env|, 3, 0
    {
      hide SC.SendSequenceReset, SC.GapFill, SC.Reset, SC.EchoedId, SC.SendHeartbeat;
      match msg.typ {
        case Heartbeat =>
          var field := GetField(msg.fields, TAG_TEST_REQ_ID);
          if field.Some? && testReqId <= TextOf(field.value) {
            trPending := false;
          }
          handled := true;
        case TestRequest =>
          SendHeartbeatMessage(Some(EchoedId(msg)));
          handled := true;
        case ResendRequest =>
          var bgn := GetField(msg.fields, TAG_BEGIN_SEQ_NO);
          if bgn.None? {
            return false;
          }
          var end := GetField(msg.fields, TAG_END_SEQ_NO);
          if end.None? {
            return false;
          }
          ResetSequence(U64(IntOf(bgn.value)), U64(U64(IntOf(end.value)) + 1), true);
          handled := true;
        case SequenceReset =>
          var flag := GetField(msg.fields, TAG_GAP_FILL_FLAG);
          if flag.Some? && Ascii("Y") <= TextOf(flag.value) {
            FillGap(msg);
          } else {
            ApplyReset(msg);
          }
          handled := true;
        case _ =>
          handled := false;
      }
    }

    method FillGap(msg: Message)
      modifies this
      ensures SC.Step(State(), env, true) == SC.GapFill(old(State()), msg, old(env))
      ensures |env| <= |old(env)|
      decreases |env|, 2
    {
      hide SC.Logout, SC.TooLowText, SC.LowerText, SC.SendResendRequest, SC.SendReject;
      var field := GetField(msg.fields, TAG_NEW_SEQ_NO);
      if field.None? {
        return;
      }
      var expSeqNum, newSeqNum, seqNum := inMsgSeqNum, U64(IntOf(field.value)), U64(msg.seqNum);
      if seqNum > expSeqNum {
        RequestResend(expSeqNum, seqNum);
        Uncount();
        return;
      } else if seqNum < expSeqNum {
        var text := TooLowText(expSeqNum, seqNum);
        Uncount();
        if GetField(msg.fields, TAG_POSS_DUP_FLAG).None? {
          var _ := Logout(Some(text));
        }
        return;
      }
      if newSeqNum > seqNum {
        inMsgSeqNum := newSeqNum - 1;
      } else {
        RejectMessage(seqNum, LowerText(newSeqNum));
      }
    }

    method ApplyReset(msg: Message)
      modifies this
      ensures SC.Step(State(), env, true) == SC.Reset(old(State()), msg, old(env))
      ensures env == old(env)
    {
      hide SC.IncorrectText, SC.SendReject;
      var field := GetField(msg.fields, TAG_NEW_SEQ_NO);
      if field.None? {
        return;
      }
      var expSeqNum, newSeqNum := inMsgSeqNum, U64(IntOf(field.value));
      if newSeqNum > expSeqNum {
        inMsgSeqNum := newSeqNum - 1;
      } else if newSeqNum < expSeqNum {
        Uncount();
        RejectMessage(expSeqNum, IncorrectText(newSeqNum));
      }
    }
  }
}
