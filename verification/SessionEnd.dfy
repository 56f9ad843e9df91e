/** How a session ends, and what leaves it and its pending test request alone. Tags are written as numbers here. */
module SessionEnd {
  import opened Options
  import opened Bytes
  import opened Decimal
  import opened Atoi
  import opened FixTypes
  import opened FixScan
  import opened FixPrint
  import opened SessionControl
  import opened SessionGate

  /** Nothing is taken out of the log, and neither the session nor its request is revived. */
  predicate Later(s: Session, t: Session) {
    && s.sent <= t.sent && t.testReqId == s.testReqId
    && (t.active ==> s.active) && (t.trPending ==> s.trPending)
  }

  predicate NoHeartbeat(script: seq<Event>) {
    forall i :: 0 <= i < |script| && script[i].Arrives? ==> script[i].msg.typ != Heartbeat
  }

  /** What handling keeps; without a Heartbeat a pending request stays pending. */
  predicate Keeps<T>(s: Session, script: seq<Event>, r: Step<T>) {
    && Later(s, r.s)
    && (NoHeartbeat(script) ==> NoHeartbeat(r.script) && r.s.trPending == s.trPending)
  }

  lemma NoHeartbeatTail(script: seq<Event>)
    requires script != [] && NoHeartbeat(script)
    ensures NoHeartbeat(script[1..]) && (script[0].Arrives? ==> script[0].msg.typ != Heartbeat)
  {
    var rest := script[1..];
    assert forall i :: 0 <= i < |rest| ==> rest[i] == script[i + 1];
  }

  lemma LogoutKeeps(s: Session, text: Option<seq<byte>>, script: seq<Event>)
    ensures Keeps(s, script, SessionControl.Logout(s, text, script)) && !SessionControl.Logout(s, text, script).s.active
    ensures SaysFirst(s, SessionControl.Logout(s, text, script).s, Farewell(s, text))
    decreases |script|, 1
  {
    hide NoHeartbeat, Drain;
    var fields := if text.Some? then [TextOut(TAG_TEXT, text.value)] else [];
    var s' := Send(s, MsgType.Logout, fields).(active := false);
    DrainKeeps(s', script);
  }

  /** The Logout message a session sends. */
  function Farewell(s: Session, text: Option<seq<byte>>): Sent {
    Sent(MsgType.Logout, s.outSeq, if text.Some? then [OutField(58, StringValue(text.value))] else [])
  }

  predicate SaysFirst(s: Session, after: Session, e: Sent) {
    s.sent + [e] <= after.sent
  }

  lemma DrainKeeps(s: Session, script: seq<Event>)
    ensures Keeps(s, script, Drain(s, script))
    decreases |script|, 0
  {
    hide NoHeartbeat, Admin;
    if script != [] {
      if NoHeartbeat(script) { NoHeartbeatTail(script); }
      match script[0]
      case GraceOver =>
      case Nothing => DrainKeeps(s, script[1..]);
      case Arrives(m) =>
        AdminKeeps(Counted(s), m, script[1..]);
        var a := Admin(Counted(s), m, script[1..]);
        if a.result {
          DrainKeeps(a.s, a.script);
        }
    }
  }

  /** `Keeps` for the handling of a message. */
  predicate KeepsOf<T>(s: Session, m: Message, script: seq<Event>, r: Step<T>) {
    && Later(s, r.s)
    && (NoHeartbeat(script) && m.typ != Heartbeat ==> NoHeartbeat(r.script) && r.s.trPending == s.trPending)
  }

  lemma AdminKeeps(s: Session, m: Message, script: seq<Event>)
    ensures KeepsOf(s, m, script, Admin(s, m, script))
    decreases |script|, 4
  {
    hide NoHeartbeat, GapFill, Reset, DoUnexpected, GetField, EchoedId;
    if !Expected(s, m) {
      UnexpectedKeeps(s, m, script);
    } else if m.typ == SequenceReset {
      GapFillKeeps(Accept(s, m), m, script);
      ResetKeeps(Accept(s, m), m, script);
    }
  }

  lemma UnexpectedKeeps(s: Session, m: Message, script: seq<Event>)
    ensures Keeps(s, script, DoUnexpected(s, m, script))
    decreases |script|, 3
  {
    hide NoHeartbeat, SessionControl.Logout, TooLowText, GetField, IntOut;
    LogoutKeeps(Uncounted(s), Some(TooLowText(s.inSeq, U64(m.seqNum))), script);
  }

  lemma GapFillKeeps(s: Session, m: Message, script: seq<Event>)
    ensures Keeps(s, script, GapFill(s, m, script))
    decreases |script|, 3
  {
    hide NoHeartbeat, SessionControl.Logout, TooLowText, LowerText, GetField, IntOut;
    LogoutKeeps(Uncounted(s), Some(TooLowText(s.inSeq, U64(m.seqNum))), script);
  }

  lemma ResetKeeps(s: Session, m: Message, script: seq<Event>)
    ensures Keeps(s, script, Reset(s, m, script)) && Reset(s, m, script).s.active == s.active
    ensures Reset(s, m, script).s.trPending == s.trPending
  {
    hide NoHeartbeat, IncorrectText, GetField, IntOut;
  }

  // ---- the end of a session

  /** After a logout the session is inactive, whatever arrives meanwhile, and the first thing it said is Logout. */
  lemma LogoutEnds(s: Session, text: Option<seq<byte>>, script: seq<Event>)
    ensures var r := SessionControl.Logout(s, text, script);
      !r.s.active && SaysFirst(s, r.s, Farewell(s, text)) && r.s.testReqId == s.testReqId
  {
    hide Keeps, SessionControl.Logout, SaysFirst;
    LogoutKeeps(s, text, script);
    LaterId(s, SessionControl.Logout(s, text, script), script);
  }

  lemma LaterId<T>(s: Session, r: Step<T>, script: seq<Event>)
    requires Keeps(s, script, r)
    ensures r.s.testReqId == s.testReqId
  {
  }

  /** The wait ends well with the peer's Logout in sequence, and badly with a message the handler does not know. */
  lemma LogoutResult(s: Session, text: Option<seq<byte>>, m: Message, rest: seq<Event>)
    requires s.inSeq < TWO_64 && U64(m.seqNum) == Next(s)
    requires m.typ !in {Heartbeat, TestRequest, ResendRequest, SequenceReset}
    ensures var r := SessionControl.Logout(s, text, [Arrives(m)] + rest);
      r.result == (if m.typ == MsgType.Logout then 0 else -1) && r.script == rest && r.s.inSeq == Next(s)
  {
    hide Drain;
    var fields := if text.Some? then [TextOut(TAG_TEXT, text.value)] else [];
    var s' := Send(s, MsgType.Logout, fields).(active := false);
    DrainOne(s', m, rest);
  }

  lemma DrainOne(s: Session, m: Message, rest: seq<Event>)
    requires s.inSeq < TWO_64 && U64(m.seqNum) == Next(s)
    requires m.typ !in {Heartbeat, TestRequest, ResendRequest, SequenceReset}
    ensures var r := Drain(s, [Arrives(m)] + rest);
      r.result == (if m.typ == MsgType.Logout then 0 else -1) && r.script == rest && r.s.inSeq == Next(s)
  {
    var script := [Arrives(m)] + rest;
    assert script[1..] == rest;
    CountUncount(s);
    assert Admin(Counted(s), m, rest) == Step(Accept(Counted(s), m), rest, false);
  }

  // ---- the beginning

  lemma UnexpectedOutcome(s: Session, m: Message, script: seq<Event>)
    ensures var u := DoUnexpected(s, m, script);
      && s.sent <= u.s.sent && u.result in {0, 1}
      && (u.result == 0 ==> u.s.active == s.active && u.script == script)
      && (u.result == 1 ==> !u.s.active)
  {
    hide NoHeartbeat, SessionControl.Logout, TooLowText, GetField, IntOut;
    LogoutKeeps(Uncounted(s), Some(TooLowText(s.inSeq, U64(m.seqNum))), script);
  }

  /** Event `i` is the answer a logon waits for: a Logon in sequence. */
  predicate Welcomed<T>(script: seq<Event>, i: nat, r: Step<T>) {
    && i < |script| && script[i].Arrives? && r.script == script[i + 1..]
    && script[i].msg.typ == MsgType.Logon && U64(script[i].msg.seqNum) == r.s.inSeq
  }

  lemma {:induction false} AwaitOutcome(s: Session, script: seq<Event>) returns (i: nat)
    requires s.active
    ensures var r := AwaitLogon(s, script);
      && s.sent <= r.s.sent && r.result in {Some(0), Some(-1), None}
      && (r.result == Some(0) ==> r.s.active && Welcomed(script, i, r))
      && (r.result == Some(-1) ==> !r.s.active)
      && (r.result == None ==> r.s.active && r.script == [])
    decreases |script|
  {
    hide DoUnexpected, SessionControl.Logout, Ascii;
    i := 0;
    if script != [] {
      if script[0].Arrives? {
        var m, c := script[0].msg, Counted(s);
        UnexpectedOutcome(c, m, script[1..]);
        LogoutEnds(c, Some(Ascii("First message not a logon")), script[1..]);
        var u := DoUnexpected(c, m, script[1..]);
        if !Expected(c, m) && u.result == 0 {
          i := AwaitOutcome(u.s, u.script);
          i := i + 1;
        }
      } else {
        i := AwaitOutcome(s, script[1..]);
        i := i + 1;
      }
    }
  }

  /**
   A logon says Logon first. It succeeds only with a Logon in sequence, and then the session is active; when it
   fails the session is inactive; otherwise it still waits.
   */
  lemma LogonOutcome(s: Session, fields: seq<OutField>, script: seq<Event>) returns (i: nat)
    ensures var r := SessionControl.Logon(s, fields, script);
      && SaysFirst(s, r.s, Sent(MsgType.Logon, s.outSeq, fields))
      && r.result in {Some(0), Some(-1), None}
      && (r.result == Some(0) ==> r.s.active && Welcomed(script, i, r))
      && (r.result == Some(-1) ==> !r.s.active)
      && (r.result == None ==> r.s.active && r.script == [])
  {
    hide AwaitLogon, Welcomed;
    i := AwaitOutcome(Send(s, MsgType.Logon, fields).(active := true), script);
  }

  /** Any other message in sequence is answered with a Logout. */
  lemma LogonRefused(s: Session, fields: seq<OutField>, m: Message, rest: seq<Event>)
    requires s.inSeq < TWO_64 && m.typ != MsgType.Logon && (U64(m.seqNum) == Next(s) || m.typ == SequenceReset)
    ensures var r := SessionControl.Logon(s, fields, [Arrives(m)] + rest);
      && r.result == Some(-1) && !r.s.active
      && s.sent + [Sent(MsgType.Logon, s.outSeq, fields),
                   Sent(MsgType.Logout, s.outSeq + 1, [OutField(58, StringValue(Ascii("First message not a logon")))])]
           <= r.s.sent
  {
    hide SessionControl.Logout, Ascii;
    var script, text := [Arrives(m)] + rest, Some(Ascii("First message not a logon"));
    assert script[1..] == rest;
    var s' := Send(s, MsgType.Logon, fields).(active := true);
    CountUncount(s');
    LogoutEnds(Counted(s'), text, rest);
    assert SessionControl.Logon(s, fields, script).s == SessionControl.Logout(Counted(s'), text, rest).s;
    var e := Farewell(Counted(s'), text);
    var hello := Sent(MsgType.Logon, s.outSeq, fields);
    assert s.sent + [hello] + [e] == s.sent + [hello, e];
  }

  /** A gap fill: GapFillFlag begins with Y. */
  predicate Fills(m: Message) {
    var f := GetField(m.fields, 123);
    f.Some? && TextOf(f.value) != [] && TextOf(f.value)[0] == 'Y' as int
  }

  /**
   A polled message that ends the session: below the expected number and without PossDupFlag. A SequenceReset
   counts only as a gap fill that names a new number.
   */
  predicate Ends(s: Session, m: Message) {
    && U64(m.seqNum) < Next(s) && GetField(m.fields, 43).None?
    && ( m.typ in {Heartbeat, TestRequest, ResendRequest}
      || (m.typ == SequenceReset && Fills(m) && GetField(m.fields, 36).Some?))
  }

  /** What the session says of it. */
  function TooLow(s: Session, m: Message): seq<byte> {
    Ascii("MsgSeqNum too low, expecting ") + Digits(Next(s)) + Ascii(" received ") + Digits(U64(m.seqNum))
  }

  lemma FillsIsFlag(m: Message)
    ensures Fills(m) <==>
      var flag := GetField(m.fields, TAG_GAP_FILL_FLAG); flag.Some? && Ascii("Y") <= TextOf(flag.value)
  {
    assert Ascii("Y") == ['Y' as int] + Ascii([]);
  }

  /** A message that ends the session makes it log out, and is the last one the poll loop handles. */
  lemma TooLowEnds(s: Session, m: Message, script: seq<Event>)
    requires s.inSeq < TWO_64 && Ends(s, m)
    ensures PollMessage(s, m, script).s == SessionControl.Logout(s, Some(TooLow(s, m)), script).s
  {
    hide SessionControl.Logout, GetField, TooLowText, TooLow, Fills, DoUnexpected, GapFill;
    CountUncount(s);
    FillsIsFlag(m);
    var c := Counted(s);
    assert TooLowText(c.inSeq, U64(m.seqNum)) == TooLow(s, m) by { SameWords(s, m); }
    if m.typ == SequenceReset {
      assert Admin(c, m, script) == Handle(c, m, script) == GapFill(c, m, script);
      FillEnds(c, m, script);
    } else {
      assert Admin(c, m, script).s == DoUnexpected(c, m, script).s;
      UnexpectedEnds(c, m, script);
    }
  }

  lemma SameWords(s: Session, m: Message)
    requires s.inSeq < TWO_64
    ensures TooLowText(Counted(s).inSeq, U64(m.seqNum)) == TooLow(s, m)
  {
    CountUncount(s);
  }

  lemma UnexpectedEnds(c: Session, m: Message, script: seq<Event>)
    requires U64(m.seqNum) < c.inSeq && GetField(m.fields, 43).None?
    ensures DoUnexpected(c, m, script).s ==
      SessionControl.Logout(Uncounted(c), Some(TooLowText(c.inSeq, U64(m.seqNum))), script).s
  {
    hide SessionControl.Logout, GetField, TooLowText;
  }

  lemma FillEnds(c: Session, m: Message, script: seq<Event>)
    requires U64(m.seqNum) < c.inSeq && GetField(m.fields, 43).None? && GetField(m.fields, 36).Some?
    ensures GapFill(c, m, script).s ==
      SessionControl.Logout(Uncounted(c), Some(TooLowText(c.inSeq, U64(m.seqNum))), script).s
  {
    hide SessionControl.Logout, GetField, TooLowText, LowerText;
  }

  lemma PollEnds(s: Session, m: Message, rest: seq<Event>)
    requires s.active && s.inSeq < TWO_64 && Ends(s, m)
    ensures var p := PollMessage(s, m, rest);
      && !p.s.active && SaysFirst(s, p.s, Farewell(s, Some(TooLow(s, m))))
      && PollRun(s, [Arrives(m)] + rest) == Step(p.s, p.script, ())
  {
    hide SessionControl.Logout, PollMessage, Ends, SaysFirst, TooLow;
    TooLowEnds(s, m, rest);
    LogoutEnds(s, Some(TooLow(s, m)), rest);
    assert ([Arrives(m)] + rest)[1..] == rest;
  }

  /** An in-sequence Heartbeat whose TestReqID begins with the pending one. */
  predicate Answers(s: Session, m: Message) {
    && m.typ == Heartbeat && U64(m.seqNum) == Next(s)
    && var f := GetField(m.fields, 112);
       f.Some? && s.testReqId <= TextOf(f.value)
  }

  /**
   Every other message is handled without waiting for more. The session stays as active as it was, a request
   stops being pending exactly when it is answered, and only the four checked types are kept from the application.
   */
  lemma PollGoesOn(s: Session, m: Message, script: seq<Event>)
    requires s.inSeq < TWO_64 && !Ends(s, m)
    ensures var p := PollMessage(s, m, script);
      && GoesOn(s, p.s, s.trPending && !Answers(s, m)) && p.script == script
      && (p.result <==> m.typ !in {Heartbeat, TestRequest, ResendRequest, SequenceReset})
      && (p.result ==> p.s == s.(inSeq := Next(s)))
  {
    hide Admin, Ends, Answers, GoesOn;
    CountUncount(s);
    if IsChecked(m) {
      AdminGoesOn(s, m, script);
    } else {
      HandedOn(s, m);
    }
  }

  predicate GoesOn(s: Session, t: Session, pending: bool) {
    t.active == s.active && t.testReqId == s.testReqId && t.trPending == pending
  }

  lemma HandedOn(s: Session, m: Message)
    requires !IsChecked(m)
    ensures GoesOn(s, Counted(s), s.trPending && !Answers(s, m))
  {
  }

  lemma AdminGoesOn(s: Session, m: Message, script: seq<Event>)
    requires s.inSeq < TWO_64 && IsChecked(m) && !Ends(s, m)
    ensures var r := Admin(Counted(s), m, script);
      GoesOn(s, r.s, s.trPending && !Answers(s, m)) && r.script == script
  {
    hide GetField, GapFill, Reset, EchoedId, TextOf, Fills, DoUnexpected;
    CountUncount(s);
    var c := Counted(s);
    FillsIsFlag(m);
    if !Expected(c, m) {
      UnexpectedGoesOn(s, m, script);
    } else if m.typ == SequenceReset {
      if Fills(m) {
        FillGoesOn(s, m, script);
      } else {
        ResetKeeps(c, m, script);
      }
    }
  }

  lemma UnexpectedGoesOn(s: Session, m: Message, script: seq<Event>)
    requires s.inSeq < TWO_64 && !(U64(m.seqNum) < Next(s) && GetField(m.fields, 43).None?)
    ensures var r := DoUnexpected(Counted(s), m, script);
      GoesOn(s, r.s, s.trPending) && r.script == script
  {
    hide GetField, IntOut, SessionControl.Logout, TooLowText;
    CountUncount(s);
  }

  lemma FillGoesOn(s: Session, m: Message, script: seq<Event>)
    requires s.inSeq < TWO_64
    requires !(U64(m.seqNum) < Next(s) && GetField(m.fields, 43).None? && GetField(m.fields, 36).Some?)
    ensures var r := GapFill(Counted(s), m, script);
      GoesOn(s, r.s, s.trPending) && r.script == script
  {
    hide GetField, LowerText, TooLowText, IntOut, TextOf, SessionControl.Logout;
    CountUncount(s);
  }

  // ---- what a polled message is answered with

  function Number(tag: nat, n: nat): OutField {
    OutField(tag, IntValue(Wrap64(n)))
  }

  function Words(tag: nat, text: seq<byte>): OutField {
    OutField(tag, StringValue(text))
  }

  /** The TestReqID of a message when it has one of at most 127 characters. */
  function IdOf(m: Message): seq<byte> {
    var f := GetField(m.fields, 112);
    if f.Some? && |TextOf(f.value)| <= 127 then TextOf(f.value) else Ascii("TestReqID")
  }

  function NewNumber(m: Message): Option<nat> {
    var f := GetField(m.fields, 36);
    if f.Some? then Some(U64(IntOf(f.value))) else None
  }

  /** The answer to a message that does not end the session. */
  function Reply(s: Session, m: Message): seq<Sent> {
    var n, q := Next(s), U64(m.seqNum);
    if m.typ == SequenceReset then ReplyToReset(s, m, n, q)
    else if m.typ !in {Heartbeat, TestRequest, ResendRequest} || q < n then []
    else if q > n then [Sent(ResendRequest, s.outSeq, [Number(7, n), Number(16, 0)])]
    else if m.typ == TestRequest then [Sent(Heartbeat, s.outSeq, [Words(112, IdOf(m))])]
    else if m.typ == ResendRequest && GetField(m.fields, 7).Some? && GetField(m.fields, 16).Some? then
      var begin, end := U64(IntOf(GetField(m.fields, 7).value)), U64(IntOf(GetField(m.fields, 16).value));
      [Sent(SequenceReset, begin, [Number(36, U64(end + 1)), Words(123, Ascii("Y"))])]
    else []
  }

  function ReplyToReset(s: Session, m: Message, n: nat, q: nat): seq<Sent> {
    var number := NewNumber(m);
    if number.None? then []
    else if !Fills(m) then
      if number.value < n then
        [Sent(Reject, s.outSeq,
              [Number(45, n), Words(58, Ascii("Value is incorrect (too low) ") + Digits(number.value))])]
      else []
    else if q > n then [Sent(ResendRequest, s.outSeq, [Number(7, n), Number(16, q)])]
    else if q == n && number.value <= q then
      [Sent(Reject, s.outSeq, [Number(45, q), Words(58, Lowering(number.value))])]
    else []
  }

  function Lowering(number: nat): seq<byte> {
    Ascii("Attempt to lower sequence ") + Ascii("number, invalid value ") + Ascii("NewSeqNum = ") + Digits(number)
  }

  /** Handling a message that does not end the session says exactly the reply, and nothing else. */
  lemma PollReplies(s: Session, m: Message, script: seq<Event>)
    requires s.inSeq < TWO_64 && !Ends(s, m)
    ensures PollMessage(s, m, script).s.sent == s.sent + Reply(s, m)
  {
    hide Admin, Ends, Reply;
    CountUncount(s);
    if IsChecked(m) {
      AdminReplies(s, m, script);
    } else {
      assert Reply(s, m) == [] by { NoReply(s, m); }
      assert s.sent + [] == s.sent;
    }
  }

  lemma NoReply(s: Session, m: Message)
    requires !IsChecked(m)
    ensures Reply(s, m) == []
  {
  }

  lemma AdminReplies(s: Session, m: Message, script: seq<Event>)
    requires s.inSeq < TWO_64 && IsChecked(m) && !Ends(s, m)
    ensures Admin(Counted(s), m, script).s.sent == s.sent + Reply(s, m)
  {
    hide GetField, GapFill, Reset, TextOf, Fills, LowerText, Ascii, Digits, IntOf, ReplyToReset, EchoedId, IdOf, Wrap64;
    CountUncount(s);
    var c := Counted(s);
    FillsIsFlag(m);
    assert EchoedId(m) == IdOf(m) by { SameId(m); }
    assert s.sent + [] == s.sent;
    if m.typ == SequenceReset {
      assert Admin(c, m, script).s == if Fills(m) then GapFill(c, m, script).s else Reset(c, m, script).s;
      ResetReplies(s, m, script);
    } else if m.typ == ResendRequest && U64(m.seqNum) == Next(s) {
      ResendReplies(c, m, script);
    }
  }

  lemma SameId(m: Message)
    ensures EchoedId(m) == IdOf(m)
  {
    hide GetField, TextOf, Ascii;
  }

  lemma ResendReplies(c: Session, m: Message, script: seq<Event>)
    requires m.typ == ResendRequest && U64(m.seqNum) == c.inSeq
    ensures var begin, end := GetField(m.fields, 7), GetField(m.fields, 16);
      Admin(c, m, script).s.sent == c.sent +
        if begin.Some? && end.Some? then
          [Sent(SequenceReset, U64(IntOf(begin.value)),
                [Number(36, U64(U64(IntOf(end.value)) + 1)), Words(123, Ascii("Y"))])]
        else []
  {
    hide GetField, IntOf, Ascii, Wrap64;
    assert forall f: OutField, g: OutField :: [f] + [g] == [f, g];
    assert c.sent + [] == c.sent;
  }

  lemma ResetReplies(s: Session, m: Message, script: seq<Event>)
    requires s.inSeq < TWO_64 && m.typ == SequenceReset && !Ends(s, m)
    ensures var c := Counted(s);
      (if Fills(m) then GapFill(c, m, script).s else Reset(c, m, script).s).sent ==
        s.sent + ReplyToReset(s, m, Next(s), U64(m.seqNum))
  {
    hide GetField, Fills, Ascii, Digits, IntOf, TooLowText, Wrap64, SessionControl.Logout;
    CountUncount(s);
    assert s.sent + [] == s.sent;
  }

  // ---- which number is expected after it

  function NextAfter(s: Session, m: Message): nat {
    var n, q, number := Next(s), U64(m.seqNum), NewNumber(m);
    if m.typ == SequenceReset && number.Some? then
      if Fills(m) then
        if q != n then n else if number.value > q then number.value else Succ(n)
      else if number.value > n then number.value
      else if number.value < n then n
      else Succ(n)
    else if m.typ in {Heartbeat, TestRequest, ResendRequest} && q != n then n
    else Succ(n)
  }

  lemma PollNumbers(s: Session, m: Message, script: seq<Event>)
    requires s.inSeq < TWO_64 && !Ends(s, m)
    ensures Next(PollMessage(s, m, script).s) == NextAfter(s, m) && PollMessage(s, m, script).s.inSeq < TWO_64
  {
    hide Admin, Ends, NextAfter, Succ;
    CountUncount(s);
    if IsChecked(m) {
      AdminNumbers(s, m, script);
    } else {
      NextUnchecked(s, m);
    }
  }

  lemma NextUnchecked(s: Session, m: Message)
    requires !IsChecked(m)
    ensures NextAfter(s, m) == Succ(Next(s))
  {
  }

  lemma AdminNumbers(s: Session, m: Message, script: seq<Event>)
    requires s.inSeq < TWO_64 && IsChecked(m) && !Ends(s, m)
    ensures var t := Admin(Counted(s), m, script).s; Next(t) == NextAfter(s, m) && t.inSeq < TWO_64
  {
    hide GetField, GapFill, Reset, TextOf, Fills, IntOf, EchoedId, NewNumber, TooLowText, SessionControl.Logout, IntOut;
    CountUncount(s);
    var c := Counted(s);
    FillsIsFlag(m);
    if m.typ == SequenceReset {
      assert Admin(c, m, script).s == if Fills(m) then GapFill(c, m, script).s else Reset(c, m, script).s;
      ResetNumbers(s, m, script);
    }
  }

  lemma ResetNumbers(s: Session, m: Message, script: seq<Event>)
    requires s.inSeq < TWO_64 && m.typ == SequenceReset && !Ends(s, m)
    ensures var c := Counted(s);
      var t := if Fills(m) then GapFill(c, m, script).s else Reset(c, m, script).s;
      Next(t) == NextAfter(s, m) && t.inSeq < TWO_64
  {
    hide GetField, Fills, LowerText, IncorrectText, IntOf, TooLowText, IntOut, SessionControl.Logout, Uncounted;
    hide SendReject, SendResendRequest, Succ;
    var c := Counted(s);
    CountUncount(s);
    CountUncount(c);
    var number := NewNumber(m);
    if number.Some? && number.value > 0 {
      SuccPred(number.value);
    }
    ReportsKeepNumber(s, m);
  }

  lemma SuccPred(n: nat)
    requires 0 < n < TWO_64
    ensures Succ(n - 1) == n
  {
  }

  /** Sending touches no incoming number. */
  lemma ReportsKeepNumber(s: Session, m: Message)
    requires s.inSeq < TWO_64
    ensures forall begin: nat, end: nat :: Uncounted(SendResendRequest(Counted(s), begin, end)).inSeq == s.inSeq
    ensures forall ref: nat, text: seq<byte> :: SendReject(Counted(s), ref, text).inSeq == Counted(s).inSeq
    ensures forall ref: nat, text: seq<byte> :: SendReject(Uncounted(Counted(s)), ref, text).inSeq == s.inSeq
  {
    CountUncount(s);
  }

  /**
   A SequenceReset without gap fill that names exactly the expected number is counted like the message it
   announces; so a checked message with that number is then too low, and ends the session.
   */
  lemma ResetToExpected(s: Session, m: Message, next: Message, script: seq<Event>)
    requires s.inSeq < TWO_64 && m.typ == SequenceReset && !Fills(m) && NewNumber(m) == Some(Next(s))
    requires Next(s) + 1 < TWO_64 && next.typ in {Heartbeat, TestRequest, ResendRequest}
    requires U64(next.seqNum) == Next(s) && GetField(next.fields, 43).None?
    ensures Ends(PollMessage(s, m, script).s, next)
  {
    hide PollMessage, GetField, Fills, NewNumber;
    PollNumbers(s, m, script);
  }
}
