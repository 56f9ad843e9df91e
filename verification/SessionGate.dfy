/**
 What the re-entrant session handler does to the expected number, seen as a plain loop over the
 messages it consumed; the sequence guarantees follow from the plain loop.
 */
module SessionGate {
  import opened Options
  import opened Bytes
  import opened Atoi
  import opened FixTypes
  import opened FixScan
  import opened FixPrint
  import opened SessionControl

  /** The next expected number, the numbers accepted and the numbers at which a gap was seen. */
  datatype Gate = Gate(next: nat, accepted: seq<nat>, gaps: seq<nat>)

  /** A message judged by its number, or one handed on without looking at it. */
  datatype Item = Judged(msg: Message) | Passed

  predicate IsGapFill(m: Message) {
    var flag := GetField(m.fields, TAG_GAP_FILL_FLAG);
    flag.Some? && Ascii("Y") <= TextOf(flag.value)
  }

  function NewSeq(m: Message): Option<nat> {
    var f := GetField(m.fields, TAG_NEW_SEQ_NO);
    if f.Some? then Some(U64(IntOf(f.value))) else None
  }

  function Succ(n: nat): nat {
    (n + 1) % TWO_64
  }

  function GateStep(g: Gate, item: Item): Gate {
    match item
    case Passed => g.(next := Succ(g.next))
    case Judged(m) =>
      var q := U64(m.seqNum);
      if m.typ != SequenceReset then
        if q == g.next then g.(next := Succ(g.next), accepted := g.accepted + [q])
        else if q > g.next then g.(gaps := g.gaps + [g.next])
        else g
      else
        match NewSeq(m)
        case None => g.(next := Succ(g.next))
        case Some(new') =>
          if IsGapFill(m) then
            if q > g.next then g.(gaps := g.gaps + [g.next])
            else if q < g.next then g
            else g.(next := if new' > q then new' else Succ(g.next))
          else if new' > g.next then g.(next := new')
          else if new' < g.next then g
          else g.(next := Succ(g.next))
  }

  function GateRun(g: Gate, items: seq<Item>): Gate {
    if items == [] then g else GateStep(GateRun(g, items[..|items| - 1]), items[|items| - 1])
  }

  lemma {:induction false} GateRunConcat(g: Gate, a: seq<Item>, b: seq<Item>)
    ensures GateRun(g, a + b) == GateRun(GateRun(g, a), b)
  {
    hide GateStep;
    if b == [] {
      assert a + b == a;
    } else {
      GateRunConcat(g, a, b[..|b| - 1]);
      assert (a + b)[..|a + b| - 1] == a + b[..|b| - 1];
    }
  }

  /** The messages among the events consumed, all of them judged. */
  function Items(evs: seq<Event>): seq<Item> {
    if evs == [] then []
    else (if evs[0].Arrives? then [Judged(evs[0].msg)] else []) + Items(evs[1..])
  }

  lemma {:induction false} ItemsConcat(a: seq<Event>, b: seq<Event>)
    ensures Items(a + b) == Items(a) + Items(b)
  {
    if a == [] {
      assert a + b == b;
    } else {
      ItemsConcat(a[1..], b);
      var first := if a[0].Arrives? then [Judged(a[0].msg)] else [];
      assert (a + b)[1..] == a[1..] + b && (a + b)[0] == a[0];
      assert first + (Items(a[1..]) + Items(b)) == first + Items(a[1..]) + Items(b);
    }
  }

  /** The number a session expects next, between calls of the receiver. */
  function Next(s: Session): nat {
    Succ(s.inSeq)
  }

  /** Where each ResendRequest in the log begins. */
  function ResendBegins(log: seq<Sent>): seq<nat> {
    if log == [] then []
    else
      var e := log[|log| - 1];
      ResendBegins(log[..|log| - 1]) +
      if e.typ == ResendRequest && |e.fields| == 2 && e.fields[0].value.IntValue? then [U64(e.fields[0].value.n)]
      else []
  }

  function Consumed(script: seq<Event>, rest: seq<Event>): seq<Event>
    requires |rest| <= |script|
  {
    script[..|script| - |rest|]
  }

  // ---- flattening the re-entrant handler

  function View(s: Session): Gate {
    Gate(Next(s), s.accepted, ResendBegins(s.sent))
  }

  lemma CountUncount(s: Session)
    requires s.inSeq < TWO_64
    ensures Uncounted(Counted(s)) == s && Counted(s).inSeq == Next(s) < TWO_64
  {
  }

  lemma BeginSurvives(bgn: nat)
    requires bgn < TWO_64
    ensures U64(Wrap64(bgn)) == bgn
  {
  }

  lemma LogSnoc(log: seq<Sent>, e: Sent)
    ensures (log + [e])[..|log + [e]| - 1] == log && (log + [e])[|log + [e]| - 1] == e
  {
  }

  /** Sending anything but a ResendRequest leaves the view alone. */
  lemma SendKeepsView(s: Session, typ: MsgType, fields: seq<OutField>)
    requires typ != ResendRequest
    ensures View(Send(s, typ, fields)) == View(s)
  {
    LogSnoc(s.sent, Sent(typ, s.outSeq, fields));
  }

  lemma ResetKeepsView(s: Session, seqNum: nat, newSeqNum: nat, gapFill: bool)
    ensures View(SendSequenceReset(s, seqNum, newSeqNum, gapFill)) == View(s)
  {
    var s' := SendSequenceReset(s, seqNum, newSeqNum, gapFill);
    LogSnoc(s.sent, s'.sent[|s.sent|]);
  }

  lemma ResendRecordsGap(s: Session, bgn: nat, end: nat)
    requires bgn < TWO_64
    ensures View(SendResendRequest(s, bgn, end)) == View(s).(gaps := View(s).gaps + [bgn])
  {
    var s' := SendResendRequest(s, bgn, end);
    LogSnoc(s.sent, s'.sent[|s.sent|]);
    BeginSurvives(bgn);
  }

  /** From `s` to `s'` the expected number, the accepted numbers and the gaps move as the plain loop says. */
  ghost predicate Flat(s: Session, items: seq<Item>, s': Session) {
    s'.inSeq < TWO_64 && View(s') == GateRun(View(s), items)
  }

  lemma FlatTrans(s: Session, a: seq<Item>, mid: Session, b: seq<Item>, s': Session)
    requires Flat(s, a, mid) && Flat(mid, b, s')
    ensures Flat(s, a + b, s')
  {
    GateRunConcat(View(s), a, b);
  }

  lemma FlatOne(s: Session, m: Message, s': Session)
    requires s'.inSeq < TWO_64 && View(s') == GateStep(View(s), Judged(m))
    ensures Flat(s, [Judged(m)], s')
  {
    hide GateStep;
    assert [Judged(m)][..0] == [] && GateRun(View(s), []) == View(s);
  }

  /** The script left over is a suffix, so the events consumed in two stages add up. */
  lemma ConsumedTwice(script: seq<Event>, mid: seq<Event>, rest: seq<Event>)
    requires SuffixOf(mid, script) && SuffixOf(rest, mid)
    ensures SuffixOf(rest, script) && Consumed(script, rest) == Consumed(script, mid) + Consumed(mid, rest)
    ensures Items(Consumed(script, rest)) == Items(Consumed(script, mid)) + Items(Consumed(mid, rest))
  {
    ItemsConcat(Consumed(script, mid), Consumed(mid, rest));
  }

  ghost predicate SuffixOf(rest: seq<Event>, script: seq<Event>) {
    |rest| <= |script| && script[|script| - |rest|..] == rest
  }

  /** The events consumed from `script` flatten to the moves from `s` to the result's state. */
  ghost predicate FlatStep<T>(s: Session, script: seq<Event>, r: Step<T>) {
    SuffixOf(r.script, script) && Flat(s, Items(Consumed(script, r.script)), r.s)
  }

  ghost predicate FlatAfter<T>(s: Session, m: Message, script: seq<Event>, r: Step<T>) {
    SuffixOf(r.script, script) && Flat(s, [Judged(m)] + Items(Consumed(script, r.script)), r.s)
  }

  lemma FlatUnconsumed<T>(s: Session, m: Message, script: seq<Event>, r: Step<T>)
    requires r.script == script && r.s.inSeq < TWO_64 && View(r.s) == GateStep(View(s), Judged(m))
    ensures FlatAfter(s, m, script, r)
  {
    hide GateStep, View;
    FlatOne(s, m, r.s);
    assert Consumed(script, script) == [];
    assert [Judged(m)] + [] == [Judged(m)];
  }

  lemma FlatDrain(s: Session, script: seq<Event>)
    requires s.inSeq < TWO_64
    ensures FlatStep(s, script, Drain(s, script)) && Drain(s, script).s.inSeq < TWO_64
    decreases |script|, 0
  {
    hide FlatStep, FlatAfter, Admin, Counted;
    if script == [] || script[0] == GraceOver {
      FlatStopped(s, script, Drain(s, script));
    } else if script[0] == Nothing {
      FlatDrain(s, script[1..]);
      FlatSkipped(s, script, Drain(s, script));
    } else {
      var m, rest := script[0].msg, script[1..];
      FlatAdmin(s, m, rest);
      var a := Admin(Counted(s), m, rest);
      if a.result {
        FlatDrain(a.s, a.script);
        FlatChained(s, m, rest, a, Drain(a.s, a.script));
        FlatArrived(s, m, script, Drain(a.s, a.script));
      } else {
        var d := Step(a.s, a.script, if m.typ == MsgType.Logout then 0 else -1);
        FlatAfterSame(s, m, rest, a, d);
        FlatArrived(s, m, script, d);
      }
    }
  }

  lemma FlatStopped<T>(s: Session, script: seq<Event>, r: Step<T>)
    requires s.inSeq < TWO_64 && r.s == s
    requires r.script == if script == [] then [] else script[1..]
    requires script == [] || script[0] == GraceOver
    ensures FlatStep(s, script, r)
  {
    hide GateRun, View;
    FlatNone(s);
    if script != [] {
      FirstConsumed(script, r.script);
    }
  }

  lemma FlatSkipped<T>(s: Session, script: seq<Event>, r: Step<T>)
    requires script != [] && script[0] == Nothing && FlatStep(s, script[1..], r)
    ensures FlatStep(s, script, r)
  {
    hide Flat;
    FirstConsumed(script, r.script);
    assert [] + Items(Consumed(script[1..], r.script)) == Items(Consumed(script[1..], r.script));
  }

  /** Handling a message and then draining on. */
  lemma FlatChained(s: Session, m: Message, script: seq<Event>, a: Step<bool>, d: Step<int>)
    requires FlatAfter(s, m, script, a) && FlatStep(a.s, a.script, d)
    ensures FlatAfter(s, m, script, d)
  {
    hide Flat, Items;
    ConsumedTwice(script, a.script, d.script);
    var x, y := Items(Consumed(script, a.script)), Items(Consumed(a.script, d.script));
    FlatTrans(s, [Judged(m)] + x, a.s, y, d.s);
    assert [Judged(m)] + x + y == [Judged(m)] + (x + y);
  }

  lemma FlatAfterSame<T, U>(s: Session, m: Message, script: seq<Event>, a: Step<T>, b: Step<U>)
    requires FlatAfter(s, m, script, a) && b.s == a.s && b.script == a.script
    ensures FlatAfter(s, m, script, b)
  {
  }

  lemma FlatArrived<T>(s: Session, m: Message, script: seq<Event>, a: Step<T>)
    requires script != [] && script[0] == Arrives(m) && FlatAfter(s, m, script[1..], a)
    ensures FlatStep(s, script, a)
  {
    hide Flat;
    FirstConsumed(script, a.script);
  }

  lemma FlatNone(s: Session)
    requires s.inSeq < TWO_64
    ensures Flat(s, [], s)
  {
  }

  lemma FirstConsumed(script: seq<Event>, rest: seq<Event>)
    requires script != [] && |rest| < |script|
    ensures Consumed(script, rest) == [script[0]] + Consumed(script[1..], rest)
    ensures Items(Consumed(script, rest)) ==
      (if script[0].Arrives? then [Judged(script[0].msg)] else []) + Items(Consumed(script[1..], rest))
    ensures SuffixOf(rest, script[1..]) ==> SuffixOf(rest, script)
  {
  }

  lemma FlatLogout(s: Session, text: Option<seq<byte>>, script: seq<Event>)
    requires s.inSeq < TWO_64
    ensures FlatStep(s, script, SessionControl.Logout(s, text, script))
    ensures SessionControl.Logout(s, text, script).s.inSeq < TWO_64
    decreases |script|, 1
  {
    hide Drain, GateRun, ResendBegins;
    var fields := if text.Some? then [TextOut(TAG_TEXT, text.value)] else [];
    SendKeepsView(s, MsgType.Logout, fields);
    var s' := Send(s, MsgType.Logout, fields).(active := false);
    FlatDrain(s', script);
    assert View(s') == View(s);
  }

  /** A message below the expected number leaves the view alone; so only the logout drain counts. */
  lemma FlatTooLow(s: Session, m: Message, text: seq<byte>, script: seq<Event>)
    requires s.inSeq < TWO_64 && GateStep(View(s), Judged(m)) == View(s)
    ensures var r := SessionControl.Logout(s, Some(text), script);
      FlatAfter(s, m, script, r) && r.s.inSeq < TWO_64
    decreases |script|, 2
  {
    hide SessionControl.Logout, GateStep, View, GateRun;
    FlatLogout(s, Some(text), script);
    var r := SessionControl.Logout(s, Some(text), script);
    FlatOne(s, m, s);
    FlatTrans(s, [Judged(m)], s, Items(Consumed(script, r.script)), r.s);
  }

  lemma FlatUnexpected(s: Session, m: Message, script: seq<Event>)
    requires s.inSeq < TWO_64 && !Expected(Counted(s), m)
    ensures var r := DoUnexpected(Counted(s), m, script); FlatAfter(s, m, script, r) && r.s.inSeq < TWO_64
    decreases |script|, 3
  {
    hide SessionControl.Logout, GateRun, ResendBegins, TooLowText;
    var c, q := Counted(s), U64(m.seqNum);
    CountUncount(s);
    if q > c.inSeq {
      ResendRecordsGap(c, c.inSeq, 0);
      var c' := SendResendRequest(c, c.inSeq, 0);
      assert Uncounted(c').inSeq == s.inSeq;
      FlatUnconsumed(s, m, script, DoUnexpected(c, m, script));
    } else {
      assert GateStep(View(s), Judged(m)) == View(s);
      if GetField(m.fields, TAG_POSS_DUP_FLAG).Some? {
        FlatUnconsumed(s, m, script, DoUnexpected(c, m, script));
      } else {
        FlatTooLow(s, m, TooLowText(c.inSeq, q), script);
        var r := SessionControl.Logout(s, Some(TooLowText(c.inSeq, q)), script);
        assert DoUnexpected(c, m, script) == r.(result := 1);
      }
    }
  }

  lemma RejectKeepsView(s: Session, refSeqNum: nat, text: seq<byte>)
    ensures View(SendReject(s, refSeqNum, text)) == View(s)
    ensures SendReject(s, refSeqNum, text).inSeq == s.inSeq
  {
    SendKeepsView(s, Reject, [IntOut(TAG_REF_SEQ_NUM, refSeqNum), TextOut(TAG_TEXT, text)]);
  }

  lemma FlatReset(s: Session, m: Message, script: seq<Event>)
    requires s.inSeq < TWO_64 && m.typ == SequenceReset && !IsGapFill(m)
    ensures var r := Reset(Counted(s), m, script); FlatAfter(s, m, script, r) && r.s.inSeq < TWO_64
  {
    hide GateRun, ResendBegins, IncorrectText, SendReject;
    var c := Counted(s);
    CountUncount(s);
    if NewSeq(m).Some? {
      RejectKeepsView(Uncounted(c), c.inSeq, IncorrectText(NewSeq(m).value));
    }
    FlatUnconsumed(s, m, script, Reset(c, m, script));
  }

  lemma FlatGapFill(s: Session, m: Message, script: seq<Event>)
    requires s.inSeq < TWO_64 && m.typ == SequenceReset && IsGapFill(m)
    ensures var r := GapFill(Counted(s), m, script); FlatAfter(s, m, script, r) && r.s.inSeq < TWO_64
    decreases |script|, 3
  {
    hide GateRun, ResendBegins, LowerText, TooLowText, SendReject, SessionControl.Logout;
    var c, q := Counted(s), U64(m.seqNum);
    CountUncount(s);
    if NewSeq(m).Some? && q > c.inSeq {
      ResendRecordsGap(c, c.inSeq, q);
      assert Uncounted(SendResendRequest(c, c.inSeq, q)).inSeq == s.inSeq;
      FlatUnconsumed(s, m, script, GapFill(c, m, script));
    } else if NewSeq(m).Some? && q < c.inSeq && GetField(m.fields, TAG_POSS_DUP_FLAG).None? {
      assert GateStep(View(s), Judged(m)) == View(s);
      FlatTooLow(s, m, TooLowText(c.inSeq, q), script);
    } else {
      if NewSeq(m).Some? {
        RejectKeepsView(c, q, LowerText(NewSeq(m).value));
      }
      FlatUnconsumed(s, m, script, GapFill(c, m, script));
    }
  }

  lemma FlatHandle(s: Session, m: Message, script: seq<Event>)
    requires s.inSeq < TWO_64 && Expected(Counted(s), m)
    ensures var r := Handle(Accept(Counted(s), m), m, script); FlatAfter(s, m, script, r) && r.s.inSeq < TWO_64
    decreases |script|, 4
  {
    hide GateRun, ResendBegins, GapFill, Reset, SendSequenceReset, Send, EchoedId;
    var c := Counted(s);
    CountUncount(s);
    if m.typ == SequenceReset {
      if IsGapFill(m) { FlatGapFill(s, m, script); } else { FlatReset(s, m, script); }
    } else {
      var a := Accept(c, m);
      SendKeepsView(a, Heartbeat, [TextOut(TAG_TEST_REQ_ID, EchoedId(m))]);
      SendKeepsInSeq(a, Heartbeat, [TextOut(TAG_TEST_REQ_ID, EchoedId(m))]);
      var bgn, end := GetField(m.fields, TAG_BEGIN_SEQ_NO), GetField(m.fields, TAG_END_SEQ_NO);
      if bgn.Some? && end.Some? {
        ResetKeepsView(a, U64(IntOf(bgn.value)), U64(U64(IntOf(end.value)) + 1), true);
        SendKeepsInSeq(a, Heartbeat, []);
      }
      FlatUnconsumed(s, m, script, Handle(a, m, script));
    }
  }

  lemma SendKeepsInSeq(s: Session, typ: MsgType, fields: seq<OutField>)
    ensures Send(s, typ, fields).inSeq == s.inSeq
    ensures forall q, n, g :: SendSequenceReset(s, q, n, g).inSeq == s.inSeq
  {
  }

  /** One received message, with everything its handling drains, against the plain loop. */
  lemma FlatAdmin(s: Session, m: Message, script: seq<Event>)
    requires s.inSeq < TWO_64
    ensures var r := Admin(Counted(s), m, script); FlatAfter(s, m, script, r) && r.s.inSeq < TWO_64
    decreases |script|, 5
  {
    hide GateRun, GateStep, View, DoUnexpected, Handle;
    if Expected(Counted(s), m) {
      FlatHandle(s, m, script);
    } else {
      FlatUnexpected(s, m, script);
    }
  }

  // ---- what the plain loop guarantees

  /** The numbers in `xs` rise strictly and lie in [lo, hi). */
  predicate RisingWithin(xs: seq<nat>, lo: nat, hi: nat) {
    && (forall i :: 0 <= i < |xs| ==> lo <= xs[i] < hi)
    && (forall i, j :: 0 <= i < j < |xs| ==> xs[i] < xs[j])
  }

  /** From `g` to `g'` the expected number does not fall, and what is accepted meanwhile rises strictly. */
  ghost predicate Advances(g: Gate, g': Gate) {
    && g.next <= g'.next && g.accepted <= g'.accepted && g.gaps <= g'.gaps
    && RisingWithin(g'.accepted[|g.accepted|..], g.next, g'.next)
    && (forall i :: |g.gaps| <= i < |g'.gaps| ==> g.next <= g'.gaps[i] <= g'.next)
  }

  /** `budget` further messages cannot carry any number past the counter's width. */
  predicate FitsItem(item: Item, budget: nat) {
    item.Judged? && item.msg.typ == SequenceReset && NewSeq(item.msg).Some? ==> NewSeq(item.msg).value + budget < TWO_64
  }

  /** The item is taken as the one expected next, whatever it says about later numbers. */
  predicate TakesExpected(g: Gate, item: Item) {
    match item
    case Passed => true
    case Judged(m) =>
      if m.typ != SequenceReset then U64(m.seqNum) == g.next
      else NewSeq(m).None? || if IsGapFill(m) then U64(m.seqNum) == g.next else NewSeq(m) == Some(g.next)
  }

  /** The expected number falls exactly when the largest counter value is taken; it then rolls over to zero. */
  lemma StepNeverLowers(g: Gate, item: Item)
    requires g.next < TWO_64
    ensures GateStep(g, item).next < TWO_64
    ensures GateStep(g, item).next < g.next <==> g.next == TWO_64 - 1 && TakesExpected(g, item)
    ensures GateStep(g, item).next < g.next ==> GateStep(g, item).next == 0
  {
  }

  lemma StepAdvances(g: Gate, item: Item)
    requires g.next + 1 < TWO_64
    ensures Advances(g, GateStep(g, item))
  {
    StepNeverLowers(g, item);
    var g' := GateStep(g, item);
    assert g'.accepted[|g.accepted|..] == [] || g'.accepted[|g.accepted|..] == [g.next];
  }

  lemma AdvancesTrans(a: Gate, b: Gate, c: Gate)
    requires Advances(a, b) && Advances(b, c)
    ensures Advances(a, c)
  {
    var n, k := |a.accepted|, |b.accepted|;
    var xs := c.accepted[n..];
    forall i | 0 <= i < |xs|
      ensures a.next <= xs[i] < c.next && (i < k - n ==> xs[i] < b.next) && (i >= k - n ==> b.next <= xs[i])
    {
      if i < k - n {
        assert xs[i] == b.accepted[n..][i];
      } else {
        assert xs[i] == c.accepted[k..][i - (k - n)];
      }
    }
    forall i, j | 0 <= i < j < |xs| ensures xs[i] < xs[j] {
      if j < k - n {
        assert xs[i] == b.accepted[n..][i] && xs[j] == b.accepted[n..][j];
      } else if i >= k - n {
        assert xs[i] == c.accepted[k..][i - (k - n)] && xs[j] == c.accepted[k..][j - (k - n)];
      }
    }
    forall i | |a.gaps| <= i < |c.gaps| ensures a.next <= c.gaps[i] <= c.next {
      if i < |b.gaps| {
        assert c.gaps[i] == b.gaps[i];
      }
    }
  }

  /** In-order, at most once: for any messages lost, repeated or reordered, the accepted numbers rise strictly. */
  lemma {:induction false} GateInOrder(g: Gate, items: seq<Item>, budget: nat)
    requires g.next + |items| + budget < TWO_64
    requires forall i :: 0 <= i < |items| ==> FitsItem(items[i], |items| + budget)
    ensures Advances(g, GateRun(g, items)) && GateRun(g, items).next + budget < TWO_64
    decreases |items|
  {
    hide GateStep, Advances, FitsItem;
    if items == [] {
      AdvancesSelf(g);
    } else {
      var front, last := items[..|items| - 1], items[|items| - 1];
      assert forall i :: 0 <= i < |front| ==> front[i] == items[i];
      GateInOrder(g, front, budget + 1);
      var mid := GateRun(g, front);
      StepAdvances(mid, last);
      StepFits(mid, last, budget, |items| + budget);
      AdvancesTrans(g, mid, GateStep(mid, last));
    }
  }

  lemma AdvancesSelf(g: Gate)
    ensures Advances(g, g)
  {
  }

  lemma StepFits(g: Gate, item: Item, budget: nat, more: nat)
    requires g.next + budget + 1 < TWO_64 && FitsItem(item, more) && budget <= more
    ensures GateStep(g, item).next + budget < TWO_64
  {
  }

  /** Without SequenceReset and with every message judged, the accepted numbers are consecutive. */
  lemma {:induction false} GateConsecutive(g: Gate, items: seq<Item>)
    requires g.next + |items| < TWO_64
    requires forall i :: 0 <= i < |items| ==> items[i].Judged? && items[i].msg.typ != SequenceReset
    ensures var g' := GateRun(g, items);
      && g.next <= g'.next <= g.next + |items| && |g'.accepted| == |g.accepted| + (g'.next - g.next)
      && g.accepted <= g'.accepted
      && forall i :: |g.accepted| <= i < |g'.accepted| ==> g'.accepted[i] == g.next + (i - |g.accepted|)
    decreases |items|
  {
    if items != [] {
      var front := items[..|items| - 1];
      assert forall i :: 0 <= i < |front| ==> front[i] == items[i];
      GateConsecutive(g, front);
    }
  }

  // ---- whole runs of the session

  /** No SequenceReset in the script comes within the script's length of the counter's end. */
  ghost predicate Fits(script: seq<Event>, budget: nat) {
    forall i :: 0 <= i < |script| && script[i].Arrives? ==> FitsItem(Judged(script[i].msg), budget)
  }

  lemma {:induction false} ItemsFit(evs: seq<Event>, budget: nat)
    requires Fits(evs, budget)
    ensures |Items(evs)| <= |evs|
    ensures forall i :: 0 <= i < |Items(evs)| ==> Items(evs)[i].Judged? && FitsItem(Items(evs)[i], budget)
  {
    hide FitsItem;
    if evs != [] {
      assert forall i :: 0 <= i < |evs[1..]| ==> evs[1..][i] == evs[i + 1];
      ItemsFit(evs[1..], budget);
    }
  }

  lemma {:induction false} ItemsAreEvents(evs: seq<Event>)
    requires forall i :: 0 <= i < |evs| && evs[i].Arrives? ==> evs[i].msg.typ != SequenceReset
    ensures |Items(evs)| <= |evs|
    ensures forall i :: 0 <= i < |Items(evs)| ==> Items(evs)[i].Judged? && Items(evs)[i].msg.typ != SequenceReset
  {
    if evs != [] {
      assert forall i :: 0 <= i < |evs[1..]| ==> evs[1..][i] == evs[i + 1];
      ItemsAreEvents(evs[1..]);
    }
  }

  /**
   Everything the logout drain receives, including what nested drains consume, goes through the gate in
   order and at most once, and each gap seen is answered by a ResendRequest that begins at it.
   */
  lemma DrainInOrder(s: Session, script: seq<Event>)
    requires s.inSeq < TWO_64 && Next(s) + |script| < TWO_64 && Fits(script, |script|)
    ensures var r := Drain(s, script);
      && Advances(View(s), View(r.s))
      && View(r.s) == GateRun(View(s), Items(Consumed(script, r.script)))
  {
    hide Drain, GateRun, Advances, FitsItem, View;
    var r := Drain(s, script);
    FlatDrain(s, script);
    var evs := Consumed(script, r.script);
    ItemsFit(evs, |script|);
    ViewNext(s);
    FitsLess(Items(evs), |script|);
    GateInOrder(View(s), Items(evs), 0);
  }

  lemma ViewNext(s: Session)
    ensures View(s).next == Next(s)
  {
  }

  lemma FitsLess(items: seq<Item>, budget: nat)
    requires |items| <= budget && forall i :: 0 <= i < |items| ==> FitsItem(items[i], budget)
    ensures forall i :: 0 <= i < |items| ==> FitsItem(items[i], |items|)
  {
  }

  /** When no SequenceReset arrives, the drain accepts consecutive numbers starting with the expected one. */
  lemma DrainConsecutive(s: Session, script: seq<Event>)
    requires s.inSeq < TWO_64 && Next(s) + |script| < TWO_64
    requires forall i :: 0 <= i < |script| && script[i].Arrives? ==> script[i].msg.typ != SequenceReset
    ensures var s' := Drain(s, script).s;
      && Next(s) <= Next(s') && |s'.accepted| == |s.accepted| + (Next(s') - Next(s)) && s.accepted <= s'.accepted
      && forall i :: |s.accepted| <= i < |s'.accepted| ==> s'.accepted[i] == Next(s) + (i - |s.accepted|)
  {
    hide Drain, GateRun;
    var r := Drain(s, script);
    FlatDrain(s, script);
    var evs := Consumed(script, r.script);
    ItemsAreEvents(evs);
    GateConsecutive(View(s), Items(evs));
  }

  /** The poll loop of a session that never stops receiving while it is active. */
  function PollRun(s: Session, script: seq<Event>): (r: Step<()>)
    ensures |r.script| <= |script|
    decreases |script|
  {
    if script == [] || !s.active then Step(s, script, ())
    else match script[0]
      case Arrives(m) =>
        var p := PollMessage(s, m, script[1..]);
        PollRun(p.s, p.script)
      case _ => PollRun(s, script[1..])
  }

  lemma FlatPassed(s: Session)
    requires s.inSeq < TWO_64
    ensures Flat(s, [Passed], Counted(s))
  {
    CountUncount(s);
    assert [Passed][..0] == [] && GateRun(View(s), []) == View(s);
  }

  /** One polled message as items of the plain loop: itself and what its handling drains, or handed on unjudged. */
  function MessageItems(s: Session, m: Message, script: seq<Event>): seq<Item> {
    if IsChecked(m) then [Judged(m)] + Items(Consumed(script, Admin(Counted(s), m, script).script)) else [Passed]
  }

  /** What one poll does is what the plain loop does on its items. */
  lemma FlatPoll(s: Session, m: Message, script: seq<Event>)
    requires s.inSeq < TWO_64
    ensures var p := PollMessage(s, m, script);
      SuffixOf(p.script, script) && p.s.inSeq < TWO_64 && Flat(s, MessageItems(s, m, script), p.s)
  {
    hide GateRun, View, Admin;
    if IsChecked(m) {
      FlatAdmin(s, m, script);
    } else {
      FlatPassed(s);
    }
  }

  /** The items of a whole poll run. */
  function PollItems(s: Session, script: seq<Event>): seq<Item>
    decreases |script|
  {
    if script == [] || !s.active then []
    else match script[0]
      case Arrives(m) =>
        var p := PollMessage(s, m, script[1..]);
        MessageItems(s, m, script[1..]) + PollItems(p.s, p.script)
      case _ => PollItems(s, script[1..])
  }

  /** Every poll run moves expected number, accepted numbers and ResendRequests as the plain loop on its items. */
  lemma {:induction false} FlatPollRun(s: Session, script: seq<Event>)
    requires s.inSeq < TWO_64
    ensures Flat(s, PollItems(s, script), PollRun(s, script).s)
    decreases |script|
  {
    hide Flat, PollMessage, MessageItems, SuffixOf;
    if script == [] || !s.active {
      FlatNone(s);
    } else if !script[0].Arrives? {
      FlatPollRun(s, script[1..]);
    } else {
      var m, rest := script[0].msg, script[1..];
      FlatPoll(s, m, rest);
      var p := PollMessage(s, m, rest);
      FlatPollRun(p.s, p.script);
      FlatTrans(s, MessageItems(s, m, rest), p.s, PollItems(p.s, p.script), PollRun(s, script).s);
    }
  }

  /** All of `evs` and all that is left of it satisfy `Fits`. */
  lemma FitsSuffix(script: seq<Event>, rest: seq<Event>, budget: nat)
    requires Fits(script, budget) && SuffixOf(rest, script)
    ensures Fits(rest, budget) && Fits(Consumed(script, rest), budget)
  {
    hide FitsItem;
    assert forall i :: 0 <= i < |rest| ==> rest[i] == script[|script| - |rest| + i];
  }

  lemma MessageItemsFit(s: Session, m: Message, script: seq<Event>, budget: nat)
    requires s.inSeq < TWO_64 && FitsItem(Judged(m), budget) && Fits(script, budget)
    ensures var items, p := MessageItems(s, m, script), PollMessage(s, m, script);
      && |items| + |p.script| <= |script| + 1
      && Fits(p.script, budget) && forall i :: 0 <= i < |items| ==> FitsItem(items[i], budget)
  {
    hide FitsItem, Admin, Fits, SuffixOf, Flat;
    FlatPoll(s, m, script);
    var p := PollMessage(s, m, script);
    FitsSuffix(script, p.script, budget);
    SuffixLength(script, p.script);
    ItemsFit(Consumed(script, p.script), budget);
    PassedFits(budget);
  }

  lemma SuffixLength(script: seq<Event>, rest: seq<Event>)
    requires SuffixOf(rest, script)
    ensures |Consumed(script, rest)| + |rest| == |script|
  {
  }

  lemma PassedFits(budget: nat)
    ensures FitsItem(Passed, budget)
  {
  }

  lemma {:induction false} PollItemsFit(s: Session, script: seq<Event>, budget: nat)
    requires s.inSeq < TWO_64 && Fits(script, budget)
    ensures var items := PollItems(s, script);
      |items| <= |script| && forall i :: 0 <= i < |items| ==> FitsItem(items[i], budget)
    decreases |script|
  {
    hide FitsItem, PollMessage, MessageItems, Fits, Flat, SuffixOf;
    if script != [] && s.active {
      FitsCons(script, budget);
      if !script[0].Arrives? {
        PollItemsFit(s, script[1..], budget);
      } else {
        var m, rest := script[0].msg, script[1..];
        FlatPoll(s, m, rest);
        MessageItemsFit(s, m, rest, budget);
        var p := PollMessage(s, m, rest);
        PollItemsFit(p.s, p.script, budget);
      }
    }
  }

  lemma FitsCons(script: seq<Event>, budget: nat)
    requires script != [] && Fits(script, budget)
    ensures Fits(script[1..], budget) && (script[0].Arrives? ==> FitsItem(Judged(script[0].msg), budget))
  {
    hide FitsItem;
    FitsSuffix(script, script[1..], budget);
  }

  /**
   In every run of the poll loop the expected number never falls and the accepted numbers rise strictly; and
   the ResendRequests sent are exactly those for the gaps the plain loop sees on the run's items, each
   beginning at the number expected there.
   */
  lemma PollInOrder(s: Session, script: seq<Event>)
    requires s.inSeq < TWO_64 && Next(s) + |script| < TWO_64 && Fits(script, |script|)
    ensures var s' := PollRun(s, script).s;
      Advances(View(s), View(s')) && View(s') == GateRun(View(s), PollItems(s, script))
  {
    hide GateRun, FitsItem, Advances, View, PollItems, PollRun, Fits;
    FlatPollRun(s, script);
    PollItemsFit(s, script, |script|);
    ViewNext(s);
    FitsLess(PollItems(s, script), |script|);
    GateInOrder(View(s), PollItems(s, script), 0);
  }

  // ---- every number is accounted for

  /** From `g` to `g'` every number from the one expected on was accepted, one after the other. */
  ghost predicate Consecutive(g: Gate, g': Gate) {
    && g.next <= g'.next && |g'.accepted| == |g.accepted| + (g'.next - g.next) && g.accepted <= g'.accepted
    && forall i :: |g.accepted| <= i < |g'.accepted| ==> g'.accepted[i] == g.next + (i - |g.accepted|)
  }

  /** The numbers taken by items that were handed on unjudged. */
  function PassedAt(g: Gate, items: seq<Item>): seq<nat> {
    if items == [] then []
    else
      var front, last := items[..|items| - 1], items[|items| - 1];
      PassedAt(g, front) + if last.Passed? then [GateRun(g, front).next] else []
  }

  /** Each number from the first expected to the last is accepted once or passed once, never both. */
  ghost predicate Accounted(g: Gate, g': Gate, passed: seq<nat>) {
    && g.accepted <= g'.accepted && g.next <= g'.next
    && var new' := g'.accepted[|g.accepted|..];
       && RisingWithin(new', g.next, g'.next) && RisingWithin(passed, g.next, g'.next)
       && |new'| + |passed| == g'.next - g.next
       && forall v :: g.next <= v < g'.next ==> (v in new' <==> v !in passed)
  }

  predicate NoResetItem(item: Item) {
    item.Judged? ==> item.msg.typ != SequenceReset
  }

  lemma RisingSnoc(xs: seq<nat>, lo: nat, hi: nat)
    requires RisingWithin(xs, lo, hi) && lo <= hi
    ensures RisingWithin(xs, lo, hi + 1) && RisingWithin(xs + [hi], lo, hi + 1)
    ensures hi !in xs && forall v :: v in xs + [hi] <==> v in xs || v == hi
  {
  }

  lemma AccountedAccept(g: Gate, mid: Gate, g': Gate, passed: seq<nat>)
    requires Accounted(g, mid, passed) && g'.next == mid.next + 1 && g'.accepted == mid.accepted + [mid.next]
    ensures Accounted(g, g', passed)
  {
    hide RisingWithin;
    var new' := mid.accepted[|g.accepted|..];
    assert g'.accepted[|g.accepted|..] == new' + [mid.next];
    RisingSnoc(new', g.next, mid.next);
    RisingSnoc(passed, g.next, mid.next);
  }

  lemma AccountedPass(g: Gate, mid: Gate, g': Gate, passed: seq<nat>)
    requires Accounted(g, mid, passed) && g'.next == mid.next + 1 && g'.accepted == mid.accepted
    ensures Accounted(g, g', passed + [mid.next])
  {
    hide RisingWithin;
    RisingSnoc(mid.accepted[|g.accepted|..], g.next, mid.next);
    RisingSnoc(passed, g.next, mid.next);
  }

  /** Without SequenceReset an item is accepted, passed, or changes neither number nor list. */
  lemma StepKinds(g: Gate, item: Item)
    requires NoResetItem(item) && g.next + 1 < TWO_64
    ensures var g' := GateStep(g, item);
      if item.Passed? then g'.next == g.next + 1 && g'.accepted == g.accepted
      else
        || (g'.next == g.next + 1 && g'.accepted == g.accepted + [g.next])
        || (g'.next == g.next && g'.accepted == g.accepted)
  {
  }

  lemma AccountedSnoc(g: Gate, mid: Gate, passed: seq<nat>, item: Item)
    requires Accounted(g, mid, passed) && NoResetItem(item) && mid.next + 1 < TWO_64
    ensures var g', at := GateStep(mid, item), if item.Passed? then [mid.next] else [];
      Accounted(g, g', passed + at) && g'.next <= mid.next + 1
  {
    hide GateStep, RisingWithin, NoResetItem;
    var g' := GateStep(mid, item);
    StepKinds(mid, item);
    assert passed + [] == passed;
    if item.Passed? {
      AccountedPass(g, mid, g', passed);
    } else if g'.next > mid.next {
      AccountedAccept(g, mid, g', passed);
    }
  }

  lemma {:induction false} GateAccounts(g: Gate, items: seq<Item>)
    requires g.next + |items| < TWO_64 && forall i :: 0 <= i < |items| ==> NoResetItem(items[i])
    ensures Accounted(g, GateRun(g, items), PassedAt(g, items)) && GateRun(g, items).next <= g.next + |items|
    decreases |items|
  {
    hide Accounted, GateStep, NoResetItem;
    if items == [] {
      AccountedNone(g);
    } else {
      var front, last := items[..|items| - 1], items[|items| - 1];
      assert forall i :: 0 <= i < |front| ==> front[i] == items[i];
      GateAccounts(g, front);
      AccountedSnoc(g, GateRun(g, front), PassedAt(g, front), last);
      assert !last.Passed? ==> PassedAt(g, front) + [] == PassedAt(g, front);
    }
  }

  lemma AccountedNone(g: Gate)
    ensures Accounted(g, g, [])
  {
  }

  /** No SequenceReset arrives. */
  ghost predicate NoReset(script: seq<Event>) {
    forall i :: 0 <= i < |script| && script[i].Arrives? ==> script[i].msg.typ != SequenceReset
  }

  lemma NoResetSuffix(script: seq<Event>, rest: seq<Event>)
    requires NoReset(script) && SuffixOf(rest, script)
    ensures NoReset(rest) && NoReset(Consumed(script, rest))
  {
    assert forall i :: 0 <= i < |rest| ==> rest[i] == script[|script| - |rest| + i];
  }

  lemma NoResetCons(script: seq<Event>)
    requires script != [] && NoReset(script)
    ensures NoReset(script[1..]) && (script[0].Arrives? ==> script[0].msg.typ != SequenceReset)
  {
    NoResetSuffix(script, script[1..]);
  }

  lemma MessageItemsNoReset(s: Session, m: Message, script: seq<Event>)
    requires s.inSeq < TWO_64 && m.typ != SequenceReset && NoReset(script)
    ensures var items, p := MessageItems(s, m, script), PollMessage(s, m, script);
      && |items| + |p.script| <= |script| + 1
      && NoReset(p.script) && forall i :: 0 <= i < |items| ==> NoResetItem(items[i])
  {
    hide Admin, SuffixOf, Flat, NoReset;
    FlatPoll(s, m, script);
    var p := PollMessage(s, m, script);
    NoResetSuffix(script, p.script);
    SuffixLength(script, p.script);
    NoResetItems(Consumed(script, p.script));
  }

  lemma NoResetItems(evs: seq<Event>)
    requires NoReset(evs)
    ensures |Items(evs)| <= |evs| && forall i :: 0 <= i < |Items(evs)| ==> NoResetItem(Items(evs)[i])
  {
    ItemsAreEvents(evs);
  }

  lemma {:induction false} PollItemsNoReset(s: Session, script: seq<Event>)
    requires s.inSeq < TWO_64 && NoReset(script)
    ensures var items := PollItems(s, script);
      |items| <= |script| && forall i :: 0 <= i < |items| ==> NoResetItem(items[i])
    decreases |script|
  {
    hide PollMessage, MessageItems, NoReset, Flat, SuffixOf, NoResetItem;
    if script != [] && s.active {
      NoResetCons(script);
      if !script[0].Arrives? {
        PollItemsNoReset(s, script[1..]);
      } else {
        var m, rest := script[0].msg, script[1..];
        FlatPoll(s, m, rest);
        MessageItemsNoReset(s, m, rest);
        var p := PollMessage(s, m, rest);
        PollItemsNoReset(p.s, p.script);
      }
    }
  }

  /**
   In every run of the poll loop without SequenceReset, application messages and logout drains included, each
   number from the first expected to the last is either accepted once or taken by exactly one message that was
   handed on unjudged; when none was, the accepted numbers are consecutive.
   */
  lemma PollConsecutive(s: Session, script: seq<Event>)
    requires s.inSeq < TWO_64 && Next(s) + |script| < TWO_64 && NoReset(script)
    ensures var items, g' := PollItems(s, script), View(PollRun(s, script).s);
      && Accounted(View(s), g', PassedAt(View(s), items))
      && ((forall i :: 0 <= i < |items| ==> items[i].Judged?) ==> Consecutive(View(s), g'))
  {
    hide GateRun, View, PollItems, PollRun, NoReset, Accounted, PassedAt;
    var items := PollItems(s, script);
    FlatPollRun(s, script);
    PollItemsNoReset(s, script);
    ViewNext(s);
    GateAccounts(View(s), items);
    if forall i :: 0 <= i < |items| ==> items[i].Judged? {
      assert forall i :: 0 <= i < |items| ==> NoResetItem(items[i]);
      GateConsecutive(View(s), items);
    }
  }

  /** A SequenceReset with a negative NewSeqNo takes the counter to its end, and one more message takes it to zero. */
  lemma RolloverExample(g: Gate, reset: Message, plain: Message)
    requires g.next + 2 < TWO_64
    requires reset.typ == SequenceReset && !IsGapFill(reset) && NewSeq(reset) == Some(U64(-1))
    requires plain.typ == Heartbeat && plain.seqNum == -1
    ensures GateRun(g, [Judged(reset), Judged(plain)]).next == 0
  {
    var a, b := [Judged(reset)], [Judged(reset), Judged(plain)];
    assert b[..1] == a && a[..0] == [];
    assert GateRun(g, a) == GateStep(GateRun(g, []), Judged(reset));
    assert GateRun(g, a).next == TWO_64 - 1;
  }
}
