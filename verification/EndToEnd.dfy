/**
 Two engines over a connection that loses nothing: what one session numbers and prints, the other
 reassembles from arbitrary chunks and accepts in full, without ever seeing a gap.
 */
module EndToEnd {
  import opened Bytes
  import opened Atoi
  import opened FixTypes
  import opened FixScan
  import opened FixPrint
  import opened FixRoundTrip
  import opened FixSender
  import FS = FixSessions
  import opened SC = SessionControl
  import opened SessionGate
  import opened SessionNumbers

  /** The messages of a send log, each with the time text it was sent with. */
  function AllOnWire(id: Identity, log: seq<Sent>, stamps: seq<seq<byte>>): (ms: seq<OutMessage>)
    requires |stamps| == |log|
  {
    seq(|log|, i requires 0 <= i < |log| => OnWire(id, log[i], stamps[i]))
  }

  /** Received messages as the gate sees them. */
  function Judgments(ms: seq<Message>): seq<Item> {
    seq(|ms|, i requires 0 <= i < |ms| => Judged(ms[i]))
  }

  predicate NoSequenceReset(log: seq<Sent>) {
    forall i :: 0 <= i < |log| ==> log[i].typ != SequenceReset
  }

  lemma {:induction false} NumbersOfPlain(log: seq<Sent>)
    requires NoSequenceReset(log)
    ensures |Numbers(log)| == |log| && forall i :: 0 <= i < |log| ==> Numbers(log)[i] == log[i].seqNum
  {
    if log != [] {
      NumbersOfPlain(log[..|log| - 1]);
    }
  }

  lemma {:induction false} ReceivedAllAt(ms: seq<OutMessage>)
    ensures |FS.ReceivedAll(ms)| == |ms| && forall i :: 0 <= i < |ms| ==> FS.ReceivedAll(ms)[i] == Received(ms[i])
  {
    hide Received;
    if ms != [] {
      ReceivedAllAt(ms[1..]);
    }
  }

  /** The messages are numbered from `next` on and hold no SequenceReset. */
  predicate InSequence(ms: seq<Message>, next: nat) {
    forall i :: 0 <= i < |ms| ==> ms[i].typ != SequenceReset && ms[i].seqNum == next + i
  }

  lemma ExpectedIsAccepted(g: Gate, m: Message)
    requires m.typ != SequenceReset && m.seqNum == g.next && g.next + 1 < TWO_64
    ensures GateStep(g, Judged(m)) == Gate(g.next + 1, g.accepted + [g.next], g.gaps)
  {
  }

  /** A gate given the numbers it expects accepts each of them and records no gap. */
  lemma {:induction false} GateAcceptsAll(g: Gate, ms: seq<Message>)
    requires g.next + |ms| < TWO_64
    requires InSequence(ms, g.next)
    ensures GateRun(g, Judgments(ms)) == Gate(g.next + |ms|, g.accepted + CountFrom(g.next, |ms|), g.gaps)
  {
    hide GateStep;
    var items := Judgments(ms);
    if ms == [] {
      assert items == [] && g.accepted + CountFrom(g.next, 0) == g.accepted;
    } else {
      var front, last := ms[..|ms| - 1], ms[|ms| - 1];
      GateAcceptsAll(g, front);
      assert items[..|items| - 1] == Judgments(front);
      assert CountFrom(g.next, |ms|) == CountFrom(g.next, |front|) + [g.next + |front|];
      ExpectedIsAccepted(GateRun(g, Judgments(front)), last);
    }
  }

  /** The delivered messages carry the sender's numbers. */
  lemma DeliveredInOrder(s: Session, first: nat, id: Identity, stamps: seq<seq<byte>>,
                         st: FS.RxState, calls: seq<FS.Call>)
    requires Numbered(s, first) && NoSequenceReset(s.sent) && |stamps| == |s.sent|
    requires FS.Carries(st, AllOnWire(id, s.sent, stamps)) && FS.IsRun(st, calls)
    ensures var d := FS.Delivered(calls);
      |d| <= |s.sent| && InSequence(d, first)
  {
    hide FS.Carries, FS.IsRun, GateRun, ReceivedFields, Numbers;
    var ms := AllOnWire(id, s.sent, stamps);
    var k := FS.Reassembly(st, calls, ms);
    ReceivedAllAt(ms[..k]);
    NumbersOfPlain(s.sent);
    var d := FS.Delivered(calls);
    forall i | 0 <= i < k ensures d[i].typ != SequenceReset && d[i].seqNum == first + i {
      assert d[i] == Received(ms[..k][i]) && ms[..k][i] == OnWire(id, s.sent[i], stamps[i]);
      assert s.sent[i].seqNum == Numbers(s.sent)[i] == CountFrom(first, |s.sent|)[i];
    }
  }

  /** What the poll loop sees of a run of receive calls. */
  function Events(calls: seq<FS.Call>): seq<Event> {
    if calls == [] then []
    else
      [if calls[0].ret == 1 && calls[0].msg.Some? then Arrives(calls[0].msg.value) else Nothing] + Events(calls[1..])
  }

  /** The arrivals are numbered from `next` on and hold no SequenceReset. */
  ghost predicate Ordered(evs: seq<Event>, next: nat)
    decreases |evs|
  {
    evs == [] ||
    match evs[0]
    case Arrives(m) => m.typ != SequenceReset && m.seqNum == next && Ordered(evs[1..], next + 1)
    case _ => Ordered(evs[1..], next)
  }

  /** The numbers of the arrivals that are checked, and how many arrivals there are. */
  function CheckedNumbers(evs: seq<Event>): seq<nat> {
    if evs == [] then []
    else
      (if evs[0].Arrives? && IsChecked(evs[0].msg) then [U64(evs[0].msg.seqNum)] else []) + CheckedNumbers(evs[1..])
  }

  function Arrivals(evs: seq<Event>): (n: nat)
    ensures n <= |evs|
  {
    if evs == [] then 0 else (if evs[0].Arrives? then 1 else 0) + Arrivals(evs[1..])
  }

  lemma InSequenceCons(m: Message, rest: seq<Message>, next: nat)
    requires InSequence([m] + rest, next)
    ensures m.typ != SequenceReset && m.seqNum == next && InSequence(rest, next + 1)
  {
    var d := [m] + rest;
    assert d[0] == m;
    assert forall i :: 0 <= i < |rest| ==> rest[i] == d[i + 1];
  }

  lemma {:induction false} EventsOrdered(calls: seq<FS.Call>, next: nat)
    requires InSequence(FS.Delivered(calls), next)
    ensures Ordered(Events(calls), next) && Arrivals(Events(calls)) == |FS.Delivered(calls)|
  {
    hide InSequence;
    if calls != [] {
      var c, rest := calls[0], FS.Delivered(calls[1..]);
      assert Events(calls)[1..] == Events(calls[1..]);
      if c.ret == 1 && c.msg.Some? {
        InSequenceCons(c.msg.value, rest, next);
        EventsOrdered(calls[1..], next + 1);
      } else {
        assert [] + rest == rest;
        EventsOrdered(calls[1..], next);
      }
    }
  }

  lemma OneItem(g: Gate, item: Item)
    ensures GateRun(g, [item]) == GateStep(g, item)
  {
    hide GateStep;
    assert [item][..0] == [] && GateRun(g, []) == g;
  }

  lemma NumberExpected(s: Session, m: Message)
    requires s.inSeq < TWO_64 && m.seqNum == Next(s)
    ensures Expected(Counted(s), m) && U64(m.seqNum) == Next(s)
  {
    CountUncount(s);
  }

  lemma HandledAtOnce(s: Session, m: Message, rest: seq<Event>)
    requires Expected(s, m) && m.typ != SequenceReset
    ensures Admin(s, m, rest).script == rest && Admin(s, m, rest).s.active == s.active
  {
    hide EchoedId, GetField, TextOf, Expected;
  }

  lemma ItemsAtOnce(s: Session, m: Message, rest: seq<Event>)
    requires s.inSeq < TWO_64 && m.typ != SequenceReset && m.seqNum == Next(s)
    ensures var p := PollMessage(s, m, rest);
      && p.script == rest && p.s.active == s.active
      && MessageItems(s, m, rest) == [if IsChecked(m) then Judged(m) else Passed]
  {
    hide Admin, Expected;
    NumberExpected(s, m);
    HandledAtOnce(Counted(s), m, rest);
    assert Consumed(rest, rest) == [];
  }

  /** A message with the number expected next is taken without reading any further. */
  lemma PollExpected(s: Session, m: Message, rest: seq<Event>)
    requires s.inSeq < TWO_64 && m.typ != SequenceReset && m.seqNum == Next(s) && Next(s) + 1 < TWO_64
    ensures var p, v := PollMessage(s, m, rest), View(s);
      && p.script == rest && p.s.inSeq < TWO_64 && p.s.active == s.active
      && View(p.s) == Gate(v.next + 1, v.accepted + if IsChecked(m) then [U64(m.seqNum)] else [], v.gaps)
  {
    hide View, GateRun, PollMessage, MessageItems, IsChecked;
    FlatPoll(s, m, rest);
    ItemsAtOnce(s, m, rest);
    ViewNext(s);
    NumberExpected(s, m);
    OneItem(View(s), if IsChecked(m) then Judged(m) else Passed);
    assert View(s).accepted + [] == View(s).accepted;
  }

  lemma {:induction false} PollTakesAll(s: Session, evs: seq<Event>)
    requires s.inSeq < TWO_64 && s.active && Next(s) + |evs| < TWO_64 && Ordered(evs, Next(s))
    ensures var s' := PollRun(s, evs).s;
      View(s') == Gate(Next(s) + Arrivals(evs), s.accepted + CheckedNumbers(evs), ResendBegins(s.sent))
    decreases |evs|
  {
    hide PollMessage, ResendBegins, IsChecked;
    if evs == [] {
      assert s.accepted + [] == s.accepted;
    } else if evs[0].Arrives? {
      var m := evs[0].msg;
      PollExpected(s, m, evs[1..]);
      var p := PollMessage(s, m, evs[1..]);
      PollTakesAll(p.s, evs[1..]);
      var one := if IsChecked(m) then [U64(m.seqNum)] else [];
      assert s.accepted + one + CheckedNumbers(evs[1..]) == s.accepted + (one + CheckedNumbers(evs[1..]));
    } else {
      PollTakesAll(s, evs[1..]);
      assert [] + CheckedNumbers(evs[1..]) == CheckedNumbers(evs[1..]);
    }
  }

  /**
   For every run of the receiver on every chunking of what the sender put on the wire: polling through it takes
   every message under consecutive numbers, accepts exactly the checked ones, hands on the others, and asks
   for no resend.
   */
  lemma LosslessRunHasNoGap(s: Session, first: nat, id: Identity, stamps: seq<seq<byte>>,
                            st: FS.RxState, calls: seq<FS.Call>, peer: Session)
    requires Numbered(s, first) && NoSequenceReset(s.sent) && |stamps| == |s.sent|
    requires FS.Carries(st, AllOnWire(id, s.sent, stamps)) && FS.IsRun(st, calls)
    requires peer.active && peer.inSeq < TWO_64 && Next(peer) == first && first + |calls| < TWO_64
    ensures var evs := Events(calls);
      View(PollRun(peer, evs).s) ==
        Gate(first + |FS.Delivered(calls)|, peer.accepted + CheckedNumbers(evs), ResendBegins(peer.sent))
  {
    hide FS.Carries, FS.IsRun, GateRun, Numbers, Numbered, AllOnWire, PollRun, FS.Delivered, InSequence;
    DeliveredInOrder(s, first, id, stamps, st, calls);
    EventsOrdered(calls, first);
    EventCount(calls);
    PollTakesAll(peer, Events(calls));
  }

  lemma EventCount(calls: seq<FS.Call>)
    ensures |Events(calls)| == |calls|
  {
  }
}
