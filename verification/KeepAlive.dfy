/**
 Liveness of the peer: the keepalive schedule of include/FIXSession.h and `fix_session_keepalive`.
 Times are clock readings in nanoseconds; the code compares whole seconds. A comparison such as
 `diff > 1.25 * heartbtint` on whole numbers is written 4 * diff > 5 * heartbtint.
 */
module KeepAlive {
  const NS: nat := 1_000_000_000

  function Sec(t: nat): nat {
    t / NS
  }

  datatype Clocks = Clocks(
    heartbtint: nat,
    last: nat,
    now: nat,
    rx: nat,
    tx: nat,
    tr: nat,
    trPending: bool,
    active: bool)

  /** What a poll receives: nothing, or a message that may answer the pending test request and may be replied to. */
  datatype Got = Silence | Message(answers: bool, replies: bool)

  /** `fix_session_keepalive`: false when a pending test request has gone unanswered for too long. */
  function Checked(s: Clocks, t: nat): (Clocks, bool) {
    var hb := s.heartbtint;
    if !s.trPending then
      var s1 :=
        if 4 * (Sec(t) - Sec(s.rx)) > 5 * hb then s.(tr := s.now, trPending := true, tx := s.now) else s;
      (Beaten(s1, t), true)
    else if 2 * (Sec(t) - Sec(s.tr)) > hb then (s, false)
    else (Beaten(s, t), true)
  }

  function Beaten(s: Clocks, t: nat): Clocks {
    if Sec(t) - Sec(s.tx) > s.heartbtint then s.(tx := s.now) else s
  }

  /** Receiving stamps the session's clock, and so does a reply. */
  function Heard(s: Clocks, got: Got): Clocks {
    match got
    case Silence => s
    case Message(answers, replies) =>
      s.(rx := s.now, trPending := s.trPending && !answers, tx := if replies then s.now else s.tx)
  }

  /** The clock readings of one poll, before and after the time update, and what it receives. */
  datatype Tick = Tick(t: nat, t2: nat, got: Got)

  /** The keepalive is due at `t`. */
  predicate Due(s: Clocks, t: nat) {
    10 * (Sec(t) - Sec(s.last)) > s.heartbtint
  }

  /** One poll. False when it throws. */
  function Polled(s: Clocks, k: Tick): (Clocks, bool) {
    if !s.active then (s, false)
    else if Due(s, k.t) then
      var r := Checked(s.(last := k.t), k.t);
      if r.1 then (Heard(r.0.(now := k.t2), k.got), true) else (r.0.(active := false), false)
    else (Heard(s.(now := k.t2), k.got), true)
  }

  /** A session created at one time and logged on at another, which is when the keepalive clock is set. */
  function Start(heartbtint: nat, created: nat, ready: nat): Clocks {
    Clocks(heartbtint, ready, created, created, created, 0, false, true)
  }

  class PolledSession {
    var heartbtint: nat
    var last: nat
    var now: nat
    var rxTimestamp: nat
    var txTimestamp: nat
    var trTimestamp: nat
    var trPending: bool
    var active: bool

    ghost function State(): Clocks
      reads this
    {
      Clocks(heartbtint, last, now, rxTimestamp, txTimestamp, trTimestamp, trPending, active)
    }

    constructor (heartbtint: nat, created: nat, ready: nat)
      ensures State() == Start(heartbtint, created, ready)
    {
      this.heartbtint := heartbtint;
      last, now, rxTimestamp, txTimestamp := ready, created, created, created;
      trTimestamp, trPending, active := 0, false, true;
    }

    method Heartbeat()
      modifies this`txTimestamp
      ensures txTimestamp == now
    {
      txTimestamp := now;
    }

    /** Stamped with the session's clock, which was set by the previous poll. */
    method TestRequest()
      modifies this`trTimestamp, this`trPending, this`txTimestamp
      ensures trTimestamp == now && trPending && txTimestamp == now
    {
      trTimestamp := now;
      trPending := true;
      txTimestamp := now;
    }

    method Keepalive(t: nat) returns (alive: bool)
      modifies this
      ensures (State(), alive) == Checked(old(State()), t)
    {
      if !trPending {
        var diff := Sec(t) - Sec(rxTimestamp);
        if 4 * diff > 5 * heartbtint {
          TestRequest();
        }
      } else {
        var diff := Sec(t) - Sec(trTimestamp);
        if 2 * diff > heartbtint {
          return false;
        }
      }
      var diff := Sec(t) - Sec(txTimestamp);
      if diff > heartbtint {
        Heartbeat();
      }
      alive := true;
    }

    /** The receive and the handler, as far as they touch the clocks. */
    method Receive(got: Got)
      modifies this`rxTimestamp, this`trPending, this`txTimestamp
      ensures State() == Heard(old(State()), got)
    {
      match got {
        case Silence =>
        case Message(answers, replies) =>
          rxTimestamp := now;
          if answers {
            trPending := false;
          }
          if replies {
            Heartbeat();
          }
      }
    }

    method Poll(k: Tick) returns (ok: bool)
      modifies this
      ensures (State(), ok) == Polled(old(State()), k)
    {
      if !active {
        return false;
      }
      if 10 * (Sec(k.t) - Sec(last)) > heartbtint {
        last := k.t;
        var alive := Keepalive(k.t);
        if !alive {
          active := false;
          return false;
        }
      }
      now := k.t2;
      Receive(k.got);
      ok := true;
    }
  }

  // ---- runs of polls

  /** Readings in order, polls at most `d` apart, the first at most `d` after `p`. */
  ghost predicate Paced(p: nat, now: nat, ticks: seq<Tick>, d: nat)
    decreases ticks
  {
    ticks == [] || (
      && p <= ticks[0].t && now <= ticks[0].t <= ticks[0].t2 && ticks[0].t <= p + d
      && Paced(ticks[0].t, ticks[0].t2, ticks[1..], d))
  }

  function Run(s: Clocks, ticks: seq<Tick>): (Clocks, bool)
    decreases ticks
  {
    if ticks == [] then (s, true)
    else
      var r := Polled(s, ticks[0]);
      if r.1 then Run(r.0, ticks[1..]) else r
  }

  /** The session as poll `k` finds it. */
  function Before(s: Clocks, ticks: seq<Tick>, k: nat): Clocks
    requires k <= |ticks|
  {
    Run(s, ticks[..k]).0
  }

  /**
   When exactly a poll declares the session dead: the keepalive is due and a request is pending that was
   stamped more than half an interval ago. When the last message came does not matter.
   */
  lemma DeathExactly(s: Clocks, k: Tick)
    requires s.active
    ensures !Polled(s, k).1 <==> Due(s, k.t) && s.trPending && 2 * (Sec(k.t) - Sec(s.tr)) > s.heartbtint
    ensures Polled(s, k).0.active <==> Polled(s, k).1
  {
  }

  /** The latest time at which a test request can be stamped: 1.35 intervals and a second after `r`, plus `d`. */
  function StampLimit(hb: nat, r: nat, d: nat): nat {
    r + 27 * hb * (NS / 20) + NS + d
  }

  /** What every run that is still alive keeps; `p` is the time of its last poll. */
  ghost predicate Quiet(s: Clocks, p: nat, d: nat) {
    var hb := s.heartbtint;
    && s.active && p <= s.now && s.rx <= s.now
    && 10 * (Sec(p) - Sec(s.last)) <= hb
    && if s.trPending then
         s.tr <= StampLimit(hb, s.rx, d) && 2 * (Sec(s.last) - Sec(StampLimit(hb, s.rx, d))) <= hb
       else
         4 * (Sec(s.last) - Sec(s.rx)) <= 5 * hb
  }

  /** A new session whose logon took at most 1.25 intervals. */
  lemma QuietAtStart(hb: nat, created: nat, ready: nat, d: nat)
    requires created <= ready && 4 * (Sec(ready) - Sec(created)) <= 5 * hb
    ensures Quiet(Start(hb, created, ready), created, d)
  {
    SecMonotone(created, ready);
  }

  lemma SecMonotone(a: nat, b: nat)
    requires a <= b
    ensures Sec(a) <= Sec(b)
  {
  }

  lemma SecBounds(t: nat)
    ensures Sec(t) * NS <= t < Sec(t) * NS + NS
  {
  }

  /** With no request pending the last poll was at most 1.35 intervals, in seconds, after the last message. */
  lemma UnpendingBound(s: Clocks, p: nat, d: nat)
    requires Quiet(s, p, d) && !s.trPending
    ensures p + d <= StampLimit(s.heartbtint, s.rx, d)
  {
    SecBounds(p);
    SecBounds(s.rx);
    assert 20 * (Sec(p) - Sec(s.rx)) <= 27 * s.heartbtint;
    assert 20 * (Sec(p) * NS - Sec(s.rx) * NS) <= 27 * s.heartbtint * NS;
  }

  /** The keepalive of a poll. */
  lemma QuietChecked(s: Clocks, p: nat, d: nat, k: Tick)
    requires Quiet(s, p, d) && p <= k.t && s.now <= k.t <= k.t2 && k.t <= p + d
    requires Polled(s, k.(got := Silence)).1
    ensures Quiet(Polled(s, k.(got := Silence)).0, k.t, d)
  {
    if !s.trPending {
      UnpendingBound(s, p, d);
      SecMonotone(k.t, StampLimit(s.heartbtint, s.rx, d));
    } else if Due(s, k.t) {
      SecMonotone(s.tr, StampLimit(s.heartbtint, s.rx, d));
    }
  }

  /** A received message only moves the limits up. */
  lemma QuietHeard(s: Clocks, p: nat, d: nat, got: Got)
    requires Quiet(s, p, d) && (got.Silence? || Sec(s.last) <= Sec(s.now))
    ensures Quiet(Heard(s, got), p, d) && Heard(s, got).now == s.now && Heard(s, got).heartbtint == s.heartbtint
  {
    SecMonotone(StampLimit(s.heartbtint, s.rx, d), StampLimit(s.heartbtint, s.now, d));
  }

  lemma PolledParts(s: Clocks, k: Tick)
    ensures var q, r := Polled(s, k.(got := Silence)), Polled(s, k);
      && r.1 == q.1 && (r.1 ==> r.0 == Heard(q.0, k.got) && q.0.now == k.t2)
      && q.0.heartbtint == s.heartbtint && q.0.last == if s.active && Due(s, k.t) then k.t else s.last
  {
  }

  /** The keepalive clock was set no later than the poll. */
  ghost predicate LogonDone(s: Clocks, ticks: seq<Tick>) {
    ticks == [] || s.last <= ticks[0].t
  }

  lemma QuietKept(s: Clocks, p: nat, d: nat, k: Tick)
    requires Quiet(s, p, d) && p <= k.t && s.now <= k.t <= k.t2 && k.t <= p + d && s.last <= k.t
    requires Polled(s, k).1
    ensures var s' := Polled(s, k).0;
      Quiet(s', k.t, d) && s'.now == k.t2 && s'.heartbtint == s.heartbtint && s'.last <= k.t
  {
    hide Quiet, Polled, Heard;
    var q := Polled(s, k.(got := Silence)).0;
    PolledParts(s, k);
    QuietChecked(s, p, d, k);
    SecMonotone(q.last, q.now);
    QuietHeard(q, k.t, d, k.got);
    HeardKeeps(q, k.got);
  }

  lemma HeardKeeps(s: Clocks, got: Got)
    ensures Heard(s, got).last == s.last
  {
  }

  /** A bound in whole seconds, as a bound in nanoseconds. */
  lemma FromSeconds(a: nat, b: nat, hb: nat)
    requires 10 * (Sec(a) - Sec(b)) <= 6 * hb
    ensures 10 * (a - b) <= (6 * hb + 10) * NS
  {
    SecBounds(a);
    SecBounds(b);
    assert 10 * (Sec(a) * NS - Sec(b) * NS) <= 6 * hb * NS;
  }

  /** A living session whose last poll was at `p`: how long after the last message that can be. */
  lemma QuietBound(s: Clocks, p: nat, d: nat)
    requires Quiet(s, p, d)
    ensures 20 * (p - s.rx) <= (39 * s.heartbtint + 40) * NS + 20 * d
  {
    var hb, x := s.heartbtint, StampLimit(s.heartbtint, s.rx, d);
    assert 20 * x == 20 * s.rx + 27 * hb * NS + 20 * NS + 20 * d;
    if s.trPending {
      FromSeconds(p, x, hb);
    } else {
      UnpendingBound(s, p, d);
    }
  }

  /**
   Dead-peer bound, over runs that mix silent and receiving polls at most `d` apart: every poll, including the
   one that declares the session dead, comes within 1.75 heartbeat intervals plus two keepalive periods
   (0.1 interval plus `d` each) plus two seconds of the last message received before it.
   */
  lemma {:induction false} DeadPeerBound(s: Clocks, p: nat, d: nat, ticks: seq<Tick>)
    requires Quiet(s, p, d) && Paced(p, s.now, ticks, d) && LogonDone(s, ticks)
    requires forall k :: 0 <= k < |ticks| ==> Run(s, ticks[..k]).1
    ensures forall k :: 0 <= k < |ticks| ==>
      20 * (ticks[k].t - Before(s, ticks, k).rx) <= (39 * s.heartbtint + 40) * NS + 40 * d
    decreases ticks
  {
    hide Quiet, Polled;
    if ticks != [] {
      QuietBound(s, p, d);
      assert ticks[..0] == [];
      if |ticks| > 1 {
        var q, rest := Polled(s, ticks[0]), ticks[1..];
        RunCons(s, ticks, 0);
        assert Run(s, ticks[..1]).1;
        QuietKept(s, p, d, ticks[0]);
        forall k | 0 <= k < |rest| ensures Run(q.0, rest[..k]).1 && Before(q.0, rest, k) == Before(s, ticks, k + 1) {
          RunCons(s, ticks, k);
          assert Run(s, ticks[..k + 1]).1;
        }
        DeadPeerBound(q.0, ticks[0].t, d, rest);
        forall k | 1 <= k < |ticks|
          ensures 20 * (ticks[k].t - Before(s, ticks, k).rx) <= (39 * s.heartbtint + 40) * NS + 40 * d
        {
          assert ticks[k] == rest[k - 1] && Before(q.0, rest, k - 1) == Before(s, ticks, k);
        }
      }
    }
  }

  /** The bound for a session polled from its logon on. */
  lemma DeadPeerBoundFromStart(hb: nat, created: nat, ready: nat, d: nat, ticks: seq<Tick>)
    requires created <= ready && 4 * (Sec(ready) - Sec(created)) <= 5 * hb
    requires var s := Start(hb, created, ready);
      && Paced(created, created, ticks, d) && LogonDone(s, ticks)
      && forall k :: 0 <= k < |ticks| ==> Run(s, ticks[..k]).1
    ensures forall k :: 0 <= k < |ticks| ==>
      20 * (ticks[k].t - Before(Start(hb, created, ready), ticks, k).rx) <= (39 * hb + 40) * NS + 40 * d
  {
    hide Quiet, Run, Before;
    QuietAtStart(hb, created, ready, d);
    DeadPeerBound(Start(hb, created, ready), created, d, ticks);
  }

  /** A run that is alive at its end was alive at every poll. */
  lemma {:induction false} RunPrefix(s: Clocks, ticks: seq<Tick>, k: nat)
    requires k <= |ticks| && Run(s, ticks).1
    ensures Run(s, ticks[..k]).1
    decreases ticks
  {
    hide Polled;
    if k > 0 {
      RunPrefix(Polled(s, ticks[0]).0, ticks[1..], k - 1);
      RunCons(s, ticks, k - 1);
    }
  }

  /** A session whose last poll comes later than the bound after the last message has been declared dead. */
  lemma DeclaredDead(s: Clocks, p: nat, d: nat, ticks: seq<Tick>)
    requires Quiet(s, p, d) && Paced(p, s.now, ticks, d) && LogonDone(s, ticks) && ticks != []
    requires var k := |ticks| - 1;
      20 * (ticks[k].t - Before(s, ticks, k).rx) > (39 * s.heartbtint + 40) * NS + 40 * d
    ensures !Run(s, ticks).1
  {
    hide Quiet, Run, Before;
    if Run(s, ticks).1 {
      forall k | 0 <= k < |ticks| ensures Run(s, ticks[..k]).1 {
        RunPrefix(s, ticks, k);
      }
      DeadPeerBound(s, p, d, ticks);
    }
  }

  lemma RunCons(s: Clocks, ticks: seq<Tick>, k: nat)
    requires k < |ticks|
    ensures Run(s, ticks[..k + 1]) ==
      if Polled(s, ticks[0]).1 then Run(Polled(s, ticks[0]).0, ticks[1..][..k]) else Polled(s, ticks[0])
  {
    hide Polled;
    assert ticks[..k + 1][1..] == ticks[1..][..k] && ticks[..k + 1][0] == ticks[0];
  }

  lemma {:induction false} RunSnoc(s: Clocks, ticks: seq<Tick>, k: nat)
    requires k < |ticks| && Run(s, ticks[..k]).1
    ensures Run(s, ticks[..k + 1]) == Polled(Before(s, ticks, k), ticks[k])
    decreases k
  {
    hide Polled;
    RunCons(s, ticks, k);
    if k == 0 {
      assert ticks[..0] == [] && ticks[1..][..0] == [];
      assert Run(Polled(s, ticks[0]).0, []) == (Polled(s, ticks[0]).0, true);
    } else {
      RunCons(s, ticks, k - 1);
      RunSnoc(Polled(s, ticks[0]).0, ticks[1..], k - 1);
    }
  }

  lemma EmptyRun(s: Clocks)
    ensures Run(s, []) == (s, true)
  {
  }

  /** When the last message before poll `k` was received: the reading its poll updates the session's clock with. */
  function LastReceived(s: Clocks, ticks: seq<Tick>, k: nat): nat
    requires k <= |ticks|
  {
    if k == 0 then s.rx else if !ticks[k - 1].got.Silence? then ticks[k - 1].t2 else LastReceived(s, ticks, k - 1)
  }

  /** That is what the receive clock, and so the bound on a dead peer, counts from. */
  lemma {:induction false} ReceiveClock(s: Clocks, ticks: seq<Tick>, k: nat)
    requires k <= |ticks| && Run(s, ticks[..k]).1
    ensures Before(s, ticks, k).rx == LastReceived(s, ticks, k)
    decreases k
  {
    hide Run;
    if k == 0 {
      assert ticks[..0] == [] && Run(s, []) == (s, true) by { EmptyRun(s); }
    } else {
      assert ticks[..k][..k - 1] == ticks[..k - 1];
      RunPrefix(s, ticks[..k], k - 1);
      RunSnoc(s, ticks, k - 1);
      ReceiveClock(s, ticks, k - 1);
    }
  }

  // ---- how early a session can be declared dead

  /** Poll `k` is the one that declares the session dead. */
  predicate DiesAt(s: Clocks, ticks: seq<Tick>, k: nat)
    requires k < |ticks|
  {
    Run(s, ticks[..k]).1 && !Run(s, ticks[..k + 1]).1
  }

  predicate Silent(ticks: seq<Tick>) {
    forall i :: 0 <= i < |ticks| ==> ticks[i].got == Silence
  }

  /** A pending request means that the silence had lasted 1.25 intervals when it was made. */
  ghost predicate Patient(s: Clocks, r: nat) {
    s.rx == r && (s.trPending ==> 4 * (Sec(s.last) - Sec(r)) > 5 * s.heartbtint)
  }

  lemma {:induction false} PatientRun(s: Clocks, r: nat, ticks: seq<Tick>, d: nat, p: nat) returns (k: nat)
    requires s.active && Patient(s, r) && Paced(p, s.now, ticks, d) && LogonDone(s, ticks) && Silent(ticks)
    requires !Run(s, ticks).1
    ensures k < |ticks| && DiesAt(s, ticks, k) && 4 * (Sec(ticks[k].t) - Sec(r)) > 5 * s.heartbtint
    decreases ticks
  {
    var q, rest := Polled(s, ticks[0]), ticks[1..];
    SecMonotone(s.last, ticks[0].t);
    assert ticks[0].got == Silence;
    RunCons(s, ticks, 0);
    assert ticks[..0] == [];
    if q.1 {
      assert forall i :: 0 <= i < |rest| ==> rest[i] == ticks[i + 1];
      k := PatientRun(q.0, r, rest, d, ticks[0].t);
      RunCons(s, ticks, k);
      RunCons(s, ticks, k + 1);
      k := k + 1;
    } else {
      k := 0;
    }
  }

  /** In a silent run that starts with no request pending, death takes more than 1.25 intervals of silence. */
  lemma NotDeadEarly(s: Clocks, ticks: seq<Tick>, d: nat, p: nat) returns (k: nat)
    requires s.active && !s.trPending && Paced(p, s.now, ticks, d) && LogonDone(s, ticks) && Silent(ticks)
    requires !Run(s, ticks).1
    ensures k < |ticks| && DiesAt(s, ticks, k) && 4 * (Sec(ticks[k].t) - Sec(s.rx)) > 5 * s.heartbtint
  {
    k := PatientRun(s, s.rx, ticks, d, p);
  }

  function At(seconds: nat): nat {
    seconds * NS
  }

  /**
   In other runs it does not. With an interval of 30 seconds and polls a few seconds apart: a request stamped
   at 180 is pending, an ordinary message arrives at 195, and at 196 the session is declared dead.
   */
  lemma EarlyDeath()
    ensures var s := Clocks(30, At(192), At(192), At(142), At(180), At(180), true, true);
      var ticks := [Tick(At(195), At(195), Message(false, false)), Tick(At(196), At(196), Silence)];
      && Quiet(s, At(192), At(3)) && Paced(At(192), At(192), ticks, At(3))
      && DiesAt(s, ticks, 1) && Before(s, ticks, 1).rx == At(195)
  {
    var s := Clocks(30, At(192), At(192), At(142), At(180), At(180), true, true);
    var x, y := Tick(At(195), At(195), Message(false, false)), Tick(At(196), At(196), Silence);
    var ticks := [x, y];
    assert ticks[1..] == [y] && ticks[1..][1..] == [] && ticks[1..][..1] == [y] && ticks[1..][..0] == [];
    RunCons(s, ticks, 0);
    RunCons(s, ticks, 1);
    var s1 := Polled(s, x).0;
    assert Polled(s, x).1 && s1 == s.(now := At(195), rx := At(195));
    assert !Polled(s1, y).1;
    assert Run(s1, []) == (s1, true) && Run(s1, [y]) == Polled(s1, y);
  }

  /** The same from a new session on, polled twice before. */
  lemma EarlyDeathFromStart()
    ensures var s := Start(30, At(100), At(100));
      var ticks := [Tick(At(139), At(139), Silence), Tick(At(142), At(142), Message(false, false)),
                    Tick(At(143), At(143), Silence)];
      DiesAt(s, ticks, 2) && Before(s, ticks, 2).rx == At(142)
  {
    var s := Start(30, At(100), At(100));
    var x, y := Tick(At(139), At(139), Silence), Tick(At(142), At(142), Message(false, false));
    var z := Tick(At(143), At(143), Silence);
    var ticks := [x, y, z];
    assert ticks[1..] == [y, z] && [y, z][..2] == [y, z] && [y, z][..1] == [y];
    RunCons(s, ticks, 1);
    RunCons(s, ticks, 2);
    var s1 := Polled(s, x).0;
    assert Polled(s, x).1 && s1.tr == At(100) && s1.trPending && s1.last == At(139) && s1.active;
    var s2 := Polled(s1, y).0;
    assert Polled(s1, y).1 && s2 == s1.(now := At(142), rx := At(142));
    assert [y][1..] == [] && [y, z][1..] == [z] && [z][1..] == [];
    assert Run(s2, []) == (s2, true) && Run(s1, [y]) == (s2, true);
    assert !Polled(s2, z).1 && Run(s2, [z]) == Polled(s2, z) && Run(s1, [y, z]) == Polled(s2, z);
  }

  /** Poll `j` has sent a test request that no message received up to poll `k` answers. */
  predicate UnansweredSince(s: Clocks, ticks: seq<Tick>, j: nat, k: nat)
    requires j < k <= |ticks|
  {
    && !Before(s, ticks, j).trPending && Before(s, ticks, j + 1).trPending
    && forall i :: j <= i < k ==> ticks[i].got.Silence? || !ticks[i].got.answers
  }

  /** A pending request was sent by some poll with the clock of the poll before, and has not been answered since. */
  lemma {:induction false} PendingSince(s: Clocks, ticks: seq<Tick>, k: nat) returns (j: nat)
    requires k <= |ticks| && !s.trPending && Run(s, ticks[..k]).1 && Before(s, ticks, k).trPending
    ensures j < k && UnansweredSince(s, ticks, j, k) && Before(s, ticks, k).tr == Before(s, ticks, j).now
    ensures Before(s, ticks, k).heartbtint == s.heartbtint
    decreases k
  {
    hide Run;
    assert ticks[..0] == [] && Run(s, []) == (s, true) by { EmptyRun(s); }
    assert k > 0;
    assert ticks[..k][..k - 1] == ticks[..k - 1];
    RunPrefix(s, ticks[..k], k - 1);
    RunSnoc(s, ticks, k - 1);
    var b := Before(s, ticks, k - 1);
    assert Before(s, ticks, k) == Polled(b, ticks[k - 1]).0;
    if b.trPending {
      j := PendingSince(s, ticks, k - 1);
    } else {
      IntervalKept(s, ticks, k - 1);
      j := k - 1;
    }
  }

  lemma {:induction false} IntervalKept(s: Clocks, ticks: seq<Tick>, k: nat)
    requires k <= |ticks| && Run(s, ticks[..k]).1
    ensures Before(s, ticks, k).heartbtint == s.heartbtint && (s.active ==> Before(s, ticks, k).active)
    decreases k
  {
    hide Run;
    if k == 0 {
      assert ticks[..0] == [] && Run(s, []) == (s, true) by { EmptyRun(s); }
    } else {
      assert ticks[..k][..k - 1] == ticks[..k - 1];
      RunPrefix(s, ticks[..k], k - 1);
      RunSnoc(s, ticks, k - 1);
      IntervalKept(s, ticks, k - 1);
    }
  }

  /**
   In every run, silent or not, a session is declared dead only for a test request of its own that has gone
   unanswered for more than half an interval.
   */
  lemma DiesUnanswered(s: Clocks, ticks: seq<Tick>, k: nat) returns (j: nat)
    requires s.active && !s.trPending && k < |ticks| && DiesAt(s, ticks, k)
    ensures j < k && UnansweredSince(s, ticks, j, k)
    ensures 2 * (Sec(ticks[k].t) - Sec(Before(s, ticks, j).now)) > s.heartbtint
  {
    hide Run, Polled, UnansweredSince;
    RunSnoc(s, ticks, k);
    IntervalKept(s, ticks, k);
    DeathExactly(Before(s, ticks, k), ticks[k]);
    j := PendingSince(s, ticks, k);
  }

  // ---- this side's own heartbeats

  /** A test request is due: none is pending, and the last message came more than 1.25 intervals ago. */
  predicate Asks(s: Clocks, t: nat) {
    !s.trPending && 4 * (Sec(t) - Sec(s.rx)) > 5 * s.heartbtint
  }

  /**
   A living session's keepalive sends exactly when it is due and either asks or has sent nothing for more than
   an interval; and a request is pending after it exactly when one was or it asks.
   */
  lemma SendsExactly(s: Clocks, k: Tick)
    requires Polled(s, k).1 && k.got == Silence
    ensures var r, sends := Polled(s, k).0, Due(s, k.t) && (Asks(s, k.t) || Sec(k.t) - Sec(s.tx) > s.heartbtint);
      && r.tx == (if sends then s.now else s.tx)
      && r.trPending == (s.trPending || (Due(s, k.t) && Asks(s, k.t)))
      && r.rx == s.rx
  {
  }

  /** After the poll at `p`: the last keepalive was recent, and at that time so was the last message sent. */
  ghost predicate Beating(s: Clocks, p: nat) {
    && s.tx <= s.now && p <= s.now
    && 10 * (Sec(p) - Sec(s.last)) <= s.heartbtint && Sec(s.last) - Sec(s.tx) <= s.heartbtint
  }

  lemma BeatingAtStart(hb: nat, created: nat, ready: nat)
    requires created <= ready && Sec(ready) - Sec(created) <= hb
    ensures Beating(Start(hb, created, ready), created)
  {
    SecMonotone(created, ready);
  }

  lemma BeatingChecked(s: Clocks, p: nat, k: Tick)
    requires Beating(s, p) && s.now <= k.t <= k.t2 && p <= k.t <= p + s.heartbtint * NS
    requires Polled(s, k.(got := Silence)).1
    ensures Beating(Polled(s, k.(got := Silence)).0, k.t)
  {
    var hb := s.heartbtint;
    SecBounds(k.t);
    SecBounds(s.now);
    assert (Sec(k.t) - Sec(s.now)) * NS < (hb + 1) * NS;
    assert Sec(k.t) - Sec(s.now) <= hb;
  }

  lemma BeatingHeard(s: Clocks, p: nat, got: Got)
    requires Beating(s, p)
    ensures Beating(Heard(s, got), p)
  {
    SecMonotone(s.tx, s.now);
  }

  lemma BeatingKept(s: Clocks, p: nat, k: Tick)
    requires Beating(s, p) && s.now <= k.t <= k.t2 && p <= k.t <= p + s.heartbtint * NS
    requires Polled(s, k).1
    ensures Beating(Polled(s, k).0, k.t)
    ensures Polled(s, k).0.heartbtint == s.heartbtint && Polled(s, k).0.now == k.t2
  {
    hide Beating;
    PolledParts(s, k);
    BeatingChecked(s, p, k);
    BeatingHeard(Polled(s, k.(got := Silence)).0, k.t, k.got);
  }

  /**
   While a session lives and is polled at least once a heartbeat interval, it never goes without sending
   for more than 1.1 intervals, in whole seconds, at any poll.
   */
  lemma {:induction false} NeverSilent(s: Clocks, p: nat, ticks: seq<Tick>)
    requires Beating(s, p) && Paced(p, s.now, ticks, s.heartbtint * NS)
    requires Run(s, ticks).1 && ticks != []
    ensures var r := Run(s, ticks).0;
      Beating(r, ticks[|ticks| - 1].t) && 10 * (Sec(ticks[|ticks| - 1].t) - Sec(r.tx)) <= 11 * s.heartbtint
    decreases ticks
  {
    hide Beating, Polled;
    var q := Polled(s, ticks[0]);
    BeatingKept(s, p, ticks[0]);
    var rest := ticks[1..];
    if rest == [] {
      assert ticks[|ticks| - 1] == ticks[0];
      BeatingBound(q.0, ticks[0].t);
    } else {
      assert ticks[|ticks| - 1] == rest[|rest| - 1];
      NeverSilent(q.0, ticks[0].t, rest);
    }
  }

  /** The bound for a session polled from its logon on, when that took at most one interval. */
  lemma NeverSilentFromStart(hb: nat, created: nat, ready: nat, ticks: seq<Tick>)
    requires created <= ready && Sec(ready) - Sec(created) <= hb && ticks != []
    requires Paced(created, created, ticks, hb * NS) && Run(Start(hb, created, ready), ticks).1
    ensures 10 * (Sec(ticks[|ticks| - 1].t) - Sec(Run(Start(hb, created, ready), ticks).0.tx)) <= 11 * hb
  {
    hide Run, Beating, Paced;
    BeatingAtStart(hb, created, ready);
    NeverSilent(Start(hb, created, ready), created, ticks);
  }

  lemma BeatingBound(s: Clocks, p: nat)
    requires Beating(s, p)
    ensures 10 * (Sec(p) - Sec(s.tx)) <= 11 * s.heartbtint
  {
  }
}
