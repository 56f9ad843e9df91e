/**
 The worker pool of include/spdlog/details/thread_pool.h on top of the blocking queue: workers are
 its consumers, loggers and the destructor its producers. The destructor posts one terminate message
 per worker; a worker that takes one never comes back to the queue.
 */
module ThreadPool {
  import opened CircularQueue
  import opened BlockingQueue

  datatype Msg = Work(id: nat) | Terminate

  datatype Pool = Pool(
    q: Queue<Msg>,
    workers: set<nat>,
    /** Workers that have taken a terminate message. */
    done: set<nat>,
    /** The thread that runs the destructor, whether it has started, and the posts not yet in the queue. */
    dtor: nat,
    shutting: bool,
    left: nat)

  datatype PoolAction = Queued(a: Action<Msg>) | BeginShutdown

  /** Who may do what: loggers post work until shutdown, then only the destructor posts; a done worker takes nothing. */
  predicate Allowed(s: Pool, pa: PoolAction) {
    match pa
    case BeginShutdown =>
      !s.shutting && s.q.waitP == {} && s.q.wokenP == {} && IdleP(s.q, s.dtor)
    case Queued(a) =>
      && Enabled(s.q, a)
      && match a
         case Enqueue(p, x) =>
           if s.shutting then p == s.dtor && x == Terminate && s.left > 0 else p != s.dtor && x.Work?
         case EnqueueNowait(p, x) => !s.shutting && p != s.dtor && x.Work?
         case Dequeue(c) => c in s.workers && c !in s.done
         case _ => true
  }

  /** The action takes an item for consumer `c`. */
  predicate Takes(s: Pool, a: Action<Msg>) {
    s.q.items != [] && (a.Dequeue? || a.ResumeC? || a.ExpireC?)
  }

  predicate Posts(s: Pool, a: Action<Msg>) {
    !Full(s.q) && (a.Enqueue? || a.ResumeP?)
  }

  function Stepped(s: Pool, pa: PoolAction): Pool
    requires Allowed(s, pa)
  {
    match pa
    case BeginShutdown => s.(shutting := true, left := |s.workers|)
    case Queued(a) =>
      s.(q := Do(s.q, a),
         done := if Takes(s, a) && s.q.items[0] == Terminate then s.done + {a.c} else s.done,
         left := if s.shutting && Posts(s, a) && s.left > 0 then s.left - 1 else s.left)
  }

  function Terminates(items: seq<Msg>): nat {
    if items == [] then 0 else Terminates(items[..|items| - 1]) + if items[|items| - 1] == Terminate then 1 else 0
  }

  /** All work stands before all terminate messages. */
  predicate WorkFirst(items: seq<Msg>) {
    forall i, j :: 0 <= i < j < |items| && items[i] == Terminate ==> items[j] == Terminate
  }

  ghost predicate Placed(s: Pool) {
    && Inv(s.q)
    && s.workers != {} && s.q.cap > 0
    && s.done <= s.workers
    && s.q.waitC + s.q.wokenC + s.q.expiredC <= s.workers - s.done
    && s.q.owesC <= s.workers
  }

  /** What the messages in the queue and on their way look like in each phase. */
  ghost predicate Phase(s: Pool) {
    if s.shutting then
      && s.q.waitP + s.q.wokenP <= {s.dtor}
      && (s.dtor in s.q.waitP + s.q.wokenP ==> s.left > 0 && Carries(s.q, s.dtor, Terminate))
      && Terminates(s.q.items) + |s.done| + s.left == |s.workers|
      && WorkFirst(s.q.items)
      && (s.done != {} ==> Terminates(s.q.items) == |s.q.items|)
    else
      && s.done == {} && s.dtor !in s.q.waitP + s.q.wokenP + s.q.owesP
      && Terminates(s.q.items) == 0
      && forall p :: p in s.q.waitP + s.q.wokenP ==> !Carries(s.q, p, Terminate)
  }

  predicate Carries(q: Queue<Msg>, p: nat, x: Msg) {
    p in q.carry && q.carry[p] == x
  }

  ghost predicate PoolInv(s: Pool) {
    Placed(s) && Phase(s)
  }

  lemma {:induction false} TerminatesPop(items: seq<Msg>)
    requires items != []
    ensures Terminates(items) == Terminates(items[1..]) + if items[0] == Terminate then 1 else 0
  {
    if |items| > 1 {
      TerminatesPop(items[..|items| - 1]);
      assert items[1..][..|items| - 2] == items[..|items| - 1][1..];
    } else {
      assert items[..0] == [] && items[1..] == [];
    }
  }

  lemma TerminatesPush(items: seq<Msg>, x: Msg)
    ensures Terminates(items + [x]) == Terminates(items) + if x == Terminate then 1 else 0
  {
    assert (items + [x])[..|items|] == items;
  }

  lemma {:induction false} TerminatesBound(items: seq<Msg>)
    ensures Terminates(items) <= |items|
    ensures Terminates(items) == |items| <==> forall i :: 0 <= i < |items| ==> items[i] == Terminate
    ensures Terminates(items) == 0 <==> forall i :: 0 <= i < |items| ==> items[i] != Terminate
  {
    if items != [] {
      TerminatesBound(items[..|items| - 1]);
    }
  }

  lemma PlacedKept(s: Pool, pa: PoolAction)
    requires Placed(s) && Allowed(s, pa)
    ensures Placed(Stepped(s, pa))
  {
    hide SleepersP, SleepersC, FirstInFirstOut, Pushed;
    if pa.Queued? {
      StaysPlaced(s.q, pa.a);
      NoWakeupLost(s.q, pa.a);
      StaysFifo(s.q, pa.a);
    }
  }

  lemma ShutdownBegins(s: Pool)
    requires PoolInv(s) && Allowed(s, BeginShutdown)
    ensures Phase(Stepped(s, BeginShutdown))
  {
    TerminatesBound(s.q.items);
  }

  /** Before shutdown only work is put. */
  lemma BeforeShutdown(s: Pool, a: Action<Msg>)
    requires PoolInv(s) && Allowed(s, Queued(a)) && !s.shutting
    ensures Phase(Stepped(s, Queued(a)))
  {
    hide SleepersP, SleepersC, Terminates, Pushed, FirstInFirstOut, WorkFirst, Do;
    WorkStaysWork(s, a);
    PostersStay(s, a);
    if Takes(s, a) {
      TerminatesPop(s.q.items);
    }
  }

  lemma WorkStaysWork(s: Pool, a: Action<Msg>)
    requires PoolInv(s) && Allowed(s, Queued(a)) && !s.shutting
    ensures Terminates(Do(s.q, a).items) == 0
  {
    hide SleepersP, SleepersC, Terminates, Pushed, FirstInFirstOut, WorkFirst, WellPlaced;
    var items := s.q.items;
    if items != [] {
      TerminatesPop(items);
    }
    match a {
      case Enqueue(_, x) => PushedWork(items, x, s.q.cap);
      case EnqueueNowait(_, x) => PushedWork(items, x, s.q.cap);
      case ResumeP(p) =>
        assert !Carries(s.q, p, Terminate);
        PushedWork(items, s.q.carry[p], s.q.cap);
      case _ =>
    }
  }

  /** Nobody but loggers waits to post, and none of them carries a terminate message. */
  lemma PostersStay(s: Pool, a: Action<Msg>)
    requires PoolInv(s) && Allowed(s, Queued(a)) && !s.shutting
    ensures var q := Do(s.q, a);
      && s.dtor !in q.waitP + q.wokenP + q.owesP
      && forall p :: p in q.waitP + q.wokenP ==> !Carries(q, p, Terminate)
  {
    hide SleepersP, SleepersC, Terminates, Pushed, FirstInFirstOut, WorkFirst, WellPlaced;
  }

  lemma PushedWork(items: seq<Msg>, x: Msg, cap: nat)
    requires Terminates(items) == 0
    ensures x != Terminate ==> Terminates(Pushed(items, x, cap)) == 0
  {
    TerminatesPush(items, x);
    TerminatesPop(items + [x]);
  }

  /** The destructor's post; nobody else posts. */
  lemma PostKeepsPhase(s: Pool, a: Action<Msg>)
    requires PoolInv(s) && Allowed(s, Queued(a)) && s.shutting && (a.Enqueue? || a.ResumeP?)
    ensures Phase(Stepped(s, Queued(a)))
  {
    hide SleepersP, SleepersC, FirstInFirstOut, Terminates, WorkFirst;
    var s', items := Stepped(s, Queued(a)), s.q.items;
    assert a.p == s.dtor;
    if Full(s.q) {
      assert s'.q.items == items;
    } else {
      assert s'.q.items == items + [Terminate];
      TerminatesPush(items, Terminate);
      OneMoreTerminate(items);
    }
  }

  lemma OneMoreTerminate(items: seq<Msg>)
    ensures WorkFirst(items) ==> WorkFirst(items + [Terminate])
    ensures Terminates(items) == |items| ==> Terminates(items + [Terminate]) == |items + [Terminate]|
  {
    TerminatesPush(items, Terminate);
  }

  lemma TakeKeepsPhase(s: Pool, a: Action<Msg>)
    requires PoolInv(s) && Allowed(s, Queued(a)) && s.shutting && Takes(s, a)
    ensures Phase(Stepped(s, Queued(a)))
  {
    hide SleepersP, SleepersC, FirstInFirstOut;
    TerminatesPop(s.q.items);
    TerminatesBound(s.q.items[1..]);
    assert a.c !in s.done;
  }

  lemma OthersKeepPhase(s: Pool, a: Action<Msg>)
    requires PoolInv(s) && Allowed(s, Queued(a)) && s.shutting && !Takes(s, a) && !a.Enqueue? && !a.ResumeP?
    ensures Phase(Stepped(s, Queued(a)))
  {
    hide SleepersP, SleepersC, Placed, Pushed;
  }

  lemma PoolStep(s: Pool, pa: PoolAction)
    requires PoolInv(s) && Allowed(s, pa)
    ensures PoolInv(Stepped(s, pa))
  {
    hide Placed, Phase, Stepped;
    PlacedKept(s, pa);
    if pa.BeginShutdown? {
      ShutdownBegins(s);
    } else if !s.shutting {
      BeforeShutdown(s, pa.a);
    } else if pa.a.Enqueue? || pa.a.ResumeP? {
      PostKeepsPhase(s, pa.a);
    } else if Takes(s, pa.a) {
      TakeKeepsPhase(s, pa.a);
    } else {
      OthersKeepPhase(s, pa.a);
    }
  }

  // ---- shutting down

  /** The destructor has posted everything and every worker has left. */
  predicate Finished(s: Pool) {
    s.shutting && s.left == 0 && s.done == s.workers && s.q.owesC == {} && s.q.owesP == {}
  }

  /** Steps that a thread takes by itself: no timeout, no spurious wake-up. */
  predicate OwnStep(a: Action<Msg>) {
    !a.SpuriousP? && !a.SpuriousC? && !a.TimeoutC?
  }

  predicate CanStep(s: Pool, a: Action<Msg>) {
    Allowed(s, Queued(a)) && OwnStep(a)
  }

  lemma SomeLiveWorker(s: Pool) returns (w: nat)
    requires Placed(s) && |s.done| < |s.workers|
    ensures w in s.workers && w !in s.done
  {
    assert |s.workers - s.done| == |s.workers| - |s.done|;
    w :| w in s.workers - s.done;
  }

  /** With something in the queue a worker that is not done can act, or somebody owes it a wake-up. */
  lemma WorkersCanStep(s: Pool) returns (a: Action<Msg>)
    requires PoolInv(s) && s.shutting && s.q.items != [] && |s.done| < |s.workers| && s.q.owesP == {}
    ensures CanStep(s, a)
  {
    hide Phase;
    var w := SomeLiveWorker(s);
    if IdleC(s.q, w) {
      a := Dequeue(w);
    } else if w in s.q.wokenC {
      a := ResumeC(w);
    } else if w in s.q.expiredC {
      a := ExpireC(w);
    } else if w in s.q.owesC {
      a := NotifierC(s, w);
    } else {
      assert w in s.q.waitC;
      if s.q.wokenC != {} {
        var c :| c in s.q.wokenC;
        a := ResumeC(c);
      } else {
        var c :| c in s.q.expiredC;
        a := ExpireC(c);
      }
    }
  }

  lemma NotifierC(s: Pool, c: nat) returns (a: Action<Msg>)
    requires c in s.q.owesC
    ensures CanStep(s, a)
  {
    var p: nat := 0;
    if s.q.waitP != {} {
      p :| p in s.q.waitP;
    }
    a := NotifyC(c, p);
  }

  lemma NotifierP(s: Pool) returns (a: Action<Msg>)
    requires s.q.owesP != {}
    ensures CanStep(s, a)
  {
    var p :| p in s.q.owesP;
    var c: nat := 0;
    if s.q.waitC != {} {
      c :| c in s.q.waitC;
    }
    a := NotifyP(p, c);
  }

  /** No deadlock: until the shutdown is finished, some thread can take a step of its own. */
  lemma ShutdownNeverStuck(s: Pool) returns (a: Action<Msg>)
    requires PoolInv(s) && s.shutting && !Finished(s)
    ensures CanStep(s, a)
  {
    TerminatesBound(s.q.items);
    if s.q.owesP != {} {
      a := NotifierP(s);
    } else if s.q.owesC != {} {
      var c :| c in s.q.owesC;
      a := NotifierC(s, c);
    } else if s.dtor in s.q.wokenP {
      a := ResumeP(s.dtor);
    } else if s.left > 0 && s.dtor !in s.q.waitP {
      a := Enqueue(s.dtor, Terminate);
    } else {
      assert s.dtor in s.q.waitP ==> Full(s.q);
      LeftoverTerminates(s);
      a := WorkersCanStep(s);
    }
  }

  /** If the destructor cannot post, the queue holds something and a worker is left to take it. */
  lemma LeftoverTerminates(s: Pool)
    requires PoolInv(s) && s.shutting && !Finished(s) && s.q.owesP == {} && s.q.owesC == {}
    requires s.left == 0 || Full(s.q)
    ensures s.q.items != [] && |s.done| < |s.workers|
  {
    TerminatesBound(s.q.items);
    if s.left == 0 && Terminates(s.q.items) == 0 {
      SubsetSize(s.done, s.workers);
    }
  }

  lemma SubsetSize(a: set<nat>, b: set<nat>)
    requires a <= b
    ensures |a| <= |b| && (|a| == |b| ==> a == b)
  {
    assert |b - a| == |b| - |a|;
  }

  /** A worker leaves only after all earlier work has been taken, and each takes exactly one terminate message. */
  lemma WorkDoneFirst(s: Pool)
    requires PoolInv(s) && s.shutting
    ensures s.done != {} ==> forall i :: 0 <= i < |s.q.items| ==> s.q.items[i] == Terminate
    ensures |s.done| == |s.workers| - Terminates(s.q.items) - s.left
    ensures Finished(s) ==> s.q.items == [] && (s.q.overruns == 0 ==> s.q.taken == s.q.put)
  {
    hide SleepersP, SleepersC;
    TerminatesBound(s.q.items);
    if Finished(s) {
      assert s.q.taken + [] == s.q.taken;
    }
  }

  // ---- how long it can take

  function IdleWorkers(s: Pool): set<nat> {
    s.workers - s.done - s.q.waitC - s.q.wokenC - s.q.expiredC - s.q.owesC
  }

  /** An upper bound on the steps the threads still take by themselves. */
  function Effort(s: Pool): nat {
    6 * s.left + 3 * |s.q.items| + 3 * |s.q.owesP| + |s.q.wokenP| + (if IdleP(s.q, s.dtor) then 1 else 0)
    + |IdleWorkers(s)| + |s.q.wokenC| + 2 * |s.q.expiredC| + 3 * |s.q.owesC|
  }

  lemma IdleSize(s: Pool, s': Pool, c: nat)
    ensures IdleWorkers(s') == IdleWorkers(s) - {c} && c in IdleWorkers(s) ==> |IdleWorkers(s')| == |IdleWorkers(s)| - 1
    ensures IdleWorkers(s') <= IdleWorkers(s) + {c} ==> |IdleWorkers(s')| <= |IdleWorkers(s)| + 1
  {
    Moved(IdleWorkers(s), c);
    if IdleWorkers(s') <= IdleWorkers(s) + {c} {
      SubsetSize(IdleWorkers(s'), IdleWorkers(s) + {c});
    }
  }

  lemma EnqueueEffort(s: Pool, a: Action<Msg>)
    requires WellPlaced(s.q) && s.shutting && CanStep(s, a) && a.Enqueue?
    ensures Effort(Stepped(s, Queued(a))) < Effort(s)
  {
    hide Terminates;
    Moved(s.q.owesP, a.p);
    assert IdleWorkers(Stepped(s, Queued(a))) == IdleWorkers(s);
  }

  lemma ResumePEffort(s: Pool, a: Action<Msg>)
    requires WellPlaced(s.q) && s.shutting && CanStep(s, a) && a.ResumeP? && s.q.wokenP <= {s.dtor} && s.left > 0
    ensures Effort(Stepped(s, Queued(a))) < Effort(s)
  {
    hide Terminates;
    Moved(s.q.owesP, a.p);
    Moved(s.q.wokenP, a.p);
    assert IdleWorkers(Stepped(s, Queued(a))) == IdleWorkers(s);
  }

  /** A woken worker was not idle and is not idle now. */
  lemma NotifyPIdle(s: Pool, a: Action<Msg>)
    requires Allowed(s, Queued(a)) && a.NotifyP?
    ensures IdleWorkers(Stepped(s, Queued(a))) == IdleWorkers(s)
  {
    hide Terminates;
  }

  lemma NotifyPEffort(s: Pool, a: Action<Msg>)
    requires WellPlaced(s.q) && s.shutting && CanStep(s, a) && a.NotifyP?
    ensures Effort(Stepped(s, Queued(a))) < Effort(s)
  {
    hide Pushed, Terminates, IdleWorkers;
    Moved(s.q.owesP, a.p);
    Moved(s.q.wokenC, a.c);
    NotifyPIdle(s, a);
  }

  /** A consumer's step changes at most its own idleness. */
  lemma DequeueIdle(s: Pool, a: Action<Msg>)
    requires WellPlaced(s.q) && Allowed(s, Queued(a)) && a.Dequeue?
    ensures |IdleWorkers(Stepped(s, Queued(a)))| == |IdleWorkers(s)| - 1
  {
    hide Pushed, Terminates;
    var s' := Stepped(s, Queued(a));
    assert IdleWorkers(s') == IdleWorkers(s) - {a.c} && a.c in IdleWorkers(s);
    IdleSize(s, s', a.c);
  }

  lemma AwakeIdle(s: Pool, a: Action<Msg>)
    requires WellPlaced(s.q) && Allowed(s, Queued(a)) && (a.ResumeC? || (a.ExpireC? && s.q.items != []))
    ensures IdleWorkers(Stepped(s, Queued(a))) == IdleWorkers(s)
  {
    hide Pushed, Terminates;
  }

  lemma FreedIdle(s: Pool, a: Action<Msg>)
    requires WellPlaced(s.q) && Allowed(s, Queued(a)) && (a.NotifyC? || (a.ExpireC? && s.q.items == []))
    ensures |IdleWorkers(Stepped(s, Queued(a)))| <= |IdleWorkers(s)| + 1
  {
    hide Pushed, Terminates;
    var s' := Stepped(s, Queued(a));
    assert IdleWorkers(s') <= IdleWorkers(s) + {a.c};
    IdleSize(s, s', a.c);
  }

  lemma DequeueEffort(s: Pool, a: Action<Msg>)
    requires WellPlaced(s.q) && s.shutting && CanStep(s, a) && a.Dequeue?
    ensures Effort(Stepped(s, Queued(a))) < Effort(s)
  {
    hide Pushed, Terminates, IdleWorkers;
    Moved(s.q.owesC, a.c);
    DequeueIdle(s, a);
  }

  /** Taking an item: one item less, one notification owed. */
  lemma TakeSizes(q: Queue<Msg>, c: nat)
    requires q.items != [] && c !in q.owesC
    ensures |Take(q, c).items| == |q.items| - 1 && |Take(q, c).owesC| == |q.owesC| + 1
  {
    Moved(q.owesC, c);
  }

  lemma ResumeCEffort(s: Pool, a: Action<Msg>)
    requires WellPlaced(s.q) && s.shutting && CanStep(s, a) && a.ResumeC?
    ensures Effort(Stepped(s, Queued(a))) < Effort(s)
  {
    hide Pushed, Terminates, IdleWorkers;
    var q := s.q.(wokenC := s.q.wokenC - {a.c});
    Moved(s.q.wokenC, a.c);
    AwakeIdle(s, a);
    if s.q.items != [] {
      TakeSizes(q, a.c);
    }
  }

  lemma ExpireCEffort(s: Pool, a: Action<Msg>)
    requires WellPlaced(s.q) && s.shutting && CanStep(s, a) && a.ExpireC?
    ensures Effort(Stepped(s, Queued(a))) < Effort(s)
  {
    hide Pushed, Terminates, IdleWorkers;
    Moved(s.q.owesC, a.c);
    Moved(s.q.expiredC, a.c);
    if s.q.items == [] { FreedIdle(s, a); } else { AwakeIdle(s, a); }
  }

  lemma NotifyCEffort(s: Pool, a: Action<Msg>)
    requires WellPlaced(s.q) && s.shutting && CanStep(s, a) && a.NotifyC?
    ensures Effort(Stepped(s, Queued(a))) < Effort(s)
  {
    hide Pushed, Terminates, IdleWorkers;
    Moved(s.q.owesC, a.c);
    Moved(s.q.wokenP, a.p);
    FreedIdle(s, a);
  }

  /** Every step a thread takes by itself brings the shutdown closer. */
  lemma OwnStepProgresses(s: Pool, a: Action<Msg>)
    requires PoolInv(s) && s.shutting && CanStep(s, a)
    ensures Effort(Stepped(s, Queued(a))) < Effort(s)
  {
    hide SleepersP, SleepersC, FirstInFirstOut, Effort, Stepped, Terminates, WorkFirst;
    match a {
      case Enqueue(_, _) => EnqueueEffort(s, a);
      case ResumeP(_) => ResumePEffort(s, a);
      case NotifyP(_, _) => NotifyPEffort(s, a);
      case Dequeue(_) => DequeueEffort(s, a);
      case ResumeC(_) => ResumeCEffort(s, a);
      case ExpireC(_) => ExpireCEffort(s, a);
      case NotifyC(_, _) => NotifyCEffort(s, a);
      case _ => assert false;
    }
  }

  /** A timeout or a spurious wake-up costs at most two more own steps. */
  lemma SpuriousPEffort(s: Pool, a: Action<Msg>)
    requires WellPlaced(s.q) && Allowed(s, Queued(a)) && a.SpuriousP?
    ensures Effort(Stepped(s, Queued(a))) <= Effort(s) + 2
  {
    hide Pushed, Terminates, IdleWorkers;
    Moved(s.q.wokenP, a.p);
    assert IdleWorkers(Stepped(s, Queued(a))) == IdleWorkers(s) by { OutsideIdle(s, a); }
  }

  lemma SpuriousCEffort(s: Pool, a: Action<Msg>)
    requires WellPlaced(s.q) && Allowed(s, Queued(a)) && a.SpuriousC?
    ensures Effort(Stepped(s, Queued(a))) <= Effort(s) + 2
  {
    hide Pushed, Terminates, IdleWorkers;
    Moved(s.q.wokenC, a.c);
    assert IdleWorkers(Stepped(s, Queued(a))) == IdleWorkers(s) by { OutsideIdle(s, a); }
  }

  lemma TimeoutCEffort(s: Pool, a: Action<Msg>)
    requires WellPlaced(s.q) && Allowed(s, Queued(a)) && a.TimeoutC?
    ensures Effort(Stepped(s, Queued(a))) <= Effort(s) + 2
  {
    hide Pushed, Terminates, IdleWorkers;
    Moved(s.q.expiredC, a.c);
    assert IdleWorkers(Stepped(s, Queued(a))) == IdleWorkers(s) by { OutsideIdle(s, a); }
  }

  lemma OutsideIdle(s: Pool, a: Action<Msg>)
    requires WellPlaced(s.q) && Allowed(s, Queued(a)) && !OwnStep(a)
    ensures IdleWorkers(Stepped(s, Queued(a))) == IdleWorkers(s)
  {
    hide Pushed, Terminates;
  }

  lemma OutsideStepCosts(s: Pool, a: Action<Msg>)
    requires PoolInv(s) && Allowed(s, Queued(a)) && !OwnStep(a)
    ensures Effort(Stepped(s, Queued(a))) <= Effort(s) + 2
  {
    hide SleepersP, SleepersC, FirstInFirstOut, Effort, Stepped, Terminates, WorkFirst;
    if a.SpuriousP? {
      SpuriousPEffort(s, a);
    } else if a.SpuriousC? {
      SpuriousCEffort(s, a);
    } else {
      TimeoutCEffort(s, a);
    }
  }

  ghost predicate IsPoolRun(s: Pool, acts: seq<PoolAction>)
    decreases acts
  {
    acts == [] || (Allowed(s, acts[0]) && IsPoolRun(Stepped(s, acts[0]), acts[1..]))
  }

  function AfterPool(s: Pool, acts: seq<PoolAction>): Pool
    requires IsPoolRun(s, acts)
    decreases acts
  {
    if acts == [] then s else AfterPool(Stepped(s, acts[0]), acts[1..])
  }

  /** The steps of a run that the threads take by themselves. */
  function OwnSteps(acts: seq<PoolAction>): (n: nat)
    ensures n <= |acts|
  {
    if acts == [] then 0 else (if acts[0].Queued? && OwnStep(acts[0].a) then 1 else 0) + OwnSteps(acts[1..])
  }

  /**
   Whatever the schedule, with workers timing out and waking up for no reason as often as they like: apart
   from two for each such event the threads' own steps are bounded, and where none is possible the shutdown
   is finished.
   */
  lemma {:induction false} ShutdownEnds(s: Pool, acts: seq<PoolAction>)
    requires PoolInv(s) && s.shutting && IsPoolRun(s, acts)
    ensures OwnSteps(acts) <= Effort(s) + 2 * (|acts| - OwnSteps(acts))
    ensures var s' := AfterPool(s, acts);
      PoolInv(s') && s'.shutting && ((forall a :: !CanStep(s', a)) ==> Finished(s'))
    decreases acts
  {
    hide PoolInv, Effort, Stepped, Finished;
    if acts == [] {
      if !Finished(s) {
        var a := ShutdownNeverStuck(s);
      }
    } else {
      var s1 := Stepped(s, acts[0]);
      StaysShutting(s, acts[0]);
      PoolStep(s, acts[0]);
      if OwnStep(acts[0].a) {
        OwnStepProgresses(s, acts[0].a);
      } else {
        OutsideStepCosts(s, acts[0].a);
      }
      ShutdownEnds(s1, acts[1..]);
    }
  }

  /** Once started, a shutdown is not taken back. */
  lemma StaysShutting(s: Pool, pa: PoolAction)
    requires s.shutting && Allowed(s, pa)
    ensures pa.Queued? && Stepped(s, pa).shutting
  {
  }

  // ---- every run, from the constructor on

  /** The constructor's result; a pool of no workers or of more than 1000 is refused. */
  function NewPool(cap: nat, workers: set<nat>, dtor: nat): Pool {
    Pool(BlockingQueue.Initial(cap), workers, {}, dtor, false, 0)
  }

  lemma {:induction false} PoolInvAlways(s: Pool, acts: seq<PoolAction>)
    requires PoolInv(s) && IsPoolRun(s, acts)
    ensures PoolInv(AfterPool(s, acts))
    decreases acts
  {
    hide PoolInv, Stepped;
    if acts != [] {
      PoolStep(s, acts[0]);
      PoolInvAlways(Stepped(s, acts[0]), acts[1..]);
    }
  }

  /** For any worker count, queue size and schedule. */
  lemma EveryRunSafe(cap: nat, workers: set<nat>, dtor: nat, acts: seq<PoolAction>)
    requires cap >= 1 && 1 <= |workers| <= 1000 && IsPoolRun(NewPool(cap, workers, dtor), acts)
    ensures PoolInv(AfterPool(NewPool(cap, workers, dtor), acts))
  {
    PoolInvAlways(NewPool(cap, workers, dtor), acts);
  }
}
