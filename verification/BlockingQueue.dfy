/**
 `mpmc_blocking_queue` of include/spdlog/details/mpmc_blocking_q.h as interleaved atomic steps.
 A step is what a thread does between taking and releasing the mutex, or one notification, which
 happens after the mutex is released. Threads not listed in a set are outside the queue's methods.
 */
module BlockingQueue {
  import opened Options
  import opened CircularQueue

  datatype Queue<T> = Queue(
    cap: nat,
    items: seq<T>,
    /** Producers asleep on `pop_cv_`, awake but not yet running, and about to notify `push_cv_`. */
    waitP: set<nat>,
    wokenP: set<nat>,
    owesP: set<nat>,
    /** What a blocked producer is going to put. */
    carry: map<nat, T>,
    /** The same for consumers and `push_cv_`; an expired consumer was woken by its timeout. */
    waitC: set<nat>,
    wokenC: set<nat>,
    expiredC: set<nat>,
    owesC: set<nat>,
    /** Everything put and taken so far, and how many items were overrun. */
    put: seq<T>,
    taken: seq<T>,
    overruns: nat)

  datatype Action<T> =
    | Enqueue(p: nat, x: T)
    | EnqueueNowait(p: nat, x: T)
    | SpuriousP(p: nat)
    | ResumeP(p: nat)
    | NotifyP(p: nat, c: nat)
    | Dequeue(c: nat)
    | SpuriousC(c: nat)
    | TimeoutC(c: nat)
    | ResumeC(c: nat)
    | ExpireC(c: nat)
    | NotifyC(c: nat, p: nat)

  predicate IdleP<T>(s: Queue<T>, p: nat) {
    p !in s.waitP && p !in s.wokenP && p !in s.owesP
  }

  predicate IdleC<T>(s: Queue<T>, c: nat) {
    c !in s.waitC && c !in s.wokenC && c !in s.expiredC && c !in s.owesC
  }

  predicate Full<T>(s: Queue<T>) {
    |s.items| >= s.cap
  }

  /** A notification wakes one of the sleeping threads, if there is any. */
  predicate Enabled<T>(s: Queue<T>, a: Action<T>) {
    match a
    case Enqueue(p, _) => IdleP(s, p)
    case EnqueueNowait(p, _) => IdleP(s, p)
    case SpuriousP(p) => p in s.waitP
    case ResumeP(p) => p in s.wokenP && p in s.carry
    case NotifyP(p, c) => p in s.owesP && (s.waitC != {} ==> c in s.waitC)
    case Dequeue(c) => IdleC(s, c)
    case SpuriousC(c) => c in s.waitC
    case TimeoutC(c) => c in s.waitC
    case ResumeC(c) => c in s.wokenC
    case ExpireC(c) => c in s.expiredC
    case NotifyC(c, p) => c in s.owesC && (s.waitP != {} ==> p in s.waitP)
  }

  function Put<T>(s: Queue<T>, x: T): Queue<T> {
    s.(items := Pushed(s.items, x, s.cap), put := s.put + [x],
       overruns := s.overruns + if |s.items| < s.cap then 0 else 1)
  }

  /** The first item leaves; the consumer then owes a notification. */
  function Take<T>(s: Queue<T>, c: nat): Queue<T>
    requires s.items != []
  {
    s.(items := s.items[1..], taken := s.taken + [s.items[0]], owesC := s.owesC + {c})
  }

  function Do<T>(s: Queue<T>, a: Action<T>): Queue<T>
    requires Enabled(s, a)
  {
    match a
    case Enqueue(p, x) =>
      if Full(s) then s.(waitP := s.waitP + {p}, carry := s.carry[p := x])
      else Put(s, x).(owesP := s.owesP + {p})
    case EnqueueNowait(p, x) => Put(s, x).(owesP := s.owesP + {p})
    case SpuriousP(p) => s.(waitP := s.waitP - {p}, wokenP := s.wokenP + {p})
    case ResumeP(p) =>
      if Full(s) then s.(wokenP := s.wokenP - {p}, waitP := s.waitP + {p})
      else Put(s, s.carry[p]).(wokenP := s.wokenP - {p}, owesP := s.owesP + {p})
    case NotifyP(p, c) =>
      if s.waitC == {} then s.(owesP := s.owesP - {p})
      else s.(owesP := s.owesP - {p}, waitC := s.waitC - {c}, wokenC := s.wokenC + {c})
    case Dequeue(c) =>
      if s.items == [] then s.(waitC := s.waitC + {c}) else Take(s, c)
    case SpuriousC(c) => s.(waitC := s.waitC - {c}, wokenC := s.wokenC + {c})
    case TimeoutC(c) => s.(waitC := s.waitC - {c}, expiredC := s.expiredC + {c})
    case ResumeC(c) =>
      if s.items == [] then s.(wokenC := s.wokenC - {c}, waitC := s.waitC + {c})
      else Take(s.(wokenC := s.wokenC - {c}), c)
    case ExpireC(c) =>
      if s.items == [] then s.(expiredC := s.expiredC - {c})
      else Take(s.(expiredC := s.expiredC - {c}), c)
    case NotifyC(c, p) =>
      if s.waitP == {} then s.(owesC := s.owesC - {c})
      else s.(owesC := s.owesC - {c}, waitP := s.waitP - {p}, wokenP := s.wokenP + {p})
  }

  /** Each thread is in at most one place, blocked producers carry an item, and the bound holds. */
  ghost predicate WellPlaced<T>(s: Queue<T>) {
    && s.waitP !! s.wokenP !! s.owesP
    && s.waitC !! s.wokenC !! s.expiredC !! s.owesC
    && s.waitP + s.wokenP <= s.carry.Keys
    && |s.items| <= s.cap
  }

  /**
   While a producer sleeps, each free cell is matched by a notification still to be given or by a producer
   already woken; while a consumer sleeps, the same holds of each item.
   */
  ghost predicate NoLostWakeup<T>(s: Queue<T>) {
    SleepersP(s) && SleepersC(s)
  }

  ghost predicate SleepersP<T>(s: Queue<T>) {
    s.waitP != {} ==> s.cap - |s.items| <= |s.owesC| + |s.wokenP|
  }

  ghost predicate SleepersC<T>(s: Queue<T>) {
    s.waitC != {} ==> |s.items| <= |s.owesP| + |s.wokenC| + |s.expiredC|
  }

  /** Items come out in the order they went in, except those that were overrun. */
  ghost predicate FirstInFirstOut<T>(s: Queue<T>) {
    && |s.put| == |s.taken| + |s.items| + s.overruns
    && |s.items| <= |s.put| && s.items == s.put[|s.put| - |s.items|..]
    && (s.overruns == 0 ==> s.put == s.taken + s.items)
  }

  ghost predicate Inv<T>(s: Queue<T>) {
    WellPlaced(s) && NoLostWakeup(s) && FirstInFirstOut(s)
  }

  function Initial<T>(cap: nat): Queue<T> {
    Queue(cap, [], {}, {}, {}, map[], {}, {}, {}, {}, [], [], 0)
  }

  lemma StaysPlaced<T>(s: Queue<T>, a: Action<T>)
    requires WellPlaced(s) && Enabled(s, a)
    ensures WellPlaced(Do(s, a)) && Do(s, a).cap == s.cap
  {
  }

  lemma Moved(a: set<nat>, x: nat)
    ensures x !in a ==> |a + {x}| == |a| + 1
    ensures x in a ==> |a - {x}| == |a| - 1
  {
  }

  lemma PutSize<T>(s: Queue<T>, x: T)
    ensures |Put(s, x).items| <= |s.items| + 1
    ensures |s.items| <= s.cap ==> |Put(s, x).items| >= |s.items|
    ensures !Full(s) ==> |Put(s, x).items| == |s.items| + 1
  {
  }

  // ---- no action forgets a sleeper

  lemma EnqueueWakes<T>(s: Queue<T>, a: Action<T>)
    requires WellPlaced(s) && NoLostWakeup(s) && Enabled(s, a) && a.Enqueue?
    ensures NoLostWakeup(Do(s, a))
  {
    hide Pushed;
    Moved(s.owesP, a.p);
    PutSize(s, a.x);
  }

  lemma NowaitWakes<T>(s: Queue<T>, a: Action<T>)
    requires WellPlaced(s) && NoLostWakeup(s) && Enabled(s, a) && a.EnqueueNowait?
    ensures NoLostWakeup(Do(s, a))
  {
    hide Pushed;
    Moved(s.owesP, a.p);
    PutSize(s, a.x);
  }

  lemma SpuriousPWakes<T>(s: Queue<T>, a: Action<T>)
    requires WellPlaced(s) && NoLostWakeup(s) && Enabled(s, a) && a.SpuriousP?
    ensures NoLostWakeup(Do(s, a))
  {
    hide Pushed;
    Moved(s.wokenP, a.p);
  }

  lemma ResumePWakes<T>(s: Queue<T>, a: Action<T>)
    requires WellPlaced(s) && NoLostWakeup(s) && Enabled(s, a) && a.ResumeP?
    ensures NoLostWakeup(Do(s, a))
  {
    hide Pushed;
    Moved(s.wokenP, a.p);
    Moved(s.owesP, a.p);
    PutSize(s, s.carry[a.p]);
  }

  lemma NotifyPWakes<T>(s: Queue<T>, a: Action<T>)
    requires WellPlaced(s) && NoLostWakeup(s) && Enabled(s, a) && a.NotifyP?
    ensures NoLostWakeup(Do(s, a))
  {
    hide Pushed;
    Moved(s.owesP, a.p);
    Moved(s.wokenC, a.c);
  }

  lemma DequeueWakes<T>(s: Queue<T>, a: Action<T>)
    requires WellPlaced(s) && NoLostWakeup(s) && Enabled(s, a) && a.Dequeue?
    ensures NoLostWakeup(Do(s, a))
  {
    hide Pushed;
    Moved(s.owesC, a.c);
  }

  lemma SpuriousCWakes<T>(s: Queue<T>, a: Action<T>)
    requires WellPlaced(s) && NoLostWakeup(s) && Enabled(s, a) && a.SpuriousC?
    ensures NoLostWakeup(Do(s, a))
  {
    hide Pushed;
    Moved(s.wokenC, a.c);
  }

  lemma TimeoutCWakes<T>(s: Queue<T>, a: Action<T>)
    requires WellPlaced(s) && NoLostWakeup(s) && Enabled(s, a) && a.TimeoutC?
    ensures NoLostWakeup(Do(s, a))
  {
    hide Pushed;
    Moved(s.expiredC, a.c);
  }

  lemma ResumeCWakes<T>(s: Queue<T>, a: Action<T>)
    requires WellPlaced(s) && NoLostWakeup(s) && Enabled(s, a) && a.ResumeC?
    ensures NoLostWakeup(Do(s, a))
  {
    hide Pushed;
    Moved(s.wokenC, a.c);
    Moved(s.owesC, a.c);
  }

  lemma ExpireCWakes<T>(s: Queue<T>, a: Action<T>)
    requires WellPlaced(s) && NoLostWakeup(s) && Enabled(s, a) && a.ExpireC?
    ensures NoLostWakeup(Do(s, a))
  {
    hide Pushed;
    Moved(s.expiredC, a.c);
    Moved(s.owesC, a.c);
  }

  lemma NotifyCWakes<T>(s: Queue<T>, a: Action<T>)
    requires WellPlaced(s) && NoLostWakeup(s) && Enabled(s, a) && a.NotifyC?
    ensures NoLostWakeup(Do(s, a))
  {
    hide Pushed;
    Moved(s.owesC, a.c);
    Moved(s.wokenP, a.p);
  }

  lemma NoWakeupLost<T>(s: Queue<T>, a: Action<T>)
    requires WellPlaced(s) && NoLostWakeup(s) && Enabled(s, a)
    ensures NoLostWakeup(Do(s, a))
  {
    hide WellPlaced, NoLostWakeup, Enabled, Do;
    match a {
      case Enqueue(_, _) => EnqueueWakes(s, a);
      case EnqueueNowait(_, _) => NowaitWakes(s, a);
      case SpuriousP(_) => SpuriousPWakes(s, a);
      case ResumeP(_) => ResumePWakes(s, a);
      case NotifyP(_, _) => NotifyPWakes(s, a);
      case Dequeue(_) => DequeueWakes(s, a);
      case SpuriousC(_) => SpuriousCWakes(s, a);
      case TimeoutC(_) => TimeoutCWakes(s, a);
      case ResumeC(_) => ResumeCWakes(s, a);
      case ExpireC(_) => ExpireCWakes(s, a);
      case NotifyC(_, _) => NotifyCWakes(s, a);
    }
  }

  lemma PutFifo<T>(s: Queue<T>, x: T)
    requires FirstInFirstOut(s) && |s.items| <= s.cap
    ensures FirstInFirstOut(Put(s, x))
  {
    var k := |s.put| - |s.items|;
    assert s.put[k..] + [x] == (s.put + [x])[k..];
    assert (s.put + [x])[k..][1..] == (s.put + [x])[k + 1..];
    assert s.overruns == 0 ==> s.put + [x] == s.taken + (s.items + [x]);
  }

  lemma TakeFifo<T>(s: Queue<T>, c: nat)
    requires FirstInFirstOut(s) && s.items != []
    ensures FirstInFirstOut(Take(s, c))
  {
    var k := |s.put| - |s.items|;
    assert s.put[k..][1..] == s.put[k + 1..];
    assert s.taken + s.items == s.taken + [s.items[0]] + s.items[1..];
  }

  lemma StaysFifo<T>(s: Queue<T>, a: Action<T>)
    requires FirstInFirstOut(s) && |s.items| <= s.cap && Enabled(s, a)
    ensures FirstInFirstOut(Do(s, a))
  {
    hide Pushed, FirstInFirstOut;
    match a {
      case Enqueue(_, x) => PutFifo(s, x); SameLog(if Full(s) then s else Put(s, x), Do(s, a));
      case EnqueueNowait(_, x) => PutFifo(s, x); SameLog(Put(s, x), Do(s, a));
      case ResumeP(p) => PutFifo(s, s.carry[p]); SameLog(if Full(s) then s else Put(s, s.carry[p]), Do(s, a));
      case Dequeue(c) => TakenLog(s, c, Do(s, a));
      case ResumeC(c) => TakenLog(s, c, Do(s, a));
      case ExpireC(c) => TakenLog(s, c, Do(s, a));
      case _ => SameLog(s, Do(s, a));
    }
  }

  /** The order property reads only the items and the logs. */
  lemma SameLog<T>(s: Queue<T>, s': Queue<T>)
    requires FirstInFirstOut(s)
    requires s'.items == s.items && s'.put == s.put && s'.taken == s.taken && s'.overruns == s.overruns
    ensures FirstInFirstOut(s')
  {
  }

  lemma TakenLog<T>(s: Queue<T>, c: nat, s': Queue<T>)
    requires FirstInFirstOut(s) && s'.put == s.put && s'.overruns == s.overruns
    requires if s.items == [] then s'.items == [] && s'.taken == s.taken
      else s'.items == s.items[1..] && s'.taken == s.taken + [s.items[0]]
    ensures FirstInFirstOut(s')
  {
    hide FirstInFirstOut;
    if s.items == [] {
      SameLog(s, s');
    } else {
      TakeFifo(s, c);
      SameLog(Take(s, c), s');
    }
  }

  ghost predicate IsRun<T>(s: Queue<T>, acts: seq<Action<T>>)
    decreases acts
  {
    acts == [] || (Enabled(s, acts[0]) && IsRun(Do(s, acts[0]), acts[1..]))
  }

  function After<T>(s: Queue<T>, acts: seq<Action<T>>): Queue<T>
    requires IsRun(s, acts)
    decreases acts
  {
    if acts == [] then s else After(Do(s, acts[0]), acts[1..])
  }

  /** Every interleaving from an empty queue keeps the invariant. */
  lemma {:induction false} InvAlways<T>(s: Queue<T>, acts: seq<Action<T>>)
    requires Inv(s) && IsRun(s, acts)
    ensures Inv(After(s, acts))
    decreases acts
  {
    if acts != [] {
      StaysPlaced(s, acts[0]);
      NoWakeupLost(s, acts[0]);
      StaysFifo(s, acts[0]);
      InvAlways(Do(s, acts[0]), acts[1..]);
    }
  }

  // ---- whose items are put, and how the calls end

  /** What a call of `p` brings along. */
  function Brings<T>(a: Action<T>, p: nat): seq<T> {
    match a
    case Enqueue(q, x) => if q == p then [x] else []
    case EnqueueNowait(q, x) => if q == p then [x] else []
    case _ => []
  }

  /** What `p` has brought along and not put yet. */
  function Waiting<T>(s: Queue<T>, p: nat): seq<T> {
    if (p in s.waitP || p in s.wokenP) && p in s.carry then [s.carry[p]] else []
  }

  /** What a step of `p` puts. */
  function PutOf<T>(s: Queue<T>, a: Action<T>, p: nat): seq<T>
    requires Enabled(s, a)
  {
    if (a.Enqueue? || a.EnqueueNowait? || a.ResumeP?) && a.p == p && |Do(s, a).put| > |s.put|
    then Do(s, a).put[|s.put|..] else []
  }

  lemma StepPuts<T>(s: Queue<T>, a: Action<T>, p: nat)
    requires WellPlaced(s) && Enabled(s, a)
    ensures Waiting(s, p) + Brings(a, p) == PutOf(s, a, p) + Waiting(Do(s, a), p)
  {
    hide Pushed;
  }

  function Brought<T>(acts: seq<Action<T>>, p: nat): seq<T> {
    if acts == [] then [] else Brings(acts[0], p) + Brought(acts[1..], p)
  }

  function PutBy<T>(s: Queue<T>, acts: seq<Action<T>>, p: nat): seq<T>
    requires IsRun(s, acts)
    decreases acts
  {
    if acts == [] then [] else PutOf(s, acts[0], p) + PutBy(Do(s, acts[0]), acts[1..], p)
  }

  /** In every interleaving each producer puts exactly what it brings, in that order, with at most one item waiting. */
  lemma {:induction false} EachPutsItsOwn<T>(s: Queue<T>, acts: seq<Action<T>>, p: nat)
    requires Inv(s) && IsRun(s, acts)
    ensures Waiting(s, p) + Brought(acts, p) == PutBy(s, acts, p) + Waiting(After(s, acts), p)
    decreases acts
  {
    hide Do, Waiting, Brings, PutOf, NoLostWakeup, FirstInFirstOut;
    if acts == [] {
      assert Waiting(s, p) + [] == [] + Waiting(s, p);
    } else {
      var s', rest := Do(s, acts[0]), acts[1..];
      StaysPlaced(s, acts[0]);
      NoWakeupLost(s, acts[0]);
      StaysFifo(s, acts[0]);
      StepPuts(s, acts[0], p);
      EachPutsItsOwn(s', rest, p);
      var w, b, u := Waiting(s, p), Brings(acts[0], p), PutOf(s, acts[0], p);
      calc {
        w + (b + Brought(rest, p));
        (w + b) + Brought(rest, p);
        u + (Waiting(s', p) + Brought(rest, p));
        (u + PutBy(s', rest, p)) + Waiting(After(s', rest), p);
      }
    }
  }

  /** A put ends only with its notification, a take only with its own or, empty-handed, after the timeout. */
  lemma CallsEnd<T>(s: Queue<T>, a: Action<T>, p: nat, c: nat)
    requires WellPlaced(s) && Enabled(s, a)
    ensures !IdleP(s, p) && IdleP(Do(s, a), p) ==> a.NotifyP? && a.p == p
    ensures !IdleC(s, c) && IdleC(Do(s, a), c) ==>
      (a.NotifyC? && a.c == c) || (a.ExpireC? && a.c == c && s.items == [])
  {
    hide Pushed;
  }

  /** Only the put that does not wait overruns, exactly when the queue is full; and it never waits. */
  lemma OverrunsExactly<T>(s: Queue<T>, a: Action<T>)
    requires WellPlaced(s) && Enabled(s, a)
    ensures Do(s, a).overruns == s.overruns + if a.EnqueueNowait? && |s.items| == s.cap then 1 else 0
    ensures a.EnqueueNowait? ==> a.p in Do(s, a).owesP && |Do(s, a).put| == |s.put| + 1
    ensures a.Enqueue? ==> (a.p in Do(s, a).waitP <==> |s.items| == s.cap)
  {
    hide Pushed;
  }

  /** When nobody is about to run or notify, sleeping producers mean a full queue, sleeping consumers an empty one. */
  lemma SleepOnlyWithReason<T>(s: Queue<T>)
    requires Inv(s) && s.owesP == {} && s.owesC == {} && s.wokenP == {} && s.wokenC == {} && s.expiredC == {}
    ensures s.waitP != {} ==> Full(s)
    ensures s.waitC != {} ==> s.items == []
    ensures s.cap > 0 ==> s.waitP == {} || s.waitC == {}
  {
  }

  // ---- the sections under the mutex, on the circular array

  class MpmcBlockingQueue<T(0)> {
    const q: CircularQ<T>

    /** The array holds the items of `s`. */
    ghost predicate Holds(s: Queue<T>)
      reads this, q, q.v
    {
      q.Valid() && q.maxItems == s.cap + 1 && q.Contents() == s.items && q.overrunCounter == s.overruns
    }

    constructor (maxItems: nat)
      ensures Holds(Initial(maxItems)) && fresh(q) && fresh(q.v)
    {
      q := new CircularQ(maxItems);
    }

    /** The wait's predicate and the push of `enqueue`: at entry and after each wake-up. False means waiting. */
    method TryEnqueue(item: T, ghost s: Queue<T>, ghost a: Action<T>) returns (pushed: bool)
      requires Holds(s) && WellPlaced(s) && Enabled(s, a)
      requires (a.Enqueue? && a.x == item) || (a.ResumeP? && s.carry[a.p] == item)
      modifies q, q.v
      ensures Holds(Do(s, a)) && (pushed <==> !Full(s))
    {
      var full := q.Full();
      if full {
        return false;
      }
      q.PushBack(item);
      pushed := true;
    }

    method EnqueueNowait(item: T, ghost s: Queue<T>, ghost p: nat)
      requires Holds(s) && WellPlaced(s) && Enabled(s, Action.EnqueueNowait(p, item))
      modifies q, q.v
      ensures Holds(Do(s, Action.EnqueueNowait(p, item)))
    {
      q.PushBack(item);
    }

    /** The wait's predicate and the pop of `dequeue_for`: at entry, after a wake-up and after the timeout. */
    method TryDequeue(ghost s: Queue<T>, ghost a: Action<T>) returns (item: Option<T>)
      requires Holds(s) && WellPlaced(s) && Enabled(s, a) && (a.Dequeue? || a.ResumeC? || a.ExpireC?)
      modifies q
      ensures Holds(Do(s, a))
      ensures item == if s.items == [] then None else Some(s.items[0])
      ensures Do(s, a).taken == s.taken + if item.Some? then [item.value] else []
    {
      var empty := q.Empty();
      if empty {
        return None;
      }
      var first := q.PopFront();
      item := Some(first);
    }
  }
}
