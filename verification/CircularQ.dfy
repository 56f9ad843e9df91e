/** The bounded queue of include/spdlog/details/circular_q.h. */
module CircularQueue {
  /** Appending to a queue of at most `cap` items: the oldest goes when there is no room. */
  function Pushed<T>(q: seq<T>, x: T, cap: nat): seq<T> {
    if |q| < cap then q + [x] else (q + [x])[1..]
  }

  lemma NextCell(i: nat, n: nat)
    requires i < n
    ensures (i + 1) % n == if i + 1 == n then 0 else i + 1
  {
  }

  /** The items from `head` up to `tail`, round the end. */
  function Ring<T>(v: seq<T>, head: nat, tail: nat): seq<T>
    requires head <= |v| && tail <= |v|
  {
    if head <= tail then v[head..tail] else v[head..] + v[..tail]
  }

  /** Writing behind the last item appends it; with no free cell left the ring is a full lap. */
  lemma RingAppend<T>(v: seq<T>, head: nat, tail: nat, x: T)
    requires head < |v| && tail < |v|
    ensures var w, next, q := v[tail := x], if tail + 1 == |v| then 0 else tail + 1, Ring(v, head, tail);
      && |q| < |v| && (next == head <==> |q| == |v| - 1)
      && (if next == head then w[head..] + w[..head] else Ring(w, head, next)) == q + [x]
  {
  }

  /** Dropping the first item of a full lap. */
  lemma RingNext<T>(v: seq<T>, head: nat)
    requires head < |v|
    ensures Ring(v, if head + 1 == |v| then 0 else head + 1, head) == (v[head..] + v[..head])[1..]
  {
  }

  class CircularQ<T(0)> {
    /** One cell more than the capacity: the free cell tells full from empty. */
    const maxItems: nat
    var head: nat
    var tail: nat
    const v: array<T>
    var overrunCounter: nat

    ghost predicate Valid()
      reads this
    {
      maxItems > 0 && v.Length == maxItems && head < maxItems && tail < maxItems
    }

    ghost function Contents(): seq<T>
      requires Valid()
      reads this, v
    {
      Ring(v[..], head, tail)
    }

    constructor (maxItems: nat)
      ensures Valid() && fresh(v) && Contents() == [] && overrunCounter == 0 && this.maxItems == maxItems + 1
    {
      this.maxItems := maxItems + 1;
      v := new T[maxItems + 1];
      head, tail, overrunCounter := 0, 0, 0;
    }

    method PushBack(item: T)
      requires Valid()
      modifies this`head, this`tail, this`overrunCounter, v
      ensures Valid()
      ensures Contents() == Pushed(old(Contents()), item, maxItems - 1)
      ensures overrunCounter == old(overrunCounter) + if |old(Contents())| < maxItems - 1 then 0 else 1
    {
      hide Ring;
      RingAppend(v[..], head, tail, item);
      RingNext(v[..][tail := item], head);
      NextCell(tail, maxItems);
      NextCell(head, maxItems);
      v[tail] := item;
      assert v[..] == old(v[..])[old(tail) := item];
      tail := (tail + 1) % maxItems;
      if tail == head {
        head := (head + 1) % maxItems;
        overrunCounter := overrunCounter + 1;
      }
    }

    method PopFront() returns (item: T)
      requires Valid() && Contents() != []
      modifies this`head
      ensures Valid() && item == old(Contents())[0] && Contents() == old(Contents())[1..]
    {
      NextCell(head, maxItems);
      item := v[head];
      head := (head + 1) % maxItems;
    }

    method Empty() returns (b: bool)
      requires Valid()
      ensures b <==> Contents() == []
    {
      b := tail == head;
    }

    method Full() returns (b: bool)
      requires Valid()
      ensures b <==> |Contents()| == maxItems - 1
    {
      NextCell(tail, maxItems);
      b := (tail + 1) % maxItems == head;
    }
  }

  // ---- runs of pushes and guarded pops

  datatype QueueOp<T> = Push(x: T) | Pop

  /** The sequence the array stands for, what was popped, and how many items were overrun. */
  datatype Ledger<T> = Ledger(held: seq<T>, popped: seq<T>, overruns: nat)

  function Apply<T>(s: Ledger<T>, op: QueueOp<T>, cap: nat): Ledger<T> {
    match op
    case Push(x) => Ledger(Pushed(s.held, x, cap), s.popped, s.overruns + if |s.held| < cap then 0 else 1)
    case Pop => if s.held == [] then s else Ledger(s.held[1..], s.popped + [s.held[0]], s.overruns)
  }

  function ApplyAll<T>(s: Ledger<T>, ops: seq<QueueOp<T>>, cap: nat): Ledger<T> {
    if ops == [] then s else Apply(ApplyAll(s, ops[..|ops| - 1], cap), ops[|ops| - 1], cap)
  }

  function AllPushed<T>(ops: seq<QueueOp<T>>): seq<T> {
    if ops == [] then []
    else AllPushed(ops[..|ops| - 1]) + match ops[|ops| - 1] case Push(x) => [x] case Pop => []
  }

  /** Pushed items equal popped plus held plus overrun; the held ones are the latest pushed, never more than fit. */
  lemma {:induction false} NothingElseIsLost<T>(ops: seq<QueueOp<T>>, cap: nat)
    ensures var s, all := ApplyAll(Ledger([], [], 0), ops, cap), AllPushed(ops);
      && |all| == |s.popped| + |s.held| + s.overruns
      && |s.held| <= cap && s.held == all[|all| - |s.held|..]
  {
    if ops != [] {
      NothingElseIsLost(ops[..|ops| - 1], cap);
    }
  }

  /** As long as nothing was overrun, items come out exactly in the order they went in. */
  lemma {:induction false} FifoWithoutOverrun<T>(ops: seq<QueueOp<T>>, cap: nat)
    ensures var s := ApplyAll(Ledger([], [], 0), ops, cap);
      s.overruns == 0 ==> s.popped + s.held == AllPushed(ops)
  {
    if ops != [] {
      FifoWithoutOverrun(ops[..|ops| - 1], cap);
    }
  }
}
