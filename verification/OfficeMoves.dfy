/** What each call of the office does to its quotes, order count and direction, and what it publishes. */
module OfficeMoves {
  import opened Office
  import opened OfficePairs

  // ---- what the polled events leave

  /** The last event of `b`, or `was`. */
  function LastQuote(b: Broker, es: seq<PriceEvent>, was: PriceEvent): PriceEvent {
    if es == [] then was
    else if es[|es| - 1].broker == b then es[|es| - 1]
    else LastQuote(b, es[..|es| - 1], was)
  }

  lemma {:induction false} QuotesAreLast(d: Desk, es: seq<PriceEvent>)
    ensures OnPrices(d, es) == d.(priceA := LastQuote(Lmax, es, d.priceA), priceB := LastQuote(Ib, es, d.priceB))
  {
    if es != [] {
      var front, last := es[..|es| - 1], es[|es| - 1];
      QuotesAreLast(d, front);
      PricesSnoc(d, front, last);
      assert es == front + [last];
    }
  }

  lemma {:induction false} PricesSnoc(d: Desk, es: seq<PriceEvent>, e: PriceEvent)
    ensures OnPrices(d, es + [e]) == OnPrice(OnPrices(d, es), e)
    decreases es
  {
    hide OnPrice;
    if es == [] {
      assert [] + [e] == [e] && [e][1..] == [];
    } else {
      assert (es + [e])[1..] == es[1..] + [e];
      PricesSnoc(OnPrice(d, es[0]), es[1..], e);
    }
  }

  /** Executed orders, of the office's own kind or corrections. */
  function FilledOf(es: seq<ExecutionEvent>, correction: bool): nat {
    if es == [] then 0
    else
      var e := es[|es| - 1];
      FilledOf(es[..|es| - 1], correction) + if e.isFilled && (e.id == 99699) == correction then 1 else 0
  }

  /** The orders refused that are not corrections. */
  function Refused(es: seq<ExecutionEvent>): seq<ExecutionEvent> {
    if es == [] then []
    else
      var e := es[|es| - 1];
      Refused(es[..|es| - 1]) + if !e.isFilled && e.id != 99699 then [e] else []
  }

  /** A market order of the same side at the other of the two brokers, without a price. */
  function CorrectionOf(e: ExecutionEvent): OrderEvent {
    OrderEvent(if e.broker == Ib then Lmax else Ib, Market, e.side, 0.0, 99699)
  }

  lemma {:induction false} ExecutionsSnoc(es: seq<ExecutionEvent>, e: ExecutionEvent)
    ensures var all, front := OnExecutions(es + [e]), OnExecutions(es);
      all == (front.0 + OnExecution(e).0, front.1 + OnExecution(e).1)
  {
    hide OnExecution;
    if es == [] {
      assert [] + [e] == [e] && [e][1..] == [];
      assert OnExecution(e).1 + [] == OnExecution(e).1 == [] + OnExecution(e).1;
    } else {
      assert (es + [e])[1..] == es[1..] + [e];
      ExecutionsSnoc(es[1..], e);
      var x, y, z := OnExecution(es[0]).1, OnExecutions(es[1..]).1, OnExecution(e).1;
      assert x + (y + z) == (x + y) + z;
    }
  }

  /** The count follows the executed orders; exactly the refused orders that are not corrections are corrected. */
  lemma {:induction false} CountAndCorrections(es: seq<ExecutionEvent>)
    ensures var (count, orders) := OnExecutions(es);
      && count == FilledOf(es, false) - FilledOf(es, true)
      && |orders| == |Refused(es)| && forall i :: 0 <= i < |orders| ==> orders[i] == CorrectionOf(Refused(es)[i])
  {
    if es != [] {
      var front, e := es[..|es| - 1], es[|es| - 1];
      CountAndCorrections(front);
      ExecutionsSnoc(front, e);
      assert es == front + [e];
    }
  }

  // ---- one call

  /** The two orders that sell at one broker's bid and buy at the other's ask; the order to Lmax comes first. */
  predicate SellsAndBuys(pair: seq<OrderEvent>, a: PriceEvent, b: PriceEvent, diff: Difference, id: nat) {
    pair ==
      if diff == DiffA then
        [OrderEvent(a.broker, Market, Sell, a.bid, id), OrderEvent(b.broker, Market, Buy, b.ask, id)]
      else
        [OrderEvent(a.broker, Market, Buy, a.ask, id), OrderEvent(b.broker, Market, Sell, b.bid, id)]
  }

  /** The rules for a pair in direction `diff`, at `count` orders and with the direction `was`. */
  predicate MayTrade(c: Settings, a: PriceEvent, b: PriceEvent, count: int, was: Difference, diff: Difference) {
    var marginA, marginB := a.bid - b.ask, b.bid - a.ask;
    if count == 0 || was == NoDiff then
      if diff == DiffA then marginA >= c.diffOpen else marginA < c.diffOpen && marginB >= c.diffOpen
    else if was == DiffA then
      if diff == DiffA then count < c.maxOrders && marginA >= c.diffOpen
      else !(count < c.maxOrders && marginA >= c.diffOpen) && marginB >= c.diffClose
    else
      if diff == DiffB then count < c.maxOrders && marginB >= c.diffOpen
      else !(count < c.maxOrders && marginB >= c.diffOpen) && marginA >= c.diffClose
  }

  /** The direction held once count and previous direction are known: none at count 0. */
  function Held(count: int, was: Difference): Difference {
    if count == 0 then NoDiff else was
  }

  /**
   One call, from the desk before it to the desk after it and the orders it publishes. What comes first are the
   corrections; a pair follows exactly when no delay is on, the count is even and one of the two directions may
   be traded.
   */
  ghost predicate Moves(c: Settings, d: Desk, r: Round, after: Desk, orders: seq<OrderEvent>) {
    var a, b := LastQuote(Lmax, r.prices, d.priceA), LastQuote(Ib, r.prices, d.priceB);
    var count := d.ordersCount + FilledOf(r.execs, false) - FilledOf(r.execs, true);
    var k := |Refused(r.execs)|;
    var delayed := d.isDelayed && r.now - d.lastOrderTime < c.orderDelay;
    && after.ordersCount == count
    && k <= |orders| && (forall i :: 0 <= i < k ==> orders[i] == CorrectionOf(Refused(r.execs)[i]))
    && var pair := orders[k..];
       if pair == [] then
         && (!delayed && count % 2 == 0 ==>
              forall diff :: diff != NoDiff ==> !MayTrade(c, a, b, count, d.currentDiff, diff))
         && after == d.(priceA := a, priceB := b, ordersCount := count, isDelayed := delayed,
              currentDiff := if delayed then d.currentDiff else Held(count, d.currentDiff))
       else
         && !delayed && count % 2 == 0
         && exists diff :: diff != NoDiff
              && MayTrade(c, a, b, count, d.currentDiff, diff) && SellsAndBuys(pair, a, b, diff, r.id)
              && after == Desk(a.(bid := -99.0, ask := 99.0), b.(bid := -99.0, ask := 99.0), count,
                   if Held(count, d.currentDiff) == NoDiff then diff else d.currentDiff, true, r.emitted)
  }

  /** Every call of the office moves so, whatever its desk. */
  lemma WorkMoves(c: Settings, d: Desk, r: Round)
    ensures var (after, orders) := DoWork(c, d, r); Moves(c, d, r, after, orders)
  {
    hide OnPrices, OnExecutions, LastQuote, FilledOf, Refused, CorrectionOf;
    QuotesAreLast(d, r.prices);
    CountAndCorrections(r.execs);
    var (after, orders) := DoWork(c, d, r);
    var t := TriggerOf(c, d, r);
    var corrections := OnExecutions(r.execs).1;
    if t.NoTrigger? {
      assert orders[|corrections|..] == [];
    } else {
      assert orders[|corrections|..] == PairFor(Ready(Fed(d, r)), t.diff, r.id);
      assert SellsAndBuys(orders[|corrections|..], Fed(d, r).priceA, Fed(d, r).priceB, t.diff, r.id);
    }
  }

  // ---- every run

  /** The desk after the calls `rs`. */
  function DeskAfter(c: Settings, d: Desk, rs: seq<Round>): Desk {
    if rs == [] then d else DoWork(c, DeskAfter(c, d, rs[..|rs| - 1]), rs[|rs| - 1]).0
  }

  /** In every run of an office each call moves so, from what the calls before it left. */
  lemma EveryCallMoves(c: Settings, d: Desk, rs: seq<Round>, k: nat)
    requires k < |rs|
    ensures var before := DeskAfter(c, d, rs[..k]);
      Moves(c, before, rs[k], DeskAfter(c, d, rs[..k + 1]), DoWork(c, before, rs[k]).1)
  {
    hide DoWork, Moves;
    assert rs[..k + 1][..k] == rs[..k];
    WorkMoves(c, DeskAfter(c, d, rs[..k]), rs[k]);
  }

  /** A pair published at count 0 has the open margin, and its direction is held from then on. */
  lemma PairAtZero(c: Settings, d: Desk, r: Round)
    requires d.ordersCount + FilledOf(r.execs, false) == FilledOf(r.execs, true)
    ensures var (after, orders), k := DoWork(c, d, r), |Refused(r.execs)|;
      && k <= |orders|
      && var a, b := LastQuote(Lmax, r.prices, d.priceA), LastQuote(Ib, r.prices, d.priceB);
         orders[k..] != [] ==>
           && after.currentDiff != NoDiff && SellsAndBuys(orders[k..], a, b, after.currentDiff, r.id)
           && (if after.currentDiff == DiffA then a.bid - b.ask else b.bid - a.ask) >= c.diffOpen
  {
    hide DoWork, LastQuote, FilledOf, Refused, CorrectionOf;
    WorkMoves(c, d, r);
  }
}
