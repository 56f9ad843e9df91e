/**
 The arbitrage office: include/BusinessOffice.h, src/BusinessOffice.cpp and the order and report
 handlers of src/FIXTradeOffice.cpp. Rings are sequences of published events; clock readings, polled
 events and random ids are inputs.
 */
module Office {
  const CORRECTION_ID: nat := 99699
  const NO_BID: real := -99.0
  const NO_ASK: real := 99.0

  datatype Broker = NoBroker | Lmax | Ib | Fastmatch
  datatype Side = NoSide | Buy | Sell
  datatype OrderType = NoType | Limit | Market
  datatype Difference = NoDiff | DiffA | DiffB

  datatype PriceEvent = PriceEvent(broker: Broker, bid: real, ask: real, sequence: int)
  datatype OrderEvent = OrderEvent(broker: Broker, order: OrderType, side: Side, price: real, id: nat)
  datatype ExecutionEvent = ExecutionEvent(broker: Broker, side: Side, isFilled: bool, id: nat)

  datatype Settings = Settings(orderDelay: int, maxOrders: int, diffOpen: real, diffClose: real)

  datatype Desk = Desk(
    priceA: PriceEvent,
    priceB: PriceEvent,
    ordersCount: int,
    currentDiff: Difference,
    isDelayed: bool,
    lastOrderTime: int)

  function OnPrice(d: Desk, e: PriceEvent): Desk {
    match e.broker
    case Lmax => d.(priceA := e)
    case Ib => d.(priceB := e)
    case _ => d
  }

  function OnPrices(d: Desk, es: seq<PriceEvent>): Desk
    decreases es
  {
    if es == [] then d else OnPrices(OnPrice(d, es[0]), es[1..])
  }

  /** The change of the order count, and the correction order published, if any. */
  function OnExecution(e: ExecutionEvent): (int, seq<OrderEvent>) {
    if e.isFilled && e.id != CORRECTION_ID then (1, [])
    else if e.isFilled then (-1, [])
    else if e.id == CORRECTION_ID then (0, [])
    else (0, [OrderEvent(if e.broker == Ib then Lmax else Ib, Market, e.side, 0.0, CORRECTION_ID)])
  }

  function OnExecutions(es: seq<ExecutionEvent>): (int, seq<OrderEvent>) {
    if es == [] then (0, [])
    else
      var first, rest := OnExecution(es[0]), OnExecutions(es[1..]);
      (first.0 + rest.0, first.1 + rest.1)
  }

  datatype Trigger = NoTrigger | Open(diff: Difference) | Close(diff: Difference)

  /** The decision for an even order count outside the delay. */
  function Decide(c: Settings, d: Desk): (t: Trigger)
    ensures t.NoTrigger? || t.diff != NoDiff
  {
    var canOpen := d.ordersCount < c.maxOrders;
    var diffA, diffB := d.priceA.bid - d.priceB.ask, d.priceB.bid - d.priceA.ask;
    match d.currentDiff
    case DiffA =>
      if canOpen && diffA >= c.diffOpen then Open(DiffA)
      else if diffB >= c.diffClose then Close(DiffB) else NoTrigger
    case DiffB =>
      if canOpen && diffB >= c.diffOpen then Open(DiffB)
      else if diffA >= c.diffClose then Close(DiffA) else NoTrigger
    case NoDiff =>
      if diffA >= c.diffOpen then Open(DiffA)
      else if diffB >= c.diffOpen then Open(DiffB) else NoTrigger
  }

  /** The two orders of a pair. */
  function PairFor(d: Desk, diff: Difference, id: nat): seq<OrderEvent> {
    if diff == DiffA then
      [ OrderEvent(d.priceA.broker, Market, Sell, d.priceA.bid, id)
      , OrderEvent(d.priceB.broker, Market, Buy, d.priceB.ask, id) ]
    else
      [ OrderEvent(d.priceA.broker, Market, Buy, d.priceA.ask, id)
      , OrderEvent(d.priceB.broker, Market, Sell, d.priceB.bid, id) ]
  }

  function Cleared(e: PriceEvent): PriceEvent {
    e.(bid := NO_BID, ask := NO_ASK)
  }

  /** One call of `doWork`: events polled, clock reading at the delay check, id drawn, clock reading after emission. */
  datatype Round = Round(prices: seq<PriceEvent>, execs: seq<ExecutionEvent>, now: int, id: nat, emitted: int)

  /** The desk after the polled events have been handled. */
  function Fed(d: Desk, r: Round): Desk {
    var d1 := OnPrices(d, r.prices);
    d1.(ordersCount := d1.ordersCount + OnExecutions(r.execs).0)
  }

  predicate Delayed(c: Settings, d: Desk, now: int) {
    d.isDelayed && now - d.lastOrderTime < c.orderDelay
  }

  /** The desk as it is when the decision is taken. */
  function Ready(d: Desk): Desk {
    d.(isDelayed := false, currentDiff := if d.ordersCount == 0 then NoDiff else d.currentDiff)
  }

  function TriggerOf(c: Settings, d: Desk, r: Round): Trigger {
    var d1 := Fed(d, r);
    if Delayed(c, d1, r.now) || d1.ordersCount % 2 != 0 then NoTrigger else Decide(c, Ready(d1))
  }

  function DoWork(c: Settings, d: Desk, r: Round): (Desk, seq<OrderEvent>) {
    var d1, corrections := Fed(d, r), OnExecutions(r.execs).1;
    if Delayed(c, d1, r.now) then (d1, corrections)
    else
      var d2, t := Ready(d1), TriggerOf(c, d, r);
      if t.NoTrigger? then (d2, corrections)
      else
        var d3 := d2.(
          currentDiff := if d2.currentDiff == NoDiff then t.diff else d2.currentDiff,
          priceA := Cleared(d2.priceA), priceB := Cleared(d2.priceB),
          lastOrderTime := r.emitted, isDelayed := true);
        (d3, corrections + PairFor(d2, t.diff, r.id))
  }

  /** Placeholder quotes on both sides. */
  function NewDesk(ordersCount: int, currentDiff: Difference, now: int): Desk {
    Desk(PriceEvent(NoBroker, NO_BID, NO_ASK, 0), PriceEvent(NoBroker, NO_BID, NO_ASK, 0),
         ordersCount, currentDiff, false, now)
  }

  class BusinessOffice {
    const settings: Settings
    var priceA: PriceEvent
    var priceB: PriceEvent
    var ordersCount: int
    var currentDiff: Difference
    var currentOrder: Difference
    var isOrderDelayed: bool
    var lastOrderTime: int
    /** Everything published to the order ring. */
    var orderRing: seq<OrderEvent>

    ghost function State(): Desk
      reads this
    {
      Desk(priceA, priceB, ordersCount, currentDiff, isOrderDelayed, lastOrderTime)
    }

    constructor (settings: Settings, ordersCount: int, currentDiff: Difference, now: int)
      ensures this.settings == settings && currentOrder == NoDiff && orderRing == []
      ensures State() == NewDesk(ordersCount, currentDiff, now)
    {
      this.settings := settings;
      priceA, priceB := PriceEvent(NoBroker, NO_BID, NO_ASK, 0), PriceEvent(NoBroker, NO_BID, NO_ASK, 0);
      this.ordersCount, this.currentDiff, currentOrder := ordersCount, currentDiff, NoDiff;
      isOrderDelayed, lastOrderTime, orderRing := false, now, [];
    }

    method HandlePrice(e: PriceEvent)
      modifies this`priceA, this`priceB
      ensures State() == OnPrice(old(State()), e)
    {
      match e.broker {
        case Lmax => priceA := e;
        case Ib => priceB := e;
        case _ =>
      }
    }

    method HandleExecution(e: ExecutionEvent)
      modifies this`ordersCount, this`orderRing
      ensures State() == old(State()).(ordersCount := old(ordersCount) + OnExecution(e).0)
      ensures orderRing == old(orderRing) + OnExecution(e).1
    {
      assert orderRing + [] == orderRing;
      if e.isFilled && e.id != CORRECTION_ID {
        ordersCount := ordersCount + 1;
        return;
      }
      if e.isFilled && e.id == CORRECTION_ID {
        ordersCount := ordersCount - 1;
        return;
      }
      if e.id == CORRECTION_ID {
        return;
      }
      orderRing := orderRing + [OrderEvent(if e.broker == Ib then Lmax else Ib, Market, e.side, 0.0, CORRECTION_ID)];
    }

    method PollEvents(r: Round)
      modifies this`priceA, this`priceB, this`ordersCount, this`orderRing
      ensures State() == Fed(old(State()), r)
      ensures orderRing == old(orderRing) + OnExecutions(r.execs).1
    {
      PollPrices(r.prices);
      PollExecutions(r.execs);
    }

    method PollPrices(es: seq<PriceEvent>)
      modifies this`priceA, this`priceB
      ensures State() == OnPrices(old(State()), es)
    {
      hide OnPrice;
      var i := 0;
      assert es[0..] == es;
      while i < |es|
        invariant 0 <= i <= |es| && OnPrices(State(), es[i..]) == OnPrices(old(State()), es)
      {
        HandlePrice(es[i]);
        assert es[i..][1..] == es[i + 1..];
        i := i + 1;
      }
    }

    method PollExecutions(es: seq<ExecutionEvent>)
      modifies this`ordersCount, this`orderRing
      ensures State() == old(State()).(ordersCount := old(ordersCount) + OnExecutions(es).0)
      ensures orderRing == old(orderRing) + OnExecutions(es).1
    {
      hide OnExecution;
      var i := 0;
      assert es[0..] == es;
      while i < |es|
        invariant 0 <= i <= |es|
        invariant ordersCount + OnExecutions(es[i..]).0 == old(ordersCount) + OnExecutions(es).0
        invariant orderRing + OnExecutions(es[i..]).1 == old(orderRing) + OnExecutions(es).1
      {
        assert es[i..][1..] == es[i + 1..];
        ghost var was, now, rest := orderRing, OnExecution(es[i]).1, OnExecutions(es[i + 1..]).1;
        HandleExecution(es[i]);
        assert was + (now + rest) == orderRing + rest;
        i := i + 1;
      }
      assert orderRing + [] == orderRing;
    }

    method Work(r: Round)
      requires currentOrder == NoDiff
      modifies this
      ensures currentOrder == NoDiff
      ensures State() == DoWork(settings, old(State()), r).0
      ensures orderRing == old(orderRing) + DoWork(settings, old(State()), r).1
    {
      hide OnPrices, OnExecutions, Decide;
      ghost var d, before := State(), orderRing;
      PollEvents(r);
      assert State() == Fed(d, r);
      if isOrderDelayed && r.now - lastOrderTime < settings.orderDelay {
        return;
      }
      isOrderDelayed := false;
      if ordersCount == 0 {
        currentDiff := NoDiff;
      }
      if ordersCount % 2 != 0 {
        return;
      }
      ghost var d2 := State();
      assert d2 == Ready(Fed(d, r)) && TriggerOf(settings, d, r) == Decide(settings, d2);
      Choose();
      if currentOrder == NoDiff {
        return;
      }
      Emit(r.id);
      assert orderRing == before + OnExecutions(r.execs).1 + PairFor(d2, currentOrder, r.id);
      currentOrder := NoDiff;
      priceA := priceA.(bid := NO_BID, ask := NO_ASK);
      priceB := priceB.(bid := NO_BID, ask := NO_ASK);
      lastOrderTime := r.emitted;
      isOrderDelayed := true;
    }

    method Choose()
      requires currentOrder == NoDiff
      modifies this`currentDiff, this`currentOrder
      ensures var t := Decide(settings, old(State()));
        if t.NoTrigger? then currentOrder == NoDiff && currentDiff == old(currentDiff)
        else currentOrder == t.diff && currentDiff == if old(currentDiff) == NoDiff then t.diff else old(currentDiff)
    {
      var canOpen := ordersCount < settings.maxOrders;
      var diffA := priceA.bid - priceB.ask;
      var diffB := priceB.bid - priceA.ask;
      match currentDiff {
        case DiffA =>
          if canOpen && diffA >= settings.diffOpen {
            currentOrder := DiffA;
          } else if diffB >= settings.diffClose {
            currentOrder := DiffB;
          }
        case DiffB =>
          if canOpen && diffB >= settings.diffOpen {
            currentOrder := DiffB;
          } else if diffA >= settings.diffClose {
            currentOrder := DiffA;
          }
        case NoDiff =>
          if diffA >= settings.diffOpen {
            currentDiff, currentOrder := DiffA, DiffA;
          } else if diffB >= settings.diffOpen {
            currentDiff, currentOrder := DiffB, DiffB;
          }
      }
    }

    method Emit(id: nat)
      requires currentOrder != NoDiff
      modifies this`orderRing
      ensures orderRing == old(orderRing) + PairFor(State(), currentOrder, id)
    {
      if currentOrder == DiffA {
        orderRing := orderRing + [OrderEvent(priceA.broker, Market, Sell, priceA.bid, id)];
        orderRing := orderRing + [OrderEvent(priceB.broker, Market, Buy, priceB.ask, id)];
      } else {
        orderRing := orderRing + [OrderEvent(priceA.broker, Market, Buy, priceA.ask, id)];
        orderRing := orderRing + [OrderEvent(priceB.broker, Market, Sell, priceB.bid, id)];
      }
    }
  }
}
