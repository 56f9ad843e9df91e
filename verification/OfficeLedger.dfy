/**
 The office, the two trade offices and the exchanges together: what is bought and sold across the two
 brokers cancels out, counting orders on their way and corrections that failed.
 */
module OfficeLedger {
  import opened Office
  import opened OfficePairs
  import opened TradeOffices
  import opened Options
  import opened Atoi
  import Decimal

  /** An order an exchange has accepted and not yet finished, and the part of it executed so far. */
  datatype OpenOrder = OpenOrder(broker: Broker, order: NewOrder, executed: real)

  /** What the trade office of `broker` puts on the market for an event; events for other brokers are skipped. */
  function OnOrder(broker: Broker, e: OrderEvent): seq<OpenOrder> {
    if e.broker == broker && OrderFor(e) != [] then [OpenOrder(broker, OrderFor(e)[0], 0.0)] else []
  }

  /**
   Each trade office reads the order ring at its own pace; the office reads the execution ring. `filledA` and
   `filledB` are the signed quantities executed; `stranded` is what had been executed of orders that were then
   refused or cancelled, and which the office corrects as if nothing had been; `late` counts, with their sign,
   refusals reported of orders that were finished already.
   */
  datatype World = World(
    watch: Watched,
    unreadA: seq<OrderEvent>,
    unreadB: seq<OrderEvent>,
    open: seq<OpenOrder>,
    execs: seq<ExecutionEvent>,
    filledA: real,
    filledB: real,
    failed: int,
    stranded: real,
    late: int)

  /**
   An exchange reports on an open order, where `part` is the quantity executed by a report that does not finish
   it, or, late, on an order that is not open any more.
   */
  datatype Step =
    | Office(r: Round)
    | TradeA
    | TradeB
    | Exchange(i: nat, execType: char, ordStatus: char, part: real)
    | Late(broker: Broker, report: Report)

  function Sign(s: Side): int {
    match s case Buy => 1 case Sell => -1 case NoSide => 0
  }

  /** A quantity with the sign of an order. */
  function Signed(o: NewOrder, quantity: real): real {
    if o.side == SIDE_BUY then quantity else -quantity
  }

  predicate Enabled(c: Settings, w: World, st: Step) {
    match st
    case Office(r) => GoodRound(r) && r.id < TWO_64 && w.watch.clock <= r.now && r.execs <= w.execs
    case TradeA => w.unreadA != []
    case TradeB => w.unreadB != []
    case Exchange(i, _, _, part) => i < |w.open| && part >= 0.0 && w.open[i].executed + part <= 1.0
    case Late(_, r) => Stoul(r.clOrdId).Some?
  }

  /** Corrections the office gave up on among the events it handles. */
  function FailedIn(es: seq<ExecutionEvent>): int {
    if es == [] then 0
    else (if !es[0].isFilled && es[0].id == CORRECTION_ID then Sign(es[0].side) else 0) + FailedIn(es[1..])
  }

  function Do(c: Settings, w: World, st: Step): World
    requires Enabled(c, w, st)
  {
    match st
    case Office(r) =>
      var orders := DoWork(c, w.watch.desk, r).1;
      w.(watch := Watch(c, w.watch, r), unreadA := w.unreadA + orders, unreadB := w.unreadB + orders,
         execs := w.execs[|r.execs|..], failed := w.failed + FailedIn(r.execs))
    case TradeA => w.(unreadA := w.unreadA[1..], open := w.open + OnOrder(Lmax, w.unreadA[0]))
    case TradeB => w.(unreadB := w.unreadB[1..], open := w.open + OnOrder(Ib, w.unreadB[0]))
    case Exchange(i, execType, ordStatus, part) =>
      var o := w.open[i];
      var r := Report(execType, ordStatus, o.order.side, o.order.clOrdId);
      var without, es := w.open[..i] + w.open[i + 1..], OnReport(o.broker, r);
      if IsFill(r) then Executed(w.(open := without, execs := w.execs + es), o, 1.0 - o.executed)
      else if IsRefusal(r) then
        w.(open := without, execs := w.execs + es, stranded := w.stranded + Signed(o.order, o.executed))
      else Executed(w.(open := w.open[i := o.(executed := o.executed + part)]), o, part)
    case Late(b, r) =>
      w.(execs := w.execs + OnReport(b, r),
         late := w.late + if IsRefusal(r) then (if r.side == SIDE_BUY then 1 else -1) else 0)
  }

  function Executed(w: World, o: OpenOrder, quantity: real): World {
    var q := Signed(o.order, quantity);
    if o.broker == Lmax then w.(filledA := w.filledA + q) else w.(filledB := w.filledB + q)
  }

  // ---- signed quantities

  function NetOrders(b: Broker, es: seq<OrderEvent>): int {
    if es == [] then 0 else (if es[0].broker == b then Sign(es[0].side) else 0) + NetOrders(b, es[1..])
  }

  /** What is still to be executed. */
  function NetOpen(os: seq<OpenOrder>): real {
    if os == [] then 0.0 else Signed(os[0].order, 1.0 - os[0].executed) + NetOpen(os[1..])
  }

  /** Orders that came back unfilled and that the office has not seen yet. */
  function NetRejected(es: seq<ExecutionEvent>): int {
    if es == [] then 0 else (if es[0].isFilled then 0 else Sign(es[0].side)) + NetRejected(es[1..])
  }

  /** Orders of the office refused at Ib, or elsewhere. */
  function RefusedAt(atIb: bool, es: seq<ExecutionEvent>): int {
    if es == [] then 0
    else
      (if !es[0].isFilled && es[0].id != CORRECTION_ID && (es[0].broker == Ib) == atIb then Sign(es[0].side) else 0)
      + RefusedAt(atIb, es[1..])
  }

  function Net(w: World): real {
    w.filledA + w.filledB - w.stranded + NetOpen(w.open)
    + (NetOrders(Lmax, w.unreadA) + NetOrders(Ib, w.unreadB) + NetRejected(w.execs) + w.failed - w.late) as real
  }

  /** A market order with a side, as everything the office publishes. */
  predicate Orderly(e: OrderEvent) {
    e.order == Market && (e.side == Buy || e.side == Sell) && e.id < TWO_64
  }

  predicate WorldOk(c: Settings, w: World) {
    && WatchOk(c, w.watch)
    && (forall i :: 0 <= i < |w.open| ==> Stoul(w.open[i].order.clOrdId).Some?)
    && (forall i :: 0 <= i < |w.execs| ==> w.execs[i].side == Buy || w.execs[i].side == Sell)
    && (forall i :: 0 <= i < |w.unreadA| ==> Orderly(w.unreadA[i]))
    && (forall i :: 0 <= i < |w.unreadB| ==> Orderly(w.unreadB[i]))
  }

  lemma {:induction false} NetOrdersConcat(b: Broker, s: seq<OrderEvent>, t: seq<OrderEvent>)
    ensures NetOrders(b, s + t) == NetOrders(b, s) + NetOrders(b, t)
  {
    if s == [] {
      assert s + t == t;
    } else {
      NetOrdersConcat(b, s[1..], t);
      assert (s + t)[1..] == s[1..] + t;
    }
  }

  lemma {:induction false} NetOpenConcat(s: seq<OpenOrder>, t: seq<OpenOrder>)
    ensures NetOpen(s + t) == NetOpen(s) + NetOpen(t)
  {
    if s == [] {
      assert s + t == t;
    } else {
      NetOpenConcat(s[1..], t);
      assert (s + t)[1..] == s[1..] + t;
    }
  }

  lemma {:induction false} NetRejectedConcat(s: seq<ExecutionEvent>, t: seq<ExecutionEvent>)
    ensures NetRejected(s + t) == NetRejected(s) + NetRejected(t)
  {
    if s == [] {
      assert s + t == t;
    } else {
      NetRejectedConcat(s[1..], t);
      assert (s + t)[1..] == s[1..] + t;
    }
  }

  lemma NetOpenRemove(os: seq<OpenOrder>, i: nat)
    requires i < |os|
    ensures NetOpen(os[..i] + os[i + 1..]) == NetOpen(os) - Signed(os[i].order, 1.0 - os[i].executed)
  {
    var l, r := os[..i], os[i + 1..];
    var tail := [os[i]] + r;
    assert os == l + tail && tail[1..] == r;
    NetOpenConcat(l, tail);
    NetOpenConcat(l, r);
  }

  lemma NetOpenUpdate(os: seq<OpenOrder>, i: nat, part: real)
    requires i < |os|
    ensures NetOpen(os[i := os[i].(executed := os[i].executed + part)]) == NetOpen(os) - Signed(os[i].order, part)
  {
    var o := os[i].(executed := os[i].executed + part);
    var os' := os[i := o];
    NetOpenRemove(os, i);
    NetOpenRemove(os', i);
    assert os'[..i] + os'[i + 1..] == os[..i] + os[i + 1..];
  }

  /** One event: a refused order becomes a correction at the other broker, a refused correction a failure. */
  lemma CorrectionOf(e: ExecutionEvent)
    requires e.side == Buy || e.side == Sell
    ensures var out := OnExecution(e).1;
      && NetOrders(Lmax, out) == RefusedAt(true, [e]) && NetOrders(Ib, out) == RefusedAt(false, [e])
      && NetRejected([e]) == RefusedAt(true, [e]) + RefusedAt(false, [e]) + FailedIn([e])
      && forall i :: 0 <= i < |out| ==> Orderly(out[i])
  {
    var out := OnExecution(e).1;
    assert |out| <= 1 && (|out| == 1 ==> out[1..] == []);
    assert [e][1..] == [];
    assert RefusedAt(true, []) == 0 && RefusedAt(false, []) == 0;
  }

  /**
   Over the events the office handles: what was refused at one broker is ordered, with the same sign, at the
   other, and what it cannot correct are exactly the refused corrections.
   */
  lemma {:induction false} CorrectionsBalance(es: seq<ExecutionEvent>)
    requires forall i :: 0 <= i < |es| ==> es[i].side == Buy || es[i].side == Sell
    ensures var out := OnExecutions(es).1;
      && NetOrders(Lmax, out) == RefusedAt(true, es) && NetOrders(Ib, out) == RefusedAt(false, es)
      && NetRejected(es) == RefusedAt(true, es) + RefusedAt(false, es) + FailedIn(es)
      && forall i :: 0 <= i < |out| ==> Orderly(out[i])
  {
    hide OnExecution;
    if es != [] {
      var rest := es[1..];
      assert forall i :: 0 <= i < |rest| ==> rest[i] == es[i + 1];
      CorrectionsBalance(rest);
      var a, b := OnExecution(es[0]).1, OnExecutions(rest).1;
      CorrectionOf(es[0]);
      assert [es[0]][1..] == [];
      NetOrdersConcat(Lmax, a, b);
      NetOrdersConcat(Ib, a, b);
    }
  }

  /** A pair adds nothing. */
  lemma PairBalances(c: Settings, t: Trigger, pair: seq<OrderEvent>, id: nat)
    requires PairOk(c, t, pair, id) && id < TWO_64
    ensures NetOrders(Lmax, pair) + NetOrders(Ib, pair) == 0
    ensures forall i :: 0 <= i < |pair| ==> Orderly(pair[i])
  {
    assert pair == [pair[0], pair[1]];
    NetOfTwo(Lmax, pair[0], pair[1]);
    NetOfTwo(Ib, pair[0], pair[1]);
  }

  lemma NetOfTwo(b: Broker, x: OrderEvent, y: OrderEvent)
    ensures NetOrders(b, [x, y]) ==
      (if x.broker == b then Sign(x.side) else 0) + (if y.broker == b then Sign(y.side) else 0)
  {
    assert [x, y][1..] == [y] && [y][1..] == [];
    assert NetOrders(b, [y]) == if y.broker == b then Sign(y.side) else 0;
  }

  /** What a round publishes makes up for the refusals it handles: by corrections, while the pair adds nothing. */
  lemma RoundBalances(c: Settings, w: Watched, r: Round)
    requires GoodSettings(c) && GoodRound(r) && WatchOk(c, w) && w.clock <= r.now && r.id < TWO_64
    requires forall i :: 0 <= i < |r.execs| ==> r.execs[i].side == Buy || r.execs[i].side == Sell
    ensures var orders := DoWork(c, w.desk, r).1;
      && NetOrders(Lmax, orders) + NetOrders(Ib, orders) + FailedIn(r.execs) == NetRejected(r.execs)
      && forall i :: 0 <= i < |orders| ==> Orderly(orders[i])
  {
    hide WatchOk, Watch, DoWork, OnExecutions, TriggerOf, Fed, Office.Ready, PairFor, PairOk, NetOrders;
    RoundOk(c, w, r);
    CorrectionsBalance(r.execs);
    var t := TriggerOf(c, w.desk, r);
    if !t.NoTrigger? {
      var pair, out := PairFor(Office.Ready(Fed(w.desk, r)), t.diff, r.id), OnExecutions(r.execs).1;
      PairBalances(c, t, pair, r.id);
      NetOrdersConcat(Lmax, out, pair);
      NetOrdersConcat(Ib, out, pair);
    }
  }

  lemma OfficeStep(c: Settings, w: World, r: Round)
    requires GoodSettings(c) && WorldOk(c, w) && Enabled(c, w, Step.Office(r))
    ensures var w' := Do(c, w, Step.Office(r)); WorldOk(c, w') && Net(w') == Net(w)
  {
    hide WatchOk, Watch, DoWork, GoodRound, NetOrders, NetOpen, RoundSafe, Orderly;
    RoundOk(c, w.watch, r);
    assert forall i :: 0 <= i < |r.execs| ==> r.execs[i] == w.execs[i];
    RoundBalances(c, w.watch, r);
    var orders := DoWork(c, w.watch.desk, r).1;
    NetOrdersConcat(Lmax, w.unreadA, orders);
    NetOrdersConcat(Ib, w.unreadB, orders);
    assert w.execs == r.execs + w.execs[|r.execs|..];
    NetRejectedConcat(r.execs, w.execs[|r.execs|..]);
  }

  lemma TradeStep(c: Settings, w: World, st: Step)
    requires WorldOk(c, w) && (st.TradeA? || st.TradeB?) && Enabled(c, w, st)
    ensures WorldOk(c, Do(c, w, st)) && Net(Do(c, w, st)) == Net(w)
  {
    hide WatchOk, Stoul;
    var b, e := if st.TradeA? then Lmax else Ib, if st.TradeA? then w.unreadA[0] else w.unreadB[0];
    NetOpenConcat(w.open, OnOrder(b, e));
    IdSurvives(e.id);
    assert OnOrder(b, e) != [] ==> OnOrder(b, e)[1..] == [];
  }

  /** A report that finishes an order: its event carries the order's sign. */
  lemma FinalStep(c: Settings, w: World, st: Step)
    requires WorldOk(c, w) && st.Exchange? && Enabled(c, w, st)
    requires var o := w.open[st.i].order; var r := Report(st.execType, st.ordStatus, o.side, o.clOrdId);
      IsFill(r) || IsRefusal(r)
    ensures WorldOk(c, Do(c, w, st)) && Net(Do(c, w, st)) == Net(w)
  {
    hide WatchOk, Stoul, NetOrders, NetOpen;
    var o := w.open[st.i];
    var es := OnReport(o.broker, Report(st.execType, st.ordStatus, o.order.side, o.order.clOrdId));
    NetOpenRemove(w.open, st.i);
    NetRejectedConcat(w.execs, es);
    assert |es| == 1 && es[1..] == [] && Sign(es[0].side) as real == Signed(o.order, 1.0);
  }

  lemma PartialStep(c: Settings, w: World, st: Step)
    requires WorldOk(c, w) && st.Exchange? && Enabled(c, w, st)
    requires var o := w.open[st.i].order; var r := Report(st.execType, st.ordStatus, o.side, o.clOrdId);
      !IsFill(r) && !IsRefusal(r)
    ensures WorldOk(c, Do(c, w, st)) && Net(Do(c, w, st)) == Net(w)
  {
    hide WatchOk, Stoul, NetOrders, NetRejected, NetOpen;
    NetOpenUpdate(w.open, st.i, st.part);
  }

  lemma ExchangeStep(c: Settings, w: World, st: Step)
    requires WorldOk(c, w) && st.Exchange? && Enabled(c, w, st)
    ensures WorldOk(c, Do(c, w, st)) && Net(Do(c, w, st)) == Net(w)
  {
    hide WorldOk, Net, Do;
    var o := w.open[st.i].order;
    var r := Report(st.execType, st.ordStatus, o.side, o.clOrdId);
    if IsFill(r) || IsRefusal(r) { FinalStep(c, w, st); } else { PartialStep(c, w, st); }
  }

  lemma LateStep(c: Settings, w: World, st: Step)
    requires WorldOk(c, w) && st.Late? && Enabled(c, w, st)
    ensures WorldOk(c, Do(c, w, st)) && Net(Do(c, w, st)) == Net(w)
  {
    hide WatchOk, Stoul, NetOrders, NetOpen;
    var es := OnReport(st.broker, st.report);
    NetRejectedConcat(w.execs, es);
    assert |es| <= 1 && (es != [] ==> es[1..] == []);
  }

  ghost predicate IsRun(c: Settings, w: World, sts: seq<Step>)
    decreases sts
  {
    sts == [] || (Enabled(c, w, sts[0]) && IsRun(c, Do(c, w, sts[0]), sts[1..]))
  }

  function After(c: Settings, w: World, sts: seq<Step>): World
    requires IsRun(c, w, sts)
    decreases sts
  {
    if sts == [] then w else After(c, Do(c, w, sts[0]), sts[1..])
  }

  /**
   Over every interleaving, partial executions and late reports included: executed quantity less what was
   stranded, quantity still to be executed, orders on their way, unseen refusals and failed corrections, less
   the late refusals, keep their signed sum.
   */
  lemma {:induction false} Conservation(c: Settings, w: World, sts: seq<Step>)
    requires GoodSettings(c) && WorldOk(c, w) && IsRun(c, w, sts)
    ensures WorldOk(c, After(c, w, sts)) && Net(After(c, w, sts)) == Net(w)
    decreases sts
  {
    hide WorldOk, Net, Do, Enabled;
    if sts != [] {
      match sts[0] {
        case Office(r) => OfficeStep(c, w, r);
        case Exchange(_, _, _, _) => ExchangeStep(c, w, sts[0]);
        case Late(_, _) => LateStep(c, w, sts[0]);
        case _ => TradeStep(c, w, sts[0]);
      }
      Conservation(c, Do(c, w, sts[0]), sts[1..]);
    }
  }

  /** Nothing is on its way any more. */
  predicate Settled(w: World) {
    w.unreadA == [] && w.unreadB == [] && w.open == [] && w.execs == []
  }

  /**
   Once everything is settled the two positions add up to what was stranded and refused late, less the failed
   corrections; so the office is neutral exactly when these cancel out, in particular when nothing was executed
   of any order that was refused, no refusal came late and no correction failed.
   */
  lemma DeltaNeutral(c: Settings, w: World, sts: seq<Step>)
    requires GoodSettings(c) && WorldOk(c, w) && IsRun(c, w, sts) && Net(w) == 0.0
    ensures var w' := After(c, w, sts); Settled(w') ==>
      && w'.filledA + w'.filledB == w'.stranded + (w'.late - w'.failed) as real
      && (w'.filledA + w'.filledB == 0.0 <==> w'.stranded == (w'.failed - w'.late) as real)
  {
    Conservation(c, w, sts);
  }

  /**
   Quantities so far are in orders of their broker. When an order at one broker is for `qa` and at the other
   for `qb`, an otherwise balanced end is neutral exactly when the two agree or nothing was executed on balance.
   */
  lemma UnequalQuantities(c: Settings, w: World, sts: seq<Step>, qa: real, qb: real)
    requires GoodSettings(c) && WorldOk(c, w) && IsRun(c, w, sts) && Net(w) == 0.0
    ensures var w' := After(c, w, sts); Settled(w') && w'.stranded == (w'.failed - w'.late) as real ==>
      (qa * w'.filledA + qb * w'.filledB == 0.0 <==> qa == qb || w'.filledA == 0.0)
  {
    hide After, WorldOk, IsRun, Net, GoodSettings;
    var w' := After(c, w, sts);
    DeltaNeutral(c, w, sts);
    if Settled(w') && w'.stranded == (w'.failed - w'.late) as real {
      assert w'.filledB == -w'.filledA;
      Weighted(qa, qb, w'.filledA);
    }
  }

  lemma Weighted(qa: real, qb: real, x: real)
    ensures qa * x + qb * -x == (qa - qb) * x
    ensures (qa - qb) * x == 0.0 <==> qa == qb || x == 0.0
  {
  }

  // ---- a run that ends half an order away from neutral

  lemma RunCons(c: Settings, w: World, st: Step, sts: seq<Step>)
    requires Enabled(c, w, st) && IsRun(c, Do(c, w, st), sts)
    ensures IsRun(c, w, [st] + sts) && After(c, w, [st] + sts) == After(c, Do(c, w, st), sts)
  {
    hide Do, Enabled;
    assert ([st] + sts)[0] == st && ([st] + sts)[1..] == sts;
  }

  lemma {:induction false} RunConcat(c: Settings, w: World, a: seq<Step>, b: seq<Step>)
    requires IsRun(c, w, a) && IsRun(c, After(c, w, a), b)
    ensures IsRun(c, w, a + b) && After(c, w, a + b) == After(c, After(c, w, a), b)
    decreases a
  {
    hide Do, Enabled;
    if a == [] {
      assert a + b == b;
    } else {
      RunConcat(c, Do(c, w, a[0]), a[1..], b);
      assert (a + b)[0] == a[0] && (a + b)[1..] == a[1..] + b;
    }
  }

  /** A pair is triggered by a margin of 1 and not delayed any further than it takes. */
  function Terms(): Settings {
    Settings(60, 2, 0.1, 0.1)
  }

  /** A new office, nothing traded. */
  function Idle(): World {
    World(Watched(NewDesk(0, NoDiff, 0), false, false, 0, false, 0), [], [], [], [], 0.0, 0.0, 0, 0.0, 0)
  }

  const PAIR_ID: nat := 7

  function Pair(): seq<OrderEvent> {
    [OrderEvent(Lmax, Market, Buy, 1.0, PAIR_ID), OrderEvent(Ib, Market, Sell, 2.0, PAIR_ID)]
  }

  function Quotes(): Round {
    Round([PriceEvent(Lmax, 1.0, 1.0, 1), PriceEvent(Ib, 2.0, 2.0, 1)], [], 0, PAIR_ID, 0)
  }

  /** The desk after the pair. */
  function Busy(count: int): Watched {
    var a, b := PriceEvent(Lmax, NO_BID, NO_ASK, 1), PriceEvent(Ib, NO_BID, NO_ASK, 1);
    Watched(Desk(a, b, count, DiffB, true, 0), false, false, 0, true, 0)
  }

  lemma QuotesFed()
    ensures Fed(Idle().watch.desk, Quotes()) ==
      Idle().watch.desk.(priceA := PriceEvent(Lmax, 1.0, 1.0, 1), priceB := PriceEvent(Ib, 2.0, 2.0, 1))
    ensures OnExecutions(Quotes().execs) == (0, [])
  {
    var r, d := Quotes(), Idle().watch.desk;
    var p, q := r.prices[0], r.prices[1];
    assert r.prices[1..] == [q] && [q][1..] == [];
    assert OnPrices(d, r.prices) == OnPrices(OnPrice(d, p), [q]) == OnPrices(OnPrice(OnPrice(d, p), q), []);
  }

  lemma PairEmitted()
    ensures Enabled(Terms(), Idle(), Step.Office(Quotes()))
    ensures Do(Terms(), Idle(), Step.Office(Quotes())) ==
      Idle().(watch := Busy(0), unreadA := Pair(), unreadB := Pair())
  {
    hide OnPrices, OnExecutions, Fed, FailedIn;
    var c, r, d := Terms(), Quotes(), Idle().watch.desk;
    QuotesFed();
    assert TriggerOf(c, d, r) == Open(DiffB);
    assert PairFor(Office.Ready(Fed(d, r)), DiffB, PAIR_ID) == Pair();
    assert DoWork(c, d, r).1 == [] + Pair() == Pair();
    assert FailedIn([]) == 0 by { NoneFailed(); }
    assert [] + Pair() == Pair();
  }

  lemma NoneFailed()
    ensures FailedIn([]) == 0
  {
  }

  function BuyOrder(id: nat): NewOrder {
    NewOrder(ORD_TYPE_MARKET, SIDE_BUY, Decimal.Digits(id), None)
  }

  function SellOrder(id: nat): NewOrder {
    NewOrder(ORD_TYPE_MARKET, SIDE_SELL, Decimal.Digits(id), None)
  }

  /** Both trade offices read the pair, each sending its own order. */
  lemma PairSent()
    ensures var w := Idle().(watch := Busy(0), unreadA := Pair(), unreadB := Pair());
      && IsRun(Terms(), w, [TradeA, TradeA, TradeB, TradeB])
      && After(Terms(), w, [TradeA, TradeA, TradeB, TradeB]) == Idle().(watch := Busy(0),
           open := [OpenOrder(Lmax, BuyOrder(PAIR_ID), 0.0), OpenOrder(Ib, SellOrder(PAIR_ID), 0.0)])
  {
    hide Decimal.Digits;
    var c, w := Terms(), Idle().(watch := Busy(0), unreadA := Pair(), unreadB := Pair());
    var x, y := OpenOrder(Lmax, BuyOrder(PAIR_ID), 0.0), OpenOrder(Ib, SellOrder(PAIR_ID), 0.0);
    var w1 := w.(unreadA := [Pair()[1]], open := [x]);
    var w2 := w1.(unreadA := []);
    var w3 := w2.(unreadB := [Pair()[1]]);
    var w4 := w3.(unreadB := [], open := [x, y]);
    assert Do(c, w, TradeA) == w1;
    assert Do(c, w1, TradeA) == w2;
    assert Do(c, w2, TradeB) == w3;
    assert Do(c, w3, TradeB) == w4;
    RunCons(c, w3, TradeB, []);
    RunCons(c, w2, TradeB, [TradeB]);
    RunCons(c, w1, TradeA, [TradeB, TradeB]);
    RunCons(c, w, TradeA, [TradeA, TradeB, TradeB]);
    assert [TradeA] + [TradeA, TradeB, TradeB] == [TradeA, TradeA, TradeB, TradeB];
  }

  function Filled(broker: Broker, side: Side, id: nat): ExecutionEvent {
    ExecutionEvent(broker, side, true, id)
  }

  function Refused(): ExecutionEvent {
    ExecutionEvent(Lmax, Buy, false, PAIR_ID)
  }

  lemma EventFor(broker: Broker, o: NewOrder, id: nat, execType: char, ordStatus: char)
    requires o == BuyOrder(id) || o == SellOrder(id)
    requires id < TWO_64
    ensures var r, side := Report(execType, ordStatus, o.side, o.clOrdId), if o == BuyOrder(id) then Buy else Sell;
      && (IsFill(r) ==> OnReport(broker, r) == [ExecutionEvent(broker, side, true, id)])
      && (IsRefusal(r) ==> OnReport(broker, r) == [ExecutionEvent(broker, side, false, id)])
  {
    hide Decimal.Digits, Stoul;
    IdSurvives(id);
  }

  /** The SELL is filled; of the BUY half is executed, then it is cancelled. */
  lemma HalfExecuted()
    ensures var w := Idle().(watch := Busy(0),
        open := [OpenOrder(Lmax, BuyOrder(PAIR_ID), 0.0), OpenOrder(Ib, SellOrder(PAIR_ID), 0.0)]);
      var sts := [Exchange(1, '2', '2', 0.0), Exchange(0, '1', '1', 0.5), Exchange(0, '4', '4', 0.0)];
      && IsRun(Terms(), w, sts)
      && After(Terms(), w, sts) == Idle().(watch := Busy(0), execs := [Filled(Ib, Sell, PAIR_ID), Refused()],
           filledA := 0.5, filledB := -1.0, stranded := 0.5)
  {
    hide Decimal.Digits, OnReport, BuyOrder, SellOrder, Stoul;
    var c, buy, sell := Terms(), BuyOrder(PAIR_ID), SellOrder(PAIR_ID);
    OrderSides(PAIR_ID);
    var x, y := OpenOrder(Lmax, buy, 0.0), OpenOrder(Ib, sell, 0.0);
    var w := Idle().(watch := Busy(0), open := [x, y]);
    EventFor(Ib, sell, PAIR_ID, '2', '2');
    var w1 := w.(open := [x], execs := [Filled(Ib, Sell, PAIR_ID)], filledB := -1.0);
    assert w.open[..1] + w.open[2..] == [x] && w.execs + [Filled(Ib, Sell, PAIR_ID)] == [Filled(Ib, Sell, PAIR_ID)];
    var st1, st2, st3 := Exchange(1, '2', '2', 0.0), Exchange(0, '1', '1', 0.5), Exchange(0, '4', '4', 0.0);
    assert Do(c, w, st1) == w1;
    var half := x.(executed := 0.5);
    var w2 := w1.(open := [half], filledA := 0.5);
    assert [x][0 := half] == [half];
    assert Do(c, w1, st2) == w2;
    EventFor(Lmax, buy, PAIR_ID, '4', '4');
    var w3 := w2.(open := [], execs := [Filled(Ib, Sell, PAIR_ID), Refused()], stranded := 0.5);
    assert w2.open[..0] + w2.open[1..] == [] && w2.execs + [Refused()] == w3.execs;
    assert Do(c, w2, st3) == w3;
    RunCons(c, w2, st3, []);
    RunCons(c, w1, st2, [st3]);
    RunCons(c, w, st1, [st2, st3]);
    assert [st1] + [st2, st3] == [st1, st2, st3];
  }

  lemma OrderSides(id: nat)
    ensures BuyOrder(id).side == SIDE_BUY && SellOrder(id).side == SIDE_SELL
  {
    hide Decimal.Digits;
  }

  function Correction(): OrderEvent {
    OrderEvent(Ib, Market, Buy, 0.0, CORRECTION_ID)
  }

  /** A round that handles the events `es` during the order delay and publishes `out`. */
  lemma DelayedRound(w: World, count: int, es: seq<ExecutionEvent>, rest: int, out: seq<OrderEvent>)
    requires w.watch == Busy(count) && w.execs == es && OnExecutions(es) == (rest, out) && FailedIn(es) == 0
    ensures var r := Round([], es, 0, 0, 0); var st := Step.Office(r);
      && Enabled(Terms(), w, st)
      && Do(Terms(), w, st) == w.(watch := Busy(count + rest), execs := [],
           unreadA := w.unreadA + out, unreadB := w.unreadB + out)
  {
    hide OnExecutions, FailedIn;
    var r := Round([], es, 0, 0, 0);
    assert OnPrices(w.watch.desk, []) == w.watch.desk;
    assert TriggerOf(Terms(), w.watch.desk, r) == NoTrigger;
    assert w.execs[|es|..] == [];
  }

  lemma TwoEvents()
    ensures var es := [Filled(Ib, Sell, PAIR_ID), Refused()];
      OnExecutions(es) == (1, [Correction()]) && FailedIn(es) == 0
  {
    var x, y := Filled(Ib, Sell, PAIR_ID), Refused();
    assert [x, y][1..] == [y] && [y][1..] == [];
    assert OnExecution(x) == (1, []) && OnExecution(y) == (0, [Correction()]);
    assert [Correction()] + [] == [Correction()] && [] + [Correction()] == [Correction()];
    assert OnExecutions([y]) == (0, [Correction()]);
    assert OnExecutions([x, y]).1 == [] + OnExecutions([y]).1;
    assert FailedIn([y]) == 0;
  }

  lemma CorrectionFilled()
    ensures var es := [Filled(Ib, Buy, CORRECTION_ID)];
      OnExecutions(es) == (-1, []) && FailedIn(es) == 0
  {
    var x := Filled(Ib, Buy, CORRECTION_ID);
    assert [x][1..] == [] && [] + [] == OnExecutions([x]).1;
  }

  /** Both trade offices read a correction for Ib. */
  lemma CorrectionRead(w: World)
    requires w.unreadA == [Correction()] == w.unreadB && w.open == []
    ensures IsRun(Terms(), w, [TradeA, TradeB])
    ensures After(Terms(), w, [TradeA, TradeB]) ==
      w.(unreadA := [], unreadB := [], open := [OpenOrder(Ib, BuyOrder(CORRECTION_ID), 0.0)])
  {
    hide Decimal.Digits;
    var c := Terms();
    var w1 := w.(unreadA := []);
    assert [Correction()][1..] == [] && OnOrder(Lmax, Correction()) == [] && [] + [] == w.open;
    assert Do(c, w, TradeA) == w1;
    assert Do(c, w1, TradeB) == w1.(unreadB := [], open := [OpenOrder(Ib, BuyOrder(CORRECTION_ID), 0.0)]);
    RunCons(c, w1, TradeB, []);
    RunCons(c, w, TradeA, [TradeB]);
    assert [TradeA] + [TradeB] == [TradeA, TradeB] && [TradeB] + [] == [TradeB];
  }

  /** The office corrects the whole BUY at the other broker, whose trade office sends the correction. */
  lemma CorrectionSent()
    ensures var w := Idle().(watch := Busy(0), execs := [Filled(Ib, Sell, PAIR_ID), Refused()],
        filledA := 0.5, filledB := -1.0, stranded := 0.5);
      var sts := [Step.Office(Round([], w.execs, 0, 0, 0)), TradeA, TradeB];
      && IsRun(Terms(), w, sts)
      && After(Terms(), w, sts) == w.(watch := Busy(1), execs := [],
           open := [OpenOrder(Ib, BuyOrder(CORRECTION_ID), 0.0)])
  {
    hide BuyOrder, FailedIn, OnExecutions, Busy, Do, Enabled, IsRun, After, Terms;
    var c, es := Terms(), [Filled(Ib, Sell, PAIR_ID), Refused()];
    var w := Idle().(watch := Busy(0), execs := es, filledA := 0.5, filledB := -1.0, stranded := 0.5);
    TwoEvents();
    DelayedRound(w, 0, es, 1, [Correction()]);
    var st := Step.Office(Round([], es, 0, 0, 0));
    var w1 := w.(watch := Busy(1), execs := [], unreadA := [Correction()], unreadB := [Correction()]);
    assert [] + [Correction()] == [Correction()];
    assert Do(c, w, st) == w1;
    CorrectionRead(w1);
    RunCons(c, w, st, [TradeA, TradeB]);
    assert [st] + [TradeA, TradeB] == [st, TradeA, TradeB];
  }

  /** The correction is filled, and the office sees it. */
  lemma CorrectionDone()
    ensures var w := Idle().(watch := Busy(1), open := [OpenOrder(Ib, BuyOrder(CORRECTION_ID), 0.0)],
        filledA := 0.5, filledB := -1.0, stranded := 0.5);
      var sts := [Exchange(0, '2', '2', 0.0), Step.Office(Round([], [Filled(Ib, Buy, CORRECTION_ID)], 0, 0, 0))];
      && IsRun(Terms(), w, sts)
      && After(Terms(), w, sts) == Idle().(watch := Busy(0), filledA := 0.5, filledB := 0.0, stranded := 0.5)
  {
    hide Decimal.Digits, OnReport, Stoul, FailedIn, OnExecutions, Busy;
    var c, last := Terms(), [Filled(Ib, Buy, CORRECTION_ID)];
    var w := Idle().(watch := Busy(1), open := [OpenOrder(Ib, BuyOrder(CORRECTION_ID), 0.0)],
                     filledA := 0.5, filledB := -1.0, stranded := 0.5);
    EventFor(Ib, BuyOrder(CORRECTION_ID), CORRECTION_ID, '2', '2');
    var st1, st2 := Exchange(0, '2', '2', 0.0), Step.Office(Round([], last, 0, 0, 0));
    var w1 := w.(open := [], execs := last, filledB := 0.0);
    assert w.open[..0] + w.open[1..] == [] && w.execs + last == last;
    assert Do(c, w, st1) == w1;
    CorrectionFilled();
    DelayedRound(w1, 1, last, -1, []);
    assert Do(c, w1, st2) == w1.(watch := Busy(0), execs := []);
    RunCons(c, w1, st2, []);
    RunCons(c, w, st1, [st2]);
    assert [st1] + [st2] == [st1, st2];
  }

  /** From a new office to a settled world whose positions add up to half an order. */
  lemma HalfAnOrderLeft() returns (sts: seq<Step>)
    ensures IsRun(Terms(), Idle(), sts) && Net(Idle()) == 0.0
    ensures var w := After(Terms(), Idle(), sts); Settled(w) && w.filledA + w.filledB == 0.5 == w.stranded
  {
    hide IsRun, After, Do, Enabled, Busy, Quotes, Pair;
    var c, first := Terms(), Step.Office(Quotes());
    PairEmitted();
    PairSent();
    HalfExecuted();
    CorrectionSent();
    CorrectionDone();
    var w1 := Do(c, Idle(), first);
    var a := [TradeA, TradeA, TradeB, TradeB];
    var b := [Exchange(1, '2', '2', 0.0), Exchange(0, '1', '1', 0.5), Exchange(0, '4', '4', 0.0)];
    var es := [Filled(Ib, Sell, PAIR_ID), Refused()];
    var d := [Step.Office(Round([], es, 0, 0, 0)), TradeA, TradeB];
    var e := [Exchange(0, '2', '2', 0.0), Step.Office(Round([], [Filled(Ib, Buy, CORRECTION_ID)], 0, 0, 0))];
    RunConcat(c, w1, a, b);
    RunConcat(c, w1, a + b, d);
    RunConcat(c, w1, a + b + d, e);
    RunCons(c, Idle(), first, a + b + d + e);
    sts := [first] + (a + b + d + e);
  }
}
