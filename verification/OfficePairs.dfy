/** Every order pair is fresh, profitable and spaced. */
module OfficePairs {
  import opened Office

  /** Quotes strictly between the placeholders. */
  predicate InRange(e: PriceEvent) {
    NO_BID < e.bid < NO_ASK && NO_BID < e.ask < NO_ASK
  }

  predicate GoodRound(r: Round) {
    (forall i :: 0 <= i < |r.prices| ==> InRange(r.prices[i])) && r.now <= r.emitted
  }

  predicate GoodSettings(c: Settings) {
    c.diffOpen >= 0.0 && c.diffClose >= 0.0
  }

  /** The desk, which of its quotes arrived after the last pair, when that pair was emitted, the last clock reading. */
  datatype Watched = Watched(desk: Desk, freshA: bool, freshB: bool, lastPair: int, paired: bool, clock: int)

  predicate Fresh(b: Broker, was: bool, es: seq<PriceEvent>) {
    was || exists i :: 0 <= i < |es| && es[i].broker == b
  }

  function Watch(c: Settings, w: Watched, r: Round): Watched {
    var t := TriggerOf(c, w.desk, r);
    var desk := DoWork(c, w.desk, r).0;
    if t.NoTrigger? then
      Watched(desk, Fresh(Lmax, w.freshA, r.prices), Fresh(Ib, w.freshB, r.prices), w.lastPair, w.paired, r.emitted)
    else Watched(desk, false, false, r.emitted, true, r.emitted)
  }

  /** A stale quote is a placeholder; a fresh one is in range and from its own broker. */
  predicate QuoteOk(e: PriceEvent, isNew: bool, b: Broker) {
    if isNew then InRange(e) && e.broker == b else e.bid == NO_BID && e.ask == NO_ASK
  }

  /** After a pair either the delay is still on, counted from that pair, or it has passed. */
  predicate SpacingOk(c: Settings, w: Watched) {
    w.paired ==>
      && w.lastPair <= w.clock
      && if w.desk.isDelayed then w.desk.lastOrderTime == w.lastPair else w.clock >= w.lastPair + c.orderDelay
  }

  predicate WatchOk(c: Settings, w: Watched) {
    && QuoteOk(w.desk.priceA, w.freshA, Lmax) && QuoteOk(w.desk.priceB, w.freshB, Ib)
    && SpacingOk(c, w)
  }

  lemma {:induction false} PricesKeepQuotes(d: Desk, es: seq<PriceEvent>, freshA: bool, freshB: bool)
    requires QuoteOk(d.priceA, freshA, Lmax) && QuoteOk(d.priceB, freshB, Ib)
    requires forall i :: 0 <= i < |es| ==> InRange(es[i])
    ensures var d' := OnPrices(d, es);
      && QuoteOk(d'.priceA, Fresh(Lmax, freshA, es), Lmax) && QuoteOk(d'.priceB, Fresh(Ib, freshB, es), Ib)
      && d' == d.(priceA := d'.priceA, priceB := d'.priceB)
    decreases es
  {
    if es != [] {
      var rest := es[1..];
      assert forall i :: 0 <= i < |rest| ==> rest[i] == es[i + 1];
      assert InRange(es[0]);
      PricesKeepQuotes(OnPrice(d, es[0]), rest, freshA || es[0].broker == Lmax, freshB || es[0].broker == Ib);
      FreshCons(Lmax, freshA, es);
      FreshCons(Ib, freshB, es);
    }
  }

  lemma FreshCons(b: Broker, was: bool, es: seq<PriceEvent>)
    requires es != []
    ensures Fresh(b, was, es) <==> Fresh(b, was || es[0].broker == b, es[1..])
  {
    if Fresh(b, was, es) && !was && es[0].broker != b {
      var i :| 0 <= i < |es| && es[i].broker == b;
      assert es[1..][i - 1] == es[i];
    }
  }

  /** A trigger needs both quotes fresh: a placeholder cannot meet a non-negative threshold. */
  lemma TriggerIsFresh(c: Settings, d: Desk, freshA: bool, freshB: bool)
    requires GoodSettings(c) && QuoteOk(d.priceA, freshA, Lmax) && QuoteOk(d.priceB, freshB, Ib)
    requires !Decide(c, d).NoTrigger?
    ensures freshA && freshB && d.priceA.broker == Lmax && d.priceB.broker == Ib
  {
  }

  /** What selling at one broker and buying at the other brings at the quotes of the desk. */
  function Margin(d: Desk, diff: Difference): real {
    if diff == DiffA then d.priceA.bid - d.priceB.ask else d.priceB.bid - d.priceA.ask
  }

  function Opposite(diff: Difference): Difference {
    match diff case DiffA => DiffB case DiffB => DiffA case NoDiff => NoDiff
  }

  /**
   A position is opened from neutral, or enlarged in its own direction below the order limit, at the open
   threshold; it is closed only by the opposite direction, at the close threshold; and no chance is missed.
   */
  lemma DecisionRules(c: Settings, d: Desk)
    ensures match Decide(c, d)
      case Open(diff) =>
        && Margin(d, diff) >= c.diffOpen
        && (d.currentDiff == NoDiff || (diff == d.currentDiff && d.ordersCount < c.maxOrders))
      case Close(diff) =>
        d.currentDiff != NoDiff && diff == Opposite(d.currentDiff) && Margin(d, diff) >= c.diffClose
      case NoTrigger =>
        if d.currentDiff == NoDiff then Margin(d, DiffA) < c.diffOpen && Margin(d, DiffB) < c.diffOpen
        else
          && Margin(d, Opposite(d.currentDiff)) < c.diffClose
          && (d.ordersCount < c.maxOrders ==> Margin(d, d.currentDiff) < c.diffOpen)
  {
  }

  /** What an emitted pair looks like: one order to each broker, one BUY and one SELL, same id, the margin met. */
  predicate PairOk(c: Settings, t: Trigger, pair: seq<OrderEvent>, id: nat) {
    && !t.NoTrigger? && |pair| == 2
    && pair[0].broker == Lmax && pair[1].broker == Ib
    && pair[0].order == Market && pair[1].order == Market && pair[0].id == id && pair[1].id == id
    && (pair[0].side, pair[1].side) in {(Sell, Buy), (Buy, Sell)}
    && var (sell, buy) := if pair[0].side == Sell then (pair[0], pair[1]) else (pair[1], pair[0]);
       sell.price - buy.price >= if t.Open? then c.diffOpen else c.diffClose
  }

  /**
   One round: if it triggers, both quotes arrived after the previous pair, the pair is as it must be, the
   order count is even, and the order delay since the previous pair has passed; otherwise no pair is published.
   */
  predicate RoundSafe(c: Settings, w: Watched, r: Round) {
    var t, d1, orders := TriggerOf(c, w.desk, r), Fed(w.desk, r), DoWork(c, w.desk, r).1;
    if t.NoTrigger? then orders == OnExecutions(r.execs).1
    else
      var pair := PairFor(Ready(d1), t.diff, r.id);
      && Fresh(Lmax, w.freshA, r.prices) && Fresh(Ib, w.freshB, r.prices)
      && orders == OnExecutions(r.execs).1 + pair && PairOk(c, t, pair, r.id)
      && d1.ordersCount % 2 == 0
      && (w.paired ==> r.emitted >= w.lastPair + c.orderDelay)
  }

  lemma RoundOk(c: Settings, w: Watched, r: Round)
    requires GoodSettings(c) && GoodRound(r) && WatchOk(c, w) && w.clock <= r.now
    ensures WatchOk(c, Watch(c, w, r)) && Watch(c, w, r).clock == r.emitted
    ensures RoundSafe(c, w, r)
  {
    hide OnPrices, OnExecutions, Fresh;
    PricesKeepQuotes(w.desk, r.prices, w.freshA, w.freshB);
    if !TriggerOf(c, w.desk, r).NoTrigger? {
      TriggerIsFresh(c, Ready(Fed(w.desk, r)), Fresh(Lmax, w.freshA, r.prices), Fresh(Ib, w.freshB, r.prices));
    }
  }

  /** Clock readings never go back. */
  predicate Timely(clock: int, rs: seq<Round>)
    decreases rs
  {
    rs == [] || (clock <= rs[0].now && GoodRound(rs[0]) && Timely(rs[0].emitted, rs[1..]))
  }

  function WatchAll(c: Settings, w: Watched, rs: seq<Round>): Watched
    decreases rs
  {
    if rs == [] then w else WatchAll(c, Watch(c, w, rs[0]), rs[1..])
  }

  /** In every run of rounds each round is safe: all pairs are fresh, profitable, spaced and at even counts. */
  lemma {:induction false} RunOk(c: Settings, w: Watched, rs: seq<Round>)
    requires GoodSettings(c) && WatchOk(c, w) && Timely(w.clock, rs)
    ensures WatchOk(c, WatchAll(c, w, rs))
    ensures forall k :: 0 <= k < |rs| ==> RoundSafe(c, WatchAll(c, w, rs[..k]), rs[k])
    decreases rs
  {
    hide WatchOk, Watch, GoodRound, RoundSafe;
    if rs != [] {
      RoundOk(c, w, rs[0]);
      var w1, rest := Watch(c, w, rs[0]), rs[1..];
      RunOk(c, w1, rest);
      forall k | 0 <= k < |rs| ensures RoundSafe(c, WatchAll(c, w, rs[..k]), rs[k]) {
        if k > 0 {
          assert rs[..k][1..] == rest[..k - 1] && rs[..k][0] == rs[0] && rs[k] == rest[k - 1];
          assert RoundSafe(c, WatchAll(c, w1, rest[..k - 1]), rest[k - 1]);
        } else {
          assert rs[..0] == [];
        }
      }
    }
  }

  /** In every run of a new office each round is safe. */
  lemma EveryRunFromStart(c: Settings, ordersCount: int, currentDiff: Difference, now: int, rs: seq<Round>)
    requires GoodSettings(c) && Timely(now, rs)
    ensures var w := Watched(NewDesk(ordersCount, currentDiff, now), false, false, 0, false, now);
      forall k :: 0 <= k < |rs| ==> RoundSafe(c, WatchAll(c, w, rs[..k]), rs[k])
  {
    hide RoundSafe;
    var w := Watched(NewDesk(ordersCount, currentDiff, now), false, false, 0, false, now);
    assert WatchOk(c, w);
    RunOk(c, w, rs);
  }
}
