/**
 The trade office of src/FIXTradeOffice.cpp: order events become NewOrderSingle messages, execution
 reports become execution events. Ids travel as the decimal text of ClOrdID.
 */
module TradeOffices {
  import opened Options
  import opened Bytes
  import opened Decimal
  import opened Atoi
  import opened Office
  import FT = FixTypes
  import FixScan
  import SC = SessionControl

  const ORD_TYPE_MARKET := '1'
  const ORD_TYPE_LIMIT := '2'
  const SIDE_BUY := '1'
  const SIDE_SELL := '2'

  /** The fields of a NewOrderSingle that depend on the event; only a limit order has a price. */
  datatype NewOrder = NewOrder(ordType: char, side: char, clOrdId: seq<byte>, price: Option<real>)

  /** The fields of an execution report the handler looks at. */
  datatype Report = Report(execType: char, ordStatus: char, side: char, clOrdId: seq<byte>)

  /** The order sent for an event, if it has a type and a side. */
  function OrderFor(e: OrderEvent): seq<NewOrder> {
    if e.order == NoType || e.side == NoSide then []
    else
      [ NewOrder(
          if e.order == Limit then ORD_TYPE_LIMIT else ORD_TYPE_MARKET,
          if e.side == Buy then SIDE_BUY else SIDE_SELL,
          Digits(e.id),
          if e.order == Limit then Some(e.price) else None) ]
  }

  /** The digits at the head of a text, as `std::stoul` reads them; it throws when there is none or they do not fit. */
  function Stoul(s: seq<byte>): Option<nat> {
    var k := DigitRun(s);
    if k == 0 || Value(s[..k]) >= TWO_64 then None else Some(Value(s[..k]))
  }

  predicate IsFill(r: Report) {
    (r.execType == '2' || r.execType == 'F') && r.ordStatus == '2'
  }

  predicate IsRefusal(r: Report) {
    r.execType == '8' || r.execType == 'H' || r.execType == '4'
  }

  /** The event published for a report, if any. */
  function OnReport(broker: Broker, r: Report): seq<ExecutionEvent> {
    var side, id := if r.side == SIDE_BUY then Buy else Sell, Stoul(r.clOrdId);
    if id.Some? && (IsFill(r) || IsRefusal(r)) then [ExecutionEvent(broker, side, IsFill(r), id.value)] else []
  }

  /** The first character of a string field; at the end of an empty one the source finds the SOH. */
  function FirstChar(f: FixScan.Field): char {
    var text := SC.TextOf(f);
    if text == [] then SOH as char else text[0] as char
  }

  /**
   The fields the handler reads from an execution report. It expects all of them, and an id of at most 63
   characters; without them it reads what is not there, which is outside the model.
   */
  function ReadReport(m: FixScan.Message): Option<Report> {
    var status, exec, side := SC.GetField(m.fields, 39), SC.GetField(m.fields, 150), SC.GetField(m.fields, 54);
    var price, order, id := SC.GetField(m.fields, 6), SC.GetField(m.fields, 37), SC.GetField(m.fields, 11);
    if status.Some? && exec.Some? && side.Some? && price.Some? && order.Some? && id.Some?
       && |SC.TextOf(id.value)| < 64
    then Some(Report(FirstChar(exec.value), FirstChar(status.value), FirstChar(side.value), SC.TextOf(id.value)))
    else None
  }

  class TradeOffice {
    const broker: Broker
    /** The two messages that are filled in anew for every order. */
    var limitOrder: NewOrder
    var marketOrder: NewOrder
    var sent: seq<NewOrder>
    var executionRing: seq<ExecutionEvent>

    ghost predicate Valid()
      reads this
    {
      && limitOrder.ordType == ORD_TYPE_LIMIT && limitOrder.price.Some?
      && marketOrder.ordType == ORD_TYPE_MARKET && marketOrder.price.None?
    }

    constructor (broker: Broker)
      ensures Valid() && this.broker == broker && sent == [] && executionRing == []
    {
      hide Ascii;
      this.broker := broker;
      limitOrder := NewOrder(ORD_TYPE_LIMIT, '0', Ascii("NEW-ORDER-SINGLE-SELL"), Some(0.0));
      marketOrder := NewOrder(ORD_TYPE_MARKET, '0', Ascii("NEW-ORDER-SINGLE-BUY"), None);
      sent, executionRing := [], [];
    }

    /** False for an event meant for another broker. */
    method HandleOrder(e: OrderEvent) returns (handled: bool)
      requires Valid()
      modifies this`limitOrder, this`marketOrder, this`sent
      ensures Valid() && (handled <==> e.broker == broker)
      ensures sent == old(sent) + if handled then OrderFor(e) else []
    {
      if e.broker != broker {
        assert sent + [] == sent;
        return false;
      }
      var id := Digits(e.id);
      if e.order == Limit && e.side == Buy {
        limitOrder := limitOrder.(side := SIDE_BUY, price := Some(e.price), clOrdId := id);
        sent := sent + [limitOrder];
      }
      if e.order == Limit && e.side == Sell {
        limitOrder := limitOrder.(side := SIDE_SELL, price := Some(e.price), clOrdId := id);
        sent := sent + [limitOrder];
      }
      if e.order == Market && e.side == Buy {
        marketOrder := marketOrder.(side := SIDE_BUY, clOrdId := id);
        sent := sent + [marketOrder];
      }
      if e.order == Market && e.side == Sell {
        marketOrder := marketOrder.(side := SIDE_SELL, clOrdId := id);
        sent := sent + [marketOrder];
      }
      handled := true;
    }

    /** Messages of other types are ignored here; false when the report cannot be read. */
    method HandleMessage(m: FixScan.Message) returns (ok: bool)
      modifies this`executionRing
      ensures executionRing == old(executionRing) +
        if m.typ == FT.ExecutionReport && ReadReport(m).Some? then OnReport(broker, ReadReport(m).value) else []
    {
      assert executionRing + [] == executionRing;
      if m.typ != FT.ExecutionReport {
        return true;
      }
      match ReadReport(m) {
        case None => return false;
        case Some(r) => ok := HandleReport(r);
      }
    }

    /** False when reading the id throws. */
    method HandleReport(r: Report) returns (ok: bool)
      modifies this`executionRing
      ensures executionRing == old(executionRing) + OnReport(broker, r)
      ensures ok <==> Stoul(r.clOrdId).Some? || !(IsFill(r) || IsRefusal(r))
    {
      var side := if r.side == SIDE_BUY then Buy else Sell;
      if (r.execType == '2' || r.execType == 'F') && r.ordStatus == '2' {
        var id := Stoul(r.clOrdId);
        if id.None? {
          return false;
        }
        executionRing := executionRing + [ExecutionEvent(broker, side, true, id.value)];
      }
      if r.execType == '8' || r.execType == 'H' || r.execType == '4' {
        var id := Stoul(r.clOrdId);
        if id.None? {
          return false;
        }
        executionRing := executionRing + [ExecutionEvent(broker, side, false, id.value)];
      }
      ok := true;
    }
  }

  /** An id survives the trip through ClOrdID exactly when it fits an `unsigned long`. */
  lemma IdSurvives(id: nat)
    ensures Stoul(Digits(id)) == Some(id) <==> id < TWO_64
  {
    var ds := Digits(id);
    assert DigitRun(ds) == |ds| && ds[..|ds|] == ds;
    ValueOfDigits(id);
  }

  /** A report that echoes an order comes back as an event with the order's side and id, filled or not as it says. */
  lemma EchoComesBack(broker: Broker, e: OrderEvent, execType: char, ordStatus: char)
    requires OrderFor(e) != [] && e.id < TWO_64
    ensures var o := OrderFor(e)[0];
      var r := Report(execType, ordStatus, o.side, o.clOrdId);
      && (IsFill(r) ==> OnReport(broker, r) == [ExecutionEvent(broker, e.side, true, e.id)])
      && (IsRefusal(r) ==> OnReport(broker, r) == [ExecutionEvent(broker, e.side, false, e.id)])
      && (!IsFill(r) && !IsRefusal(r) ==> OnReport(broker, r) == [])
  {
    IdSurvives(e.id);
  }
}
