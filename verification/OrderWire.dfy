/**
 Orders, execution reports and prices over printed and parsed frames: what the offices write into a message and
 what they read out of one. Tags and codes are written out here.
 */
module OrderWire {
  import opened Options
  import opened Bytes
  import opened Decimal
  import opened Atoi
  import opened Modp
  import opened FixTypes
  import opened FixScan
  import opened FixPrint
  import opened FixRoundTrip
  import opened FixSender
  import opened SessionControl
  import opened SessionWire
  import opened GapRecovery
  import Office
  import opened TradeOffices

  // ---- the fields of a message, by tag

  /** The first own field with a tag. */
  function FirstOut(fs: seq<OutField>, tag: int): Option<OutField> {
    if fs == [] then None else if fs[0].tag == tag then Some(fs[0]) else FirstOut(fs[1..], tag)
  }

  lemma {:induction false} ReadBacksAt(fs: seq<OutField>, i: nat)
    requires i < |fs|
    ensures ReadBacks(fs)[i] == ReadBack(fs[i])
  {
    hide ReadBack;
    if i < |fs| - 1 {
      ReadBacksAt(fs[..|fs| - 1], i);
    }
  }

  lemma {:induction false} ReadBacksCons(fs: seq<OutField>)
    requires fs != []
    ensures ReadBacks(fs) == [ReadBack(fs[0])] + ReadBacks(fs[1..])
  {
    hide ReadBack;
    forall i | 0 <= i < |fs| ensures ReadBacks(fs)[i] == ([ReadBack(fs[0])] + ReadBacks(fs[1..]))[i] {
      ReadBacksAt(fs, i);
      if i > 0 { ReadBacksAt(fs[1..], i - 1); }
    }
  }

  lemma {:induction false} FirstArrives(fs: seq<OutField>, tag: int)
    ensures var f := FirstOut(fs, tag);
      GetField(ReadBacks(fs), tag) == if f.Some? then Some(ReadBack(f.value)) else None
    ensures FirstOut(fs, tag).Some? ==> FirstOut(fs, tag).value in fs && FirstOut(fs, tag).value.tag == tag
    decreases |fs|
  {
    hide TypedField, ReadBacks;
    if fs != [] {
      ReadBacksCons(fs);
      var r := ReadBacks(fs);
      assert r[1..] == ReadBacks(fs[1..]) && r[0] == ReadBack(fs[0]);
      FirstArrives(fs[1..], tag);
    } else {
      assert ReadBacks(fs) == [];
    }
  }

  /** What the other side finds under a tag other than those of the header. */
  lemma FieldOf(id: Identity, e: Sent, strNow: seq<byte>, tag: int)
    requires tag !in {49, 56, 52}
    ensures var f := FirstOut(e.fields, tag);
      GetField(Carried(id, e, strNow).fields, tag) == if f.Some? then Some(ReadBack(f.value)) else None
  {
    hide ReadBack, ReadBacks, GetField, Carried;
    CarriedField(id, e, strNow, tag);
    FirstArrives(e.fields, tag);
  }

  lemma FieldReceivable(e: Sent, f: OutField)
    requires Carriable(e) && f in e.fields
    ensures Receivable(f)
  {
  }

  /** The text the other side reads under a tag. */
  lemma TextRead(e: Sent, f: OutField, id: Identity, strNow: seq<byte>)
    requires Carriable(e) && FirstOut(e.fields, f.tag) == Some(f) && f.tag in {11, 37, 39, 40, 54, 150}
    ensures var g := GetField(Carried(id, e, strNow).fields, f.tag);
      && (f.value.StringValue? ==> g == Some(StringField(f.tag, CString(f.value.s))))
      && (f.value.CharValue? ==> g == Some(StringField(f.tag, [f.value.c])))
  {
    hide Carried, Carriable, GetField, ReadBack, FirstOut, Receivable, CString, TextTag;
    FieldOf(id, e, strNow, f.tag);
    FirstArrives(e.fields, f.tag);
    FieldReceivable(e, f);
    TextTags(f.tag);
    ReadBackByTag(f);
  }

  /** The number the other side reads under a tag. */
  lemma FloatRead(e: Sent, f: OutField, id: Identity, strNow: seq<byte>)
    requires Carriable(e) && FirstOut(e.fields, f.tag) == Some(f) && f.tag in {6, 38, 44} && f.value.FloatValue?
    ensures var g := GetField(Carried(id, e, strNow).fields, f.tag); g.Some? && FloatNear(g.value, f.tag, f.value.x)
  {
    hide Carried, Carriable, GetField, ReadBack, FirstOut, Receivable, FloatNear, FloatTag;
    FieldOf(id, e, strNow, f.tag);
    FirstArrives(e.fields, f.tag);
    FieldReceivable(e, f);
    FloatTags(f.tag);
    ReadBackByTag(f);
  }

  lemma TextTags(tag: int)
    requires tag in {11, 37, 39, 40, 54, 150} || tag in {269, 279}
    ensures TextTag(tag)
  {
  }

  lemma FloatTags(tag: int)
    requires tag in {6, 38, 44, 270, 271}
    ensures FloatTag(tag)
  {
  }

  // ---- execution reports

  predicate HasText(e: Sent, tag: nat, text: seq<byte>) {
    VisibleBytes(text) && FirstOut(e.fields, tag) == Some(OutField(tag, StringValue(text)))
  }

  /** What an exchange reports. */
  datatype Execution = Execution(
    orderId: seq<byte>,
    clOrdId: seq<byte>,
    execType: seq<byte>,
    ordStatus: seq<byte>,
    side: seq<byte>,
    avgPx: real)

  /** A log entry that is such a report, with any further fields. */
  predicate IsReport(e: Sent, x: Execution) {
    && e.typ == ExecutionReport && Carriable(e)
    && HasText(e, 150, x.execType) && HasText(e, 39, x.ordStatus) && HasText(e, 54, x.side)
    && HasText(e, 11, x.clOrdId) && HasText(e, 37, x.orderId)
    && FirstOut(e.fields, 6) == Some(OutField(6, FloatValue(x.avgPx)))
    && x.execType != [] && x.ordStatus != [] && x.side != [] && |x.clOrdId| < 64
  }

  lemma TextFound(id: Identity, e: Sent, strNow: seq<byte>, tag: nat, text: seq<byte>)
    requires Carriable(e) && HasText(e, tag, text) && tag in {11, 37, 39, 54, 150}
    ensures GetField(Carried(id, e, strNow).fields, tag) == Some(StringField(tag, text))
  {
    hide GetField, Carried, CString, FirstOut, Carriable;
    TextRead(e, OutField(tag, StringValue(text)), id, strNow);
    VisibleIsWhole(text);
  }

  /**
   The report read from the parsed frame is the report that was sent, and its price is there as a float,
   whatever follows the frame.
   */
  lemma ReportArrives(e: Sent, x: Execution, id: Identity, strNow: seq<byte>, tail: seq<byte>, seqNum: int)
    requires SafeIdentity(id) && ShortText(strNow) && IsReport(e, x)
    ensures var r := Parse(Frame(OnWire(id, e, strNow)) + tail, seqNum);
      && r.Parsed? && r.msg.typ == ExecutionReport
      && ReadReport(r.msg) ==
           Some(Report(x.execType[0] as char, x.ordStatus[0] as char, x.side[0] as char, x.clOrdId))
      && GetField(r.msg.fields, 6).Some? && FloatNear(GetField(r.msg.fields, 6).value, 6, x.avgPx)
  {
    hide Parse, Frame, OnWire, Carried, Carriable, SafeIdentity, ShortText, GetField, ReadBack, FirstOut, FloatNear;
    hide VisibleBytes;
    CarriedIsParsed(id, e, strNow, tail, seqNum);
    CarriedHead(id, e, strNow);
    TextFound(id, e, strNow, 150, x.execType);
    TextFound(id, e, strNow, 39, x.ordStatus);
    TextFound(id, e, strNow, 54, x.side);
    TextFound(id, e, strNow, 11, x.clOrdId);
    TextFound(id, e, strNow, 37, x.orderId);
    FloatRead(e, OutField(6, FloatValue(x.avgPx)), id, strNow);
  }

  /** The event the trade office makes of it, with the codes of the protocol. */
  lemma ReportBecomesEvent(e: Sent, x: Execution, id: Identity, strNow: seq<byte>, tail: seq<byte>, seqNum: int,
                           broker: Office.Broker, order: nat)
    requires SafeIdentity(id) && ShortText(strNow) && IsReport(e, x)
    requires x.clOrdId == Digits(order) && order < TWO_64
    ensures var r := Parse(Frame(OnWire(id, e, strNow)) + tail, seqNum);
      var exec, status := x.execType[0] as char, x.ordStatus[0] as char;
      var side := if x.side[0] as char == '1' then Office.Buy else Office.Sell;
      && r.Parsed? && ReadReport(r.msg).Some?
      && OnReport(broker, ReadReport(r.msg).value) ==
           if exec in {'2', 'F'} && status == '2' then [Office.ExecutionEvent(broker, side, true, order)]
           else if exec in {'4', '8', 'H'} then [Office.ExecutionEvent(broker, side, false, order)]
           else []
  {
    hide Parse, Frame, OnWire, IsReport, SafeIdentity, ShortText, GetField, FloatNear, Stoul, ReadReport;
    ReportArrives(e, x, id, strNow, tail, seqNum);
    IdSurvives(order);
  }

  // ---- market data

  /**
   A market data message as it is parsed: its own fields stand behind the three of the header, in order, and
   every price (270) and quantity (271) among them is a float, every entry type (269) and action (279) a text.
   */
  lemma QuotesArrive(e: Sent, id: Identity, strNow: seq<byte>, tail: seq<byte>, seqNum: int, i: nat)
    requires SafeIdentity(id) && ShortText(strNow) && Carriable(e) && i < |e.fields|
    requires e.typ == MarketDataSnapshotFullRefresh || e.typ == MarketDataIncrementalRefresh
    ensures var r, f := Parse(Frame(OnWire(id, e, strNow)) + tail, seqNum), e.fields[i];
      && r.Parsed? && r.msg.typ == e.typ && |r.msg.fields| == 3 + |e.fields| && r.msg.fields[3 + i].tag == f.tag
      && (f.tag in {270, 271} && f.value.FloatValue? ==> FloatNear(r.msg.fields[3 + i], f.tag, f.value.x))
      && (f.tag in {269, 279} && f.value.CharValue? ==> r.msg.fields[3 + i] == StringField(f.tag, [f.value.c]))
  {
    hide Parse, Frame, OnWire, Carriable, SafeIdentity, ShortText, ReadBack, FloatNear, Receivable, TextTag, FloatTag;
    var f := e.fields[i];
    CarriedIsParsed(id, e, strNow, tail, seqNum);
    CarriedHead(id, e, strNow);
    OwnFields(id, e, strNow);
    ReadBacksAt(e.fields, i);
    FieldReceivable(e, f);
    ReadBackTag(f);
    ReadBackByTag(f);
    if f.tag in {270, 271} { FloatTags(f.tag); }
    if f.tag in {269, 279} { TextTags(f.tag); }
  }

  lemma ReadBackTag(f: OutField)
    ensures ReadBack(f).tag == f.tag
  {
  }

  lemma OwnFields(id: Identity, e: Sent, strNow: seq<byte>)
    ensures var fs := Carried(id, e, strNow).fields;
      |fs| == 3 + |e.fields| && fs[3..] == ReadBacks(e.fields)
  {
    hide TypedField, ReadBack, CString;
    assert |HeaderReceived(OnWire(id, e, strNow))| == 3;
  }

  // ---- orders

  function Letter(tag: nat, c: char): OutField
    requires c < 128 as char
  {
    OutField(tag, CharValue(c as int))
  }

  function Name(tag: nat, text: string): OutField {
    OutField(tag, StringValue(Ascii(text)))
  }

  /** What an order is for: the symbol in the broker's own terms. */
  function Instrument(ib: bool): seq<OutField> {
    if ib then [Name(55, "EUR"), Name(15, "USD"), Name(167, "CASH")] else [Name(48, "4001"), Name(22, "8")]
  }

  function Account(ib: bool): seq<OutField> {
    if ib then [Name(1, "U2707646"), OutField(204, IntValue(0)), Name(100, "IDEALPRO")] else []
  }

  /** Only a limit order has a time in force and a price. */
  function Terms(ib: bool, price: Option<real>): seq<OutField> {
    if price.Some? then [Letter(59, if ib then '3' else '4'), OutField(44, FloatValue(price.value))] else []
  }

  /** The message template of a trade office, filled in for an order; `ib` tells the two brokers apart. */
  function OrderFields(ib: bool, o: NewOrder, quantity: real, strNow: seq<byte>): seq<OutField>
    requires o.side < 128 as char && o.ordType < 128 as char
  {
    [OutField(11, StringValue(o.clOrdId))] + Instrument(ib) +
    [Letter(54, o.side), OutField(60, StringValue(strNow)), OutField(38, FloatValue(quantity)), Letter(40, o.ordType)] +
    Account(ib) + Terms(ib, o.price)
  }

  /** The order as it reads on the wire. */
  function OrderText(ib: bool, e: Office.OrderEvent, quantity: real, strNow: seq<byte>): seq<byte> {
    Spelt("11=", Digits(e.id)) +
    (if ib then Spelt("55=", Ascii("EUR")) + Spelt("15=", Ascii("USD")) + Spelt("167=", Ascii("CASH"))
     else Spelt("48=", Ascii("4001")) + Spelt("22=", Ascii("8"))) +
    (Spelt("54=", Ascii(if e.side == Office.Buy then "1" else "2")) + Spelt("60=", CString(strNow)) +
     Spelt("38=", Dtoa2Text(quantity, 7)) + Spelt("40=", Ascii(if e.order == Office.Limit then "2" else "1"))) +
    (if ib then Spelt("1=", Ascii("U2707646")) + Spelt("204=", Ascii("0")) + Spelt("100=", Ascii("IDEALPRO")) else []) +
    (if e.order == Office.Limit then
       Spelt("59=", Ascii(if ib then "3" else "4")) + Spelt("44=", Dtoa2Text(e.price, 7))
     else [])
  }

  lemma NameSays(tag: nat, key: string, text: string)
    requires Digits(tag) + [EQ] == Ascii(key) && forall c :: c in text ==> c > 1 as char
    ensures SpeltFields([Name(tag, text)]) == Spelt(key, Ascii(text)) && CString(Ascii(text)) == Ascii(text)
  {
    hide Digits, Ascii, SpeltFields, Spelt, CString;
    VisibleAscii(text);
    VisibleIsWhole(Ascii(text));
    OneSpelt(Name(tag, text), key);
  }

  lemma LetterSays(tag: nat, key: string, c: char)
    requires Digits(tag) + [EQ] == Ascii(key) && c < 128 as char
    ensures SpeltFields([Letter(tag, c)]) == Spelt(key, Ascii([c]))
  {
    hide Digits, Ascii, SpeltFields, Spelt;
    OneChar([c]);
    OneSpelt(Letter(tag, c), key);
  }

  lemma InstrumentSays(ib: bool)
    ensures SpeltFields(Instrument(ib)) ==
      if ib then Spelt("55=", Ascii("EUR")) + Spelt("15=", Ascii("USD")) + Spelt("167=", Ascii("CASH"))
      else Spelt("48=", Ascii("4001")) + Spelt("22=", Ascii("8"))
  {
    hide Digits, Ascii, SpeltFields, Spelt, Name;
    if ib {
      TwoDigitLabel(55, "55=");
      TwoDigitLabel(15, "15=");
      ThreeDigitLabel(167, "167=");
      NameSays(55, "55=", "EUR");
      NameSays(15, "15=", "USD");
      NameSays(167, "167=", "CASH");
      assert Instrument(ib) == [Name(55, "EUR")] + [Name(15, "USD")] + [Name(167, "CASH")];
      SpeltConcat([Name(55, "EUR")] + [Name(15, "USD")], [Name(167, "CASH")]);
      SpeltConcat([Name(55, "EUR")], [Name(15, "USD")]);
    } else {
      TwoDigitLabel(48, "48=");
      TwoDigitLabel(22, "22=");
      NameSays(48, "48=", "4001");
      NameSays(22, "22=", "8");
      assert Instrument(ib) == [Name(48, "4001")] + [Name(22, "8")];
      SpeltConcat([Name(48, "4001")], [Name(22, "8")]);
    }
  }

  lemma AccountSays(ib: bool)
    ensures SpeltFields(Account(ib)) ==
      if ib then Spelt("1=", Ascii("U2707646")) + Spelt("204=", Ascii("0")) + Spelt("100=", Ascii("IDEALPRO")) else []
  {
    hide Digits, Ascii, SpeltFields, Spelt, Name;
    if ib {
      var f := OutField(204, IntValue(0));
      OneDigitLabel(1, "1=");
      ThreeDigitLabel(204, "204=");
      ThreeDigitLabel(100, "100=");
      NameSays(1, "1=", "U2707646");
      ZeroText();
      OneSpelt(f, "204=");
      NameSays(100, "100=", "IDEALPRO");
      assert Account(ib) == [Name(1, "U2707646")] + [f] + [Name(100, "IDEALPRO")];
      SpeltConcat([Name(1, "U2707646")] + [f], [Name(100, "IDEALPRO")]);
      SpeltConcat([Name(1, "U2707646")], [f]);
    } else {
      NoneSpelt();
    }
  }

  lemma ZeroText()
    ensures FieldText(IntValue(0)) == Ascii("0")
  {
    OneChar("0");
  }

  lemma TermsSay(ib: bool, price: Option<real>)
    ensures SpeltFields(Terms(ib, price)) ==
      if price.Some? then Spelt("59=", Ascii(if ib then "3" else "4")) + Spelt("44=", Dtoa2Text(price.value, 7)) else []
  {
    hide Digits, Ascii, SpeltFields, Spelt, Letter, Dtoa2Text;
    if price.Some? {
      var l, f := Letter(59, if ib then '3' else '4'), OutField(44, FloatValue(price.value));
      TwoDigitLabel(59, "59=");
      TwoDigitLabel(44, "44=");
      LetterSays(59, "59=", if ib then '3' else '4');
      OneSpelt(f, "44=");
      assert Terms(ib, price) == [l] + [f];
      SpeltConcat([l], [f]);
    } else {
      NoneSpelt();
    }
  }

  lemma MiddleSays(side: char, ordType: char, quantity: real, strNow: seq<byte>)
    requires side < 128 as char && ordType < 128 as char
    ensures SpeltFields([Letter(54, side), OutField(60, StringValue(strNow)), OutField(38, FloatValue(quantity)),
                         Letter(40, ordType)]) ==
      Spelt("54=", Ascii([side])) + Spelt("60=", CString(strNow)) + Spelt("38=", Dtoa2Text(quantity, 7)) +
      Spelt("40=", Ascii([ordType]))
  {
    hide Digits, Ascii, SpeltFields, Spelt, Letter, Dtoa2Text, CString;
    var a, b := Letter(54, side), OutField(60, StringValue(strNow));
    var c, d := OutField(38, FloatValue(quantity)), Letter(40, ordType);
    TwoDigitLabel(54, "54=");
    TwoDigitLabel(60, "60=");
    TwoDigitLabel(38, "38=");
    TwoDigitLabel(40, "40=");
    LetterSays(54, "54=", side);
    OneSpelt(b, "60=");
    OneSpelt(c, "38=");
    LetterSays(40, "40=", ordType);
    assert [a, b, c, d] == [a] + [b] + [c] + [d];
    SpeltConcat([a] + [b] + [c], [d]);
    SpeltConcat([a] + [b], [c]);
    SpeltConcat([a], [b]);
  }

  /** The template filled in for an event. */
  function OrderEntry(ib: bool, e: Office.OrderEvent, seqNum: nat, quantity: real, strNow: seq<byte>): Sent
    requires OrderFor(e) != []
  {
    Sent(NewOrderSingle, seqNum, OrderFields(ib, OrderFor(e)[0], quantity, strNow))
  }

  lemma OrderSays(ib: bool, e: Office.OrderEvent, seqNum: nat, quantity: real, strNow: seq<byte>)
    requires OrderFor(e) != []
    ensures SpeltFields(OrderEntry(ib, e, seqNum, quantity, strNow).fields) == OrderText(ib, e, quantity, strNow)
  {
    hide Digits, Ascii, SpeltFields, Spelt, Letter, Dtoa2Text, CString, Instrument, Account, Terms;
    var o := OrderFor(e)[0];
    var a, b, d, f := [OutField(11, StringValue(o.clOrdId))], Instrument(ib), Account(ib), Terms(ib, o.price);
    var c := [Letter(54, o.side), OutField(60, StringValue(strNow)), OutField(38, FloatValue(quantity)),
              Letter(40, o.ordType)];
    TwoDigitLabel(11, "11=");
    OneSpelt(a[0], "11=");
    assert FieldText(a[0].value) == Digits(e.id) by { DigitsWhole(e.id); }
    InstrumentSays(ib);
    MiddleSays(o.side, o.ordType, quantity, strNow);
    AccountSays(ib);
    TermsSay(ib, o.price);
    SpeltConcat(a + b + c + d, f);
    SpeltConcat(a + b + c, d);
    SpeltConcat(a + b, c);
    SpeltConcat(a, b);
    assert [o.side] == (if e.side == Office.Buy then "1" else "2");
    assert [o.ordType] == (if e.order == Office.Limit then "2" else "1");
  }

  lemma DigitsWhole(n: nat)
    ensures CString(Digits(n)) == Digits(n)
  {
    hide Digits;
    VisibleIsWhole(Digits(n));
  }

  /** A BUY goes out as 54=1 and a SELL as 54=2, in a NewOrderSingle with the instrument's and the order's terms. */
  lemma OrderOnWire(ib: bool, e: Office.OrderEvent, seqNum: nat, quantity: real, id: Identity, strNow: seq<byte>)
    requires OrderFor(e) != []
    ensures Frame(OnWire(id, OrderEntry(ib, e, seqNum, quantity, strNow), strNow)) ==
      Whole(id, "D", seqNum, strNow, OrderText(ib, e, quantity, strNow))
  {
    hide Frame, Whole, OrderText, SpeltFields, OrderFields;
    WireOf(id, OrderEntry(ib, e, seqNum, quantity, strNow), strNow);
    OrderSays(ib, e, seqNum, quantity, strNow);
  }

  // ---- an order is read back

  /** The text of a float in range: a sign, ten digits, a point and seven digits at most. */
  lemma FloatText(x: real)
    requires Abs(x) <= THRES_MAX
    ensures Clean(Dtoa2Text(x, 7)) && |Dtoa2Text(x, 7)| <= 20
  {
    hide Padded, Strip, Round, ScaledFraction;
    var a := Abs(x);
    var r := Round(a, 7);
    ScaledFractionRange(a, 7);
    RoundScaledNear(a.Floor, ScaledFraction(a, 7), Pow10(7));
    RoundOf(a);
    TenDigits(r.whole);
    DigitsClean(r.whole);
    if r.frac > 0 {
      FractionClean(r.frac);
    }
  }

  lemma RoundOf(a: real)
    requires a >= 0.0
    ensures Round(a, 7) == RoundScaled(a.Floor, ScaledFraction(a, 7), Pow10(7))
  {
    hide RoundScaled, ScaledFraction, Pow10;
  }

  lemma TenDigits(n: nat)
    requires n <= 2147483648
    ensures |Digits(n)| <= 10
  {
    TenthPower();
    DigitsLength(n, 10);
  }

  lemma TenthPower()
    ensures Pow10(10) == 10_000_000_000
  {
    assert Pow10(10) == 100 * Pow10(8) && Pow10(8) == 100 * Pow10(6) && Pow10(6) == 100 * Pow10(4);
    assert Pow10(4) == 100 * Pow10(2) && Pow10(2) == 100;
  }

  lemma FractionClean(frac: nat)
    requires 0 < frac <= Pow10(7)
    ensures var (f, q) := Strip(frac, 7); Clean(Padded(f, q)) && |Padded(f, q)| <= 7
  {
    hide Padded, Strip, Pow10;
    if frac == Pow10(7) {
      StripOfPow10(7);
      OverflowPadded(7);
      DigitsClean(1);
    } else {
      StripKeepsNumber(frac, 7);
      var (f, q) := Strip(frac, 7);
      PaddedValue(f, q);
    }
  }

  predicate Sound(fs: seq<OutField>) {
    forall i :: 0 <= i < |fs| ==> Receivable(fs[i]) && PlainTag(fs[i].tag)
  }

  lemma SoundConcat(s: seq<OutField>, t: seq<OutField>)
    requires Sound(s) && Sound(t)
    ensures Sound(s + t)
  {
    hide Receivable, PlainTag;
  }

  lemma TextSound(tag: nat, text: seq<byte>)
    requires tag < 1000 && PlainTag(tag) && Visible(text)
    ensures Sound([OutField(tag, StringValue(text))])
  {
    VisibleIsWhole(text);
  }

  lemma NameSound(tag: nat, text: string)
    requires tag < 1000 && PlainTag(tag) && forall c :: c in text ==> c > 1 as char
    ensures Sound([Name(tag, text)])
  {
    hide Sound, Ascii;
    VisibleAscii(text);
    TextSound(tag, Ascii(text));
  }

  lemma LetterSound(tag: nat, c: char)
    requires tag < 1000 && PlainTag(tag) && 1 as char < c < 128 as char
    ensures Sound([Letter(tag, c)])
  {
  }

  lemma FloatSound(tag: nat, x: real)
    requires tag < 1000 && PlainTag(tag) && Abs(x) <= THRES_MAX
    ensures Sound([OutField(tag, FloatValue(x))])
  {
    hide Dtoa2Text;
    FloatText(x);
  }

  lemma InstrumentSound(ib: bool)
    ensures Sound(Instrument(ib))
  {
    hide Sound, Name, Ascii;
    if ib {
      NameSound(55, "EUR");
      NameSound(15, "USD");
      NameSound(167, "CASH");
      SoundConcat([Name(55, "EUR")], [Name(15, "USD")]);
      SoundConcat([Name(55, "EUR")] + [Name(15, "USD")], [Name(167, "CASH")]);
      assert Instrument(ib) == [Name(55, "EUR")] + [Name(15, "USD")] + [Name(167, "CASH")];
    } else {
      NameSound(48, "4001");
      NameSound(22, "8");
      SoundConcat([Name(48, "4001")], [Name(22, "8")]);
      assert Instrument(ib) == [Name(48, "4001")] + [Name(22, "8")];
    }
  }

  lemma AccountSound(ib: bool)
    ensures Sound(Account(ib))
  {
    hide Sound, Name, Ascii;
    if ib {
      var f := OutField(204, IntValue(0));
      NameSound(1, "U2707646");
      ZeroSound();
      NameSound(100, "IDEALPRO");
      SoundConcat([Name(1, "U2707646")], [f]);
      SoundConcat([Name(1, "U2707646")] + [f], [Name(100, "IDEALPRO")]);
      assert Account(ib) == [Name(1, "U2707646")] + [f] + [Name(100, "IDEALPRO")];
    } else {
      NothingSound();
    }
  }

  lemma NothingSound()
    ensures Sound([])
  {
  }

  lemma ZeroSound()
    ensures Sound([OutField(204, IntValue(0))])
  {
    assert FieldText(IntValue(0)) == [ZERO];
  }

  lemma TermsSound(ib: bool, price: Option<real>)
    requires price.Some? ==> Abs(price.value) <= THRES_MAX
    ensures Sound(Terms(ib, price))
  {
    hide Sound, Letter;
    if price.Some? {
      var l, f := Letter(59, if ib then '3' else '4'), OutField(44, FloatValue(price.value));
      LetterSound(59, if ib then '3' else '4');
      FloatSound(44, price.value);
      SoundConcat([l], [f]);
      assert Terms(ib, price) == [l] + [f];
    } else {
      NothingSound();
    }
  }

  lemma MiddleSound(side: char, ordType: char, quantity: real, strNow: seq<byte>)
    requires 1 as char < side < 128 as char && 1 as char < ordType < 128 as char
    requires Abs(quantity) <= THRES_MAX && Visible(strNow)
    ensures Sound([Letter(54, side), OutField(60, StringValue(strNow)), OutField(38, FloatValue(quantity)),
                   Letter(40, ordType)])
  {
    hide Sound, Letter, Visible;
    var a, b := Letter(54, side), OutField(60, StringValue(strNow));
    var c, d := OutField(38, FloatValue(quantity)), Letter(40, ordType);
    LetterSound(54, side);
    TextSound(60, strNow);
    FloatSound(38, quantity);
    LetterSound(40, ordType);
    SoundConcat([a], [b]);
    SoundConcat([a] + [b], [c]);
    SoundConcat([a] + [b] + [c], [d]);
    assert [a, b, c, d] == [a] + [b] + [c] + [d];
  }

  lemma OrderSound(ib: bool, o: NewOrder, quantity: real, strNow: seq<byte>)
    requires 1 as char < o.side < 128 as char && 1 as char < o.ordType < 128 as char && Visible(o.clOrdId)
    requires Abs(quantity) <= THRES_MAX && Visible(strNow) && (o.price.Some? ==> Abs(o.price.value) <= THRES_MAX)
    ensures Sound(OrderFields(ib, o, quantity, strNow))
  {
    hide Sound, Letter, Visible, Instrument, Account, Terms;
    var a, b, d, f := [OutField(11, StringValue(o.clOrdId))], Instrument(ib), Account(ib), Terms(ib, o.price);
    var c := [Letter(54, o.side), OutField(60, StringValue(strNow)), OutField(38, FloatValue(quantity)),
              Letter(40, o.ordType)];
    TextSound(11, o.clOrdId);
    InstrumentSound(ib);
    MiddleSound(o.side, o.ordType, quantity, strNow);
    AccountSound(ib);
    TermsSound(ib, o.price);
    SoundConcat(a, b);
    SoundConcat(a + b, c);
    SoundConcat(a + b + c, d);
    SoundConcat(a + b + c + d, f);
  }

  lemma SpeltLength(key: string, text: seq<byte>)
    ensures |Spelt(key, text)| == |key| + |text| + 1
  {
  }

  lemma TwentyDigits(n: nat)
    requires n < TWO_64
    ensures |Digits(n)| <= 20
  {
    TenthPower();
    assert Pow10(20) == 100 * Pow10(18) && Pow10(18) == 100 * Pow10(16) && Pow10(16) == 100 * Pow10(14);
    assert Pow10(14) == 100 * Pow10(12) && Pow10(12) == 100 * Pow10(10);
    DigitsLength(n, 20);
  }

  /** What a trade office is given: a quantity and prices within the printers' range, a time text. */
  predicate GoodOrder(e: Office.OrderEvent, quantity: real, strNow: seq<byte>) {
    && OrderFor(e) != [] && e.id < TWO_64 && VisibleBytes(strNow)
    && Abs(quantity) <= THRES_MAX && (e.order == Office.Limit ==> Abs(e.price) <= THRES_MAX)
  }

  lemma OrderSize(ib: bool, e: Office.OrderEvent, quantity: real, strNow: seq<byte>)
    requires GoodOrder(e, quantity, strNow)
    ensures |OrderText(ib, e, quantity, strNow)| <= 400
  {
    hide Digits, Ascii, Spelt, Dtoa2Text, CString;
    TwentyDigits(e.id);
    FloatText(quantity);
    VisibleIsWhole(strNow);
    SpeltLength("11=", Digits(e.id));
    SpeltLength("55=", Ascii("EUR"));
    SpeltLength("15=", Ascii("USD"));
    SpeltLength("167=", Ascii("CASH"));
    SpeltLength("48=", Ascii("4001"));
    SpeltLength("22=", Ascii("8"));
    SpeltLength("54=", Ascii(if e.side == Office.Buy then "1" else "2"));
    SpeltLength("60=", strNow);
    SpeltLength("38=", Dtoa2Text(quantity, 7));
    SpeltLength("40=", Ascii(if e.order == Office.Limit then "2" else "1"));
    SpeltLength("1=", Ascii("U2707646"));
    SpeltLength("204=", Ascii("0"));
    SpeltLength("100=", Ascii("IDEALPRO"));
    SpeltLength("59=", Ascii(if ib then "3" else "4"));
    if e.order == Office.Limit {
      FloatText(e.price);
      SpeltLength("44=", Dtoa2Text(e.price, 7));
    }
  }

  lemma OrderCarriable(ib: bool, e: Office.OrderEvent, seqNum: nat, quantity: real, strNow: seq<byte>)
    requires GoodOrder(e, quantity, strNow) && seqNum < TWO_31
    ensures Carriable(OrderEntry(ib, e, seqNum, quantity, strNow))
  {
    hide Digits, OrderFields, OrderText, Receivable, PlainTag, SpeltFields, PrintFields;
    var fs := OrderEntry(ib, e, seqNum, quantity, strNow).fields;
    OrderSound(ib, OrderFor(e)[0], quantity, strNow);
    OrderSize(ib, e, quantity, strNow);
    OrderSays(ib, e, seqNum, quantity, strNow);
    FieldsAreSpelt(fs);
    assert forall f :: f in fs ==> exists i :: 0 <= i < |fs| && fs[i] == f;
  }

  lemma {:induction false} FirstOutConcat(s: seq<OutField>, t: seq<OutField>, tag: int)
    ensures FirstOut(s + t, tag) == if FirstOut(s, tag).Some? then FirstOut(s, tag) else FirstOut(t, tag)
    decreases s
  {
    if s == [] {
      assert s + t == t;
    } else {
      FirstOutConcat(s[1..], t, tag);
      assert (s + t)[1..] == s[1..] + t;
    }
  }

  lemma {:induction false} NotAmong(fs: seq<OutField>, tag: int)
    requires forall i :: 0 <= i < |fs| ==> fs[i].tag != tag
    ensures FirstOut(fs, tag) == None
    decreases fs
  {
    if fs != [] {
      NotAmong(fs[1..], tag);
    }
  }

  lemma FirstOfAll(fs: seq<OutField>, i: nat)
    requires i < |fs| && forall j :: 0 <= j < i ==> fs[j].tag != fs[i].tag
    ensures FirstOut(fs, fs[i].tag) == Some(fs[i])
  {
    var front, rest := fs[..i], fs[i..];
    NotAmong(front, fs[i].tag);
    FirstOutConcat(front, rest, fs[i].tag);
    assert front + rest == fs;
  }

  /** Where a trade office finds the fields it fills in. */
  lemma OrderLookup(ib: bool, o: NewOrder, quantity: real, strNow: seq<byte>)
    requires o.side < 128 as char && o.ordType < 128 as char
    ensures var fs := OrderFields(ib, o, quantity, strNow);
      && FirstOut(fs, 11) == Some(OutField(11, StringValue(o.clOrdId))) && FirstOut(fs, 54) == Some(Letter(54, o.side))
      && FirstOut(fs, 38) == Some(OutField(38, FloatValue(quantity))) && FirstOut(fs, 40) == Some(Letter(40, o.ordType))
      && (o.price.Some? ==> FirstOut(fs, 44) == Some(OutField(44, FloatValue(o.price.value))))
  {
    hide Ascii, FirstOut;
    var fs := OrderFields(ib, o, quantity, strNow);
    var k := if ib then 4 else 3;
    FirstOfAll(fs, 0);
    FirstOfAll(fs, k);
    FirstOfAll(fs, k + 2);
    FirstOfAll(fs, k + 3);
    if o.price.Some? {
      FirstOfAll(fs, |fs| - 1);
    }
  }

  /** The other side reads the order's side, type and id, and its quantity and price as floats. */
  lemma OrderArrives(ib: bool, e: Office.OrderEvent, seqNum: nat, quantity: real, id: Identity, strNow: seq<byte>,
                     tail: seq<byte>, before: int)
    requires SafeIdentity(id) && ShortText(strNow) && GoodOrder(e, quantity, strNow) && seqNum < TWO_31
    ensures var r := Parse(Frame(OnWire(id, OrderEntry(ib, e, seqNum, quantity, strNow), strNow)) + tail, before);
      && r.Parsed? && r.msg.typ == NewOrderSingle
      && GetField(r.msg.fields, 54) == Some(StringField(54, [if e.side == Office.Buy then 49 else 50]))
      && GetField(r.msg.fields, 40) == Some(StringField(40, [if e.order == Office.Limit then 50 else 49]))
      && GetField(r.msg.fields, 11) == Some(StringField(11, Digits(e.id)))
      && GetField(r.msg.fields, 38).Some? && FloatNear(GetField(r.msg.fields, 38).value, 38, quantity)
      && (e.order == Office.Limit ==>
           GetField(r.msg.fields, 44).Some? && FloatNear(GetField(r.msg.fields, 44).value, 44, e.price))
  {
    hide Parse, Frame, OnWire, Carried, Carriable, SafeIdentity, ShortText, GetField, ReadBack, FloatNear, Digits;
    hide OrderFields, Receivable, TextTag, FloatTag, VisibleBytes, FirstOut;
    var x, o := OrderEntry(ib, e, seqNum, quantity, strNow), OrderFor(e)[0];
    OrderCarriable(ib, e, seqNum, quantity, strNow);
    CarriedIsParsed(id, x, strNow, tail, before);
    CarriedHead(id, x, strNow);
    OrderLookup(ib, o, quantity, strNow);
    TextRead(x, Letter(54, o.side), id, strNow);
    TextRead(x, Letter(40, o.ordType), id, strNow);
    TextRead(x, OutField(11, StringValue(o.clOrdId)), id, strNow);
    DigitsWhole(e.id);
    FloatRead(x, OutField(38, FloatValue(quantity)), id, strNow);
    if o.price.Some? {
      FloatRead(x, OutField(44, FloatValue(o.price.value)), id, strNow);
    }
  }
}
