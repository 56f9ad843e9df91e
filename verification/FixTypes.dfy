/** Message types, tags and fields: the tables of src/libtrading/proto/fix_message.c and its header. */
module FixTypes {
  import opened Bytes

  const FIX_MAX_HEAD_LEN := 256
  const FIX_MAX_BODY_LEN := 1024
  const FIX_MAX_MESSAGE_SIZE := FIX_MAX_HEAD_LEN + FIX_MAX_BODY_LEN
  const FIX_MAX_FIELD_NUMBER := 48

  const TAG_BEGIN_SEQ_NO := 7
  const TAG_BEGIN_STRING := 8
  const TAG_BODY_LENGTH := 9
  const TAG_CHECK_SUM := 10
  const TAG_END_SEQ_NO := 16
  const TAG_MSG_SEQ_NUM := 34
  const TAG_MSG_TYPE := 35
  const TAG_NEW_SEQ_NO := 36
  const TAG_POSS_DUP_FLAG := 43
  const TAG_REF_SEQ_NUM := 45
  const TAG_SENDER_COMP_ID := 49
  const TAG_SENDING_TIME := 52
  const TAG_TARGET_COMP_ID := 56
  const TAG_TEXT := 58
  const TAG_TEST_REQ_ID := 112
  const TAG_GAP_FILL_FLAG := 123
  const TAG_NEXT_EXPECTED_MSG_SEQ_NUM := 789

  datatype MsgType =
    | Heartbeat
    | TestRequest
    | ResendRequest
    | Reject
    | SequenceReset
    | Logout
    | Logon
    | MarketDataRequest
    | MarketDataSnapshotFullRefresh
    | MarketDataIncrementalRefresh
    | MarketDataRequestReject
    | ExecutionReport
    | OrderCancelReject
    | NewOrderSingle
    | OrderCancelRequest
    | OrderCancelReplaceRequest
    | OrderStatusRequest
    | TradeCaptureReportRequest
    | TradeCaptureReport
    | TradeCaptureReportRequestAck
    | QuoteRequest
    | MassQuote
    | MassQuoteAck
    | QuoteRequestReject
    | QuoteCancel
    | Quote
    | QuoteResponse
    | NewOrderList
    | RequestForPositions
    | RequestForPositionsAck
    | PositionReport
    | OrderMassStatusRequest
    | UnknownType

  /** The text the printer uses for each type. */
  function TypeText(t: MsgType): (r: seq<byte>)
    requires t != UnknownType
  {
    match t
    case Heartbeat => [48]  // "0"
    case TestRequest => [49]  // "1"
    case ResendRequest => [50]  // "2"
    case Reject => [51]  // "3"
    case SequenceReset => [52]  // "4"
    case Logout => [53]  // "5"
    case Logon => [65]  // "A"
    case MarketDataRequest => [86]  // "V"
    case MarketDataSnapshotFullRefresh => [87]  // "W"
    case MarketDataIncrementalRefresh => [88]  // "X"
    case MarketDataRequestReject => [89]  // "Y"
    case ExecutionReport => [56]  // "8"
    case OrderCancelReject => [57]  // "9"
    case NewOrderSingle => [68]  // "D"
    case OrderCancelRequest => [70]  // "F"
    case OrderCancelReplaceRequest => [71]  // "G"
    case OrderStatusRequest => [72]  // "H"
    case TradeCaptureReportRequest => [65, 68]  // "AD"
    case TradeCaptureReport => [65, 69]  // "AE"
    case TradeCaptureReportRequestAck => [65, 81]  // "AQ"
    case QuoteRequest => [82]  // "R"
    case MassQuote => [105]  // "i"
    case MassQuoteAck => [98]  // "b"
    case QuoteRequestReject => [65, 71]  // "AG"
    case QuoteCancel => [90]  // "Z"
    case Quote => [83]  // "S"
    case QuoteResponse => [65, 74]  // "AJ"
    case NewOrderList => [69]  // "E"
    case RequestForPositions => [65, 78]  // "AN"
    case RequestForPositionsAck => [65, 79]  // "AO"
    case PositionReport => [65, 80]  // "AP"
    case OrderMassStatusRequest => [65, 70]  // "AF"
  }

  /** The type the parser reads from a MsgType value. */
  function TypeOfText(v: seq<byte>): MsgType {
    if |v| == 2 then
      if v == [65, 74] then QuoteResponse else  // "AJ"
      if v == [65, 68] then TradeCaptureReportRequest else  // "AD"
      if v == [65, 71] then QuoteRequestReject else  // "AG"
      if v == [65, 78] then RequestForPositions else  // "AN"
      if v == [65, 79] then RequestForPositionsAck else  // "AO"
      if v == [65, 80] then PositionReport else  // "AP"
      if v == [65, 70] then OrderMassStatusRequest else  // "AF"
      if v == [67, 69] then TradeCaptureReport else  // "CE"
      if v == [66, 81] then TradeCaptureReportRequestAck else  // "BQ"
      UnknownType
    else if |v| == 1 then
      match v[0]
      case 48 => Heartbeat  // '0'
      case 49 => TestRequest  // '1'
      case 50 => ResendRequest  // '2'
      case 51 => Reject  // '3'
      case 52 => SequenceReset  // '4'
      case 53 => Logout  // '5'
      case 56 => ExecutionReport  // '8'
      case 57 => OrderCancelReject  // '9'
      case 65 => Logon  // 'A'
      case 68 => NewOrderSingle  // 'D'
      case 70 => OrderCancelRequest  // 'F'
      case 71 => OrderCancelReplaceRequest  // 'G'
      case 72 => OrderStatusRequest  // 'H'
      case 87 => MarketDataSnapshotFullRefresh  // 'W'
      case 88 => MarketDataIncrementalRefresh  // 'X'
      case 86 => MarketDataRequest  // 'V'
      case 89 => MarketDataRequestReject  // 'Y'
      case 82 => QuoteRequest  // 'R'
      case 105 => MassQuote  // 'i'
      case 98 => MassQuoteAck  // 'b'
      case 90 => QuoteCancel  // 'Z'
      case 83 => Quote  // 'S'
      case 69 => NewOrderList  // 'E'
      case _ => UnknownType
    else UnknownType
  }

  datatype Kind = IntKind | FloatKind | CharKind | StringKind | ChecksumKind | SeqNumKind

  /** How the parser types each tag; an unlisted tag is a string. */
  function TagKind(tag: int): Kind {
    if tag == TAG_CHECK_SUM then ChecksumKind
    else if tag == TAG_MSG_SEQ_NUM || tag == TAG_NEXT_EXPECTED_MSG_SEQ_NUM then SeqNumKind
    else if tag in {
        7, 16, 36, 45, 67, 68, 73, 83, 93, 95, 97, 102, 103, 146, 204, 264, 265, 267,
        268, 295, 296, 302, 304, 354, 369, 371, 373, 383, 384, 552, 569, 580, 727, 748,
        749, 750, 753, 911, 1023}
    then IntKind
    else if tag in {
        6, 14, 31, 32, 38, 44, 99, 132, 133, 134, 135, 151, 270, 271, 704, 705, 730,
        10103}
    then FloatKind
    else if tag in {
        18, 59, 156, 263, 266, 276, 281, 297, 298, 385, 434, 442, 464, 537, 581, 694,
        708, 728, 729, 731, 734, 742, 912, 1385, 10104}
    then CharKind
    else StringKind
  }

  predicate TablesAgree(t: MsgType) {
    t != TradeCaptureReport && t != TradeCaptureReportRequestAck
  }

  /** Every printed type is read back as itself, except the two whose tables disagree. */
  lemma TypeRoundTrip(t: MsgType)
    requires t != UnknownType
    ensures TypeOfText(TypeText(t)) == t <==> TablesAgree(t)
    ensures !TablesAgree(t) ==> TypeOfText(TypeText(t)) == UnknownType
    ensures 1 <= |TypeText(t)| <= 2 && forall i :: 0 <= i < |TypeText(t)| ==> TypeText(t)[i] > SOH
  {
    var v := TypeText(t);
    if |v| == 2 {
      assert v == [v[0], v[1]] && v[0] == 65;
    }
  }

  /** The codes the parser takes for those two are not the ones the printer writes. */
  lemma DisputedCodes()
    ensures TypeOfText(Ascii("CE")) == TradeCaptureReport && TypeOfText(Ascii("BQ")) == TradeCaptureReportRequestAck
    ensures TypeText(TradeCaptureReport) == Ascii("AE") && TypeText(TradeCaptureReportRequestAck) == Ascii("AQ")
  {
    TwoLetters("CE");
    TwoLetters("BQ");
    TwoLetters("AE");
    TwoLetters("AQ");
  }

  lemma TwoLetters(s: string)
    requires |s| == 2 && s[0] < 128 as char && s[1] < 128 as char
    ensures Ascii(s) == [s[0] as int, s[1] as int]
  {
    assert s[1..][1..] == "" && Ascii("") == [];
    assert Ascii(s[1..]) == [s[1] as int] + Ascii(s[1..][1..]);
    assert Ascii(s) == [s[0] as int] + Ascii(s[1..]);
  }
}
