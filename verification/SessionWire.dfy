/** What the session's own messages say on the wire, character by character. */
module SessionWire {
  import opened Options
  import opened Bytes
  import opened Decimal
  import opened Atoi
  import opened Buffers
  import opened FixTypes
  import opened FixScan
  import opened FixPrint
  import opened FixRoundTrip
  import opened FixSender
  import opened SessionControl

  /** A message of a session: `code` is its type and `own` the text of its own fields. */
  function Whole(id: Identity, code: string, seqNum: nat, strNow: seq<byte>, own: seq<byte>): seq<byte> {
    Sealed(
      CString(id.beginString),
      Spelt("35=", Ascii(code)) + Spelt("49=", CString(id.senderCompId)) + Spelt("56=", CString(id.targetCompId)) +
      Spelt("34=", Digits(seqNum)) + Spelt("52=", CString(strNow)) + own)
  }

  lemma WireOf(id: Identity, e: Sent, strNow: seq<byte>)
    requires e.typ != UnknownType
    ensures Frame(OnWire(id, e, strNow)) == Whole(id, TypeCode(e.typ), e.seqNum, strNow, SpeltFields(e.fields))
  {
    hide Frame, Sealed, Spelt, CString, Digits, Ascii, TypeCode, SpeltFields;
    FrameIsSpelt(OnWire(id, e, strNow));
  }

  /** The log has grown by one message, whose bytes are these. */
  predicate Says(s: Session, after: Session, id: Identity, code: string, seqNum: nat,
                 strNow: seq<byte>, own: seq<byte>)
  {
    && |after.sent| == |s.sent| + 1 && after.sent[..|s.sent|] == s.sent
    && Frame(OnWire(id, after.sent[|s.sent|], strNow)) == Whole(id, code, seqNum, strNow, own)
  }

  lemma Logged(s: Session, after: Session, e: Sent, id: Identity, strNow: seq<byte>)
    requires after.sent == s.sent + [e] && e.typ != UnknownType
    ensures Says(s, after, id, TypeCode(e.typ), e.seqNum, strNow, SpeltFields(e.fields))
  {
    hide Frame, Whole, TypeCode, SpeltFields;
    WireOf(id, e, strNow);
  }

  lemma OneSpelt(f: OutField, key: string)
    requires Digits(f.tag) + [EQ] == Ascii(key)
    ensures SpeltFields([f]) == Spelt(key, FieldText(f.value))
  {
    hide FieldText, Digits;
    assert [f][1..] == [] && SpeltFields([]) == [];
    assert Ascii("=") == [EQ];
    assert SpeltFields([f]) == Digits(f.tag) + [EQ] + FieldText(f.value) + [1] + [];
  }

  lemma TwoSpelt(f: OutField, g: OutField, key1: string, key2: string)
    requires Digits(f.tag) + [EQ] == Ascii(key1) && Digits(g.tag) + [EQ] == Ascii(key2)
    ensures SpeltFields([f, g]) == Spelt(key1, FieldText(f.value)) + Spelt(key2, FieldText(g.value))
  {
    hide FieldText, Digits;
    assert [f, g][1..] == [g];
    OneSpelt(g, key2);
    assert Ascii("=") == [EQ];
    assert SpeltFields([f, g]) == Digits(f.tag) + [EQ] + FieldText(f.value) + [1] + SpeltFields([g]);
  }

  lemma NumberText(tag: nat, n: nat)
    requires n < TWO_63
    ensures FieldText(IntOut(tag, n).value) == Digits(n) && IntOut(tag, n).tag == tag
  {
    hide Digits, Wrap64;
    WrapSmall(n);
  }

  lemma WrapSmall(n: nat)
    requires n < TWO_63
    ensures Wrap64(n) == n
  {
  }

  lemma HeartbeatSays(s: Session, text: Option<seq<byte>>, id: Identity, strNow: seq<byte>)
    ensures var own := if text.Some? then Spelt("112=", CString(text.value)) else [];
      Says(s, SendHeartbeat(s, text), id, "0", s.outSeq, strNow, own)
  {
    hide Says, Spelt, SpeltFields, CString, Digits;
    var after := SendHeartbeat(s, text);
    Logged(s, after, after.sent[|s.sent|], id, strNow);
    if text.Some? {
      ThreeDigitLabel(112, "112=");
      OneSpelt(TextOut(TAG_TEST_REQ_ID, text.value), "112=");
    } else {
      NoneSpelt();
    }
  }

  lemma NoneSpelt()
    ensures SpeltFields([]) == []
  {
  }

  /** The TestReqID is the session's time text. */
  lemma TestRequestSays(s: Session, strNow: seq<byte>, id: Identity)
    ensures Says(s, SendTestRequest(s, strNow), id, "1", s.outSeq, strNow, Spelt("112=", CString(strNow)))
  {
    hide Says, Spelt, SpeltFields, CString, Digits;
    var after := SendTestRequest(s, strNow);
    Logged(s, after, after.sent[|s.sent|], id, strNow);
    ThreeDigitLabel(112, "112=");
    OneSpelt(TextOut(TAG_TEST_REQ_ID, strNow), "112=");
  }

  lemma ResendRequestSays(s: Session, bgn: nat, end: nat, id: Identity, strNow: seq<byte>)
    requires bgn < TWO_63 && end < TWO_63
    ensures Says(s, SendResendRequest(s, bgn, end), id, "2", s.outSeq, strNow,
      Spelt("7=", Digits(bgn)) + Spelt("16=", Digits(end)))
  {
    hide Says, Spelt, SpeltFields, FieldText, Digits, IntOut;
    var after := SendResendRequest(s, bgn, end);
    Logged(s, after, after.sent[|s.sent|], id, strNow);
    NumberText(7, bgn);
    NumberText(16, end);
    OneDigitLabel(7, "7=");
    TwoDigitLabel(16, "16=");
    TwoSpelt(IntOut(TAG_BEGIN_SEQ_NO, bgn), IntOut(TAG_END_SEQ_NO, end), "7=", "16=");
  }

  lemma RejectSays(s: Session, refSeqNum: nat, text: seq<byte>, id: Identity, strNow: seq<byte>)
    requires refSeqNum < TWO_63
    ensures Says(s, SendReject(s, refSeqNum, text), id, "3", s.outSeq, strNow,
      Spelt("45=", Digits(refSeqNum)) + Spelt("58=", CString(text)))
  {
    hide Says, Spelt, SpeltFields, Digits, IntOut, CString;
    var after := SendReject(s, refSeqNum, text);
    Logged(s, after, after.sent[|s.sent|], id, strNow);
    NumberText(45, refSeqNum);
    TwoDigitLabel(45, "45=");
    TwoDigitLabel(58, "58=");
    TwoSpelt(IntOut(TAG_REF_SEQ_NUM, refSeqNum), TextOut(TAG_TEXT, text), "45=", "58=");
  }

  /** It goes out under the number it is given, and the counter stays. */
  lemma SequenceResetSays(s: Session, seqNum: nat, newSeqNum: nat, gapFill: bool, id: Identity, strNow: seq<byte>)
    requires newSeqNum < TWO_63
    ensures var after := SendSequenceReset(s, seqNum, newSeqNum, gapFill);
      && after.outSeq == s.outSeq
      && Says(s, after, id, "4", seqNum, strNow,
           Spelt("36=", Digits(newSeqNum)) + if gapFill then Spelt("123=", Ascii("Y")) else [])
  {
    hide Says, Spelt, SpeltFields, Digits, IntOut, CString, Ascii, TextOut, FieldText;
    var after := SendSequenceReset(s, seqNum, newSeqNum, gapFill);
    var f, g := IntOut(TAG_NEW_SEQ_NO, newSeqNum), TextOut(TAG_GAP_FILL_FLAG, Ascii("Y"));
    Logged(s, after, after.sent[|s.sent|], id, strNow);
    NumberText(36, newSeqNum);
    TwoDigitLabel(36, "36=");
    if gapFill {
      ThreeDigitLabel(123, "123=");
      assert [f] + [g] == [f, g];
      YesText();
      TwoSpelt(f, g, "36=", "123=");
    } else {
      assert [f] + [] == [f];
      OneSpelt(f, "36=");
      assert Spelt("36=", Digits(newSeqNum)) + [] == Spelt("36=", Digits(newSeqNum));
    }
  }

  lemma YesText()
    ensures TextOut(TAG_GAP_FILL_FLAG, Ascii("Y")).tag == 123
    ensures FieldText(TextOut(TAG_GAP_FILL_FLAG, Ascii("Y")).value) == Ascii("Y")
  {
    OneChar("Y");
    IndexOfUnique([89], NUL, 1);
  }

  lemma LogoutSays(s: Session, text: Option<seq<byte>>, id: Identity, strNow: seq<byte>)
    ensures var fields := if text.Some? then [OutField(58, StringValue(text.value))] else [];
      var own := if text.Some? then Spelt("58=", CString(text.value)) else [];
      Says(s, Send(s, MsgType.Logout, fields), id, "5", s.outSeq, strNow, own)
  {
    hide Says, Spelt, SpeltFields, CString, Digits;
    var fields := if text.Some? then [OutField(58, StringValue(text.value))] else [];
    var after := Send(s, MsgType.Logout, fields);
    Logged(s, after, after.sent[|s.sent|], id, strNow);
    if text.Some? {
      TwoDigitLabel(58, "58=");
      OneSpelt(fields[0], "58=");
    } else {
      NoneSpelt();
    }
  }

  lemma TextSpelt(tag: nat, key: string, text: seq<byte>)
    requires Digits(tag) + [EQ] == Ascii(key)
    ensures SpeltFields([TextOut(tag, text)]) == Spelt(key, CString(text))
  {
    hide Digits, Ascii, SpeltFields, Spelt, CString;
    OneSpelt(TextOut(tag, text), key);
  }

  lemma NumberSpelt(tag: nat, key: string, n: nat)
    requires Digits(tag) + [EQ] == Ascii(key) && n < TWO_63
    ensures SpeltFields([IntOut(tag, n)]) == Spelt(key, Digits(n))
  {
    hide Digits, Ascii, SpeltFields, Spelt, IntOut, FieldText;
    NumberText(tag, n);
    OneSpelt(IntOut(tag, n), key);
  }

  lemma SpeltConcat(s: seq<OutField>, t: seq<OutField>)
    ensures SpeltFields(s + t) == SpeltFields(s) + SpeltFields(t)
  {
    hide SpeltFields, PrintFields;
    FieldsAreSpelt(s);
    FieldsAreSpelt(t);
    FieldsAreSpelt(s + t);
    PrintFieldsSplit(s + t, |s|);
    assert (s + t)[..|s|] == s && (s + t)[|s|..] == t;
  }

  /** EncryptMethod 0, ResetSeqNumFlag Y, the heartbeat interval and who logs on. */
  lemma LogonSays(s: Session, heartbtint: nat, username: seq<byte>, password: seq<byte>,
                  id: Identity, strNow: seq<byte>)
    requires heartbtint < TWO_63
    ensures Says(s, Send(s, MsgType.Logon, LogonFields(heartbtint, username, password)), id, "A", s.outSeq, strNow,
      Spelt("98=", Digits(0)) + Spelt("141=", Ascii("Y")) + Spelt("108=", Digits(heartbtint)) +
      Spelt("553=", CString(username)) + Spelt("554=", CString(password)))
  {
    hide Says, Spelt, SpeltFields, Digits, IntOut, TextOut, CString, Ascii;
    var fields := LogonFields(heartbtint, username, password);
    var a, b, c := IntOut(98, 0), TextOut(141, Ascii("Y")), IntOut(108, heartbtint);
    var d, e := TextOut(553, username), TextOut(554, password);
    var after := Send(s, MsgType.Logon, fields);
    Logged(s, after, after.sent[|s.sent|], id, strNow);
    TwoDigitLabel(98, "98=");
    ThreeDigitLabel(141, "141=");
    ThreeDigitLabel(108, "108=");
    ThreeDigitLabel(553, "553=");
    ThreeDigitLabel(554, "554=");
    NumberSpelt(98, "98=", 0);
    OneChar("Y");
    VisibleIsWhole(Ascii("Y"));
    TextSpelt(141, "141=", Ascii("Y"));
    NumberSpelt(108, "108=", heartbtint);
    TextSpelt(553, "553=", username);
    TextSpelt(554, "554=", password);
    SpeltConcat([a] + [b] + [c] + [d], [e]);
    SpeltConcat([a] + [b] + [c], [d]);
    SpeltConcat([a] + [b], [c]);
    SpeltConcat([a], [b]);
    assert fields == [a] + [b] + [c] + [d] + [e];
  }

  // ---- the words of a refusal

  predicate Visible(s: seq<byte>) {
    forall i :: 0 <= i < |s| ==> s[i] > SOH
  }

  lemma {:induction false} VisibleAscii(s: string)
    requires forall c :: c in s ==> c > 1 as char
    ensures Visible(Ascii(s))
  {
    if s != "" {
      assert s[0] in s && forall c :: c in s[1..] ==> c in s;
      VisibleAscii(s[1..]);
    }
  }

  /** A visible text is sent as it is. */
  lemma VisibleIsWhole(s: seq<byte>)
    requires Visible(s)
    ensures CString(s) == s
  {
    IndexOfUnique(s, NUL, |s|);
  }

  lemma TooLowWords(expecting: nat, received: nat)
    ensures var text := TooLowText(expecting, received);
      && text == Ascii("MsgSeqNum too low, expecting ") + Digits(expecting) + Ascii(" received ") + Digits(received)
      && Visible(text) && CString(text) == text
  {
    hide Ascii, Digits, CString;
    VisibleAscii("MsgSeqNum too low, expecting ");
    VisibleAscii(" received ");
    VisibleIsWhole(TooLowText(expecting, received));
  }

  lemma LowerWords(newSeqNum: nat)
    ensures var text := LowerText(newSeqNum);
      && text == Ascii("Attempt to lower sequence ") + Ascii("number, invalid value ") + Ascii("NewSeqNum = ") +
           Digits(newSeqNum)
      && CString(text) == text
  {
    hide Ascii, Digits, CString;
    LowerVisible();
    VisibleIsWhole(LowerText(newSeqNum));
  }

  lemma LowerVisible()
    ensures Visible(Ascii("Attempt to lower sequence ")) && Visible(Ascii("number, invalid value "))
    ensures Visible(Ascii("NewSeqNum = "))
  {
    hide Ascii;
    VisibleAscii("Attempt to lower sequence ");
    VisibleAscii("number, invalid value ");
    VisibleAscii("NewSeqNum = ");
  }

  lemma IncorrectWords(newSeqNum: nat)
    ensures var text := IncorrectText(newSeqNum);
      && text == Ascii("Value is incorrect (too low) ") + Digits(newSeqNum) && CString(text) == text
  {
    hide Ascii, Digits, CString;
    VisibleAscii("Value is incorrect (too low) ");
    VisibleIsWhole(IncorrectText(newSeqNum));
  }
}
