# A verified model of Arbito's FIX engine, logging pool and arbitrage office

Arbito trades the difference between two brokers. It speaks FIX 4.4 through a small C library, logs through
a worker pool, and decides in a C++ office what to buy and sell. This project models the parts of it whose
correctness spans many functions, in Dafny, and proves what they guarantee over all inputs and all runs.
`dafny verify dfyconfig.toml` checks everything.

| files | part of the system |
|---|---|
| `Bytes`, `Option`, `Decimal` | bytes, sums, and the reference meaning of decimal text |
| `Atoi`, `Itoa`, `Modp`, `ModpPrint` | reading and printing numbers, with the C integer widths; decimals on mathematical reals |
| `Buffer` | `struct buffer` as a class over a byte array, and a socket that delivers arbitrary chunks |
| `FixTypes`, `FixScan`, `FixMessage` | message tables; what the parser means on a sequence of bytes; the parser in place, proved equal to it |
| `FixPrint`, `FixRoundTrip`, `FixResync` | the printer; printer against parser; the parser on damaged and arbitrary bytes |
| `FixSession`, `FixSender` | receiving from chunks and reassembling the stream; numbering and sending |
| `SessionControl`, `SessionGate`, `SessionNumbers`, `SessionHandlers` | the session handlers as functions of a script of events; the re-entrant handler against a plain loop; outgoing numbers; the handlers in place |
| `SessionEnd`, `SessionWire` | logon, logout and what each polled message does; the session's own messages in bytes |
| `KeepAlive` | heartbeats, test requests and the time bound on a dead peer |
| `EndToEnd`, `GapRecovery`, `Exchanges` | a sender and a receiver joined by a lossless connection; two engines after a loss; test request, gap fill and low number over the wire |
| `CircularQ`, `BlockingQueue`, `ThreadPool` | the bounded queue, its blocking wrapper as interleaved steps, and the worker pool |
| `Office`, `OfficePairs`, `OfficeMoves`, `TradeOffice`, `OrderWire`, `OfficeLedger` | the arbitrage decision, what holds of every order pair and every call, the trade offices, their messages over the wire, and the ledger across both brokers |

The design has two layers. Functions on values say what an operation means. Methods on classes and arrays
follow the source statement by statement and are proved equal to those functions. The main theorems are
lemmas about the functions, so they hold of the methods too. The standard behind the protocol parts is
FIX 4.4 Volume 2 (FIX Session Protocol), sections "Data Integrity", "Message Recovery" and "Heartbeat".

## What the code does that its readers may not expect

- The printer writes TradeCaptureReport and TradeCaptureReportRequestAck as AE and AQ, the parser accepts CE
  and BQ; these two types are the only ones that do not come back (`FixTypes.TypeRoundTrip`).
- Tag 789 (NextExpectedMsgSeqNum) is stored as the message's own sequence number, a user field with tag 34 does
  the same, and one with tag 10 ends the message (`FixRoundTrip.NumberOverwritten`, `MessageCutShort`); what
  becomes of any message is `FixRoundTrip.WhatIsUnderstood`, and which come back is `FixRoundTrip.RoundTrip`.
- The received field table has 48 slots and its fill level is not checked. Which messages fill more is
  `FixRoundTrip.TableNotOverrun`; 46 plain fields, two fewer than the sender admits, do (`FortySixOverrun`).
- The field scan ignores BodyLength. A last field without its SOH takes the trailer into its value and the scan goes
  on in the next frame (`FixResync.OpenFieldRunsOver`); when that happens is `FixResync.ConsumedLength`.
- The decimal printers carry only when rounding strictly up; at the exact tie below the next whole number the
  carry is lost, and 0.95 with one place is printed as 0.1 (`Modp.RoundingBound`, `Modp.TieExample`).
- Bytes in front of a frame that hold no equals sign cost that frame unless they read as leading zeros of its tag,
  since the search for the first equals sign runs into it (`FixResync.NoiseCostsOneFrame`).
- A receive buffer that fills up without completing a message is never read into again; 2816 zeros do that to a
  new session (`FixSessions.FullBufferStalls`, `ZerosStall`).
- A SequenceReset whose NewSeqNo is negative takes the unsigned counter to its end
  (`SessionGate.RolloverExample`); when exactly the number rolls over is `SessionGate.StepNeverLowers`, and the
  in-order theorems exclude resets within reach of the end.
- A ResendRequest with EndSeqNo 0, which is what the engine itself sends, is answered with NewSeqNo 1, which the
  engine refuses. A gap between two of these engines is closed by the exchange only if it is one message wide
  (`GapRecovery.GapExchange`), and while the peer goes on sending it never closes at all: a checked message that
  reveals it is lost too, and any other is counted without closing it (`GapRecovery.GapNeverCloses`).
- A gap that a gap fill reveals does close at once, because that request names its end (`Exchanges.GapFillCloses`).
- A SequenceReset without gap fill that names the expected number uses it up, and the next checked message ends the
  session (`SessionEnd.ResetToExpected`).
- A pending test request is not cleared by ordinary messages, so a session can be declared dead a second after it
  received one (`KeepAlive.EarlyDeath`); when exactly it is declared dead is `KeepAlive.DeathExactly`.
- An order that is cancelled after a partial execution is corrected as a whole, so the executed part is left over
  (`OfficeLedger.HalfAnOrderLeft`); what is left over in general is `OfficeLedger.DeltaNeutral`.
- `FIXSession::poll` hands application messages on without the sequence check; they move the expected number
  by one (`SessionGate.PollConsecutive`).
- The flags test in `fix_session_send` is a logical and, so any non-zero flags keep the number; callers pass
  0 or the flag to keep it.
- The interval bound on a dead peer has to allow for the previous poll's clock, because a test request is
  stamped before the clock of the current poll is stored.

## Model

| member | source | states |
|---|---|---|
| FixSessions.Reassembly | src/libtrading/proto/fix_session.c:181-222 | Over every run of receive calls and every slicing of the frames into chunks, the messages returned are exactly the received forms of a prefix of the sent list, in order, and what is buffered plus what is still to come are exactly the frames of the rest |
| FixSessions.EverythingArrives | src/libtrading/proto/fix_session.c:181-222 | However the bytes are chunked, one call per message and per byte is enough to get every message, when reading fails only while the network holds nothing |
| FixSessions.RecvProgress | src/libtrading/proto/fix_session.c:181-222 | A call on a stream that does not fail returns a message or takes bytes from the network |
| FixSessions.AllDelivered | src/libtrading/proto/fix_session.c:181-222 | Once all bytes have arrived, as many further calls as there are messages return all of them and leave nothing unread |
| FixSessions.RecvKeepsStream | src/libtrading/proto/fix_session.c:181-222 | One call on a stream of frames returns its next message, or returns none, has then asked the socket for bytes, keeps the stream intact and leaves room to read more |
| FixSessions.NextCallDelivers | src/libtrading/proto/fix_session.c:189-193 | A call that finds a whole frame buffered returns its message without reading |
| FixSessions.ParseStream | src/libtrading/proto/fix_message.c:719-762 | Parsing any prefix of a stream of frames returns the first message exactly when its frame is complete, and otherwise consumes nothing and leaves room |
| FixSessions.FullBufferStalls | src/libtrading/proto/fix_session.c:181-222 | A call changes nothing and does not even read exactly when what is buffered makes no message, none of it is garbled, and there is no room left to read |
| FixSessions.StallsFromStart | src/libtrading/proto/fix_session.c:173-206 | In every run of a new session whose first read brings as many bytes without an equals sign as there is room for, nothing is ever delivered or read again |
| FixSessions.StalledForever | src/libtrading/proto/fix_session.c:181-222 | A stalled session stays as it is in every run |
| FixSessions.ZerosStall | src/libtrading/proto/fix_session.c:173-206 | A new session that first receives 2816 zeros never delivers anything |
| FixSessions.NoEqualsNoMessage | src/libtrading/proto/fix_message.c:162-182 | Bytes without an equals sign, however many, yield no message and are not consumed; so a buffer full of them stalls the session |
| FixRoundTrip.RoundTrip | src/libtrading/proto/fix_message.c:719-762 | Parsing the frame printed for a message, followed by any bytes, gives its type, number, BeginString and typed fields back and consumes exactly the frame, if and only if no own field carries tag 10, 34 or 789 and the number fits the 32-bit reader |
| FixRoundTrip.TryFrame | src/libtrading/proto/fix_message.c:728-751 | The first pass of the retry loop over a printed frame already succeeds, with the message as it is understood |
| FixRoundTrip.WhatIsUnderstood | src/libtrading/proto/fix_message.c:556-594 | What becomes of a printed frame whatever tags its fields carry: tags 34 and 789 overwrite the number and are not kept, the first tag 10 ends the message, all other fields are kept in order |
| FixRoundTrip.TableNotOverrun | src/libtrading/proto/fix_message.c:556-594 | For every well-formed message: the slots its frame fills, and the fields the returned message holds, are the three of the header and the own fields in front of the first tag 10 whose tags are not 34 or 789; the 48 slots suffice exactly when these are at most 48 |
| FixRoundTrip.FortySixOverrun | src/libtrading/proto/fix_message.c:848-853 | A message with 46 own fields, which the sender admits, fills 49 slots at the receiver |
| FixRoundTrip.StoredIsReturned | src/libtrading/proto/fix_message.c:556-594 | Over any bytes, a scan that gets to CheckSum returns as many fields as slots it filled |
| FixRoundTrip.NumberOverwritten | src/libtrading/proto/fix_message.c:586-588 | A field with tag 789 or 34 replaces the number of the message and is gone |
| FixRoundTrip.MessageCutShort | src/libtrading/proto/fix_message.c:584-585 | A field with tag 10 ends the message and leaves the real trailer unread |
| FixRoundTrip.ExpectsFiveIsMisread | src/libtrading/proto/fix_message.c:529-530 | A heartbeat numbered 1 that carries NextExpectedMsgSeqNum 5 is understood as number 5 |
| FixRoundTrip.ReadBackSame | src/libtrading/proto/fix_message.c:249-554 | An integer, character or string field whose value agrees with the type of its tag is received as it was sent |
| FixRoundTrip.ReadBackFloat | src/libtrading/proto/fix_message.c:883-887 | A float field reaches the reader as text within half a unit of the seventh place exactly outside the tie case |
| FixRoundTrip.ReadBackByTag | src/libtrading/proto/fix_message.c:249-554 | Under each tag of the table an integer, a float or a character of the fitting kind comes back as such, and under every other tag that is kept a text comes back as a text; the tags are listed apart from the parser |
| FixRoundTrip.PartialFrame | src/libtrading/proto/fix_message.c:612-629 | A frame cut anywhere before its end is not garbled: parsing it returns no message and consumes nothing |
| FixRoundTrip.HeadCut | src/libtrading/proto/fix_message.c:702-717 | A frame cut inside its first three fields is reported as partial by the head scan |
| FixRoundTrip.HeadArrived | src/libtrading/proto/fix_message.c:612-622 | Once the first three fields of a frame are there, the head scan yields its type, BodyLength and the positions the sum range is taken from |
| FixRoundTrip.TryRaw | src/libtrading/proto/fix_message.c:612-653 | For a frame with a correct head and MsgType, any bytes in the rest of the body and any three trailer characters, the verdict rests on the sum alone: the message, or a skip of the whole frame |
| FixRoundTrip.MismatchSkipped | src/libtrading/proto/fix_message.c:643-646 | A frame whose sum does not match is skipped as a whole and the search goes on right behind it |
| FixRoundTrip.DamageSkipped | src/libtrading/proto/fix_message.c:596-653 | With any one body byte after the MsgType field replaced, a frame is never returned, and the same call returns the good frame that follows |
| FixRoundTrip.WrongChecksumSkipped | src/libtrading/proto/fix_message.c:596-604 | With wrong CheckSum characters a frame is never returned, and the same call returns the good frame that follows |
| FixRoundTrip.SumNoticesByte | src/libtrading/buffer.c:34-43 | Replacing one byte always changes the sum modulo 256 |
| FixRoundTrip.RestOfFields | src/libtrading/proto/fix_message.c:556-594 | Scanning the printed list of own fields without tag 10 stores, in order, what is kept of each |
| FixRoundTrip.RestOfFrame | src/libtrading/proto/fix_message.c:556-594 | Scanning everything after MsgType gives the number and the fields as they are understood, and stops after the first tag 10, which is the trailer unless an own field carries it |
| FixRoundTrip.ScanPrinted | src/libtrading/proto/fix_message.c:162-247 | Scanning a printed field finds its tag and value and ends right behind its SOH, whatever follows |
| FixRoundTrip.ScanCut | src/libtrading/proto/fix_message.c:162-199 | A field cut before its SOH is partial, never garbled |
| FixResync.LeftoverIsSettled | src/libtrading/proto/fix_message.c:753-761 | When arbitrary bytes yield no message, what stays unread is a suffix of them on which a further call changes nothing |
| FixResync.SkipGoesForward | src/libtrading/proto/fix_message.c:637-646 | A garbled attempt consumes at least one byte and at most all; with a whole head it ends behind the place BodyLength points to, even when that lies before the scan position |
| FixResync.ReturnedIsChecked | src/libtrading/proto/fix_message.c:728-751 | On arbitrary bytes, a returned message comes from a position where head, trailer position and byte sum agree |
| FixResync.ConsumedLength | src/libtrading/proto/fix_message.c:556-594 | On arbitrary bytes, a returned message ends with the trailer that was checked exactly when the field scan arrives there, stops at a CheckSum or garbled field that swallowed it, or has run over the last bytes there are; it ends earlier exactly when the scan stops before it |
| FixResync.LengthRefused | src/libtrading/proto/fix_message.c:676-693 | A frame is given up right behind its BodyLength exactly when that is 0 or above 1280 |
| FixResync.ScanPassesTrailer | src/libtrading/proto/fix_message.c:556-594 | How far the field scan gets, seen from a trailer ahead of it; it never ends inside the trailer |
| FixResync.OpenFieldRunsOver | src/libtrading/proto/fix_message.c:556-594 | A frame with a correct sum whose last body field lacks its SOH: the value takes the trailer in, and the scan goes on in what follows the frame |
| FixResync.GotIsChecked | src/libtrading/proto/fix_message.c:596-604 | A successful pass implies that the bytes from BeginString up to the trailer add up to the CheckSum value modulo 256 |
| FixResync.NoiseCostsOneFrame | src/libtrading/proto/fix_message.c:719-762 | For any bytes without an equals sign in front of a frame: the frame is returned exactly when they are all digits and, with the 8 behind them, wrap to the tag 8; otherwise, and only then, it is lost and the same call returns the frame behind it |
| FixResync.PrefixAbsorbed | src/libtrading/proto/fix_message.c:162-182 | Bytes that read as leading zeros of the tag are passed over and the frame behind them is returned |
| FixResync.PrefixCostsFrame | src/libtrading/proto/fix_message.c:201-232 | Any other bytes without an equals sign take the frame with them, exactly to its end |
| FixResync.PrefixExamples | src/libtrading/proto/fix_message.c:150-182 | Nothing and 00 are harmless, 1 and a letter are not |
| FixResync.MovedTry | src/libtrading/proto/fix_message.c:728-751 | When the first field absorbs what stands in front of it, the whole pass goes as without it, moved by its length |
| FixResync.UnreadableTypeSkipped | src/libtrading/proto/fix_message.c:655-674 | A frame of a type the tables disagree on is skipped exactly to its end |
| FixResync.RoundTripAnyType | src/libtrading/proto/fix_message.c:719-762 | The round trip over all types: exactly plain messages of types both tables agree on come back |
| FixResync.BeheadedSkipped | src/libtrading/proto/fix_message.c:215-232 | A frame that lost its BeginString field is skipped field by field, exactly to its end |
| FixResync.ForeignFieldsSkipped | src/libtrading/proto/fix_message.c:201-232 | Printed fields with tags other than BeginString are skipped one by one by the search for a message |
| Exchanges.TestRequestRoundTrip | src/libtrading/proto/fix_common.c:73-93 | Over printed and parsed frames: a test request says 35=1 with 112= the time text; the peer then says exactly one thing, a 35=0 with the same 112=; and when that is delivered the request is no longer pending. For every time text and every pair of sessions in sequence |
| Exchanges.AnswerExactly | src/libtrading/proto/fix_common.c:74-81 | A Heartbeat in sequence ends the pending request exactly when its TestReqID begins with the pending one |
| Exchanges.RequestIsEchoed | src/libtrading/proto/fix_common.c:82-93 | A TestRequest in sequence is answered by one Heartbeat with its id |
| Exchanges.EmptyRequestAnswered | src/libtrading/proto/fix_common.c:82-93 | Without an id it is answered with TestReqID |
| Exchanges.ClocksFollow | include/FIXSession.h:73-96 | What the keepalive model is told of a received message is what the handler does with it: the request stops being pending, and the transmit clock is set, exactly when the handler ends it, and says something |
| SessionEnd.PollGoesOn | src/libtrading/proto/fix_common.c:64-191 | A polled message that does not end the session leaves it as active as it was and waits for nothing; it ends a pending request exactly when it is a Heartbeat in sequence whose field 112 begins with its id; and exactly the types other than Heartbeat, TestRequest, ResendRequest and SequenceReset go to the application |
| SessionEnd.PollEnds | src/libtrading/proto/fix_common.c:41-52 | A polled checked message below the expected number without field 43 makes the session log out, with the text that names both numbers; the session is then inactive and the poll loop handles nothing more |
| SessionEnd.TooLowEnds | src/libtrading/proto/fix_common.c:32-55 | Such a message is handled as a logout with that text |
| SessionEnd.LogoutEnds | src/libtrading/proto/fix_common.c:234-273 | After a logout, whatever arrives meanwhile and however often handlers re-enter, the session is inactive, the first thing it said is the Logout with its text, and no handler has revived it |
| SessionEnd.LogoutKeeps | src/libtrading/proto/fix_common.c:234-273 | Nothing is taken out of the log on the way, and without a Heartbeat a pending request stays pending |
| SessionEnd.LogoutResult | src/libtrading/proto/fix_common.c:266-272 | The wait ends with 0 on a Logout in sequence and with -1 on another message the handler does not know |
| SessionEnd.PollReplies | src/libtrading/proto/fix_common.c:32-191 | What the session says on a message that does not end it, as one table over type, number and fields: exactly one answer or none |
| SessionEnd.PollNumbers | src/libtrading/proto/fix_common.c:32-191 | Which number is expected after it, as such a table |
| SessionEnd.ResetToExpected | src/libtrading/proto/fix_common.c:160-178 | A SequenceReset without gap fill to exactly the expected number uses that number up, so a checked message that carries it ends the session |
| SessionEnd.LogonOutcome | src/libtrading/proto/fix_common.c:193-232 | A logon says Logon first; it succeeds only on a Logon in sequence, and the session is then active; when it fails the session is inactive |
| SessionEnd.LogonRefused | src/libtrading/proto/fix_common.c:225-229 | Any other first message in sequence is answered with a Logout that says so |
| Exchanges.LowMessage | src/libtrading/proto/fix_common.c:41-52 | Over frames: a checked message that is too low leaves the session active exactly when it carries field 43 |
| Exchanges.GapFillCloses | src/libtrading/proto/fix_common.c:122-153 | Over frames: a gap revealed by a gap fill numbered q is closed by one exchange, however wide it is: the request names the range up to q, the peer fills it with NewSeqNo q + 1, and that is expected next |
| Exchanges.GapFillTooHigh | src/libtrading/proto/fix_common.c:132-137 | A gap fill that is too high draws a request up to its own number |
| Exchanges.RangeIsFilled | src/libtrading/proto/fix_common.c:94-113 | A ResendRequest with a finite EndSeqNo is answered with the number behind it |
| Exchanges.GapFillTaken | src/libtrading/proto/fix_common.c:151-152 | A gap fill in sequence sets the expected number |
| SessionWire.HeartbeatSays | src/libtrading/proto/fix_common.c:275-290 | The bytes of a Heartbeat: 35=0, and 112= the id if there is one |
| SessionWire.TestRequestSays | src/libtrading/proto/fix_common.c:292-311 | The bytes of a TestRequest: 35=1 and 112= the time text |
| SessionWire.ResendRequestSays | src/libtrading/proto/fix_common.c:313-328 | The bytes of a ResendRequest: 35=2, 7= and 16= its bounds |
| SessionWire.RejectSays | src/libtrading/proto/fix_common.c:330-348 | The bytes of a Reject: 35=3, 45= the number and 58= the text |
| SessionWire.SequenceResetSays | src/libtrading/proto/fix_common.c:350-370 | The bytes of a SequenceReset: 35=4 under the number given, 36= the new number, 123=Y for a gap fill; the counter stays |
| SessionWire.LogoutSays | src/libtrading/proto/fix_common.c:234-252 | The bytes of a Logout: 35=5, and 58= the text if there is one |
| SessionWire.LogonSays | src/libtrading/proto/fix_common.c:193-210 | The bytes of a Logon: 35=A, 98=0, 141=Y, 108= the interval, 553= and 554= who logs on |
| SessionWire.TooLowWords | src/libtrading/proto/fix_common.c:42-44 | The text of the logout after a message that is too low |
| SessionWire.LowerWords | src/libtrading/proto/fix_common.c:154-157 | The text of the reject of a gap fill that lowers the number |
| SessionWire.IncorrectWords | src/libtrading/proto/fix_common.c:171-176 | The text of the reject of a reset that lowers it |
| EndToEnd.LosslessRunHasNoGap | include/FIXSession.h:87-96 | What one session has numbered and printed is taken by the other side's poll loop in full, in every run and on every chunking: under consecutive numbers, the checked types accepted, the others handed on, and no resend asked for |
| EndToEnd.PollTakesAll | include/FIXSession.h:87-96 | A poll loop given the numbers it expects takes each of them |
| EndToEnd.DeliveredInOrder | src/libtrading/proto/fix_session.c:154-222 | The messages a receiver has returned so far carry the sender's numbers in order |
| EndToEnd.GateAcceptsAll | src/libtrading/proto/fix_common.c:64-71 | A sequence check given the numbers it expects accepts each of them |
| GapRecovery.GapNeverCloses | src/libtrading/proto/fix_common.c:32-191 | Between two of these engines a gap keeps its width however long the peer goes on sending messages of any mix of types, over printed and parsed frames: every round raises the expected number by one, as the peer's own, and nothing is accepted |
| GapRecovery.RoundKeepsGap | src/libtrading/proto/fix_common.c:32-191 | One such round: a message that is handed on unjudged, or a checked one with the request, answer and refusal that follow |
| GapRecovery.NewestArrives | src/libtrading/proto/fix_message.c:719-762 | What a side makes of the bytes printed for a log entry is what its handler makes of the entry as it was sent |
| GapRecovery.GapExchange | src/libtrading/proto/fix_common.c:94-157 | One exchange over a gap from n up to q, over the wire: the request for n with EndSeqNo 0 is answered by a gap fill with NewSeqNo 1, which is refused; the expected number is then n + 1, so the gap is closed exactly when q is n + 1 |
| GapRecovery.AsksForResend | src/libtrading/proto/fix_common.c:32-40 | A checked message that is too high is dropped and a resend from the expected number on is asked for |
| GapRecovery.AnswersWithOne | src/libtrading/proto/fix_common.c:94-111 | A ResendRequest with EndSeqNo 0 is answered with NewSeqNo 1 |
| GapRecovery.RefusesAnswer | src/libtrading/proto/fix_common.c:122-158 | That answer is counted as one message and refused |
| GapRecovery.CarriedIsParsed | src/libtrading/proto/fix_message.c:719-762 | An entry of the send log is parsed by the other side as the model hands it to the handlers |
| FixSender.SentIsDeliverable | src/libtrading/proto/fix_session.c:154-171 | Any plain message whose frame fits the transmit buffers fits the receive buffer in whatever state it is |
| FixMessages.FixMessage.Parse | src/libtrading/proto/fix_message.c:719-762 | The retry loop in place equals the reference parse of the unread bytes: bytes consumed, success, the message shown, and the number kept on failure |
| FixMessages.FixMessage.Attempt | src/libtrading/proto/fix_message.c:728-751 | One pass of the loop equals the reference attempt: needs more, garbled and where it stops, or the message |
| FixMessages.FixMessage.FirstThreeFields | src/libtrading/proto/fix_message.c:702-717 | BeginString, BodyLength and MsgType in this order, with the positions the later steps use |
| FixMessages.FixMessage.ParseBeginString | src/libtrading/proto/fix_message.c:695-700 | Expects tag 8 and records where its value starts |
| FixMessages.FixMessage.ParseBodyLength | src/libtrading/proto/fix_message.c:676-693 | Expects tag 9; a length that is not positive or above 1280 is garbled |
| FixMessages.FixMessage.ParseMsgType | src/libtrading/proto/fix_message.c:655-674 | Expects tag 35; an unknown type is garbled |
| FixMessages.FixMessage.Checksum | src/libtrading/proto/fix_message.c:612-653 | Finds the trailer by BodyLength, checks it, and returns to the position it was called at |
| FixMessages.FixMessage.MatchTrailer | src/libtrading/proto/fix_message.c:639-646 | The trailer at that position is partial, garbled with the place to go on, or good |
| FixMessages.FixMessage.VerifyChecksum | src/libtrading/proto/fix_message.c:596-604 | True exactly when the CheckSum value equals the byte sum from BeginString up to the CheckSum field modulo 256 |
| FixMessages.FixMessage.RestOfMessage | src/libtrading/proto/fix_message.c:556-594 | Stores the remaining fields by type, filling as many slots as the reference says; they count only when CheckSum was reached |
| FixMessages.FixMessage.StoreNext | src/libtrading/proto/fix_message.c:565-591 | One round of the field loop: sequence number fields overwrite the number, others are appended |
| FixMessages.FixMessage.constructor | src/libtrading/proto/fix_message.c:825-838 | A new message has number 0 and no fields |
| FixMessages.ParseTag | src/libtrading/proto/fix_message.c:162-182 | The digits before the first equals sign are the tag; anything else before it is garbled; no equals sign is partial |
| FixMessages.ParseValue | src/libtrading/proto/fix_message.c:184-199 | The value runs to the first SOH; no SOH is partial |
| FixMessages.NextTag | src/libtrading/proto/fix_message.c:201-213 | Moves behind the next SOH, or to the end when there is none |
| FixMessages.MatchField | src/libtrading/proto/fix_message.c:215-232 | A field that must carry a given tag, else garbled with the rest of the field skipped |
| FixMessages.ParseField | src/libtrading/proto/fix_message.c:234-247 | A field with any tag |
| FixMessages.ReadField | src/libtrading/proto/fix_message.c:569-582 | The value of a field read according to the type of its tag |
| FixMessages.FixMsgTypeParse | src/libtrading/proto/fix_message.c:59-128 | The type of a one or two character value; the outcome does not depend on the bytes read beyond it |
| FixScan.Parse | src/libtrading/proto/fix_message.c:719-762 | The reference retry loop ends, consumes no more than there is, and consumes something when it returns a message |
| FixScan.Try | src/libtrading/proto/fix_message.c:728-751 | A garbled or successful attempt consumes at least one byte and at most all |
| FixScan.ScanTrailer | src/libtrading/proto/fix_message.c:639-646 | A bad trailer is skipped to a place behind where it was looked for |
| FixScan.LongTag | src/libtrading/proto/fix_message.c:606-611 | Why the fixed sizes in the sum range are safe: a value found for a one or two digit tag starts at least two or three bytes in |
| FixTypes.TypeRoundTrip | src/libtrading/proto/fix_message.c:23-128 | Every printed type is read back as itself except exactly TradeCaptureReport and TradeCaptureReportRequestAck, whose tables disagree |
| FixTypes.DisputedCodes | src/libtrading/proto/fix_message.c:42-71 | AE and AQ are printed for the two types that CE and BQ are read as |
| FixPrint.MessageUnparse | src/libtrading/proto/fix_message.c:905-954 | Head and body buffers together hold exactly the frame, and that is, character by character, 8= BeginString, 9= length, 35= type, 49= sender, 56= target, 34= number, 52= time, the own fields, and 10= the three digits of the sum of all that |
| FixPrint.FrameIsSpelt | src/libtrading/proto/fix_message.c:905-954 | The same of the frame of every message, known type or not |
| FixPrint.CodeIsText | src/libtrading/proto/fix_message.c:23-57 | The type text of each of the 32 message types, as a string |
| FixPrint.PutBody | src/libtrading/proto/fix_message.c:924-939 | MsgType, SenderCompID, TargetCompID, MsgSeqNum, SendingTime and the own fields, in this order |
| FixPrint.PutHead | src/libtrading/proto/fix_message.c:941-946 | BeginString and the length of the body |
| FixPrint.PutTrailer | src/libtrading/proto/fix_message.c:948-951 | CheckSum of the two partial sums, always seven bytes |
| FixPrint.FieldUnparse | src/libtrading/proto/fix_message.c:859-903 | Appends tag, equals sign, text of the value and SOH |
| FixPrint.PutValue | src/libtrading/proto/fix_message.c:864-898 | Appends the text of the value: strings up to their NUL, eight characters at most for the short kind |
| FixPrint.PutNumber | src/libtrading/proto/fix_message.c:879-895 | Appends the text of a character, float, 64-bit integer or checksum |
| FixPrint.PutFloat | src/libtrading/proto/fix_message.c:883-887 | Appends the text of a float to seven places |
| FixPrint.PutInt | src/libtrading/proto/fix_message.c:888-891 | Appends the canonical text of any 64-bit integer |
| FixPrint.PutCheckSum | src/libtrading/proto/fix_message.c:892-895 | Appends the three characters of a checksum |
| FixPrint.PutAll | src/libtrading/proto/fix_message.c:865-878 | Appends a string up to its NUL or the limit |
| FixPrint.SumOfTwo | src/libtrading/proto/fix_message.c:949-950 | The sums of the two buffers, each taken modulo 256, give the sum of the whole frame modulo 256 |
| FixSender.SendingSession.Send | src/libtrading/proto/fix_session.c:154-171 | Appends exactly the frame of the message, with the session's identity and next number (or the preserved one), to the bytes handed to the socket; takes a number only when none is preserved |
| FixSender.SendingSession.constructor | src/libtrading/proto/fix_session.c:47-100 | Outgoing numbers start at the configured one, at least 1 |
| Buffers.Buffer.constructor | src/libtrading/buffer.c:13-27 | An empty buffer of the given capacity |
| Buffers.Buffer.Find | include/libtrading/buffer.h:156-165 | Consumes everything before the first occurrence of a byte, or everything |
| Buffers.Buffer.Advance | include/libtrading/buffer.h:125-128 | Moves the start by a signed amount inside the written part |
| Buffers.Buffer.Put | include/libtrading/buffer.h:110-113 | Appends one byte and changes no other |
| Buffers.Buffer.Reset | include/libtrading/buffer.h:151-154 | Empties the buffer |
| Buffers.Buffer.Compact | src/libtrading/buffer.c:214-226 | Keeps the unread bytes and moves them to the front |
| Buffers.Buffer.Recv | src/libtrading/buffer.c:83-112 | Appends the received chunk to the unread bytes and removes it from the network, for every chunk length including none and an error |
| Buffers.SumRange | src/libtrading/buffer.c:34-43 | Summing signed characters in an unsigned long gives the byte sum modulo 256 |
| FixSessions.FixSession.Recv | src/libtrading/proto/fix_session.c:181-222 | One call as a step over unread bytes, last number and network: at most one read, the message of the first successful parse, the counter and the timestamp |
| FixSessions.FixSession.ReadOn | src/libtrading/proto/fix_session.c:195-215 | The second half of a call: one read at most, then the second parse, with the same step as its outcome |
| FixSessions.FixSession.Fill | src/libtrading/proto/fix_session.c:195-206 | Compacts when full and reads at most one chunk; asks the socket exactly when there is room after compaction |
| FixSessions.FixSession.TryParse | src/libtrading/proto/fix_session.c:189-193 | Parses what is buffered; counts the message and stamps the time only when there is one |
| FixSessions.FixSession.Count | src/libtrading/proto/fix_session.c:190-191 | The incoming counter moves by one unless it is to be kept |
| FixSessions.FixSession.constructor | src/libtrading/proto/fix_session.c:47-100 | A new session has an empty receive buffer that leaves room to read |
| Atoi.FixUatoi | src/libtrading/proto/fix_message.c:150-160 | The leading digits read into a 32-bit int with wrap-around, and where they end |
| Atoi.FixAtoi64 | src/libtrading/proto/fix_message.c:130-148 | The optional sign and leading digits read into 64 bits with wrap-around |
| Atoi.UatoiReadsDigits | src/libtrading/proto/fix_message.c:150-160 | Canonical digits followed by a non-digit are read back as the number exactly when it is below 2^31 |
| Atoi.Atoi64ReadsDigits | src/libtrading/proto/fix_message.c:130-148 | The text of a signed number followed by a non-digit is read back as the number exactly when it fits 64 bits |
| Itoa.UitoaGeneral | src/libtrading/itoa.c:30-51 | Printing two digits at a time writes exactly the canonical digits in their place and returns their count |
| Itoa.PutPairs | src/libtrading/itoa.c:36-40 | The pair loop leaves the leading one or two digits to write and all others in place |
| Itoa.Uitoa | src/libtrading/itoa.c:53-69 | Writes exactly the canonical digits, touches no other cell, returns the count |
| Itoa.PrintInt | src/libtrading/itoa.c:71-82 | The same for every signed int, including the smallest |
| Itoa.ChecksumToA | src/libtrading/itoa.c:92-108 | Always writes three characters for 0 to 255, and returns 3 |
| Itoa.UilogTenCountsDigits | src/libtrading/itoa.c:14-28 | The case table counts the digits of every 32-bit number |
| Itoa.DigitsByPairs | src/libtrading/itoa.c:36-40 | Dividing by a hundred and appending a table entry is the digit-by-digit definition |
| Itoa.ThreeDigitsValue | src/libtrading/itoa.c:92-108 | The three characters denote the checksum value |
| Decimal.ValueOfDigits | src/libtrading/itoa.c:53-69 | The canonical digits denote their number |
| Decimal.DigitsOfValue | src/libtrading/itoa.c:53-69 | They are the only text without a superfluous leading zero that does |
| Modp.RoundingBound | src/libtrading/stringencoders/modp_numtoa.c:227-266 | For every real and precision, the printed number is within half a unit of the last place exactly when the fraction is not the one tie that has no carry |
| Modp.TieIsOverflow | src/libtrading/stringencoders/modp_numtoa.c:232-243 | The scaled fraction reaches a power of ten, one digit too many, exactly in that tie |
| Modp.TieExample | src/libtrading/stringencoders/modp_numtoa.c:239-243 | 0.95 with one place is printed as 0.1 |
| Modp.SameNumber | src/libtrading/stringencoders/modp_numtoa.c:188-189 | Both decimal printers print the same number, whether zeros are stripped or not |
| Modp.NoTrailingZero | src/libtrading/stringencoders/modp_numtoa.c:268-279 | A text with a decimal point ends in a digit other than zero |
| Modp.DtoaDenotes | src/libtrading/stringencoders/modp_numtoa.c:88-185 | What the text of the first printer denotes as a number, sign included |
| Modp.Dtoa2Denotes | src/libtrading/stringencoders/modp_numtoa.c:191-303 | What the text of the second printer denotes as a number, sign included |
| Modp.StripKeepsNumber | src/libtrading/stringencoders/modp_numtoa.c:275-278 | Stripping leaves a fraction that does not end in zero and denotes the same number |
| ModpPrint.Dtoa | src/libtrading/stringencoders/modp_numtoa.c:88-185 | Writes exactly that text and a NUL, touches no other cell, returns the length |
| ModpPrint.Dtoa2 | src/libtrading/stringencoders/modp_numtoa.c:191-303 | The same for the printer that strips zeros |
| ModpPrint.RoundParts | src/libtrading/stringencoders/modp_numtoa.c:227-266 | The whole part and the fraction the printers settle on |
| ModpPrint.EmitReversed | src/libtrading/stringencoders/modp_numtoa.c:281-285 | Writes the digits of a number backwards |
| ModpPrint.EmitFraction | src/libtrading/stringencoders/modp_numtoa.c:281-289 | Digits, padding zeros and point of the fraction, backwards |
| ModpPrint.EmitWhole | src/libtrading/stringencoders/modp_numtoa.c:296-299 | Digits of the whole part and the sign, backwards, behind the fraction |
| ModpPrint.StrReverse | src/libtrading/stringencoders/modp_numtoa.c:29-34 | Reverses a range in place and changes nothing outside it |
| ModpPrint.Litoa | src/libtrading/stringencoders/modp_numtoa.c:62-75 | The signed 64-bit printer writes the canonical text and a NUL |
| ModpPrint.PrintInt64 | src/libtrading/itoa.c:84-90 | The printer of 64-bit fields writes the canonical text, in or beyond the range of an int |
| ModpPrint.LitoaZpad | src/libtrading/itoa.c:117-131 | Writes sign, zeros and digits to the width asked for |
| ModpPrint.ZpadReadsBack | src/libtrading/itoa.c:117-131 | The padded text has the width asked for or the width of the number, and is read back as the number |
| SessionGate.PollInOrder | include/FIXSession.h:87-96 | In every run of the poll loop, whatever is lost, repeated or reordered, the expected number never falls, the accepted numbers rise strictly, and the ResendRequests sent are exactly one for each gap observed, beginning at the number expected there |
| SessionGate.PollConsecutive | include/FIXSession.h:87-96 | With no SequenceReset, each number from the first expected to the last is either accepted once or taken by exactly one message handed on unchecked, nested drains included; when none was handed on, the accepted numbers are consecutive |
| SessionGate.DrainInOrder | src/libtrading/proto/fix_common.c:234-273 | The same for the logout drain, whose every observed gap is answered by a ResendRequest that begins at it |
| SessionGate.DrainConsecutive | src/libtrading/proto/fix_common.c:234-273 | When no SequenceReset arrives the drain accepts consecutive numbers starting with the expected one |
| SessionGate.FlatAdmin | src/libtrading/proto/fix_common.c:64-191 | Handling one message, with everything its re-entrant handling consumes, moves expected number, accepted numbers and ResendRequests exactly as the plain loop over the consumed messages |
| SessionGate.FlatDrain | src/libtrading/proto/fix_common.c:257-272 | The same for the drain loop |
| SessionGate.FlatLogout | src/libtrading/proto/fix_common.c:234-273 | The same for a whole logout |
| SessionGate.FlatUnexpected | src/libtrading/proto/fix_common.c:32-55 | A message out of sequence leaves the expected number alone: too high asks for a resend from it, too low logs out unless it is a possible duplicate |
| SessionGate.FlatGapFill | src/libtrading/proto/fix_common.c:120-158 | A gap fill in sequence sets the expected number when that raises it and otherwise counts as one message; out of sequence it moves nothing, and asks for a resend when too high |
| SessionGate.FlatReset | src/libtrading/proto/fix_common.c:159-178 | A reset sets the expected number when that raises it, and leaves it when it would lower it |
| SessionGate.FlatPoll | include/FIXSession.h:87-96 | One poll does what the plain loop does on the message and all that its handling drains, or on one unchecked item for any other type |
| SessionGate.FlatPollRun | include/FIXSession.h:87-96 | A whole poll run does what the plain loop does on the items of its polls, in order |
| SessionGate.GateAccounts | src/libtrading/proto/fix_common.c:64-191 | In the plain loop without SequenceReset every number is accepted once or passed once, never both |
| SessionGate.GateInOrder | src/libtrading/proto/fix_common.c:64-191 | The plain loop accepts in order and at most once, as long as resets keep clear of the counter's end |
| SessionGate.GateConsecutive | src/libtrading/proto/fix_common.c:64-191 | Without SequenceReset the plain loop accepts consecutive numbers |
| SessionGate.StepNeverLowers | src/libtrading/proto/fix_common.c:64-191 | For every message the expected number falls exactly when it is the largest counter value and the message is taken as the one expected; it then rolls over to zero |
| SessionGate.RolloverExample | src/libtrading/proto/fix_common.c:165-169 | A SequenceReset with a negative NewSeqNo and one more message take the expected number to zero |
| SessionGate.CountUncount | src/libtrading/proto/fix_common.c:41-49 | Taking back the count of an out-of-sequence message restores the session |
| SessionNumbers.RunNumbered | src/libtrading/proto/fix_common.c:234-370 | Over every run of operations and handled messages, the messages sent other than SequenceReset carry consecutive numbers from the first with no gap or repeat |
| SessionNumbers.OpNumbered | src/libtrading/proto/fix_common.c:234-370 | Every single operation keeps the numbering, and SequenceReset consumes no number |
| SessionNumbers.AdminNumbered | src/libtrading/proto/fix_common.c:64-191 | Handling a message keeps the numbering, including what its nested drains send |
| SessionNumbers.DrainNumbered | src/libtrading/proto/fix_common.c:257-272 | The logout drain keeps the numbering |
| SessionHandlers.ControlledSession.constructor | src/libtrading/proto/fix_session.c:47-100 | The starting counters and flags |
| SessionHandlers.ControlledSession.SendMessage | src/libtrading/proto/fix_session.c:154-171 | Logs the message under the next number |
| SessionHandlers.ControlledSession.ResetSequence | src/libtrading/proto/fix_common.c:350-370 | Logs a SequenceReset under its own number and leaves the counter alone |
| SessionHandlers.ControlledSession.SendHeartbeatMessage | src/libtrading/proto/fix_common.c:275-290 | A heartbeat with or without the TestReqID |
| SessionHandlers.ControlledSession.RequestResend | src/libtrading/proto/fix_common.c:313-328 | A ResendRequest with both bounds |
| SessionHandlers.ControlledSession.RejectMessage | src/libtrading/proto/fix_common.c:330-348 | A Reject with the number it refers to and a text |
| SessionHandlers.ControlledSession.Logout | src/libtrading/proto/fix_common.c:234-273 | The drain loop in place equals the reference drain: new state, events left, return value |
| SessionHandlers.ControlledSession.Logon | src/libtrading/proto/fix_common.c:193-232 | The logon in place equals its reference |
| SessionHandlers.ControlledSession.DoUnexpected | src/libtrading/proto/fix_common.c:32-55 | The out-of-sequence handler in place equals its reference |
| SessionHandlers.ControlledSession.Admin | src/libtrading/proto/fix_common.c:64-191 | The admin handler in place equals its reference, including re-entry |
| SessionHandlers.ControlledSession.Handle | src/libtrading/proto/fix_common.c:73-183 | The switch on the type in place equals its reference |
| SessionHandlers.ControlledSession.FillGap | src/libtrading/proto/fix_common.c:120-158 | The gap-fill branch in place equals its reference |
| SessionHandlers.ControlledSession.ApplyReset | src/libtrading/proto/fix_common.c:159-178 | The reset branch in place equals its reference |
| SessionHandlers.ControlledSession.Recv | src/libtrading/proto/fix_session.c:181-222 | A non-blocking receive counts the message it returns |
| KeepAlive.DeadPeerBound | include/FIXSession.h:52-71 | In a run of polls at most d apart, silent or not, every poll up to and including the one that declares the session dead is within 1.75 heartbeat intervals, two keepalive periods of 0.1 interval plus d each, and two seconds of the last message before it |
| KeepAlive.DeadPeerBoundFromStart | src/FIXSession.cpp:37-43 | The same for a session polled from its logon on |
| KeepAlive.DeclaredDead | include/FIXSession.h:52-71 | A session whose last poll comes later than that after the last message has been declared dead |
| KeepAlive.DeathExactly | src/libtrading/proto/fix_common.c:18-23 | A poll declares the session dead exactly when the keepalive is due, a request is pending and it was stamped more than half an interval ago, whenever the last message came |
| KeepAlive.EarlyDeath | src/libtrading/proto/fix_common.c:18-23 | With an interval of 30 seconds, a session is declared dead one second after an ordinary message, because an earlier request is still pending |
| KeepAlive.EarlyDeathFromStart | src/libtrading/proto/fix_common.c:18-23 | The same in a run from logon on |
| KeepAlive.NotDeadEarly | src/libtrading/proto/fix_common.c:9-30 | In a silent run that starts with no request pending, death takes more than 1.25 intervals of silence |
| KeepAlive.DiesUnanswered | src/libtrading/proto/fix_common.c:18-23 | In every run, whatever is received, a session is declared dead only for a test request of its own that no message has answered since and that is more than half an interval old |
| KeepAlive.SendsExactly | src/libtrading/proto/fix_common.c:9-30 | A living session's keepalive sends exactly when it is due and either asks, 1.25 intervals after the last message with no request pending, or has sent nothing for more than an interval |
| KeepAlive.ReceiveClock | src/libtrading/proto/fix_session.c:189-193 | The receive clock is the reading of the last poll that received a message |
| KeepAlive.NeverSilent | src/libtrading/proto/fix_common.c:25-27 | While a session lives and is polled once an interval, it never goes without sending for more than 1.1 intervals, in whole seconds |
| KeepAlive.NeverSilentFromStart | src/FIXSession.cpp:37-43 | The same for a session polled from its logon on, when that took at most one interval |
| KeepAlive.QuietKept | include/FIXSession.h:52-96 | What every living run keeps from poll to poll, whether the poll receives a message or not |
| KeepAlive.QuietAtStart | src/FIXSession.cpp:37-43 | A new session whose logon took at most 1.25 intervals starts such a run |
| KeepAlive.PolledSession.Keepalive | src/libtrading/proto/fix_common.c:9-30 | The keepalive in place equals its reference on the clocks |
| KeepAlive.PolledSession.Poll | include/FIXSession.h:52-96 | Keepalive schedule, clock update and receive in place equal their reference |
| KeepAlive.PolledSession.Receive | src/libtrading/proto/fix_session.c:189-193 | A message stamps the receive clock; an answer clears the pending request, a reply stamps the transmit clock |
| KeepAlive.PolledSession.TestRequest | src/libtrading/proto/fix_common.c:292-311 | Stamps the request with the session's clock and marks it pending |
| KeepAlive.PolledSession.Heartbeat | src/libtrading/proto/fix_common.c:275-290 | Sending stamps the transmit time |
| KeepAlive.PolledSession.constructor | src/FIXSession.cpp:37-43 | Receive, transmit and session clocks start when the session is created, the keepalive clock after logon, the request clock at zero |
| CircularQueue.CircularQ.PushBack | include/spdlog/details/circular_q.h:26-36 | The array stands for a sequence; pushing appends and drops the oldest item exactly when full, counting it |
| CircularQueue.CircularQ.PopFront | include/spdlog/details/circular_q.h:40-44 | Takes the first item |
| CircularQueue.CircularQ.Empty | include/spdlog/details/circular_q.h:46-49 | True exactly when nothing is held |
| CircularQueue.CircularQ.Full | include/spdlog/details/circular_q.h:51-55 | True exactly when as many items are held as were asked for |
| CircularQueue.CircularQ.constructor | include/spdlog/details/circular_q.h:19-23 | One cell more than the capacity, nothing held |
| CircularQueue.NothingElseIsLost | include/spdlog/details/circular_q.h:19-60 | Over every sequence of pushes and guarded pops, pushed items equal popped plus held plus overrun, and the held ones are the latest pushed |
| CircularQueue.FifoWithoutOverrun | include/spdlog/details/circular_q.h:26-44 | Without overrun the items come out exactly in the order they went in |
| BlockingQueue.InvAlways | include/spdlog/details/mpmc_blocking_q.h:35-69 | Every interleaving of producers and consumers keeps placement, no lost wake-up and order |
| BlockingQueue.NoWakeupLost | include/spdlog/details/mpmc_blocking_q.h:35-69 | While a producer sleeps, each free cell is matched by a notification still owed or a producer already woken; while a consumer sleeps, so is each item |
| BlockingQueue.SleepOnlyWithReason | include/spdlog/details/mpmc_blocking_q.h:35-69 | When nobody is about to run or notify, producers sleep only on a full queue and consumers only on an empty one, never both |
| BlockingQueue.StaysFifo | include/spdlog/details/mpmc_blocking_q.h:35-69 | Every step keeps put equal to taken, held and overrun, in order |
| BlockingQueue.StaysPlaced | include/spdlog/details/mpmc_blocking_q.h:35-69 | Every thread is in one place, and the bound on the items holds |
| BlockingQueue.EachPutsItsOwn | include/spdlog/details/mpmc_blocking_q.h:35-54 | In every interleaving each producer puts exactly the items it brings, in that order, with at most one still waiting |
| BlockingQueue.CallsEnd | include/spdlog/details/mpmc_blocking_q.h:35-69 | A put ends only after its notification, and a take only after its own or, empty-handed, after the timeout |
| BlockingQueue.OverrunsExactly | include/spdlog/details/mpmc_blocking_q.h:35-54 | Only the put that does not wait overruns, exactly on a full queue, and the other waits exactly then |
| BlockingQueue.MpmcBlockingQueue.TryEnqueue | include/spdlog/details/mpmc_blocking_q.h:37-41 | The section of the blocking put under the mutex, on the circular array, holds exactly the items of the protocol step; it pushes exactly when not full |
| BlockingQueue.MpmcBlockingQueue.EnqueueNowait | include/spdlog/details/mpmc_blocking_q.h:46-53 | The same for the put that overruns |
| BlockingQueue.MpmcBlockingQueue.TryDequeue | include/spdlog/details/mpmc_blocking_q.h:59-66 | The same for the take, at entry, after a wake-up and after the timeout; the item returned is the one the protocol step takes |
| BlockingQueue.MpmcBlockingQueue.constructor | include/spdlog/details/mpmc_blocking_q.h:28-31 | An empty array holds the empty queue |
| ThreadPool.EveryRunSafe | include/spdlog/details/thread_pool.h:113-145 | For any worker count from 1 to 1000, any queue size of at least 1 and any schedule, the pool invariant holds at every point |
| ThreadPool.PoolStep | include/spdlog/details/thread_pool.h:130-221 | Every step keeps it: as many terminate messages in the queue, taken and still to post as there are workers, all behind the work |
| ThreadPool.ShutdownNeverStuck | include/spdlog/details/thread_pool.h:130-147 | Until the shutdown is finished some thread can take a step of its own, so a terminate post always has a live worker to make room for it |
| ThreadPool.ShutdownEnds | include/spdlog/details/thread_pool.h:130-147 | Whatever the schedule, timeouts and spurious wake-ups included: the threads' own steps are bounded, but for two for each such event, and where none is possible the shutdown is finished |
| ThreadPool.OutsideStepCosts | include/spdlog/details/thread_pool.h:190-197 | A timeout or a spurious wake-up costs at most two own steps |
| ThreadPool.OwnStepProgresses | include/spdlog/details/thread_pool.h:182-221 | Every own step lowers the bound |
| ThreadPool.WorkDoneFirst | include/spdlog/details/thread_pool.h:190-221 | A worker leaves only after all earlier messages were taken, each takes exactly one terminate message, and at the end everything put was taken |
| OfficePairs.RunOk | include/BusinessOffice.h:41-256 | In every run every order pair is made of quotes received from both brokers after the previous pair, meets its threshold, comes at an even order count, and keeps the order delay; otherwise no pair is published |
| OfficePairs.EveryRunFromStart | src/BusinessOffice.cpp:4-39 | The same for every run of a new office |
| OfficeMoves.EveryCallMoves | include/BusinessOffice.h:41-256 | In every run of an office, each call, said of its last quotes, order count, direction and published orders: first a correction for each refused order that is none; then a pair exactly when no delay is on, the count is even and a direction may be traded: at count 0 only at the open margin and with its direction held from then on, otherwise in the held direction below the order limit at the open margin, or in the opposite one at the close margin with the held direction kept |
| OfficeMoves.WorkMoves | include/BusinessOffice.h:41-256 | The same of one call on any desk |
| OfficeMoves.PairAtZero | include/BusinessOffice.h:81-83 | A pair at order count 0 has the open margin, and its direction becomes the held one |
| OfficeMoves.QuotesAreLast | src/BusinessOffice.cpp:40-77 | The quotes are the last events of the two brokers |
| OfficeMoves.CountAndCorrections | src/BusinessOffice.cpp:79-107 | The order count follows executed orders less executed corrections; refused orders are corrected in order, at the other broker, with the same side |
| OfficePairs.RoundOk | include/BusinessOffice.h:41-256 | One call keeps the watch on freshness and spacing and is safe |
| OfficePairs.DecisionRules | include/BusinessOffice.h:89-148 | Opening from neutral or in the same direction below the order limit at the open threshold, closing only by the opposite direction at the close threshold, and no chance missed |
| OfficePairs.TriggerIsFresh | include/BusinessOffice.h:89-148 | A placeholder quote cannot meet a non-negative threshold |
| OfficePairs.PricesKeepQuotes | src/BusinessOffice.cpp:40-77 | Price events replace the quote of their own broker only |
| OfficeLedger.Conservation | src/BusinessOffice.cpp:79-107 | Over every interleaving of rounds, orders, partial, final and late reports, refusals and corrections, executed quantity less what was stranded by refusing a partly executed order, quantity still to be executed, orders on their way, unseen refusals and failed corrections, less late refusals, keep their signed sum across the two brokers |
| OfficeLedger.DeltaNeutral | include/BusinessOffice.h:153-239 | From neutral, once everything is settled, the two positions add up to what was stranded and refused late less the failed corrections, so they are neutral exactly when these cancel out |
| OfficeLedger.HalfAnOrderLeft | src/BusinessOffice.cpp:79-107 | A run of a new office in which the BUY of a pair is half executed and then cancelled, and the correction filled, ends settled with positions that add up to half an order |
| OfficeLedger.UnequalQuantities | src/FIXTradeOffice.cpp:40-110 | With different order quantities at the two brokers, an otherwise balanced end is neutral exactly when the quantities agree or nothing was executed on balance |
| OfficeLedger.CorrectionsBalance | src/BusinessOffice.cpp:79-107 | What is refused at one broker is ordered with the same sign at the other, and what is not corrected are exactly the refused corrections |
| OfficeLedger.PairBalances | include/BusinessOffice.h:156-239 | A pair adds nothing to the signed sum |
| OfficeLedger.ExchangeStep | src/FIXTradeOffice.cpp:166-204 | A report executes part of an order, all of it, or refuses it, without changing the sum |
| OfficeLedger.LateStep | src/FIXTradeOffice.cpp:166-204 | A report on an order that is finished already still becomes an event; the sum takes a late refusal into account |
| OfficeLedger.TradeStep | src/FIXTradeOffice.cpp:119-164 | Sending an order to the market does not change the sum |
| Office.BusinessOffice.Work | include/BusinessOffice.h:41-256 | One call in place equals its reference on the desk and on the published orders |
| Office.BusinessOffice.Choose | include/BusinessOffice.h:89-148 | The switch on the current direction equals the reference decision |
| Office.BusinessOffice.Emit | include/BusinessOffice.h:156-239 | Publishes the two orders of the pair |
| Office.BusinessOffice.HandlePrice | src/BusinessOffice.cpp:40-77 | Stores the quote of its broker |
| Office.BusinessOffice.HandleExecution | src/BusinessOffice.cpp:79-107 | Counts fills, and publishes a correction for a refused order that is not itself a correction |
| Office.BusinessOffice.PollExecutions | include/BusinessOffice.h:45 | Handles the polled execution events in order |
| Office.BusinessOffice.PollPrices | include/BusinessOffice.h:44 | Handles the polled price events in order |
| Office.BusinessOffice.constructor | src/BusinessOffice.cpp:4-39 | Placeholder quotes and no order under way |
| TradeOffices.TradeOffice.HandleOrder | src/FIXTradeOffice.cpp:119-164 | Sends exactly one order of the event's type, side and id for an event of its own broker, and none otherwise |
| TradeOffices.TradeOffice.HandleReport | src/FIXTradeOffice.cpp:166-204 | Publishes a filled or not-filled event for the report's codes, and nothing for any other |
| TradeOffices.TradeOffice.HandleMessage | src/FIXTradeOffice.cpp:166-204 | An execution report with the fields it needs is handled as the report read from it |
| OrderWire.ReportArrives | src/FIXTradeOffice.cpp:166-176 | For every execution report over the wire with texts 11, 37, 39, 54, 150 and float 6: the report read from the parsed message has the sent codes, side and id, and field 6 is within half a unit of the seventh place outside the tie |
| OrderWire.ReportBecomesEvent | src/FIXTradeOffice.cpp:178-204 | What event that report becomes, by the codes 2, F, 4, 8, H and side 1 |
| OrderWire.OrderOnWire | src/FIXTradeOffice.cpp:37-161 | The bytes of the NewOrderSingle for each kind of order at each of the two brokers, a BUY with 54=1 and a SELL with 54=2 |
| OrderWire.OrderArrives | src/FIXTradeOffice.cpp:119-161 | The other side reads side, type and id of the order, and its quantity 38 and price 44 as floats |
| OrderWire.QuotesArrive | src/FIXMarketOffice.cpp:89-150 | A market data message over the wire: own fields in order behind the header's, prices 270 and quantities 271 as floats, 269 and 279 as texts |
| TradeOffices.EchoComesBack | src/FIXTradeOffice.cpp:119-204 | A report that echoes an order comes back as an event with the order's side and id |
| TradeOffices.IdSurvives | src/FIXTradeOffice.cpp:124 | An id survives the trip through decimal text exactly when it fits an unsigned long |

## Left out

- Sockets, TLS, clocks and time formatting: received bytes, clock readings and time texts are inputs; sent bytes are an append-only ghost log, and partial or failed writes are not modelled.
- FixMessages.FixMessage.RestOfMessage: the list of received fields has no bound; what the source does to the memory behind its 48 slots is not modelled, so `FixRoundTrip.RoundTrip` and what rests on it speak of the source where `FixRoundTrip.TableUse` is at most 48.
- FixMessages.FixMessage.Parse: field values are copied out of the buffer; that the source keeps addresses into it, valid only until the next compaction, is not captured. The flags that switch off the checksum or the type, which no caller passes, are left out.
- FixMessages.ReadField: `strtod` is an outside function; a float field keeps the text handed to it.
- FixPrint.FieldUnparse: floats beyond 2147483647 take an `sprintf` branch with an exponential text that is not modelled; integers beyond 32 bits go through the C library, which is taken to print the canonical text.
- FixPrint.PutValue: the same limit on floats.
- FixPrint.PutNumber: the same limit on floats.
- FixPrint.PutFloat: the same limit on floats.
- ModpPrint.Dtoa: values beyond 2147483647, printed with an exponent by `sprintf`, and NaN, which is no real number.
- ModpPrint.Dtoa2: the same limit.
- FixPrint.MessageUnparse: buffer space is a precondition, and the time text is shorter than the 64 bytes it is copied into.
- Atoi.FixUatoi: signed overflow is modelled as two's-complement wrap-around, which is what compilers give without further options.
- Modp.RoundingBound: doubles are mathematical reals; IEEE rounding, NaN and the exponential form are left out.
- SessionHandlers.ControlledSession.Logout: the two-second grace period is an event of the script; a script that ends counts as the period being over. Timestamps appear only in `KeepAlive`.
- SessionHandlers.ControlledSession.Admin: reading an integer out of a string field or the reverse, which a C union allows, yields a default; texts cut by `snprintf` are not modelled, since none reaches its limit with the numbers used. The outgoing counter is unbounded.
- FixSender.SendingSession.Send: a write that fails or is cut short is not modelled; every frame reaches the connection whole.
- SessionHandlers.ControlledSession.SendMessage: the handlers keep the sent messages as a log of type, number and fields; their frames are `FixSender`.
- SessionGate.PollInOrder: keepalive traffic sent by `poll` is left to `KeepAlive` and `SessionNumbers`; it touches no incoming number.
- KeepAlive.PolledSession.Poll: which messages answer a request or are replied to is decided in `SessionControl`; here each poll says so. Messages the application sends between polls, which only move the transmit clock on, are left out.
- KeepAlive.PolledSession.Receive: whether the message answers the pending request or is replied to is an input; `Exchanges.ClocksFollow` ties it to the handler.
- KeepAlive.PolledSession.Heartbeat: only the transmit clock is kept; the message and its number are in `SessionHandlers`.
- GapRecovery.GapNeverCloses: the peer's own messages can be read back and are not SequenceReset, which sets the expected number itself; no message waits while a round runs, and numbers stay below 2147483648.
- BlockingQueue.InvAlways: sleeping, waking and notifying are atomic steps on values; only the sections under the mutex are a class over the circular array, and the memory model of C++ is not captured; the branch for the MinGW compiler is left out.
- ThreadPool.ShutdownEnds: no fairness is assumed; a schedule in which threads that can act never do so is not excluded. Posting after the destructor has started is excluded. What a worker does with a log or flush message is left out.
- OfficeLedger.Conservation: quantities are counted in orders of their broker, whose own quantity is fixed when it starts; a fill reported of a finished order is taken as a repetition that executes nothing; the Disruptor rings are sequences each reader takes from in order.
- OfficeLedger.DeltaNeutral: the same.
- OfficeLedger.ExchangeStep: a report that finishes an order as filled executes all of its rest.
- OfficeLedger.LateStep: a fill reported late executes nothing.
- TradeOffices.TradeOffice.HandleOrder: the method keeps the fields that depend on the event; the whole message, with the constant fields, quantity and time, is `OrderWire.OrderFields`.
- Market data and order helpers of `fix_common.c`: they only assemble messages.
- TradeOffices.TradeOffice.HandleMessage: a report without the fields the handler expects makes the source read what is not there; here it is refused.
- SessionEnd.LogonOutcome: the wait has no time limit in the source; a script that ends leaves it waiting.
- The hexadecimal and the remaining integer printers of `modp_numtoa.c`: easy variants of the ones modelled, which nothing here calls.
- OrderWire.QuotesArrive: what `FIXMarketOffice` then makes of the fields is left out.
- `LimitOffice`, NATS, MongoDB, `main.cpp`, logger output, vendored formatting and sinks: plumbing, or behaviour that rests on exchanges outside the repository.
- Memory exhaustion and allocation failures.
