/** internal/protocol/session: the four envelopes and their wire form. */
module Session {
  import opened Bytes
  import opened Errors
  import opened Tlv
  import opened Framing
  import opened Schema

  type Args = map<bytes, bytes>

  datatype Event = Event(eventID: bytes, commandID: bytes, intentID: bytes, ghostID: bytes, seedID: bytes,
                         outcome: bytes, timestampMS: u64)
  datatype EventAck = EventAck(eventID: bytes, commandID: bytes, ghostID: bytes, ackStatus: bytes,
                               ackCode: u32, timestampMS: u64)
  datatype Command = Command(commandID: bytes, intentID: bytes, ghostID: bytes, seedSelector: bytes,
                             operation: bytes, args: Args)
  datatype Report = Report(intentID: bytes, phase: bytes, summary: bytes, completionState: bytes,
                           commandID: bytes, executionID: bytes, eventID: bytes, outcome: bytes, timestampMS: u64)

  /** One of the four messages, and which one. */
  datatype Envelope =
    | EventEnvelope(event: Event) | AckEnvelope(ack: EventAck)
    | CommandEnvelope(command: Command) | ReportEnvelope(report: Report)

  datatype Kind = EventKind | AckKind | CommandKind | ReportKind

  function KindOf(e: Envelope): Kind
  {
    match e
    case EventEnvelope(_) => EventKind
    case AckEnvelope(_) => AckKind
    case CommandEnvelope(_) => CommandKind
    case ReportEnvelope(_) => ReportKind
  }

  function MessageType(k: Kind): u32
  {
    match k
    case EventKind => MSG_EVENT
    case AckKind => MSG_EVENT_ACK
    case CommandKind => MSG_COMMAND
    case ReportKind => MSG_REPORT
  }

  function FrameFlags(k: Kind): u32 { if k.AckKind? then FLAG_IS_RESPONSE else 0 }

  /** json.Marshal and json.Unmarshal on string maps. */
  datatype ArgsCodec = ArgsCodec(marshal: Args -> bytes, unmarshal: bytes -> Option<Args>)
  {
    /** Unmarshal undoes Marshal. */
    ghost predicate Exact() { forall a: Args :: unmarshal(marshal(a)) == Some(a) }
  }

  // ---------------------------------------------------------------- validators

  function EventProblem(e: Event): Option<Error>
  {
    if Blank(e.eventID) then Some(MissingField("event_id"))
    else if Blank(e.commandID) then Some(MissingField("command_id"))
    else if Blank(e.intentID) then Some(MissingField("intent_id"))
    else if Blank(e.ghostID) then Some(MissingField("ghost_id"))
    else if Blank(e.seedID) then Some(MissingField("seed_id"))
    else if Blank(e.outcome) then Some(MissingField("outcome"))
    else None
  }

  function AckProblem(a: EventAck): Option<Error>
  {
    if Blank(a.eventID) then Some(MissingField("event_id"))
    else if Blank(a.commandID) then Some(MissingField("command_id"))
    else if Blank(a.ghostID) then Some(MissingField("ghost_id"))
    else if Blank(a.ackStatus) then Some(MissingField("ack_status"))
    else if a.timestampMS == 0 then Some(MissingField("timestamp_ms"))
    else None
  }

  function CommandProblem(c: Command): Option<Error>
  {
    if Blank(c.commandID) then Some(MissingField("command_id"))
    else if Blank(c.intentID) then Some(MissingField("intent_id"))
    else if Blank(c.ghostID) then Some(MissingField("ghost_id"))
    else if Blank(c.seedSelector) then Some(MissingField("seed_selector"))
    else if Blank(c.operation) then Some(MissingField("operation"))
    else None
  }

  function ReportProblem(r: Report): Option<Error>
  {
    if Blank(r.intentID) then Some(MissingField("intent_id"))
    else if Blank(r.phase) then Some(MissingField("phase"))
    else if Blank(r.summary) then Some(MissingField("summary"))
    else if Blank(r.completionState) then Some(MissingField("completion_state"))
    else None
  }

  function Problem(e: Envelope): Option<Error>
  {
    match e
    case EventEnvelope(ev) => EventProblem(ev)
    case AckEnvelope(a) => AckProblem(a)
    case CommandEnvelope(c) => CommandProblem(c)
    case ReportEnvelope(r) => ReportProblem(r)
  }

  // ---------------------------------------------------------------- fields out

  function StringField(id: u16, v: bytes): Field { Field(id, TYPE_STRING, v) }

  function OptionalU64(id: u16, v: u64): seq<Field>
  {
    if v == 0 then [] else [Field(id, TYPE_U64, U64(v))]
  }

  function OptionalString(id: u16, v: bytes): seq<Field>
  {
    if Blank(v) then [] else [StringField(id, TrimSpace(v))]
  }

  function EventFields(e: Event): seq<Field>
  {
    [StringField(EVENT_ID, e.eventID), StringField(COMMAND_ID, e.commandID), StringField(INTENT_ID, e.intentID),
     StringField(GHOST_ID, e.ghostID), StringField(SEED_ID, e.seedID), StringField(OUTCOME, e.outcome)]
    + OptionalU64(TIMESTAMP_MS, e.timestampMS)
  }

  function AckFields(a: EventAck): seq<Field>
  {
    [StringField(EVENT_ID, a.eventID), StringField(COMMAND_ID, a.commandID), StringField(GHOST_ID, a.ghostID),
     StringField(ACK_STATUS, a.ackStatus), Field(ACK_CODE, TYPE_U32, U32(a.ackCode)),
     Field(TIMESTAMP_MS, TYPE_U64, U64(a.timestampMS))]
  }

  function CommandFields(codec: ArgsCodec, c: Command): seq<Field>
  {
    [StringField(COMMAND_ID, c.commandID), StringField(INTENT_ID, c.intentID), StringField(GHOST_ID, c.ghostID),
     StringField(SEED_SELECTOR, c.seedSelector), StringField(OPERATION, c.operation)]
    + if c.args == map[] then [] else [Field(ARGS, TYPE_BYTES, codec.marshal(c.args))]
  }

  function ReportFields(r: Report): seq<Field>
  {
    [StringField(INTENT_ID, r.intentID), StringField(PHASE, r.phase), StringField(SUMMARY, r.summary),
     StringField(COMPLETION_STATE, r.completionState)]
    + OptionalString(COMMAND_ID, r.commandID) + OptionalString(EXECUTION_ID, r.executionID)
    + OptionalString(EVENT_ID, r.eventID) + OptionalString(OUTCOME, r.outcome)
    + OptionalU64(TIMESTAMP_MS, r.timestampMS)
  }

  function FieldsOf(codec: ArgsCodec, e: Envelope): seq<Field>
  {
    match e
    case EventEnvelope(ev) => EventFields(ev)
    case AckEnvelope(a) => AckFields(a)
    case CommandEnvelope(c) => CommandFields(codec, c)
    case ReportEnvelope(r) => ReportFields(r)
  }

  function Payload(codec: ArgsCodec, e: Envelope): bytes { FieldsBytes(FieldsOf(codec, e)) }

  function OutFrame(k: Kind, messageID: u64, payload: bytes): Frame
  {
    Frame(Header(0, 0, 0, messageID, MessageType(k), FrameFlags(k), 0), [], payload)
  }

  /** What the four encoders return. */
  function Encoded(codec: ArgsCodec, messageID: u64, e: Envelope): Result<bytes>
  {
    if Problem(e).Some? then Err(Problem(e).value)
    else
      var bad := Validate(MessageType(KindOf(e)), FieldsOf(codec, e));
      if bad.Some? then Err(bad.value)
      else Written(OutFrame(KindOf(e), messageID, Payload(codec, e)), DEFAULT_LIMITS)
  }

  // ---------------------------------------------------------------- fields in

  /** getRequiredString and getOptionalString: the first match, or the empty string. */
  function StringOf(fs: seq<Field>, id: u16): bytes
  {
    match GetField(fs, id) case Some(f) => f.value case None => []
  }

  function U64Of(b: bytes): Result<u64> { if |b| == 8 then Ok(FromU64(b)) else Err(BadIntegerLength) }

  function U32Of(b: bytes): Result<u32> { if |b| == 4 then Ok(FromU32(b)) else Err(BadIntegerLength) }

  /** An optional integer field: absent means 0, present must have the right length. */
  function TimestampOf(fs: seq<Field>): Result<u64>
  {
    match GetField(fs, TIMESTAMP_MS) case None => Ok(0) case Some(f) => U64Of(f.value)
  }

  function EventOf(fs: seq<Field>): Result<Event>
  {
    var ts :- TimestampOf(fs);
    Ok(Event(StringOf(fs, EVENT_ID), StringOf(fs, COMMAND_ID), StringOf(fs, INTENT_ID), StringOf(fs, GHOST_ID),
             StringOf(fs, SEED_ID), StringOf(fs, OUTCOME), ts))
  }

  /** The required timestamp of an ack is read without its error: a wrong length yields 0. */
  function AckOf(fs: seq<Field>): Result<EventAck>
  {
    var code :- (match GetField(fs, ACK_CODE) case None => Ok(0) case Some(f) => U32Of(f.value));
    var ts := U64Of(StringOf(fs, TIMESTAMP_MS));
    Ok(EventAck(StringOf(fs, EVENT_ID), StringOf(fs, COMMAND_ID), StringOf(fs, GHOST_ID), StringOf(fs, ACK_STATUS),
                code, if ts.Ok? then ts.value else 0))
  }

  function CommandOf(codec: ArgsCodec, fs: seq<Field>): Result<Command>
  {
    var args :- (match GetField(fs, ARGS)
                 case None => Ok(map[])
                 case Some(f) =>
                   var a := codec.unmarshal(f.value);
                   if a.Some? then Ok(a.value) else Err(BadArgs));
    Ok(Command(StringOf(fs, COMMAND_ID), StringOf(fs, INTENT_ID), StringOf(fs, GHOST_ID),
               StringOf(fs, SEED_SELECTOR), StringOf(fs, OPERATION), args))
  }

  function ReportOf(fs: seq<Field>): Result<Report>
  {
    var ts :- TimestampOf(fs);
    Ok(Report(StringOf(fs, INTENT_ID), StringOf(fs, PHASE), StringOf(fs, SUMMARY), StringOf(fs, COMPLETION_STATE),
              StringOf(fs, COMMAND_ID), StringOf(fs, EXECUTION_ID), StringOf(fs, EVENT_ID), StringOf(fs, OUTCOME), ts))
  }

  function EnvelopeOf(codec: ArgsCodec, k: Kind, fs: seq<Field>): Result<Envelope>
  {
    var bad := Validate(MessageType(k), fs);
    if bad.Some? then Err(bad.value)
    else
      match k
      case EventKind => (var e :- EventOf(fs); Ok(EventEnvelope(e)))
      case AckKind => (var a :- AckOf(fs); Ok(AckEnvelope(a)))
      case CommandKind => (var c :- CommandOf(codec, fs); Ok(CommandEnvelope(c)))
      case ReportKind => (var r :- ReportOf(fs); Ok(ReportEnvelope(r)))
  }

  /** What the four decoders make of a frame's payload. */
  function Decoded(codec: ArgsCodec, k: Kind, payload: bytes): Result<Envelope>
  {
    var fs :- Parse(payload);
    EnvelopeOf(codec, k, fs)
  }

  /** A decoder only ever yields its own kind. */
  lemma DecodesItsKind(codec: ArgsCodec, k: Kind, payload: bytes)
    requires Decoded(codec, k, payload).Ok?
    ensures KindOf(Decoded(codec, k, payload).value) == k
  {
    hide Validate, EventOf, AckOf, CommandOf, ReportOf;
  }

  // ---------------------------------------------------------------- lookups in what was encoded

  /** A field whose id no earlier field has is the one found. */
  lemma Lookup(fs: seq<Field>, i: nat)
    requires i < |fs| && forall j :: 0 <= j < i ==> fs[j].id != fs[i].id
    ensures StringOf(fs, fs[i].id) == fs[i].value && GetField(fs, fs[i].id) == Some(fs[i])
  {
    GetFieldFirst(fs, i);
  }

  lemma Absent(fs: seq<Field>, id: u16)
    requires forall j :: 0 <= j < |fs| ==> fs[j].id != id
    ensures GetField(fs, id) == None
  {
  }

  lemma EventTexts(e: Event)
    ensures var fs := EventFields(e);
            && GetField(fs, EVENT_ID) == Some(StringField(EVENT_ID, e.eventID))
            && GetField(fs, COMMAND_ID) == Some(StringField(COMMAND_ID, e.commandID))
            && GetField(fs, INTENT_ID) == Some(StringField(INTENT_ID, e.intentID))
            && GetField(fs, GHOST_ID) == Some(StringField(GHOST_ID, e.ghostID))
            && GetField(fs, SEED_ID) == Some(StringField(SEED_ID, e.seedID))
            && GetField(fs, OUTCOME) == Some(StringField(OUTCOME, e.outcome))
  {
    hide GetField, OptionalU64;
    var fs := EventFields(e);
    Lookup(fs, 0);
    Lookup(fs, 1);
    Lookup(fs, 2);
    Lookup(fs, 3);
    Lookup(fs, 4);
    Lookup(fs, 5);
  }

  lemma EventStamp(e: Event)
    ensures TimestampOf(EventFields(e)) == Ok(e.timestampMS)
  {
    hide GetField, U64, FromU64;
    if e.timestampMS != 0 {
      Lookup(EventFields(e), 6);
      U64Inverse(e.timestampMS, U64(e.timestampMS));
    } else {
      Absent(EventFields(e), TIMESTAMP_MS);
    }
  }

  /** Every field of a list without duplicate ids meets the requirement that names its id and type. */
  lemma EventLookups(e: Event)
    ensures EventOf(EventFields(e)) == Ok(e)
    ensures forall req :: req in Requirements(MSG_EVENT).value ==> Meets(EventFields(e), req)
  {
    hide GetField, EventFields, TimestampOf;
    EventTexts(e);
    EventStamp(e);
  }

  lemma AckLookups(a: EventAck)
    ensures AckOf(AckFields(a)) == Ok(a)
    ensures forall req :: req in Requirements(MSG_EVENT_ACK).value ==> Meets(AckFields(a), req)
  {
    hide GetField, U32, U64, FromU32, FromU64;
    var fs := AckFields(a);
    Lookup(fs, 0);
    Lookup(fs, 1);
    Lookup(fs, 2);
    Lookup(fs, 3);
    Lookup(fs, 4);
    Lookup(fs, 5);
    U32Inverse(a.ackCode, U32(a.ackCode));
    U64Inverse(a.timestampMS, U64(a.timestampMS));
  }

  lemma CommandTexts(codec: ArgsCodec, c: Command)
    ensures var fs := CommandFields(codec, c);
            && GetField(fs, COMMAND_ID) == Some(StringField(COMMAND_ID, c.commandID))
            && GetField(fs, INTENT_ID) == Some(StringField(INTENT_ID, c.intentID))
            && GetField(fs, GHOST_ID) == Some(StringField(GHOST_ID, c.ghostID))
            && GetField(fs, SEED_SELECTOR) == Some(StringField(SEED_SELECTOR, c.seedSelector))
            && GetField(fs, OPERATION) == Some(StringField(OPERATION, c.operation))
  {
    hide GetField;
    var fs := CommandFields(codec, c);
    Lookup(fs, 0);
    Lookup(fs, 1);
    Lookup(fs, 2);
    Lookup(fs, 3);
    Lookup(fs, 4);
  }

  lemma CommandArgs(codec: ArgsCodec, c: Command)
    ensures GetField(CommandFields(codec, c), ARGS)
            == if c.args == map[] then None else Some(Field(ARGS, TYPE_BYTES, codec.marshal(c.args)))
  {
    hide GetField;
    if c.args != map[] { Lookup(CommandFields(codec, c), 5); } else { Absent(CommandFields(codec, c), ARGS); }
  }

  lemma CommandLookups(codec: ArgsCodec, c: Command)
    requires codec.Exact()
    ensures CommandOf(codec, CommandFields(codec, c)) == Ok(c)
    ensures forall req :: req in Requirements(MSG_COMMAND).value ==> Meets(CommandFields(codec, c), req)
  {
    hide GetField, CommandFields;
    CommandTexts(codec, c);
    CommandArgs(codec, c);
    assert codec.unmarshal(codec.marshal(c.args)) == Some(c.args);
  }

  function OrElse(a: Option<Field>, b: Option<Field>): Option<Field> { if a.Some? then a else b }

  /** A report's fields are looked up block by block. */
  lemma ReportLookup(r: Report, id: u16)
    ensures var head := [StringField(INTENT_ID, r.intentID), StringField(PHASE, r.phase),
                         StringField(SUMMARY, r.summary), StringField(COMPLETION_STATE, r.completionState)];
            GetField(ReportFields(r), id) ==
            OrElse(OrElse(OrElse(OrElse(OrElse(GetField(head, id),
              GetField(OptionalString(COMMAND_ID, r.commandID), id)),
              GetField(OptionalString(EXECUTION_ID, r.executionID), id)),
              GetField(OptionalString(EVENT_ID, r.eventID), id)),
              GetField(OptionalString(OUTCOME, r.outcome), id)),
              GetField(OptionalU64(TIMESTAMP_MS, r.timestampMS), id))
  {
    hide OptionalString, OptionalU64;
    var head := [StringField(INTENT_ID, r.intentID), StringField(PHASE, r.phase),
                 StringField(SUMMARY, r.summary), StringField(COMPLETION_STATE, r.completionState)];
    var c, x := OptionalString(COMMAND_ID, r.commandID), OptionalString(EXECUTION_ID, r.executionID);
    var e, o := OptionalString(EVENT_ID, r.eventID), OptionalString(OUTCOME, r.outcome);
    GetFieldConcat(head + c + x + e + o, OptionalU64(TIMESTAMP_MS, r.timestampMS), id);
    GetFieldConcat(head + c + x + e, o, id);
    GetFieldConcat(head + c + x, e, id);
    GetFieldConcat(head + c, x, id);
    GetFieldConcat(head, c, id);
  }

  lemma HeadLookup(r: Report, id: u16)
    ensures var head := [StringField(INTENT_ID, r.intentID), StringField(PHASE, r.phase),
                         StringField(SUMMARY, r.summary), StringField(COMPLETION_STATE, r.completionState)];
            GetField(head, id) == if id == INTENT_ID then Some(head[0]) else if id == PHASE then Some(head[1])
                                  else if id == SUMMARY then Some(head[2])
                                  else if id == COMPLETION_STATE then Some(head[3]) else None
  {
    var head := [StringField(INTENT_ID, r.intentID), StringField(PHASE, r.phase),
                 StringField(SUMMARY, r.summary), StringField(COMPLETION_STATE, r.completionState)];
    Lookup(head, 0);
    Lookup(head, 1);
    Lookup(head, 2);
    Lookup(head, 3);
  }

  lemma OptionalLookup(id: u16, v: bytes, ts: u64, wanted: u16)
    ensures GetField(OptionalString(id, v), wanted)
            == if wanted == id && !Blank(v) then Some(StringField(id, TrimSpace(v))) else None
    ensures GetField(OptionalU64(id, ts), wanted)
            == if wanted == id && ts != 0 then Some(Field(id, TYPE_U64, U64(ts))) else None
  {
  }

  /** The optional identifiers of a report travel trimmed; everything else travels as it is. */
  function TrimmedReport(r: Report): Report
  {
    r.(commandID := TrimSpace(r.commandID), executionID := TrimSpace(r.executionID),
       eventID := TrimSpace(r.eventID), outcome := TrimSpace(r.outcome))
  }

  lemma ReportFieldAt(r: Report, id: u16)
    ensures GetField(ReportFields(r), id) ==
            if id == INTENT_ID then Some(StringField(id, r.intentID))
            else if id == PHASE then Some(StringField(id, r.phase))
            else if id == SUMMARY then Some(StringField(id, r.summary))
            else if id == COMPLETION_STATE then Some(StringField(id, r.completionState))
            else if id == COMMAND_ID && !Blank(r.commandID) then Some(StringField(id, TrimSpace(r.commandID)))
            else if id == EXECUTION_ID && !Blank(r.executionID) then Some(StringField(id, TrimSpace(r.executionID)))
            else if id == EVENT_ID && !Blank(r.eventID) then Some(StringField(id, TrimSpace(r.eventID)))
            else if id == OUTCOME && !Blank(r.outcome) then Some(StringField(id, TrimSpace(r.outcome)))
            else if id == TIMESTAMP_MS && r.timestampMS != 0 then Some(Field(id, TYPE_U64, U64(r.timestampMS)))
            else None
  {
    hide OptionalString, OptionalU64, ReportFields;
    ReportLookup(r, id);
    HeadLookup(r, id);
    OptionalLookup(COMMAND_ID, r.commandID, 0, id);
    OptionalLookup(EXECUTION_ID, r.executionID, 0, id);
    OptionalLookup(EVENT_ID, r.eventID, 0, id);
    OptionalLookup(OUTCOME, r.outcome, 0, id);
    OptionalLookup(TIMESTAMP_MS, [], r.timestampMS, id);
  }

  lemma ReportTexts(r: Report)
    ensures var fs, t := ReportFields(r), TrimmedReport(r);
            && StringOf(fs, COMMAND_ID) == t.commandID && StringOf(fs, EXECUTION_ID) == t.executionID
            && StringOf(fs, EVENT_ID) == t.eventID && StringOf(fs, OUTCOME) == t.outcome
  {
    hide ReportFields, GetField, TrimSpace;
    ReportFieldAt(r, COMMAND_ID);
    ReportFieldAt(r, EXECUTION_ID);
    ReportFieldAt(r, EVENT_ID);
    ReportFieldAt(r, OUTCOME);
  }

  lemma ReportStamp(r: Report)
    ensures TimestampOf(ReportFields(r)) == Ok(r.timestampMS)
  {
    hide ReportFields, GetField, U64, FromU64, TrimSpace;
    ReportFieldAt(r, TIMESTAMP_MS);
    U64Inverse(r.timestampMS, U64(r.timestampMS));
  }

  lemma ReportLookups(r: Report)
    ensures ReportOf(ReportFields(r)) == Ok(TrimmedReport(r))
    ensures forall req :: req in Requirements(MSG_REPORT).value ==> Meets(ReportFields(r), req)
  {
    hide ReportFields, GetField, TrimSpace, Blank, TimestampOf;
    ReportFieldAt(r, INTENT_ID);
    ReportFieldAt(r, PHASE);
    ReportFieldAt(r, SUMMARY);
    ReportFieldAt(r, COMPLETION_STATE);
    ReportTexts(r);
    ReportStamp(r);
  }

  // ---------------------------------------------------------------- round trip

  /** What the other side reads: the same envelope, a report with its optional ids trimmed. */
  function WireForm(e: Envelope): Envelope
  {
    match e
    case ReportEnvelope(r) => ReportEnvelope(TrimmedReport(r))
    case _ => e
  }

  /** Every envelope passes the schema on both sides, and its fields read back as its wire form. */
  lemma FieldsRoundTrip(codec: ArgsCodec, e: Envelope)
    requires codec.Exact()
    ensures Validate(MessageType(KindOf(e)), FieldsOf(codec, e)) == None
    ensures EnvelopeOf(codec, KindOf(e), FieldsOf(codec, e)) == Ok(WireForm(e))
  {
    hide EventFields, AckFields, CommandFields, ReportFields;
    var reqs := Requirements(MessageType(KindOf(e))).value;
    match e
    case EventEnvelope(ev) => EventLookups(ev);
    case AckEnvelope(a) => AckLookups(a);
    case CommandEnvelope(c) => CommandLookups(codec, c);
    case ReportEnvelope(r) => ReportLookups(r);
    assert forall j :: 0 <= j < |reqs| ==> reqs[j] in reqs && Meets(FieldsOf(codec, e), reqs[j]);
  }

  /** A value is no longer than the payload that carries it. */
  lemma {:induction false} ValuesWithin(fs: seq<Field>, n: nat)
    requires |FieldsBytes(fs)| < n
    ensures forall i :: 0 <= i < |fs| ==> |fs[i].value| < n
  {
    if fs != [] {
      ValuesWithin(fs[..|fs| - 1], n);
      assert forall i :: 0 <= i < |fs| - 1 ==> fs[i] == fs[..|fs| - 1][i];
    }
  }

  /** What a caller can look at before encoding. */
  predicate Sendable(codec: ArgsCodec, e: Envelope)
  {
    Problem(e) == None && |Payload(codec, e)| <= MAX_PAYLOAD
  }

  lemma PayloadRoundTrip(codec: ArgsCodec, e: Envelope)
    requires codec.Exact() && |Payload(codec, e)| < TWO32
    ensures Parse(Payload(codec, e)) == Ok(FieldsOf(codec, e))
    ensures Decoded(codec, KindOf(e), Payload(codec, e)) == Ok(WireForm(e))
  {
    hide FieldsOf, FieldsBytes, Parse, EnvelopeOf;
    ValuesWithin(FieldsOf(codec, e), TWO32);
    ParseUndoesEncode(FieldsOf(codec, e));
    FieldsRoundTrip(codec, e);
  }

  /** A valid envelope within the payload limit, and no other, encodes; whatever follows it on the stream it is
      read back as one frame with its message id and type, and that frame decodes to its wire form. */
  lemma EnvelopeRoundTrip(codec: ArgsCodec, messageID: u64, e: Envelope, tail: bytes)
    requires codec.Exact()
    ensures Encoded(codec, messageID, e).Ok? <==> Sendable(codec, e)
    ensures Sendable(codec, e) ==>
              var (f, left) := Read(Encoded(codec, messageID, e).value + tail, DEFAULT_LIMITS);
              && f.Ok? && left == tail
              && f.value.header.messageID == messageID && f.value.header.messageType == MessageType(KindOf(e))
              && f.value.payload == Payload(codec, e)
              && Decoded(codec, KindOf(e), f.value.payload) == Ok(WireForm(e))
  {
    hide Read, Payload, FieldsOf, Validate, Decoded, Problem, HeaderBytes;
    FieldsRoundTrip(codec, e);
    if Sendable(codec, e) {
      var out := OutFrame(KindOf(e), messageID, Payload(codec, e));
      NeverMisread(out, tail);
      PayloadRoundTrip(codec, e);
    }
  }

  /** Encoding an envelope, reading the frame back and decoding it, as the orchestrator does with every message. */
  function ThroughWire(codec: ArgsCodec, e: Envelope): Result<Envelope>
  {
    if Problem(e).Some? then Err(Problem(e).value)
    else if |Payload(codec, e)| > MAX_PAYLOAD then Err(PayloadTooLarge)
    else Ok(WireForm(e))
  }

  lemma WireTrip(codec: ArgsCodec, messageID: u64, e: Envelope)
    requires codec.Exact()
    ensures match Encoded(codec, messageID, e)
            case Err(x) => ThroughWire(codec, e) == Err(x)
            case Ok(b) =>
              && Read(b, DEFAULT_LIMITS).0.Ok?
              && Read(b, DEFAULT_LIMITS).0.value.header.messageID == messageID
              && Decoded(codec, KindOf(e), Read(b, DEFAULT_LIMITS).0.value.payload) == ThroughWire(codec, e)
              && ThroughWire(codec, e) == Ok(WireForm(e))
  {
    hide Read, Payload, FieldsOf, Validate, Decoded, Problem, HeaderBytes;
    EnvelopeRoundTrip(codec, messageID, e, []);
    FieldsRoundTrip(codec, e);
    if Encoded(codec, messageID, e).Ok? {
      assert Encoded(codec, messageID, e).value + [] == Encoded(codec, messageID, e).value;
    }
  }

  // ---------------------------------------------------------------- non-confusion

  /** A required field of each other kind that an envelope of kind `k` never carries. */
  function Telltale(sent: Kind, read: Kind): u16
    requires sent != read
  {
    match read
    case EventKind => if sent.AckKind? then INTENT_ID else if sent.CommandKind? then EVENT_ID else GHOST_ID
    case AckKind => if sent.ReportKind? then GHOST_ID else ACK_STATUS
    case CommandKind => if sent.EventKind? then SEED_SELECTOR else if sent.AckKind? then INTENT_ID else GHOST_ID
    case ReportKind => if sent.AckKind? then INTENT_ID else PHASE
  }

  lemma TelltaleMissing(codec: ArgsCodec, e: Envelope, read: Kind)
    requires read != KindOf(e)
    ensures GetField(FieldsOf(codec, e), Telltale(KindOf(e), read)) == None
  {
    hide GetField, ReportFields;
    match e
    case EventEnvelope(ev) => Absent(EventFields(ev), Telltale(EventKind, read));
    case AckEnvelope(a) => Absent(AckFields(a), Telltale(AckKind, read));
    case CommandEnvelope(c) => Absent(CommandFields(codec, c), Telltale(CommandKind, read));
    case ReportEnvelope(r) => ReportFieldAt(r, Telltale(ReportKind, read));
  }

  lemma TelltaleRequired(sent: Kind, read: Kind) returns (i: nat)
    requires sent != read
    ensures Requirements(MessageType(read)).Some? && i < |Requirements(MessageType(read)).value|
    ensures Requirements(MessageType(read)).value[i].id == Telltale(sent, read)
  {
    i := match read
      case EventKind => if sent.AckKind? then 2 else if sent.CommandKind? then 0 else 3
      case AckKind => if sent.ReportKind? then 2 else 3
      case CommandKind => if sent.EventKind? then 3 else if sent.AckKind? then 1 else 2
      case ReportKind => if sent.AckKind? then 0 else 1;
  }

  /** A payload encoded for one kind is rejected by the decoders of the other three. */
  lemma NonConfusion(codec: ArgsCodec, e: Envelope, read: Kind)
    requires codec.Exact() && |Payload(codec, e)| < TWO32 && read != KindOf(e)
    ensures Decoded(codec, read, Payload(codec, e)).Err?
  {
    hide FieldsOf, FieldsBytes, Parse, Requirements, Telltale, MessageType;
    PayloadRoundTrip(codec, e);
    TelltaleMissing(codec, e, read);
    var fs := FieldsOf(codec, e);
    var i := TelltaleRequired(KindOf(e), read);
    assert !Meets(fs, Requirements(MessageType(read)).value[i]);
  }

  // ---------------------------------------------------------------- forward compatibility

  /** Every id the decoder of a kind looks up. */
  function Consulted(k: Kind): set<u16>
  {
    match k
    case EventKind => {EVENT_ID, COMMAND_ID, INTENT_ID, GHOST_ID, SEED_ID, OUTCOME, TIMESTAMP_MS}
    case AckKind => {EVENT_ID, COMMAND_ID, GHOST_ID, ACK_STATUS, ACK_CODE, TIMESTAMP_MS}
    case CommandKind => {COMMAND_ID, INTENT_ID, GHOST_ID, SEED_SELECTOR, OPERATION, ARGS}
    case ReportKind =>
      {INTENT_ID, PHASE, SUMMARY, COMPLETION_STATE, COMMAND_ID, EXECUTION_ID, EVENT_ID, OUTCOME, TIMESTAMP_MS}
  }

  /** A decoder sees its fields only through lookups of the ids it consults. */
  lemma DecodesByLookups(codec: ArgsCodec, k: Kind, fs: seq<Field>, gs: seq<Field>)
    requires forall id :: id in Consulted(k) ==> GetField(fs, id) == GetField(gs, id)
    ensures Validate(MessageType(k), fs) == Validate(MessageType(k), gs)
    ensures EnvelopeOf(codec, k, fs) == EnvelopeOf(codec, k, gs)
  {
    hide GetField;
    var reqs := Requirements(MessageType(k)).value;
    assert forall j :: 0 <= j < |reqs| ==> reqs[j].id in Consulted(k);
    ViolationByLookups(MessageType(k), reqs, fs, gs, 0);
  }

  /** Fields the decoder never consults, inserted anywhere in an encoded payload, change neither schema
      acceptance nor the decoded envelope. */
  lemma UnknownFieldsIgnored(codec: ArgsCodec, k: Kind, a: seq<Field>, extra: seq<Field>, b: seq<Field>)
    requires |FieldsBytes(a + extra + b)| < TWO32 && |FieldsBytes(a + b)| < TWO32
    requires forall x :: x in extra ==> x.id !in Consulted(k)
    ensures Validate(MessageType(k), a + extra + b) == Validate(MessageType(k), a + b)
    ensures Decoded(codec, k, FieldsBytes(a + extra + b)) == Decoded(codec, k, FieldsBytes(a + b))
  {
    hide FieldsBytes, Parse, EnvelopeOf, Validate;
    ValuesWithin(a + extra + b, TWO32);
    ValuesWithin(a + b, TWO32);
    ParseUndoesEncode(a + extra + b);
    ParseUndoesEncode(a + b);
    forall id | id in Consulted(k) ensures GetField(a + extra + b, id) == GetField(a + b, id) {
      InsertedFieldsInert(a, extra, b, id);
    }
    DecodesByLookups(codec, k, a + extra + b, a + b);
  }

  /** Duplicates of ids already present, appended at the end of an encoded payload, change nothing either. */
  lemma AppendedDuplicatesIgnored(codec: ArgsCodec, k: Kind, a: seq<Field>, extra: seq<Field>)
    requires |FieldsBytes(a + extra)| < TWO32 && |FieldsBytes(a)| < TWO32
    requires forall x :: x in extra ==> x.id in Consulted(k) ==> GetField(a, x.id).Some?
    ensures Validate(MessageType(k), a + extra) == Validate(MessageType(k), a)
    ensures Decoded(codec, k, FieldsBytes(a + extra)) == Decoded(codec, k, FieldsBytes(a))
  {
    hide FieldsBytes, Parse, EnvelopeOf, Validate;
    ValuesWithin(a + extra, TWO32);
    ValuesWithin(a, TWO32);
    ParseUndoesEncode(a + extra);
    ParseUndoesEncode(a);
    forall id | id in Consulted(k) ensures GetField(a + extra, id) == GetField(a, id) {
      AppendedDuplicateInert(a, extra, id);
    }
    DecodesByLookups(codec, k, a + extra, a);
  }

  // ---------------------------------------------------------------- the code

  /** The tail every encoder shares: schema check, TLV payload, one frame into a buffer. */
  method EncodeFields(k: Kind, messageID: u64, fields: seq<Field>) returns (r: Result<bytes>)
    ensures r == if Validate(MessageType(k), fields).Some? then Err(Validate(MessageType(k), fields).value)
                 else Written(OutFrame(k, messageID, FieldsBytes(fields)), DEFAULT_LIMITS)
  {
    hide Validate, FieldsBytes, Written;
    var bad := Validate(MessageType(k), fields);
    if bad.Some? { return Err(bad.value); }
    var payload := Tlv.EncodeFields(fields);
    var buf := new Writer();
    var problem := WriteFrame(buf, OutFrame(k, messageID, payload), DEFAULT_LIMITS);
    if problem.Some? { return Err(problem.value); }
    assert forall b: bytes :: [] + b == b;
    return Ok(buf.data);
  }

  method EncodeEventFrame(messageID: u64, event: Event) returns (r: Result<bytes>)
    ensures forall codec :: r == Encoded(codec, messageID, EventEnvelope(event))
  {
    var problem := EventProblem(event);
    if problem.Some? { return Err(problem.value); }
    var fields := [StringField(EVENT_ID, event.eventID), StringField(COMMAND_ID, event.commandID),
                   StringField(INTENT_ID, event.intentID), StringField(GHOST_ID, event.ghostID),
                   StringField(SEED_ID, event.seedID), StringField(OUTCOME, event.outcome)];
    if event.timestampMS != 0 { fields := fields + [Field(TIMESTAMP_MS, TYPE_U64, U64(event.timestampMS))]; }
    assert fields == EventFields(event);
    r := EncodeFields(EventKind, messageID, fields);
  }

  method EncodeEventAckFrame(messageID: u64, ack: EventAck) returns (r: Result<bytes>)
    ensures forall codec :: r == Encoded(codec, messageID, AckEnvelope(ack))
  {
    var problem := AckProblem(ack);
    if problem.Some? { return Err(problem.value); }
    r := EncodeFields(AckKind, messageID, AckFields(ack));
  }

  method EncodeCommandFrame(codec: ArgsCodec, messageID: u64, command: Command) returns (r: Result<bytes>)
    ensures r == Encoded(codec, messageID, CommandEnvelope(command))
  {
    var problem := CommandProblem(command);
    if problem.Some? { return Err(problem.value); }
    var fields := [StringField(COMMAND_ID, command.commandID), StringField(INTENT_ID, command.intentID),
                   StringField(GHOST_ID, command.ghostID), StringField(SEED_SELECTOR, command.seedSelector),
                   StringField(OPERATION, command.operation)];
    if |command.args| > 0 { fields := fields + [Field(ARGS, TYPE_BYTES, codec.marshal(command.args))]; }
    assert fields == CommandFields(codec, command);
    r := EncodeFields(CommandKind, messageID, fields);
  }

  method ReportFieldList(report: Report) returns (fields: seq<Field>)
    ensures fields == ReportFields(report)
  {
    hide TrimSpace;
    fields := [StringField(INTENT_ID, report.intentID), StringField(PHASE, report.phase),
               StringField(SUMMARY, report.summary), StringField(COMPLETION_STATE, report.completionState)];
    ghost var want := fields + OptionalString(COMMAND_ID, report.commandID);
    var v := TrimSpace(report.commandID);
    if v != [] { fields := fields + [StringField(COMMAND_ID, v)]; }
    assert fields == want;
    want := fields + OptionalString(EXECUTION_ID, report.executionID);
    v := TrimSpace(report.executionID);
    if v != [] { fields := fields + [StringField(EXECUTION_ID, v)]; }
    assert fields == want;
    want := fields + OptionalString(EVENT_ID, report.eventID);
    v := TrimSpace(report.eventID);
    if v != [] { fields := fields + [StringField(EVENT_ID, v)]; }
    assert fields == want;
    want := fields + OptionalString(OUTCOME, report.outcome);
    v := TrimSpace(report.outcome);
    if v != [] { fields := fields + [StringField(OUTCOME, v)]; }
    assert fields == want;
    want := fields + OptionalU64(TIMESTAMP_MS, report.timestampMS);
    if report.timestampMS != 0 { fields := fields + [Field(TIMESTAMP_MS, TYPE_U64, U64(report.timestampMS))]; }
    assert fields == want;
  }

  method EncodeReportFrame(messageID: u64, report: Report) returns (r: Result<bytes>)
    ensures forall codec :: r == Encoded(codec, messageID, ReportEnvelope(report))
  {
    hide ReportFields, Validate, Written, FieldsBytes, ReportProblem;
    var problem := ReportProblem(report);
    if problem.Some? { return Err(problem.value); }
    var fields := ReportFieldList(report);
    r := EncodeFields(ReportKind, messageID, fields);
  }

  /** DecodeEventFrame, DecodeEventAckFrame, DecodeCommandFrame and DecodeReportFrame share this path. */
  method DecodeFrame(codec: ArgsCodec, k: Kind, f: Frame) returns (r: Result<Envelope>)
    ensures r == Decoded(codec, k, f.payload)
  {
    var fields := DecodeFields(f.payload);
    if fields.Err? { return Err(fields.error); }
    return EnvelopeOf(codec, k, fields.value);
  }

  /** frame.ReadFrame over bytes in memory, then the decoder: how received envelopes are read everywhere. */
  method ReadAndDecode(codec: ArgsCodec, k: Kind, data: bytes) returns (r: Result<Envelope>)
    ensures r == match Read(data, DEFAULT_LIMITS).0
                 case Err(e) => Err(e)
                 case Ok(f) => Decoded(codec, k, f.payload)
  {
    hide Read, Decoded;
    var reader := new Reader(data);
    var fr := ReadFrame(reader, DEFAULT_LIMITS);
    if fr.Err? { return Err(fr.error); }
    r := DecodeFrame(codec, k, fr.value);
  }
}
