/** The numbers, required fields, checks and error causes of the wire, each stated apart from the code that uses it. */
module WireContract {
  import opened Bytes
  import opened Errors
  import opened Tlv
  import opened Framing
  import opened Schema
  import opened Session
  import Ghost

  // ---------------------------------------------------------------- numbers

  /** Frames: magic 0xEDCE1001, version 1, 64 KiB of auth and 8 MiB of payload. */
  lemma FrameNumbers()
    ensures MAGIC == 0xEDCE_1001 && VERSION == 1 && FIXED_HEADER_LEN == 32
    ensures DEFAULT_LIMITS == Limits(64 * 1024, 8 * 1024 * 1024)
    ensures forall flags: u32 :: SupportedFlags(flags) <==> flags < 8
  {
  }

  /** Where each header field is, and that its most significant byte comes first. */
  lemma HeaderPlaces(h: Header)
    ensures var b := HeaderBytes(h);
            && b[0..4] == U32(h.magic) && b[4..6] == U16(h.version) && b[6..8] == U16(h.headerLen)
            && b[8..16] == U64(h.messageID) && b[16..20] == U32(h.messageType) && b[20..24] == U32(h.flags)
            && b[24..32] == U64(h.payloadLen)
  {
    hide HeaderBytes, U16, U32, U64;
    HeaderInOrder(h);
  }

  /** Byte `i` of an integer in `n` bytes has the digit for 256^(n-1-i). */
  lemma {:induction false} BytePlaces(v: nat, n: nat, i: nat)
    requires i < n && v < Pow256(n)
    ensures BigEndian(v, n)[i] == v / Pow256(n - 1 - i) % 256
    decreases n
  {
    if i < n - 1 {
      BytePlaces(v / 256, n - 1, i);
      DivideTwice(v, Pow256(n - 2 - i));
    }
  }

  lemma DivideTwice(v: nat, p: nat)
    requires p > 0
    ensures v / 256 / p == v / (256 * p)
  {
    var q, r := v / 256 / p, v / 256 % p;
    assert v / 256 == q * p + r;
    var low := v % 256;
    assert v == (q * p + r) * 256 + low == q * (256 * p) + (r * 256 + low);
    assert 0 <= r * 256 + low < 256 * p;
    QuotientIs(v, 256 * p, q, r * 256 + low);
  }

  lemma QuotientIs(v: nat, d: nat, q: nat, r: nat)
    requires d > 0 && v == q * d + r && r < d
    ensures v / d == q
  {
    var k := v / d;
    if k < q { Spread(k, q, d); } else if q < k { Spread(q, k, d); }
  }

  lemma Spread(a: nat, b: nat, d: nat)
    requires a < b
    ensures a * d + d <= b * d
  {
    var k := b - a - 1;
    assert (a + 1 + k) * d == a * d + d + k * d;
  }

  /** Message types, flags and field types. */
  lemma MessageNumbers()
    ensures MessageType(CommandKind) == 2 && MessageType(EventKind) == 5 && MessageType(ReportKind) == 6
    ensures MessageType(AckKind) == 8
    ensures forall k: Kind :: FrameFlags(k) == if k == AckKind then 2 else 0
    ensures TYPE_U32 == 3 && TYPE_U64 == 4 && TYPE_STRING == 6 && TYPE_BYTES == 7
  {
  }

  /** The fields of the four messages by number, in the order they are written. */
  lemma FieldNumbers(codec: ArgsCodec, e: Event, a: EventAck, c: Command, r: Report)
    ensures EventFields(e)[..6] == [Field(4, 6, e.eventID), Field(2, 6, e.commandID), Field(1, 6, e.intentID),
                                    Field(200, 6, e.ghostID), Field(300, 6, e.seedID), Field(500, 6, e.outcome)]
    ensures EventFields(e)[6..] == if e.timestampMS == 0 then [] else [Field(6, 4, U64(e.timestampMS))]
    ensures AckFields(a) == [Field(4, 6, a.eventID), Field(2, 6, a.commandID), Field(200, 6, a.ghostID),
                             Field(700, 6, a.ackStatus), Field(701, 3, U32(a.ackCode)), Field(6, 4, U64(a.timestampMS))]
    ensures CommandFields(codec, c)[..5] == [Field(2, 6, c.commandID), Field(1, 6, c.intentID), Field(200, 6, c.ghostID),
                                             Field(201, 6, c.seedSelector), Field(202, 6, c.operation)]
    ensures CommandFields(codec, c)[5..] == if c.args == map[] then [] else [Field(203, 7, codec.marshal(c.args))]
    ensures ReportFields(r)[..4] == [Field(1, 6, r.intentID), Field(5, 6, r.phase), Field(600, 6, r.summary),
                                     Field(601, 6, r.completionState)]
  {
    hide TrimSpace, U32, U64;
  }

  /** One field: id, type, length, value. */
  lemma FieldPlaces(f: Field)
    requires |f.value| < TWO32
    ensures var b := FieldBytes(f);
            b[0..2] == U16(f.id) && b[2] == f.typ && b[3..7] == U32(|f.value|) && b[7..] == f.value
  {
    hide U16, U32;
  }

  /** What the header of a frame that is read back holds: the caller's ids and upper flags, current magic and version, and
      the lengths of what follows, the auth bit saying whether there is any. */
  lemma HeaderFilledIn(f: Frame, tail: bytes)
    requires Written(f, DEFAULT_LIMITS).Ok? && Carried(f)
    ensures var r := Read(Written(f, DEFAULT_LIMITS).value + tail, DEFAULT_LIMITS).0;
            && r.Ok? && r.value.auth == f.auth && r.value.payload == f.payload
            && var h := r.value.header;
               && h.magic == 0xEDCE_1001 && h.version == 1 && h.headerLen == 32 + |f.auth| && h.payloadLen == |f.payload|
               && h.messageID == f.header.messageID && h.messageType == f.header.messageType
               && h.flags / 2 == f.header.flags / 2 && (h.flags % 2 == 1 <==> f.auth != [])
  {
    hide Read, HeaderBytes;
    NeverMisread(f, tail);
  }

  /** Every message is one frame without auth; only acks are marked as responses. */
  lemma MessagesAreMarked(codec: ArgsCodec, id: u64, e: Envelope, tail: bytes)
    requires codec.Exact() && Sendable(codec, e)
    ensures Encoded(codec, id, e).Ok?
    ensures var r := Read(Encoded(codec, id, e).value + tail, DEFAULT_LIMITS).0;
            && r.Ok? && r.value.auth == [] && r.value.header.flags == (if e.AckEnvelope? then 2 else 0)
            && r.value.header.messageID == id
  {
    hide Read, Payload, Problem, HeaderBytes, Validate, Written, FieldsOf, Carried;
    EnvelopeRoundTrip(codec, id, e, tail);
    FieldsRoundTrip(codec, e);
    var out := OutFrame(KindOf(e), id, Payload(codec, e));
    assert Encoded(codec, id, e) == Written(out, DEFAULT_LIMITS);
    OutIsCarried(KindOf(e), id, Payload(codec, e));
    HeaderFilledIn(out, tail);
  }

  lemma OutIsCarried(k: Kind, id: u64, payload: bytes)
    ensures Carried(OutFrame(k, id, payload))
  {
  }

  // ---------------------------------------------------------------- required fields

  /** What each message must have: field numbers and their types. */
  const REQUIRED: map<u32, map<u16, byte>> := map[
    1 := map[1 := 6, 100 := 6, 101 := 6, 102 := 6],
    2 := map[2 := 6, 1 := 6, 200 := 6, 201 := 6, 202 := 6],
    3 := map[3 := 6, 2 := 6, 300 := 6, 301 := 6, 302 := 7],
    4 := map[3 := 6, 300 := 6, 400 := 6, 401 := 7, 402 := 7, 403 := 3],
    5 := map[4 := 6, 2 := 6, 1 := 6, 200 := 6, 300 := 6, 500 := 6],
    6 := map[1 := 6, 5 := 6, 600 := 6, 601 := 6],
    8 := map[4 := 6, 2 := 6, 200 := 6, 700 := 6, 6 := 4]]

  /** The field is there, and the first one with its number has the type. */
  predicate Has(fs: seq<Field>, id: u16, typ: byte)
  {
    exists i :: 0 <= i < |fs| && fs[i].id == id && fs[i].typ == typ && forall j :: 0 <= j < i ==> fs[j].id != id
  }

  lemma {:induction false} HasMeets(fs: seq<Field>, req: Requirement)
    ensures Meets(fs, req) <==> Has(fs, req.id, req.typ)
  {
    if exists i :: 0 <= i < |fs| && fs[i].id == req.id {
      var i := FirstWith(fs, req.id);
      GetFieldFirst(fs, i);
    } else {
      Absent(fs, req.id);
    }
  }

  lemma {:induction false} FirstWith(fs: seq<Field>, id: u16) returns (i: nat)
    requires exists k :: 0 <= k < |fs| && fs[k].id == id
    ensures i < |fs| && fs[i].id == id && forall j :: 0 <= j < i ==> fs[j].id != id
  {
    i := 0;
    while fs[i].id != id
      invariant 0 <= i < |fs| && forall j :: 0 <= j < i ==> fs[j].id != id
      invariant exists k :: i <= k < |fs| && fs[k].id == id
      decreases |fs| - i
    {
      i := i + 1;
    }
  }

  /** The table has the requirement. */
  predicate Listed(reqs: seq<Requirement>, id: u16, typ: byte)
  {
    exists j :: 0 <= j < |reqs| && reqs[j].id == id && reqs[j].typ == typ
  }

  lemma SameTable(messageType: u32, id: u16)
    requires messageType in REQUIRED
    ensures Requirements(messageType).Some?
    ensures id in REQUIRED[messageType] ==> Listed(Requirements(messageType).value, id, REQUIRED[messageType][id])
    ensures forall typ :: Listed(Requirements(messageType).value, id, typ) ==>
              id in REQUIRED[messageType] && REQUIRED[messageType][id] == typ
  {
    var reqs, want := Requirements(messageType).value, REQUIRED[messageType];
    RowsAreWanted(messageType);
    if id in want { WantedIsRow(messageType, id); }
  }

  lemma RowsAreWanted(messageType: u32)
    requires messageType in REQUIRED
    ensures Requirements(messageType).Some?
    ensures var reqs := Requirements(messageType).value;
            forall j :: 0 <= j < |reqs| ==>
              reqs[j].id in REQUIRED[messageType] && REQUIRED[messageType][reqs[j].id] == reqs[j].typ
  {
  }

  lemma WantedIsRow(messageType: u32, id: u16)
    requires messageType in REQUIRED && id in REQUIRED[messageType]
    ensures Requirements(messageType).Some? && Listed(Requirements(messageType).value, id, REQUIRED[messageType][id])
  {
    var reqs, want := Requirements(messageType).value, REQUIRED[messageType];
    var j := if reqs[0].id == id then 0 else if reqs[1].id == id then 1 else if reqs[2].id == id then 2
             else if reqs[3].id == id then 3 else if reqs[4].id == id then 4 else 5;
    assert reqs[j].id == id && reqs[j].typ == want[id];
  }

  /** A message of a known type passes the schema exactly when it has every field its type requires. */
  lemma ValidIff(messageType: u32, fs: seq<Field>)
    ensures messageType !in REQUIRED ==> Validate(messageType, fs).Some?
    ensures messageType in REQUIRED ==>
              (Validate(messageType, fs) == None <==>
                 forall id :: id in REQUIRED[messageType] ==> Has(fs, id, REQUIRED[messageType][id]))
  {
    hide Has, Meets;
    if messageType in REQUIRED {
      RowsAreWanted(messageType);
      var reqs, want := Requirements(messageType).value, REQUIRED[messageType];
      hide Requirements;
      if Validate(messageType, fs) == None {
        forall id | id in want ensures Has(fs, id, want[id]) {
          SameTable(messageType, id);
          var j :| 0 <= j < |reqs| && reqs[j].id == id && reqs[j].typ == want[id];
          HasMeets(fs, reqs[j]);
        }
      }
      if forall id :: id in want ==> Has(fs, id, want[id]) {
        forall j | 0 <= j < |reqs| ensures Meets(fs, reqs[j]) {
          SameTable(messageType, reqs[j].id);
          assert Listed(reqs, reqs[j].id, reqs[j].typ);
          HasMeets(fs, reqs[j]);
        }
      }
    }
  }

  // ---------------------------------------------------------------- checks

  /** Some check fails exactly when one of the named texts is blank, and it names the first of them. */
  predicate NamesFirstBlank(problem: Option<Error>, texts: seq<(string, bytes)>)
  {
    match problem
    case None => forall i :: 0 <= i < |texts| ==> !Blank(texts[i].1)
    case Some(x) =>
      exists i :: 0 <= i < |texts| && Blank(texts[i].1) && x == MissingField(texts[i].0)
                  && forall j :: 0 <= j < i ==> !Blank(texts[j].1)
  }

  /** A text that is blank when what it stands for is absent. */
  function Present(b: bool): bytes { if b then Ascii("x") else [] }

  lemma PresentBlank()
    ensures forall b :: Blank(Present(b)) <==> !b
  {
    PrintableStart(Ascii("x"));
  }

  /** The checks of the four messages. */
  lemma EventChecks(e: Event)
    ensures var texts := [("event_id", e.eventID),
                          ("command_id", e.commandID),
                          ("intent_id", e.intentID),
                          ("ghost_id", e.ghostID),
                          ("seed_id", e.seedID),
                          ("outcome", e.outcome)];
            NamesFirstBlank(EventProblem(e), texts)
  {
    hide Blank;
    PresentBlank();
    var texts := [("event_id", e.eventID),
                  ("command_id", e.commandID),
                  ("intent_id", e.intentID),
                  ("ghost_id", e.ghostID),
                  ("seed_id", e.seedID),
                  ("outcome", e.outcome)];
    if EventProblem(e).Some? {
      var i := if Blank(e.eventID) then 0 else if Blank(e.commandID) then 1 else if Blank(e.intentID) then 2
               else if Blank(e.ghostID) then 3 else if Blank(e.seedID) then 4 else 5;
      assert Blank(texts[i].1) && EventProblem(e) == Some(MissingField(texts[i].0));
    }
  }

  lemma AckChecks(a: EventAck)
    ensures var texts := [("event_id", a.eventID),
                          ("command_id", a.commandID),
                          ("ghost_id", a.ghostID),
                          ("ack_status", a.ackStatus),
                          ("timestamp_ms", Present(a.timestampMS != 0))];
            NamesFirstBlank(AckProblem(a), texts)
  {
    hide Blank;
    PresentBlank();
    var texts := [("event_id", a.eventID),
                  ("command_id", a.commandID),
                  ("ghost_id", a.ghostID),
                  ("ack_status", a.ackStatus),
                  ("timestamp_ms", Present(a.timestampMS != 0))];
    if AckProblem(a).Some? {
      var i := if Blank(a.eventID) then 0 else if Blank(a.commandID) then 1 else if Blank(a.ghostID) then 2
               else if Blank(a.ackStatus) then 3 else 4;
      assert Blank(texts[i].1) && AckProblem(a) == Some(MissingField(texts[i].0));
    }
  }

  lemma CommandChecks(c: Command)
    ensures var texts := [("command_id", c.commandID),
                          ("intent_id", c.intentID),
                          ("ghost_id", c.ghostID),
                          ("seed_selector", c.seedSelector),
                          ("operation", c.operation)];
            NamesFirstBlank(CommandProblem(c), texts)
  {
    hide Blank;
    PresentBlank();
    var texts := [("command_id", c.commandID),
                  ("intent_id", c.intentID),
                  ("ghost_id", c.ghostID),
                  ("seed_selector", c.seedSelector),
                  ("operation", c.operation)];
    if CommandProblem(c).Some? {
      var i := if Blank(c.commandID) then 0 else if Blank(c.intentID) then 1 else if Blank(c.ghostID) then 2
               else if Blank(c.seedSelector) then 3 else 4;
      assert Blank(texts[i].1) && CommandProblem(c) == Some(MissingField(texts[i].0));
    }
  }

  lemma ReportChecks(r: Report)
    ensures var texts := [("intent_id", r.intentID),
                          ("phase", r.phase),
                          ("summary", r.summary),
                          ("completion_state", r.completionState)];
            NamesFirstBlank(ReportProblem(r), texts)
  {
    hide Blank;
    PresentBlank();
    var texts := [("intent_id", r.intentID),
                  ("phase", r.phase),
                  ("summary", r.summary),
                  ("completion_state", r.completionState)];
    if ReportProblem(r).Some? {
      var i := if Blank(r.intentID) then 0 else if Blank(r.phase) then 1 else if Blank(r.summary) then 2 else 3;
      assert Blank(texts[i].1) && ReportProblem(r) == Some(MissingField(texts[i].0));
    }
  }

  /** The checks of the ghost's own envelopes. */
  lemma CommandEnvChecks(c: Ghost.CommandEnv)
    ensures var texts := [("message_id", Present(c.messageID != 0)),
                          ("command_id", c.commandID),
                          ("intent_id", c.intentID),
                          ("ghost_id", c.ghostID),
                          ("seed_selector", c.seedSelector),
                          ("operation", c.operation)];
            NamesFirstBlank(Ghost.CommandEnvProblem(c), texts)
  {
    hide Blank;
    PresentBlank();
    var texts := [("message_id", Present(c.messageID != 0)),
                  ("command_id", c.commandID),
                  ("intent_id", c.intentID),
                  ("ghost_id", c.ghostID),
                  ("seed_selector", c.seedSelector),
                  ("operation", c.operation)];
    if Ghost.CommandEnvProblem(c).Some? {
      var i := if Blank(Present(c.messageID != 0)) then 0 else if Blank(c.commandID) then 1
               else if Blank(c.intentID) then 2 else if Blank(c.ghostID) then 3
               else if Blank(c.seedSelector) then 4 else 5;
      assert Blank(texts[i].1) && Ghost.CommandEnvProblem(c) == Some(MissingField(texts[i].0));
    }
  }

  lemma SeedExecuteChecks(e: Ghost.SeedExecute)
    ensures var texts := [("execution_id", e.executionID),
                          ("command_id", e.commandID),
                          ("seed_id", e.seedID),
                          ("operation", e.operation)];
            NamesFirstBlank(Ghost.SeedExecuteProblem(e), texts)
  {
    hide Blank;
    PresentBlank();
    var texts := [("execution_id", e.executionID),
                  ("command_id", e.commandID),
                  ("seed_id", e.seedID),
                  ("operation", e.operation)];
    if Ghost.SeedExecuteProblem(e).Some? {
      var i := if Blank(e.executionID) then 0 else if Blank(e.commandID) then 1 else if Blank(e.seedID) then 2 else 3;
      assert Blank(texts[i].1) && Ghost.SeedExecuteProblem(e) == Some(MissingField(texts[i].0));
    }
  }

  lemma SeedResultChecks(r: Ghost.SeedResult)
    ensures var texts := [("execution_id", r.executionID),
                          ("seed_id", r.seedID),
                          ("status", r.status)];
            NamesFirstBlank(Ghost.SeedResultProblem(r), texts)
  {
    hide Blank;
    PresentBlank();
    var texts := [("execution_id", r.executionID),
                  ("seed_id", r.seedID),
                  ("status", r.status)];
    if Ghost.SeedResultProblem(r).Some? {
      var i := if Blank(r.executionID) then 0 else if Blank(r.seedID) then 1 else 2;
      assert Blank(texts[i].1) && Ghost.SeedResultProblem(r) == Some(MissingField(texts[i].0));
    }
  }

  lemma TerminalChecks(e: Event)
    ensures var texts := [("event_id", e.eventID),
                          ("command_id", e.commandID),
                          ("intent_id", e.intentID),
                          ("ghost_id", e.ghostID),
                          ("seed_id", e.seedID),
                          ("outcome", Present(e.outcome == Ghost.SUCCESS || e.outcome == Ghost.FAILURE)),
                          ("timestamp_ms", Present(e.timestampMS != 0))];
            NamesFirstBlank(Ghost.TerminalProblem(e), texts)
  {
    hide Blank;
    PresentBlank();
    var texts := [("event_id", e.eventID),
                  ("command_id", e.commandID),
                  ("intent_id", e.intentID),
                  ("ghost_id", e.ghostID),
                  ("seed_id", e.seedID),
                  ("outcome", Present(e.outcome == Ghost.SUCCESS || e.outcome == Ghost.FAILURE)),
                  ("timestamp_ms", Present(e.timestampMS != 0))];
    if Ghost.TerminalProblem(e).Some? {
      var i := if Blank(e.eventID) then 0 else if Blank(e.commandID) then 1 else if Blank(e.intentID) then 2
               else if Blank(e.ghostID) then 3 else if Blank(e.seedID) then 4
               else if Blank(Present(e.outcome == Ghost.SUCCESS || e.outcome == Ghost.FAILURE)) then 5 else 6;
      assert Blank(texts[i].1) && Ghost.TerminalProblem(e) == Some(MissingField(texts[i].0));
    }
  }

  // ---------------------------------------------------------------- causes

  /** Why a frame is not read. */
  lemma FrameErrorsMean(data: bytes, limits: Limits)
    requires Read(data, limits).0.Err?
    ensures var e := Read(data, limits).0.error;
            if |data| < 32 then e == ShortHeader
            else
              var h := HeaderOf(data[..32]);
              match e
              case UnsupportedMagic => h.magic != 0xEDCE_1001
              case UnsupportedVersion => h.version != 1
              case UnsupportedFlags => h.flags >= 8
              case HeaderLenTooSmall => h.headerLen < 32
              case HeaderLenMismatch => h.flags % 2 == 1 && h.headerLen == 32
              case AuthTooLarge => h.headerLen - 32 > limits.maxAuth
              case PayloadTooLarge => h.payloadLen > limits.maxPayload
              case UnexpectedEnd => |data| < h.headerLen + h.payloadLen
              case _ => false
  {
    hide HeaderOf;
  }

  /** Why a frame is not written: nothing but its auth block, its payload, or a flag above the three known ones. */
  lemma WriteErrorsMean(f: Frame, limits: Limits)
    requires |f.payload| < 0x1_0000_0000_0000_0000
    ensures Written(f, limits).Ok? <==> |f.auth| <= limits.maxAuth && |f.payload| <= limits.maxPayload && f.header.flags < 8
    ensures Written(f, limits).Err? ==>
              match Written(f, limits).error
              case AuthTooLarge => |f.auth| > limits.maxAuth
              case PayloadTooLarge => |f.payload| > limits.maxPayload
              case UnsupportedFlags => f.header.flags >= 8
              case _ => false
  {
  }

  /** Why a payload is not decoded: some fields are read, and of the bytes left there are fewer than a field's header has,
      or fewer than the field's length asks for. */
  lemma {:induction false} ParseErrorsMean(p: bytes) returns (fs: seq<Field>, left: bytes)
    requires Parse(p).Err?
    ensures p == FieldsBytes(fs) + left && left != []
    ensures match Parse(p).error
            case ShortFieldHeader => |left| < 7
            case ShortFieldValue => |left| >= 7 && FromU32(left[3..7]) > Low32(|left| - 7)
            case _ => false
    decreases |p|
  {
    hide FromU32, FieldsBytes, Head, AfterHead, HeadLength;
    if |p| < HEADER_LEN {
      fs, left := [], p;
      NoFields(p);
    } else if Low32(|p| - HEADER_LEN) < HeadLength(p) {
      fs, left := [], p;
      NoFields(p);
      DeclaredLength(p);
    } else {
      ParsesOn(p);
      var rest;
      rest, left := ParseErrorsMean(AfterHead(p));
      fs := [Head(p)] + rest;
      OneMoreField(p, rest, left);
    }
  }

  lemma DeclaredLength(p: bytes)
    requires |p| >= HEADER_LEN
    ensures HeadLength(p) == FromU32(p[3..7])
  {
  }

  lemma ParsesOn(p: bytes)
    requires |p| >= HEADER_LEN && Low32(|p| - HEADER_LEN) >= HeadLength(p) && Parse(p).Err?
    ensures HEADER_LEN + HeadLength(p) <= |p| && Parse(AfterHead(p)) == Err(Parse(p).error) && |AfterHead(p)| < |p|
  {
    hide Head;
  }

  lemma OneMoreField(p: bytes, rest: seq<Field>, left: bytes)
    requires |p| >= HEADER_LEN && HEADER_LEN + HeadLength(p) <= |p| && AfterHead(p) == FieldsBytes(rest) + left
    ensures p == FieldsBytes([Head(p)] + rest) + left
  {
    hide FieldsBytes, Head, AfterHead, HeadLength, FieldBytes;
    Tlv.HeaderWritesBack(p);
    FieldsBytesCons(Head(p), rest);
    assert FieldBytes(Head(p)) + (FieldsBytes(rest) + left) == FieldBytes(Head(p)) + FieldsBytes(rest) + left;
  }

  lemma NoFields(p: bytes)
    ensures p == FieldsBytes([]) + p
  {
  }

  // ---------------------------------------------------------------- white space

  /** What unicode.IsSpace says of a code point. */
  predicate SpaceRune(r: int)
  {
    || 9 <= r <= 13 || r == 32 || r == 0x85 || r == 0xA0 || r == 0x1680 || 0x2000 <= r <= 0x200A
    || r == 0x2028 || r == 0x2029 || r == 0x202F || r == 0x205F || r == 0x3000
  }

  /** The bytes trimmed are the UTF-8 forms of those code points. */
  lemma SpacesAreRunes(a: byte, b: byte, c: byte)
    requires 0x80 <= b < 0xC0 && 0x80 <= c < 0xC0
    ensures a < 0x80 ==> (IsAsciiSpace(a) <==> SpaceRune(a))
    ensures 0xC2 <= a < 0xE0 ==> (IsSpace2(a, b) <==> SpaceRune((a - 0xC0) * 64 + b - 0x80))
    ensures 0xE1 <= a < 0xF0 ==> (IsSpace3(a, b, c) <==> SpaceRune((a - 0xE0) * 4096 + (b - 0x80) * 64 + c - 0x80))
    ensures IsSpace2(a, b) ==> a >= 0xC2 && IsSpace3(a, b, c) ==> a >= 0xE1
  {
  }
}
