/** internal/ghost/admin_control.go: external commands on one ghost, with fresh message ids and two aligned logs. */
module Admin {
  import opened Bytes
  import opened Errors
  import opened Schema
  import opened Session
  import opened Framing
  import opened Ghost

  const CMD: bytes := Ascii("cmd.")
  const INTENT: bytes := Ascii("intent.")
  const REQ: bytes := Ascii("req.")
  const TRACE: bytes := Ascii("trace.")

  datatype AdminCommand = AdminCommand(commandID: bytes, intentID: bytes, seedSelector: bytes, operation: bytes, args: Args)

  datatype VerificationRecord = VerificationRecord(
    requestID: bytes, traceID: bytes, commandMessageID: u64, commandMessageType: u32, eventMessageType: u32,
    commandID: bytes, executionID: bytes, eventID: bytes, ghostID: bytes, seedID: bytes, operation: bytes,
    outcome: bytes, seedStatus: bytes, exitCode: int, timestampMS: u64, status: bytes)

  /** A ghost's service: its server, the message sequence, and the two logs. */
  datatype AdminState = AdminState(g: Store, issued: u64, events: seq<Event>, records: seq<VerificationRecord>)

  /** `<prefix><ghost id>.<n>`. */
  function Numbered(prefix: bytes, ghostID: bytes, n: nat): bytes { prefix + (ghostID + [DOT] + Decimal(n)) }

  function OrNumbered(given: bytes, prefix: bytes, ghostID: bytes, n: nat): bytes
  {
    if Blank(given) then Numbered(prefix, ghostID, n) else TrimSpace(given)
  }

  /** The envelope an admin command becomes. It is always addressed to this ghost. */
  function EnvFor(ghostID: bytes, id: u64, cmd: AdminCommand): CommandEnv
  {
    CommandEnv(id, OrNumbered(cmd.commandID, CMD, ghostID, id), OrNumbered(cmd.intentID, INTENT, ghostID, id),
               ghostID, TrimSpace(cmd.seedSelector), TrimSpace(cmd.operation), cmd.args)
  }

  function RecordFor(ghostID: bytes, id: u64, x: Execution, e: Event): VerificationRecord
  {
    VerificationRecord(Numbered(REQ, ghostID, id), Numbered(TRACE, ghostID, id), id, MSG_COMMAND, MSG_EVENT,
                       x.commandID, x.executionID, e.eventID, ghostID, e.seedID, x.operation, e.outcome,
                       x.seedResult.status, x.seedResult.exitCode, e.timestampMS, e.outcome)
  }

  /** ExecuteAdminCommand. The message id is used up even when the command is rejected. */
  function Execute(a: AdminState, cmd: AdminCommand, world: SeedWorld, now: u64): (AdminState, Result<(Execution, Event)>)
  {
    var env := EnvFor(a.g.ghostID, NextU64(a.issued), cmd);
    var (g', r) := HandleAndExecute(a.g, env, world, now);
    var a' := a.(g := g', issued := env.messageID);
    if r.Err? then (a', Err(r.error))
    else
      match ByCommandID(g', env.commandID)
      case None => (a', Err(MissingExecution))
      case Some(x) =>
        (a'.(events := a.events + [r.value],
             records := a.records + [RecordFor(a.g.ghostID, env.messageID, x, r.value)]), Ok((x, r.value)))
  }

  function FromWire(c: Command): AdminCommand
  {
    AdminCommand(TrimSpace(c.commandID), TrimSpace(c.intentID), TrimSpace(c.seedSelector), TrimSpace(c.operation), c.args)
  }

  /** executeAdminCommandEnvelope: one command frame in, one event frame out. */
  function Serve(a: AdminState, codec: ArgsCodec, request: bytes, world: SeedWorld, now: u64): (AdminState, Result<bytes>)
  {
    if request == [] then (a, Err(MissingCommandFrame))
    else
      match Read(request, DEFAULT_LIMITS).0
      case Err(e) => (a, Err(e))
      case Ok(f) =>
        match Decoded(codec, CommandKind, f.payload)
        case Err(e) => (a, Err(e))
        case Ok(envelope) =>
          DecodesItsKind(codec, CommandKind, f.payload);
          var (a', r) := Execute(a, FromWire(envelope.command), world, now);
          if r.Err? then (a', Err(r.error))
          else (a', Encoded(codec, f.header.messageID, EventEnvelope(r.value.1)))
  }

  // ---------------------------------------------------------------- the code

  class Service {
    const server: Server
    const codec: ArgsCodec
    var adminSeq: u64
    var adminEvents: seq<Event>
    var verificationEvents: seq<VerificationRecord>

    ghost function State(): AdminState
      reads this, server
    {
      AdminState(server.State(), adminSeq, adminEvents, verificationEvents)
    }

    constructor (server: Server, codec: ArgsCodec)
      ensures State() == AdminState(server.State(), 0, [], []) && this.server == server && this.codec == codec
    {
      this.server, this.codec := server, codec;
      adminSeq, adminEvents, verificationEvents := 0, [], [];
    }

    method ExecuteAdminCommand(cmd: AdminCommand, world: SeedWorld, now: u64) returns (r: Result<(Execution, Event)>)
      modifies this, server
      ensures (State(), r) == Execute(old(State()), cmd, world, now)
    {
      hide HandleAndExecute, ByCommandID;
      var ghostID := server.ghostID;
      adminSeq := NextU64(adminSeq);
      var messageID := adminSeq;
      var commandID := TrimSpace(cmd.commandID);
      if commandID == [] { commandID := Numbered(CMD, ghostID, messageID); }
      var intentID := TrimSpace(cmd.intentID);
      if intentID == [] { intentID := Numbered(INTENT, ghostID, messageID); }
      var env := CommandEnv(messageID, commandID, intentID, ghostID, TrimSpace(cmd.seedSelector), TrimSpace(cmd.operation), cmd.args);
      assert env == EnvFor(ghostID, messageID, cmd);
      var event := server.HandleCommandAndExecute(env, world, now);
      if event.Err? { return Err(event.error); }
      var state := server.ExecutionByCommandID(commandID);
      if state.None? { return Err(MissingExecution); }
      adminEvents := adminEvents + [event.value];
      verificationEvents := verificationEvents + [RecordFor(ghostID, messageID, state.value, event.value)];
      return Ok((state.value, event.value));
    }

    method ExecuteAdminCommandEnvelope(commandFrame: bytes, world: SeedWorld, now: u64) returns (r: Result<bytes>)
      modifies this, server
      ensures (State(), r) == Serve(old(State()), codec, commandFrame, world, now)
    {
      hide Read, Decoded, Execute, Encoded;
      if |commandFrame| == 0 { return Err(MissingCommandFrame); }
      var reader := new Reader(commandFrame);
      var fr := ReadFrame(reader, DEFAULT_LIMITS);
      if fr.Err? { return Err(fr.error); }
      var cmd := DecodeFrame(codec, CommandKind, fr.value);
      if cmd.Err? { return Err(cmd.error); }
      DecodesItsKind(codec, CommandKind, fr.value.payload);
      var done := ExecuteAdminCommand(FromWire(cmd.value.command), world, now);
      if done.Err? { return Err(done.error); }
      var (_, event) := done.value;
      r := EncodeEventFrame(fr.value.header.messageID, event);
      assert r == Encoded(codec, fr.value.header.messageID, EventEnvelope(event));
    }
  }

  // ---------------------------------------------------------------- the invariant

  /** A log entry: the event of a complete execution, and its verification record. */
  predicate Logged(g: Store, e: Event, rec: VerificationRecord)
  {
    && e.commandID in g.byCommandID
    && var x := g.byCommandID[e.commandID];
       x.phase == Complete && x.event == e && TerminalProblem(e) == None && rec == RecordFor(g.ghostID, x.messageID, x, e)
  }

  predicate Listed(events: seq<Event>, commandID: bytes)
  {
    exists i :: 0 <= i < |events| && events[i].commandID == commandID
  }

  predicate MessagesBelow(g: Store, n: u64) { forall m :: m in g.byMessageID ==> 0 < m <= n }

  predicate Identified(g: Store) { g.phase != Boot ==> Trimmed(g.ghostID) && !Blank(g.ghostID) }

  predicate Ascending(records: seq<VerificationRecord>, n: u64)
  {
    && (forall i, j :: 0 <= i < j < |records| ==> records[i].commandMessageID < records[j].commandMessageID)
    && (forall i :: 0 <= i < |records| ==> records[i].commandMessageID <= n)
  }

  /** The logs are aligned and hold each execution once, in message order; every message id in use has been given out. */
  predicate InOrder(a: AdminState)
  {
    && Agrees(a.g) && Identified(a.g) && MessagesBelow(a.g, a.issued)
    && |a.events| == |a.records| && Ascending(a.records, a.issued)
    && (forall i :: 0 <= i < |a.events| ==> Logged(a.g, a.events[i], a.records[i]))
    && (forall c :: c in a.g.byCommandID ==> a.g.byCommandID[c].phase == Complete && Listed(a.events, c))
  }

  lemma FreshServiceInOrder(g: Store)
    requires Agrees(g) && Identified(g) && g.byCommandID == map[] && g.byMessageID == map[]
    ensures InOrder(AdminState(g, 0, [], []))
  {
  }

  /** Message ids are fresh for as long as the sequence has not wrapped; at the wrap the id is 0, which no
      command may carry. */
  lemma MessageIDFreshIff(a: AdminState)
    requires InOrder(a)
    ensures NextU64(a.issued) != 0 && NextU64(a.issued) !in a.g.byMessageID <==> a.issued < MAX_U64
  {
    hide Agrees, Logged, Listed, Identified, Ascending;
  }

  lemma NumberedValid(prefix: bytes, ghostID: bytes, n: nat)
    requires prefix != [] && Printable(prefix)
    ensures Trimmed(Numbered(prefix, ghostID, n)) && !Blank(Numbered(prefix, ghostID, n))
  {
    var t, d := ghostID + [DOT] + Decimal(n), Decimal(n);
    assert t[|t| - 1] == d[|d| - 1];
    PrefixTrimmed(prefix, t);
  }

  /** A numbered id starts with its prefix and the ghost's id, and gives ghost and number back. */
  lemma NumberedReads(prefix: bytes, g: bytes, m: nat, h: bytes, n: nat)
    ensures prefix + g + [DOT] <= Numbered(prefix, g, m)
    ensures Numbered(prefix, g, m) == Numbered(prefix, h, n) ==> g == h && m == n
  {
    assert prefix + g + [DOT] + Decimal(m) == Numbered(prefix, g, m);
    if Numbered(prefix, g, m) == Numbered(prefix, h, n) {
      assert Numbered(prefix, g, m)[|prefix|..] == g + [DOT] + Decimal(m);
      assert Numbered(prefix, h, n)[|prefix|..] == h + [DOT] + Decimal(n);
      DottedInjective(g, m, h, n);
    }
  }

  /** A trimmed text is blank exactly when the text is. */
  lemma TrimmedBlank(s: bytes)
    ensures Blank(TrimSpace(s)) <==> Blank(s)
  {
  }

  lemma EnvValid(ghostID: bytes, id: u64, cmd: AdminCommand)
    ensures var env := EnvFor(ghostID, id, cmd);
            && Trimmed(env.commandID) && !Blank(env.commandID) && !Blank(env.intentID)
            && Trimmed(env.seedSelector) && Trimmed(env.operation)
            && (Blank(env.seedSelector) <==> Blank(cmd.seedSelector)) && (Blank(env.operation) <==> Blank(cmd.operation))
  {
    hide TrimSpace, Trimmed, Blank, Numbered;
    NumberedValid(CMD, ghostID, id);
    NumberedValid(INTENT, ghostID, id);
    TrimmedBlank(cmd.seedSelector);
    TrimmedBlank(cmd.operation);
    TrimmedBlank(cmd.commandID);
    TrimmedBlank(cmd.intentID);
  }

  lemma EffectiveID(ghostID: bytes, id: u64, cmd: AdminCommand)
    ensures EnvFor(ghostID, id, cmd).commandID
            == if Blank(cmd.commandID) then Ascii("cmd.") + ghostID + [DOT] + Decimal(id) else TrimSpace(cmd.commandID)
    ensures EnvFor(ghostID, id, cmd).intentID
            == if Blank(cmd.intentID) then Ascii("intent.") + ghostID + [DOT] + Decimal(id) else TrimSpace(cmd.intentID)
  {
    hide TrimSpace, Decimal;
    assert Ascii("cmd.") + ghostID + [DOT] + Decimal(id) == Numbered(CMD, ghostID, id);
    assert Ascii("intent.") + ghostID + [DOT] + Decimal(id) == Numbered(INTENT, ghostID, id);
  }

  lemma RejectedEnvIff(a: AdminState, cmd: AdminCommand)
    requires InOrder(a) && a.issued < MAX_U64
    ensures var env := EnvFor(a.g.ghostID, a.issued + 1, cmd);
            Rejection(a.g, env).None? <==>
              a.g.phase == Radiating && !Blank(cmd.seedSelector) && !Blank(cmd.operation) && env.commandID !in a.g.byCommandID
  {
    hide Agrees, Logged, Listed, Ascending, TrimLeft, TrimRight, Trimmed, Blank, EnvFor;
    EnvValid(a.g.ghostID, a.issued + 1, cmd);
    MessageIDFreshIff(a);
    EnvAddress(a.g.ghostID, a.issued + 1, cmd);
    TrimmedIsFixed(a.g.ghostID);
    TrimmedIsFixed(EnvFor(a.g.ghostID, a.issued + 1, cmd).commandID);
  }

  /** What makes the ghost refuse an admin command, in terms a caller can look at. A command without an id gets one that
      ends in the number of its message. */
  lemma RejectedIff(a: AdminState, cmd: AdminCommand, world: SeedWorld, now: u64)
    requires InOrder(a) && a.issued < MAX_U64 && now > 0
    ensures var id := if Blank(cmd.commandID) then Ascii("cmd.") + a.g.ghostID + [DOT] + Decimal(a.issued + 1)
                      else TrimSpace(cmd.commandID);
            Execute(a, cmd, world, now).1.Ok? <==>
              a.g.phase == Radiating && !Blank(cmd.seedSelector) && !Blank(cmd.operation) && id !in a.g.byCommandID
  {
    hide *;
    EffectiveID(a.g.ghostID, a.issued + 1, cmd);
    RejectedEnvIff(a, cmd);
    ExecuteStep(a, cmd, world, now);
  }

  lemma EnvAddress(ghostID: bytes, id: u64, cmd: AdminCommand)
    ensures EnvFor(ghostID, id, cmd).ghostID == ghostID && EnvFor(ghostID, id, cmd).messageID == id
  {
  }

  /** Everything an admin command does: a refused one only uses up a message id; an accepted one adds exactly one
      complete execution, and its event to both logs. */
  lemma ExecuteStep(a: AdminState, cmd: AdminCommand, world: SeedWorld, now: u64)
    requires InOrder(a) && a.issued < MAX_U64 && now > 0
    ensures var env := EnvFor(a.g.ghostID, a.issued + 1, cmd);
            var (a', r) := Execute(a, cmd, world, now);
            && Agrees(a'.g) && Grows(a.g, a'.g) && a'.issued == a.issued + 1 && a'.g.ghostID == a.g.ghostID && a'.g.phase == a.g.phase
            && a'.g.registry == a.g.registry
            && (r.Ok? <==> Rejection(a.g, env) == None)
            && (r.Err? ==> a' == a.(issued := a.issued + 1))
            && (r.Ok? ==>
                  var (x, e) := r.value;
                  && env.commandID !in a.g.byCommandID && a'.g.byCommandID == a.g.byCommandID[env.commandID := x]
                  && SameIdentity(x, NewExecution(env)) && x.phase == Complete && x.event == e && TerminalProblem(e) == None
                  && EventOfRecord(a.g, x, e) && x.ghostID == a.g.ghostID
                  && e.commandID == env.commandID && x.commandID == env.commandID && x.messageID == env.messageID
                  && a'.events == a.events + [e] && a'.records == a.records + [RecordFor(a.g.ghostID, env.messageID, x, e)])
  {
    hide Agrees, Grows, Rejection, HandleAndExecute, TerminalProblem, MessagesBelow, Identified, Ascending, Logged, Listed, EnvFor,
         ByCommandID, NewExecution, SameIdentity, RecordFor;
    var env := EnvFor(a.g.ghostID, a.issued + 1, cmd);
    EnvAddress(a.g.ghostID, a.issued + 1, cmd);
    HandledOnce(a.g, env, world, now) by { EnvValid(a.g.ghostID, a.issued + 1, cmd); }
    SameServer(a.g, env, world, now);
  }

  /** The pipeline's answer, for an envelope whose command id is trimmed. */
  lemma HandledOnce(g: Store, env: CommandEnv, world: SeedWorld, now: u64)
    requires Agrees(g) && now > 0 && Trimmed(env.commandID)
    ensures var (h, r) := HandleAndExecute(g, env, world, now);
            && Agrees(h) && Grows(g, h) && (r.Ok? <==> Rejection(g, env) == None) && (r.Err? ==> h == g)
            && (r.Ok? ==>
                  && ByCommandID(h, env.commandID).Some? && env.commandID !in g.byCommandID
                  && var x := ByCommandID(h, env.commandID).value;
                     && h.byCommandID == g.byCommandID[env.commandID := x]
                     && SameIdentity(x, NewExecution(env)) && x.phase == Complete && x.event == r.value
                     && TerminalProblem(r.value) == None && EventOfRecord(g, x, r.value)
                     && x.commandID == env.commandID && x.messageID == env.messageID && x.ghostID == g.ghostID)
  {
    hide Agrees, Grows, Rejection, HandleAndExecute, TerminalProblem, TrimSpace, ExecutionID;
    TrimmedIsFixed(env.commandID);
    AcceptedEndsComplete(g, env, world, now);
    var h := HandleAndExecute(g, env, world, now).0;
    if Rejection(g, env) == None {
      assert h.byCommandID == g.byCommandID[env.commandID := h.byCommandID[env.commandID]];
    }
  }

  lemma SameServer(g: Store, env: CommandEnv, world: SeedWorld, now: u64)
    ensures var h := HandleAndExecute(g, env, world, now).0;
            h.ghostID == g.ghostID && h.phase == g.phase && h.registry == g.registry
  {
    hide Rejection, Outcome;
  }

  // ---------------------------------------------------------------- every call keeps it

  lemma RequestNumbers(ghostID: bytes, n: nat)
    ensures Numbered(REQ, ghostID, n) == Ascii("req.") + ghostID + [DOT] + Decimal(n)
    ensures Numbered(TRACE, ghostID, n) == Ascii("trace.") + ghostID + [DOT] + Decimal(n)
  {
    hide Decimal;
    assert Ascii("req.") + ghostID + [DOT] + Decimal(n) == Numbered(REQ, ghostID, n);
    assert Ascii("trace.") + ghostID + [DOT] + Decimal(n) == Numbered(TRACE, ghostID, n);
  }

  lemma LoggedStays(g: Store, g': Store, id: bytes, x: Execution, e: Event, rec: VerificationRecord)
    requires Logged(g, e, rec) && id !in g.byCommandID && g'.byCommandID == g.byCommandID[id := x] && g'.ghostID == g.ghostID
    ensures Logged(g', e, rec)
  {
    hide RecordFor, TerminalProblem;
  }

  lemma {:induction false} LogsGrow(a: AdminState, a': AdminState, id: bytes, x: Execution, e: Event)
    requires InOrder(a) && a.issued < MAX_U64 && a'.issued == a.issued + 1
    requires id !in a.g.byCommandID && a'.g.byCommandID == a.g.byCommandID[id := x] && a'.g.ghostID == a.g.ghostID
    requires x.phase == Complete && x.event == e && TerminalProblem(e) == None && e.commandID == id && x.messageID == a'.issued
    requires a'.events == a.events + [e] && a'.records == a.records + [RecordFor(a.g.ghostID, a'.issued, x, e)]
    ensures |a'.events| == |a'.records| && Ascending(a'.records, a'.issued)
    ensures forall i :: 0 <= i < |a'.events| ==> Logged(a'.g, a'.events[i], a'.records[i])
    ensures forall c :: c in a'.g.byCommandID ==> a'.g.byCommandID[c].phase == Complete && Listed(a'.events, c)
  {
    hide Agrees, Logged, TerminalProblem, MessagesBelow, Identified, Numbered;
    forall i | 0 <= i < |a'.events| ensures Logged(a'.g, a'.events[i], a'.records[i]) {
      if i < |a.events| {
        assert Logged(a.g, a.events[i], a.records[i]);
        LoggedStays(a.g, a'.g, id, x, a.events[i], a.records[i]);
      } else {
        NowLogged(a'.g, id, x, e);
      }
    }
    forall c | c in a'.g.byCommandID ensures Listed(a'.events, c) {
      if c == id {
        assert a'.events[|a.events|].commandID == c;
      } else {
        assert Listed(a.events, c);
        var i :| 0 <= i < |a.events| && a.events[i].commandID == c;
        assert a'.events[i].commandID == c;
      }
    }
  }

  lemma NowLogged(g: Store, id: bytes, x: Execution, e: Event)
    requires id in g.byCommandID && g.byCommandID[id] == x && x.phase == Complete && x.event == e
    requires TerminalProblem(e) == None && e.commandID == id
    ensures Logged(g, e, RecordFor(g.ghostID, x.messageID, x, e))
  {
    hide TerminalProblem, Numbered;
  }

  lemma MessagesStayBelow(g: Store, g': Store, n: u64, id: bytes, x: Execution)
    requires MessagesBelow(g, n) && n < MAX_U64 && Agrees(g) && Agrees(g')
    requires g'.byCommandID == g.byCommandID || (g'.byCommandID == g.byCommandID[id := x] && x.messageID == n + 1)
    ensures MessagesBelow(g', n + 1)
  {
    hide ExecutionID, Trimmed;
    forall m | m in g'.byMessageID ensures 0 < m <= n + 1 {
      assert MessageAt(g', m);
      var c := g'.byMessageID[m];
      if c in g.byCommandID { assert RecordAt(g, c); }
    }
  }

  lemma ExecuteKeeps(a: AdminState, cmd: AdminCommand, world: SeedWorld, now: u64)
    requires InOrder(a) && a.issued < MAX_U64 && now > 0
    ensures InOrder(Execute(a, cmd, world, now).0)
  {
    hide Agrees, Execute, MessagesBelow, Ascending, Logged, Listed, Rejection, TerminalProblem, RecordFor, SameIdentity,
         EnvFor, NewExecution, Grows;
    ExecuteStep(a, cmd, world, now);
    var (a', r) := Execute(a, cmd, world, now);
    IdentifiedStays(a.g, a'.g);
    EnvAddress(a.g.ghostID, a.issued + 1, cmd);
    if r.Ok? {
      MessagesStayBelow(a.g, a'.g, a.issued, EnvFor(a.g.ghostID, a.issued + 1, cmd).commandID, r.value.0);
      LogsGrow(a, a', EnvFor(a.g.ghostID, a.issued + 1, cmd).commandID, r.value.0, r.value.1);
    } else {
      BelowWidens(a.g, a.issued);
      AscendingWidens(a.records, a.issued);
    }
  }

  lemma IdentifiedStays(g: Store, g': Store)
    requires Identified(g) && g'.ghostID == g.ghostID && g'.phase == g.phase
    ensures Identified(g')
  {
  }

  lemma BelowWidens(g: Store, n: u64)
    requires MessagesBelow(g, n) && n < MAX_U64
    ensures MessagesBelow(g, n + 1)
  {
  }

  lemma AscendingWidens(records: seq<VerificationRecord>, n: u64)
    requires Ascending(records, n) && n < MAX_U64
    ensures Ascending(records, n + 1)
  {
  }

  datatype AdminCall = AdminCall(cmd: AdminCommand, world: SeedWorld, at: u64)

  function Calls(a: AdminState, calls: seq<AdminCall>): AdminState
    decreases |calls|
  {
    if calls == [] then a else Calls(Execute(a, calls[0].cmd, calls[0].world, calls[0].at).0, calls[1..])
  }

  /** Over any run of admin calls shorter than the message sequence: a fresh message id each, one complete
      execution per accepted command, and two aligned logs that list exactly those executions in order. */
  lemma {:induction false} LogsExact(a: AdminState, calls: seq<AdminCall>)
    requires InOrder(a) && a.issued + |calls| <= MAX_U64 && forall c :: c in calls ==> c.at > 0
    ensures var a' := Calls(a, calls);
            && InOrder(a') && a'.issued == a.issued + |calls| && Grows(a.g, a'.g)
            && a.events <= a'.events && a.records <= a'.records
    decreases |calls|
  {
    hide InOrder, Execute, Grows, Rejection, TerminalProblem, RecordFor, SameIdentity, EnvFor, NewExecution;
    if calls == [] {
      GrowsReflexive(a.g);
    } else {
      var c := calls[0];
      var a1 := Execute(a, c.cmd, c.world, c.at).0;
      assert a1.issued == a.issued + 1 && Grows(a.g, a1.g) && a.events <= a1.events && a.records <= a1.records by {
        ExecuteStep(a, c.cmd, c.world, c.at);
      }
      ExecuteKeeps(a, c.cmd, c.world, c.at);
      LogsExact(a1, calls[1..]);
      GrowsTransitive(a.g, a1.g, Calls(a, calls).g);
    }
  }

  // ---------------------------------------------------------------- commands without ids

  /** A command that names seed and operation and leaves its id to the ghost. */
  predicate Unnamed(cmd: AdminCommand)
  {
    Blank(cmd.commandID) && !Blank(cmd.seedSelector) && !Blank(cmd.operation)
  }

  /** No command on record has an id the ghost may still give out. */
  ghost predicate NumbersFree(a: AdminState)
  {
    forall n: nat :: n > a.issued ==> Numbered(CMD, a.g.ghostID, n) !in a.g.byCommandID
  }

  /** Entry `i` of the logs, the first `start` of which were there when `issued` message ids had been given out: the ids of
      its command, request and trace carry the number of its message. */
  predicate NumberedFrom(a: AdminState, i: nat, start: nat, issued: nat)
    requires start <= i < |a.events| && i < |a.records|
  {
    var (e, rec, n) := (a.events[i], a.records[i], issued + (i - start) + 1);
    && e.commandID == rec.commandID == Numbered(CMD, a.g.ghostID, n)
    && rec.requestID == Numbered(REQ, a.g.ghostID, n) && rec.traceID == Numbered(TRACE, a.g.ghostID, n)
    && rec.commandMessageID == n
  }

  lemma UnnamedAccepted(a: AdminState, cmd: AdminCommand, world: SeedWorld, now: u64)
    requires InOrder(a) && a.issued < MAX_U64 && now > 0
    requires a.g.phase == Radiating && NumbersFree(a) && Unnamed(cmd)
    ensures var (a', r) := Execute(a, cmd, world, now); var id := Numbered(CMD, a.g.ghostID, a.issued + 1);
            && r.Ok? && r.value.1.commandID == id && r.value.0.commandID == id
            && a'.events == a.events + [r.value.1]
            && a'.records == a.records + [RecordFor(a.g.ghostID, a.issued + 1, r.value.0, r.value.1)]
            && a'.g.byCommandID == a.g.byCommandID[id := r.value.0] && NumbersFree(a')
            && a'.g.phase == Radiating && a'.g.ghostID == a.g.ghostID && a'.issued == a.issued + 1 && InOrder(a')
  {
    hide InOrder, Rejection, Execute, TrimSpace, SameIdentity, NewExecution, TerminalProblem, EventOfRecord, RecordFor, Grows,
         Agrees, EnvFor, Numbered;
    var id := Numbered(CMD, a.g.ghostID, a.issued + 1);
    NumberedOwn(a.g.ghostID, a.issued + 1, cmd);
    EnvAddress(a.g.ghostID, a.issued + 1, cmd);
    RejectedEnvIff(a, cmd);
    ExecuteStep(a, cmd, world, now);
    ExecuteKeeps(a, cmd, world, now);
    var a' := Execute(a, cmd, world, now).0;
    forall n: nat | n > a'.issued ensures Numbered(CMD, a'.g.ghostID, n) !in a'.g.byCommandID {
      NumberedReads(CMD, a.g.ghostID, n, a.g.ghostID, a.issued + 1);
    }
  }

  lemma NumberedOwn(ghostID: bytes, id: u64, cmd: AdminCommand)
    requires Blank(cmd.commandID)
    ensures EnvFor(ghostID, id, cmd).commandID == Numbered(CMD, ghostID, id)
  {
    hide TrimSpace, Numbered;
  }

  /** Commands without ids never collide: over every run of them on a radiating ghost each is accepted and executed once,
      and the commands, requests and traces have ids that carry the numbers of their messages. */
  lemma {:induction false} UnnamedAllRun(a: AdminState, calls: seq<AdminCall>)
    requires InOrder(a) && a.issued + |calls| <= MAX_U64 && a.g.phase == Radiating && NumbersFree(a)
    requires forall c :: c in calls ==> c.at > 0 && Unnamed(c.cmd)
    ensures var a' := Calls(a, calls);
            && InOrder(a') && a'.g.ghostID == a.g.ghostID && a'.issued == a.issued + |calls|
            && |a'.events| == |a'.records| == |a.events| + |calls|
            && a.events <= a'.events && a.records <= a'.records
            && forall i :: |a.events| <= i < |a'.events| ==> NumberedFrom(a', i, |a.events|, a.issued)
    decreases |calls|
  {
    hide InOrder, Execute, Numbered, NumbersFree, Unnamed;
    LogsAligned(a);
    if calls != [] {
      var c := calls[0];
      UnnamedAccepted(a, c.cmd, c.world, c.at);
      var a1 := Execute(a, c.cmd, c.world, c.at).0;
      LogsAligned(a1);
      UnnamedAllRun(a1, calls[1..]);
      var a' := Calls(a, calls);
      forall i | |a.events| <= i < |a'.events| ensures NumberedFrom(a', i, |a.events|, a.issued) {
        if i == |a.events| {
          assert a'.events[i] == a1.events[i] && a'.records[i] == a1.records[i];
        } else {
          assert NumberedFrom(a', i, |a1.events|, a1.issued);
        }
      }
    }
  }

  lemma LogsAligned(a: AdminState)
    requires InOrder(a)
    ensures |a.events| == |a.records|
  {
  }

  /** So no two of them share a command, request or trace id. */
  lemma UnnamedAllDiffer(a: AdminState, calls: seq<AdminCall>, i: nat, j: nat)
    requires InOrder(a) && a.issued + |calls| <= MAX_U64 && a.g.phase == Radiating && NumbersFree(a)
    requires (forall c :: c in calls ==> c.at > 0 && Unnamed(c.cmd)) && i < j < |calls|
    ensures var a' := Calls(a, calls); var n := |a.events|;
            && |a'.events| == |a'.records| == n + |calls|
            && a'.events[n + i].commandID != a'.events[n + j].commandID
            && a'.records[n + i].requestID != a'.records[n + j].requestID
            && a'.records[n + i].traceID != a'.records[n + j].traceID
  {
    hide InOrder, Calls, Numbered, NumbersFree, Unnamed;
    LogsAligned(a);
    UnnamedAllRun(a, calls);
    var n := |a.events|;
    assert NumberedFrom(Calls(a, calls), n + i, n, a.issued) && NumberedFrom(Calls(a, calls), n + j, n, a.issued);
    NumberedReads(CMD, a.g.ghostID, a.issued + i + 1, a.g.ghostID, a.issued + j + 1);
    NumberedReads(REQ, a.g.ghostID, a.issued + i + 1, a.g.ghostID, a.issued + j + 1);
    NumberedReads(TRACE, a.g.ghostID, a.issued + i + 1, a.g.ghostID, a.issued + j + 1);
  }

  /** Custody: the message id of a verification record leads to the complete execution whose event stands beside it
      in the other log, and the record names that execution's ids, operation, status and outcome. */
  lemma CustodyTraced(a: AdminState, i: nat)
    requires InOrder(a) && i < |a.events|
    ensures i < |a.records|
    ensures var (rec, e) := (a.records[i], a.events[i]); var found := ByMessageID(a.g, rec.commandMessageID);
            && found.Some? && found.value.event == e && found.value.phase == Complete
            && rec.commandID == found.value.commandID == e.commandID && rec.executionID == found.value.executionID
            && rec.operation == found.value.operation && rec.seedStatus == found.value.seedResult.status
            && rec.exitCode == found.value.seedResult.exitCode && rec.eventID == e.eventID && rec.outcome == e.outcome
            && rec.ghostID == a.g.ghostID && rec.seedID == e.seedID && rec.timestampMS == e.timestampMS
            && rec.status == rec.outcome && rec.commandMessageType == 2 && rec.eventMessageType == 5
            && rec.requestID == Ascii("req.") + a.g.ghostID + [DOT] + Decimal(rec.commandMessageID)
            && rec.traceID == Ascii("trace.") + a.g.ghostID + [DOT] + Decimal(rec.commandMessageID)
  {
    hide Ascending, Listed, MessagesBelow, Identified, TerminalProblem, Numbered, ExecutionID, Trimmed;
    assert Logged(a.g, a.events[i], a.records[i]);
    assert RecordAt(a.g, a.events[i].commandID);
    RequestNumbers(a.g.ghostID, a.records[i].commandMessageID);
  }

  // ---------------------------------------------------------------- the envelope boundary

  /** A framed command is executed as if it had been handed over directly, and its event comes back framed under
      the same message id. */
  lemma ServeFramed(a: AdminState, codec: ArgsCodec, id: u64, c: Command, world: SeedWorld, now: u64)
    requires codec.Exact() && Sendable(codec, CommandEnvelope(c))
    ensures Encoded(codec, id, CommandEnvelope(c)).Ok?
    ensures var (a', r) := Execute(a, FromWire(c), world, now);
            Serve(a, codec, Encoded(codec, id, CommandEnvelope(c)).value, world, now)
            == (a', match r case Err(e) => Err(e) case Ok(o) => Encoded(codec, id, EventEnvelope(o.1)))
  {
    hide Read, Decoded, Execute, Encoded, Payload, Problem, HeaderBytes, Written;
    EnvelopeRoundTrip(codec, id, CommandEnvelope(c), []);
    var b := Encoded(codec, id, CommandEnvelope(c)).value;
    assert b + [] == b;
    NothingReadFromNothing();
    var r := Execute(a, FromWire(c), world, now).1;
    assert Serve(a, codec, b, world, now).1 == if r.Err? then Err(r.error) else Encoded(codec, id, EventEnvelope(r.value.1));
  }

  lemma NothingReadFromNothing()
    ensures Read([], DEFAULT_LIMITS).0.Err?
  {
  }
}
