/** internal/ghost: lifecycle, command intake, execution store and the command pipeline
    (command.go, execution.go, envelopes.go, server.go, pipeline.go). */
module Ghost {
  import opened Bytes
  import opened Errors
  import opened Session

  const SUCCESS: bytes := Ascii("success")
  const FAILURE: bytes := Ascii("error")
  const STATUS_OK: bytes := Ascii("ok")
  const STATUS_ERROR: bytes := Ascii("error")
  const EXEC: bytes := Ascii("exec.")
  const EVT: bytes := Ascii("evt.")
  const NEWLINE: bytes := [10]
  const UNKNOWN_SEED_EXIT_CODE: int := 127

  datatype CommandEnv = CommandEnv(messageID: u64, commandID: bytes, intentID: bytes, ghostID: bytes,
                                   seedSelector: bytes, operation: bytes, args: Args)
  datatype SeedExecute = SeedExecute(executionID: bytes, commandID: bytes, seedID: bytes, operation: bytes, args: Args)
  datatype SeedResult = SeedResult(executionID: bytes, seedID: bytes, status: bytes, stdout: bytes, stderr: bytes, exitCode: int)

  datatype ExecutionPhase = Accepted | Complete

  /** One record per accepted command. The terminal fields hold Go's zero values until completion. */
  datatype Execution = Execution(messageID: u64, commandID: bytes, executionID: bytes, intentID: bytes, ghostID: bytes,
                                 seedSelector: bytes, operation: bytes, args: Args, seedExecute: SeedExecute,
                                 seedResult: SeedResult, event: Event, outcome: bytes, phase: ExecutionPhase)

  datatype LifecyclePhase = Boot | Appeared | Seeded | Radiating

  /** What Seed.Execute returned: a result, and an error text if it failed. */
  datatype SeedOutput = SeedOutput(status: bytes, stdout: bytes, stderr: bytes, exitCode: int, error: Option<bytes>)

  /** Any behaviour of any seed on one call: a function of seed id, operation and args. */
  type SeedWorld = (bytes, bytes, Args) -> SeedOutput

  /** A registry maps the ids it resolves to the id in the seed's metadata. */
  type Registry = map<bytes, bytes>

  /** The execution store and lifecycle of one ghost. */
  datatype Store = Store(ghostID: bytes, phase: LifecyclePhase, registry: Option<Registry>,
                         byID: map<bytes, Execution>, byCommandID: map<bytes, Execution>, byMessageID: map<u64, bytes>)

  const BOOTED: Store := Store([], Boot, None, map[], map[], map[])

  // ---------------------------------------------------------------- envelopes

  function CommandEnvProblem(c: CommandEnv): Option<Error>
  {
    if c.messageID == 0 then Some(MissingField("message_id"))
    else if Blank(c.commandID) then Some(MissingField("command_id"))
    else if Blank(c.intentID) then Some(MissingField("intent_id"))
    else if Blank(c.ghostID) then Some(MissingField("ghost_id"))
    else if Blank(c.seedSelector) then Some(MissingField("seed_selector"))
    else if Blank(c.operation) then Some(MissingField("operation"))
    else None
  }

  function SeedExecuteProblem(e: SeedExecute): Option<Error>
  {
    if Blank(e.executionID) then Some(MissingField("execution_id"))
    else if Blank(e.commandID) then Some(MissingField("command_id"))
    else if Blank(e.seedID) then Some(MissingField("seed_id"))
    else if Blank(e.operation) then Some(MissingField("operation"))
    else None
  }

  function SeedResultProblem(r: SeedResult): Option<Error>
  {
    if Blank(r.executionID) then Some(MissingField("execution_id"))
    else if Blank(r.seedID) then Some(MissingField("seed_id"))
    else if Blank(r.status) then Some(MissingField("status"))
    else None
  }

  /** The ghost's own event validator, stricter than the wire's. */
  function TerminalProblem(e: Event): Option<Error>
  {
    if Blank(e.eventID) then Some(MissingField("event_id"))
    else if Blank(e.commandID) then Some(MissingField("command_id"))
    else if Blank(e.intentID) then Some(MissingField("intent_id"))
    else if Blank(e.ghostID) then Some(MissingField("ghost_id"))
    else if Blank(e.seedID) then Some(MissingField("seed_id"))
    else if e.outcome != SUCCESS && e.outcome != FAILURE then Some(MissingField("outcome"))
    else if e.timestampMS == 0 then Some(MissingField("timestamp_ms"))
    else None
  }

  function ExecutionID(commandID: bytes): bytes { EXEC + TrimSpace(commandID) }

  function EventID(commandID: bytes): bytes { EVT + TrimSpace(commandID) }

  // ---------------------------------------------------------------- the pipeline's values

  function NewExecution(c: CommandEnv): Execution
  {
    Execution(c.messageID, TrimSpace(c.commandID), ExecutionID(c.commandID), TrimSpace(c.intentID), TrimSpace(c.ghostID),
              TrimSpace(c.seedSelector), TrimSpace(c.operation), c.args, SeedExecute([], [], [], [], map[]),
              SeedResult([], [], [], [], [], 0), Event([], [], [], [], [], [], 0), [], Accepted)
  }

  function BuildSeedExecute(x: Execution): SeedExecute
  {
    SeedExecute(x.executionID, x.commandID, x.seedSelector, x.operation, x.args)
  }

  /** Canonical status, exit code and stderr of a seed's output. */
  function NormalizeSeedResult(e: SeedExecute, out: SeedOutput): SeedResult
  {
    var given := TrimSpace(out.status);
    var status := if given != [] then given else if out.error.Some? || out.exitCode != 0 then STATUS_ERROR else STATUS_OK;
    if out.error.None? then SeedResult(e.executionID, e.seedID, status, out.stdout, out.stderr, out.exitCode)
    else SeedResult(e.executionID, e.seedID, STATUS_ERROR, out.stdout,
                    if out.stderr == [] then out.error.value + NEWLINE else out.stderr,
                    if out.exitCode == 0 then 1 else out.exitCode)
  }

  function ErrorSeedResult(e: SeedExecute, reason: bytes, exitCode: int): SeedResult
  {
    SeedResult(e.executionID, e.seedID, STATUS_ERROR, [], reason + NEWLINE, exitCode)
  }

  predicate Resolves(registry: Option<Registry>, seedID: bytes) { registry.Some? && seedID in registry.value }

  /** Resolve the seed and run it, or build the error result of a failed resolution. */
  function RunSeed(registry: Option<Registry>, e: SeedExecute, world: SeedWorld): SeedResult
  {
    if registry.None? then ErrorSeedResult(e, Ascii("seed registry unavailable"), 1)
    else if e.seedID !in registry.value then ErrorSeedResult(e, Ascii("unknown seed: ") + e.seedID, UNKNOWN_SEED_EXIT_CODE)
    else
      var meta := TrimSpace(registry.value[e.seedID]);
      var exec := if meta == [] then e else e.(seedID := meta);
      NormalizeSeedResult(exec, world(e.seedID, e.operation, e.args))
  }

  /** The seed id a result carries: the resolved seed's own id when it has one, else the selector. */
  function SeedIDOf(registry: Option<Registry>, selector: bytes): bytes
  {
    if Resolves(registry, selector) && !Blank(registry.value[selector]) then TrimSpace(registry.value[selector]) else selector
  }

  function BuildEvent(x: Execution, r: SeedResult, now: u64): Event
  {
    Event(EventID(x.commandID), x.commandID, x.intentID, x.ghostID, r.seedID,
          if r.status == STATUS_OK && r.exitCode == 0 then SUCCESS else FAILURE, now)
  }

  // ---------------------------------------------------------------- store steps

  function AppearedAs(g: Store, ghostID: bytes): (Store, Option<Error>)
  {
    if Blank(ghostID) then (g, Some(InvalidGhostID))
    else if g.phase != Boot then (g, Some(LifecycleOrder))
    else (g.(ghostID := TrimSpace(ghostID), phase := Appeared), None)
  }

  function SeededWith(g: Store, registry: Option<Registry>): (Store, Option<Error>)
  {
    if registry.None? then (g, Some(SeedRegistryMissing))
    else if g.phase != Appeared then (g, Some(LifecycleOrder))
    else (g.(registry := registry, phase := Seeded), None)
  }

  function Radiated(g: Store): (Store, Option<Error>)
  {
    if g.phase != Seeded then (g, Some(LifecycleOrder)) else (g.(phase := Radiating), None)
  }

  function Rejection(g: Store, c: CommandEnv): Option<Error>
  {
    if CommandEnvProblem(c).Some? then CommandEnvProblem(c)
    else if g.phase != Radiating then Some(NotRadiating)
    else if TrimSpace(c.ghostID) != g.ghostID then Some(CommandTargetMismatch)
    else if TrimSpace(c.commandID) in g.byCommandID then Some(DuplicateCommandID)
    else if c.messageID in g.byMessageID then Some(DuplicateMessageID)
    else None
  }

  function Put(g: Store, x: Execution): Store
  {
    g.(byID := g.byID[x.executionID := x], byCommandID := g.byCommandID[x.commandID := x],
       byMessageID := g.byMessageID[x.messageID := x.commandID])
  }

  /** HandleCommand: a rejected command changes nothing. */
  function Handle(g: Store, c: CommandEnv): (Store, Result<Execution>)
  {
    match Rejection(g, c)
    case Some(e) => (g, Err(e))
    case None => (Put(g, NewExecution(c)), Ok(NewExecution(c)))
  }

  function Completed(x: Execution, e: SeedExecute, r: SeedResult, event: Event): Execution
  {
    x.(seedExecute := e, seedResult := r, event := event, outcome := event.outcome, phase := Complete)
  }

  /** completeExecution, on whatever record the store holds by then. */
  function Finish(g: Store, executionID: bytes, e: SeedExecute, r: SeedResult, event: Event): Store
  {
    if executionID !in g.byID then g else Put(g, Completed(g.byID[executionID], e, r, event))
  }

  /** What follows acceptance, up to the terminal event: every stage is validated. */
  function Outcome(registry: Option<Registry>, x: Execution, world: SeedWorld, now: u64): Result<(SeedExecute, SeedResult, Event)>
  {
    var e := BuildSeedExecute(x);
    if SeedExecuteProblem(e).Some? then Err(SeedExecuteProblem(e).value)
    else
      var r := RunSeed(registry, e, world);
      if SeedResultProblem(r).Some? then Err(SeedResultProblem(r).value)
      else
        var event := BuildEvent(x, r, now);
        if TerminalProblem(event).Some? then Err(TerminalProblem(event).value) else Ok((e, r, event))
  }

  /** HandleCommandAndExecute with nothing in between its steps. */
  function HandleAndExecute(g: Store, c: CommandEnv, world: SeedWorld, now: u64): (Store, Result<Event>)
  {
    var (g1, accepted) := Handle(g, c);
    if accepted.Err? then (g1, Err(accepted.error))
    else
      match Outcome(g1.registry, accepted.value, world, now)
      case Err(x) => (g1, Err(x))
      case Ok((e, r, event)) => (Finish(g1, accepted.value.executionID, e, r, event), Ok(event))
  }

  // ---------------------------------------------------------------- lookups

  function ByExecutionID(g: Store, executionID: bytes): Option<Execution>
  {
    var key := TrimSpace(executionID);
    if key in g.byID then Some(g.byID[key]) else None
  }

  function ByCommandID(g: Store, commandID: bytes): Option<Execution>
  {
    var key := TrimSpace(commandID);
    if key in g.byCommandID then Some(g.byCommandID[key]) else None
  }

  function ByMessageID(g: Store, messageID: u64): Option<Execution>
  {
    if messageID !in g.byMessageID then None
    else if g.byMessageID[messageID] in g.byCommandID then Some(g.byCommandID[g.byMessageID[messageID]]) else None
  }

  // ---------------------------------------------------------------- the code

  class Server {
    var ghostID: bytes
    var phase: LifecyclePhase
    var registry: Option<Registry>
    var executionByID: map<bytes, Execution>
    var executionByCmdID: map<bytes, Execution>
    var commandByMessageID: map<u64, bytes>

    ghost function State(): Store
      reads this
    {
      Store(ghostID, phase, registry, executionByID, executionByCmdID, commandByMessageID)
    }

    constructor ()
      ensures State() == BOOTED
    {
      ghostID, phase, registry := [], Boot, None;
      executionByID, executionByCmdID, commandByMessageID := map[], map[], map[];
    }

    method Appear(id: bytes) returns (problem: Option<Error>)
      modifies this
      ensures (State(), problem) == AppearedAs(old(State()), id)
    {
      var key := TrimSpace(id);
      if key == [] { return Some(InvalidGhostID); }
      if phase != Boot { return Some(LifecycleOrder); }
      ghostID, phase := key, Appeared;
      return None;
    }

    method Seed(reg: Option<Registry>) returns (problem: Option<Error>)
      modifies this
      ensures (State(), problem) == SeededWith(old(State()), reg)
    {
      if reg.None? { return Some(SeedRegistryMissing); }
      if phase != Appeared { return Some(LifecycleOrder); }
      registry, phase := reg, Seeded;
      return None;
    }

    method Radiate() returns (problem: Option<Error>)
      modifies this
      ensures (State(), problem) == Radiated(old(State()))
    {
      if phase != Seeded { return Some(LifecycleOrder); }
      phase := Radiating;
      return None;
    }

    method HandleCommand(c: CommandEnv) returns (r: Result<Execution>)
      modifies this
      ensures (State(), r) == Handle(old(State()), c)
    {
      var problem := CommandEnvProblem(c);
      if problem.Some? { return Err(problem.value); }
      if phase != Radiating { return Err(NotRadiating); }
      if TrimSpace(c.ghostID) != ghostID { return Err(CommandTargetMismatch); }
      if TrimSpace(c.commandID) in executionByCmdID { return Err(DuplicateCommandID); }
      if c.messageID in commandByMessageID { return Err(DuplicateMessageID); }
      var state := NewExecution(c);
      executionByID := executionByID[state.executionID := state];
      executionByCmdID := executionByCmdID[state.commandID := state];
      commandByMessageID := commandByMessageID[state.messageID := state.commandID];
      return Ok(state);
    }

    method CompleteExecution(executionID: bytes, e: SeedExecute, r: SeedResult, event: Event)
      modifies this
      ensures State() == Finish(old(State()), executionID, e, r, event)
    {
      if executionID !in executionByID { return; }
      var state := executionByID[executionID];
      state := state.(seedExecute := e, seedResult := r, event := event, outcome := event.outcome, phase := Complete);
      executionByID := executionByID[state.executionID := state];
      executionByCmdID := executionByCmdID[state.commandID := state];
      commandByMessageID := commandByMessageID[state.messageID := state.commandID];
    }

    method HandleCommandAndExecute(c: CommandEnv, world: SeedWorld, now: u64) returns (result: Result<Event>)
      modifies this
      ensures (State(), result) == HandleAndExecute(old(State()), c, world, now)
    {
      hide Handle, Finish, RunSeed, BuildEvent;
      var accepted := HandleCommand(c);
      if accepted.Err? { return Err(accepted.error); }
      var state := accepted.value;
      var seedExec := BuildSeedExecute(state);
      var problem := SeedExecuteProblem(seedExec);
      if problem.Some? { return Err(problem.value); }
      var seedResult := RunSeed(registry, seedExec, world);
      problem := SeedResultProblem(seedResult);
      if problem.Some? { return Err(problem.value); }
      var event := BuildEvent(state, seedResult, now);
      problem := TerminalProblem(event);
      if problem.Some? { return Err(problem.value); }
      CompleteExecution(state.executionID, seedExec, seedResult, event);
      return Ok(event);
    }

    method GetExecution(executionID: bytes) returns (r: Option<Execution>)
      ensures r == ByExecutionID(State(), executionID)
    {
      var key := TrimSpace(executionID);
      return if key in executionByID then Some(executionByID[key]) else None;
    }

    method ExecutionByCommandID(commandID: bytes) returns (r: Option<Execution>)
      ensures r == ByCommandID(State(), commandID)
    {
      var key := TrimSpace(commandID);
      return if key in executionByCmdID then Some(executionByCmdID[key]) else None;
    }

    method ExecutionByMessageID(messageID: u64) returns (r: Option<Execution>)
      ensures r == ByMessageID(State(), messageID)
    {
      if messageID !in commandByMessageID { return None; }
      var commandID := commandByMessageID[messageID];
      return if commandID in executionByCmdID then Some(executionByCmdID[commandID]) else None;
    }
  }

  // ---------------------------------------------------------------- ids

  lemma TrimmedResult(s: bytes)
    ensures SpaceAtBack(TrimSpace(s)) == 0
  {
  }

  lemma ExecPrintable()
    ensures |EXEC| == 5 && Printable(EXEC)
  {
  }

  lemma EvtPrintable()
    ensures |EVT| == 4 && Printable(EVT)
  {
  }

  lemma DerivedIDs(commandID: bytes)
    ensures Trimmed(ExecutionID(commandID)) && !Blank(ExecutionID(commandID))
    ensures Trimmed(EventID(commandID)) && !Blank(EventID(commandID))
  {
    hide TrimSpace, Trimmed, Printable;
    ExecPrintable();
    EvtPrintable();
    TrimmedResult(commandID);
    PrefixTrimmed(EXEC, TrimSpace(commandID));
    PrefixTrimmed(EVT, TrimSpace(commandID));
  }

  lemma ExecutionIDInjective(a: bytes, b: bytes)
    requires Trimmed(a) && Trimmed(b) && ExecutionID(a) == ExecutionID(b)
    ensures a == b
  {
    assert ExecutionID(a)[|EXEC|..] == a && ExecutionID(b)[|EXEC|..] == b;
  }

  /** Event ids are injective on trimmed command ids. */
  lemma EventIDInjective(a: bytes, b: bytes)
    requires Trimmed(a) && Trimmed(b) && EventID(a) == EventID(b)
    ensures a == b
  {
    assert EventID(a)[4..] == a && EventID(b)[4..] == b;
  }

  // ---------------------------------------------------------------- index agreement

  /** The record of command `c` is well named and the other two maps lead to it. */
  predicate RecordAt(g: Store, c: bytes)
    requires c in g.byCommandID
  {
    var x := g.byCommandID[c];
    && x.commandID == c && Trimmed(c) && x.executionID == ExecutionID(c)
    && x.executionID in g.byID && g.byID[x.executionID] == x
    && x.messageID in g.byMessageID && g.byMessageID[x.messageID] == c
  }

  predicate ExecutionAt(g: Store, id: bytes)
    requires id in g.byID
  {
    var x := g.byID[id];
    x.executionID == id && x.commandID in g.byCommandID && g.byCommandID[x.commandID] == x
  }

  predicate MessageAt(g: Store, m: u64)
    requires m in g.byMessageID
  {
    g.byMessageID[m] in g.byCommandID && g.byCommandID[g.byMessageID[m]].messageID == m
  }

  /** The three maps hold one record per accepted command. */
  predicate Agrees(g: Store)
  {
    && (forall c :: c in g.byCommandID ==> RecordAt(g, c))
    && (forall id :: id in g.byID ==> ExecutionAt(g, id))
    && (forall m :: m in g.byMessageID ==> MessageAt(g, m))
  }

  /** A record that is new under both of its ids, or that agrees with the one it replaces. */
  predicate Storable(g: Store, x: Execution)
  {
    && Trimmed(x.commandID) && x.executionID == ExecutionID(x.commandID)
    && if x.commandID in g.byCommandID then g.byCommandID[x.commandID].messageID == x.messageID
       else x.messageID !in g.byMessageID
  }

  lemma PutSelf(g: Store, x: Execution)
    requires Storable(g, x)
    ensures var h := Put(g, x); RecordAt(h, x.commandID) && ExecutionAt(h, x.executionID) && MessageAt(h, x.messageID)
  {
    hide ExecutionID, Trimmed;
  }

  lemma PutRecord(g: Store, x: Execution, c: bytes)
    requires Agrees(g) && Storable(g, x) && c in g.byCommandID && c != x.commandID
    ensures RecordAt(Put(g, x), c)
  {
    hide ExecutionID, Trimmed;
    assert RecordAt(g, c) && (x.commandID in g.byCommandID ==> RecordAt(g, x.commandID));
    if ExecutionID(c) == x.executionID { ExecutionIDInjective(c, x.commandID); }
  }

  lemma PutExecution(g: Store, x: Execution, id: bytes)
    requires Agrees(g) && Storable(g, x) && id in g.byID && id != x.executionID
    ensures ExecutionAt(Put(g, x), id)
  {
    hide ExecutionID, Trimmed;
    assert ExecutionAt(g, id) && RecordAt(g, g.byID[id].commandID);
  }

  lemma PutMessage(g: Store, x: Execution, m: u64)
    requires Agrees(g) && Storable(g, x) && m in g.byMessageID && m != x.messageID
    ensures MessageAt(Put(g, x), m)
  {
    hide ExecutionID, Trimmed;
    assert MessageAt(g, m);
  }

  /** Storing such a record keeps the maps in agreement. */
  lemma PutAgrees(g: Store, x: Execution)
    requires Agrees(g) && Storable(g, x)
    ensures Agrees(Put(g, x))
  {
    hide RecordAt, ExecutionAt, MessageAt, Storable;
    var h := Put(g, x);
    PutSelf(g, x);
    forall c | c in h.byCommandID ensures RecordAt(h, c) { if c != x.commandID { PutRecord(g, x, c); } }
    forall id | id in h.byID ensures ExecutionAt(h, id) { if id != x.executionID { PutExecution(g, x, id); } }
    forall m | m in h.byMessageID ensures MessageAt(h, m) { if m != x.messageID { PutMessage(g, x, m); } }
  }

  /** Whatever record a lookup finds, the other two find it too, and distinct commands have distinct messages. */
  lemma LookupsAgree(g: Store, x: Execution)
    requires Agrees(g)
    requires ByExecutionID(g, x.executionID) == Some(x) || ByCommandID(g, x.commandID) == Some(x)
          || ByMessageID(g, x.messageID) == Some(x)
    ensures ByExecutionID(g, x.executionID) == Some(x) && ByCommandID(g, x.commandID) == Some(x)
         && ByMessageID(g, x.messageID) == Some(x)
    ensures forall y :: y in g.byCommandID.Values && y.messageID == x.messageID ==> y == x
  {
    hide TrimLeft, TrimRight;
    DerivedIDs(x.commandID);
    var c :| c in g.byCommandID && g.byCommandID[c] == x;
    forall y | y in g.byCommandID.Values && y.messageID == x.messageID ensures y == x {
      var k :| k in g.byCommandID && g.byCommandID[k] == y;
    }
  }

  /** The fields fixed at acceptance. */
  predicate SameIdentity(x: Execution, y: Execution)
  {
    && x.messageID == y.messageID && x.commandID == y.commandID && x.executionID == y.executionID
    && x.intentID == y.intentID && x.ghostID == y.ghostID && x.seedSelector == y.seedSelector
    && x.operation == y.operation && x.args == y.args
  }

  /** Records stay, keep their identity, and only go from accepted to complete. */
  predicate Grows(g: Store, h: Store)
  {
    forall c :: c in g.byCommandID ==>
      && c in h.byCommandID && SameIdentity(g.byCommandID[c], h.byCommandID[c])
      && (g.byCommandID[c].phase == Complete ==> h.byCommandID[c].phase == Complete)
  }

  lemma GrowsReflexive(g: Store)
    ensures Grows(g, g)
  {
  }

  lemma GrowsTransitive(g: Store, h: Store, k: Store)
    requires Grows(g, h) && Grows(h, k)
    ensures Grows(g, k)
  {
  }

  /** A rejected command changes nothing; an accepted one adds exactly its own record. */
  lemma HandleAgrees(g: Store, c: CommandEnv)
    requires Agrees(g)
    ensures Agrees(Handle(g, c).0) && Grows(g, Handle(g, c).0)
    ensures Handle(g, c).1.Err? ==> Handle(g, c).0 == g
    ensures Handle(g, c).1.Ok? ==>
              var x := Handle(g, c).1.value;
              && x.commandID !in g.byCommandID && x.commandID in Handle(g, c).0.byCommandID
              && Handle(g, c).0.byCommandID == g.byCommandID[x.commandID := x] && x.phase == Accepted
  {
    hide TrimSpace, CommandEnvProblem, ExecutionID, Agrees, Trimmed;
    if Handle(g, c).1.Ok? {
      TrimTwice(c.commandID);
      PutAgrees(g, NewExecution(c));
    }
  }

  lemma TrimTwice(s: bytes)
    ensures Trimmed(TrimSpace(s)) && ExecutionID(TrimSpace(s)) == ExecutionID(s) && EventID(TrimSpace(s)) == EventID(s)
  {
  }

  /** Completion replaces one record, and only its terminal fields. */
  lemma FinishAgrees(g: Store, executionID: bytes, e: SeedExecute, r: SeedResult, event: Event)
    requires Agrees(g)
    ensures var h := Finish(g, executionID, e, r, event);
            && Agrees(h) && Grows(g, h) && h.byCommandID.Keys == g.byCommandID.Keys && h.byMessageID == g.byMessageID
            && (executionID in g.byID ==>
                  h.byCommandID == g.byCommandID[g.byID[executionID].commandID := Completed(g.byID[executionID], e, r, event)])
  {
    hide ExecutionID, Trimmed, Agrees;
    if executionID in g.byID {
      var x := g.byID[executionID];
      AgreesAt(g, executionID);
      PutAgrees(g, Completed(x, e, r, event));
      assert g.byMessageID[x.messageID := x.commandID] == g.byMessageID;
    }
  }

  lemma AgreesAt(g: Store, executionID: bytes)
    requires Agrees(g) && executionID in g.byID
    ensures var x := g.byID[executionID];
            && x.executionID == executionID && x.commandID in g.byCommandID && g.byCommandID[x.commandID] == x
            && x.messageID in g.byMessageID && g.byMessageID[x.messageID] == x.commandID && Storable(g, x)
  {
    hide ExecutionID, Trimmed;
    assert ExecutionAt(g, executionID) && RecordAt(g, g.byID[executionID].commandID);
  }

  // ---------------------------------------------------------------- closure after acceptance

  lemma NormalizedStatus(e: SeedExecute, out: SeedOutput)
    requires !Blank(e.executionID) && !Blank(e.seedID)
    ensures SeedResultProblem(NormalizeSeedResult(e, out)) == None
    ensures NormalizeSeedResult(e, out).seedID == e.seedID
    ensures out.error.Some? ==> NormalizeSeedResult(e, out).status == STATUS_ERROR
  {
    LiteralsNotBlank();
  }

  lemma LiteralsNotBlank()
    ensures !Blank(STATUS_OK) && !Blank(STATUS_ERROR) && !Blank(SUCCESS) && !Blank(FAILURE)
    ensures STATUS_OK != STATUS_ERROR && SUCCESS != FAILURE
  {
    assert STATUS_OK + [] == STATUS_OK && STATUS_ERROR + [] == STATUS_ERROR && SUCCESS + [] == SUCCESS;
    PrefixTrimmed(STATUS_OK, []);
    PrefixTrimmed(STATUS_ERROR, []);
    PrefixTrimmed(SUCCESS, []);
  }

  lemma RunSeedValid(registry: Option<Registry>, e: SeedExecute, world: SeedWorld)
    requires SeedExecuteProblem(e) == None
    ensures SeedResultProblem(RunSeed(registry, e, world)) == None
    ensures RunSeed(registry, e, world).seedID == SeedIDOf(registry, e.seedID)
    ensures var r := RunSeed(registry, e, world);
            r.status == STATUS_OK && r.exitCode == 0 <==>
              Resolves(registry, e.seedID)
              && var out := world(e.seedID, e.operation, e.args);
                 out.error.None? && out.exitCode == 0 && (Blank(out.status) || TrimSpace(out.status) == STATUS_OK)
  {
    hide TrimLeft, TrimRight;
    LiteralsNotBlank();
    if Resolves(registry, e.seedID) {
      var meta := TrimSpace(registry.value[e.seedID]);
      NormalizedStatus(if meta == [] then e else e.(seedID := meta), world(e.seedID, e.operation, e.args));
    }
  }

  /** A failure shows. An unresolved seed gives exit code 1 without a registry and 127 with one, an erring seed never
      exit code 0 or an empty stderr; what a seed printed is kept. */
  lemma FailuresShow(registry: Option<Registry>, e: SeedExecute, world: SeedWorld)
    ensures var (r, out) := (RunSeed(registry, e, world), world(e.seedID, e.operation, e.args));
            && r.executionID == e.executionID
            && (registry.None? ==> r.stderr == Ascii("seed registry unavailable") + [10])
            && (registry.Some? && !Resolves(registry, e.seedID) ==> r.stderr == Ascii("unknown seed: ") + e.seedID + [10])
            && (Resolves(registry, e.seedID) && out.error.Some? && out.stderr == [] ==> r.stderr == out.error.value + [10])
            && (Resolves(registry, e.seedID) && out.error.None? ==>
                  && r.stderr == out.stderr && r.exitCode == out.exitCode
                  && r.status == if !Blank(out.status) then TrimSpace(out.status)
                                 else if out.exitCode == 0 then Ascii("ok") else Ascii("error"))
            && (registry.None? ==> r.status == STATUS_ERROR && r.exitCode == 1 && r.stderr != [])
            && (registry.Some? && !Resolves(registry, e.seedID) ==>
                  r.status == STATUS_ERROR && r.exitCode == UNKNOWN_SEED_EXIT_CODE && r.stderr != [])
            && (Resolves(registry, e.seedID) ==> r.stdout == out.stdout && (out.stderr != [] ==> r.stderr == out.stderr))
            && (Resolves(registry, e.seedID) && out.error.Some? ==>
                  r.status == STATUS_ERROR && r.exitCode != 0 && r.stderr != [])
            && (Resolves(registry, e.seedID) && out.exitCode != 0 ==> r.exitCode == out.exitCode)
  {
    hide TrimSpace;
    assert |NEWLINE| == 1;
  }

  /** What acceptance has checked about the ids and texts of a record. */
  lemma AcceptedIsValid(g: Store, c: CommandEnv)
    requires Rejection(g, c) == None
    ensures var x := NewExecution(c);
            && SeedExecuteProblem(BuildSeedExecute(x)) == None
            && !Blank(x.commandID) && !Blank(x.intentID) && !Blank(x.ghostID) && x.ghostID == g.ghostID
            && !Blank(EventID(x.commandID))
  {
    hide TrimLeft, TrimRight, ExecutionID, EventID;
    var x := NewExecution(c);
    DerivedIDs(c.commandID);
    DerivedIDs(x.commandID);
  }

  lemma BuiltEventValid(x: Execution, r: SeedResult, now: u64)
    requires !Blank(x.commandID) && !Blank(x.intentID) && !Blank(x.ghostID) && !Blank(EventID(x.commandID))
    requires SeedResultProblem(r) == None
    ensures TerminalProblem(BuildEvent(x, r, now)) == None <==> now > 0
    ensures BuildEvent(x, r, now).outcome == SUCCESS <==> r.status == STATUS_OK && r.exitCode == 0
  {
    hide TrimSpace, EventID;
    LiteralsNotBlank();
  }

  /** An event carries the ids of its record. */
  predicate EventOfRecord(g: Store, x: Execution, e: Event)
  {
    && e.eventID == EventID(x.commandID) && e.commandID == x.commandID && e.intentID == x.intentID
    && e.ghostID == x.ghostID && e.seedID == SeedIDOf(g.registry, x.seedSelector)
  }

  /** No validation after acceptance can fail exactly when the clock is positive; the event then says success
      exactly when the seed resolved, returned no error, and its normalised status is ok with exit code 0. */
  lemma NothingFailsAfterAcceptance(g: Store, c: CommandEnv, world: SeedWorld, now: u64)
    requires Rejection(g, c) == None
    ensures Outcome(g.registry, NewExecution(c), world, now).Ok? <==> now > 0
    ensures var x := NewExecution(c); var o := Outcome(g.registry, x, world, now);
            now > 0 ==>
            && TerminalProblem(o.value.2) == None && EventOfRecord(g, x, o.value.2) && x.ghostID == g.ghostID
            && o.value.2.timestampMS == now
            && (o.value.2.outcome == SUCCESS <==>
                  Resolves(g.registry, x.seedSelector)
                  && var out := world(x.seedSelector, x.operation, x.args);
                     out.error.None? && out.exitCode == 0 && (Blank(out.status) || TrimSpace(out.status) == STATUS_OK))
  {
    hide TrimSpace, Blank, RunSeed, SeedIDOf, ExecutionID, EventID, Rejection, SeedExecuteProblem, SeedResultProblem,
         TerminalProblem, Resolves;
    var x := NewExecution(c);
    AcceptedIsValid(g, c);
    RunSeedValid(g.registry, BuildSeedExecute(x), world);
    BuiltEventValid(x, RunSeed(g.registry, BuildSeedExecute(x), world), now);
  }

  /** Every accepted command ends complete, with a valid event that is the one returned. */
  lemma AcceptedEndsComplete(g: Store, c: CommandEnv, world: SeedWorld, now: u64)
    requires Agrees(g) && now > 0
    ensures var (h, r) := HandleAndExecute(g, c, world, now);
            && Agrees(h) && Grows(g, h)
            && (r.Err? <==> Rejection(g, c).Some?) && (r.Err? ==> h == g)
            && (r.Ok? ==>
                  var id := TrimSpace(c.commandID);
                  && id in h.byCommandID && id !in g.byCommandID && h.byCommandID.Keys == g.byCommandID.Keys + {id}
                  && (forall k :: k in g.byCommandID ==> h.byCommandID[k] == g.byCommandID[k])
                  && var x := h.byCommandID[id];
                     && SameIdentity(x, NewExecution(c)) && x.phase == Complete
                     && x.event == r.value && x.outcome == r.value.outcome && TerminalProblem(r.value) == None
                     && EventOfRecord(g, x, r.value) && x.commandID == id && x.ghostID == g.ghostID
                     && r.value.timestampMS == now)
  {
    hide Rejection, Outcome, TrimSpace, Agrees, Grows, ExecutionID, EventID, TerminalProblem, SeedIDOf;
    HandleAgrees(g, c);
    var (g1, accepted) := Handle(g, c);
    if accepted.Ok? {
      var x := accepted.value;
      NothingFailsAfterAcceptance(g, c, world, now);
      var (e, r, event) := Outcome(g.registry, x, world, now).value;
      FinishAgrees(g1, x.executionID, e, r, event);
      AcceptedIsStored(g, c);
      GrowsTransitive(g, g1, Finish(g1, x.executionID, e, r, event));
    }
  }

  lemma AcceptedIsStored(g: Store, c: CommandEnv)
    requires Handle(g, c).1.Ok?
    ensures var (h, r) := Handle(g, c); r.value.executionID in h.byID && h.byID[r.value.executionID] == r.value
    ensures Handle(g, c).0.registry == g.registry
  {
  }

  /** The seed was not found or returned an error. */
  predicate Failing(registry: Option<Registry>, x: Execution, world: SeedWorld)
  {
    !Resolves(registry, x.seedSelector) || world(x.seedSelector, x.operation, x.args).error.Some?
  }

  /** What an accepted command leaves behind: the record says what the seed did. When the seed was not found or erred the
      record has the outcome error, an exit code other than 0 and a message on stderr; a seed that ran has its output
      there unchanged. */
  lemma FailureIsStored(g: Store, c: CommandEnv, world: SeedWorld, now: u64)
    requires Agrees(g) && now > 0 && Rejection(g, c) == None
    ensures var h := HandleAndExecute(g, c, world, now).0; var id := TrimSpace(c.commandID);
            && id in h.byCommandID
            && var x := h.byCommandID[id];
               && (Failing(g.registry, NewExecution(c), world) ==>
                     x.outcome == FAILURE && x.seedResult.status == STATUS_ERROR && x.seedResult.exitCode != 0
                     && x.seedResult.stderr != [])
               && (Resolves(g.registry, x.seedSelector) ==>
                     var out := world(x.seedSelector, x.operation, x.args);
                     && x.seedResult.stdout == out.stdout && (out.stderr != [] ==> x.seedResult.stderr == out.stderr)
                     && (out.exitCode != 0 ==> x.seedResult.exitCode == out.exitCode))
               && x.seedExecute == SeedExecute(x.executionID, x.commandID, x.seedSelector, x.operation, x.args)
  {
    hide Rejection, TrimSpace, Agrees, Grows, ExecutionID, EventID, TerminalProblem, SeedIDOf, RunSeed, Handle, Resolves;
    HandleAgrees(g, c);
    var (g1, accepted) := Handle(g, c);
    AcceptedIsHandled(g, c);
    var x := accepted.value;
    NothingFailsAfterAcceptance(g, c, world, now);
    AcceptedIsStored(g, c);
    var (e, r, event) := Outcome(g.registry, x, world, now).value;
    FinishAgrees(g1, x.executionID, e, r, event);
    FailuresShow(g.registry, e, world);
    StatusesDiffer();
  }

  lemma StatusesDiffer()
    ensures |STATUS_OK| == 2 && |STATUS_ERROR| == 5 && |SUCCESS| == 7 && |FAILURE| == 5
  {
  }

  lemma AcceptedIsHandled(g: Store, c: CommandEnv)
    requires Rejection(g, c) == None
    ensures Handle(g, c).1 == Ok(NewExecution(c))
  {
    hide Rejection, ExecutionID, TrimSpace;
  }

  // ---------------------------------------------------------------- refusals and lifecycle

  /** Why a command is refused. */
  lemma RefusalsMean(g: Store, c: CommandEnv)
    requires Rejection(g, c) != None && CommandEnvProblem(c) == None
    ensures match Rejection(g, c).value
            case NotRadiating => g.phase != Radiating
            case CommandTargetMismatch => TrimSpace(c.ghostID) != g.ghostID
            case DuplicateCommandID => ByCommandID(g, c.commandID) != None
            case DuplicateMessageID => c.messageID in g.byMessageID
            case _ => false
  {
    hide CommandEnvProblem;
  }

  /** And when it is accepted. */
  lemma AcceptsIff(g: Store, c: CommandEnv)
    ensures Handle(g, c).1.Ok? <==>
              && CommandEnvProblem(c) == None && g.phase == Radiating && TrimSpace(c.ghostID) == g.ghostID
              && ByCommandID(g, c.commandID) == None && c.messageID !in g.byMessageID
  {
    hide CommandEnvProblem, NewExecution;
  }

  function Rank(p: LifecyclePhase): nat { if p == Boot then 0 else if p == Appeared then 1 else if p == Seeded then 2 else 3 }

  /** Lifecycle calls succeed one after the other, each in the phase before its own, and a refused one changes nothing;
      the id given at the first stays. */
  lemma LifecycleSteps(g: Store, id: bytes, registry: Option<Registry>)
    ensures var (g1, p) := AppearedAs(g, id);
            && (p == None <==> Rank(g.phase) == 0 && !Blank(id))
            && (p == None ==> g1 == g.(ghostID := TrimSpace(id), phase := g1.phase) && Rank(g1.phase) == 1)
            && (p != None ==> g1 == g && p == Some(if Blank(id) then InvalidGhostID else LifecycleOrder))
    ensures var (g1, p) := SeededWith(g, registry);
            && (p == None <==> Rank(g.phase) == 1 && registry != None)
            && (p == None ==> g1 == g.(registry := registry, phase := g1.phase) && Rank(g1.phase) == 2)
            && (p != None ==> g1 == g && p == Some(if registry == None then SeedRegistryMissing else LifecycleOrder))
    ensures var (g1, p) := Radiated(g);
            && (p == None <==> Rank(g.phase) == 2)
            && (p == None ==> g1 == g.(phase := g1.phase) && Rank(g1.phase) == 3)
            && (p != None ==> g1 == g && p == Some(LifecycleOrder))
  {
    hide TrimSpace;
  }

  datatype LifecycleCall = AppearCall(ghostID: bytes) | SeedCall(registry: Option<Registry>) | RadiateCall

  function Called(g: Store, call: LifecycleCall): (Store, Option<Error>)
  {
    match call
    case AppearCall(id) => AppearedAs(g, id)
    case SeedCall(registry) => SeededWith(g, registry)
    case RadiateCall => Radiated(g)
  }

  function CalledAll(g: Store, calls: seq<LifecycleCall>): Store
    decreases |calls|
  {
    if calls == [] then g else CalledAll(Called(g, calls[0]).0, calls[1..])
  }

  /** How many of the calls succeed. */
  function Successes(g: Store, calls: seq<LifecycleCall>): nat
    decreases |calls|
  {
    if calls == [] then 0
    else (if Called(g, calls[0]).1 == None then 1 else 0) + Successes(Called(g, calls[0]).0, calls[1..])
  }

  /** Whatever lifecycle calls come in whatever order: the phase has moved on by one for each that succeeded, so at most
      three do; an id once given stays, and so does a registry once the ghost is seeded. */
  lemma {:induction false} LifecycleInOrder(g: Store, calls: seq<LifecycleCall>)
    ensures var h := CalledAll(g, calls);
            && Rank(h.phase) == Rank(g.phase) + Successes(g, calls) <= 3
            && (Rank(g.phase) >= 1 ==> h.ghostID == g.ghostID) && (Rank(g.phase) >= 2 ==> h.registry == g.registry)
            && h.byID == g.byID && h.byCommandID == g.byCommandID && h.byMessageID == g.byMessageID
    decreases |calls|
  {
    hide TrimSpace, AppearedAs, SeededWith, Radiated;
    if calls != [] {
      LifecycleSteps(g, if calls[0].AppearCall? then calls[0].ghostID else [],
                     if calls[0].SeedCall? then calls[0].registry else None);
      LifecycleInOrder(Called(g, calls[0]).0, calls[1..]);
    }
  }
}
