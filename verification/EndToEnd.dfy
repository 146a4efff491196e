/** The whole control loop: Mirage's reconcile passes over the admin executor, the wire, and the ghosts that run
    the commands. */
module EndToEnd {
  import opened Bytes
  import opened Errors
  import opened Session
  import opened Framing
  import opened Planning
  import opened Orchestration
  import opened Accounting
  import Progress
  import opened Sizes
  import Tlv
  import Ghost
  import Admin
  import Client

  /** The orchestrator's stores and, by ghost id, the services its executors lead to. */
  datatype World = World(s: Stores, ghosts: map<bytes, Admin.AdminState>)

  /** What a pass meets outside the stores: how seeds behave, the ghost's clock and Mirage's clock. */
  datatype Moment = Moment(seeds: Ghost.SeedWorld, at: u64, now: u64)

  /** The executors bound to the ghosts' admin boundaries. */
  function Executors(w: World, codec: ArgsCodec, m: Moment): Executor
  {
    (c: Command) =>
      if c.ghostID !in w.ghosts then Err(Transport)
      else Client.ExecutorAnswer(codec, c, Client.Over(codec, w.ghosts[c.ghostID], m.seeds, m.at), m.now)
  }

  /** What handing a command to its executor does to the ghosts. */
  function GhostsAfter(w: World, codec: ArgsCodec, c: Command, m: Moment): map<bytes, Admin.AdminState>
  {
    if c.ghostID !in w.ghosts then w.ghosts
    else
      match Encoded(codec, 1, CommandEnvelope(Client.CommandOf(Client.RequestOf(c))))
      case Err(_) => w.ghosts
      case Ok(frame) => w.ghosts[c.ghostID := Admin.Serve(w.ghosts[c.ghostID], codec, frame, m.seeds, m.at).0]
  }

  /** One ReconcileOnce. */
  function Pass(w: World, codec: ArgsCodec, intentID: bytes, m: Moment): (World, Result<Report>)
  {
    var (s', r) := Reconcile(w.s, codec, intentID, Executors(w, codec, m), m.now);
    var begun := Begin(w.s, TrimSpace(intentID), m.now).1;
    (World(s', if begun.Dispatch? && CommandProblemOnWire(codec, begun.next.command).None?
               then GhostsAfter(w, codec, begun.next.command, m) else w.ghosts), r)
  }

  function Passes(w: World, codec: ArgsCodec, intentID: bytes, ms: seq<Moment>): World
    decreases |ms|
  {
    if ms == [] then w else Passes(Pass(w, codec, intentID, ms[0]).0, codec, intentID, ms[1..])
  }

  // ---------------------------------------------------------------- what a plan needs to go through

  /** The events a command can lead to: whatever the outcome and the time. */
  predicate PossibleEvent(c: Command, ghostID: bytes, seedID: bytes, e: Event)
  {
    && e.eventID == Ghost.EventID(c.commandID) && e.commandID == c.commandID && e.intentID == c.intentID
    && e.ghostID == ghostID && e.seedID == seedID && e.outcome in {Ghost.SUCCESS, Ghost.FAILURE}
  }

  /** An event, and the report on it after `before` others, are small enough for one frame. */
  predicate FramesFit(d: DesiredIntent, e: Event, before: nat, now: u64)
  {
    && |Tlv.FieldsBytes(EventFields(e))| <= MAX_PAYLOAD
    && ReportFits(d, before, e, now)
  }

  /** Whatever a command leads to fits. */
  ghost predicate Travels(d: DesiredIntent, c: Command, ghostID: bytes, seedID: bytes)
  {
    forall e: Event, before: nat, now: u64 ::
      PossibleEvent(c, ghostID, seedID, e) && before < |d.commands| ==> FramesFit(d, e, before, now)
  }

  /** Step `c` of a plan: its ghost is bound, radiating, reachable, and everything it takes fits in a frame. */
  ghost predicate Served(w: World, codec: ArgsCodec, d: DesiredIntent, c: Command)
  {
    && c.ghostID in w.s.executors && c.ghostID in w.ghosts
    && var g := w.ghosts[c.ghostID].g;
       && g.phase == Ghost.Radiating && g.ghostID == c.ghostID
       && Sendable(codec, CommandEnvelope(c))
       && Travels(d, c, g.ghostID, Ghost.SeedIDOf(g.registry, c.seedSelector))
  }

  /** The ghost has run this very command, with its seed, operation and args, and stored the event given. */
  predicate RanAs(a: Admin.AdminState, c: Command, e: Event)
  {
    && c.commandID in a.g.byCommandID
    && var x := a.g.byCommandID[c.commandID];
       && x.phase == Ghost.Complete && x.event == e && SameCommand(x, c)
  }

  predicate SameCommand(x: Ghost.Execution, c: Command)
  {
    && x.commandID == c.commandID && x.intentID == c.intentID && x.ghostID == c.ghostID
    && x.seedSelector == c.seedSelector && x.operation == c.operation && x.args == c.args
  }

  /** An observed command was run by its ghost with that very event; any other is unknown to its ghost and its
      seed lock is free. */
  predicate Progressed(w: World, key: bytes, p: PlannedCommand)
    requires p.command.ghostID in w.ghosts
  {
    var c, seen := p.command, ObservedOf(w.s, key).byCommandID;
    if c.commandID in seen then RanAs(w.ghosts[c.ghostID], c, seen[c.commandID])
    else c.commandID !in w.ghosts[c.ghostID].g.byCommandID && (p.blocking ==> p.seedKey !in w.s.seedLocks)
  }

  predicate GhostsInOrder(ghosts: map<bytes, Admin.AdminState>, spare: nat)
  {
    forall g :: g in ghosts ==> Admin.InOrder(ghosts[g]) && ghosts[g].issued + spare <= MAX_U64
  }

  function Pending(w: World, key: bytes): nat
    requires key in w.s.desired
  {
    PendingCount(w.s.desired[key].commands, ObservedOf(w.s, key).byCommandID)
  }

  ghost predicate StepReady(w: World, codec: ArgsCodec, key: bytes, d: DesiredIntent, p: PlannedCommand)
  {
    Served(w, codec, d, p.command) && Progressed(w, key, p)
  }

  ghost predicate Ready(w: World, codec: ArgsCodec, key: bytes)
  {
    && Accounted(w.s) && key in w.s.desired && Trimmed(key)
    && GhostsInOrder(w.ghosts, Pending(w, key))
    && var d := w.s.desired[key];
       forall i :: 0 <= i < |d.commands| ==> StepReady(w, codec, key, d, d.commands[i])
  }

  // ---------------------------------------------------------------- Mirage's half of a pass

  /** `p` is the next pending command; a pass will hand it to a ghost that is bound, reachable and radiating. */
  predicate Dispatchable(w: World, codec: ArgsCodec, key: bytes, p: PlannedCommand)
  {
    && Accounted(w.s) && key in w.s.desired && Trimmed(key)
    && NextPending(w.s.desired[key].commands, ObservedOf(w.s, key).byCommandID) == Some(p)
    && (p.blocking ==> p.seedKey !in w.s.seedLocks)
    && var c := p.command;
       && Sendable(codec, CommandEnvelope(c))
       && c.ghostID in w.s.executors && c.ghostID in w.ghosts
       && w.ghosts[c.ghostID].g.phase == Ghost.Radiating && w.ghosts[c.ghostID].g.ghostID == c.ghostID
  }

  /** And whatever the command leads to fits in a frame. */
  ghost predicate Poised(w: World, codec: ArgsCodec, key: bytes, p: PlannedCommand)
  {
    && Dispatchable(w, codec, key, p)
    && var g := w.ghosts[p.command.ghostID].g;
       Travels(w.s.desired[key], p.command, g.ghostID, Ghost.SeedIDOf(g.registry, p.command.seedSelector))
  }

  lemma BeginDispatches(w: World, codec: ArgsCodec, key: bytes, p: PlannedCommand, now: u64)
    requires Dispatchable(w, codec, key, p)
    ensures var (s1, b) := Begin(w.s, key, now);
            && b == Dispatch(w.s.desired[key], p) && s1 == WithLock(w.s, key, p)
            && p in w.s.desired[key].commands && p.command.commandID !in ObservedOf(w.s, key).byCommandID
            && Client.Clean(p.command) && Pending(w, key) > 0
  {
    hide Accounted, PendingCount, CommandID, PlanShape, Sendable, BlockedReport, SettledReport;
    IntentInOrder(w.s, key);
    ShapeOf(w.s, key);
    var commands := w.s.desired[key].commands;
    StepClean(key, commands, NextIndex(commands, ObservedOf(w.s, key).byCommandID, 0).value);
  }

  lemma StepClean(key: bytes, commands: seq<PlannedCommand>, i: nat)
    requires PlanShape(key, commands) && Trimmed(key) && i < |commands|
    ensures Client.Clean(commands[i].command)
  {
    hide CommandID, TrimLeft, TrimRight;
    assert StepShape(key, commands[i], i + 1);
    CommandIDTrimmed(key, i + 1);
  }

  /** A dispatched pass whose command, event and report all travel ends in the state Finish makes of it. */
  lemma PassFinishes(s: Stores, codec: ArgsCodec, intentID: bytes, execute: Executor, now: u64)
    requires var b := Begin(s, TrimSpace(intentID), now).1;
             && b.Dispatch? && CommandProblemOnWire(codec, b.next.command).None? && execute(b.next.command).Ok?
             && IngestReport(b.plan, ObservedOf(s, TrimSpace(intentID)), execute(b.next.command).value, now).Ok?
             && (b.next.blocking ==> b.next.seedKey !in s.seedLocks)
    ensures var (s', r) := Reconcile(s, codec, intentID, execute, now);
            r.Ok? && s'.seedLocks == s.seedLocks && s'.executors == s.executors
  {
    hide IngestReport, CommandProblemOnWire, TrimSpace, NextPending, Recorded;
  }

  // ---------------------------------------------------------------- the ghost's half of a pass

  /** A clean command the ghost has not seen is run once, and the executor returns the event the ghost stored. */
  lemma RunsOnce(codec: ArgsCodec, a: Admin.AdminState, c: Command, m: Moment)
    requires codec.Exact() && Admin.InOrder(a) && a.issued < MAX_U64 && m.at > 0
    requires Client.Clean(c) && Sendable(codec, CommandEnvelope(c)) && c.ghostID == a.g.ghostID
    requires a.g.phase == Ghost.Radiating && c.commandID !in a.g.byCommandID
    requires forall e | PossibleEvent(c, a.g.ghostID, Ghost.SeedIDOf(a.g.registry, c.seedSelector), e) ::
               EventProblem(e) == None ==> Sendable(codec, EventEnvelope(e))
    ensures Encoded(codec, 1, CommandEnvelope(c)).Ok?
    ensures var a' := Admin.Serve(a, codec, Encoded(codec, 1, CommandEnvelope(c)).value, m.seeds, m.at).0;
            var r := Client.ExecutorAnswer(codec, c, Client.Over(codec, a, m.seeds, m.at), m.now);
            && r.Ok? && Ghost.TerminalProblem(r.value) == None
            && PossibleEvent(c, a.g.ghostID, Ghost.SeedIDOf(a.g.registry, c.seedSelector), r.value)
            && Admin.InOrder(a') && a'.issued == a.issued + 1
            && a'.g.ghostID == a.g.ghostID && a'.g.phase == a.g.phase && a'.g.registry == a.g.registry
            && RanAs(a', c, r.value)
            && a'.g.byCommandID == a.g.byCommandID[c.commandID := a'.g.byCommandID[c.commandID]]
  {
    hide Encoded, Payload, Admin.Serve, Admin.Execute, Admin.InOrder, Client.ExecutorAnswer, Client.CommandOf, Client.RequestOf,
         Ghost.Rejection, Ghost.EventID, Ghost.SeedIDOf, Problem, Admin.EnvFor, Ghost.NewExecution, Trimmed, TrimSpace, Ghost.SameIdentity,
         PossibleEvent, Ghost.TerminalProblem, Ghost.Grows, Ghost.EventOfRecord, Admin.RecordFor, Client.Clean;
    Client.CleanTravelsAsIs(c);
    Client.ExecutorContract(codec, a, c, m.seeds, m.at, m.now);
    var cmd := Admin.FromWire(c);
    assert a.g.ghostID == c.ghostID;
    Accepts(a, c);
    Admin.ExecuteStep(a, cmd, m.seeds, m.at);
    Admin.ExecuteKeeps(a, cmd, m.seeds, m.at);
    var (x, e) := Admin.Execute(a, cmd, m.seeds, m.at).1.value;
    RecordOf(c, Admin.EnvFor(a.g.ghostID, a.issued + 1, cmd), x);
    EventIsPossible(a.g, c, x, e);
    Client.TerminalTravels(c, e, m.now);
  }

  lemma Accepts(a: Admin.AdminState, c: Command)
    requires Admin.InOrder(a) && a.issued < MAX_U64 && Client.Clean(c)
    requires a.g.phase == Ghost.Radiating && c.commandID !in a.g.byCommandID
    ensures var env := Admin.EnvFor(a.g.ghostID, a.issued + 1, Admin.FromWire(c));
            && Ghost.Rejection(a.g, env) == None && env.commandID == c.commandID && env.intentID == c.intentID
            && env.seedSelector == c.seedSelector && env.operation == c.operation && env.args == c.args
  {
    hide Admin.InOrder, TrimLeft, TrimRight, Trimmed, Ghost.Rejection, Client.CommandOf, Client.RequestOf;
    Client.CleanTravelsAsIs(c);
    TrimmedIsFixed(c.commandID);
    TrimmedIsFixed(c.intentID);
    TrimmedIsFixed(c.seedSelector);
    TrimmedIsFixed(c.operation);
    Admin.RejectedEnvIff(a, Admin.FromWire(c));
  }

  lemma EventIsPossible(g: Ghost.Store, c: Command, x: Ghost.Execution, e: Event)
    requires Ghost.EventOfRecord(g, x, e) && Ghost.TerminalProblem(e) == None && x.ghostID == g.ghostID
    requires x.commandID == c.commandID && x.intentID == c.intentID && x.seedSelector == c.seedSelector
    ensures PossibleEvent(c, g.ghostID, Ghost.SeedIDOf(g.registry, c.seedSelector), e)
  {
    hide Ghost.SeedIDOf, Ghost.EventID, TrimSpace;
  }

  lemma RecordOf(c: Command, env: Ghost.CommandEnv, x: Ghost.Execution)
    requires Ghost.SameIdentity(x, Ghost.NewExecution(env)) && Client.Clean(c)
    requires env.commandID == c.commandID && env.intentID == c.intentID && env.seedSelector == c.seedSelector
    requires env.operation == c.operation && env.args == c.args && x.ghostID == c.ghostID
    ensures SameCommand(x, c)
  {
    hide TrimLeft, TrimRight, Trimmed, Ghost.ExecutionID;
    TrimmedIsFixed(c.commandID);
    TrimmedIsFixed(c.intentID);
    TrimmedIsFixed(c.seedSelector);
    TrimmedIsFixed(c.operation);
  }

  lemma EventIsIngested(d: DesiredIntent, o: ObservedIntent, c: Command, ghostID: bytes, seedID: bytes, e: Event, now: u64)
    requires !Blank(d.issue.intentID) && |o.byCommandID| < |d.commands|
    requires Travels(d, c, ghostID, seedID) && PossibleEvent(c, ghostID, seedID, e) && Ghost.TerminalProblem(e) == None
    ensures IngestReport(d, o, e, now).Ok?
  {
    hide EventFields, ReportFits, PossibleEvent, EventProblem, IngestReport;
    ReportableIff(d, o, e, now);
    Client.TerminalTravels(c, e, now);
    assert FramesFit(d, e, |o.byCommandID|, now);
  }

  // ---------------------------------------------------------------- one pass

  /** What one pass does: it answers with a report, one command less is pending, and on its ghost exactly that
      command has been added, complete, with the event Mirage has now observed. */
  predicate Advanced(w: World, w': World, key: bytes, p: PlannedCommand)
    requires key in w.s.desired && key in w'.s.desired && p.command.ghostID in w.ghosts && p.command.ghostID in w'.ghosts
  {
    var c, g := p.command, p.command.ghostID;
    var seen, seen' := ObservedOf(w.s, key).byCommandID, ObservedOf(w'.s, key).byCommandID;
    && w'.s.desired == w.s.desired && w'.s.executors == w.s.executors && w'.s.seedLocks == w.s.seedLocks
    && c.commandID !in seen && c.commandID in seen' && seen' == seen[c.commandID := seen'[c.commandID]]
    && w'.ghosts == w.ghosts[g := w'.ghosts[g]]
    && var (a, a') := (w.ghosts[g], w'.ghosts[g]);
       && RanAs(a', c, seen'[c.commandID]) && Admin.InOrder(a') && a'.issued == a.issued + 1
       && a'.g.byCommandID == a.g.byCommandID[c.commandID := a'.g.byCommandID[c.commandID]]
       && a'.g.ghostID == a.g.ghostID && a'.g.phase == a.g.phase && a'.g.registry == a.g.registry
  }

  lemma SeenBelowPlan(s: Stores, key: bytes)
    requires Accounted(s) && key in s.desired && PendingCount(s.desired[key].commands, ObservedOf(s, key).byCommandID) > 0
    ensures |ObservedOf(s, key).byCommandID| < |s.desired[key].commands|
    ensures !Blank(s.desired[key].issue.intentID)
  {
    hide PendingCount, CommandID, PlannedIDs, Indexed;
    IntentInOrder(s, key);
    assert PlanShape(key, s.desired[key].commands);
    assert StepShape(key, s.desired[key].commands[0], 1);
  }

  /** The ghost's half, at the ghost a ready step is bound to. */
  lemma StepRuns(w: World, codec: ArgsCodec, key: bytes, p: PlannedCommand, m: Moment)
    requires codec.Exact() && Poised(w, codec, key, p) && GhostsInOrder(w.ghosts, 1) && m.at > 0
    requires p.command.commandID !in w.ghosts[p.command.ghostID].g.byCommandID
    ensures var (c, g) := (p.command, p.command.ghostID);
            var (a, r) := (w.ghosts[g], Executors(w, codec, m)(c));
            var ghosts' := GhostsAfter(w, codec, c, m);
            && CommandProblemOnWire(codec, c) == None
            && r.Ok? && r.value.commandID == c.commandID
            && IngestReport(w.s.desired[key], ObservedOf(w.s, key), r.value, m.now).Ok?
            && g in ghosts' && ghosts' == w.ghosts[g := ghosts'[g]]
            && RanAs(ghosts'[g], c, r.value) && Admin.InOrder(ghosts'[g]) && ghosts'[g].issued == a.issued + 1
            && ghosts'[g].g.byCommandID == a.g.byCommandID[c.commandID := ghosts'[g].g.byCommandID[c.commandID]]
            && ghosts'[g].g.ghostID == a.g.ghostID && ghosts'[g].g.phase == a.g.phase && ghosts'[g].g.registry == a.g.registry
  {
    hide Admin.InOrder, Encoded, Admin.Serve, Client.ExecutorAnswer, Client.CommandOf, Client.RequestOf, Accounted, PendingCount,
         IngestReport, Ghost.SeedIDOf, Ghost.TerminalProblem, Client.Clean, CommandFields, EventFields, ReportFits, Problem, Begin,
         NextPending, Trimmed, CommandProblemOnWire, Travels;
    var c, g := p.command, p.command.ghostID;
    var a := w.ghosts[g];
    var seedID := Ghost.SeedIDOf(a.g.registry, c.seedSelector);
    BeginDispatches(w, codec, key, p, m.now);
    SeenBelowPlan(w.s, key);
    PossibleEventsTravel(codec, w.s.desired[key], c, g, seedID);
    RunsOnce(codec, a, c, m);
    Client.CleanTravelsAsIs(c);
    EventIsIngested(w.s.desired[key], ObservedOf(w.s, key), c, g, seedID, Executors(w, codec, m)(c).value, m.now);
    SendableOnWire(codec, c);
  }

  lemma SendableOnWire(codec: ArgsCodec, c: Command)
    ensures Sendable(codec, CommandEnvelope(c)) <==> CommandProblemOnWire(codec, c) == None
  {
  }

  lemma PossibleEventsTravel(codec: ArgsCodec, d: DesiredIntent, c: Command, ghostID: bytes, seedID: bytes)
    requires Travels(d, c, ghostID, seedID) && d.commands != []
    ensures forall e | PossibleEvent(c, ghostID, seedID, e) :: EventProblem(e) == None ==> Sendable(codec, EventEnvelope(e))
  {
    hide EventFields, ReportFits, PossibleEvent, EventProblem;
    forall e | PossibleEvent(c, ghostID, seedID, e) && EventProblem(e) == None ensures Sendable(codec, EventEnvelope(e)) {
      assert FramesFit(d, e, 0, 0);
    }
  }

  /** Executors that lead to ghosts in order echo command ids. */
  lemma ExecutorsEcho(w: World, codec: ArgsCodec, m: Moment, spare: nat)
    requires codec.Exact() && GhostsInOrder(w.ghosts, spare) && spare > 0 && m.at > 0
    ensures Echoes(Executors(w, codec, m))
  {
    hide Admin.InOrder, Client.ExecutorAnswer, Trimmed;
    var execute := Executors(w, codec, m);
    forall c: Command | Trimmed(c.commandID) && execute(c).Ok? ensures execute(c).value.commandID == c.commandID {
      Client.ExecutorEchoes(codec, w.ghosts[c.ghostID], c, m.seeds, m.at, m.now);
    }
  }

  /** A pass over a poised command its ghost has not seen: it answers with a report, one command less is pending, and
      the ghost has run exactly that command. */
  lemma PassAdvances(w: World, codec: ArgsCodec, intentID: bytes, m: Moment, p: PlannedCommand)
    requires codec.Exact() && Poised(w, codec, TrimSpace(intentID), p) && GhostsInOrder(w.ghosts, 1) && m.at > 0
    requires p.command.commandID !in w.ghosts[p.command.ghostID].g.byCommandID
    ensures var key := TrimSpace(intentID); var (w', r) := Pass(w, codec, intentID, m);
            && r.Ok? && p in w.s.desired[key].commands
            && Accounted(w'.s) && w'.s.desired == w.s.desired && Pending(w', key) == Pending(w, key) - 1
            && p.command.ghostID in w'.ghosts && Advanced(w, w', key, p)
  {
    hide Begin, Reconcile, Accounted, Admin.InOrder, PendingCount, IngestReport, CommandProblemOnWire, RanAs, NextPending,
         GhostsAfter, Executors, Echoes, GhostsInOrder, TrimSpace, Sendable, Travels;
    var key := TrimSpace(intentID);
    BeginDispatches(w, codec, key, p, m.now);
    StepRuns(w, codec, key, p, m);
    ExecutorsEcho(w, codec, m, 1);
    PassFinishes(w.s, codec, intentID, Executors(w, codec, m), m.now);
    ReconcileKeeps(codec, w.s, intentID, Executors(w, codec, m), m.now);
    ReconcileCloses(codec, w.s, intentID, Executors(w, codec, m), m.now);
  }

  /** A plan that is ready and has something pending is poised at its next command. */
  lemma ReadyIsPoised(w: World, codec: ArgsCodec, key: bytes) returns (p: PlannedCommand)
    requires Ready(w, codec, key) && Pending(w, key) > 0
    ensures Poised(w, codec, key, p) && GhostsInOrder(w.ghosts, 1) && p.command.ghostID in w.ghosts
    ensures p.command.commandID !in w.ghosts[p.command.ghostID].g.byCommandID
  {
    hide Accounted, GhostsInOrder, PendingCount, Travels, Sendable, Trimmed, Ghost.SeedIDOf;
    IntentInOrder(w.s, key);
    var commands := w.s.desired[key].commands;
    var i := NextIndex(commands, ObservedOf(w.s, key).byCommandID, 0).value;
    p := commands[i];
    assert StepReady(w, codec, key, w.s.desired[key], commands[i]);
    LessSpare(w.ghosts, Pending(w, key), 1);
  }

  lemma LessSpare(ghosts: map<bytes, Admin.AdminState>, spare: nat, less: nat)
    requires GhostsInOrder(ghosts, spare) && less <= spare
    ensures GhostsInOrder(ghosts, less)
  {
    hide Admin.InOrder;
  }

  lemma ReadyParts(w: World, codec: ArgsCodec, key: bytes, p: PlannedCommand)
    requires Ready(w, codec, key) && p in w.s.desired[key].commands
    ensures Accounted(w.s) && key in w.s.desired && Trimmed(key) && GhostsInOrder(w.ghosts, Pending(w, key))
    ensures StepReady(w, codec, key, w.s.desired[key], p) && p.command.ghostID in w.ghosts
  {
    hide Accounted, GhostsInOrder, Travels, Progressed, PendingCount, Sendable, Trimmed;
    var i :| 0 <= i < |w.s.desired[key].commands| && w.s.desired[key].commands[i] == p;
    assert StepReady(w, codec, key, w.s.desired[key], w.s.desired[key].commands[i]);
  }

  /** A step stays ready when another one, or itself, advances. */
  lemma StepStaysReady(w: World, w': World, codec: ArgsCodec, key: bytes, p: PlannedCommand, q: PlannedCommand)
    requires key in w.s.desired && key in w'.s.desired && p.command.ghostID in w.ghosts && p.command.ghostID in w'.ghosts
    requires StepReady(w, codec, key, w.s.desired[key], p) && StepReady(w, codec, key, w.s.desired[key], q)
    requires Advanced(w, w', key, p) && (q.command.commandID == p.command.commandID ==> p == q)
    ensures StepReady(w', codec, key, w'.s.desired[key], q)
  {
    hide Admin.InOrder, Travels, Sendable, Ghost.SeedIDOf;
  }

  lemma PassKeepsReady(w: World, codec: ArgsCodec, intentID: bytes, m: Moment)
    requires var key := TrimSpace(intentID); codec.Exact() && Ready(w, codec, key) && Pending(w, key) > 0 && m.at > 0
    ensures Ready(Pass(w, codec, intentID, m).0, codec, TrimSpace(intentID))
  {
    hide Pass, Ready, Poised, StepReady, Advanced, Accounted, PendingCount, TrimSpace, GhostsInOrder, Admin.InOrder;
    var key := TrimSpace(intentID);
    var p := ReadyIsPoised(w, codec, key);
    PassAdvances(w, codec, intentID, m, p);
    var w' := Pass(w, codec, intentID, m).0;
    ReadyParts(w, codec, key, p);
    GhostsStayInOrder(w, w', key, p);
    var commands := w.s.desired[key].commands;
    forall i | 0 <= i < |commands| ensures StepReady(w', codec, key, w'.s.desired[key], commands[i]) {
      ReadyParts(w, codec, key, commands[i]);
      SameIDSameStep(w.s, key, p, commands[i]);
      StepStaysReady(w, w', codec, key, p, commands[i]);
    }
    NowReady(w', codec, key);
  }

  lemma NowReady(w: World, codec: ArgsCodec, key: bytes)
    requires Accounted(w.s) && key in w.s.desired && Trimmed(key) && GhostsInOrder(w.ghosts, Pending(w, key))
    requires var d := w.s.desired[key]; forall i :: 0 <= i < |d.commands| ==> StepReady(w, codec, key, d, d.commands[i])
    ensures Ready(w, codec, key)
  {
    hide Accounted, GhostsInOrder, StepReady, PendingCount, Trimmed;
  }

  lemma SameIDSameStep(s: Stores, key: bytes, p: PlannedCommand, q: PlannedCommand)
    requires Accounted(s) && key in s.desired && p in s.desired[key].commands && q in s.desired[key].commands
    ensures p.command.commandID == q.command.commandID ==> p == q
  {
    hide PlanShape, Consistent, Concluded;
    ShapeOf(s, key);
    ShapeDistinct(key, s.desired[key].commands);
  }

  lemma GhostsStayInOrder(w: World, w': World, key: bytes, p: PlannedCommand)
    requires key in w.s.desired && key in w'.s.desired && p.command.ghostID in w.ghosts && p.command.ghostID in w'.ghosts
    requires GhostsInOrder(w.ghosts, Pending(w, key)) && Pending(w', key) == Pending(w, key) - 1
    requires Advanced(w, w', key, p)
    ensures GhostsInOrder(w'.ghosts, Pending(w', key))
  {
    hide Admin.InOrder, PendingCount, RanAs;
  }

  // ---------------------------------------------------------------- the whole plan

  /** Ghosts only gain commands of the plan, at the ghost the plan names. */
  predicate OnlyPlanRan(w: World, w': World, key: bytes)
    requires key in w.s.desired
  {
    && w'.ghosts.Keys == w.ghosts.Keys
    && forall g, id | g in w.ghosts && id in w'.ghosts[g].g.byCommandID ::
         || (id in w.ghosts[g].g.byCommandID && w'.ghosts[g].g.byCommandID[id] == w.ghosts[g].g.byCommandID[id])
         || exists p :: p in w.s.desired[key].commands && p.command.ghostID == g && p.command.commandID == id
  }

  lemma OneMoreRan(w: World, w1: World, w': World, key: bytes, p: PlannedCommand)
    requires key in w.s.desired && key in w1.s.desired && p.command.ghostID in w.ghosts && p.command.ghostID in w1.ghosts
    requires Advanced(w, w1, key, p) && p in w.s.desired[key].commands && OnlyPlanRan(w1, w', key)
    ensures OnlyPlanRan(w, w', key)
  {
    hide Admin.InOrder, RanAs;
    forall g, id | g in w.ghosts && id in w'.ghosts[g].g.byCommandID
      ensures (id in w.ghosts[g].g.byCommandID && w'.ghosts[g].g.byCommandID[id] == w.ghosts[g].g.byCommandID[id])
           || exists p :: p in w.s.desired[key].commands && p.command.ghostID == g && p.command.commandID == id
    {
      assert g in w1.ghosts;
    }
  }

  lemma NothingRan(w: World, key: bytes)
    requires key in w.s.desired
    ensures OnlyPlanRan(w, w, key) && Within(w, w, 0)
  {
  }

  lemma HasPlan(w: World, codec: ArgsCodec, key: bytes)
    requires Ready(w, codec, key)
    ensures key in w.s.desired
  {
  }

  lemma AllRan(w: World, codec: ArgsCodec, key: bytes)
    requires Ready(w, codec, key) && Pending(w, key) == 0
    ensures Delivered(w, key, w.s.desired[key].commands)
  {
    hide Ready, Served, Accounted, RanAs, PendingCount;
    HasPlan(w, codec, key);
    forall p | p in w.s.desired[key].commands
      ensures && p.command.commandID in ObservedOf(w.s, key).byCommandID && p.command.ghostID in w.ghosts
              && RanAs(w.ghosts[p.command.ghostID], p.command,
                       ObservedOf(w.s, key).byCommandID[p.command.commandID])
    {
      ReadyParts(w, codec, key, p);
      Progress.SettledHasSeen(w.s, key, p);
    }
  }

  /** Mirage has observed every command of the plan with the event its ghost has stored for it. */
  predicate Delivered(w: World, key: bytes, commands: seq<PlannedCommand>)
  {
    forall p :: p in commands ==>
      && p.command.commandID in ObservedOf(w.s, key).byCommandID && p.command.ghostID in w.ghosts
      && RanAs(w.ghosts[p.command.ghostID], p.command, ObservedOf(w.s, key).byCommandID[p.command.commandID])
  }

  /** What passes leave alone, and that they use up at most a message id each. */
  predicate Within(w: World, w': World, n: nat)
  {
    && w'.s.desired == w.s.desired && w'.s.executors == w.s.executors && w'.s.seedLocks == w.s.seedLocks
    && w'.ghosts.Keys == w.ghosts.Keys
    && forall g :: g in w.ghosts ==> w'.ghosts[g].issued <= w.ghosts[g].issued + n
  }

  lemma AdvancedWithin(w: World, w1: World, w': World, key: bytes, p: PlannedCommand, n: nat)
    requires key in w.s.desired && key in w1.s.desired && p.command.ghostID in w.ghosts && p.command.ghostID in w1.ghosts
    requires Advanced(w, w1, key, p) && Within(w1, w', n)
    ensures Within(w, w', n + 1)
  {
    hide Admin.InOrder, RanAs;
  }

  /** From `w`, `n` passes have brought the plan to its end in `w'`: nothing is pending, every planned command has run
      on its ghost, the event of its one complete execution there is the event Mirage has observed, and the ghosts have
      run nothing else. */
  ghost predicate WentThrough(w: World, w': World, codec: ArgsCodec, key: bytes, n: nat)
  {
    && key in w.s.desired && key in w'.s.desired && Within(w, w', n)
    && Pending(w', key) == 0 && Ready(w', codec, key)
    && Delivered(w', key, w.s.desired[key].commands) && OnlyPlanRan(w, w', key)
  }

  lemma NothingToDo(w: World, codec: ArgsCodec, key: bytes)
    requires Ready(w, codec, key) && Pending(w, key) == 0
    ensures WentThrough(w, w, codec, key, 0)
  {
    hide Ready, PendingCount, OnlyPlanRan, Within, Delivered;
    HasPlan(w, codec, key);
    AllRan(w, codec, key);
    NothingRan(w, key);
  }

  lemma OneMorePass(w: World, w1: World, w': World, codec: ArgsCodec, key: bytes, p: PlannedCommand, n: nat)
    requires key in w.s.desired && p in w.s.desired[key].commands && w1.s.desired == w.s.desired
    requires p.command.ghostID in w.ghosts && p.command.ghostID in w1.ghosts && Advanced(w, w1, key, p)
    requires WentThrough(w1, w', codec, key, n)
    ensures WentThrough(w, w', codec, key, n + 1)
  {
    hide Ready, PendingCount, OnlyPlanRan, Within, Delivered, Advanced;
    OneMoreRan(w, w1, w', key, p);
    AdvancedWithin(w, w1, w', key, p, n);
  }

  /** As many non-overlapping passes as commands are pending bring a plan to its end, whatever the seeds do and the
      clocks say. */
  lemma {:induction false} PlanGoesThrough(w: World, codec: ArgsCodec, intentID: bytes, ms: seq<Moment>)
    requires codec.Exact() && Ready(w, codec, TrimSpace(intentID)) && forall m :: m in ms ==> m.at > 0
    requires |ms| == Pending(w, TrimSpace(intentID))
    ensures WentThrough(w, Passes(w, codec, intentID, ms), codec, TrimSpace(intentID), |ms|)
    decreases |ms|
  {
    hide Pass, Ready, Poised, PendingCount, TrimSpace, Advanced, WentThrough, Accounted, GhostsInOrder;
    var key := TrimSpace(intentID);
    HasPlan(w, codec, key);
    if ms == [] {
      NothingToDo(w, codec, key);
    } else {
      var p := ReadyIsPoised(w, codec, key);
      PassAdvances(w, codec, intentID, ms[0], p);
      PassKeepsReady(w, codec, intentID, ms[0]);
      var w1 := Pass(w, codec, intentID, ms[0]).0;
      PlanGoesThrough(w1, codec, intentID, ms[1..]);
      OneMorePass(w, w1, Passes(w, codec, intentID, ms), codec, key, p, |ms| - 1);
    }
  }

  /** A command that has run on a ghost in order has exactly one execution there, under all three of its ids. */
  lemma OneExecution(a: Admin.AdminState, c: Command, e: Event, x: Ghost.Execution)
    requires Admin.InOrder(a) && RanAs(a, c, e) && x in a.g.byID.Values && x.commandID == c.commandID
    ensures x == a.g.byCommandID[c.commandID] && x.event == e && x.phase == Ghost.Complete && SameCommand(x, c)
  {
    hide Ghost.RecordAt, Admin.Logged, Admin.Listed;
    var id :| id in a.g.byID && a.g.byID[id] == x;
    assert Ghost.ExecutionAt(a.g, id);
  }

  // ---------------------------------------------------------------- from submission

  function Stamped(issue: IssueEnv, now: u64): IssueEnv
  {
    if issue.timestampMS == 0 then issue.(timestampMS := now) else issue
  }

  function Submitted(w: World, issue: IssueEnv, now: u64): World { w.(s := Submit(w.s, issue, now).0) }

  /** Step `p` can run at once: its ghost is served and has not seen its id, and its seed lock is free. */
  ghost predicate Unstarted(w: World, codec: ArgsCodec, d: DesiredIntent, p: PlannedCommand)
  {
    && Served(w, codec, d, p.command) && p.command.commandID !in w.ghosts[p.command.ghostID].g.byCommandID
    && (p.blocking ==> p.seedKey !in w.s.seedLocks)
  }

  /** An issue that can be submitted, whose every step can run at once, with message ids to spare. */
  ghost predicate Launchable(w: World, codec: ArgsCodec, issue: IssueEnv, now: u64, spare: nat)
  {
    && Accounted(w.s) && ValidIssue(issue) && Trimmed(issue.intentID) && PlanOf(Stamped(issue, now)).Ok?
    && GhostsInOrder(w.ghosts, spare)
    && var plan := PlanOf(Stamped(issue, now)).value;
       forall p :: p in plan ==> Unstarted(w, codec, DesiredIntent(Stamped(issue, now), plan), p)
  }

  function PlanFor(issue: IssueEnv, now: u64): seq<PlannedCommand>
    requires PlanOf(Stamped(issue, now)).Ok?
  {
    PlanOf(Stamped(issue, now)).value
  }

  lemma SubmitMakesReady(w: World, codec: ArgsCodec, issue: IssueEnv, now: u64, spare: nat)
    requires Launchable(w, codec, issue, now, spare) && spare >= |PlanFor(issue, now)|
    ensures var w' := Submitted(w, issue, now); var key := issue.intentID; var plan := PlanFor(issue, now);
            && Ready(w', codec, key) && key in w'.s.desired && Pending(w', key) == |plan| > 0
            && w'.s == w.s.(desired := w.s.desired[key := DesiredIntent(Stamped(issue, now), plan)], observed := w.s.observed - {key})
            && w'.ghosts == w.ghosts
  {
    hide Accounted, ValidIssue, PlanOf, Trimmed, GhostsInOrder, Travels, Sendable, PendingCount, Admin.InOrder;
    var w', key, plan := Submitted(w, issue, now), issue.intentID, PlanFor(issue, now);
    SubmitKeeps(w.s, issue, now);
    NonePendingIff(plan, map[]);
    var d := DesiredIntent(Stamped(issue, now), plan);
    assert w'.s.desired[key] == d && ObservedOf(w'.s, key).byCommandID == map[];
    forall i | 0 <= i < |plan| ensures StepReady(w', codec, key, d, plan[i]) {
      assert Unstarted(w, codec, d, plan[i]);
    }
    LessSpare(w.ghosts, spare, |plan|);
    ShapeNotEmpty(w'.s, key);
  }

  lemma ShapeNotEmpty(s: Stores, key: bytes)
    requires Accounted(s) && key in s.desired
    ensures s.desired[key].commands != []
  {
    hide StepShape;
    assert PlanShape(key, s.desired[key].commands);
  }

  /** From submission to the end: submitting a plan and reconciling it as many times as it has steps runs every step
      once, on its ghost, and Mirage holds the event each ghost stored. */
  lemma SubmittedPlanGoesThrough(w: World, codec: ArgsCodec, issue: IssueEnv, now: u64, ms: seq<Moment>)
    requires codec.Exact() && Launchable(w, codec, issue, now, |ms|) && |ms| == |PlanFor(issue, now)|
    requires forall m :: m in ms ==> m.at > 0
    ensures var key := issue.intentID; var w0 := Submitted(w, issue, now);
            && key in w0.s.desired && w0.s.desired[key].commands == PlanFor(issue, now) != []
            && WentThrough(w0, Passes(w0, codec, key, ms), codec, key, |ms|)
  {
    hide Launchable, PlanOf, PendingCount, Ready, Passes, WentThrough, Submit, TrimSpace, GhostsInOrder;
    SubmitMakesReady(w, codec, issue, now, |ms|);
    LaunchKey(w, codec, issue, now, |ms|);
    PlanGoesThrough(Submitted(w, issue, now), codec, issue.intentID, ms);
  }

  /** How many steps an issue asks for: one when it brings no plan. */
  function StepsAsked(issue: IssueEnv): nat { if issue.commandPlan == [] then 1 else |issue.commandPlan| }

  /** The command is the `i`-th thing the issue asks for: the texts of its step, trimmed, or without a plan its target,
      with the seed and operation it names or else seed.flow and its objective. */
  predicate AskedFor(issue: IssueEnv, i: nat, c: Command)
    requires i < StepsAsked(issue)
  {
    && c.commandID == CommandID(issue.intentID, i + 1) && c.intentID == issue.intentID
    && if issue.commandPlan == [] then
         && c.ghostID == NormalizeGhostID(issue.targetScope) && c.args == issue.args
         && c.seedSelector == (if Blank(issue.seedSelector) then SEED_FLOW else TrimSpace(issue.seedSelector))
         && c.operation == (if Blank(issue.operation) then TrimSpace(issue.objective) else TrimSpace(issue.operation))
       else
         var step := issue.commandPlan[i];
         && c.ghostID == TrimSpace(step.ghostID) && c.seedSelector == TrimSpace(step.seedSelector)
         && c.operation == TrimSpace(step.operation) && c.args == step.args
  }

  lemma PlannedAsAsked(issue: IssueEnv, now: u64, i: nat)
    requires ValidIssue(issue) && PlanOf(Stamped(issue, now)).Ok?
    ensures |PlanFor(issue, now)| == StepsAsked(issue)
    ensures i < StepsAsked(issue) ==> AskedFor(issue, i, PlanFor(issue, now)[i].command)
  {
    hide PlanOf, CommandID, TrimSpace, NormalizeGhostID;
    var stamped := Stamped(issue, now);
    assert ValidIssue(stamped);
    PlanHasShape(stamped);
    if issue.commandPlan == [] {
      SinglePlanFollowsIssue(stamped);
    } else {
      PlanFollowsIssue(stamped, 0);
      if i < |issue.commandPlan| { PlanFollowsIssue(stamped, i); }
    }
    if i < StepsAsked(issue) { assert StepShape(issue.intentID, PlanFor(issue, now)[i], i + 1); }
  }

  /** What an issue asks for is what is done: after its submission and as many passes as it has steps, the ghost of each
      step holds a complete execution of that step, with its seed, operation and args, and Mirage has its event. */
  lemma IssueIsCarriedOut(w: World, codec: ArgsCodec, issue: IssueEnv, now: u64, ms: seq<Moment>, i: nat)
    requires codec.Exact() && Launchable(w, codec, issue, now, |ms|) && |ms| == StepsAsked(issue)
    requires (forall m :: m in ms ==> m.at > 0) && i < StepsAsked(issue)
    ensures var (key, w') := (issue.intentID, Passes(Submitted(w, issue, now), codec, issue.intentID, ms));
            var (id, seen) := (CommandID(key, i + 1), ObservedOf(w'.s, key).byCommandID);
            && id in seen
            && exists c: Command ::
                 AskedFor(issue, i, c) && c.ghostID in w'.ghosts && RanAs(w'.ghosts[c.ghostID], c, seen[id])
  {
    hide PlanOf, PendingCount, Ready, Passes, Submit, TrimSpace, GhostsInOrder, CommandID, ValidIssue, Unstarted, Accounted,
         NormalizeGhostID, RanAs, Within, OnlyPlanRan;
    PlannedAsAsked(issue, now, i);
    SubmittedPlanGoesThrough(w, codec, issue, now, ms);
    var p := PlanFor(issue, now)[i];
    assert p in PlanFor(issue, now) && AskedFor(issue, i, p.command);
  }

  lemma LaunchKey(w: World, codec: ArgsCodec, issue: IssueEnv, now: u64, spare: nat)
    requires Launchable(w, codec, issue, now, spare)
    ensures TrimSpace(issue.intentID) == issue.intentID && PlanOf(Stamped(issue, now)).Ok?
  {
    TrimmedIsFixed(issue.intentID);
  }

  // ---------------------------------------------------------------- when events and reports are small enough

  /** Everything travels when no text is longer than 400000 bytes and the plan has at most 10000 steps. */
  lemma SmallTextsTravel(d: DesiredIntent, c: Command, ghostID: bytes, seedID: bytes)
    requires |d.issue.intentID| <= SMALL && |d.commands| <= 10000 && Trimmed(c.commandID) && |c.commandID| <= SMALL
    requires |c.intentID| <= SMALL && |ghostID| <= SMALL && |seedID| <= SMALL
    ensures Travels(d, c, ghostID, seedID)
  {
    hide Tlv.FieldsBytes, ReportFields, EventFields, ReportFor, Trimmed, TrimSpace;
    forall e: Event, before: nat, now: u64 | PossibleEvent(c, ghostID, seedID, e) && before < |d.commands|
      ensures FramesFit(d, e, before, now)
    {
      assert |Ghost.EventID(c.commandID)| <= 4 + |c.commandID| && |e.outcome| <= 7;
      EventSizeIs(e);
      ReportForSize(d, before, e, now);
    }
  }

  // ---------------------------------------------------------------- what the assumptions are for

  /** A ghost that has already seen the next command's id, after a resubmission say, refuses it: the pass fails,
      Mirage's stores are as before, and the ghost has only used up a message id. */
  lemma SeenCommandFails(w: World, codec: ArgsCodec, intentID: bytes, m: Moment, p: PlannedCommand)
    requires codec.Exact() && m.at > 0 && Dispatchable(w, codec, TrimSpace(intentID), p) && GhostsInOrder(w.ghosts, 1)
    requires p.command.commandID in w.ghosts[p.command.ghostID].g.byCommandID
    ensures var g := p.command.ghostID; var (w', r) := Pass(w, codec, intentID, m);
            r.Err? && w'.s == w.s && w'.ghosts == w.ghosts[g := w.ghosts[g].(issued := w.ghosts[g].issued + 1)]
  {
    hide TrimSpace, Begin, Finish, Executors, GhostsAfter, CommandProblemOnWire, ReleaseAfterError, Admin.InOrder, NextPending,
         Accounted, Sendable, Client.Clean;
    BeginDispatches(w, codec, TrimSpace(intentID), p, m.now);
    RefusedByGhost(w, codec, p.command, m);
    LockGivenBack(w.s, TrimSpace(intentID), m.now);
  }

  /** So a pass over a poised command answers with a report exactly when its ghost has not seen the command id. */
  lemma PassAnswersIff(w: World, codec: ArgsCodec, intentID: bytes, m: Moment, p: PlannedCommand)
    requires codec.Exact() && m.at > 0 && Poised(w, codec, TrimSpace(intentID), p) && GhostsInOrder(w.ghosts, 1)
    ensures Pass(w, codec, intentID, m).1.Ok? <==> p.command.commandID !in w.ghosts[p.command.ghostID].g.byCommandID
  {
    hide Pass, Dispatchable, GhostsInOrder, Travels, TrimSpace, Advanced, Accounted, PendingCount;
    DispatchableGhost(w, codec, TrimSpace(intentID), p);
    if p.command.commandID in w.ghosts[p.command.ghostID].g.byCommandID {
      SeenCommandFails(w, codec, intentID, m, p);
    } else {
      PassAdvances(w, codec, intentID, m, p);
    }
  }

  lemma DispatchableGhost(w: World, codec: ArgsCodec, key: bytes, p: PlannedCommand)
    requires Dispatchable(w, codec, key, p)
    ensures p.command.ghostID in w.ghosts
  {
  }

  lemma UsesUpOne(a: Admin.AdminState)
    requires Admin.InOrder(a) && a.issued < MAX_U64
    ensures Admin.InOrder(a.(issued := a.issued + 1))
  {
    hide Admin.MessagesBelow, Admin.Ascending, Admin.Logged, Admin.Listed, Ghost.Agrees, Admin.Identified;
    Admin.BelowWidens(a.g, a.issued);
    Admin.AscendingWidens(a.records, a.issued);
  }

  /** The pass that fails leaves everything the next one looks at as it was. */
  lemma FailedPassKeeps(w: World, codec: ArgsCodec, key: bytes, p: PlannedCommand, spare: nat)
    requires Dispatchable(w, codec, key, p) && GhostsInOrder(w.ghosts, spare) && spare > 0
    ensures var g := p.command.ghostID; var w' := w.(ghosts := w.ghosts[g := w.ghosts[g].(issued := w.ghosts[g].issued + 1)]);
            Dispatchable(w', codec, key, p) && GhostsInOrder(w'.ghosts, spare - 1)
  {
    hide Admin.InOrder, Accounted, NextPending, Sendable;
    UsesUpOne(w.ghosts[p.command.ghostID]);
  }

  /** The plan is stuck there: however many passes follow, within the ghost's message sequence, Mirage's stores stay as
      they are, and the next pass fails as well. */
  lemma {:induction false} SeenCommandSticks(w: World, codec: ArgsCodec, intentID: bytes, ms: seq<Moment>, m: Moment,
                                             p: PlannedCommand)
    requires codec.Exact() && m.at > 0 && forall x :: x in ms ==> x.at > 0
    requires Dispatchable(w, codec, TrimSpace(intentID), p) && GhostsInOrder(w.ghosts, |ms| + 1)
    requires p.command.commandID in w.ghosts[p.command.ghostID].g.byCommandID
    ensures Passes(w, codec, intentID, ms).s == w.s && Pass(Passes(w, codec, intentID, ms), codec, intentID, m).1.Err?
    decreases |ms|
  {
    hide Pass, Dispatchable, GhostsInOrder, TrimSpace;
    DispatchableGhost(w, codec, TrimSpace(intentID), p);
    LessSpare(w.ghosts, |ms| + 1, 1);
    if ms == [] {
      SeenCommandFails(w, codec, intentID, m, p);
    } else {
      SeenCommandFails(w, codec, intentID, ms[0], p);
      FailedPassKeeps(w, codec, TrimSpace(intentID), p, |ms| + 1);
      SeenCommandSticks(Pass(w, codec, intentID, ms[0]).0, codec, intentID, ms[1..], m, p);
    }
  }

  lemma PlanIgnoresTime(issue: IssueEnv, t: u64)
    ensures PlanOf(issue.(timestampMS := t)) == PlanOf(issue)
  {
    hide TrimSpace, CommandID, SeedLockKey, NormalizeGhostID;
    var later := issue.(timestampMS := t);
    if PlanOf(issue).Ok? && issue.commandPlan != [] {
      assert PlanOf(later).value == PlanOf(issue).value;
    }
  }

  /** `w'` is stuck where `w` was: the same stores, `n` commands pending, and the next pass fails. */
  predicate Stuck(w: World, w': World, codec: ArgsCodec, key: bytes, n: nat, m: Moment)
  {
    && w'.s == w.s && key in w'.s.desired && Pending(w', key) == n && Pass(w', codec, key, m).1.Err?
  }

  /** A plan that has gone through and is submitted again never gets anywhere: its command ids are the old ones, so
      after any number of passes all of it is still pending, and the next pass fails too. */
  lemma ResubmissionSticks(w: World, codec: ArgsCodec, issue: IssueEnv, now: u64, ms: seq<Moment>,
                           again: u64, more: seq<Moment>, m: Moment)
    requires codec.Exact() && Launchable(w, codec, issue, now, |ms| + |more| + 1) && |ms| == |PlanFor(issue, now)|
    requires m.at > 0 && (forall x :: x in ms ==> x.at > 0) && (forall x :: x in more ==> x.at > 0)
    ensures var key := issue.intentID; var w1 := Passes(Submitted(w, issue, now), codec, key, ms);
            var w2 := Submitted(w1, issue, again);
            && WentThrough(Submitted(w, issue, now), w1, codec, key, |ms|) && |PlanFor(issue, now)| > 0
            && Stuck(w2, Passes(w2, codec, key, more), codec, key, |PlanFor(issue, now)|, m)
  {
    hide Launchable, PlanFor, Passes, WentThrough, Submitted, Stuck;
    var key, spare := issue.intentID, |ms| + |more| + 1;
    LaunchLess(w, codec, issue, now, spare, |ms|);
    SubmittedPlanGoesThrough(w, codec, issue, now, ms);
    var w0 := Submitted(w, issue, now);
    ResubmittedSticks(w, Passes(w0, codec, key, ms), codec, issue, now, again, |ms|, more, m);
  }

  lemma ResubmittedSticks(w: World, w1: World, codec: ArgsCodec, issue: IssueEnv, now: u64, again: u64,
                          used: nat, more: seq<Moment>, m: Moment)
    requires codec.Exact() && m.at > 0 && forall x :: x in more ==> x.at > 0
    requires Launchable(w, codec, issue, now, used + |more| + 1)
    requires WentThrough(Submitted(w, issue, now), w1, codec, issue.intentID, used)
    ensures var w2 := Submitted(w1, issue, again);
            Stuck(w2, Passes(w2, codec, issue.intentID, more), codec, issue.intentID, |PlanFor(issue, now)|, m)
  {
    hide *;
    LaunchKey(w, codec, issue, now, used + |more| + 1);
    var p := ResubmittedDispatchable(w, w1, codec, issue, now, again, used, |more| + 1);
    SeenIsStuck(Submitted(w1, issue, again), codec, issue.intentID, more, m, p);
  }

  lemma SeenIsStuck(w: World, codec: ArgsCodec, key: bytes, ms: seq<Moment>, m: Moment, p: PlannedCommand)
    requires codec.Exact() && m.at > 0 && (forall x :: x in ms ==> x.at > 0) && TrimSpace(key) == key && key in w.s.desired
    requires Dispatchable(w, codec, key, p) && GhostsInOrder(w.ghosts, |ms| + 1)
    requires p.command.ghostID in w.ghosts && p.command.commandID in w.ghosts[p.command.ghostID].g.byCommandID
    ensures Stuck(w, Passes(w, codec, key, ms), codec, key, Pending(w, key), m)
  {
    hide Pass, Passes, TrimSpace, GhostsInOrder, Dispatchable, PendingCount;
    SeenCommandSticks(w, codec, key, ms, m, p);
  }

  lemma LaunchLess(w: World, codec: ArgsCodec, issue: IssueEnv, now: u64, spare: nat, less: nat)
    requires Launchable(w, codec, issue, now, spare) && less <= spare
    ensures Launchable(w, codec, issue, now, less)
  {
    hide Accounted, ValidIssue, PlanOf, Trimmed, GhostsInOrder, Unstarted;
    LessSpare(w.ghosts, spare, less);
  }

  lemma ResubmittedDispatchable(w: World, w1: World, codec: ArgsCodec, issue: IssueEnv, now: u64, again: u64,
                                used: nat, spare: nat)
    returns (p: PlannedCommand)
    requires Launchable(w, codec, issue, now, used + spare)
    requires WentThrough(Submitted(w, issue, now), w1, codec, issue.intentID, used)
    ensures var w2, plan := Submitted(w1, issue, again), PlanFor(issue, now);
            && Dispatchable(w2, codec, issue.intentID, p) && GhostsInOrder(w2.ghosts, spare)
            && p.command.ghostID in w2.ghosts && p.command.commandID in w2.ghosts[p.command.ghostID].g.byCommandID
            && issue.intentID in w2.s.desired && Pending(w2, issue.intentID) == |plan|
  {
    hide Accounted, ValidIssue, PlanOf, Trimmed, Travels, Sendable, PendingCount, Admin.InOrder, CommandID, Ghost.SeedIDOf;
    var key, plan := issue.intentID, PlanFor(issue, now);
    PlanIgnoresTime(issue, now);
    PlanIgnoresTime(issue, again);
    var w2 := Submitted(w1, issue, again);
    SubmitKeeps(w.s, issue, now);
    ShapeNotEmpty(Submitted(w, issue, now).s, key);
    p := plan[0];
    SubmitKeeps(w1.s, issue, again);
    NonePendingIff(plan, map[]);
    assert w2.s.desired[key].commands == plan && ObservedOf(w2.s, key).byCommandID == map[];
    assert Unstarted(w, codec, DesiredIntent(Stamped(issue, now), plan), p);
    ReadyParts(w1, codec, key, p);
    StillInOrder(w.ghosts, w1.ghosts, used, spare, Pending(w1, key));
  }

  lemma StillInOrder(ghosts: map<bytes, Admin.AdminState>, ghosts': map<bytes, Admin.AdminState>, used: nat, spare: nat, any: nat)
    requires GhostsInOrder(ghosts, used + spare) && GhostsInOrder(ghosts', any) && ghosts'.Keys == ghosts.Keys
    requires forall g :: g in ghosts ==> ghosts'[g].issued <= ghosts[g].issued + used
    ensures GhostsInOrder(ghosts', spare)
  {
    hide Admin.InOrder;
  }

  /** A command that can travel, to a ghost in order that already holds its id. */
  predicate HasSeen(w: World, codec: ArgsCodec, c: Command)
  {
    && Client.Clean(c) && Sendable(codec, CommandEnvelope(c)) && c.ghostID in w.ghosts
    && var a := w.ghosts[c.ghostID];
       Admin.InOrder(a) && a.issued < MAX_U64 && c.commandID in a.g.byCommandID
  }

  lemma RefusedByGhost(w: World, codec: ArgsCodec, c: Command, m: Moment)
    requires codec.Exact() && m.at > 0 && HasSeen(w, codec, c)
    ensures CommandProblemOnWire(codec, c) == None && Executors(w, codec, m)(c).Err?
    ensures var a := w.ghosts[c.ghostID];
            GhostsAfter(w, codec, c, m) == w.ghosts[c.ghostID := a.(issued := a.issued + 1)]
  {
    hide Encoded, Admin.Serve, Admin.InOrder, Client.ExecutorAnswer, Admin.Execute, Client.CommandOf, Client.RequestOf,
         Client.Clean, CommandFields, Problem, TrimSpace, Ghost.Rejection, Admin.EnvFor, Ghost.NewExecution, Ghost.SameIdentity,
         Ghost.TerminalProblem, Ghost.Grows, Ghost.EventOfRecord, Admin.RecordFor, Payload;
    var a := w.ghosts[c.ghostID];
    Client.CleanTravelsAsIs(c);
    Client.ExecutorContract(codec, a, c, m.seeds, m.at, m.now);
    SendableOnWire(codec, c);
    Refuses(a, c);
    Admin.ExecuteStep(a, Admin.FromWire(c), m.seeds, m.at);
  }

  lemma Refuses(a: Admin.AdminState, c: Command)
    requires Admin.InOrder(a) && a.issued < MAX_U64 && Client.Clean(c) && c.commandID in a.g.byCommandID
    ensures Ghost.Rejection(a.g, Admin.EnvFor(a.g.ghostID, a.issued + 1, Admin.FromWire(c))).Some?
  {
    hide Admin.InOrder, TrimLeft, TrimRight, Trimmed, Ghost.Rejection, Client.CommandOf, Client.RequestOf;
    Client.CleanTravelsAsIs(c);
    TrimmedIsFixed(c.commandID);
    Admin.RejectedEnvIff(a, Admin.FromWire(c));
  }

  lemma LockGivenBack(s: Stores, key: bytes, now: u64)
    requires var b := Begin(s, key, now).1; b.Dispatch? && (b.next.blocking ==> b.next.seedKey !in s.seedLocks)
    ensures ReleaseAfterError(Begin(s, key, now).0, key, Begin(s, key, now).1.next) == s
  {
    hide NextPending, BlockedReport, SettledReport;
    var (s1, b) := Begin(s, key, now);
    if b.next.blocking {
      assert s1.seedLocks - {b.next.seedKey} == s.seedLocks;
    }
  }
}
