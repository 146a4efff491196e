/** internal/mirage/orchestration.go: desired and observed state, seed locks, the reconcile loop.
    The functions say what each mutex section does to the stores; the class below is the code. */
module Orchestration {
  import opened Bytes
  import opened Errors
  import opened Session
  import opened Framing
  import opened Planning

  const IN_PROGRESS: bytes := Ascii("in_progress")
  const COMPLETE: bytes := Ascii("complete")
  const SATISFIED: bytes := Ascii("satisfied")
  const FAILED: bytes := Ascii("failed")
  const OUTCOME_SUCCESS: bytes := Ascii("success")
  const OUTCOME_ERROR: bytes := Ascii("error")

  datatype DesiredIntent = DesiredIntent(issue: IssueEnv, commands: seq<PlannedCommand>)
  datatype ObservedIntent = ObservedIntent(events: seq<Event>, reports: seq<Report>, byCommandID: map<bytes, Event>)
  datatype SeedLock = SeedLock(intentID: bytes, commandID: bytes)

  /** The orchestrator's stores. `executors` holds the ghost ids that have an executor bound. */
  datatype Stores = Stores(desired: map<bytes, DesiredIntent>, observed: map<bytes, ObservedIntent>,
                           executors: set<bytes>, seedLocks: map<bytes, SeedLock>)

  const EMPTY: Stores := Stores(map[], map[], {}, map[])
  const NOTHING_OBSERVED: ObservedIntent := ObservedIntent([], [], map[])

  // ---------------------------------------------------------------- progress

  /** The observed state of an intent; a missing entry reads as an empty one. */
  function ObservedOf(s: Stores, key: bytes): ObservedIntent
  {
    if key in s.observed then s.observed[key] else NOTHING_OBSERVED
  }

  /** Index of the first command at or after `i` with no observed event. */
  function NextIndex(commands: seq<PlannedCommand>, seen: map<bytes, Event>, i: nat): (r: Option<nat>)
    requires i <= |commands|
    ensures r.None? <==> forall j :: i <= j < |commands| ==> commands[j].command.commandID in seen
    ensures r.Some? ==> i <= r.value < |commands| && commands[r.value].command.commandID !in seen
    ensures r.Some? ==> forall j :: i <= j < r.value ==> commands[j].command.commandID in seen
    decreases |commands| - i
  {
    if i == |commands| then None
    else if commands[i].command.commandID !in seen then Some(i)
    else NextIndex(commands, seen, i + 1)
  }

  function NextPending(commands: seq<PlannedCommand>, seen: map<bytes, Event>): Option<PlannedCommand>
  {
    match NextIndex(commands, seen, 0) case None => None case Some(i) => Some(commands[i])
  }

  function PendingCount(commands: seq<PlannedCommand>, seen: map<bytes, Event>): nat
  {
    if commands == [] then 0
    else
      var n := |commands| - 1;
      PendingCount(commands[..n], seen) + if commands[n].command.commandID in seen then 0 else 1
  }

  // ---------------------------------------------------------------- reports

  function ProgressSummary(id: bytes, done: nat, total: nat, ghostID: bytes): bytes
  {
    Ascii("intent ") + id + Ascii(" progress ") + Decimal(done) + Ascii("/") + Decimal(total) + Ascii(" on ") + ghostID
  }

  /** The report for event `e` when `before` commands were observed before it. */
  function ReportFor(d: DesiredIntent, before: nat, e: Event, now: u64): Report
  {
    var id := d.issue.intentID;
    if e.outcome == OUTCOME_ERROR then
      Report(id, COMPLETE, Ascii("intent ") + id + Ascii(" failed on ") + e.ghostID, FAILED,
             e.commandID, [], e.eventID, e.outcome, now)
    else if before + 1 >= |d.commands| then
      Report(id, COMPLETE, Ascii("intent ") + id + Ascii(" satisfied on ") + e.ghostID, SATISFIED,
             e.commandID, [], e.eventID, e.outcome, now)
    else
      Report(id, IN_PROGRESS, ProgressSummary(id, before + 1, |d.commands|, e.ghostID), IN_PROGRESS,
             e.commandID, [], e.eventID, e.outcome, now)
  }

  function BlockedReport(d: DesiredIntent, next: PlannedCommand, lock: SeedLock, now: u64): Report
  {
    Report(d.issue.intentID, IN_PROGRESS,
           Ascii("intent ") + d.issue.intentID + Ascii(" waiting on seed lock ") + next.seedKey
           + Ascii(" held by ") + lock.intentID + Ascii("/") + lock.commandID,
           IN_PROGRESS, next.command.commandID, [], [], OUTCOME_SUCCESS, now)
  }

  /** The latest report of a settled intent, or a synthesised one when there is none. */
  function SettledReport(d: DesiredIntent, o: ObservedIntent, now: u64): Report
  {
    if o.reports != [] then o.reports[|o.reports| - 1]
    else Report(d.issue.intentID, COMPLETE, Ascii("intent ") + d.issue.intentID + Ascii(" has no command plan"),
                SATISFIED, [], [], [], [], now)
  }

  // ---------------------------------------------------------------- envelopes through the wire

  function EventProblemOnWire(e: Event): Option<Error>
  {
    if EventProblem(e).Some? then EventProblem(e)
    else if |Tlv.FieldsBytes(EventFields(e))| > MAX_PAYLOAD then Some(PayloadTooLarge)
    else None
  }

  function ReportProblemOnWire(r: Report): Option<Error>
  {
    if ReportProblem(r).Some? then ReportProblem(r)
    else if |Tlv.FieldsBytes(ReportFields(r))| > MAX_PAYLOAD then Some(PayloadTooLarge)
    else None
  }

  function CommandProblemOnWire(codec: ArgsCodec, c: Command): Option<Error>
  {
    if CommandProblem(c).Some? then CommandProblem(c)
    else if |Tlv.FieldsBytes(CommandFields(codec, c))| > MAX_PAYLOAD then Some(PayloadTooLarge)
    else None
  }

  /** The report an event leads to, or why the event or its report cannot travel. */
  function IngestReport(d: DesiredIntent, o: ObservedIntent, e: Event, now: u64): Result<Report>
  {
    if EventProblemOnWire(e).Some? then Err(EventProblemOnWire(e).value)
    else
      var report := ReportFor(d, |o.byCommandID|, e, now);
      if ReportProblemOnWire(report).Some? then Err(ReportProblemOnWire(report).value)
      else Ok(TrimmedReport(report))
  }

  function Recorded(o: ObservedIntent, e: Event, r: Report): ObservedIntent
  {
    ObservedIntent(o.events + [e], o.reports + [r], o.byCommandID[e.commandID := e])
  }

  // ---------------------------------------------------------------- the steps

  function Submit(s: Stores, issue: IssueEnv, now: u64): (Stores, Option<Error>)
  {
    if !ValidIssue(issue) then (s, Some(InvalidIssue))
    else
      var stamped := if issue.timestampMS == 0 then issue.(timestampMS := now) else issue;
      match PlanOf(stamped)
      case Err(e) => (s, Some(e))
      case Ok(commands) =>
        (s.(desired := s.desired[issue.intentID := DesiredIntent(stamped, commands)],
            observed := s.observed - {issue.intentID}), None)
  }

  function RegisterGhost(s: Stores, ghostID: bytes): (Stores, Option<Error>)
  {
    if Blank(ghostID) then (s, Some(TargetGhostRequired))
    else (s.(executors := s.executors + {TrimSpace(ghostID)}), None)
  }

  /** How the first mutex section of ReconcileOnce ends. */
  datatype Begun =
    | Missing
    | Settled(settled: Report)
    | Blocked(blocked: Report)
    | Unbound
    | Dispatch(plan: DesiredIntent, next: PlannedCommand)

  function WithLock(s: Stores, key: bytes, next: PlannedCommand): Stores
  {
    if next.blocking && next.seedKey !in s.seedLocks then
      s.(seedLocks := s.seedLocks[next.seedKey := SeedLock(key, next.command.commandID)])
    else s
  }

  /** First mutex section: pick the next pending command and take its seed lock. */
  function Begin(s: Stores, key: bytes, now: u64): (Stores, Begun)
  {
    if key !in s.desired then (s, Missing)
    else
      var d, o := s.desired[key], ObservedOf(s, key);
      match NextPending(d.commands, o.byCommandID)
      case None => (s, Settled(SettledReport(d, o, now)))
      case Some(next) =>
        if next.blocking && next.seedKey in s.seedLocks
           && s.seedLocks[next.seedKey] != SeedLock(key, next.command.commandID) then
          var report := BlockedReport(d, next, s.seedLocks[next.seedKey], now);
          (s.(observed := s.observed[key := o.(reports := o.reports + [report])]), Blocked(report))
        else
          (WithLock(s, key, next), if next.command.ghostID in s.executors then Dispatch(d, next) else Unbound)
  }

  function Unlocked(s: Stores, seedKey: bytes): Stores { s.(seedLocks := s.seedLocks - {seedKey}) }

  /** Second mutex section: record the event, drop the lock without looking at its owner. On an error the
      observed entry exists and nothing else has changed. */
  function Finish(s: Stores, key: bytes, d: DesiredIntent, next: PlannedCommand, e: Event, now: u64): (Stores, Result<Report>)
  {
    var o := ObservedOf(s, key);
    match IngestReport(d, o, e, now)
    case Err(x) => (s.(observed := s.observed[key := o]), Err(x))
    case Ok(report) =>
      var s1 := s.(observed := s.observed[key := Recorded(o, e, report)]);
      (if next.blocking then Unlocked(s1, next.seedKey) else s1, Ok(report))
  }

  /** releaseSeedLock: only the owner's lock is dropped. */
  function Release(s: Stores, seedKey: bytes, owner: SeedLock): Stores
  {
    if seedKey in s.seedLocks && s.seedLocks[seedKey] == owner then Unlocked(s, seedKey) else s
  }

  function ReleaseAfterError(s: Stores, key: bytes, next: PlannedCommand): Stores
  {
    if next.blocking then Release(s, next.seedKey, SeedLock(key, next.command.commandID)) else s
  }

  /** What an executor makes of the one command a reconcile pass hands it. */
  type Executor = Command -> Result<Event>

  /** ReconcileOnce with nothing in between its sections. */
  function Reconcile(s: Stores, codec: ArgsCodec, intentID: bytes, execute: Executor, now: u64): (Stores, Result<Report>)
  {
    var key := TrimSpace(intentID);
    var (s1, begun) := Begin(s, key, now);
    match begun
    case Missing => (s1, Err(IntentNotFound))
    case Settled(r) => (s1, Ok(r))
    case Blocked(r) => (s1, Ok(r))
    case Unbound => (s1, Err(NoExecutor))
    case Dispatch(d, next) =>
      if CommandProblemOnWire(codec, next.command).Some? then
        (ReleaseAfterError(s1, key, next), Err(CommandProblemOnWire(codec, next.command).value))
      else
        match execute(next.command)
        case Err(x) => (ReleaseAfterError(s1, key, next), Err(x))
        case Ok(e) =>
          var (s2, r) := Finish(s1, key, d, next, e, now);
          (if r.Err? then ReleaseAfterError(s2, key, next) else s2, r)
  }

  datatype Ingested = Unmatched | Matched(report: Report) | Failed(error: Error)

  /** `owner` is an intent and plan entry that carries the command id. */
  predicate Owns(s: Stores, intentID: bytes, p: PlannedCommand, commandID: bytes)
  {
    intentID in s.desired && p in s.desired[intentID].commands && p.command.commandID == commandID
  }

  /** A right answer of the lookup over the unordered desired map. */
  ghost predicate OwnerFound(s: Stores, commandID: bytes, owner: Option<(bytes, PlannedCommand)>)
  {
    match owner
    case Some(o) => Owns(s, o.0, o.1, commandID)
    case None => forall id, p :: !Owns(s, id, p, commandID)
  }

  /** What an event does to the observed state of the intent that owns its command. */
  function Absorb(d: DesiredIntent, o: ObservedIntent, e: Event, now: u64): (ObservedIntent, Ingested)
  {
    if e.commandID in o.byCommandID then (o, Matched(SettledReport(d, o, now)))
    else
      match IngestReport(d, o, e, now)
      case Err(x) => (o, Failed(x))
      case Ok(report) => (Recorded(o, e, report), Matched(report))
  }

  /** IngestObservedEvent, given what the lookup found. The lookup trims the command id, the stores do not.
      A newly recorded event drops the lock of its blocking command, without looking at the lock's owner. */
  function Ingest(s: Stores, owner: Option<(bytes, PlannedCommand)>, e: Event, now: u64): (Stores, Ingested)
    requires owner.Some? ==> owner.value.0 in s.desired
  {
    match owner
    case None => (s, Unmatched)
    case Some((key, p)) =>
      var o := ObservedOf(s, key);
      var (o', r) := Absorb(s.desired[key], o, e, now);
      var s' := s.(observed := s.observed[key := o']);
      (if p.blocking && r.Matched? && e.commandID !in o.byCommandID then Unlocked(s', p.seedKey) else s', r)
  }

  // ---------------------------------------------------------------- the code

  method NextPendingCommand(commands: seq<PlannedCommand>, observed: Option<ObservedIntent>) returns (r: Option<PlannedCommand>)
    ensures r == NextPending(commands, if observed.Some? then observed.value.byCommandID else map[])
  {
    if observed.None? {
      if |commands| == 0 { return None; }
      return Some(commands[0]);
    }
    for i := 0 to |commands|
      invariant NextIndex(commands, observed.value.byCommandID, 0) == NextIndex(commands, observed.value.byCommandID, i)
    {
      if commands[i].command.commandID !in observed.value.byCommandID { return Some(commands[i]); }
    }
    return None;
  }

  method PendingCommandCount(commands: seq<PlannedCommand>, seen: map<bytes, Event>) returns (out: nat)
    ensures out == PendingCount(commands, seen)
  {
    out := 0;
    for i := 0 to |commands|
      invariant out == PendingCount(commands[..i], seen)
    {
      assert commands[..i + 1][..i] == commands[..i];
      if commands[i].command.commandID !in seen { out := out + 1; }
    }
    assert commands[..|commands|] == commands;
  }

  datatype IntentSnapshot = IntentSnapshot(desired: DesiredIntent, observed: Option<ObservedIntent>, pendingCount: nat)

  function Snapshot(s: Stores, intentID: bytes): Option<IntentSnapshot>
  {
    var key := TrimSpace(intentID);
    if key !in s.desired then None
    else if key !in s.observed then Some(IntentSnapshot(s.desired[key], None, |s.desired[key].commands|))
    else Some(IntentSnapshot(s.desired[key], Some(s.observed[key]),
                             PendingCount(s.desired[key].commands, s.observed[key].byCommandID)))
  }

  class Orchestrator {
    const codec: ArgsCodec
    var desired: map<bytes, DesiredIntent>
    var observed: map<bytes, ObservedIntent>
    var executors: set<bytes>
    var seedLocks: map<bytes, SeedLock>
    /** Numbers outgoing frames; wraps like an atomic uint64. */
    var sequence: u64

    ghost function State(): Stores
      reads this
    {
      Stores(desired, observed, executors, seedLocks)
    }

    constructor (codec: ArgsCodec)
      ensures State() == EMPTY && this.codec == codec
    {
      this.codec := codec;
      desired, observed, executors, seedLocks, sequence := map[], map[], {}, map[], 0;
    }

    method RegisterExecutor(ghostID: bytes) returns (problem: Option<Error>)
      modifies this
      ensures (State(), problem) == RegisterGhost(old(State()), ghostID)
    {
      var key := TrimSpace(ghostID);
      if key == [] { return Some(TargetGhostRequired); }
      executors := executors + {key};
      return None;
    }

    method SubmitIssue(issue: IssueEnv, now: u64) returns (problem: Option<Error>)
      modifies this
      ensures (State(), problem) == Submit(old(State()), issue, now)
    {
      hide PlanOf;
      if !ValidIssue(issue) { return Some(InvalidIssue); }
      var stamped := issue;
      if stamped.timestampMS == 0 { stamped := stamped.(timestampMS := now); }
      var commands := NormalizeIssueToCommands(stamped);
      if commands.Err? { return Some(commands.error); }
      desired := desired[issue.intentID := DesiredIntent(stamped, commands.value)];
      observed := observed - {issue.intentID};
      return None;
    }

    method SnapshotIntent(intentID: bytes) returns (r: Option<IntentSnapshot>)
      ensures r == Snapshot(State(), intentID)
    {
      var key := TrimSpace(intentID);
      if key !in desired { return None; }
      if key !in observed { return Some(IntentSnapshot(desired[key], None, |desired[key].commands|)); }
      var pending := PendingCommandCount(desired[key].commands, observed[key].byCommandID);
      return Some(IntentSnapshot(desired[key], Some(observed[key]), pending));
    }

    method NextSequence() returns (id: u64)
      modifies this`sequence
    {
      sequence := NextU64(sequence);
      id := sequence;
    }

    /** Round-trips a command through protocol framing. */
    method DispatchCommandEnvelope(command: Command) returns (r: Result<Command>)
      requires codec.Exact()
      modifies this`sequence
      ensures r == match CommandProblemOnWire(codec, command) case Some(e) => Err(e) case None => Ok(command)
    {
      hide Written, Read, Encoded, Decoded, CommandFields;
      var id := NextSequence();
      WireTrip(codec, id, CommandEnvelope(command));
      var payload := EncodeCommandFrame(codec, id, command);
      if payload.Err? { return Err(payload.error); }
      var back := ReadAndDecode(codec, CommandKind, payload.value);
      return Ok(back.value.command);
    }

    /** Ingests a framed event and emits a framed report. */
    method IngestEventEnvelopeAndBuildReport(d: DesiredIntent, o: ObservedIntent, event: Event, now: u64)
      returns (r: Result<(Report, Event)>)
      requires codec.Exact()
      modifies this`sequence
      ensures r == match IngestReport(d, o, event, now) case Err(x) => Err(x) case Ok(report) => Ok((report, event))
    {
      hide Written, Read, Encoded, Decoded, EventFields, ReportFields, ReportFor;
      var id := NextSequence();
      WireTrip(codec, id, EventEnvelope(event));
      var payload := EncodeEventFrame(id, event);
      assert payload == Encoded(codec, id, EventEnvelope(event));
      if payload.Err? { return Err(payload.error); }
      var ingested := ReadAndDecode(codec, EventKind, payload.value);
      var report := ReportFor(d, |o.byCommandID|, ingested.value.event, now);
      id := NextSequence();
      WireTrip(codec, id, ReportEnvelope(report));
      payload := EncodeReportFrame(id, report);
      assert payload == Encoded(codec, id, ReportEnvelope(report));
      if payload.Err? { return Err(payload.error); }
      var wire := ReadAndDecode(codec, ReportKind, payload.value);
      return Ok((wire.value.report, ingested.value.event));
    }

    method ReleaseSeedLock(seedKey: bytes, intentID: bytes, commandID: bytes)
      modifies this`seedLocks
      ensures State() == Release(old(State()), seedKey, SeedLock(intentID, commandID))
    {
      if seedKey !in seedLocks { return; }
      var lock := seedLocks[seedKey];
      if lock.intentID == intentID && lock.commandID == commandID {
        seedLocks := seedLocks - {seedKey};
      }
    }

    /** The first mutex section of ReconcileOnce. */
    method BeginReconcile(key: bytes, now: u64) returns (begun: Begun)
      modifies this`observed, this`seedLocks
      ensures (State(), begun) == Begin(old(State()), key, now)
    {
      if key !in desired { return Missing; }
      var d := desired[key];
      var o := if key in observed then Some(observed[key]) else None;
      var pending := NextPendingCommand(d.commands, o);
      var seen := if o.Some? then o.value else NOTHING_OBSERVED;
      if pending.None? { return Settled(SettledReport(d, seen, now)); }
      var next := pending.value;
      if next.blocking {
        if next.seedKey in seedLocks {
          var lock := seedLocks[next.seedKey];
          if lock.intentID != key || lock.commandID != next.command.commandID {
            var report := BlockedReport(d, next, lock, now);
            observed := observed[key := seen.(reports := seen.reports + [report])];
            return Blocked(report);
          }
        } else {
          seedLocks := seedLocks[next.seedKey := SeedLock(key, next.command.commandID)];
        }
      }
      if next.command.ghostID !in executors { return Unbound; }
      return Dispatch(d, next);
    }

    /** The second mutex section of ReconcileOnce. */
    method FinishReconcile(key: bytes, d: DesiredIntent, next: PlannedCommand, event: Event, now: u64)
      returns (r: Result<Report>)
      requires codec.Exact()
      modifies this`observed, this`seedLocks, this`sequence
      ensures (State(), r) == Finish(old(State()), key, d, next, event, now)
    {
      hide IngestReport;
      var o := if key in observed then observed[key] else NOTHING_OBSERVED;
      observed := observed[key := o];
      var ingested := IngestEventEnvelopeAndBuildReport(d, o, event, now);
      if ingested.Err? { return Err(ingested.error); }
      var (report, e) := ingested.value;
      observed := observed[key := ObservedIntent(o.events + [e], o.reports + [report], o.byCommandID[e.commandID := e])];
      if next.blocking { seedLocks := seedLocks - {next.seedKey}; }
      assert observed == old(observed)[key := Recorded(o, e, report)];
      return Ok(report);
    }

    method ReconcileOnce(intentID: bytes, execute: Executor, now: u64) returns (r: Result<Report>)
      requires codec.Exact()
      modifies this
      ensures (State(), r) == Reconcile(old(State()), codec, intentID, execute, now)
    {
      hide Begin, Finish, CommandProblemOnWire;
      var key := TrimSpace(intentID);
      var begun := BeginReconcile(key, now);
      match begun {
        case Missing => return Err(IntentNotFound);
        case Settled(report) => return Ok(report);
        case Blocked(report) => return Ok(report);
        case Unbound => return Err(NoExecutor);
        case Dispatch(d, next) =>
          var wire := DispatchCommandEnvelope(next.command);
          if wire.Err? {
            if next.blocking { ReleaseSeedLock(next.seedKey, key, next.command.commandID); }
            return Err(wire.error);
          }
          var event := execute(wire.value);
          if event.Err? {
            if next.blocking { ReleaseSeedLock(next.seedKey, key, next.command.commandID); }
            return Err(event.error);
          }
          r := FinishReconcile(key, d, next, event.value, now);
          if r.Err? && next.blocking { ReleaseSeedLock(next.seedKey, key, next.command.commandID); }
      }
    }

    /** The range over the desired map visits intents in no particular order. */
    method FindPlannedCommandByCommandID(commandID: bytes) returns (owner: Option<(bytes, PlannedCommand)>)
      ensures OwnerFound(State(), TrimSpace(commandID), owner)
    {
      var key := TrimSpace(commandID);
      var left := desired.Keys;
      while left != {}
        invariant left <= desired.Keys
        invariant forall id, p :: id !in left ==> !Owns(State(), id, p, key)
      {
        var intentID :| intentID in left;
        var commands := desired[intentID].commands;
        for i := 0 to |commands|
          invariant forall j :: 0 <= j < i ==> commands[j].command.commandID != key
        {
          if commands[i].command.commandID == key { return Some((intentID, commands[i])); }
        }
        left := left - {intentID};
      }
      return None;
    }

    method IngestObservedEvent(event: Event, now: u64) returns (r: Ingested)
      requires codec.Exact()
      modifies this
      ensures exists owner :: OwnerFound(old(State()), TrimSpace(event.commandID), owner)
                              && (State(), r) == Ingest(old(State()), owner, event, now)
    {
      hide IngestReport;
      var owner := FindPlannedCommandByCommandID(event.commandID);
      if owner.None? { return Unmatched; }
      var (key, plan) := owner.value;
      var d := desired[key];
      var o := if key in observed then observed[key] else NOTHING_OBSERVED;
      observed := observed[key := o];
      if event.commandID in o.byCommandID {
        return Matched(SettledReport(d, o, now));
      }
      var ingested := IngestEventEnvelopeAndBuildReport(d, o, event, now);
      if ingested.Err? { return Failed(ingested.error); }
      var (report, e) := ingested.value;
      observed := observed[key := ObservedIntent(o.events + [e], o.reports + [report], o.byCommandID[e.commandID := e])];
      if plan.blocking { seedLocks := seedLocks - {plan.seedKey}; }
      assert observed == old(observed)[key := Recorded(o, e, report)];
      return Matched(report);
    }
  }
}
