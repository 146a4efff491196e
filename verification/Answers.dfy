/** What the orchestrator's calls answer: reports that say satisfied only when nothing is pending, passes that are turned
    away, errors, snapshots. */
module Answers {
  import opened Bytes
  import opened Errors
  import opened Session
  import opened Planning
  import opened Orchestration
  import opened Accounting
  import opened Progress
  import Ghost
  import MirageServer

  function Left(s: Stores, key: bytes): nat
    requires key in s.desired
  {
    PendingCount(s.desired[key].commands, ObservedOf(s, key).byCommandID)
  }

  /** An answer about intent `key`, given in state `s`. */
  predicate Truthful(s: Stores, key: bytes, r: Report)
  {
    && key in s.desired && r.intentID == key
    && (r.completionState == SATISFIED ==> Left(s, key) == 0)
    && (Left(s, key) == 0 ==> r.phase == COMPLETE)
  }

  lemma LastIsTruthful(s: Stores, key: bytes)
    requires Accounted(s) && key in s.desired && ObservedOf(s, key).reports != []
    ensures Truthful(s, key, ObservedOf(s, key).reports[|ObservedOf(s, key).reports| - 1])
  {
    hide PlanShape, Consistent, NextPending, PendingCount;
    IntentInOrder(s, key);
    IssueIsKey(s, key);
  }

  lemma IssueIsKey(s: Stores, key: bytes)
    requires Accounted(s) && key in s.desired
    ensures s.desired[key].issue.intentID == key
  {
    hide PlanShape, Consistent, Concluded;
  }

  /** Whatever a pass reports is true of the stores it leaves: satisfied only when nothing is pending, and complete
      whenever nothing is. */
  lemma PassesTellTheTruth(codec: ArgsCodec, s: Stores, intentID: bytes, execute: Executor, now: u64)
    requires Accounted(s) && Echoes(execute) && Reconcile(s, codec, intentID, execute, now).1.Ok?
    ensures var (s', r) := Reconcile(s, codec, intentID, execute, now);
            && Truthful(s', TrimSpace(intentID), r.value)
            && ObservedOf(s', TrimSpace(intentID)).reports != []
            && r.value == ObservedOf(s', TrimSpace(intentID)).reports[|ObservedOf(s', TrimSpace(intentID)).reports| - 1]
  {
    hide Truthful, Accounted, CommandProblemOnWire, IngestReport, TrimSpace, NextPending, BlockedReport, SettledReport;
    var key := TrimSpace(intentID);
    ReconcileKeeps(codec, s, intentID, execute, now);
    if Begin(s, key, now).1.Settled? {
      SettledHasReport(s, key);
      assert SettledReport(s.desired[key], ObservedOf(s, key), now) == ObservedOf(s, key).reports[|ObservedOf(s, key).reports| - 1] by {
        LatestReport(s.desired[key], ObservedOf(s, key), now);
      }
    }
    LastIsTruthful(Reconcile(s, codec, intentID, execute, now).0, key);
  }

  lemma LatestReport(d: DesiredIntent, o: ObservedIntent, now: u64)
    requires o.reports != []
    ensures SettledReport(d, o, now) == o.reports[|o.reports| - 1]
  {
  }

  lemma SettledHasReport(s: Stores, key: bytes)
    requires Accounted(s) && key in s.desired
    requires NextPending(s.desired[key].commands, ObservedOf(s, key).byCommandID) == None
    ensures ObservedOf(s, key).reports != []
  {
    hide PlanShape, Consistent, NextPending, PendingCount;
    IntentInOrder(s, key);
  }

  lemma SeenHasReport(s: Stores, key: bytes, commandID: bytes)
    requires Accounted(s) && key in s.desired && commandID in ObservedOf(s, key).byCommandID
    ensures ObservedOf(s, key).reports != []
  {
    hide PlanShape, NextPending, PendingCount;
    IntentInOrder(s, key);
    assert |ObservedOf(s, key).byCommandID| > 0;
  }

  /** So is whatever ingest reports, for a repeated event too. */
  lemma IngestTellsTheTruth(s: Stores, owner: Option<(bytes, PlannedCommand)>, e: Event, now: u64)
    requires Accounted(s) && OwnerFound(s, e.commandID, owner) && Ingest(s, owner, e, now).1.Matched?
    ensures owner.Some? && owner.value.0 in s.desired
    ensures var (s', r) := Ingest(s, owner, e, now); Truthful(s', owner.value.0, r.report)
  {
    hide Truthful, Accounted, IngestReport, SettledReport;
    var key := owner.value.0;
    IngestKeeps(s, owner, e, now);
    var s' := Ingest(s, owner, e, now).0;
    if e.commandID in ObservedOf(s, key).byCommandID {
      SeenHasReport(s, key, e.commandID);
      LatestReport(s.desired[key], ObservedOf(s, key), now);
    }
    LastIsTruthful(s', key);
  }

  /** A pass over an intent whose next command is blocking under a lock another command holds: there is something
      pending, the answer says in progress and names intent and command, and only the answer is added to the stores. */
  lemma TurnedAway(codec: ArgsCodec, s: Stores, intentID: bytes, execute: Executor, now: u64, i: nat)
    requires Accounted(s) && TrimSpace(intentID) in s.desired
    requires var key := TrimSpace(intentID); var (commands, seen) := (s.desired[key].commands, ObservedOf(s, key).byCommandID);
             && i < |commands| && commands[i].command.commandID !in seen
             && (forall j :: 0 <= j < i ==> commands[j].command.commandID in seen)
             && commands[i].blocking && commands[i].seedKey in s.seedLocks
             && s.seedLocks[commands[i].seedKey] != SeedLock(key, commands[i].command.commandID)
    ensures var key := TrimSpace(intentID); var (s', r) := Reconcile(s, codec, intentID, execute, now);
            var (o, o') := (ObservedOf(s, key), ObservedOf(s', key));
            && r.Ok? && Left(s, key) > 0
            && r.value.phase == r.value.completionState == IN_PROGRESS
            && r.value.completionState != SATISFIED && r.value.completionState != FAILED && r.value.phase != COMPLETE
            && r.value.intentID == key && r.value.commandID == s.desired[key].commands[i].command.commandID
            && r.value.eventID == [] && r.value.outcome == OUTCOME_SUCCESS && r.value.timestampMS == now
            && s' == s.(observed := s'.observed) && s'.observed == s.observed[key := o']
            && o'.events == o.events && o'.byCommandID == o.byCommandID && o'.reports == o.reports + [r.value]
  {
    hide Accounted, BlockedReport, SettledReport, TrimSpace, PendingCount, CommandProblemOnWire, Finish;
    var key := TrimSpace(intentID);
    var (commands, seen) := (s.desired[key].commands, ObservedOf(s, key).byCommandID);
    FirstIsNext(commands, seen, i);
    BlockedSays(s, key, now);
    NonePendingIff(commands, seen);
  }

  lemma FirstIsNext(commands: seq<PlannedCommand>, seen: map<bytes, Event>, i: nat)
    requires i < |commands| && commands[i].command.commandID !in seen
    requires forall j :: 0 <= j < i ==> commands[j].command.commandID in seen
    ensures NextIndex(commands, seen, 0) == Some(i) && NextPending(commands, seen) == Some(commands[i])
  {
  }

  // ---------------------------------------------------------------- errors

  /** An intent that was never submitted. */
  lemma UnknownIntent(codec: ArgsCodec, s: Stores, intentID: bytes, execute: Executor, now: u64)
    requires TrimSpace(intentID) !in s.desired
    ensures Reconcile(s, codec, intentID, execute, now) == (s, Err(IntentNotFound))
  {
  }

  /** The next command can take its lock. */
  predicate Free(s: Stores, key: bytes, p: PlannedCommand)
  {
    p.blocking && p.seedKey in s.seedLocks ==> s.seedLocks[p.seedKey] == SeedLock(key, p.command.commandID)
  }

  /** The stores a pass leaves that fails after it has picked command `p`: nothing is recorded, other locks stay, and the
      command's own lock is free. */
  ghost predicate GivenUp(s: Stores, s': Stores, key: bytes, p: PlannedCommand)
  {
    && s'.desired == s.desired && s'.executors == s.executors
    && (forall id :: ObservedOf(s', id) == ObservedOf(s, id))
    && (forall k :: (k !in s'.seedLocks <==> (k !in s.seedLocks || (p.blocking && k == p.seedKey))))
    && (forall k :: k in s'.seedLocks ==> s'.seedLocks[k] == s.seedLocks[k])
  }

  /** How a pass that can pick its next command, step `i` of the plan, ends. Without an executor it keeps the lock; a
      command that cannot travel, an executor's error, and an event or report that cannot travel give it back. */
  lemma PassEnds(codec: ArgsCodec, s: Stores, intentID: bytes, execute: Executor, now: u64, i: nat)
    requires TrimSpace(intentID) in s.desired
    requires var key := TrimSpace(intentID); var (commands, seen) := (s.desired[key].commands, ObservedOf(s, key).byCommandID);
             && i < |commands| && commands[i].command.commandID !in seen
             && (forall j :: 0 <= j < i ==> commands[j].command.commandID in seen)
             && Free(s, key, commands[i])
    ensures var key := TrimSpace(intentID); var p := s.desired[key].commands[i]; var c := p.command;
            var (s', r) := Reconcile(s, codec, intentID, execute, now);
            if c.ghostID !in s.executors then
              && r == Err(NoExecutor) && s'.observed == s.observed
              && (p.blocking ==> p.seedKey in s'.seedLocks && s'.seedLocks[p.seedKey] == SeedLock(key, c.commandID))
            else if CommandProblemOnWire(codec, c).Some? then
              r == Err(CommandProblemOnWire(codec, c).value) && GivenUp(s, s', key, p)
            else
              match execute(c)
              case Err(x) => r == Err(x) && GivenUp(s, s', key, p)
              case Ok(e) =>
                match IngestReport(s.desired[key], ObservedOf(s, key), e, now)
                case Err(x) => r == Err(x) && GivenUp(s, s', key, p)
                case Ok(report) => r == Ok(report) && ObservedOf(s', key).events == ObservedOf(s, key).events + [e]
  {
    hide TrimSpace, IngestReport, CommandProblemOnWire, SettledReport, BlockedReport, NextPending;
    var key := TrimSpace(intentID);
    FirstIsNext(s.desired[key].commands, ObservedOf(s, key).byCommandID, i);
  }

  /** How ingest ends, for the owner the lookup finds: without one, for a command already observed, for an event that cannot
      be reported on, and for a new one, which is recorded with its report and frees the lock of its blocking command. */
  lemma IngestEnds(s: Stores, owner: Option<(bytes, PlannedCommand)>, e: Event, now: u64)
    requires Accounted(s) && OwnerFound(s, e.commandID, owner)
    ensures owner.Some? ==> owner.value.0 in s.desired
    ensures var (s', r) := Ingest(s, owner, e, now);
            && s'.desired == s.desired && s'.executors == s.executors
            && (owner == None ==> s' == s && r == Unmatched)
            && (owner.Some? ==>
                  var (key, p) := owner.value; var (o, o') := (ObservedOf(s, key), ObservedOf(s', key));
                  if e.commandID in o.byCommandID then
                    s' == s && o.reports != [] && r == Matched(o.reports[|o.reports| - 1])
                  else
                    match IngestReport(s.desired[key], o, e, now)
                    case Err(x) => r == Failed(x) && o' == o && s'.seedLocks == s.seedLocks
                    case Ok(report) =>
                      && r == Matched(report) && o'.events == o.events + [e] && o'.reports == o.reports + [report]
                      && o'.byCommandID == o.byCommandID[e.commandID := e]
                      && s'.seedLocks == if p.blocking then s.seedLocks - {p.seedKey} else s.seedLocks)
  {
    OwnerKnown(s, e.commandID, owner);
    hide Accounted, IngestReport, OwnerFound, Ingest, SettledReport;
    NoOwnerEnds(s, e, now);
    if owner.Some? {
      var (key, p) := owner.value;
      if e.commandID in ObservedOf(s, key).byCommandID {
        SeenHasReport(s, key, e.commandID);
        IngestDuplicate(s, owner, e, now);
        LatestReport(s.desired[key], ObservedOf(s, key), now);
      } else {
        NewEventEnds(s, key, p, e, now);
      }
    }
  }

  lemma NoOwnerEnds(s: Stores, e: Event, now: u64)
    ensures Ingest(s, None, e, now) == (s, Unmatched)
  {
  }

  lemma NewEventEnds(s: Stores, key: bytes, p: PlannedCommand, e: Event, now: u64)
    requires key in s.desired && e.commandID !in ObservedOf(s, key).byCommandID
    ensures var (s', r) := Ingest(s, Some((key, p)), e, now); var (o, o') := (ObservedOf(s, key), ObservedOf(s', key));
            && s'.desired == s.desired && s'.executors == s.executors
            && match IngestReport(s.desired[key], o, e, now)
               case Err(x) => r == Failed(x) && o' == o && s'.seedLocks == s.seedLocks
               case Ok(report) =>
                 && r == Matched(report) && o'.events == o.events + [e] && o'.reports == o.reports + [report]
                 && o'.byCommandID == o.byCommandID[e.commandID := e]
                 && s'.seedLocks == if p.blocking then s.seedLocks - {p.seedKey} else s.seedLocks
  {
    hide IngestReport, SettledReport;
  }

  // ---------------------------------------------------------------- snapshots

  /** A snapshot shows what is stored, and how many steps are left: those of the plan without an event. */
  lemma SnapshotExact(s: Stores, intentID: bytes)
    requires Accounted(s)
    ensures Snapshot(s, intentID).Some? <==> TrimSpace(intentID) in s.desired
    ensures Snapshot(s, intentID).Some? ==>
              var key := TrimSpace(intentID); var v := Snapshot(s, intentID).value;
              && v.desired == s.desired[key] && (v.observed.Some? <==> key in s.observed)
              && (if v.observed.Some? then v.observed.value else NOTHING_OBSERVED) == ObservedOf(s, key)
              && v.pendingCount + |ObservedOf(s, key).events| == |s.desired[key].commands|
              && (v.pendingCount == 0 <==> forall p :: p in s.desired[key].commands ==>
                                             p.command.commandID in ObservedOf(s, key).byCommandID)
  {
    hide PlanShape, PlannedIDs, TrimSpace, Indexed, Concluded;
    var key := TrimSpace(intentID);
    if key in s.desired {
      IntentInOrder(s, key);
      var (commands, seen) := (s.desired[key].commands, ObservedOf(s, key).byCommandID);
      NonePendingIff(commands, seen);
      if key !in s.observed { assert |seen| == 0; }
      if forall p :: p in commands ==> p.command.commandID in seen {
        assert forall j :: 0 <= j < |commands| ==> commands[j] in commands;
      }
    }
  }

  /** From its submission an intent has as many steps left as its plan has, and every event recorded since takes off
      one. */
  lemma SnapshotCountsDown(codec: ArgsCodec, s: Stores, issue: IssueEnv, now: u64, calls: seq<Call>)
    requires Accounted(s) && Trimmed(issue.intentID) && Submit(s, issue, now).1 == None
    requires AllAdmissible(codec, Submit(s, issue, now).0, calls) && NoResubmission(calls, issue.intentID)
    ensures issue.intentID in Submit(s, issue, now).0.desired
    ensures var (key, s1) := (issue.intentID, Submit(s, issue, now).0); var v := Snapshot(Run(codec, s1, calls), key);
            && v.Some? && v.value.desired == s1.desired[key]
            && v.value.pendingCount + |RecordedBy(codec, s1, calls, key)| == |s1.desired[key].commands|
  {
    hide PlanOf, ValidIssue, Accounted, Run, AllAdmissible, RecordedBy, Snapshot, TrimSpace, Trimmed;
    var (key, s1) := (issue.intentID, Submit(s, issue, now).0);
    SubmitKeeps(s, issue, now);
    TrimmedIsFixed(key);
    RunRecords(codec, s1, calls, key);
    ExactAccounting(codec, s1, calls);
    SnapshotExact(Run(codec, s1, calls), key);
  }

  // ---------------------------------------------------------------- submissions

  predicate StepNamed(c: IssueCommand) { !Blank(c.ghostID) && !Blank(c.seedSelector) && !Blank(c.operation) }

  /** What an issue must have: its four texts; every step of its plan a ghost, a seed and an operation; without a plan a
      target that names a ghost. */
  predicate Complete(i: IssueEnv) { Written(i) && !Targetless(i) }

  predicate Written(i: IssueEnv)
  {
    && !Blank(i.intentID) && !Blank(i.actor) && !Blank(i.targetScope) && !Blank(i.objective)
    && forall k :: 0 <= k < |i.commandPlan| ==> StepNamed(i.commandPlan[k])
  }

  predicate Targetless(i: IssueEnv) { i.commandPlan == [] && NormalizeGhostID(i.targetScope) == [] }

  /** A submission is refused exactly when something is missing, and then leaves the stores alone. Otherwise it stores the
      issue, stamped when it bears no time, and touches no other intent. */
  lemma SubmitAcceptsIff(s: Stores, issue: IssueEnv, now: u64)
    ensures var (s', problem) := Submit(s, issue, now);
            && (problem == None <==> Complete(issue))
            && (problem != None ==> s' == s && problem == Some(if Written(issue) then TargetGhostRequired else InvalidIssue))
            && (problem == None ==>
                  && issue.intentID in s'.desired && issue.intentID !in s'.observed
                  && s'.desired[issue.intentID].issue
                     == issue.(timestampMS := if issue.timestampMS == 0 then now else issue.timestampMS)
                  && s'.executors == s.executors && s'.seedLocks == s.seedLocks
                  && forall id :: id != issue.intentID ==>
                       (id in s'.desired <==> id in s.desired) && (id in s.desired ==> s'.desired[id] == s.desired[id])
                       && ObservedOf(s', id) == ObservedOf(s, id))
  {
    hide NormalizeGhostID, CommandID, TrimSpace, SeedLockKey;
    var stamped := issue.(timestampMS := now);
    assert forall k :: 0 <= k < |issue.commandPlan| ==> stamped.commandPlan[k] == issue.commandPlan[k];
    assert forall k :: 0 <= k < |issue.commandPlan| ==> (ValidStep(issue.commandPlan[k]) <==> StepNamed(issue.commandPlan[k]));
  }

  /** Registering a ghost binds its trimmed id and nothing else; a blank id is refused. */
  lemma RegisterBinds(s: Stores, ghostID: bytes, g: bytes)
    ensures var (s', problem) := RegisterGhost(s, ghostID);
            && (problem == None <==> !Blank(ghostID)) && (problem != None ==> problem == Some(TargetGhostRequired))
            && (g in s'.executors <==> g in s.executors || (!Blank(ghostID) && g == TrimSpace(ghostID)))
            && s' == s.(executors := s'.executors)
  {
  }

  // ---------------------------------------------------------------- report texts

  /** What the report on a new event says in words: failed, satisfied, or how many of how many commands are done. */
  lemma ReportSays(d: DesiredIntent, o: ObservedIntent, e: Event, now: u64)
    requires DistinctIDs(d.commands) && Consistent(d, o)
    requires e.commandID in PlannedIDs(d.commands) && e.commandID !in o.byCommandID
    ensures var after := PendingCount(d.commands, o.byCommandID[e.commandID := e]);
            var id, r := d.issue.intentID, ReportFor(d, |o.byCommandID|, e, now);
            after <= |d.commands|
            && r.summary ==
               if e.outcome == OUTCOME_ERROR then Ascii("intent ") + id + Ascii(" failed on ") + e.ghostID
               else if after == 0 then Ascii("intent ") + id + Ascii(" satisfied on ") + e.ghostID
               else Ascii("intent ") + id + Ascii(" progress ") + Decimal(|d.commands| - after) + Ascii("/")
                    + Decimal(|d.commands|) + Ascii(" on ") + e.ghostID
  {
    hide PendingCount, PlannedIDs, DistinctIDs, Indexed, Decimal;
    PendingDrops(d.commands, o.byCommandID, e);
  }

  // ---------------------------------------------------------------- the server's history

  /** The server keeps every answer of a pass, and what it kept last is true of its stores. */
  lemma PassesAreKept(m: MirageServer.MirageState, codec: ArgsCodec, intentID: bytes, execute: Executor, now: u64)
    requires Accounted(m.loop) && Echoes(execute)
    ensures var (m', r) := MirageServer.Reconciled(m, codec, intentID, execute, now);
            && m'.loop == Reconcile(m.loop, codec, intentID, execute, now).0 && m'.registry == m.registry
            && (r.Err? ==> m'.reports == m.reports)
            && (r.Ok? ==> |m'.reports| == |m.reports| + 1 && m.reports <= m'.reports
                          && Truthful(m'.loop, TrimSpace(intentID), m'.reports[|m.reports|]))
  {
    hide Reconcile, Truthful, Accounted, TrimSpace;
    if Reconcile(m.loop, codec, intentID, execute, now).1.Ok? { PassesTellTheTruth(codec, m.loop, intentID, execute, now); }
  }

  /** And every report ingest answers with, of a repeated event too. */
  lemma EventsAreKept(m: MirageServer.MirageState, owner: Option<(bytes, PlannedCommand)>, e: Event, now: u64)
    requires Accounted(m.loop) && OwnerFound(m.loop, e.commandID, owner)
    ensures owner.Some? ==> owner.value.0 in m.loop.desired
    ensures var (m', r) := MirageServer.Observe(m, owner, e, now);
            && m'.loop == Ingest(m.loop, owner, e, now).0 && m'.registry == m.registry
            && (!r.Matched? ==> m'.reports == m.reports)
            && (r.Matched? ==> owner.Some? && |m'.reports| == |m.reports| + 1 && m.reports <= m'.reports
                               && Truthful(m'.loop, owner.value.0, m'.reports[|m.reports|]))
  {
    OwnerKnown(m.loop, e.commandID, owner);
    hide Ingest, Truthful, Accounted, OwnerFound;
    if Ingest(m.loop, owner, e, now).1.Matched? { IngestTellsTheTruth(m.loop, owner, e, now); }
  }

  // ---------------------------------------------------------------- words

  /** The words of reports and outcomes; ghosts and Mirage use the same ones. */
  lemma Words()
    ensures IN_PROGRESS == Ascii("in_progress") && COMPLETE == Ascii("complete")
    ensures SATISFIED == Ascii("satisfied") && FAILED == Ascii("failed")
    ensures OUTCOME_SUCCESS == Ghost.SUCCESS == Ascii("success") && OUTCOME_ERROR == Ghost.FAILURE == Ascii("error")
    ensures MirageServer.ACCEPTED == Ascii("accepted")
  {
  }

  /** The ids made from a command id, and the command id made from an intent and a step. */
  lemma IDForms(intentID: bytes, step: nat, commandID: bytes)
    ensures CommandID(intentID, step) == Ascii("cmd.") + SanitizeID(intentID) + Ascii(".") + Decimal(step)
    ensures Ghost.ExecutionID(commandID) == Ascii("exec.") + TrimSpace(commandID)
    ensures Ghost.EventID(commandID) == Ascii("evt.") + TrimSpace(commandID)
  {
    hide SanitizeID, TrimSpace, Decimal;
    assert Ascii(".") == [DOT];
    assert Ascii("cmd.") + SanitizeID(intentID) + [DOT] + Decimal(step) == Ascii("cmd.") + (SanitizeID(intentID) + [DOT] + Decimal(step));
  }
}
