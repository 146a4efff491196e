/** Runs of whole calls on the orchestrator: exact progress accounting, plan order, settling. */
module Accounting {
  import opened Bytes
  import opened Errors
  import Tlv
  import opened Session
  import opened Framing
  import opened Planning
  import opened Orchestration

  // ---------------------------------------------------------------- runs

  datatype Call =
    | SubmitCall(issue: IssueEnv, at: u64)
    | RegisterCall(ghostID: bytes)
    | ReconcileCall(intentID: bytes, execute: Executor, at: u64)
    | IngestCall(owner: Option<(bytes, PlannedCommand)>, event: Event, at: u64)   // with what the lookup finds

  function Apply(codec: ArgsCodec, s: Stores, call: Call): Stores
  {
    match call
    case SubmitCall(issue, now) => Submit(s, issue, now).0
    case RegisterCall(g) => RegisterGhost(s, g).0
    case ReconcileCall(id, execute, now) => Reconcile(s, codec, id, execute, now).0
    case IngestCall(owner, e, now) =>
      if owner.Some? && owner.value.0 !in s.desired then s else Ingest(s, owner, e, now).0
  }

  function Run(codec: ArgsCodec, s: Stores, calls: seq<Call>): Stores
    decreases |calls|
  {
    if calls == [] then s else Run(codec, Apply(codec, s, calls[0]), calls[1..])
  }

  ghost predicate Echoes(execute: Executor)
  {
    forall c: Command :: Trimmed(c.commandID) && execute(c).Ok? ==> execute(c).value.commandID == c.commandID
  }

  /** Executors echo the command id they were given, if it is trimmed; events that come in from outside carry
      trimmed command ids, and the lookup finds a right answer, any of them. */
  ghost predicate Admissible(s: Stores, call: Call)
  {
    match call
    case SubmitCall(_, _) => true
    case RegisterCall(_) => true
    case ReconcileCall(_, execute, _) => Echoes(execute)
    case IngestCall(owner, e, _) => Trimmed(e.commandID) && OwnerFound(s, e.commandID, owner)
  }

  ghost predicate AllAdmissible(codec: ArgsCodec, s: Stores, calls: seq<Call>)
    decreases |calls|
  {
    calls == [] || (Admissible(s, calls[0]) && AllAdmissible(codec, Apply(codec, s, calls[0]), calls[1..]))
  }

  // ---------------------------------------------------------------- counting

  function PlannedIDs(commands: seq<PlannedCommand>): set<bytes>
  {
    if commands == [] then {}
    else
      var n := |commands| - 1;
      PlannedIDs(commands[..n]) + {commands[n].command.commandID}
  }

  lemma {:induction false} IsPlanned(commands: seq<PlannedCommand>, i: nat)
    requires i < |commands|
    ensures commands[i].command.commandID in PlannedIDs(commands)
  {
    if i < |commands| - 1 {
      IsPlanned(commands[..|commands| - 1], i);
    }
  }

  lemma {:induction false} PlannedAt(commands: seq<PlannedCommand>, id: bytes) returns (i: nat)
    requires id in PlannedIDs(commands)
    ensures i < |commands| && commands[i].command.commandID == id
  {
    i := |commands| - 1;
    if commands[i].command.commandID != id {
      i := PlannedAt(commands[..|commands| - 1], id);
    }
  }

  predicate DistinctIDs(commands: seq<PlannedCommand>)
  {
    forall i, j :: 0 <= i < j < |commands| ==> commands[i].command.commandID != commands[j].command.commandID
  }

  /** Nothing is pending exactly when every command has been seen. */
  lemma {:induction false} NonePendingIff(commands: seq<PlannedCommand>, seen: map<bytes, Event>)
    ensures PendingCount(commands, seen) == 0 <==>
            forall i :: 0 <= i < |commands| ==> commands[i].command.commandID in seen
    ensures PendingCount(commands, seen) == 0 <==> NextPending(commands, seen) == None
    ensures seen == map[] ==> PendingCount(commands, seen) == |commands|
  {
    hide NextPending;
    if commands != [] {
      var n := |commands| - 1;
      NonePendingIff(commands[..n], seen);
      assert forall i :: 0 <= i < n ==> commands[i] == commands[..n][i];
    }
    NextPendingNone(commands, seen);
  }

  lemma NextPendingNone(commands: seq<PlannedCommand>, seen: map<bytes, Event>)
    ensures NextPending(commands, seen) == None <==>
            forall i :: 0 <= i < |commands| ==> commands[i].command.commandID in seen
  {
  }

  /** A new event takes one command off the pending ones if it is planned, and none otherwise. */
  lemma {:induction false} PendingDrops(commands: seq<PlannedCommand>, seen: map<bytes, Event>, e: Event)
    requires DistinctIDs(commands) && e.commandID !in seen
    ensures PendingCount(commands, seen)
            == PendingCount(commands, seen[e.commandID := e]) + if e.commandID in PlannedIDs(commands) then 1 else 0
  {
    if commands != [] {
      var n := |commands| - 1;
      PendingDrops(commands[..n], seen, e);
      if commands[n].command.commandID == e.commandID && e.commandID in PlannedIDs(commands[..n]) {
        var i := PlannedAt(commands[..n], e.commandID);
        assert false;
      }
    }
  }

  // ---------------------------------------------------------------- the invariant

  /** The index a list of events builds up. */
  function Indexed(events: seq<Event>): map<bytes, Event>
  {
    if events == [] then map[]
    else
      var n := |events| - 1;
      Indexed(events[..n])[events[n].commandID := events[n]]
  }

  /** Observed events are for planned commands, and the index holds each of them once. */
  predicate Consistent(d: DesiredIntent, o: ObservedIntent)
  {
    && o.byCommandID.Keys <= PlannedIDs(d.commands)
    && o.byCommandID == Indexed(o.events)
    && |o.byCommandID| == |o.events|
    && PendingCount(d.commands, o.byCommandID) + |o.byCommandID| == |d.commands|
  }

  /** Reports are about the intent. With nothing pending the last one says complete, and only then it says satisfied. */
  predicate Concluded(d: DesiredIntent, o: ObservedIntent)
  {
    && (NextPending(d.commands, o.byCommandID) == None ==>
          o.reports != [] && o.reports[|o.reports| - 1].phase == COMPLETE)
    && (o.events != [] ==> o.reports != [])
    && (o.reports != [] && o.reports[|o.reports| - 1].completionState == SATISFIED ==>
          NextPending(d.commands, o.byCommandID) == None)
    && (forall i :: 0 <= i < |o.reports| ==> o.reports[i].intentID == d.issue.intentID)
  }

  predicate PlansInOrder(s: Stores)
  {
    forall id :: id in s.desired ==>
      s.desired[id].issue.intentID == id && PlanShape(id, s.desired[id].commands)
  }

  predicate Accounted(s: Stores)
  {
    && PlansInOrder(s)
    && forall id :: id in s.observed ==>
         id in s.desired && Consistent(s.desired[id], s.observed[id]) && Concluded(s.desired[id], s.observed[id])
  }

  lemma ShapeDistinct(intentID: bytes, commands: seq<PlannedCommand>)
    requires PlanShape(intentID, commands)
    ensures DistinctIDs(commands)
  {
    forall i, j | 0 <= i < j < |commands| ensures commands[i].command.commandID != commands[j].command.commandID {
      if commands[i].command.commandID == commands[j].command.commandID { PlanIDsDistinct(intentID, commands, i, j); }
    }
  }

  lemma {:induction false} IndexedBound(events: seq<Event>)
    ensures |Indexed(events)| <= |events|
  {
    if events != [] {
      IndexedBound(events[..|events| - 1]);
    }
  }

  /** An index as large as its list holds every event of the list, each under its own id, once. */
  lemma {:induction false} OneEntryPerKey(events: seq<Event>)
    requires |Indexed(events)| == |events|
    ensures forall i :: 0 <= i < |events| ==>
              events[i].commandID in Indexed(events) && Indexed(events)[events[i].commandID] == events[i]
    ensures forall i, j :: 0 <= i < j < |events| ==> events[i].commandID != events[j].commandID
  {
    if events != [] {
      var n := |events| - 1;
      IndexedBound(events[..n]);
      assert events[n].commandID !in Indexed(events[..n]);
      OneEntryPerKey(events[..n]);
      forall i | 0 <= i < n
        ensures events[i].commandID in Indexed(events[..n]) && Indexed(events[..n])[events[i].commandID] == events[i]
      {
        assert events[..n][i] == events[i];
      }
    }
  }

  lemma IndexedSnoc(events: seq<Event>, e: Event)
    ensures Indexed(events + [e]) == Indexed(events)[e.commandID := e]
  {
    assert (events + [e])[..|events|] == events;
  }

  /** Recording an event keeps the accounts exactly when its command is planned and not yet observed. */
  lemma RecordConsistentIff(d: DesiredIntent, o: ObservedIntent, e: Event, r: Report)
    requires DistinctIDs(d.commands) && Consistent(d, o)
    ensures Consistent(d, Recorded(o, e, r)) <==> e.commandID in PlannedIDs(d.commands) && e.commandID !in o.byCommandID
  {
    hide PendingCount, PlannedIDs, DistinctIDs, Indexed;
    var o' := Recorded(o, e, r);
    IndexedSnoc(o.events, e);
    if e.commandID !in o.byCommandID {
      PendingDrops(d.commands, o.byCommandID, e);
      assert o'.byCommandID.Keys == o.byCommandID.Keys + {e.commandID};
    }
  }

  /** A report says satisfied exactly when its event closes the last pending command with a non-error outcome. */
  lemma Verdict(d: DesiredIntent, o: ObservedIntent, e: Event, now: u64)
    requires DistinctIDs(d.commands) && Consistent(d, o)
    requires e.commandID in PlannedIDs(d.commands) && e.commandID !in o.byCommandID
    ensures var r := ReportFor(d, |o.byCommandID|, e, now);
            var after := PendingCount(d.commands, o.byCommandID[e.commandID := e]);
            && PendingCount(d.commands, o.byCommandID) == after + 1
            && (r.completionState == SATISFIED <==> after == 0 && e.outcome != OUTCOME_ERROR)
            && (r.completionState == FAILED <==> e.outcome == OUTCOME_ERROR)
            && (r.phase == COMPLETE <==> after == 0 || e.outcome == OUTCOME_ERROR)
            && r.intentID == d.issue.intentID && r.commandID == e.commandID && r.eventID == e.eventID
            && r.outcome == e.outcome && r.timestampMS == now
  {
    hide PendingCount, PlannedIDs, DistinctIDs, Indexed;
    PendingDrops(d.commands, o.byCommandID, e);
    VerdictsDiffer();
  }

  lemma VerdictsDiffer()
    ensures |IN_PROGRESS| == 11 && |COMPLETE| == 8 && |SATISFIED| == 9 && |FAILED| == 6
  {
  }

  /** Recording the event of a planned, unseen command keeps an intent consistent and concluded. */
  lemma RecordKeepsIntent(d: DesiredIntent, o: ObservedIntent, e: Event, r: Report, now: u64)
    requires DistinctIDs(d.commands) && Consistent(d, o)
    requires e.commandID in PlannedIDs(d.commands) && e.commandID !in o.byCommandID
    requires Concluded(d, o) && r == TrimmedReport(ReportFor(d, |o.byCommandID|, e, now))
    ensures Consistent(d, Recorded(o, e, r)) && Concluded(d, Recorded(o, e, r))
  {
    hide ReportFor, PendingCount, PlannedIDs, NextPending, Consistent, DistinctIDs;
    RecordConsistentIff(d, o, e, r);
    Verdict(d, o, e, now);
    NonePendingIff(d.commands, Recorded(o, e, r).byCommandID);
  }

  /** Every report the orchestrator builds has what its envelope requires. */
  lemma ReportValid(d: DesiredIntent, before: nat, e: Event, now: u64)
    requires !Blank(d.issue.intentID)
    ensures ReportProblem(ReportFor(d, before, e, now)) == None
  {
    hide TrimSpace;
    PrintableStart(IN_PROGRESS);
    PrintableStart(COMPLETE);
    PrintableStart(SATISFIED);
    PrintableStart(FAILED);
    var r := ReportFor(d, before, e, now);
    assert r.summary[0] == Ascii("intent ")[0];
    PrintableStart(r.summary);
  }

  /** The report on an event that comes after `before` others is small enough for one frame. */
  predicate ReportFits(d: DesiredIntent, before: nat, e: Event, now: u64)
  {
    |Tlv.FieldsBytes(ReportFields(ReportFor(d, before, e, now)))| <= MAX_PAYLOAD
  }

  /** An event can be reported on exactly when it is itself a valid message and its report fits. */
  lemma ReportableIff(d: DesiredIntent, o: ObservedIntent, e: Event, now: u64)
    requires !Blank(d.issue.intentID)
    ensures IngestReport(d, o, e, now).Ok? <==> EventProblemOnWire(e) == None && ReportFits(d, |o.byCommandID|, e, now)
  {
    hide ReportFor, ReportProblem, EventProblemOnWire, ReportFields;
    ReportValid(d, |o.byCommandID|, e, now);
  }

  // ---------------------------------------------------------------- every call keeps it

  lemma SubmitKeeps(s: Stores, issue: IssueEnv, now: u64)
    requires Accounted(s)
    ensures Accounted(Submit(s, issue, now).0)
  {
    hide PlanOf, PlanShape, SanitizeID, ValidIssue, Consistent, Concluded;
    var stamped := if issue.timestampMS == 0 then issue.(timestampMS := now) else issue;
    if ValidIssue(issue) && PlanOf(stamped).Ok? {
      StampKeepsValid(issue, now);
      PlanHasShape(stamped);
    }
  }

  lemma StampKeepsValid(issue: IssueEnv, now: u64)
    requires ValidIssue(issue)
    ensures ValidIssue(issue.(timestampMS := now))
  {
  }

  /** The observed entry of one intent is replaced by one that is in order. */
  lemma ObservedReplaced(s: Stores, s': Stores, key: bytes, o: ObservedIntent)
    requires Accounted(s) && key in s.desired && s'.desired == s.desired && s'.observed == s.observed[key := o]
    requires Consistent(s.desired[key], o) && Concluded(s.desired[key], o)
    ensures Accounted(s')
  {
    hide PlanShape, SanitizeID, Consistent, Concluded;
  }

  lemma IntentInOrder(s: Stores, key: bytes)
    requires Accounted(s) && key in s.desired
    ensures var (d, o) := (s.desired[key], ObservedOf(s, key));
            && Consistent(d, o) && Concluded(d, o) && DistinctIDs(d.commands)
            && (PendingCount(d.commands, o.byCommandID) == 0 <==> NextPending(d.commands, o.byCommandID) == None)
  {
    hide StepShape, NextPending, PendingCount, PlannedIDs, DistinctIDs;
    var d, o := s.desired[key], ObservedOf(s, key);
    ShapeDistinct(key, d.commands);
    NonePendingIff(d.commands, o.byCommandID);
    assert PlanShape(key, d.commands);
  }

  /** A pass that is turned away says so: its intent is in progress, and it is about the first command not observed,
      whose lock another command holds. */
  lemma BlockedSays(s: Stores, key: bytes, now: u64)
    requires Accounted(s) && Begin(s, key, now).1.Blocked?
    ensures key in s.desired && NextIndex(s.desired[key].commands, ObservedOf(s, key).byCommandID, 0).Some?
    ensures var commands := s.desired[key].commands;
            var p := commands[NextIndex(commands, ObservedOf(s, key).byCommandID, 0).value];
            var r := Begin(s, key, now).1.blocked;
            && p.blocking && p.seedKey in s.seedLocks && s.seedLocks[p.seedKey] != SeedLock(key, p.command.commandID)
            && r.intentID == key == s.desired[key].issue.intentID
            && r.phase == r.completionState == IN_PROGRESS && r.commandID == p.command.commandID
            && r.phase != COMPLETE && r.completionState != SATISFIED && r.completionState != FAILED
            && r.executionID == [] && r.eventID == [] && r.outcome == OUTCOME_SUCCESS && r.timestampMS == now
            && var holder := s.seedLocks[p.seedKey];
               r.summary == Ascii("intent ") + key + Ascii(" waiting on seed lock ") + p.seedKey
                            + Ascii(" held by ") + holder.intentID + Ascii("/") + holder.commandID
  {
    hide PlanShape, Consistent, Concluded, SettledReport;
    VerdictsDiffer();
  }

  lemma BlockedConcluded(d: DesiredIntent, o: ObservedIntent, r: Report)
    requires Concluded(d, o) && NextPending(d.commands, o.byCommandID) != None
    requires r.intentID == d.issue.intentID && r.completionState != SATISFIED
    ensures Concluded(d, o.(reports := o.reports + [r]))
  {
    hide NextPending;
  }

  lemma BeginKeeps(s: Stores, key: bytes, now: u64)
    requires Accounted(s)
    ensures var s' := Begin(s, key, now).0;
            && Accounted(s') && s'.desired == s.desired
            && forall id :: (id != key || !Begin(s, key, now).1.Blocked?) ==> ObservedOf(s', id) == ObservedOf(s, id)
  {
    hide BlockedReport, SettledReport, NextPending, PlansInOrder, Indexed, PlannedIDs, PendingCount;
    var (s', b) := Begin(s, key, now);
    if b.Blocked? {
      BlockedSays(s, key, now);
      IntentInOrder(s, key);
      var o := ObservedOf(s, key);
      BlockedConcluded(s.desired[key], o, b.blocked);
      ObservedReplaced(s, s', key, o.(reports := o.reports + [b.blocked]));
    } else {
      LocksDoNotMatter(s, s');
    }
  }

  lemma PlannedIsTrimmed(intentID: bytes, commands: seq<PlannedCommand>, id: bytes)
    requires PlanShape(intentID, commands) && id in PlannedIDs(commands)
    ensures Trimmed(id)
  {
    hide CommandID;
    var i := PlannedAt(commands, id);
    assert StepShape(intentID, commands[i], i + 1);
    CommandIDTrimmed(intentID, i + 1);
  }

  lemma DispatchPicksPending(s: Stores, key: bytes, now: u64)
    requires Begin(s, key, now).1.Dispatch?
    ensures var (s', b) := Begin(s, key, now);
            && key in s.desired && b.plan == s.desired[key] && s'.observed == s.observed
            && b.next.command.commandID in PlannedIDs(b.plan.commands)
            && b.next.command.commandID !in ObservedOf(s, key).byCommandID
  {
    var i := NextIndex(s.desired[key].commands, ObservedOf(s, key).byCommandID, 0).value;
    IsPlanned(s.desired[key].commands, i);
  }

  /** An executor that echoes is right about whatever a pass hands it. */
  lemma DispatchEchoed(s: Stores, key: bytes, execute: Executor, now: u64)
    requires Accounted(s) && Echoes(execute) && Begin(s, key, now).1.Dispatch?
    ensures var c := Begin(s, key, now).1.next.command;
            execute(c).Ok? ==> execute(c).value.commandID == c.commandID
  {
    hide Begin, PlannedIDs, Consistent, Concluded, StepShape;
    DispatchPicksPending(s, key, now);
    PlannedIsTrimmed(key, s.desired[key].commands, Begin(s, key, now).1.next.command.commandID);
  }

  lemma FinishKeeps(s: Stores, key: bytes, next: PlannedCommand, e: Event, now: u64)
    requires Accounted(s) && key in s.desired
    requires e.commandID in PlannedIDs(s.desired[key].commands) && e.commandID !in ObservedOf(s, key).byCommandID
    ensures var (s', r) := Finish(s, key, s.desired[key], next, e, now);
            && Accounted(s') && s'.desired == s.desired
            && s'.observed == s.observed[key := if r.Ok? then Recorded(ObservedOf(s, key), e, r.value) else ObservedOf(s, key)]
            && (r.Ok? ==> r.value == TrimmedReport(ReportFor(s.desired[key], |ObservedOf(s, key).byCommandID|, e, now)))
  {
    hide PlanShape, SanitizeID, ReportFor, Consistent, Concluded, EventProblemOnWire, ReportProblemOnWire, PlannedIDs;
    IntentInOrder(s, key);
    var d, o := s.desired[key], ObservedOf(s, key);
    var (s', r) := Finish(s, key, d, next, e, now);
    if r.Ok? {
      RecordKeepsIntent(d, o, e, r.value, now);
      ObservedReplaced(s, s', key, Recorded(o, e, r.value));
    } else {
      ObservedReplaced(s, s', key, o);
    }
  }

  lemma LocksDoNotMatter(s: Stores, s': Stores)
    requires Accounted(s) && s'.desired == s.desired && s'.observed == s.observed
    ensures Accounted(s')
  {
    hide PlanShape, SanitizeID, Consistent, Concluded;
  }

  /** Reconcile keeps the accounts and touches no other intent. */
  lemma ReconcileKeeps(codec: ArgsCodec, s: Stores, intentID: bytes, execute: Executor, now: u64)
    requires Accounted(s) && Echoes(execute)
    ensures var s' := Reconcile(s, codec, intentID, execute, now).0;
            && Accounted(s') && s'.desired == s.desired
            && forall id :: id != TrimSpace(intentID) ==> ObservedOf(s', id) == ObservedOf(s, id)
  {
    hide Begin, Finish, Accounted, CommandProblemOnWire, ReportFor, PlannedIDs, PendingCount, TrimSpace;
    var key := TrimSpace(intentID);
    BeginKeeps(s, key, now);
    var (s1, begun) := Begin(s, key, now);
    if begun.Dispatch? {
      DispatchPicksPending(s, key, now);
      DispatchEchoed(s, key, execute, now);
      var d, next := begun.plan, begun.next;
      LocksDoNotMatter(s1, ReleaseAfterError(s1, key, next));
      if CommandProblemOnWire(codec, next.command).None? && execute(next.command).Ok? {
        var e := execute(next.command).value;
        FinishKeeps(s1, key, next, e, now);
        var (s2, r) := Finish(s1, key, d, next, e, now);
        LocksDoNotMatter(s2, ReleaseAfterError(s2, key, next));
      }
    }
  }

  /** A pass that dispatches and closes a command: it was the first one pending, exactly one command less is
      pending, and the report says satisfied exactly when that was the last one and its outcome is no error. */
  lemma ReconcileCloses(codec: ArgsCodec, s: Stores, intentID: bytes, execute: Executor, now: u64)
    requires Accounted(s) && Echoes(execute)
    requires Begin(s, TrimSpace(intentID), now).1.Dispatch? && Reconcile(s, codec, intentID, execute, now).1.Ok?
    ensures var key := TrimSpace(intentID);
            var (s', r) := Reconcile(s, codec, intentID, execute, now);
            var next := Begin(s, key, now).1.next;
            && key in s.desired && s'.desired == s.desired
            && var commands := s.desired[key].commands;
               var (seen, seen') := (ObservedOf(s, key).byCommandID, ObservedOf(s', key).byCommandID);
               && execute(next.command).Ok?
               && seen' == seen[next.command.commandID := execute(next.command).value]
               && PendingCount(commands, seen) == PendingCount(commands, seen') + 1
               && (r.value.completionState == SATISFIED <==>
                     PendingCount(commands, seen') == 0 && execute(next.command).value.outcome != OUTCOME_ERROR)
  {
    hide Begin, Finish, Accounted, CommandProblemOnWire, ReportFor, PlannedIDs, PendingCount, TrimSpace;
    var key := TrimSpace(intentID);
    BeginKeeps(s, key, now);
    DispatchPicksPending(s, key, now);
    DispatchEchoed(s, key, execute, now);
    var s1, next := Begin(s, key, now).0, Begin(s, key, now).1.next;
    var e := execute(next.command).value;
    FinishKeeps(s1, key, next, e, now);
    IntentInOrder(s, key);
    Verdict(s.desired[key], ObservedOf(s, key), e, now);
  }

  /** Different intents sanitise to different texts. */
  predicate DistinctIntents(s: Stores)
  {
    forall a, b :: a in s.desired && b in s.desired && SanitizeID(a) == SanitizeID(b) ==> a == b
  }

  /** The command id of a planned command determines its owner. */
  lemma OwnerUnique(s: Stores, commandID: bytes, id1: bytes, p1: PlannedCommand, id2: bytes, p2: PlannedCommand)
    requires PlansInOrder(s) && DistinctIntents(s) && Owns(s, id1, p1, commandID) && Owns(s, id2, p2, commandID)
    ensures id1 == id2 && p1 == p2
  {
    hide CommandID, SanitizeID;
    var i :| 0 <= i < |s.desired[id1].commands| && s.desired[id1].commands[i] == p1;
    var j :| 0 <= j < |s.desired[id2].commands| && s.desired[id2].commands[j] == p2;
    assert StepShape(id1, p1, i + 1) && StepShape(id2, p2, j + 1);
    CommandIDInjective(id1, i + 1, id2, j + 1);
  }

  /** So the lookup over the unordered desired map has one right answer, whatever order it visits intents in. */
  lemma LookupDetermined(s: Stores, commandID: bytes, a: Option<(bytes, PlannedCommand)>, b: Option<(bytes, PlannedCommand)>)
    requires PlansInOrder(s) && DistinctIntents(s) && OwnerFound(s, commandID, a) && OwnerFound(s, commandID, b)
    ensures a == b
  {
    hide PlansInOrder, DistinctIntents;
    if a.Some? && b.Some? {
      OwnerUnique(s, commandID, a.value.0, a.value.1, b.value.0, b.value.1);
    }
  }

  /** The lookup has one right answer for every command id exactly when different intents sanitise to different
      texts: every plan has a step 1, so two that do not share the id of theirs. */
  lemma LookupDeterminedIff(s: Stores)
    requires PlansInOrder(s)
    ensures (forall c: bytes, a, b :: OwnerFound(s, c, a) && OwnerFound(s, c, b) ==> a == b) <==> DistinctIntents(s)
  {
    hide PlansInOrder, SanitizeID, CommandID, OwnerFound;
    if DistinctIntents(s) {
      forall c: bytes, a, b | OwnerFound(s, c, a) && OwnerFound(s, c, b) ensures a == b { LookupDetermined(s, c, a, b); }
    }
    if forall c: bytes, a, b :: OwnerFound(s, c, a) && OwnerFound(s, c, b) ==> a == b {
      forall x, y | x in s.desired && y in s.desired && SanitizeID(x) == SanitizeID(y) ensures x == y {
        FirstStepOwned(s, x);
        FirstStepOwned(s, y);
        SameFirstID(x, y);
        assert OwnerFound(s, CommandID(x, 1), Some((x, s.desired[x].commands[0])));
      }
    }
  }

  lemma FirstStepOwned(s: Stores, x: bytes)
    requires PlansInOrder(s) && x in s.desired
    ensures s.desired[x].commands != [] && OwnerFound(s, CommandID(x, 1), Some((x, s.desired[x].commands[0])))
  {
    hide CommandID;
    assert PlanShape(x, s.desired[x].commands);
    assert StepShape(x, s.desired[x].commands[0], 1);
  }

  lemma SameFirstID(x: bytes, y: bytes)
    requires SanitizeID(x) == SanitizeID(y)
    ensures CommandID(x, 1) == CommandID(y, 1)
  {
  }

  /** What an event does to the intent that owns its command keeps that intent in order. */
  lemma AbsorbKeeps(d: DesiredIntent, o: ObservedIntent, e: Event, now: u64)
    requires DistinctIDs(d.commands) && Consistent(d, o) && Concluded(d, o) && e.commandID in PlannedIDs(d.commands)
    ensures var (o', r) := Absorb(d, o, e, now);
            && Consistent(d, o') && Concluded(d, o')
            && (r.Matched? ==> e.commandID in o'.byCommandID)
  {
    hide ReportFor, Consistent, Concluded, PlannedIDs, DistinctIDs, SettledReport, EventProblemOnWire, ReportProblemOnWire;
    var (o', r) := Absorb(d, o, e, now);
    if e.commandID !in o.byCommandID && r.Matched? {
      RecordKeepsIntent(d, o, e, r.report, now);
    }
  }

  lemma OwnedIsPlanned(s: Stores, key: bytes, p: PlannedCommand, commandID: bytes)
    requires Owns(s, key, p, commandID)
    ensures commandID in PlannedIDs(s.desired[key].commands)
  {
    var i :| 0 <= i < |s.desired[key].commands| && s.desired[key].commands[i] == p;
    IsPlanned(s.desired[key].commands, i);
  }

  lemma IngestKeeps(s: Stores, owner: Option<(bytes, PlannedCommand)>, e: Event, now: u64)
    requires Accounted(s) && OwnerFound(s, e.commandID, owner)
    ensures var (s', r) := Ingest(s, owner, e, now);
            && Accounted(s') && s'.desired == s.desired
            && (r.Matched? ==> owner.Some? && e.commandID in ObservedOf(s', owner.value.0).byCommandID)
            && (forall id :: owner.None? || id != owner.value.0 ==> ObservedOf(s', id) == ObservedOf(s, id))
  {
    hide Accounted, Consistent, Concluded, PlannedIDs, Absorb;
    if owner.Some? {
      var (key, p) := owner.value;
      OwnedIsPlanned(s, key, p, e.commandID);
      IntentInOrder(s, key);
      AbsorbKeeps(s.desired[key], ObservedOf(s, key), e, now);
      ObservedReplaced(s, Ingest(s, owner, e, now).0, key, Absorb(s.desired[key], ObservedOf(s, key), e, now).0);
    }
  }

  /** An event for a command already observed leaves observed state and locks alone. */
  lemma IngestDuplicate(s: Stores, owner: Option<(bytes, PlannedCommand)>, e: Event, now: u64)
    requires owner.Some? && owner.value.0 in s.desired && e.commandID in ObservedOf(s, owner.value.0).byCommandID
    ensures var (s', r) := Ingest(s, owner, e, now);
            && r == Matched(SettledReport(s.desired[owner.value.0], ObservedOf(s, owner.value.0), now))
            && s' == s.(observed := s.observed[owner.value.0 := ObservedOf(s, owner.value.0)])
            && s' == s
  {
    hide SettledReport, IngestReport;
    var key := owner.value.0;
    if key in s.observed {
      assert s.observed[key := s.observed[key]] == s.observed;
    }
  }

  /** A newly matched event is recorded with its report. */
  lemma FirstMatch(s: Stores, owner: Option<(bytes, PlannedCommand)>, e: Event, now: u64)
    requires owner.Some? && owner.value.0 in s.desired && Ingest(s, owner, e, now).1.Matched?
    requires e.commandID !in ObservedOf(s, owner.value.0).byCommandID
    ensures var (key, (s', r)) := (owner.value.0, Ingest(s, owner, e, now));
            && ObservedOf(s', key).byCommandID == ObservedOf(s, key).byCommandID[e.commandID := e]
            && r.report == TrimmedReport(ReportFor(s.desired[key], |ObservedOf(s, key).byCommandID|, e, now))
  {
    hide ReportFor, TrimmedReport, EventProblemOnWire, ReportProblemOnWire;
  }

  /** A newly matched event takes one command off the pending ones, and its report says satisfied exactly when that
      was the last one and its outcome is no error. */
  lemma IngestCloses(s: Stores, owner: Option<(bytes, PlannedCommand)>, e: Event, now: u64)
    requires Accounted(s) && OwnerFound(s, e.commandID, owner) && Ingest(s, owner, e, now).1.Matched?
    requires e.commandID !in ObservedOf(s, owner.value.0).byCommandID
    ensures var (key, (s', r)) := (owner.value.0, Ingest(s, owner, e, now));
            && key in s.desired
            && var commands := s.desired[key].commands;
               var (seen, seen') := (ObservedOf(s, key).byCommandID, ObservedOf(s', key).byCommandID);
               && seen' == seen[e.commandID := e]
               && PendingCount(commands, seen) == PendingCount(commands, seen') + 1
               && (r.report.completionState == SATISFIED <==>
                     PendingCount(commands, seen') == 0 && e.outcome != OUTCOME_ERROR)
               && (r.report.completionState == FAILED <==> e.outcome == OUTCOME_ERROR)
  {
    hide Accounted, ReportFor, PlannedIDs, PlanShape, TrimSpace, PendingCount, Consistent, Concluded, IngestReport;
    var (key, p) := owner.value;
    hide Ingest;
    FirstMatch(s, owner, e, now);
    OwnedIsPlanned(s, key, p, e.commandID);
    IntentInOrder(s, key);
    Verdict(s.desired[key], ObservedOf(s, key), e, now);
  }

  lemma ApplyKeeps(codec: ArgsCodec, s: Stores, call: Call)
    requires Accounted(s) && Admissible(s, call)
    ensures Accounted(Apply(codec, s, call))
  {
    hide Submit, Reconcile, Ingest, Accounted, OwnerFound, Echoes, TrimSpace;
    match call
    case SubmitCall(issue, now) => SubmitKeeps(s, issue, now);
    case RegisterCall(g) => LocksDoNotMatter(s, RegisterGhost(s, g).0);
    case ReconcileCall(id, execute, now) => ReconcileKeeps(codec, s, id, execute, now);
    case IngestCall(owner, e, now) =>
      OwnerKnown(s, e.commandID, owner);
      IngestKeeps(s, owner, e, now);
  }

  lemma OwnerKnown(s: Stores, commandID: bytes, owner: Option<(bytes, PlannedCommand)>)
    requires OwnerFound(s, commandID, owner)
    ensures owner.Some? ==> owner.value.0 in s.desired
  {
  }

  /** Over every run of whole calls the accounts are exact: the index holds only planned ids, the event list has
      one entry per key, and what is pending and what is observed add up to the plan. */
  lemma {:induction false} ExactAccounting(codec: ArgsCodec, s: Stores, calls: seq<Call>)
    requires Accounted(s) && AllAdmissible(codec, s, calls)
    ensures var s' := Run(codec, s, calls);
            && Accounted(s')
            && forall id :: id in s'.desired ==>
                 var (d, o) := (s'.desired[id], ObservedOf(s', id));
                 && o.byCommandID.Keys <= PlannedIDs(d.commands)
                 && o.byCommandID == Indexed(o.events) && |o.byCommandID| == |o.events|
                 && PendingCount(d.commands, o.byCommandID) + |o.byCommandID| == |d.commands|
    decreases |calls|
  {
    hide Apply, Admissible, PlansInOrder, PlannedIDs, PendingCount, Concluded, Indexed;
    if calls == [] {
      forall id | id in s.desired
        ensures var (d, o) := (s.desired[id], ObservedOf(s, id));
                Consistent(d, o) && PendingCount(d.commands, o.byCommandID) + |o.byCommandID| == |d.commands|
      {
        IntentInOrder(s, id);
      }
    } else {
      ApplyKeeps(codec, s, calls[0]);
      ExactAccounting(codec, Apply(codec, s, calls[0]), calls[1..]);
    }
  }

  lemma EmptyAccounted()
    ensures Accounted(EMPTY)
  {
  }

  /** From boot, over every run of whole calls: every intent's events are for different commands of its plan, and what
      is not among them is what is pending. */
  lemma AccountsFromBoot(codec: ArgsCodec, calls: seq<Call>, id: bytes)
    requires AllAdmissible(codec, EMPTY, calls) && id in Run(codec, EMPTY, calls).desired
    ensures var s' := Run(codec, EMPTY, calls); var (d, o) := (s'.desired[id], ObservedOf(s', id));
            && (forall i, j :: 0 <= i < j < |o.events| ==> o.events[i].commandID != o.events[j].commandID)
            && (forall i :: 0 <= i < |o.events| ==> o.events[i].commandID in PlannedIDs(d.commands))
            && PendingCount(d.commands, o.byCommandID) == |d.commands| - |o.events|
  {
    hide Run, Accounted, PlannedIDs, PendingCount, Indexed;
    EmptyAccounted();
    ExactAccounting(codec, EMPTY, calls);
    var o := ObservedOf(Run(codec, EMPTY, calls), id);
    OneEntryPerKey(o.events);
    forall i | 0 <= i < |o.events| ensures o.events[i].commandID in PlannedIDs(Run(codec, EMPTY, calls).desired[id].commands) {
      assert o.events[i].commandID in o.byCommandID.Keys;
    }
  }

  // ---------------------------------------------------------------- what breaks the accounts

  /** The lookup trims the command id and the stores do not: a newly recorded event keeps the accounts exactly
      when its command id came in trimmed. */
  lemma IngestKeepsIff(s: Stores, key: bytes, p: PlannedCommand, e: Event, now: u64)
    requires Accounted(s) && Owns(s, key, p, TrimSpace(e.commandID))
    requires e.commandID !in ObservedOf(s, key).byCommandID && Ingest(s, Some((key, p)), e, now).1.Matched?
    ensures Accounted(Ingest(s, Some((key, p)), e, now).0) <==> Trimmed(e.commandID)
  {
    hide Accounted, Consistent, IngestReport, PlannedIDs, PlanShape, TrimSpace;
    var d, o := s.desired[key], ObservedOf(s, key);
    var (s', r) := Ingest(s, Some((key, p)), e, now);
    if Trimmed(e.commandID) {
      TrimmedIsFixed(e.commandID);
      IngestKeeps(s, Some((key, p)), e, now);
    } else {
      IntentInOrder(s, key);
      ShapeOf(s, key);
      assert s'.observed[key] == Recorded(o, e, r.report);
      if Accounted(s') {
        IntentInOrder(s', key);
        RecordConsistentIff(d, o, e, r.report);
        PlannedIsTrimmed(key, d.commands, e.commandID);
      }
    }
  }

  lemma ShapeOf(s: Stores, key: bytes)
    requires Accounted(s) && key in s.desired
    ensures PlanShape(key, s.desired[key].commands)
  {
  }

  /** Intents `a/b` and `a.b`, whatever they are about: once both are submitted the lookup has two right answers for
      the id of their first commands, so which intent an event counts for depends on the order of a map. */
  lemma CollidingIntents(s: Stores, i: IssueEnv, j: IssueEnv, now: u64)
    requires PlansInOrder(s) && i.intentID == Ascii("a/b") && j.intentID == Ascii("a.b")
    requires Submit(s, i, now).1 == None && Submit(Submit(s, i, now).0, j, now).1 == None
    ensures var s' := Submit(Submit(s, i, now).0, j, now).0; var c := CommandID(i.intentID, 1);
            && PlansInOrder(s') && i.intentID != j.intentID && !DistinctIntents(s')
            && i.intentID in s'.desired && j.intentID in s'.desired
            && s'.desired[i.intentID].commands != [] && s'.desired[j.intentID].commands != []
            && OwnerFound(s', c, Some((i.intentID, s'.desired[i.intentID].commands[0])))
            && OwnerFound(s', c, Some((j.intentID, s'.desired[j.intentID].commands[0])))
  {
    hide PlansInOrder, PlanOf, ValidIssue, SanitizeID, CommandID, OwnerFound;
    SanitizedAlike();
    SubmitKeepsPlans(s, i, now);
    var s1 := Submit(s, i, now).0;
    SubmitKeepsPlans(s1, j, now);
    var s' := Submit(s1, j, now).0;
    FirstStepOwned(s', i.intentID);
    FirstStepOwned(s', j.intentID);
    SameFirstID(i.intentID, j.intentID);
  }

  lemma SanitizedAlike()
    ensures SanitizeID(Ascii("a/b")) == SanitizeID(Ascii("a.b")) && Ascii("a/b") != Ascii("a.b")
  {
    var x, y := Ascii("a/b"), Ascii("a.b");
    assert x[1] == 47 && y[1] == 46;
    assert Trimmed(x) && Trimmed(y);
  }

  lemma SubmitKeepsPlans(s: Stores, issue: IssueEnv, now: u64)
    requires PlansInOrder(s)
    ensures PlansInOrder(Submit(s, issue, now).0)
  {
    hide PlanOf, PlanShape, SanitizeID, ValidIssue;
    var stamped := if issue.timestampMS == 0 then issue.(timestampMS := now) else issue;
    if ValidIssue(issue) && PlanOf(stamped).Ok? {
      StampKeepsValid(issue, now);
      PlanHasShape(stamped);
    }
  }
}
