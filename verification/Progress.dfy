/** What runs of whole calls record for one intent: plan order, settling, repeated events. */
module Progress {
  import opened Bytes
  import opened Errors
  import opened Session
  import opened Planning
  import opened Orchestration
  import opened Accounting

  predicate Resubmits(call: Call, key: bytes) { call.SubmitCall? && call.issue.intentID == key }

  // ---------------------------------------------------------------- what a call records

  /** The event a call records for an intent, if it records one. */
  function NewEvent(codec: ArgsCodec, s: Stores, call: Call, key: bytes): Option<Event>
    requires key in s.desired
  {
    match call
    case SubmitCall(_, _) => None
    case RegisterCall(_) => None
    case ReconcileCall(id, execute, now) =>
      if TrimSpace(id) != key then None
      else
        (match Begin(s, key, now).1
         case Dispatch(d, next) =>
           var answer := execute(next.command);
           if CommandProblemOnWire(codec, next.command).None? && answer.Ok?
              && IngestReport(d, ObservedOf(s, key), answer.value, now).Ok?
           then Some(answer.value) else None
         case _ => None)
    case IngestCall(owner, e, now) =>
      if owner.Some? && owner.value.0 == key && e.commandID !in ObservedOf(s, key).byCommandID
         && IngestReport(s.desired[key], ObservedOf(s, key), e, now).Ok?
      then Some(e) else None
  }

  /** `o'` is `o` with the new event, if there is one. */
  predicate Records(o: ObservedIntent, o': ObservedIntent, e: Option<Event>)
  {
    match e
    case None => o'.events == o.events && o'.byCommandID == o.byCommandID
    case Some(x) => o'.events == o.events + [x] && o'.byCommandID == o.byCommandID[x.commandID := x]
  }

  lemma BeginRecordsNothing(s: Stores, key: bytes, now: u64, id: bytes)
    ensures var s' := Begin(s, key, now).0; s'.desired == s.desired && Records(ObservedOf(s, id), ObservedOf(s', id), None)
    ensures Begin(s, key, now).1.Dispatch? ==>
              key in s.desired && Begin(s, key, now).1.plan == s.desired[key] && Begin(s, key, now).0.observed == s.observed
  {
    hide NextPending, BlockedReport, SettledReport;
  }

  lemma FinishRecords(s: Stores, key: bytes, d: DesiredIntent, next: PlannedCommand, e: Event, now: u64, id: bytes)
    ensures var s' := Finish(s, key, d, next, e, now).0;
            && s'.desired == s.desired
            && Records(ObservedOf(s, id), ObservedOf(s', id),
                       if id == key && IngestReport(d, ObservedOf(s, key), e, now).Ok? then Some(e) else None)
  {
    hide IngestReport;
  }

  lemma ReleaseRecordsNothing(s: Stores, key: bytes, next: PlannedCommand)
    ensures ReleaseAfterError(s, key, next).observed == s.observed && ReleaseAfterError(s, key, next).desired == s.desired
  {
  }

  lemma ReconcileRecords(codec: ArgsCodec, s: Stores, intentID: bytes, execute: Executor, now: u64, id: bytes)
    requires id in s.desired
    ensures var s' := Reconcile(s, codec, intentID, execute, now).0;
            && s'.desired == s.desired
            && Records(ObservedOf(s, id), ObservedOf(s', id), NewEvent(codec, s, ReconcileCall(intentID, execute, now), id))
  {
    hide TrimSpace, Begin, Finish, IngestReport, CommandProblemOnWire, ReleaseAfterError;
    var key := TrimSpace(intentID);
    BeginRecordsNothing(s, key, now, id);
    var (s1, b) := Begin(s, key, now);
    if b.Dispatch? {
      ReleaseRecordsNothing(s1, key, b.next);
      var answer := execute(b.next.command);
      if answer.Ok? {
        FinishRecords(s1, key, b.plan, b.next, answer.value, now, id);
        ReleaseRecordsNothing(Finish(s1, key, b.plan, b.next, answer.value, now).0, key, b.next);
      }
    }
  }

  lemma IngestRecords(codec: ArgsCodec, s: Stores, owner: Option<(bytes, PlannedCommand)>, e: Event, now: u64, key: bytes)
    requires key in s.desired && (owner.Some? ==> owner.value.0 in s.desired)
    ensures var s' := Ingest(s, owner, e, now).0;
            && s'.desired == s.desired
            && Records(ObservedOf(s, key), ObservedOf(s', key), NewEvent(codec, s, IngestCall(owner, e, now), key))
  {
    hide IngestReport, SettledReport;
  }

  /** A call adds to an intent's observed state what NewEvent says, and nothing else, unless it submits the intent. */
  lemma CallRecords(codec: ArgsCodec, s: Stores, call: Call, key: bytes)
    requires key in s.desired && !Resubmits(call, key)
    ensures var s' := Apply(codec, s, call);
            && key in s'.desired && s'.desired[key] == s.desired[key]
            && Records(ObservedOf(s, key), ObservedOf(s', key), NewEvent(codec, s, call, key))
  {
    hide PlanOf, ValidIssue, Reconcile, Ingest, NewEvent, Records;
    match call
    case SubmitCall(issue, now) => OthersRecordNothing(codec, s, call, key);
    case RegisterCall(g) => OthersRecordNothing(codec, s, call, key);
    case ReconcileCall(id, execute, now) => ReconcileRecords(codec, s, id, execute, now, key);
    case IngestCall(owner, e, now) =>
      if owner.Some? && owner.value.0 !in s.desired { OthersRecordNothing(codec, s, call, key); }
      else { IngestRecords(codec, s, owner, e, now, key); }
  }

  lemma OthersRecordNothing(codec: ArgsCodec, s: Stores, call: Call, key: bytes)
    requires key in s.desired && !Resubmits(call, key) && !call.ReconcileCall?
    requires call.IngestCall? ==> call.owner.Some? && call.owner.value.0 !in s.desired
    ensures Records(ObservedOf(s, key), ObservedOf(Apply(codec, s, call), key), NewEvent(codec, s, call, key))
  {
    hide PlanOf, ValidIssue;
  }

  /** No call of the run submits the intent again. */
  predicate NoResubmission(calls: seq<Call>, key: bytes)
  {
    forall i :: 0 <= i < |calls| ==> !Resubmits(calls[i], key)
  }

  /** The events a run records for an intent, in order. */
  function RecordedBy(codec: ArgsCodec, s: Stores, calls: seq<Call>, key: bytes): seq<Event>
    requires key in s.desired && NoResubmission(calls, key)
    decreases |calls|
  {
    if calls == [] then []
    else
      CallRecords(codec, s, calls[0], key);
      var e := NewEvent(codec, s, calls[0], key);
      (if e.Some? then [e.value] else []) + RecordedBy(codec, Apply(codec, s, calls[0]), calls[1..], key)
  }

  /** Over every run in which the intent is not submitted again its plan stays and its events are only added to. */
  lemma {:induction false} RunRecords(codec: ArgsCodec, s: Stores, calls: seq<Call>, key: bytes)
    requires key in s.desired && NoResubmission(calls, key)
    ensures var s' := Run(codec, s, calls);
            && key in s'.desired && s'.desired[key] == s.desired[key]
            && ObservedOf(s', key).events == ObservedOf(s, key).events + RecordedBy(codec, s, calls, key)
            && ObservedOf(s, key).byCommandID.Keys <= ObservedOf(s', key).byCommandID.Keys
    decreases |calls|
  {
    hide Apply, NewEvent, Resubmits;
    if calls != [] {
      CallRecords(codec, s, calls[0], key);
      RunRecords(codec, Apply(codec, s, calls[0]), calls[1..], key);
    }
  }

  // ---------------------------------------------------------------- progress

  lemma {:induction false} PendingShrinks(commands: seq<PlannedCommand>, seen: map<bytes, Event>, seen': map<bytes, Event>)
    requires seen.Keys <= seen'.Keys
    ensures PendingCount(commands, seen') <= PendingCount(commands, seen)
  {
    if commands != [] {
      var id := commands[|commands| - 1].command.commandID;
      PendingShrinks(commands[..|commands| - 1], seen, seen');
      assert id in seen.Keys ==> id in seen'.Keys;
    }
  }

  /** What was observed stays observed, and the number of pending commands, the measure of the loop, never grows. */
  lemma ProgressIsKept(codec: ArgsCodec, s: Stores, calls: seq<Call>, key: bytes)
    requires key in s.desired && NoResubmission(calls, key)
    ensures var s' := Run(codec, s, calls);
            && key in s'.desired && s'.desired[key] == s.desired[key]
            && ObservedOf(s, key).byCommandID.Keys <= ObservedOf(s', key).byCommandID.Keys
            && PendingCount(s'.desired[key].commands, ObservedOf(s', key).byCommandID)
               <= PendingCount(s.desired[key].commands, ObservedOf(s, key).byCommandID)
  {
    hide Run, PendingCount, NoResubmission;
    RunRecords(codec, s, calls, key);
    PendingShrinks(s.desired[key].commands, ObservedOf(s, key).byCommandID, ObservedOf(Run(codec, s, calls), key).byCommandID);
  }

  // ---------------------------------------------------------------- plan order

  /** One of the first `k` events is for the command. */
  predicate Among(events: seq<Event>, k: nat, commandID: bytes)
    requires k <= |events|
  {
    exists m :: 0 <= m < k && events[m].commandID == commandID
  }

  lemma {:induction false} IndexedComes(events: seq<Event>, commandID: bytes) returns (k: nat)
    requires commandID in Indexed(events)
    ensures k < |events| && events[k].commandID == commandID && Indexed(events)[commandID] == events[k]
  {
    var n := |events| - 1;
    k := n;
    if events[n].commandID != commandID { k := IndexedComes(events[..n], commandID); }
  }

  /** The index knows exactly the commands the events are for. */
  lemma IndexedAmong(d: DesiredIntent, o: ObservedIntent, commandID: bytes)
    requires Consistent(d, o)
    ensures commandID in o.byCommandID <==> Among(o.events, |o.events|, commandID)
  {
    hide PlannedIDs, PendingCount, Indexed;
    OneEntryPerKey(o.events);
    if commandID in o.byCommandID {
      var k := IndexedComes(o.events, commandID);
    }
  }

  /** The events are, in order, for the first commands of the plan. */
  predicate InPlanOrder(d: DesiredIntent, o: ObservedIntent)
  {
    && |o.events| <= |d.commands|
    && forall i :: 0 <= i < |o.events| ==> o.events[i].commandID == d.commands[i].command.commandID
  }

  /** Then the first command pending is the one after them. */
  lemma NextInPlanOrder(d: DesiredIntent, o: ObservedIntent)
    requires Consistent(d, o) && DistinctIDs(d.commands) && InPlanOrder(d, o)
    ensures NextIndex(d.commands, o.byCommandID, 0) == if |o.events| < |d.commands| then Some(|o.events|) else None
  {
    hide Consistent;
    var n := |o.events|;
    forall i | 0 <= i < n ensures d.commands[i].command.commandID in o.byCommandID {
      IndexedAmong(d, o, d.commands[i].command.commandID);
      assert o.events[i].commandID == d.commands[i].command.commandID;
    }
    if n < |d.commands| {
      IndexedAmong(d, o, d.commands[n].command.commandID);
      assert forall m :: 0 <= m < n ==> o.events[m].commandID != d.commands[n].command.commandID;
    }
  }

  /** A pass records an event only for the first command pending. */
  lemma PassRecordsNext(codec: ArgsCodec, s: Stores, call: Call, key: bytes) returns (i: nat)
    requires Accounted(s) && Admissible(s, call) && key in s.desired && call.ReconcileCall?
    requires NewEvent(codec, s, call, key).Some?
    ensures var commands := s.desired[key].commands;
            && i < |commands| && NextIndex(commands, ObservedOf(s, key).byCommandID, 0) == Some(i)
            && NewEvent(codec, s, call, key).value.commandID == commands[i].command.commandID
  {
    hide Accounted, IngestReport, CommandProblemOnWire, TrimSpace, Echoes, NextIndex;
    i := NextIndex(s.desired[key].commands, ObservedOf(s, key).byCommandID, 0).value;
    DispatchEchoed(s, key, call.execute, call.at);
  }

  /** No call of the run ingests an event for the intent. */
  predicate NoIngest(calls: seq<Call>, key: bytes)
  {
    forall i :: 0 <= i < |calls| && calls[i].IngestCall? && calls[i].owner.Some? ==> calls[i].owner.value.0 != key
  }

  lemma NextKeepsPlanOrder(d: DesiredIntent, o: ObservedIntent, o': ObservedIntent, e: Event)
    requires Consistent(d, o) && DistinctIDs(d.commands) && InPlanOrder(d, o) && Records(o, o', Some(e))
    requires var i := NextIndex(d.commands, o.byCommandID, 0);
             i.Some? && e.commandID == d.commands[i.value].command.commandID
    ensures InPlanOrder(d, o')
  {
    hide Consistent, DistinctIDs, NextIndex;
    NextInPlanOrder(d, o);
  }

  lemma CallInPlanOrder(codec: ArgsCodec, s: Stores, call: Call, key: bytes)
    requires Accounted(s) && Admissible(s, call) && key in s.desired && !Resubmits(call, key)
    requires call.IngestCall? && call.owner.Some? ==> call.owner.value.0 != key
    requires InPlanOrder(s.desired[key], ObservedOf(s, key))
    ensures InPlanOrder(s.desired[key], ObservedOf(Apply(codec, s, call), key))
  {
    hide Accounted, Admissible, Apply, Consistent, Concluded, DistinctIDs, NextIndex, Resubmits, NewEvent;
    CallRecords(codec, s, call, key);
    if NewEvent(codec, s, call, key).Some? {
      NewEventByPass(codec, s, call, key);
      var i := PassRecordsNext(codec, s, call, key);
      IntentInOrder(s, key);
      NextKeepsPlanOrder(s.desired[key], ObservedOf(s, key), ObservedOf(Apply(codec, s, call), key),
                         NewEvent(codec, s, call, key).value);
    }
  }

  lemma NewEventByPass(codec: ArgsCodec, s: Stores, call: Call, key: bytes)
    requires key in s.desired && NewEvent(codec, s, call, key).Some?
    ensures call.ReconcileCall? || (call.IngestCall? && call.owner.Some? && call.owner.value.0 == key)
  {
    hide IngestReport, CommandProblemOnWire, TrimSpace, Begin;
  }

  /** Over every run with no resubmission of the intent and no ingest for it, its events are at every point exactly
      the first commands of the plan, in plan order. */
  lemma {:induction false} PlanOrder(codec: ArgsCodec, s: Stores, calls: seq<Call>, key: bytes)
    requires Accounted(s) && AllAdmissible(codec, s, calls) && key in s.desired
    requires NoResubmission(calls, key) && NoIngest(calls, key) && InPlanOrder(s.desired[key], ObservedOf(s, key))
    ensures var s' := Run(codec, s, calls);
            && key in s'.desired && s'.desired[key] == s.desired[key] && InPlanOrder(s.desired[key], ObservedOf(s', key))
    decreases |calls|
  {
    hide Accounted, Admissible, Apply, InPlanOrder, Resubmits;
    if calls != [] {
      CallRecords(codec, s, calls[0], key);
      ApplyKeeps(codec, s, calls[0]);
      CallInPlanOrder(codec, s, calls[0], key);
      PlanOrder(codec, Apply(codec, s, calls[0]), calls[1..], key);
    }
  }

  /** In particular from submission on. */
  lemma PlanOrderFromSubmission(codec: ArgsCodec, s: Stores, issue: IssueEnv, now: u64, calls: seq<Call>)
    requires Accounted(s) && Submit(s, issue, now).1 == None && AllAdmissible(codec, Submit(s, issue, now).0, calls)
    requires NoResubmission(calls, issue.intentID) && NoIngest(calls, issue.intentID)
    ensures var (key, s1) := (issue.intentID, Submit(s, issue, now).0); var s' := Run(codec, s1, calls);
            && key in s1.desired && key in s'.desired && s'.desired[key] == s1.desired[key]
            && var (commands, events) := (s1.desired[key].commands, ObservedOf(s', key).events);
               && |events| <= |commands|
               && forall i :: 0 <= i < |events| ==> events[i].commandID == commands[i].command.commandID
  {
    hide PlanOf, ValidIssue, Accounted, Run, NoResubmission, NoIngest, AllAdmissible;
    SubmitKeeps(s, issue, now);
    PlanOrder(codec, Submit(s, issue, now).0, calls, issue.intentID);
  }

  /** The positions in the event list at which passes of a run have recorded. */
  function PassPositions(codec: ArgsCodec, s: Stores, calls: seq<Call>, key: bytes): set<nat>
    requires key in s.desired && NoResubmission(calls, key)
    decreases |calls|
  {
    if calls == [] then {}
    else
      CallRecords(codec, s, calls[0], key);
      (if calls[0].ReconcileCall? && NewEvent(codec, s, calls[0], key).Some? then {|ObservedOf(s, key).events|} else {})
      + PassPositions(codec, Apply(codec, s, calls[0]), calls[1..], key)
  }

  /** Event `k` is for a command all of whose predecessors in the plan have their events before it, and none itself. */
  predicate AfterPredecessors(commands: seq<PlannedCommand>, events: seq<Event>, k: nat)
  {
    && k < |events|
    && exists i :: 0 <= i < |commands| && commands[i].command.commandID == events[k].commandID
         && !Among(events, k, events[k].commandID)
         && forall j :: 0 <= j < i ==> Among(events, k, commands[j].command.commandID)
  }

  lemma AmongPrefix(events: seq<Event>, more: seq<Event>, k: nat, commandID: bytes)
    requires k <= |events|
    ensures Among(events + more, k, commandID) <==> Among(events, k, commandID)
  {
    assert forall m :: 0 <= m < k ==> (events + more)[m] == events[m];
    if Among(events, k, commandID) {
      var m :| 0 <= m < k && events[m].commandID == commandID;
      assert (events + more)[m].commandID == commandID;
    }
  }

  lemma AfterPredecessorsStays(commands: seq<PlannedCommand>, events: seq<Event>, more: seq<Event>, k: nat)
    requires AfterPredecessors(commands, events, k)
    ensures AfterPredecessors(commands, events + more, k)
  {
    hide Among;
    forall id ensures Among(events + more, k, id) <==> Among(events, k, id) { AmongPrefix(events, more, k, id); }
    assert (events + more)[k] == events[k];
  }

  lemma PassAfterPredecessors(codec: ArgsCodec, s: Stores, call: Call, key: bytes)
    requires Accounted(s) && Admissible(s, call) && key in s.desired && call.ReconcileCall?
    requires NewEvent(codec, s, call, key).Some?
    ensures AfterPredecessors(s.desired[key].commands, ObservedOf(Apply(codec, s, call), key).events,
                              |ObservedOf(s, key).events|)
  {
    hide Accounted, Admissible, Apply, NewEvent, Consistent, Concluded, DistinctIDs, Among;
    CallRecords(codec, s, call, key);
    var i := PassRecordsNext(codec, s, call, key);
    IntentInOrder(s, key);
    var d, o := s.desired[key], ObservedOf(s, key);
    var e := NewEvent(codec, s, call, key).value;
    var events, k := o.events + [e], |o.events|;
    forall id ensures Among(events, k, id) <==> Among(o.events, k, id) { AmongPrefix(o.events, [e], k, id); }
    forall j | 0 <= j < i ensures Among(events, k, d.commands[j].command.commandID) {
      IndexedAmong(d, o, d.commands[j].command.commandID);
    }
    IndexedAmong(d, o, e.commandID);
    assert events[k] == e;
  }

  /** With events ingested in between as well: whatever a pass of the run has recorded stands after the events of all
      earlier commands of the plan. */
  lemma {:induction false} PassesFollowPlan(codec: ArgsCodec, s: Stores, calls: seq<Call>, key: bytes)
    requires Accounted(s) && AllAdmissible(codec, s, calls) && key in s.desired && NoResubmission(calls, key)
    ensures key in Run(codec, s, calls).desired
    ensures forall k :: k in PassPositions(codec, s, calls, key) ==>
              AfterPredecessors(s.desired[key].commands, ObservedOf(Run(codec, s, calls), key).events, k)
    decreases |calls|
  {
    hide Accounted, Admissible, Apply, NewEvent, AfterPredecessors, RecordedBy, Resubmits;
    if calls != [] {
      var call, s1 := calls[0], Apply(codec, s, calls[0]);
      CallRecords(codec, s, call, key);
      ApplyKeeps(codec, s, call);
      RunRecords(codec, s1, calls[1..], key);
      PassesFollowPlan(codec, s1, calls[1..], key);
      if call.ReconcileCall? && NewEvent(codec, s, call, key).Some? {
        PassAfterPredecessors(codec, s, call, key);
        AfterPredecessorsStays(s.desired[key].commands, ObservedOf(s1, key).events,
                               RecordedBy(codec, s1, calls[1..], key), |ObservedOf(s, key).events|);
      }
    }
  }

  // ---------------------------------------------------------------- settling

  predicate IsSettled(s: Stores, key: bytes)
  {
    key in s.desired && PendingCount(s.desired[key].commands, ObservedOf(s, key).byCommandID) == 0
  }

  /** Reconciling a settled intent changes nothing and returns its last report, which is phase-complete. */
  lemma SettledReconcile(codec: ArgsCodec, s: Stores, intentID: bytes, execute: Executor, now: u64)
    requires Accounted(s) && IsSettled(s, TrimSpace(intentID))
    ensures var o := ObservedOf(s, TrimSpace(intentID));
            && o.reports != [] && o.reports[|o.reports| - 1].phase == COMPLETE
            && Reconcile(s, codec, intentID, execute, now) == (s, Ok(o.reports[|o.reports| - 1]))
  {
    hide PlansInOrder, Consistent, NextPending, PendingCount, TrimSpace;
    IntentInOrder(s, TrimSpace(intentID));
  }

  /** No call but a resubmission touches a settled intent. */
  lemma SettledUntouched(codec: ArgsCodec, s: Stores, key: bytes, call: Call)
    requires Accounted(s) && IsSettled(s, key) && Admissible(s, call) && !Resubmits(call, key)
    ensures var s' := Apply(codec, s, call);
            IsSettled(s', key) && s'.desired[key] == s.desired[key] && ObservedOf(s', key) == ObservedOf(s, key)
  {
    hide Accounted, PlanOf, Echoes, PendingCount, Reconcile, Ingest, TrimSpace, ValidIssue;
    match call
    case SubmitCall(_, _) =>
    case RegisterCall(_) =>
    case ReconcileCall(id, execute, now) =>
      if TrimSpace(id) == key { SettledReconcile(codec, s, id, execute, now); }
      ReconcileKeeps(codec, s, id, execute, now);
    case IngestCall(owner, e, now) =>
      OwnerKnown(s, e.commandID, owner);
      IngestKeeps(s, owner, e, now);
      if owner.Some? && owner.value.0 == key {
        SettledHasSeen(s, key, owner.value.1);
        IngestDuplicate(s, owner, e, now);
      }
  }

  lemma SettledHasSeen(s: Stores, key: bytes, p: PlannedCommand)
    requires IsSettled(s, key) && p in s.desired[key].commands
    ensures p.command.commandID in ObservedOf(s, key).byCommandID
  {
    NonePendingIff(s.desired[key].commands, ObservedOf(s, key).byCommandID);
  }

  /** Once nothing is pending, and until the intent is submitted again, every further ReconcileOnce, whatever
      else happens in between, returns the same phase-complete report. */
  lemma {:induction false} SettledForever(codec: ArgsCodec, s: Stores, calls: seq<Call>, intentID: bytes,
                                          execute: Executor, now: u64)
    requires Accounted(s) && IsSettled(s, TrimSpace(intentID)) && AllAdmissible(codec, s, calls)
    requires NoResubmission(calls, TrimSpace(intentID))
    ensures var s' := Run(codec, s, calls); var reports := ObservedOf(s, TrimSpace(intentID)).reports;
            && reports != [] && reports[|reports| - 1].phase == COMPLETE
            && Reconcile(s', codec, intentID, execute, now) == (s', Ok(reports[|reports| - 1]))
    decreases |calls|
  {
    hide Apply, Admissible, Accounted, Reconcile, IsSettled, Resubmits;
    if calls == [] {
      SettledReconcile(codec, s, intentID, execute, now);
    } else {
      ApplyKeeps(codec, s, calls[0]);
      SettledUntouched(codec, s, TrimSpace(intentID), calls[0]);
      SettledForever(codec, Apply(codec, s, calls[0]), calls[1..], intentID, execute, now);
    }
  }

  // ---------------------------------------------------------------- repeated events

  /** After any run without a resubmission, an event for a command that was matched before it finds its plan entry again
      and leaves everything as it is. */
  lemma ReplayChangesNothing(codec: ArgsCodec, s: Stores, owner: Option<(bytes, PlannedCommand)>, e: Event, now: u64,
                             calls: seq<Call>, again: Event, later: u64)
    requires Accounted(s) && OwnerFound(s, e.commandID, owner) && Ingest(s, owner, e, now).1.Matched?
    requires NoResubmission(calls, owner.value.0) && again.commandID == e.commandID
    ensures var s' := Run(codec, Ingest(s, owner, e, now).0, calls);
            && OwnerFound(s', again.commandID, owner)
            && Ingest(s', owner, again, later).0 == s' && Ingest(s', owner, again, later).1.Matched?
  {
    OwnerKnown(s, e.commandID, owner);
    var key, s1 := owner.value.0, Ingest(s, owner, e, now).0;
    hide Ingest, Accounted, PendingCount, Resubmits;
    IngestKeeps(s, owner, e, now);
    assert e.commandID in ObservedOf(s1, key).byCommandID.Keys;
    ProgressIsKept(codec, s1, calls, key);
    IngestDuplicate(Run(codec, s1, calls), owner, again, later);
  }

  /** The ids of the events recorded for an intent are pairwise different. */
  predicate EventIDsOnce(events: seq<Event>)
  {
    forall i, j :: 0 <= i < j < |events| ==> events[i].eventID != events[j].eventID
  }

  predicate HasEventID(events: seq<Event>, eventID: bytes)
  {
    exists i :: 0 <= i < |events| && events[i].eventID == eventID
  }

  /** Ingesting an event leaves what its intent has observed alone exactly when its command has been observed, or it
      is no valid message, or its report does not fit in a frame. Any other event is recorded, also under an event id
      that has been recorded before. */
  lemma IngestIgnoredIff(s: Stores, owner: Option<(bytes, PlannedCommand)>, e: Event, now: u64)
    requires Accounted(s) && OwnerFound(s, e.commandID, owner) && owner.Some?
    ensures var (key, p) := owner.value; var (o, o') := (ObservedOf(s, key), ObservedOf(Ingest(s, owner, e, now).0, key));
            && key in s.desired
            && (o' == o <==> || e.commandID in o.byCommandID
                             || EventProblemOnWire(e).Some? || !ReportFits(s.desired[key], |o.byCommandID|, e, now))
            && (o' != o ==> o'.events == o.events + [e] && o'.byCommandID == o.byCommandID[e.commandID := e])
            && (o' != o && HasEventID(o.events, e.eventID) ==> !EventIDsOnce(o'.events))
  {
    hide Accounted, IngestReport, SettledReport, EventProblemOnWire, ReportFits, EventIDsOnce, HasEventID;
    var (key, p) := owner.value;
    ShapeIsNamed(s, key);
    var o := ObservedOf(s, key);
    ReportableIff(s.desired[key], o, e, now);
    if e.commandID !in o.byCommandID && IngestReport(s.desired[key], o, e, now).Ok? {
      assert |o.events + [e]| == |o.events| + 1;
      AddedAgain(o.events, e);
    }
  }

  lemma ShapeIsNamed(s: Stores, key: bytes)
    requires Accounted(s) && key in s.desired
    ensures !Blank(s.desired[key].issue.intentID)
  {
    hide CommandID;
    assert PlanShape(key, s.desired[key].commands);
    assert StepShape(key, s.desired[key].commands[0], 1);
  }

  lemma AddedAgain(events: seq<Event>, e: Event)
    ensures EventIDsOnce(events + [e]) <==> EventIDsOnce(events) && !HasEventID(events, e.eventID)
  {
    var all, n := events + [e], |events|;
    assert all[n] == e && forall i :: 0 <= i < n ==> all[i] == events[i];
  }

  // ---------------------------------------------------------------- one event per command

  /** The event a call offers to an intent: one that ingest matches, recorded or not, or one a pass comes back with. */
  function Offered(codec: ArgsCodec, s: Stores, call: Call, key: bytes): Option<Event>
    requires key in s.desired
  {
    match call
    case IngestCall(owner, e, now) =>
      if owner.Some? && owner.value.0 == key && Ingest(s, owner, e, now).1.Matched? then Some(e) else None
    case _ => NewEvent(codec, s, call, key)
  }

  function Offers(codec: ArgsCodec, s: Stores, calls: seq<Call>, key: bytes): seq<Event>
    requires key in s.desired && NoResubmission(calls, key)
    decreases |calls|
  {
    if calls == [] then []
    else
      CallRecords(codec, s, calls[0], key);
      var e := Offered(codec, s, calls[0], key);
      (if e.Some? then [e.value] else []) + Offers(codec, Apply(codec, s, calls[0]), calls[1..], key)
  }

  predicate HasCommand(events: seq<Event>, commandID: bytes)
  {
    exists i :: 0 <= i < |events| && events[i].commandID == commandID
  }

  /** `kept`, and of the offers the first one for every further command. */
  function FirstPerCommand(kept: seq<Event>, offers: seq<Event>): seq<Event>
    decreases |offers|
  {
    if offers == [] then kept
    else FirstPerCommand(if HasCommand(kept, offers[0].commandID) then kept else kept + [offers[0]], offers[1..])
  }

  lemma {:induction false} IndexedHas(events: seq<Event>, commandID: bytes)
    ensures commandID in Indexed(events) <==> HasCommand(events, commandID)
    decreases |events|
  {
    if events != [] {
      var n := |events| - 1;
      IndexedHas(events[..n], commandID);
      if HasCommand(events, commandID) && events[n].commandID != commandID {
        var i :| 0 <= i < |events| && events[i].commandID == commandID;
        assert events[..n][i] == events[i];
      }
      if HasCommand(events[..n], commandID) {
        var i :| 0 <= i < n && events[..n][i].commandID == commandID;
        assert events[i].commandID == commandID;
      }
    }
  }

  /** An offer is recorded exactly when its command has no event yet. */
  lemma OfferRecorded(codec: ArgsCodec, s: Stores, call: Call, key: bytes)
    requires Accounted(s) && Admissible(s, call) && key in s.desired
    ensures var (o, e) := (ObservedOf(s, key), Offered(codec, s, call, key));
            NewEvent(codec, s, call, key)
            == if e.Some? && !HasCommand(o.events, e.value.commandID) then e else None
  {
    hide HasCommand, TrimSpace, IngestReport, SettledReport, PlannedIDs, PendingCount, CommandProblemOnWire, Concluded, Indexed;
    var o, e := ObservedOf(s, key), Offered(codec, s, call, key);
    IntentInOrder(s, key);
    if e.Some? { IndexedHas(o.events, e.value.commandID); }
    if call.ReconcileCall? && e.Some? { PassOffersUnseen(codec, s, call, key); }
  }

  lemma PassOffersUnseen(codec: ArgsCodec, s: Stores, call: Call, key: bytes)
    requires Accounted(s) && Admissible(s, call) && key in s.desired && call.ReconcileCall?
    requires NewEvent(codec, s, call, key).Some?
    ensures NewEvent(codec, s, call, key).value.commandID !in ObservedOf(s, key).byCommandID
  {
    hide TrimSpace, IngestReport, CommandProblemOnWire, Concluded, CommandID, Trimmed, Consistent;
    assert PlanShape(key, s.desired[key].commands);
    var i := NextIndex(s.desired[key].commands, ObservedOf(s, key).byCommandID, 0);
    if i.Some? {
      assert StepShape(key, s.desired[key].commands[i.value], i.value + 1);
      CommandIDTrimmed(key, i.value + 1);
    }
  }

  /** Over every run: an intent has recorded the first event offered for each command, in the order of the offers, and
      nothing else. */
  lemma {:induction false} EventsAreFirstOffers(codec: ArgsCodec, s: Stores, calls: seq<Call>, key: bytes)
    requires Accounted(s) && AllAdmissible(codec, s, calls) && key in s.desired && NoResubmission(calls, key)
    ensures ObservedOf(Run(codec, s, calls), key).events
            == FirstPerCommand(ObservedOf(s, key).events, Offers(codec, s, calls, key))
    decreases |calls|
  {
    hide Apply, NewEvent, Offered, Resubmits, Accounted, Admissible, HasCommand;
    if calls != [] {
      var s1, e := Apply(codec, s, calls[0]), Offered(codec, s, calls[0], key);
      CallRecords(codec, s, calls[0], key);
      OfferRecorded(codec, s, calls[0], key);
      ApplyKeeps(codec, s, calls[0]);
      EventsAreFirstOffers(codec, s1, calls[1..], key);
      if e.Some? { assert ([e.value] + Offers(codec, s1, calls[1..], key))[1..] == Offers(codec, s1, calls[1..], key); }
      else { assert Offers(codec, s, calls, key) == Offers(codec, s1, calls[1..], key); }
    }
  }

  /** No event before it has its command. */
  predicate First(events: seq<Event>, i: nat)
    requires i < |events|
  {
    forall k :: 0 <= k < i ==> events[k].commandID != events[i].commandID
  }

  /** No two events, each the first for its command, have one event id. */
  predicate FirstsDiffer(events: seq<Event>)
  {
    forall i, j :: 0 <= i < j < |events| && First(events, i) && First(events, j) ==> events[i].eventID != events[j].eventID
  }

  /** Where element `i` is after one more is put in at `n`. */
  function Past(n: nat, i: nat): nat { if i < n then i else i + 1 }

  lemma FirstPast(a: seq<Event>, e: Event, b: seq<Event>, i: nat)
    requires HasCommand(a, e.commandID) && i < |a + b|
    ensures (a + [e] + b)[Past(|a|, i)] == (a + b)[i]
    ensures First(a + [e] + b, Past(|a|, i)) <==> First(a + b, i)
  {
    var all, less, n := a + [e] + b, a + b, |a|;
    assert forall k :: 0 <= k < |less| ==> all[Past(n, k)] == less[k];
    if First(less, i) {
      var m :| 0 <= m < n && a[m].commandID == e.commandID;
      assert less[m] == a[m];
      forall k | 0 <= k < Past(n, i) ensures all[k].commandID != less[i].commandID {
        if k > n { assert all[k] == less[k - 1]; } else if k < n { assert all[k] == less[k]; }
      }
    } else {
      var k :| 0 <= k < i && less[k].commandID == less[i].commandID;
      assert all[Past(n, k)].commandID == all[Past(n, i)].commandID;
    }
  }

  lemma RepeatNotFirst(a: seq<Event>, e: Event, b: seq<Event>)
    requires HasCommand(a, e.commandID)
    ensures !First(a + [e] + b, |a|)
  {
    var m :| 0 <= m < |a| && a[m].commandID == e.commandID;
    assert (a + [e] + b)[m] == a[m] && (a + [e] + b)[|a|] == e;
  }

  /** A repetition for a command makes no difference to that. */
  lemma RepeatDropped(a: seq<Event>, e: Event, b: seq<Event>)
    requires HasCommand(a, e.commandID)
    ensures FirstsDiffer(a + [e] + b) <==> FirstsDiffer(a + b)
  {
    hide First, HasCommand;
    var all, less, n := a + [e] + b, a + b, |a|;
    RepeatNotFirst(a, e, b);
    if FirstsDiffer(all) {
      forall i, j | 0 <= i < j < |less| && First(less, i) && First(less, j) ensures less[i].eventID != less[j].eventID {
        FirstPast(a, e, b, i);
        FirstPast(a, e, b, j);
        assert Past(n, i) < Past(n, j) < |all|;
      }
    }
    if FirstsDiffer(less) {
      forall i, j | 0 <= i < j < |all| && First(all, i) && First(all, j) ensures all[i].eventID != all[j].eventID {
        FirstPast(a, e, b, if i < n then i else i - 1);
        FirstPast(a, e, b, if j < n then j else j - 1);
      }
    }
  }

  predicate CommandsOnce(events: seq<Event>)
  {
    forall i, j :: 0 <= i < j < |events| ==> events[i].commandID != events[j].commandID
  }

  lemma {:induction false} FirstsKept(kept: seq<Event>, offers: seq<Event>)
    requires CommandsOnce(kept)
    ensures EventIDsOnce(FirstPerCommand(kept, offers)) <==> FirstsDiffer(kept + offers)
    decreases |offers|
  {
    if offers == [] {
      assert kept + offers == kept;
      assert forall i :: 0 <= i < |kept| ==> First(kept, i);
    } else {
      var e := offers[0];
      assert kept + offers == kept + [e] + offers[1..];
      hide FirstsDiffer, EventIDsOnce;
      if HasCommand(kept, e.commandID) {
        RepeatDropped(kept, e, offers[1..]);
        FirstsKept(kept, offers[1..]);
      } else {
        FirstsKept(kept + [e], offers[1..]);
      }
    }
  }

  /** Ingest is idempotent by command id and by nothing else. Over every run: recorded event ids are pairwise different
      exactly when no two events, each the first offered for its command, come under one event id. */
  lemma EventIDsOnceIff(codec: ArgsCodec, s: Stores, calls: seq<Call>, key: bytes)
    requires Accounted(s) && AllAdmissible(codec, s, calls) && key in s.desired && NoResubmission(calls, key)
    ensures EventIDsOnce(ObservedOf(Run(codec, s, calls), key).events)
            <==> FirstsDiffer(ObservedOf(s, key).events + Offers(codec, s, calls, key))
  {
    hide EventIDsOnce, FirstsDiffer, Offers, Run, PendingCount, PlannedIDs, Indexed, Concluded, PlansInOrder;
    EventsAreFirstOffers(codec, s, calls, key);
    IntentInOrder(s, key);
    OneEntryPerKey(ObservedOf(s, key).events);
    FirstsKept(ObservedOf(s, key).events, Offers(codec, s, calls, key));
  }

  /** Events whose ids name their commands, as ghosts make them, are recorded once per event id. */
  lemma NamedEventsOnce(d: DesiredIntent, o: ObservedIntent, name: bytes -> bytes)
    requires Consistent(d, o) && forall i :: 0 <= i < |o.events| ==> o.events[i].eventID == name(o.events[i].commandID)
    requires forall a, b :: a in PlannedIDs(d.commands) && b in PlannedIDs(d.commands) && name(a) == name(b) ==> a == b
    ensures EventIDsOnce(o.events)
  {
    hide PlannedIDs, PendingCount, Indexed;
    OneEntryPerKey(o.events);
    forall i, j | 0 <= i < j < |o.events| ensures o.events[i].eventID != o.events[j].eventID {
      assert o.events[i].commandID in o.byCommandID.Keys && o.events[j].commandID in o.byCommandID.Keys;
    }
  }
}
