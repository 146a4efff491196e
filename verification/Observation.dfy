/** What an acknowledged event says about the orchestrator: runs in which events are named after their commands. */
module Observation {
  import opened Bytes
  import opened Errors
  import opened Session
  import opened Framing
  import opened Planning
  import opened Orchestration
  import opened Accounting
  import opened Progress
  import opened Delivery
  import Ghost
  import MirageServer

  // ---------------------------------------------------------------- what is sent and what is seen

  /** The report on an event fits in a frame, whatever the plan's progress and the time. */
  ghost predicate ReportsFit(d: DesiredIntent, e: Event)
  {
    forall before: nat, now: u64 :: before < |d.commands| ==> ReportFits(d, before, e, now)
  }

  /** An event as ghosts make them: its id names its command, both trimmed; and reports on it fit in every plan of `s0`
      that has the command. */
  ghost predicate WellSent(s0: Stores, e: Event)
  {
    && Trimmed(e.commandID) && e.eventID == Ghost.EventID(e.commandID)
    && forall id, p :: Owns(s0, id, p, e.commandID) ==> ReportsFit(s0.desired[id], e)
  }

  /** Every intent of `s0` that plans the command has an event for it. */
  ghost predicate Seen(s0: Stores, s: Stores, commandID: bytes)
  {
    forall id, p :: Owns(s0, id, p, commandID) ==> commandID in ObservedOf(s, id).byCommandID
  }

  /** Every command an event id can stand for has been seen. */
  ghost predicate SeenUnder(s0: Stores, s: Stores, eventID: bytes)
  {
    forall c :: Trimmed(c) && Ghost.EventID(c) == eventID ==> Seen(s0, s, c)
  }

  /** The plans of `s0` are still there. */
  predicate KeepsPlans(s0: Stores, s: Stores)
  {
    forall id :: id in s0.desired ==> id in s.desired && s.desired[id] == s0.desired[id]
  }

  ghost predicate LoopInOrder(s0: Stores, s: Stores)
  {
    Accounted(s) && DistinctIntents(s) && KeepsPlans(s0, s)
  }

  ghost predicate EventTold(codec: ArgsCodec, s0: Stores, b: bytes)
  {
    var r := EventRead(codec, b);
    r.Ok? ==> WellSent(s0, r.value.1) && EventProblemOnWire(r.value.1) == None
  }

  ghost predicate AckTold(codec: ArgsCodec, s0: Stores, s: Stores, b: bytes)
  {
    var r := AckRead(codec, b);
    r.Ok? ==> SeenUnder(s0, s, r.value.eventID)
  }

  /** For the plans of `s0`: what is on its way to Mirage can be observed, and what is on its way back has been. */
  ghost predicate ConnTold(codec: ArgsCodec, s0: Stores, s: Stores, c: Conn)
  {
    && (c.sending.Some? ==> WellSent(s0, c.sending.value))
    && (forall b :: b in c.toMirage ==> EventTold(codec, s0, b))
    && (forall b :: b in c.toGhost ==> AckTold(codec, s0, s, b))
  }

  ghost predicate Told(codec: ArgsCodec, s0: Stores, n: Net)
  {
    && LoopInOrder(s0, n.m.loop)
    && (forall i :: i in n.conns ==> ConnTold(codec, s0, n.m.loop, n.conns[i]))
  }

  /** Before any session every plan there is can be watched. */
  lemma QuietIsTold(codec: ArgsCodec, n: Net)
    requires Accounted(n.m.loop) && DistinctIntents(n.m.loop) && n.conns == map[]
    ensures Told(codec, n.m.loop, n)
  {
    hide Accounted, DistinctIntents;
  }

  // ---------------------------------------------------------------- observed commands stay observed

  ghost predicate SeenLater(s0: Stores, s: Stores, s': Stores)
  {
    forall id :: id in s0.desired ==> ObservedOf(s, id).byCommandID.Keys <= ObservedOf(s', id).byCommandID.Keys
  }

  lemma LaterKeepsSeen(s0: Stores, s: Stores, s': Stores, commandID: bytes)
    requires SeenLater(s0, s, s') && Seen(s0, s, commandID)
    ensures Seen(s0, s', commandID)
  {
    forall id, p | Owns(s0, id, p, commandID) ensures commandID in ObservedOf(s', id).byCommandID {
      assert commandID in ObservedOf(s, id).byCommandID.Keys;
    }
  }

  lemma LaterKeepsAck(codec: ArgsCodec, s0: Stores, s: Stores, s': Stores, b: bytes)
    requires SeenLater(s0, s, s') && AckTold(codec, s0, s, b)
    ensures AckTold(codec, s0, s', b)
  {
    hide Seen, SeenLater, AckRead, Trimmed, Ghost.EventID;
    if AckRead(codec, b).Ok? {
      forall c | Trimmed(c) && Ghost.EventID(c) == AckRead(codec, b).value.eventID ensures Seen(s0, s', c) {
        LaterKeepsSeen(s0, s, s', c);
      }
    }
  }

  lemma LaterKeepsTold(codec: ArgsCodec, s0: Stores, s: Stores, s': Stores, c: Conn)
    requires SeenLater(s0, s, s') && ConnTold(codec, s0, s, c)
    ensures ConnTold(codec, s0, s', c)
  {
    hide SeenLater, WellSent, EventTold, AckTold;
    forall b | b in c.toGhost ensures AckTold(codec, s0, s', b) { LaterKeepsAck(codec, s0, s, s', b); }
  }

  /** The stores move on and one connection changes. */
  lemma StepTells(codec: ArgsCodec, s0: Stores, n: Net, n': Net, i: nat)
    requires Told(codec, s0, n) && SeenLater(s0, n.m.loop, n'.m.loop) && LoopInOrder(s0, n'.m.loop)
    requires n'.conns == n.conns
          || (i in n'.conns && n'.conns == n.conns[i := n'.conns[i]] && ConnTold(codec, s0, n'.m.loop, n'.conns[i]))
    ensures Told(codec, s0, n')
  {
    hide LoopInOrder, ConnTold, SeenLater;
    forall j | j in n'.conns ensures ConnTold(codec, s0, n'.m.loop, n'.conns[j]) {
      if n'.conns == n.conns || j != i { LaterKeepsTold(codec, s0, n.m.loop, n'.m.loop, n.conns[j]); }
    }
  }

  lemma SameLater(s0: Stores, s: Stores)
    ensures SeenLater(s0, s, s)
  {
  }

  /** Answers are only added to, and the command of a new one has been seen. */
  ghost predicate NewAnswersSeen(s0: Stores, n: Net, n': Net)
  {
    && |n.answers| <= |n'.answers| && n'.answers[..|n.answers|] == n.answers
    && forall j :: |n.answers| <= j < |n'.answers| ==> Seen(s0, n'.m.loop, n'.answers[j].event.commandID)
  }

  /** What is seen stays seen, and whatever is answered has been seen. */
  ghost predicate Moves(s0: Stores, n: Net, n': Net)
  {
    SeenLater(s0, n.m.loop, n'.m.loop) && NewAnswersSeen(s0, n, n')
  }

  lemma MovesOn(s0: Stores, n: Net, n1: Net, n2: Net)
    requires Moves(s0, n, n1) && Moves(s0, n1, n2)
    ensures Moves(s0, n, n2)
  {
    hide Seen;
    forall j | |n.answers| <= j < |n2.answers| ensures Seen(s0, n2.m.loop, n2.answers[j].event.commandID) {
      if j < |n1.answers| {
        assert n2.answers[j] == n1.answers[j];
        LaterKeepsSeen(s0, n1.m.loop, n2.m.loop, n1.answers[j].event.commandID);
      }
    }
    assert forall j :: 0 <= j < |n.answers| ==> n2.answers[j] == n1.answers[j] == n.answers[j];
  }

  /** More plans watched is more known. */
  lemma MovesForFewer(s0: Stores, s1: Stores, n: Net, n': Net)
    requires KeepsPlans(s0, s1) && Moves(s1, n, n')
    ensures Moves(s0, n, n')
  {
    forall c: bytes | Seen(s1, n'.m.loop, c) ensures Seen(s0, n'.m.loop, c) {
      forall id, p | Owns(s0, id, p, c) ensures c in ObservedOf(n'.m.loop, id).byCommandID { assert Owns(s1, id, p, c); }
    }
  }

  lemma StandsStill(s0: Stores, n: Net, n': Net)
    requires n'.m.loop == n.m.loop && n'.answers == n.answers
    ensures Moves(s0, n, n')
  {
  }

  lemma ToldParts(codec: ArgsCodec, s0: Stores, n: Net, i: nat)
    requires Told(codec, s0, n) && i in n.conns
    ensures LoopInOrder(s0, n.m.loop) && ConnTold(codec, s0, n.m.loop, n.conns[i])
  {
    hide LoopInOrder, ConnTold;
  }

  // ---------------------------------------------------------------- the client's steps

  lemma SendTells(codec: ArgsCodec, s0: Stores, s: Stores, c: Conn)
    requires codec.Exact() && ConnTold(codec, s0, s, c)
    ensures ConnTold(codec, s0, s, SendOnce(codec, c))
  {
    hide WellSent, AckTold, EventRead, Encoded, EventProblemOnWire;
    if c.sending.Some? && !c.waiting && Encoded(codec, NextU64(c.nextID), EventEnvelope(c.sending.value)).Ok? {
      EventFrameReads(codec, NextU64(c.nextID), c.sending.value);
    }
  }

  lemma ReadTells(codec: ArgsCodec, s0: Stores, s: Stores, c: Conn)
    requires ConnTold(codec, s0, s, c)
    ensures var (c', answer) := ReadOnce(codec, c);
            ConnTold(codec, s0, s, c') && (answer.Some? ==> Seen(s0, s, answer.value.event.commandID))
  {
    hide EventTold, AckRead, Seen, Ghost.EventID, Trimmed;
    if c.sending.Some? && c.waiting && c.toGhost != [] {
      assert AckTold(codec, s0, s, c.toGhost[0]);
    }
  }

  lemma IdleTells(codec: ArgsCodec, s0: Stores, s: Stores, c: Conn, c': Conn)
    requires ConnTold(codec, s0, s, c) && c' == c.(nextID := c'.nextID, sending := c'.sending, waiting := c'.waiting)
    requires c'.sending.Some? ==> WellSent(s0, c'.sending.value)
    ensures ConnTold(codec, s0, s, c')
  {
    hide WellSent, EventTold, AckTold;
  }

  // ---------------------------------------------------------------- Mirage's steps

  /** Observing an event that travelled: its command is seen in every plan that has it, and nothing is forgotten. */
  lemma ObserveSees(s0: Stores, s: Stores, owner: Option<(bytes, PlannedCommand)>, e: Event, now: u64)
    requires LoopInOrder(s0, s) && WellSent(s0, e) && EventProblemOnWire(e) == None && OwnerFound(s, e.commandID, owner)
    ensures owner.Some? ==> owner.value.0 in s.desired
    ensures var s' := Ingest(s, owner, e, now).0; LoopInOrder(s0, s') && Seen(s0, s', e.commandID) && SeenLater(s0, s, s')
  {
    hide Accounted, Trimmed, Ghost.EventID, Ingest, EventProblemOnWire, DistinctIntents, OwnerFound, ReportsFit;
    OwnerKnown(s, e.commandID, owner);
    IngestKeeps(s, owner, e, now);
    var s' := Ingest(s, owner, e, now).0;
    DistinctStay(s, s');
    forall id | id in s0.desired ensures ObservedOf(s, id).byCommandID.Keys <= ObservedOf(s', id).byCommandID.Keys {
      IngestGrows(s, owner, e, now, id);
    }
    forall id, p | Owns(s0, id, p, e.commandID) ensures e.commandID in ObservedOf(s', id).byCommandID {
      assert Owns(s, id, p, e.commandID);
      OwnerIs(s, e.commandID, owner, id, p);
      IngestMatches(s, id, p, e, now);
    }
  }

  lemma IngestGrows(s: Stores, owner: Option<(bytes, PlannedCommand)>, e: Event, now: u64, id: bytes)
    requires owner.Some? ==> owner.value.0 in s.desired
    ensures ObservedOf(s, id).byCommandID.Keys <= ObservedOf(Ingest(s, owner, e, now).0, id).byCommandID.Keys
  {
    hide IngestReport, SettledReport;
  }

  lemma DistinctStay(s: Stores, s': Stores)
    requires DistinctIntents(s) && s'.desired == s.desired
    ensures DistinctIntents(s')
  {
    hide SanitizeID;
  }

  lemma OwnerIs(s: Stores, commandID: bytes, owner: Option<(bytes, PlannedCommand)>, id: bytes, p: PlannedCommand)
    requires Accounted(s) && DistinctIntents(s) && OwnerFound(s, commandID, owner) && Owns(s, id, p, commandID)
    ensures owner == Some((id, p))
  {
    hide PlansInOrder, DistinctIntents, Consistent, Concluded;
    LookupDetermined(s, commandID, owner, Some((id, p)));
  }

  lemma RoomLeft(s: Stores, key: bytes, commandID: bytes)
    requires Accounted(s) && key in s.desired && commandID in PlannedIDs(s.desired[key].commands)
    requires commandID !in ObservedOf(s, key).byCommandID
    ensures |ObservedOf(s, key).byCommandID| < |s.desired[key].commands|
  {
    hide PlannedIDs, Indexed, PendingCount, CommandID;
    IntentInOrder(s, key);
    var i := PlannedAt(s.desired[key].commands, commandID);
    NonePendingIff(s.desired[key].commands, ObservedOf(s, key).byCommandID);
  }

  lemma IngestMatches(s: Stores, key: bytes, p: PlannedCommand, e: Event, now: u64)
    requires Accounted(s) && Owns(s, key, p, e.commandID) && EventProblemOnWire(e) == None && ReportsFit(s.desired[key], e)
    ensures Ingest(s, Some((key, p)), e, now).1.Matched?
  {
    hide Accounted, EventProblemOnWire, SettledReport, IngestReport, ReportFits;
    var d, o := s.desired[key], ObservedOf(s, key);
    if e.commandID !in o.byCommandID {
      OwnedIsPlanned(s, key, p, e.commandID);
      RoomLeft(s, key, e.commandID);
      ShapeIsNamed(s, key);
      ReportableIff(d, o, e, now);
      assert ReportFits(d, |o.byCommandID|, e, now);
    }
  }

  lemma SeenUnderOwnID(s0: Stores, s: Stores, commandID: bytes)
    requires Trimmed(commandID) && Seen(s0, s, commandID)
    ensures SeenUnder(s0, s, Ghost.EventID(commandID))
  {
    hide Seen, Trimmed;
    forall c | Trimmed(c) && Ghost.EventID(c) == Ghost.EventID(commandID) ensures Seen(s0, s, c) {
      Ghost.EventIDInjective(c, commandID);
    }
  }

  /** Fewer frames to Mirage, no more than one more to the ghost. */
  lemma FramesTaken(codec: ArgsCodec, s0: Stores, s: Stores, c: Conn, c': Conn, b: Option<bytes>)
    requires ConnTold(codec, s0, s, c) && c'.sending == c.sending && c.toMirage != []
    requires c'.toMirage == c.toMirage || c'.toMirage == c.toMirage[1..]
    requires c'.toGhost == if b.Some? then c.toGhost + [b.value] else c.toGhost
    requires b.Some? ==> AckTold(codec, s0, s, b.value)
    ensures ConnTold(codec, s0, s, c')
  {
    hide WellSent, EventTold, AckTold;
  }

  lemma FirstTold(codec: ArgsCodec, s0: Stores, s: Stores, c: Conn)
    requires ConnTold(codec, s0, s, c) && c.toMirage != []
    ensures EventTold(codec, s0, c.toMirage[0])
  {
    hide EventTold, AckTold, WellSent;
  }

  lemma ServeTells(codec: ArgsCodec, s0: Stores, n: Net, i: nat, owner: Option<(bytes, PlannedCommand)>, now: u64, written: bool)
    requires codec.Exact() && Piped(codec, n) && Told(codec, s0, n) && i in n.conns
    ensures var n' := ServeOnce(codec, n, i, owner, now, written);
            Told(codec, s0, n') && Moves(s0, n, n')
  {
    SameLater(s0, n.m.loop);
    hide Piped, Told, RegistryInOrder, ConnPiped, LoopInOrder, ConnTold, SeenLater, EventRead, AckRead, Encoded, WellSent,
         EventProblemOnWire, SeenUnder, Seen, OwnerFound, TrimSpace, MirageServer.Applied, MirageServer.Accept, Stored, Ingest;
    var c, n' := n.conns[i], ServeOnce(codec, n, i, owner, now, written);
    if c.open && c.toMirage != [] {
      PipedParts(codec, n, i);
      ToldParts(codec, s0, n, i);
      FirstFrame(codec, n.m.registry, c);
      FirstTold(codec, s0, n.m.loop, c);
      var (id, e) := EventRead(codec, c.toMirage[0]).value;
      WellSentTrimmed(s0, e);
      if OwnerFound(n.m.loop, TrimSpace(e.commandID), owner) {
        ObserveSees(s0, n.m.loop, owner, e, now);
        var s' := Ingest(n.m.loop, owner, e, now).0;
        ObservedLoop(n.m, owner, e, now);
        LaterKeepsTold(codec, s0, n.m.loop, s', c);
        AcceptStores(n.m.registry, c.ghostID, e, now);
        var ack := MirageServer.Accept(n.m.registry, c.ghostID, e, now).1;
        if Encoded(codec, id, AckEnvelope(ack)).Ok? && written {
          AckFrameReads(codec, id, ack);
          SeenUnderOwnID(s0, s', e.commandID);
          FramesTaken(codec, s0, s', c, n'.conns[i], Some(Encoded(codec, id, AckEnvelope(ack)).value));
        } else {
          FramesTaken(codec, s0, s', c, n'.conns[i], None);
        }
        StepTells(codec, s0, n, n', i);
      }
    }
  }

  lemma WellSentTrimmed(s0: Stores, e: Event)
    requires WellSent(s0, e)
    ensures Trimmed(e.commandID) && TrimSpace(e.commandID) == e.commandID && e.eventID == Ghost.EventID(e.commandID)
  {
  }

  lemma ObservedLoop(m: MirageServer.MirageState, owner: Option<(bytes, PlannedCommand)>, e: Event, now: u64)
    requires owner.Some? ==> owner.value.0 in m.loop.desired
    ensures MirageServer.Observe(m, owner, e, now).0.loop == Ingest(m.loop, owner, e, now).0
    ensures MirageServer.Observe(m, owner, e, now).0.registry == m.registry
  {
  }

  // ---------------------------------------------------------------- the other callers

  /** No ingest but through a connection; no submission that reuses an intent's command ids. */
  ghost predicate CallAllowed(s: Stores, call: Call)
  {
    && Admissible(s, call) && !call.IngestCall?
    && (call.SubmitCall? ==> forall k :: k in s.desired ==> SanitizeID(k) != SanitizeID(call.issue.intentID))
  }

  lemma CallTells(codec: ArgsCodec, s0: Stores, s: Stores, call: Call)
    requires LoopInOrder(s0, s) && CallAllowed(s, call)
    ensures LoopInOrder(s0, Apply(codec, s, call)) && SeenLater(s0, s, Apply(codec, s, call))
  {
    hide Accounted, Apply, DistinctIntents, CallAllowed;
    var s' := Apply(codec, s, call);
    AllowedIsAdmissible(s, call);
    ApplyKeeps(codec, s, call);
    forall id | id in s0.desired
      ensures id in s'.desired && s'.desired[id] == s0.desired[id]
           && ObservedOf(s, id).byCommandID.Keys <= ObservedOf(s', id).byCommandID.Keys
    {
      AllowedSubmits(s, call, id);
      CallRecords(codec, s, call, id);
    }
    CallKeepsDistinct(codec, s, call);
  }

  lemma AllowedIsAdmissible(s: Stores, call: Call)
    requires CallAllowed(s, call)
    ensures Admissible(s, call)
  {
  }

  lemma AllowedSubmits(s: Stores, call: Call, id: bytes)
    requires CallAllowed(s, call) && id in s.desired
    ensures !Resubmits(call, id)
  {
  }

  lemma CallKeepsDistinct(codec: ArgsCodec, s: Stores, call: Call)
    requires Accounted(s) && DistinctIntents(s) && CallAllowed(s, call)
    ensures DistinctIntents(Apply(codec, s, call))
  {
    hide Accounted, SanitizeID, PlanOf, Reconcile, Echoes, ValidIssue;
    match call
    case SubmitCall(_, _) =>
    case RegisterCall(_) =>
    case ReconcileCall(id, execute, now) => ReconcileKeeps(codec, s, id, execute, now);
  }

  // ---------------------------------------------------------------- watching a new plan

  /** The command is one of the plan. */
  predicate Names(d: DesiredIntent, commandID: bytes)
  {
    exists p :: p in d.commands && p.command.commandID == commandID
  }

  /** What a connection still brings to Mirage for a command of the plan can be reported on. */
  ghost predicate ConnFits(codec: ArgsCodec, d: DesiredIntent, c: Conn)
  {
    && (c.sending.Some? && Names(d, c.sending.value.commandID) ==> ReportsFit(d, c.sending.value))
    && (forall b | b in c.toMirage :: EventClear(codec, d, b))
  }

  /** Nor does it carry an ack for a command of the plan. */
  ghost predicate ConnClear(codec: ArgsCodec, d: DesiredIntent, c: Conn)
  {
    && ConnFits(codec, d, c)
    && (forall b | b in c.toGhost :: AckClear(codec, d, b))
  }

  ghost predicate EventClear(codec: ArgsCodec, d: DesiredIntent, b: bytes)
  {
    var r := EventRead(codec, b); r.Ok? && Names(d, r.value.1.commandID) ==> ReportsFit(d, r.value.1)
  }

  predicate AckClear(codec: ArgsCodec, d: DesiredIntent, b: bytes)
  {
    var r := AckRead(codec, b); r.Ok? ==> forall p :: p in d.commands ==> Ghost.EventID(p.command.commandID) != r.value.eventID
  }

  /** No ack for a command of the plan is on its way, and what is to be observed for one can be reported on: what can
      be looked at when a plan is submitted. */
  ghost predicate Clear(codec: ArgsCodec, n: Net, d: DesiredIntent)
  {
    forall i :: i in n.conns ==> ConnClear(codec, d, n.conns[i])
  }

  function Watching(s0: Stores, id: bytes, d: DesiredIntent): Stores { s0.(desired := s0.desired[id := d]) }

  lemma WatchSent(s0: Stores, id: bytes, d: DesiredIntent, e: Event)
    requires WellSent(s0, e) && (Names(d, e.commandID) ==> ReportsFit(d, e))
    ensures WellSent(Watching(s0, id, d), e)
  {
    hide ReportsFit, Trimmed, Ghost.EventID;
    forall k, p | Owns(Watching(s0, id, d), k, p, e.commandID) ensures ReportsFit(Watching(s0, id, d).desired[k], e) {
      if k != id { assert Owns(s0, k, p, e.commandID); }
    }
  }

  lemma WatchSeen(s0: Stores, s: Stores, id: bytes, d: DesiredIntent, commandID: bytes)
    requires Seen(s0, s, commandID) && !Names(d, commandID)
    ensures Seen(Watching(s0, id, d), s, commandID)
  {
    forall k, p | Owns(Watching(s0, id, d), k, p, commandID) ensures commandID in ObservedOf(s, k).byCommandID {
      assert k != id;
      assert Owns(s0, k, p, commandID);
    }
  }

  lemma WatchAck(codec: ArgsCodec, s0: Stores, s: Stores, id: bytes, d: DesiredIntent, b: bytes)
    requires AckTold(codec, s0, s, b) && AckClear(codec, d, b)
    ensures AckTold(codec, Watching(s0, id, d), s, b)
  {
    hide Seen, AckRead, Trimmed, Ghost.EventID;
    if AckRead(codec, b).Ok? {
      forall c | Trimmed(c) && Ghost.EventID(c) == AckRead(codec, b).value.eventID
        ensures Seen(Watching(s0, id, d), s, c)
      {
        WatchSeen(s0, s, id, d, c);
      }
    }
  }

  lemma WatchConn(codec: ArgsCodec, s0: Stores, s: Stores, id: bytes, d: DesiredIntent, c: Conn)
    requires ConnTold(codec, s0, s, c) && ConnClear(codec, d, c)
    ensures ConnTold(codec, Watching(s0, id, d), s, c)
  {
    hide WellSent, AckTold, AckClear, EventRead, EventProblemOnWire, ReportsFit, Names, Watching;
    if c.sending.Some? { WatchSent(s0, id, d, c.sending.value); }
    forall b | b in c.toMirage ensures EventTold(codec, Watching(s0, id, d), b) {
      assert EventTold(codec, s0, b) && EventClear(codec, d, b);
      if EventRead(codec, b).Ok? { WatchSent(s0, id, d, EventRead(codec, b).value.1); }
    }
    forall b | b in c.toGhost ensures AckTold(codec, Watching(s0, id, d), s, b) { WatchAck(codec, s0, s, id, d, b); }
  }

  /** A plan for whose commands no ack is on its way can be watched from now on. */
  lemma WatchExtends(codec: ArgsCodec, s0: Stores, n: Net, id: bytes)
    requires Told(codec, s0, n) && id in n.m.loop.desired && Clear(codec, n, n.m.loop.desired[id])
    ensures Told(codec, Watching(s0, id, n.m.loop.desired[id]), n)
  {
    hide ConnTold, ConnClear, Accounted, DistinctIntents;
    var d := n.m.loop.desired[id];
    forall i | i in n.conns ensures ConnTold(codec, Watching(s0, id, d), n.m.loop, n.conns[i]) {
      WatchConn(codec, s0, n.m.loop, id, d, n.conns[i]);
    }
  }

  // ---------------------------------------------------------------- every step, every run

  ghost predicate StepAllowed(s0: Stores, n: Net, step: Step)
  {
    match step
    case Start(_, e, now) => WellSent(s0, WireEvent(e, now))
    case Loop(call) => CallAllowed(n.m.loop, call)
    case _ => true
  }

  /** `n'` comes from `n` by a submission after which the plan is clear. */
  ghost predicate Launches(codec: ArgsCodec, n': Net, step: Step)
  {
    && step.Loop? && step.call.SubmitCall? && step.call.issue.intentID in n'.m.loop.desired
    && Clear(codec, n', n'.m.loop.desired[step.call.issue.intentID])
  }

  /** The plans watched after a step: a plan submitted while it is clear joins them. */
  ghost function NextWatched(codec: ArgsCodec, s0: Stores, n: Net, step: Step): Stores
  {
    var n' := Next(codec, n, step);
    if Launches(codec, n', step)
    then Watching(s0, step.call.issue.intentID, n'.m.loop.desired[step.call.issue.intentID]) else s0
  }

  ghost function Watched(codec: ArgsCodec, s0: Stores, n: Net, steps: seq<Step>): Stores
    decreases |steps|
  {
    if steps == [] then s0
    else Watched(codec, NextWatched(codec, s0, n, steps[0]), Next(codec, n, steps[0]), steps[1..])
  }

  ghost predicate Allowed(codec: ArgsCodec, s0: Stores, n: Net, steps: seq<Step>)
    decreases |steps|
  {
    steps == []
    || (StepAllowed(s0, n, steps[0])
        && Allowed(codec, NextWatched(codec, s0, n, steps[0]), Next(codec, n, steps[0]), steps[1..]))
  }

  lemma ClientStepTells(codec: ArgsCodec, s0: Stores, n: Net, i: nat, c': Conn, answer: Option<Answered>)
    requires Told(codec, s0, n) && i in n.conns && ConnTold(codec, s0, n.m.loop, c')
    requires answer.Some? ==> Seen(s0, n.m.loop, answer.value.event.commandID)
    ensures var n' := n.(conns := n.conns[i := c'],
                         answers := if answer.Some? then n.answers + [answer.value] else n.answers);
            Told(codec, s0, n') && Moves(s0, n, n')
  {
    hide LoopInOrder, ConnTold, Seen, SeenLater;
    SameLater(s0, n.m.loop);
    assert LoopInOrder(s0, n.m.loop) by { ToldParts(codec, s0, n, i); }
    StepTells(codec, s0, n, n.(conns := n.conns[i := c'],
                               answers := if answer.Some? then n.answers + [answer.value] else n.answers), i);
  }

  lemma SendingTold(codec: ArgsCodec, s0: Stores, s: Stores, c: Conn)
    requires ConnTold(codec, s0, s, c)
    ensures c.sending.Some? ==> WellSent(s0, c.sending.value)
  {
  }

  lemma StartedTold(s0: Stores, c: Conn, e: Event, now: u64)
    requires (c.sending.Some? ==> WellSent(s0, c.sending.value)) && WellSent(s0, WireEvent(e, now))
    ensures StartCall(c, e, now).sending.Some? ==> WellSent(s0, StartCall(c, e, now).sending.value)
  {
    hide WellSent, WireEvent, EventProblem;
  }

  lemma ConnStepTells(codec: ArgsCodec, s0: Stores, n: Net, step: Step)
    requires codec.Exact() && Piped(codec, n) && Told(codec, s0, n) && StepAllowed(s0, n, step)
    requires !step.Connect? && !step.Loop? && step.conn in n.conns
    ensures Told(codec, s0, Next(codec, n, step)) && Moves(s0, n, Next(codec, n, step))
  {
    hide Piped, Told, Moves, ConnTold, WellSent, StartCall, SendOnce, ReadOnce, ServeOnce, Closed, WireEvent, Seen;
    var i, c, s := step.conn, n.conns[step.conn], n.m.loop;
    ToldParts(codec, s0, n, i);
    SendingTold(codec, s0, s, c);
    match step
    case Start(_, e, now) =>
      StartIsIdle(c, e, now);
      StartedTold(s0, c, e, now);
      IdleTells(codec, s0, s, c, StartCall(c, e, now));
      ClientStepTells(codec, s0, n, i, StartCall(c, e, now), None);
    case Send(_) =>
      SendTells(codec, s0, s, c);
      ClientStepTells(codec, s0, n, i, SendOnce(codec, c), None);
    case WriteFails(_) =>
      var c' := if c.waiting then c else c.(nextID := NextU64(c.nextID));
      IdleTells(codec, s0, s, c, c');
      ClientStepTells(codec, s0, n, i, c', None);
    case ReadAck(_) =>
      ReadTells(codec, s0, s, c);
      var (c', answer) := ReadOnce(codec, c);
      ClientStepTells(codec, s0, n, i, c', answer);
    case ReadFails(_) =>
      IdleTells(codec, s0, s, c, c.(waiting := false));
      ClientStepTells(codec, s0, n, i, c.(waiting := false), None);
    case GiveUp(_) =>
      var c' := if c.waiting then c else c.(sending := None);
      IdleTells(codec, s0, s, c, c');
      ClientStepTells(codec, s0, n, i, c', None);
    case Serve(_, owner, now, written) => ServeTells(codec, s0, n, i, owner, now, written);
    case Hangup(_) => HangupTells(codec, s0, n, i); StandsStill(s0, n, Next(codec, n, step));
  }

  lemma HangupTells(codec: ArgsCodec, s0: Stores, n: Net, i: nat)
    requires Told(codec, s0, n) && i in n.conns
    ensures Told(codec, s0, Closed(n, i)) && Closed(n, i).m.loop == n.m.loop && Closed(n, i).answers == n.answers
  {
    hide LoopInOrder, EventTold, AckTold, WellSent, Seen, MirageServer.Applied;
  }

  lemma NextTells(codec: ArgsCodec, s0: Stores, n: Net, step: Step)
    requires codec.Exact() && Piped(codec, n) && Told(codec, s0, n) && StepAllowed(s0, n, step)
    ensures Told(codec, s0, Next(codec, n, step)) && Moves(s0, n, Next(codec, n, step))
  {
    StandsStill(s0, n, n);
    hide Piped, Told, Moves, WellSent, CallAllowed, StartCall, SendOnce, ReadOnce, ServeOnce, Called, Closed, WireEvent, Registering;
    if step.Connect? {
      if step.conn !in n.conns { ConnectTells(codec, s0, n, step); }
    } else if step.Loop? {
      CalledRegistry(codec, n.m, step.call);
      LoopTells(codec, s0, n, step.call);
    } else if step.conn in n.conns {
      ConnStepTells(codec, s0, n, step);
    }
  }

  lemma ConnectTells(codec: ArgsCodec, s0: Stores, n: Net, step: Step)
    requires Told(codec, s0, n) && step.Connect? && step.conn !in n.conns
    ensures Told(codec, s0, Next(codec, n, step)) && Moves(s0, n, Next(codec, n, step))
  {
    hide LoopInOrder, EventTold, AckTold, WellSent, Seen, MirageServer.Applied;
    StandsStill(s0, n, Next(codec, n, step));
  }

  lemma LoopTells(codec: ArgsCodec, s0: Stores, n: Net, call: Call)
    requires Told(codec, s0, n) && CallAllowed(n.m.loop, call)
    ensures Told(codec, s0, Next(codec, n, Loop(call))) && Moves(s0, n, Next(codec, n, Loop(call)))
  {
    hide LoopInOrder, ConnTold, Seen, SeenLater, CallAllowed, Called, Apply;
    CalledRegistry(codec, n.m, call);
    CallTells(codec, s0, n.m.loop, call);
    StepTells(codec, s0, n, Next(codec, n, Loop(call)), 0);
  }

  lemma WatchedKeepsPlans(codec: ArgsCodec, s0: Stores, n: Net, step: Step)
    requires Told(codec, s0, Next(codec, n, step))
    ensures KeepsPlans(s0, NextWatched(codec, s0, n, step))
  {
    hide Accounted, DistinctIntents, ConnTold, Clear;
    var n' := Next(codec, n, step);
    hide Next;
  }

  lemma {:induction false} RunTells(codec: ArgsCodec, s0: Stores, n: Net, steps: seq<Step>)
    requires codec.Exact() && Piped(codec, n) && Told(codec, s0, n) && Allowed(codec, s0, n, steps)
    ensures Told(codec, Watched(codec, s0, n, steps), Steps(codec, n, steps)) && Moves(s0, n, Steps(codec, n, steps))
    ensures KeepsPlans(s0, Watched(codec, s0, n, steps))
    decreases |steps|
  {
    StandsStill(s0, n, n);
    hide Next, Piped, Told, Moves, StepAllowed, Clear, StoredLater;
    if steps != [] {
      var n1 := Next(codec, n, steps[0]);
      NextKeeps(codec, n, steps[0]);
      NextTells(codec, s0, n, steps[0]);
      if Launches(codec, n1, steps[0]) { WatchExtends(codec, s0, n1, steps[0].call.issue.intentID); }
      WatchedKeepsPlans(codec, s0, n, steps[0]);
      var s1 := NextWatched(codec, s0, n, steps[0]);
      RunTells(codec, s1, n1, steps[1..]);
      MovesForFewer(s0, s1, n1, Steps(codec, n1, steps[1..]));
      MovesOn(s0, n, n1, Steps(codec, n1, steps[1..]));
    }
  }

  /** One event for the command, and the index holds it. */
  predicate ObservedOnce(o: ObservedIntent, commandID: bytes)
  {
    && commandID in o.byCommandID
    && (exists k :: 0 <= k < |o.events| && o.events[k].commandID == commandID && o.byCommandID[commandID] == o.events[k])
    && (forall j, k | 0 <= j < |o.events| && 0 <= k < |o.events| ::
          o.events[j].commandID == commandID && o.events[k].commandID == commandID ==> j == k)
  }

  lemma SeenOnce(s: Stores, id: bytes, commandID: bytes)
    requires Accounted(s) && id in s.desired && commandID in ObservedOf(s, id).byCommandID
    ensures ObservedOnce(ObservedOf(s, id), commandID)
  {
    hide PlansInOrder, PlannedIDs, PendingCount, Indexed, DistinctIDs, Concluded;
    IntentInOrder(s, id);
    var o := ObservedOf(s, id);
    OneEntryPerKey(o.events);
    var k := IndexedComes(o.events, commandID);
  }

  /** A run is its first steps and then the others. */
  lemma {:induction false} RunSplits(codec: ArgsCodec, s0: Stores, n: Net, steps: seq<Step>, k: nat)
    requires k <= |steps|
    ensures var (n1, s1) := (Steps(codec, n, steps[..k]), Watched(codec, s0, n, steps[..k]));
            && Steps(codec, n, steps) == Steps(codec, n1, steps[k..])
            && Watched(codec, s0, n, steps) == Watched(codec, s1, n1, steps[k..])
            && (Allowed(codec, s0, n, steps) <==>
                  Allowed(codec, s0, n, steps[..k]) && Allowed(codec, s1, n1, steps[k..]))
    decreases |steps|
  {
    hide Next, NextWatched, StepAllowed;
    if k == 0 {
      assert steps[0..] == steps && steps[..0] == [];
    } else {
      assert steps[..k][0] == steps[0] && steps[..k][1..] == steps[1..][..k - 1] && steps[1..][k - 1..] == steps[k..];
      RunSplits(codec, NextWatched(codec, s0, n, steps[0]), Next(codec, n, steps[0]), steps[1..], k - 1);
    }
  }

  /** Every watched plan that has the command is still there and has observed exactly one event for it. */
  ghost predicate ObservedWhereWatched(watched: Stores, s: Stores, commandID: bytes)
  {
    forall id, p :: Owns(watched, id, p, commandID) ==>
      && id in s.desired && s.desired[id] == watched.desired[id]
      && ObservedOnce(ObservedOf(s, id), commandID)
  }

  /** An answer given during a run was given for an observed event. */
  lemma AnsweredSince(codec: ArgsCodec, s0: Stores, n: Net, steps: seq<Step>, j: nat)
    requires codec.Exact() && Piped(codec, n) && Told(codec, s0, n) && Allowed(codec, s0, n, steps)
    requires |n.answers| <= j < |Steps(codec, n, steps).answers|
    ensures var n' := Steps(codec, n, steps); ObservedWhereWatched(s0, n'.m.loop, n'.answers[j].event.commandID)
  {
    hide Accounted, DistinctIntents, Allowed, Steps, Watched, ConnTold, ObservedOnce, Piped, SeenLater;
    RunTells(codec, s0, n, steps);
    var s' := Steps(codec, n, steps).m.loop;
    var c := Steps(codec, n, steps).answers[j].event.commandID;
    forall id, p | Owns(s0, id, p, c)
      ensures && id in s'.desired && s'.desired[id] == s0.desired[id] && ObservedOnce(ObservedOf(s', id), c)
    {
      SeenOnce(s', id, c);
    }
  }

  /** Delivery soundness. Over every run of sends, retries, stale acks, timeouts, disconnects, re-registrations,
      reconciles and submissions: whatever is answered after the first `k` steps, every plan watched by then that has
      the event's command has observed exactly one event for it. */
  lemma AnsweredMeansObserved(codec: ArgsCodec, s0: Stores, n: Net, steps: seq<Step>, k: nat, j: nat)
    requires codec.Exact() && Piped(codec, n) && Told(codec, s0, n) && Allowed(codec, s0, n, steps) && k <= |steps|
    requires |Steps(codec, n, steps[..k]).answers| <= j < |Steps(codec, n, steps).answers|
    ensures var n' := Steps(codec, n, steps);
            ObservedWhereWatched(Watched(codec, s0, n, steps[..k]), n'.m.loop, n'.answers[j].event.commandID)
  {
    hide Allowed, Steps, Watched, Told, Moves, ObservedWhereWatched, Piped, StoredLater;
    RunSplits(codec, s0, n, steps, k);
    RunIsPiped(codec, n, steps[..k]);
    RunTells(codec, s0, n, steps[..k]);
    AnsweredSince(codec, Watched(codec, s0, n, steps[..k]), Steps(codec, n, steps[..k]), steps[k..], j);
  }

  /** A plan submitted at any point of the run, when it is clear, is watched from then on. */
  lemma SubmittedIsWatched(codec: ArgsCodec, s0: Stores, n: Net, steps: seq<Step>, k: nat, l: nat)
    requires codec.Exact() && Piped(codec, n) && Told(codec, s0, n) && Allowed(codec, s0, n, steps)
    requires k < l <= |steps| && Launches(codec, Steps(codec, n, steps[..k + 1]), steps[k])
    ensures var id := steps[k].call.issue.intentID; var watched := Watched(codec, s0, n, steps[..l]);
            id in watched.desired && watched.desired[id] == Steps(codec, n, steps[..k + 1]).m.loop.desired[id]
  {
    hide Allowed, Told, Piped, StoredLater, Next, Moves, Clear, StepAllowed;
    var first := steps[..k + 1];
    RunSplits(codec, s0, n, steps, l);
    RunSplits(codec, s0, n, steps[..l], k + 1);
    assert steps[..l][..k + 1] == first;
    RunSplits(codec, s0, n, first, k);
    assert first[..k] == steps[..k] && first[k..] == [steps[k]];
    LastWatched(codec, Watched(codec, s0, n, steps[..k]), Steps(codec, n, steps[..k]), steps[k]);
    RunIsPiped(codec, n, first);
    RunTells(codec, s0, n, first);
    RunTells(codec, Watched(codec, s0, n, first), Steps(codec, n, first), steps[..l][k + 1..]);
  }

  lemma LastWatched(codec: ArgsCodec, s0: Stores, n: Net, step: Step)
    ensures Watched(codec, s0, n, [step]) == NextWatched(codec, s0, n, step)
    ensures Steps(codec, n, [step]) == Next(codec, n, step)
  {
    hide Next, NextWatched;
    assert [step][1..] == [];
    assert Watched(codec, NextWatched(codec, s0, n, step), Next(codec, n, step), []) == NextWatched(codec, s0, n, step);
    assert Steps(codec, Next(codec, n, step), []) == Next(codec, n, step);
  }

  /** From boot: every plan is watched that was clear when it was submitted. */
  lemma DeliveryFromBoot(codec: ArgsCodec, steps: seq<Step>, k: nat, l: nat, j: nat, p: PlannedCommand)
    requires codec.Exact() && Allowed(codec, EMPTY, QUIET, steps) && k < l <= |steps|
    requires Launches(codec, Steps(codec, QUIET, steps[..k + 1]), steps[k])
    requires |Steps(codec, QUIET, steps[..l]).answers| <= j < |Steps(codec, QUIET, steps).answers|
    requires p in Steps(codec, QUIET, steps[..k + 1]).m.loop.desired[steps[k].call.issue.intentID].commands
    requires p.command.commandID == Steps(codec, QUIET, steps).answers[j].event.commandID
    ensures ObservedOnce(ObservedOf(Steps(codec, QUIET, steps).m.loop, steps[k].call.issue.intentID), p.command.commandID)
  {
    var id := steps[k].call.issue.intentID;
    hide Allowed, Steps, Watched, Told, Piped, Launches, ObservedOnce;
    EmptyAccounted();
    QuietIsTold(codec, QUIET);
    QuietIsPiped(codec, MirageServer.BOOTED);
    SubmittedIsWatched(codec, EMPTY, QUIET, steps, k, l);
    AnsweredMeansObserved(codec, EMPTY, QUIET, steps, l, j);
    assert Owns(Watched(codec, EMPTY, QUIET, steps[..l]), id, p, p.command.commandID);
  }

  // ---------------------------------------------------------------- acknowledged, observed or not

  /** The connection loop acknowledges whatever it can decode. For an event of a planned command not yet observed the
      ack is stored in any case, and the event is observed exactly when it is a valid message, which decoding does not
      check, and its report fits in a frame. */
  lemma AcknowledgedIsObservedIff(m: MirageServer.MirageState, key: bytes, p: PlannedCommand, g: bytes, e: Event, now: u64)
    requires RegistryInOrder(m.registry) && Accounted(m.loop) && Owns(m.loop, key, p, e.commandID)
    requires e.commandID !in ObservedOf(m.loop, key).byCommandID
    ensures var o := ObservedOf(m.loop, key); var m' := MirageServer.Observe(m, Some((key, p)), e, now).0;
            var (r', ack) := MirageServer.Accept(m'.registry, g, e, now);
            && Stored(r', g, ack) && ack.eventID == e.eventID
            && (e.commandID in ObservedOf(m'.loop, key).byCommandID <==>
                  EventProblemOnWire(e) == None && ReportFits(m.loop.desired[key], |o.byCommandID|, e, now))
  {
    hide Accounted, EventProblemOnWire, ReportFits, IngestReport, SettledReport, RegistryInOrder, Stored, MirageServer.Accept;
    ShapeIsNamed(m.loop, key);
    ReportableIff(m.loop.desired[key], ObservedOf(m.loop, key), e, now);
    AcceptStores(m.registry, g, e, now);
  }

  /** An event with a blank field passes the decoder all the same: only lengths and types are checked there. */
  lemma BlankFieldsDecode(codec: ArgsCodec, id: u64, e: Event)
    requires codec.Exact() && |Payload(codec, EventEnvelope(e))| <= MAX_PAYLOAD
    ensures var f := Written(OutFrame(EventKind, id, Payload(codec, EventEnvelope(e))), DEFAULT_LIMITS);
            f.Ok? && EventRead(codec, f.value) == Ok((id, e))
  {
    hide Read, Payload, Decoded, HeaderBytes, EventFields;
    var out := OutFrame(EventKind, id, Payload(codec, EventEnvelope(e)));
    var b := Written(out, DEFAULT_LIMITS).value;
    NeverMisread(out, []);
    assert b + [] == b;
    PayloadRoundTrip(codec, EventEnvelope(e));
  }
}
