/** internal/mirage/server.go: lifecycle, ghost registry with write-once acks, report history. */
module MirageServer {
  import opened Bytes
  import opened Errors
  import opened Session
  import opened Planning
  import opened Orchestration

  const ACCEPTED: bytes := Ascii("accepted")

  datatype LifecyclePhase = Boot | Appeared | Shimmer | Seeded

  /** Times are clock readings; 0 is Go's zero time. */
  datatype Meta = Meta(ghostID: bytes, remoteAddr: bytes, registeredAt: u64, lastEventAt: u64, eventCount: u64, connected: bool)

  datatype Registered = Registered(meta: Meta, ackByEvent: map<bytes, EventAck>)

  type Registry = map<bytes, Registered>

  datatype MirageState = MirageState(mirageID: bytes, phase: LifecyclePhase, registry: Registry, loop: Stores, reports: seq<Report>)

  const BOOTED: MirageState := MirageState([], Boot, map[], EMPTY, [])

  // ---------------------------------------------------------------- the registry

  /** A ghost the registry has not seen yet. */
  const UNSEEN: Registered := Registered(Meta([], [], 0, 0, 0, false), map[])

  function Entry(r: Registry, ghostID: bytes): Registered { if ghostID in r then r[ghostID] else UNSEEN }

  /** UpsertRegistration: counters, acks and the first registration time survive a re-registration. */
  function Upserted(r: Registry, remoteAddr: bytes, ghostID: bytes, now: u64): Registry
  {
    var was := Entry(r, ghostID);
    r[ghostID := was.(meta := Meta(ghostID, remoteAddr, if was.meta.registeredAt == 0 then now else was.meta.registeredAt,
                                    was.meta.lastEventAt, was.meta.eventCount, true))]
  }

  function Disconnected(r: Registry, ghostID: bytes): Registry
  {
    if ghostID !in r then r else r[ghostID := r[ghostID].(meta := r[ghostID].meta.(connected := false, remoteAddr := []))]
  }

  function NewAck(ghostID: bytes, e: Event, now: u64): EventAck
  {
    EventAck(e.eventID, e.commandID, ghostID, ACCEPTED, 0, now)
  }

  /** AcceptEvent: the first event under an id stores its ack, every later one is answered with it. */
  function Accept(r: Registry, ghostID: bytes, e: Event, now: u64): (Registry, EventAck)
  {
    var was := if ghostID in r then r[ghostID] else Registered(Meta(ghostID, [], now, 0, 0, false), map[]);
    if e.eventID in was.ackByEvent then (r[ghostID := was], was.ackByEvent[e.eventID])
    else
      var ack := NewAck(ghostID, e, now);
      (r[ghostID := Registered(was.meta.(lastEventAt := now, eventCount := NextU64(was.meta.eventCount)),
                               was.ackByEvent[e.eventID := ack])], ack)
  }

  // ---------------------------------------------------------------- the whole server

  function Advance(m: MirageState, from: LifecyclePhase, to: LifecyclePhase): (MirageState, Option<Error>)
  {
    if m.phase != from then (m, Some(LifecycleOrder)) else (m.(phase := to), None)
  }

  function AppearedAs(m: MirageState, mirageID: bytes): (MirageState, Option<Error>)
  {
    if Blank(mirageID) then (m, Some(InvalidMirageID))
    else if m.phase != Boot then (m, Some(LifecycleOrder))
    else (m.(mirageID := TrimSpace(mirageID), phase := Appeared), None)
  }

  /** ObserveEvent: every matched event adds a report, a repeated one too. */
  function Observe(m: MirageState, owner: Option<(bytes, PlannedCommand)>, e: Event, now: u64): (MirageState, Ingested)
    requires owner.Some? ==> owner.value.0 in m.loop.desired
  {
    var (s', r) := Ingest(m.loop, owner, e, now);
    (m.(loop := s', reports := if r.Matched? then m.reports + [r.report] else m.reports), r)
  }

  function Reconciled(m: MirageState, codec: ArgsCodec, intentID: bytes, execute: Executor, now: u64): (MirageState, Result<Report>)
  {
    var (s', r) := Reconcile(m.loop, codec, intentID, execute, now);
    (m.(loop := s', reports := if r.Ok? then m.reports + [r.value] else m.reports), r)
  }

  // ---------------------------------------------------------------- the code

  class Server {
    var mirageID: bytes
    var phase: LifecyclePhase
    var registry: Registry
    const loop: Orchestrator
    var reports: seq<Report>

    ghost function State(): MirageState
      reads this, loop
    {
      MirageState(mirageID, phase, registry, loop.State(), reports)
    }

    constructor (codec: ArgsCodec)
      ensures State() == BOOTED && loop.codec == codec && fresh(loop)
    {
      mirageID, phase, registry, reports := [], Boot, map[], [];
      loop := new Orchestrator(codec);
    }

    method Appear(id: bytes) returns (problem: Option<Error>)
      modifies this
      ensures (State(), problem) == AppearedAs(old(State()), id)
    {
      var key := TrimSpace(id);
      if key == [] { return Some(InvalidMirageID); }
      if phase != Boot { return Some(LifecycleOrder); }
      mirageID, phase := key, Appeared;
      return None;
    }

    method Shimmer() returns (problem: Option<Error>)
      modifies this
      ensures (State(), problem) == Advance(old(State()), Appeared, LifecyclePhase.Shimmer)
    {
      if phase != Appeared { return Some(LifecycleOrder); }
      phase := LifecyclePhase.Shimmer;
      return None;
    }

    method Seed() returns (problem: Option<Error>)
      modifies this
      ensures (State(), problem) == Advance(old(State()), LifecyclePhase.Shimmer, Seeded)
    {
      if phase != LifecyclePhase.Shimmer { return Some(LifecycleOrder); }
      phase := Seeded;
      return None;
    }

    method UpsertRegistration(remoteAddr: bytes, ghostID: bytes, now: u64)
      modifies this
      ensures State() == old(State()).(registry := Upserted(old(registry), remoteAddr, ghostID, now))
    {
      var state := if ghostID in registry then registry[ghostID] else UNSEEN;
      if state.meta.registeredAt == 0 { state := state.(meta := state.meta.(registeredAt := now)); }
      var registered := Meta(ghostID, remoteAddr, state.meta.registeredAt, state.meta.lastEventAt, state.meta.eventCount, true);
      registry := registry[ghostID := state.(meta := registered)];
    }

    method MarkGhostDisconnected(ghostID: bytes)
      modifies this
      ensures State() == old(State()).(registry := Disconnected(old(registry), ghostID))
    {
      if ghostID !in registry { return; }
      var state := registry[ghostID];
      registry := registry[ghostID := state.(meta := state.meta.(connected := false, remoteAddr := []))];
    }

    method AcceptEvent(ghostID: bytes, event: Event, now: u64) returns (ack: EventAck)
      modifies this
      ensures State() == old(State()).(registry := Accept(old(registry), ghostID, event, now).0)
      ensures ack == Accept(old(registry), ghostID, event, now).1
    {
      if ghostID !in registry {
        registry := registry[ghostID := Registered(Meta(ghostID, [], now, 0, 0, false), map[])];
      }
      var state := registry[ghostID];
      if event.eventID in state.ackByEvent {
        assert registry == old(registry)[ghostID := state];
        return state.ackByEvent[event.eventID];
      }
      ack := NewAck(ghostID, event, now);
      registry := registry[ghostID := Registered(state.meta.(lastEventAt := now, eventCount := NextU64(state.meta.eventCount)),
                                                 state.ackByEvent[event.eventID := ack])];
    }

    method ReconcileIntent(intentID: bytes, execute: Executor, now: u64) returns (r: Result<Report>)
      requires loop.codec.Exact()
      modifies this, loop
      ensures (State(), r) == Reconciled(old(State()), loop.codec, intentID, execute, now)
    {
      hide Reconcile;
      r := loop.ReconcileOnce(intentID, execute, now);
      if r.Ok? { reports := reports + [r.value]; }
    }

    method ObserveEvent(event: Event, now: u64) returns (r: Ingested)
      requires loop.codec.Exact()
      modifies this, loop
      ensures exists owner :: OwnerFound(old(loop.State()), TrimSpace(event.commandID), owner)
                              && (State(), r) == Observe(old(State()), owner, event, now)
    {
      hide Ingest;
      r := loop.IngestObservedEvent(event, now);
      if r.Matched? { reports := reports + [r.report]; }
      ghost var owner :| OwnerFound(old(loop.State()), TrimSpace(event.commandID), owner)
                         && (loop.State(), r) == Ingest(old(loop.State()), owner, event, now);
      assert (State(), r) == Observe(old(State()), owner, event, now);
    }

    method RecentReports(limit: int) returns (out: seq<Report>)
      ensures |reports| <= limit || limit <= 0 ==> out == reports
      ensures 0 < limit < |reports| ==> out == reports[|reports| - limit..]
    {
      if limit <= 0 || |reports| <= limit { return reports; }
      return reports[|reports| - limit..];
    }
  }

  // ---------------------------------------------------------------- exactly-once effect

  /** The atomic operations on the registry, in whatever order connections cause them. */
  datatype Op =
    | RegisterOp(ghostID: bytes, remoteAddr: bytes, at: u64)
    | DisconnectOp(ghostID: bytes)
    | AcceptOp(ghostID: bytes, event: Event, at: u64)

  function Applied(r: Registry, op: Op): Registry
  {
    match op
    case RegisterOp(g, addr, now) => Upserted(r, addr, g, now)
    case DisconnectOp(g) => Disconnected(r, g)
    case AcceptOp(g, e, now) => Accept(r, g, e, now).0
  }

  function AppliedAll(r: Registry, ops: seq<Op>): Registry
  {
    if ops == [] then r else Applied(AppliedAll(r, ops[..|ops| - 1]), ops[|ops| - 1])
  }

  /** The ids of the events a ghost has sent. */
  function EventIDs(ops: seq<Op>, ghostID: bytes): set<bytes>
  {
    if ops == [] then {}
    else
      var last := ops[|ops| - 1];
      EventIDs(ops[..|ops| - 1], ghostID) + if last.AcceptOp? && last.ghostID == ghostID then {last.event.eventID} else {}
  }

  /** Low 64 bits. */
  function Low64(n: nat): u64 { n % 0x1_0000_0000_0000_0000 }

  lemma Low64Next(n: nat)
    ensures Low64(n + 1) == NextU64(Low64(n))
  {
  }

  /** The counter says how many acks are stored. */
  predicate Counted(x: Registered) { x.meta.eventCount == Low64(|x.ackByEvent|) }

  lemma AcceptCounts(r: Registry, g: bytes, e: Event, now: u64)
    requires Counted(Entry(r, g))
    ensures var x, x' := Entry(r, g), Entry(Accept(r, g, e, now).0, g);
            && Counted(x') && x'.ackByEvent.Keys == x.ackByEvent.Keys + {e.eventID}
            && forall id :: id in x.ackByEvent ==> x'.ackByEvent[id] == x.ackByEvent[id]
  {
    hide Low64;
    CountedUnseen();
    var acks := Entry(r, g).ackByEvent;
    Low64Next(|acks|);
    if e.eventID !in acks {
      assert |acks[e.eventID := NewAck(g, e, now)]| == |acks| + 1;
    }
  }

  lemma StepCounts(r: Registry, op: Op, g: bytes)
    requires Counted(Entry(r, g))
    ensures var r' := Applied(r, op);
            && Counted(Entry(r', g))
            && Entry(r', g).ackByEvent.Keys == Entry(r, g).ackByEvent.Keys
                                             + (if op.AcceptOp? && op.ghostID == g then {op.event.eventID} else {})
            && forall id :: id in Entry(r, g).ackByEvent ==> Entry(r', g).ackByEvent[id] == Entry(r, g).ackByEvent[id]
  {
    hide Low64;
    if op.AcceptOp? && op.ghostID == g {
      AcceptCounts(r, g, op.event, op.at);
    }
  }

  lemma CountedUnseen()
    ensures Counted(UNSEEN) && Low64(0) == 0
  {
  }

  /** From an empty registry, over every run of registrations, re-registrations, disconnects and events, repeated
      ones included: the acks stored for a ghost are under exactly the distinct event ids it has sent, and its
      EventCount is how many those are. */
  lemma {:induction false} CountIsDistinct(ops: seq<Op>, g: bytes)
    ensures var x := Entry(AppliedAll(map[], ops), g);
            x.ackByEvent.Keys == EventIDs(ops, g) && x.meta.eventCount == Low64(|EventIDs(ops, g)|)
    ensures Counted(Entry(AppliedAll(map[], ops), g))
  {
    hide Applied, Low64;
    CountedUnseen();
    if ops != [] {
      CountIsDistinct(ops[..|ops| - 1], g);
      StepCounts(AppliedAll(map[], ops[..|ops| - 1]), ops[|ops| - 1], g);
    }
    var x := Entry(AppliedAll(map[], ops), g);
    assert |x.ackByEvent| == |x.ackByEvent.Keys|;
  }

  /** A stored ack never changes, and a repeated event is answered with it. */
  lemma {:induction false} AcksWriteOnce(r: Registry, ops: seq<Op>, g: bytes, e: Event, now: u64)
    requires Counted(Entry(r, g)) && e.eventID in Entry(r, g).ackByEvent
    ensures var r' := AppliedAll(r, ops);
            && Counted(Entry(r', g))
            && e.eventID in Entry(r', g).ackByEvent
            && Entry(r', g).ackByEvent[e.eventID] == Entry(r, g).ackByEvent[e.eventID]
            && Accept(r', g, e, now) == (r', Entry(r, g).ackByEvent[e.eventID])
  {
    hide Applied;
    if ops != [] {
      AcksWriteOnce(r, ops[..|ops| - 1], g, e, now);
      StepCounts(AppliedAll(r, ops[..|ops| - 1]), ops[|ops| - 1], g);
    }
    var r' := AppliedAll(r, ops);
    if g in r' { assert r'[g := r'[g]] == r'; }
  }

  /** The orchestrator ignores a repeated event; the server's own report list still grows by one. */
  lemma ReplayOnlyReports(m: MirageState, owner: Option<(bytes, PlannedCommand)>, e: Event, now: u64)
    requires owner.Some? && owner.value.0 in m.loop.desired && e.commandID in ObservedOf(m.loop, owner.value.0).byCommandID
    ensures var d, o := m.loop.desired[owner.value.0], ObservedOf(m.loop, owner.value.0);
            Observe(m, owner, e, now)
            == (m.(reports := m.reports + [SettledReport(d, o, now)]), Matched(SettledReport(d, o, now)))
  {
    hide SettledReport, IngestReport;
    var key := owner.value.0;
    if key in m.loop.observed {
      assert m.loop.observed[key := m.loop.observed[key]] == m.loop.observed;
    }
  }

  // ---------------------------------------------------------------- what acks say

  /** Operation `i` is the first that accepts an event from ghost `g` under event id `k`. */
  predicate FirstAccept(ops: seq<Op>, g: bytes, k: bytes, i: nat)
  {
    && i < |ops| && ops[i].AcceptOp? && ops[i].ghostID == g && ops[i].event.eventID == k
    && forall j :: 0 <= j < i ==> !(ops[j].AcceptOp? && ops[j].ghostID == g && ops[j].event.eventID == k)
  }

  /** The ack of that operation: accepted, code 0, its event's ids, its ghost, its time. */
  predicate AckOf(op: Op, a: EventAck)
    requires op.AcceptOp?
  {
    && a.eventID == op.event.eventID && a.commandID == op.event.commandID && a.ghostID == op.ghostID
    && a.ackStatus == Ascii("accepted") && a.ackCode == 0 && a.timestampMS == op.at
  }

  lemma FirstAcceptStays(ops: seq<Op>, op: Op, g: bytes, k: bytes, i: nat)
    requires FirstAccept(ops, g, k, i)
    ensures FirstAccept(ops + [op], g, k, i)
  {
    assert forall j :: 0 <= j < |ops| ==> (ops + [op])[j] == ops[j];
  }

  /** One operation: stored acks stay, and a new one is the operation's. */
  lemma AckAdded(r: Registry, op: Op, g: bytes, k: bytes)
    ensures var (acks, acks') := (Entry(r, g).ackByEvent, Entry(Applied(r, op), g).ackByEvent);
            && (k in acks ==> k in acks' && acks'[k] == acks[k])
            && (k in acks' && k !in acks ==>
                  op.AcceptOp? && op.ghostID == g && op.event.eventID == k && AckOf(op, acks'[k]))
            && (op.AcceptOp? && op.ghostID == g && op.event.eventID == k ==> k in acks')
  {
  }

  /** From an empty registry, over every run: whatever is stored for a ghost under an event id is the ack of the first
      event accepted from that ghost under that id. */
  lemma {:induction false} AcksTellTheFirst(ops: seq<Op>, g: bytes, k: bytes) returns (i: nat)
    ensures var acks := Entry(AppliedAll(map[], ops), g).ackByEvent;
            if k in acks then FirstAccept(ops, g, k, i) && AckOf(ops[i], acks[k])
            else forall j :: 0 <= j < |ops| ==> !(ops[j].AcceptOp? && ops[j].ghostID == g && ops[j].event.eventID == k)
  {
    hide Applied, AckOf;
    i := 0;
    if ops != [] {
      var was, last := ops[..|ops| - 1], ops[|ops| - 1];
      i := AcksTellTheFirst(was, g, k);
      AckAdded(AppliedAll(map[], was), last, g, k);
      assert ops == was + [last];
      if k in Entry(AppliedAll(map[], was), g).ackByEvent {
        FirstAcceptStays(was, last, g, k, i);
      } else {
        i := |ops| - 1;
        assert forall j :: 0 <= j < |was| ==> ops[j] == was[j];
      }
    }
  }

  // ---------------------------------------------------------------- what registrations say

  /** Operation `i` is the latest that registers ghost `g`, and no disconnect follows. */
  predicate ConnectedBy(ops: seq<Op>, g: bytes, i: nat)
  {
    && i < |ops| && ops[i].RegisterOp? && ops[i].ghostID == g
    && forall j :: i < j < |ops| ==> ops[j].AcceptOp? || ops[j].ghostID != g
  }

  lemma ConnectionStays(ops: seq<Op>, op: Op, g: bytes, i: nat)
    requires ConnectedBy(ops, g, i) && (op.AcceptOp? || op.ghostID != g)
    ensures ConnectedBy(ops + [op], g, i)
  {
    assert forall j :: 0 <= j < |ops| ==> (ops + [op])[j] == ops[j];
  }

  lemma NotConnectedStays(ops: seq<Op>, op: Op, g: bytes)
    requires !(op.RegisterOp? && op.ghostID == g)
    requires (op.DisconnectOp? && op.ghostID == g) || forall i: nat :: !ConnectedBy(ops, g, i)
    ensures forall i: nat :: !ConnectedBy(ops + [op], g, i)
  {
    var all, n := ops + [op], |ops|;
    assert all[n] == op && forall j :: 0 <= j < n ==> all[j] == ops[j];
    forall i: nat ensures !ConnectedBy(all, g, i) {
      if !(op.DisconnectOp? && op.ghostID == g) { assert !ConnectedBy(ops, g, i); }
    }
  }

  /** What one operation does to what is shown of a ghost. */
  lemma OneConnection(r: Registry, op: Op, g: bytes)
    ensures var (m, m') := (Entry(r, g).meta, Entry(Applied(r, op), g).meta);
            if op.RegisterOp? && op.ghostID == g then m'.connected && m'.remoteAddr == op.remoteAddr && m'.ghostID == g
            else if op.DisconnectOp? && op.ghostID == g then !m'.connected && m'.remoteAddr == []
            else m'.connected == m.connected && m'.remoteAddr == m.remoteAddr && (m.connected ==> m'.ghostID == m.ghostID)
  {
  }

  /** What the registry shows of a ghost: it is connected exactly when its latest registration has not been followed by a
      disconnect, then under that registration's address. */
  lemma {:induction false} ConnectionShown(ops: seq<Op>, g: bytes) returns (i: nat)
    ensures var m := Entry(AppliedAll(map[], ops), g).meta;
            if m.connected then ConnectedBy(ops, g, i) && m.remoteAddr == ops[i].remoteAddr && m.ghostID == g
            else m.remoteAddr == [] && forall j: nat :: !ConnectedBy(ops, g, j)
  {
    hide Applied;
    i := 0;
    if ops != [] {
      var was, last := ops[..|ops| - 1], ops[|ops| - 1];
      i := ConnectionShown(was, g);
      assert ops == was + [last];
      OneConnection(AppliedAll(map[], was), last, g);
      if last.RegisterOp? && last.ghostID == g {
        i := |ops| - 1;
      } else if !(last.DisconnectOp? && last.ghostID == g) && Entry(AppliedAll(map[], was), g).meta.connected {
        ConnectionStays(was, last, g, i);
      } else {
        NotConnectedStays(was, last, g);
      }
    }
  }

  /** The first registration after a ghost's first operation sets its registration time, and no later one changes it;
      the last accepted new event sets its last event time. */
  lemma TimesKept(r: Registry, op: Op, g: bytes)
    ensures var (m, m') := (Entry(r, g).meta, Entry(Applied(r, op), g).meta);
            && (m.registeredAt != 0 ==> m'.registeredAt == m.registeredAt)
            && (m.registeredAt == 0 && op.RegisterOp? && op.ghostID == g ==> m'.registeredAt == op.at)
            && (if op.AcceptOp? && op.ghostID == g && op.event.eventID !in Entry(r, g).ackByEvent
                then m'.lastEventAt == op.at else m'.lastEventAt == m.lastEventAt)
  {
  }

  // ---------------------------------------------------------------- lifecycle

  function Rank(p: LifecyclePhase): nat { if p == Boot then 0 else if p == Appeared then 1 else if p == Shimmer then 2 else 3 }

  /** Boot, appeared, shimmer, seeded: each call succeeds in the phase before its own and in no other, and a refused one
      changes nothing. */
  lemma LifecycleSteps(m: MirageState, id: bytes)
    ensures var (m1, p) := AppearedAs(m, id);
            && (p == None <==> Rank(m.phase) == 0 && !Blank(id))
            && (p == None ==> m1 == m.(mirageID := TrimSpace(id), phase := m1.phase) && Rank(m1.phase) == 1)
            && (p != None ==> m1 == m && p == Some(if Blank(id) then InvalidMirageID else LifecycleOrder))
    ensures var (m1, p) := Advance(m, Appeared, Shimmer);
            && (p == None <==> Rank(m.phase) == 1) && (p == None ==> m1 == m.(phase := m1.phase) && Rank(m1.phase) == 2)
            && (p != None ==> m1 == m && p == Some(LifecycleOrder))
    ensures var (m1, p) := Advance(m, Shimmer, Seeded);
            && (p == None <==> Rank(m.phase) == 2) && (p == None ==> m1 == m.(phase := m1.phase) && Rank(m1.phase) == 3)
            && (p != None ==> m1 == m && p == Some(LifecycleOrder))
  {
    hide TrimSpace;
  }

  datatype LifecycleCall = AppearCall(mirageID: bytes) | ShimmerCall | SeedCall

  function Called(m: MirageState, call: LifecycleCall): (MirageState, Option<Error>)
  {
    match call
    case AppearCall(id) => AppearedAs(m, id)
    case ShimmerCall => Advance(m, Appeared, Shimmer)
    case SeedCall => Advance(m, Shimmer, Seeded)
  }

  function CalledAll(m: MirageState, calls: seq<LifecycleCall>): MirageState
    decreases |calls|
  {
    if calls == [] then m else CalledAll(Called(m, calls[0]).0, calls[1..])
  }

  /** How many of the calls succeed. */
  function Successes(m: MirageState, calls: seq<LifecycleCall>): nat
    decreases |calls|
  {
    if calls == [] then 0
    else (if Called(m, calls[0]).1 == None then 1 else 0) + Successes(Called(m, calls[0]).0, calls[1..])
  }

  /** Whatever lifecycle calls come in whatever order: the phase has moved on by one for each that succeeded, so at most
      three do, and an id once given stays. Registry, orchestrator and reports are left alone. */
  lemma {:induction false} LifecycleInOrder(m: MirageState, calls: seq<LifecycleCall>)
    ensures var m' := CalledAll(m, calls);
            && Rank(m'.phase) == Rank(m.phase) + Successes(m, calls) <= 3
            && (Rank(m.phase) >= 1 ==> m'.mirageID == m.mirageID)
            && m'.registry == m.registry && m'.loop == m.loop && m'.reports == m.reports
    decreases |calls|
  {
    hide TrimSpace, AppearedAs, Advance;
    if calls != [] {
      LifecycleSteps(m, if calls[0].AppearCall? then calls[0].mirageID else []);
      LifecycleInOrder(Called(m, calls[0]).0, calls[1..]);
    }
  }
}
