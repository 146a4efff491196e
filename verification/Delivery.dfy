/** Event delivery: ghosts that send until they read a matching ack (internal/ghost/mirage_client.go), first-in
    first-out connections of whole frames, and Mirage's connection loop (internal/mirage/service.go), interleaved. */
module Delivery {
  import opened Bytes
  import opened Errors
  import opened Schema
  import opened Session
  import opened Framing
  import opened Planning
  import opened Orchestration
  import opened Accounting
  import Tlv
  import Ghost
  import MirageServer

  /** One registered session. `sending` is the event of the call in progress, `waiting` whether its latest attempt
      has written a frame and is reading; `sent` and `read` list the event ids of frames written and acks read. */
  datatype Conn = Conn(ghostID: bytes, toMirage: seq<bytes>, toGhost: seq<bytes>, open: bool, nextID: u64,
                       sending: Option<Event>, waiting: bool, sent: seq<bytes>, read: seq<bytes>)

  /** A call that returned an ack. */
  datatype Answered = Answered(ghostID: bytes, event: Event, ack: EventAck)

  datatype Net = Net(m: MirageServer.MirageState, conns: map<nat, Conn>, answers: seq<Answered>, ops: seq<MirageServer.Op>)

  datatype Step =
    | Connect(conn: nat, ghostID: bytes, remoteAddr: bytes, firstID: u64, at: u64)   // register and be acknowledged
    | Start(conn: nat, event: Event, at: u64)        // SendEventWithAck is called
    | Send(conn: nat)                                // an attempt encodes and writes
    | WriteFails(conn: nat)                          // an attempt fails before anything is written
    | ReadAck(conn: nat)                             // an attempt reads one frame
    | ReadFails(conn: nat)                           // an attempt times out or meets the end of the stream
    | GiveUp(conn: nat)                              // the call ends with an error
    | Serve(conn: nat, owner: Option<(bytes, PlannedCommand)>, at: u64, written: bool)
                                                     // the connection loop takes one frame; what its lookup finds
    | Hangup(conn: nat)                              // the connection loop ends
    | Loop(call: Call)                               // the orchestrator's other callers

  // ---------------------------------------------------------------- the client's side

  /** What travels: every text trimmed, a missing time stamped. */
  function WireEvent(e: Event, now: u64): Event
  {
    Event(TrimSpace(e.eventID), TrimSpace(e.commandID), TrimSpace(e.intentID), TrimSpace(e.ghostID), TrimSpace(e.seedID),
          TrimSpace(e.outcome), if e.timestampMS == 0 then now else e.timestampMS)
  }

  /** An event with trimmed texts travels as it is, only stamped when it bears no time. */
  lemma TravelsAsGiven(e: Event, now: u64)
    requires Trimmed(e.eventID) && Trimmed(e.commandID) && Trimmed(e.intentID) && Trimmed(e.ghostID) && Trimmed(e.seedID)
    requires Trimmed(e.outcome)
    ensures WireEvent(e, now) == if e.timestampMS == 0 then e.(timestampMS := now) else e
  {
    hide TrimSpace, Trimmed;
    TrimmedIsFixed(e.eventID);
    TrimmedIsFixed(e.commandID);
    TrimmedIsFixed(e.intentID);
    TrimmedIsFixed(e.ghostID);
    TrimmedIsFixed(e.seedID);
    TrimmedIsFixed(e.outcome);
  }

  function AckRead(codec: ArgsCodec, b: bytes): Result<EventAck>
  {
    match Read(b, DEFAULT_LIMITS).0
    case Err(e) => Err(e)
    case Ok(f) =>
      match Decoded(codec, AckKind, f.payload)
      case Err(e) => Err(e)
      case Ok(envelope) => DecodesItsKind(codec, AckKind, f.payload); Ok(envelope.ack)
  }

  function StartCall(c: Conn, e: Event, now: u64): Conn
  {
    var wire := WireEvent(e, now);
    if c.sending.Some? || EventProblem(wire).Some? then c else c.(sending := Some(wire), waiting := false)
  }

  function SendOnce(codec: ArgsCodec, c: Conn): Conn
  {
    if c.sending.None? || c.waiting then c
    else
      match Encoded(codec, NextU64(c.nextID), EventEnvelope(c.sending.value))
      case Err(_) => c.(nextID := NextU64(c.nextID))
      case Ok(b) => c.(nextID := NextU64(c.nextID), toMirage := c.toMirage + [b], waiting := true,
                       sent := c.sent + [c.sending.value.eventID])
  }

  /** The read half of an attempt: only an ack for this very event ends the call. */
  function ReadOnce(codec: ArgsCodec, c: Conn): (Conn, Option<Answered>)
  {
    if c.sending.None? || !c.waiting || c.toGhost == [] then (c, None)
    else
      var c' := c.(toGhost := c.toGhost[1..], waiting := false);
      match AckRead(codec, c.toGhost[0])
      case Err(_) => (c', None)
      case Ok(ack) =>
        var c2 := c'.(read := c.read + [ack.eventID]);
        if ack.eventID != c.sending.value.eventID then (c2, None)
        else (c2.(sending := None), Some(Answered(c.ghostID, c.sending.value, ack)))
  }

  // ---------------------------------------------------------------- Mirage's side

  /** A frame taken off a connection: its message id and event, unless the loop ends over it. */
  function EventRead(codec: ArgsCodec, b: bytes): Result<(u64, Event)>
  {
    match Read(b, DEFAULT_LIMITS).0
    case Err(e) => Err(e)
    case Ok(f) =>
      if f.header.messageType != MSG_EVENT then Err(SchemaViolation(f.header.messageType, 0, UnknownMessageType))
      else
        match Decoded(codec, EventKind, f.payload)
        case Err(e) => Err(e)
        case Ok(envelope) => DecodesItsKind(codec, EventKind, f.payload); Ok((f.header.messageID, envelope.event))
  }

  function Registering(n: Net, op: MirageServer.Op): Net
  {
    n.(m := n.m.(registry := MirageServer.Applied(n.m.registry, op)), ops := n.ops + [op])
  }

  /** The loop returns; the registration is marked disconnected. Frames already written can still be read. */
  function Closed(n: Net, i: nat): Net
    requires i in n.conns
  {
    Registering(n, MirageServer.DisconnectOp(n.conns[i].ghostID)).(conns := n.conns[i := n.conns[i].(open := false)])
  }

  /** Observe, accept, acknowledge, in that order. An error from observing is only logged. A turn whose `owner` is
      not a right answer of the lookup is not one the loop can take. */
  ghost function ServeOnce(codec: ArgsCodec, n: Net, i: nat, owner: Option<(bytes, PlannedCommand)>, now: u64, written: bool): Net
    requires i in n.conns
  {
    var c := n.conns[i];
    if !c.open || c.toMirage == [] then n
    else
      var n1 := n.(conns := n.conns[i := c.(toMirage := c.toMirage[1..])]);
      match EventRead(codec, c.toMirage[0])
      case Err(_) => Closed(n1, i)
      case Ok((id, e)) =>
        if !OwnerFound(n.m.loop, TrimSpace(e.commandID), owner) then n
        else
        OwnerKnown(n.m.loop, TrimSpace(e.commandID), owner);
        var m1 := MirageServer.Observe(n.m, owner, e, now).0;
        var n2 := Registering(n1.(m := m1), MirageServer.AcceptOp(c.ghostID, e, now));
        var ack := MirageServer.Accept(n.m.registry, c.ghostID, e, now).1;
        match Encoded(codec, id, AckEnvelope(ack))
        case Err(_) => Closed(n2, i)
        case Ok(b) =>
          if written then n2.(conns := n2.conns[i := n2.conns[i].(toGhost := c.toGhost + [b])]) else Closed(n2, i)
  }

  function Called(codec: ArgsCodec, m: MirageServer.MirageState, call: Call): MirageServer.MirageState
  {
    if call.ReconcileCall? then MirageServer.Reconciled(m, codec, call.intentID, call.execute, call.at).0
    else m.(loop := Apply(codec, m.loop, call))
  }

  /** One atomic step; a step that is not enabled does nothing. */
  ghost function Next(codec: ArgsCodec, n: Net, step: Step): Net
  {
    match step
    case Connect(i, g, addr, first, now) =>
      if i in n.conns then n
      else Registering(n, MirageServer.RegisterOp(g, addr, now))
           .(conns := n.conns[i := Conn(g, [], [], true, first, None, false, [], [])])
    case Loop(call) => n.(m := Called(codec, n.m, call))
    case _ =>
      if step.conn !in n.conns then n
      else
        var i, c := step.conn, n.conns[step.conn];
        match step
        case Start(_, e, now) => n.(conns := n.conns[i := StartCall(c, e, now)])
        case Send(_) => n.(conns := n.conns[i := SendOnce(codec, c)])
        case WriteFails(_) => n.(conns := n.conns[i := if c.waiting then c else c.(nextID := NextU64(c.nextID))])
        case ReadAck(_) =>
          var (c', answer) := ReadOnce(codec, c);
          n.(conns := n.conns[i := c'], answers := if answer.Some? then n.answers + [answer.value] else n.answers)
        case ReadFails(_) => n.(conns := n.conns[i := c.(waiting := false)])
        case GiveUp(_) => n.(conns := n.conns[i := if c.waiting then c else c.(sending := None)])
        case Serve(_, owner, now, written) => ServeOnce(codec, n, i, owner, now, written)
        case _ => if c.open then Closed(n, i) else n
  }

  ghost function Steps(codec: ArgsCodec, n: Net, steps: seq<Step>): Net
    decreases |steps|
  {
    if steps == [] then n else Steps(codec, Next(codec, n, steps[0]), steps[1..])
  }

  // ---------------------------------------------------------------- frames

  lemma EventFrameReads(codec: ArgsCodec, id: u64, e: Event)
    requires codec.Exact() && Encoded(codec, id, EventEnvelope(e)).Ok?
    ensures EventRead(codec, Encoded(codec, id, EventEnvelope(e)).value) == Ok((id, e))
    ensures EventProblemOnWire(e) == None
  {
    hide Read, Decoded, Encoded, HeaderBytes, Written, EventFields;
    EnvelopeRoundTrip(codec, id, EventEnvelope(e), []);
    var b := Encoded(codec, id, EventEnvelope(e)).value;
    assert b + [] == b;
  }

  lemma AckFrameReads(codec: ArgsCodec, id: u64, a: EventAck)
    requires codec.Exact() && Encoded(codec, id, AckEnvelope(a)).Ok?
    ensures AckRead(codec, Encoded(codec, id, AckEnvelope(a)).value) == Ok(a)
  {
    hide Read, Decoded, Encoded, HeaderBytes, Written, AckFields;
    EnvelopeRoundTrip(codec, id, AckEnvelope(a), []);
    var b := Encoded(codec, id, AckEnvelope(a)).value;
    assert b + [] == b;
  }

  /** The event ids of frames on their way to Mirage, and of ack frames on their way back. */
  function EventIDsIn(codec: ArgsCodec, frames: seq<bytes>): seq<bytes>
  {
    seq(|frames|, i requires 0 <= i < |frames| =>
      match EventRead(codec, frames[i]) case Ok(r) => r.1.eventID case Err(_) => [])
  }

  function AckIDsIn(codec: ArgsCodec, frames: seq<bytes>): seq<bytes>
  {
    seq(|frames|, i requires 0 <= i < |frames| => match AckRead(codec, frames[i]) case Ok(a) => a.eventID case Err(_) => [])
  }

  // ---------------------------------------------------------------- what every run keeps

  predicate Stored(r: MirageServer.Registry, ghostID: bytes, ack: EventAck)
  {
    && ack.eventID in MirageServer.Entry(r, ghostID).ackByEvent
    && MirageServer.Entry(r, ghostID).ackByEvent[ack.eventID] == ack
    && ack.ackStatus == MirageServer.ACCEPTED
  }

  /** Stored acks are under their own event ids and say accepted, and they are counted. */
  ghost predicate RegistryInOrder(r: MirageServer.Registry)
  {
    forall g :: EntryInOrder(MirageServer.Entry(r, g))
  }

  predicate EntryInOrder(x: MirageServer.Registered)
  {
    && MirageServer.Counted(x)
    && forall k :: k in x.ackByEvent ==> x.ackByEvent[k].eventID == k && x.ackByEvent[k].ackStatus == MirageServer.ACCEPTED
  }

  /** Conservation, in order: what was written is what has been answered and read, then what has been answered, then
      what has not been answered yet. Once the loop has ended, the unanswered rest is lost. */
  predicate Conserved(codec: ArgsCodec, c: Conn)
  {
    var answered := c.read + AckIDsIn(codec, c.toGhost);
    if c.open then c.sent == answered + EventIDsIn(codec, c.toMirage) else answered <= c.sent
  }

  ghost predicate AckFrame(codec: ArgsCodec, r: MirageServer.Registry, ghostID: bytes, b: bytes)
  {
    AckRead(codec, b).Ok? && Stored(r, ghostID, AckRead(codec, b).value)
  }

  /** A connection carries event frames one way, frames of stored acks the other way, and loses nothing. */
  ghost predicate ConnPiped(codec: ArgsCodec, r: MirageServer.Registry, c: Conn)
  {
    && (forall b :: b in c.toMirage ==> EventRead(codec, b).Ok?)
    && (forall b :: b in c.toGhost ==> AckFrame(codec, r, c.ghostID, b))
    && Conserved(codec, c)
  }

  /** A call's answer is the stored, accepted ack for its event. */
  predicate AnswerStored(r: MirageServer.Registry, a: Answered)
  {
    a.ack.eventID == a.event.eventID && Stored(r, a.ghostID, a.ack)
  }

  ghost predicate Piped(codec: ArgsCodec, n: Net)
  {
    && RegistryInOrder(n.m.registry)
    && (forall i :: i in n.conns ==> ConnPiped(codec, n.m.registry, n.conns[i]))
    && (forall a :: a in n.answers ==> AnswerStored(n.m.registry, a))
  }

  lemma QuietIsPiped(codec: ArgsCodec, m: MirageServer.MirageState)
    requires m.registry == map[]
    ensures Piped(codec, Net(m, map[], [], []))
  {
    MirageServer.CountedUnseen();
  }

  /** Stored acks stay as they are. */
  ghost predicate StoredLater(r: MirageServer.Registry, r': MirageServer.Registry)
  {
    forall g, a :: Stored(r, g, a) ==> Stored(r', g, a)
  }

  lemma LaterKeepsConn(codec: ArgsCodec, r: MirageServer.Registry, r': MirageServer.Registry, c: Conn)
    requires StoredLater(r, r') && ConnPiped(codec, r, c)
    ensures ConnPiped(codec, r', c)
  {
    hide Stored, Conserved, EventRead, AckRead;
    forall b | b in c.toGhost ensures AckFrame(codec, r', c.ghostID, b) { assert AckFrame(codec, r, c.ghostID, b); }
  }

  /** The registry moves on, one connection changes, answers may gain one. */
  lemma StepKeeps(codec: ArgsCodec, n: Net, n': Net, i: nat, answer: Option<Answered>)
    requires Piped(codec, n) && StoredLater(n.m.registry, n'.m.registry) && RegistryInOrder(n'.m.registry)
    requires n'.conns == n.conns
          || (i in n'.conns && n'.conns == n.conns[i := n'.conns[i]] && ConnPiped(codec, n'.m.registry, n'.conns[i]))
    requires n'.answers == if answer.Some? then n.answers + [answer.value] else n.answers
    requires answer.Some? ==> AnswerStored(n'.m.registry, answer.value)
    ensures Piped(codec, n')
  {
    hide RegistryInOrder, ConnPiped, Stored;
    forall j | j in n'.conns ensures ConnPiped(codec, n'.m.registry, n'.conns[j]) {
      if n'.conns == n.conns || j != i { LaterKeepsConn(codec, n.m.registry, n'.m.registry, n.conns[j]); }
    }
    forall a | a in n'.answers ensures AnswerStored(n'.m.registry, a) {
      if a in n.answers { assert AnswerStored(n.m.registry, a); }
    }
  }

  lemma PipedParts(codec: ArgsCodec, n: Net, i: nat)
    requires Piped(codec, n) && i in n.conns
    ensures RegistryInOrder(n.m.registry) && ConnPiped(codec, n.m.registry, n.conns[i])
  {
    hide RegistryInOrder, ConnPiped;
  }

  lemma SameLater(r: MirageServer.Registry)
    ensures StoredLater(r, r)
  {
  }

  lemma LaterLater(a: MirageServer.Registry, b: MirageServer.Registry, c: MirageServer.Registry)
    requires StoredLater(a, b) && StoredLater(b, c)
    ensures StoredLater(a, c)
  {
    hide Stored;
  }

  // ---------------------------------------------------------------- the client's steps

  lemma EventIDsSnoc(codec: ArgsCodec, frames: seq<bytes>, b: bytes)
    requires EventRead(codec, b).Ok?
    ensures EventIDsIn(codec, frames + [b]) == EventIDsIn(codec, frames) + [EventRead(codec, b).value.1.eventID]
  {
    hide EventRead;
  }

  lemma EventIDsHead(codec: ArgsCodec, frames: seq<bytes>)
    requires frames != [] && EventRead(codec, frames[0]).Ok?
    ensures EventIDsIn(codec, frames) == [EventRead(codec, frames[0]).value.1.eventID] + EventIDsIn(codec, frames[1..])
  {
    hide EventRead;
  }

  lemma AckIDsSnoc(codec: ArgsCodec, frames: seq<bytes>, b: bytes)
    requires AckRead(codec, b).Ok?
    ensures AckIDsIn(codec, frames + [b]) == AckIDsIn(codec, frames) + [AckRead(codec, b).value.eventID]
  {
    hide AckRead;
  }

  lemma AckIDsHead(codec: ArgsCodec, frames: seq<bytes>)
    requires frames != [] && AckRead(codec, frames[0]).Ok?
    ensures AckIDsIn(codec, frames) == [AckRead(codec, frames[0]).value.eventID] + AckIDsIn(codec, frames[1..])
  {
    hide AckRead;
  }

  /** One more frame written is one more waiting for its answer. */
  lemma WriteConserves(codec: ArgsCodec, c: Conn, b: bytes)
    requires Conserved(codec, c) && EventRead(codec, b).Ok?
    ensures Conserved(codec, c.(toMirage := c.toMirage + [b], sent := c.sent + [EventRead(codec, b).value.1.eventID]))
  {
    hide EventRead, AckIDsIn, EventIDsIn;
    EventIDsSnoc(codec, c.toMirage, b);
  }

  /** An ack read moves from what has been answered to what has been read. */
  lemma ReadConserves(codec: ArgsCodec, c: Conn)
    requires Conserved(codec, c) && c.toGhost != [] && AckRead(codec, c.toGhost[0]).Ok?
    ensures Conserved(codec, c.(toGhost := c.toGhost[1..], read := c.read + [AckRead(codec, c.toGhost[0]).value.eventID]))
  {
    hide AckRead, AckIDsIn, EventIDsIn;
    AckIDsHead(codec, c.toGhost);
  }

  /** Serving takes the oldest frame written and answers it last. */
  lemma ServeConserves(codec: ArgsCodec, c: Conn, b: bytes)
    requires Conserved(codec, c) && c.open && c.toMirage != []
    requires EventRead(codec, c.toMirage[0]).Ok? && AckRead(codec, b).Ok?
    requires AckRead(codec, b).value.eventID == EventRead(codec, c.toMirage[0]).value.1.eventID
    ensures Conserved(codec, c.(toMirage := c.toMirage[1..], toGhost := c.toGhost + [b]))
  {
    hide AckRead, EventRead, AckIDsIn, EventIDsIn;
    EventIDsHead(codec, c.toMirage);
    AckIDsSnoc(codec, c.toGhost, b);
  }

  lemma CloseConserves(codec: ArgsCodec, c: Conn, left: seq<bytes>)
    requires Conserved(codec, c)
    ensures Conserved(codec, c.(open := false, toMirage := left))
  {
    hide AckIDsIn, EventIDsIn;
  }

  lemma SendKeeps(codec: ArgsCodec, r: MirageServer.Registry, c: Conn)
    requires codec.Exact() && ConnPiped(codec, r, c)
    ensures ConnPiped(codec, r, SendOnce(codec, c))
  {
    hide AckFrame, EventRead, Encoded, EventProblemOnWire, AckIDsIn, EventIDsIn;
    if c.sending.Some? && !c.waiting && Encoded(codec, NextU64(c.nextID), EventEnvelope(c.sending.value)).Ok? {
      EventFrameReads(codec, NextU64(c.nextID), c.sending.value);
      WriteConserves(codec, c, Encoded(codec, NextU64(c.nextID), EventEnvelope(c.sending.value)).value);
    }
  }

  lemma ReadKeeps(codec: ArgsCodec, r: MirageServer.Registry, c: Conn)
    requires ConnPiped(codec, r, c)
    ensures var (c', answer) := ReadOnce(codec, c);
            ConnPiped(codec, r, c') && (answer.Some? ==> AnswerStored(r, answer.value))
  {
    hide EventRead, AckRead, Stored, AckIDsIn, EventIDsIn;
    if c.sending.Some? && c.waiting && c.toGhost != [] {
      assert AckFrame(codec, r, c.ghostID, c.toGhost[0]);
      ReadConserves(codec, c);
    }
  }

  /** The call's own state matters to nothing a connection carries. */
  lemma IdleKeeps(codec: ArgsCodec, r: MirageServer.Registry, c: Conn, c': Conn)
    requires ConnPiped(codec, r, c) && c' == c.(nextID := c'.nextID, sending := c'.sending, waiting := c'.waiting)
    ensures ConnPiped(codec, r, c')
  {
    hide EventRead, AckFrame, AckIDsIn, EventIDsIn;
  }

  // ---------------------------------------------------------------- Mirage's steps

  lemma OpKeeps(r: MirageServer.Registry, op: MirageServer.Op)
    requires RegistryInOrder(r)
    ensures RegistryInOrder(MirageServer.Applied(r, op))
    ensures forall g, a :: Stored(r, g, a) ==> Stored(MirageServer.Applied(r, op), g, a)
  {
    hide MirageServer.Applied, MirageServer.Entry, MirageServer.Counted;
    var r' := MirageServer.Applied(r, op);
    forall g ensures EntryInOrder(MirageServer.Entry(r', g)) {
      assert EntryInOrder(MirageServer.Entry(r, g));
      MirageServer.StepCounts(r, op, g);
      NewAcksNamed(r, op, g);
    }
    forall g, a | Stored(r, g, a) ensures Stored(r', g, a) {
      assert EntryInOrder(MirageServer.Entry(r, g));
      MirageServer.StepCounts(r, op, g);
    }
  }

  lemma NewAcksNamed(r: MirageServer.Registry, op: MirageServer.Op, g: bytes)
    requires EntryInOrder(MirageServer.Entry(r, g))
    ensures var x := MirageServer.Entry(MirageServer.Applied(r, op), g);
            forall k :: k in x.ackByEvent ==> x.ackByEvent[k].eventID == k && x.ackByEvent[k].ackStatus == MirageServer.ACCEPTED
  {
  }

  lemma RegistryLater(r: MirageServer.Registry, op: MirageServer.Op)
    requires RegistryInOrder(r)
    ensures StoredLater(r, MirageServer.Applied(r, op)) && RegistryInOrder(MirageServer.Applied(r, op))
  {
    hide Stored, RegistryInOrder;
    OpKeeps(r, op);
  }

  lemma AcceptStores(r: MirageServer.Registry, g: bytes, e: Event, now: u64)
    requires RegistryInOrder(r)
    ensures var (r', ack) := MirageServer.Accept(r, g, e, now); Stored(r', g, ack) && ack.eventID == e.eventID
  {
    hide MirageServer.Counted;
    assert EntryInOrder(MirageServer.Entry(r, g));
  }

  lemma AnsweredConn(codec: ArgsCodec, r: MirageServer.Registry, c: Conn, b: bytes)
    requires ConnPiped(codec, r, c) && c.open && c.toMirage != []
    requires EventRead(codec, c.toMirage[0]).Ok? && AckFrame(codec, r, c.ghostID, b)
    requires AckRead(codec, b).value.eventID == EventRead(codec, c.toMirage[0]).value.1.eventID
    ensures ConnPiped(codec, r, c.(toMirage := c.toMirage[1..], toGhost := c.toGhost + [b]))
  {
    hide Conserved, EventRead, AckRead, Stored;
    ServeConserves(codec, c, b);
  }

  lemma ClosedConn(codec: ArgsCodec, r: MirageServer.Registry, c: Conn, left: seq<bytes>)
    requires ConnPiped(codec, r, c) && (left == c.toMirage || (c.toMirage != [] && left == c.toMirage[1..]))
    ensures ConnPiped(codec, r, c.(toMirage := left, open := false))
  {
    hide EventRead, AckFrame, Conserved;
    CloseConserves(codec, c, left);
  }

  lemma HangupKeeps(codec: ArgsCodec, n: Net, i: nat)
    requires Piped(codec, n) && i in n.conns
    ensures Piped(codec, Closed(n, i)) && StoredLater(n.m.registry, Closed(n, i).m.registry)
  {
    hide Piped, RegistryInOrder, ConnPiped, StoredLater;
    PipedParts(codec, n, i);
    var n' := Closed(n, i);
    RegistryLater(n.m.registry, MirageServer.DisconnectOp(n.conns[i].ghostID));
    ClosedConn(codec, n.m.registry, n.conns[i], n.conns[i].toMirage);
    LaterKeepsConn(codec, n.m.registry, n'.m.registry, n'.conns[i]);
    StepKeeps(codec, n, n', i, None);
  }

  lemma FirstFrame(codec: ArgsCodec, r: MirageServer.Registry, c: Conn)
    requires ConnPiped(codec, r, c) && c.toMirage != []
    ensures EventRead(codec, c.toMirage[0]).Ok?
  {
    hide EventRead, AckFrame, Conserved;
  }

  lemma ObserveLeavesRegistry(m: MirageServer.MirageState, owner: Option<(bytes, PlannedCommand)>, e: Event, now: u64)
    requires owner.Some? ==> owner.value.0 in m.loop.desired
    ensures MirageServer.Observe(m, owner, e, now).0.registry == m.registry
  {
  }

  lemma ServeKeeps(codec: ArgsCodec, n: Net, i: nat, owner: Option<(bytes, PlannedCommand)>, now: u64, written: bool)
    requires codec.Exact() && Piped(codec, n) && i in n.conns
    ensures var n' := ServeOnce(codec, n, i, owner, now, written);
            Piped(codec, n') && StoredLater(n.m.registry, n'.m.registry)
  {
    hide Piped, RegistryInOrder, ConnPiped, StoredLater, EventRead, AckRead, Encoded, MirageServer.Observe, Stored, OwnerFound,
         TrimSpace, MirageServer.Applied;
    var c, n', r := n.conns[i], ServeOnce(codec, n, i, owner, now, written), n.m.registry;
    SameLater(r);
    if c.open && c.toMirage != [] {
      PipedParts(codec, n, i);
      FirstFrame(codec, r, c);
      var (id, e) := EventRead(codec, c.toMirage[0]).value;
      if OwnerFound(n.m.loop, TrimSpace(e.commandID), owner) {
        OwnerKnown(n.m.loop, TrimSpace(e.commandID), owner);
        ObserveLeavesRegistry(n.m, owner, e, now);
        var accepted, dropped := MirageServer.AcceptOp(c.ghostID, e, now), MirageServer.DisconnectOp(c.ghostID);
        var ack := MirageServer.Accept(r, c.ghostID, e, now).1;
        var r2 := MirageServer.Applied(r, accepted);
        RegistryLater(r, accepted);
        AcceptedIsStored(r, c.ghostID, e, now);
        LaterKeepsConn(codec, r, r2, c);
        if Encoded(codec, id, AckEnvelope(ack)).Ok? && written {
          AckFrameReads(codec, id, ack);
          AnsweredConn(codec, r2, c, Encoded(codec, id, AckEnvelope(ack)).value);
        } else {
          RegistryLater(r2, dropped);
          LaterLater(r, r2, MirageServer.Applied(r2, dropped));
          ClosedConn(codec, r2, c, c.toMirage[1..]);
          LaterKeepsConn(codec, r2, MirageServer.Applied(r2, dropped), c.(toMirage := c.toMirage[1..], open := false));
        }
        StepKeeps(codec, n, n', i, None);
      }
    }
  }

  lemma AcceptedIsStored(r: MirageServer.Registry, g: bytes, e: Event, now: u64)
    requires RegistryInOrder(r)
    ensures var ack := MirageServer.Accept(r, g, e, now).1;
            Stored(MirageServer.Applied(r, MirageServer.AcceptOp(g, e, now)), g, ack) && ack.eventID == e.eventID
  {
    hide Stored, RegistryInOrder;
    AcceptStores(r, g, e, now);
  }

  lemma ConnectKeeps(codec: ArgsCodec, n: Net, i: nat, g: bytes, addr: bytes, first: u64, now: u64)
    requires Piped(codec, n) && i !in n.conns
    ensures var n' := Next(codec, n, Connect(i, g, addr, first, now));
            Piped(codec, n') && StoredLater(n.m.registry, n'.m.registry)
  {
    hide RegistryInOrder, ConnPiped, StoredLater, Stored;
    var n' := Next(codec, n, Connect(i, g, addr, first, now));
    RegistryLater(n.m.registry, MirageServer.RegisterOp(g, addr, now));
    NewConn(codec, n'.m.registry, g, first);
    StepKeeps(codec, n, n', i, None);
  }

  lemma NewConn(codec: ArgsCodec, r: MirageServer.Registry, g: bytes, first: u64)
    ensures ConnPiped(codec, r, Conn(g, [], [], true, first, None, false, [], []))
  {
    hide AckFrame;
  }

  lemma CalledRegistry(codec: ArgsCodec, m: MirageServer.MirageState, call: Call)
    ensures Called(codec, m, call).registry == m.registry && Called(codec, m, call).loop == Apply(codec, m.loop, call)
  {
    hide Submit, Reconcile, RegisterGhost, Ingest;
  }

  // ---------------------------------------------------------------- every step, every run

  /** A step on the client's side of one connection. */
  lemma ClientStepKeeps(codec: ArgsCodec, n: Net, i: nat, c': Conn, answer: Option<Answered>)
    requires Piped(codec, n) && i in n.conns && ConnPiped(codec, n.m.registry, c')
    requires answer.Some? ==> AnswerStored(n.m.registry, answer.value)
    ensures Piped(codec, n.(conns := n.conns[i := c'],
                            answers := if answer.Some? then n.answers + [answer.value] else n.answers))
  {
    hide RegistryInOrder, ConnPiped, Stored;
    SameLater(n.m.registry);
    StepKeeps(codec, n, n.(conns := n.conns[i := c'],
                           answers := if answer.Some? then n.answers + [answer.value] else n.answers), i, answer);
  }

  lemma ConnStepKeeps(codec: ArgsCodec, n: Net, step: Step)
    requires codec.Exact() && Piped(codec, n) && !step.Connect? && !step.Loop? && step.conn in n.conns
    ensures Piped(codec, Next(codec, n, step)) && StoredLater(n.m.registry, Next(codec, n, step).m.registry)
  {
    hide Piped, RegistryInOrder, ConnPiped, StoredLater, StartCall, SendOnce, ReadOnce, ServeOnce, Closed, AnswerStored;
    var i, c, r := step.conn, n.conns[step.conn], n.m.registry;
    SameLater(r);
    PipedParts(codec, n, i);
    match step
    case Start(_, e, now) =>
      StartIsIdle(c, e, now);
      IdleKeeps(codec, r, c, StartCall(c, e, now));
      ClientStepKeeps(codec, n, i, StartCall(c, e, now), None);
    case Send(_) =>
      SendKeeps(codec, r, c);
      ClientStepKeeps(codec, n, i, SendOnce(codec, c), None);
    case WriteFails(_) =>
      var c' := if c.waiting then c else c.(nextID := NextU64(c.nextID));
      IdleKeeps(codec, r, c, c');
      ClientStepKeeps(codec, n, i, c', None);
    case ReadAck(_) =>
      ReadKeeps(codec, r, c);
      var (c', answer) := ReadOnce(codec, c);
      ClientStepKeeps(codec, n, i, c', answer);
    case ReadFails(_) =>
      IdleKeeps(codec, r, c, c.(waiting := false));
      ClientStepKeeps(codec, n, i, c.(waiting := false), None);
    case GiveUp(_) =>
      var c' := if c.waiting then c else c.(sending := None);
      IdleKeeps(codec, r, c, c');
      ClientStepKeeps(codec, n, i, c', None);
    case Serve(_, owner, now, written) => ServeKeeps(codec, n, i, owner, now, written);
    case Hangup(_) => HangupKeeps(codec, n, i);
  }

  lemma StartIsIdle(c: Conn, e: Event, now: u64)
    ensures var c' := StartCall(c, e, now); c' == c.(nextID := c'.nextID, sending := c'.sending, waiting := c'.waiting)
  {
  }

  lemma NextKeeps(codec: ArgsCodec, n: Net, step: Step)
    requires codec.Exact() && Piped(codec, n)
    ensures Piped(codec, Next(codec, n, step)) && StoredLater(n.m.registry, Next(codec, n, step).m.registry)
  {
    hide Piped, StoredLater, StartCall, SendOnce, ReadOnce, ServeOnce, Called, Closed, MirageServer.Applied;
    SameLater(n.m.registry);
    if step.Connect? {
      if step.conn !in n.conns { ConnectKeeps(codec, n, step.conn, step.ghostID, step.remoteAddr, step.firstID, step.at); }
    } else if step.Loop? {
      CalledRegistry(codec, n.m, step.call);
      OtherStores(codec, n, Called(codec, n.m, step.call));
    } else if step.conn in n.conns {
      ConnStepKeeps(codec, n, step);
    }
  }

  lemma OtherStores(codec: ArgsCodec, n: Net, m': MirageServer.MirageState)
    requires Piped(codec, n) && m'.registry == n.m.registry
    ensures Piped(codec, n.(m := m'))
  {
    hide RegistryInOrder, ConnPiped, AnswerStored;
  }

  lemma {:induction false} RunIsPiped(codec: ArgsCodec, n: Net, steps: seq<Step>)
    requires codec.Exact() && Piped(codec, n)
    ensures Piped(codec, Steps(codec, n, steps)) && StoredLater(n.m.registry, Steps(codec, n, steps).m.registry)
    decreases |steps|
  {
    hide Next, Piped, StoredLater;
    if steps == [] {
      SameLater(n.m.registry);
    } else {
      NextKeeps(codec, n, steps[0]);
      RunIsPiped(codec, Next(codec, n, steps[0]), steps[1..]);
      LaterLater(n.m.registry, Next(codec, n, steps[0]).m.registry, Steps(codec, n, steps).m.registry);
    }
  }

  /** Over every run at all, whatever is sent, planned, submitted or ingested: a call that returned an ack returned the
      accepted ack Mirage stores for that event id, now and for good. */
  lemma AnsweredMeansStored(codec: ArgsCodec, n: Net, steps: seq<Step>, a: Answered)
    requires codec.Exact() && Piped(codec, n) && a in Steps(codec, n, steps).answers
    ensures var acks := MirageServer.Entry(Steps(codec, n, steps).m.registry, a.ghostID).ackByEvent;
            && a.ack.eventID == a.event.eventID && a.ack.ackStatus == MirageServer.ACCEPTED
            && a.event.eventID in acks && acks[a.event.eventID] == a.ack
  {
    hide Steps, RegistryInOrder, ConnPiped;
    RunIsPiped(codec, n, steps);
    assert AnswerStored(Steps(codec, n, steps).m.registry, a);
  }

  /** Conservation, over every run at all. While the connection's loop runs, the events written are, in order, the acks
      read, the acks in flight and the events in flight; after it has ended, the acks read and in flight answer the
      oldest of them. */
  lemma NothingLostWhileOpen(codec: ArgsCodec, n: Net, steps: seq<Step>, i: nat)
    requires codec.Exact() && Piped(codec, n) && i in Steps(codec, n, steps).conns
    ensures var c := Steps(codec, n, steps).conns[i]; var answered := c.read + AckIDsIn(codec, c.toGhost);
            && (c.open ==> c.sent == answered + EventIDsIn(codec, c.toMirage))
            && (c.open ==> |c.sent| == |c.read| + |c.toGhost| + |c.toMirage|)
            && (!c.open ==> answered <= c.sent)
  {
    hide Piped, Steps, AckRead, EventRead, AckFrame;
    RunIsPiped(codec, n, steps);
    PipedParts(codec, Steps(codec, n, steps), i);
  }

  // ---------------------------------------------------------------- exactly-once effect

  /** The registry is what its operations made of an empty one. */
  predicate Traced(n: Net) { n.m.registry == MirageServer.AppliedAll(map[], n.ops) }

  lemma OpTraced(ops: seq<MirageServer.Op>, op: MirageServer.Op)
    ensures MirageServer.AppliedAll(map[], ops + [op]) == MirageServer.Applied(MirageServer.AppliedAll(map[], ops), op)
  {
    assert (ops + [op])[..|ops|] == ops;
  }

  lemma RegisteringTraced(n: Net, op: MirageServer.Op)
    requires Traced(n)
    ensures Traced(Registering(n, op))
  {
    hide MirageServer.Applied;
    OpTraced(n.ops, op);
  }

  lemma ServeTraced(codec: ArgsCodec, n: Net, i: nat, owner: Option<(bytes, PlannedCommand)>, now: u64, written: bool)
    requires Traced(n) && i in n.conns
    ensures Traced(ServeOnce(codec, n, i, owner, now, written))
  {
    hide MirageServer.Applied, EventRead, Encoded, Ingest, OwnerFound, MirageServer.Accept, MirageServer.AppliedAll;
    var c := n.conns[i];
    if c.open && c.toMirage != [] {
      var n1 := n.(conns := n.conns[i := c.(toMirage := c.toMirage[1..])]);
      RegisteringTraced(n1, MirageServer.DisconnectOp(c.ghostID));
      if EventRead(codec, c.toMirage[0]).Ok? {
        var e := EventRead(codec, c.toMirage[0]).value.1;
        if OwnerFound(n.m.loop, TrimSpace(e.commandID), owner) {
          OwnerKnown(n.m.loop, TrimSpace(e.commandID), owner);
          var m1 := MirageServer.Observe(n.m, owner, e, now).0;
          RegisteringTraced(n1.(m := m1), MirageServer.AcceptOp(c.ghostID, e, now));
          var n2 := Registering(n1.(m := m1), MirageServer.AcceptOp(c.ghostID, e, now));
          RegisteringTraced(n2, MirageServer.DisconnectOp(c.ghostID));
        }
      }
    }
  }

  lemma NextTraced(codec: ArgsCodec, n: Net, step: Step)
    requires Traced(n)
    ensures Traced(Next(codec, n, step))
  {
    hide MirageServer.Applied, MirageServer.AppliedAll, ServeOnce, StartCall, SendOnce, ReadOnce, Called;
    match step
    case Connect(i, g, addr, first, now) => RegisteringTraced(n, MirageServer.RegisterOp(g, addr, now));
    case Serve(i, owner, now, written) => if i in n.conns { ServeTraced(codec, n, i, owner, now, written); }
    case Hangup(i) => if i in n.conns { RegisteringTraced(n, MirageServer.DisconnectOp(n.conns[i].ghostID)); }
    case Loop(call) => CalledRegistry(codec, n.m, call);
    case _ =>
  }

  /** Exactly-once effect from at-least-once sending. Over every run at all, whatever clients send: a ghost's
      EventCount is the number of distinct event ids accepted from it, and those are the ids of its stored acks. */
  lemma {:induction false} ExactlyOnceEffect(codec: ArgsCodec, n: Net, steps: seq<Step>, g: bytes)
    requires Traced(n)
    ensures var n' := Steps(codec, n, steps); var x := MirageServer.Entry(n'.m.registry, g);
            && Traced(n')
            && x.ackByEvent.Keys == MirageServer.EventIDs(n'.ops, g)
            && x.meta.eventCount == MirageServer.Low64(|MirageServer.EventIDs(n'.ops, g)|)
    decreases |steps|
  {
    hide Next, MirageServer.AppliedAll, MirageServer.EventIDs, MirageServer.Low64;
    if steps == [] {
      MirageServer.CountIsDistinct(n.ops, g);
    } else {
      NextTraced(codec, n, steps[0]);
      ExactlyOnceEffect(codec, Next(codec, n, steps[0]), steps[1..], g);
    }
  }

  const QUIET: Net := Net(MirageServer.BOOTED, map[], [], [])

  /** From boot, over every run: a ghost's EventCount is the number of distinct event ids accepted from it, and every
      event a call of it was answered for is among those counted. */
  lemma EffectFromBoot(codec: ArgsCodec, steps: seq<Step>, g: bytes)
    requires codec.Exact()
    ensures var n' := Steps(codec, QUIET, steps);
            && MirageServer.Entry(n'.m.registry, g).meta.eventCount == MirageServer.Low64(|MirageServer.EventIDs(n'.ops, g)|)
            && forall a :: a in n'.answers && a.ghostID == g ==> a.event.eventID in MirageServer.EventIDs(n'.ops, g)
  {
    hide Steps, Piped, MirageServer.EventIDs, MirageServer.Low64;
    QuietIsPiped(codec, MirageServer.BOOTED);
    assert MirageServer.AppliedAll(map[], []) == map[];
    ExactlyOnceEffect(codec, QUIET, steps, g);
    forall a | a in Steps(codec, QUIET, steps).answers && a.ghostID == g
      ensures a.event.eventID in MirageServer.EventIDs(Steps(codec, QUIET, steps).ops, g)
    {
      AnsweredMeansStored(codec, QUIET, steps, a);
    }
  }

  /** Over every run: the ack a call returned is the one for the first event Mirage accepted from that ghost under the
      event id. It names the ghost and that event's command, whatever later events under the id said. */
  lemma AnswerTellsTheFirst(codec: ArgsCodec, n: Net, steps: seq<Step>, a: Answered) returns (i: nat)
    requires codec.Exact() && Piped(codec, n) && Traced(n) && a in Steps(codec, n, steps).answers
    ensures var ops := Steps(codec, n, steps).ops;
            && MirageServer.FirstAccept(ops, a.ghostID, a.event.eventID, i) && MirageServer.AckOf(ops[i], a.ack)
            && a.ack.ghostID == a.ghostID && a.ack.commandID == ops[i].event.commandID
  {
    hide Steps, Piped, Traced;
    AnsweredMeansStored(codec, n, steps, a);
    RunIsTraced(codec, n, steps);
    i := MirageServer.AcksTellTheFirst(Steps(codec, n, steps).ops, a.ghostID, a.event.eventID);
    assert Steps(codec, n, steps).m.registry == MirageServer.AppliedAll(map[], Steps(codec, n, steps).ops) by {
      TracedMeans(Steps(codec, n, steps));
    }
  }

  lemma TracedMeans(n: Net)
    requires Traced(n)
    ensures n.m.registry == MirageServer.AppliedAll(map[], n.ops)
  {
  }

  lemma RunIsTraced(codec: ArgsCodec, n: Net, steps: seq<Step>)
    requires Traced(n)
    ensures Traced(Steps(codec, n, steps))
  {
    hide Traced, Steps;
    ExactlyOnceEffect(codec, n, steps, []);
  }
}
