/** internal/mirage/service.go, the event loop of handleConn: read a frame, observe, accept, acknowledge, until
    something fails. */
module ConnectionLoop {
  import opened Bytes
  import opened Errors
  import opened Schema
  import opened Session
  import opened Framing
  import opened Planning
  import opened Orchestration
  import opened MirageServer
  import opened Delivery

  /** Clock readings, one per turn of the loop. */
  type Clock = nat -> u64

  lemma ReadConsumes(data: bytes)
    requires Read(data, DEFAULT_LIMITS).0.Ok?
    ensures |Read(data, DEFAULT_LIMITS).1| < |data|
  {
    hide Read, HeaderOf;
    AcceptedShape(data, DEFAULT_LIMITS);
  }

  /** The registry after the loop has run over `data`, what it has written, and the events it has served. */
  function LoopEnd(codec: ArgsCodec, r: Registry, ghostID: bytes, data: bytes, clock: Clock, turn: nat)
    : (Registry, bytes, seq<Event>)
    decreases |data|
  {
    match EventRead(codec, data)
    case Err(_) => (r, [], [])
    case Ok((id, e)) =>
      ReadConsumes(data);
      var (r1, ack) := Accept(r, ghostID, e, clock(turn));
      match Encoded(codec, id, AckEnvelope(ack))
      case Err(_) => (r1, [], [e])
      case Ok(b) =>
        var (r2, out, events) := LoopEnd(codec, r1, ghostID, Read(data, DEFAULT_LIMITS).1, clock, turn + 1);
        (r2, b + out, [e] + events)
  }

  lemma LoopUnfolds(codec: ArgsCodec, r: Registry, g: bytes, data: bytes, clock: Clock, turn: nat)
    ensures LoopEnd(codec, r, g, data, clock, turn) ==
            match EventRead(codec, data)
            case Err(_) => (r, [], [])
            case Ok((id, e)) =>
              var (r1, ack) := Accept(r, g, e, clock(turn));
              match Encoded(codec, id, AckEnvelope(ack))
              case Err(_) => (r1, [], [e])
              case Ok(b) =>
                var (r2, out, events) := LoopEnd(codec, r1, g, Read(data, DEFAULT_LIMITS).1, clock, turn + 1);
                (r2, b + out, [e] + events)
  {
    hide EventRead, Encoded, Accept, Read;
  }

  /** The server's stores after one event, whichever owner the lookup finds. */
  ghost predicate Observed(s: Stores, e: Event, now: u64, s': Stores)
  {
    exists owner :: OwnerFound(s, TrimSpace(e.commandID), owner) && s' == Ingest(s, owner, e, now).0
  }

  /** The stores after observing `events` one by one, each looked up in the stores the one before left. */
  ghost predicate ObservedInTurn(s: Stores, events: seq<Event>, clock: Clock, s': Stores)
  {
    if events == [] then s' == s
    else
      var n := |events| - 1;
      exists mid :: ObservedInTurn(s, events[..n], clock, mid) && Observed(mid, events[n], clock(n), s')
  }

  lemma OneMoreObserved(s: Stores, events: seq<Event>, e: Event, clock: Clock, mid: Stores, s': Stores)
    requires ObservedInTurn(s, events, clock, mid) && Observed(mid, e, clock(|events|), s')
    ensures ObservedInTurn(s, events + [e], clock, s')
  {
    hide Observed;
    var all, n := events + [e], |events|;
    assert all[..n] == events && all[n] == e;
    assert ObservedInTurn(s, all[..n], clock, mid) && Observed(mid, all[n], clock(n), s');
  }

  /** One turn up to the event: nothing but a decoded event frame keeps the loop going. */
  method ReadEvent(codec: ArgsCodec, reader: Reader) returns (r: Result<(u64, Event)>)
    modifies reader
    ensures r == EventRead(codec, old(reader.data))
    ensures r.Ok? ==> reader.data == Read(old(reader.data), DEFAULT_LIMITS).1
  {
    hide Read, Decoded;
    var fr := ReadFrame(reader, DEFAULT_LIMITS);
    if fr.Err? { return Err(fr.error); }
    var h := fr.value.header;
    if h.messageType != MSG_EVENT { return Err(SchemaViolation(h.messageType, 0, UnknownMessageType)); }
    var event := DecodeFrame(codec, EventKind, fr.value);
    if event.Err? { return Err(event.error); }
    DecodesItsKind(codec, EventKind, fr.value.payload);
    return Ok((h.messageID, event.value.event));
  }

  method Turn(server: Server, codec: ArgsCodec, ghostID: bytes, reader: Reader, writer: Writer, now: u64)
    returns (again: bool, ghost served: Option<Event>)
    requires server.loop.codec == codec && codec.Exact()
    modifies server, server.loop, reader, writer
    ensures server.mirageID == old(server.mirageID) && server.phase == old(server.phase)
    ensures match EventRead(codec, old(reader.data))
            case Err(_) =>
              && !again && served == None && server.registry == old(server.registry)
              && server.loop.State() == old(server.loop.State()) && writer.data == old(writer.data)
            case Ok((id, e)) =>
              var (r, ack) := Accept(old(server.registry), ghostID, e, now);
              && served == Some(e) && server.registry == r
              && Observed(old(server.loop.State()), e, now, server.loop.State())
              && (match Encoded(codec, id, AckEnvelope(ack))
                  case Err(_) => !again && writer.data == old(writer.data)
                  case Ok(b) =>
                    again && writer.data == old(writer.data) + b && reader.data == Read(old(reader.data), DEFAULT_LIMITS).1)
  {
    hide EventRead, Encoded, Accept, OwnerFound, Ingest, Read;
    var fr := ReadEvent(codec, reader);
    if fr.Err? { return false, None; }
    var (id, event) := fr.value;
    served := Some(event);
    ghost var before := server.loop.State();
    var observed := server.ObserveEvent(event, now);
    assert Observed(before, event, now, server.loop.State());
    var ack := server.AcceptEvent(ghostID, event, now);
    var payload := EncodeEventAckFrame(id, ack);
    assert payload == Encoded(codec, id, AckEnvelope(ack));
    if payload.Err? { return false, served; }
    writer.Write(payload.value);
    return true, served;
  }

  /** Everything the loop does to the registry, to the stores and on the wire, for whatever bytes arrive. */
  method HandleConn(server: Server, codec: ArgsCodec, ghostID: bytes, reader: Reader, writer: Writer, clock: Clock)
    returns (ghost events: seq<Event>)
    requires server.loop.codec == codec && codec.Exact()
    modifies server, server.loop, reader, writer
    ensures var (r, out, served) := LoopEnd(codec, old(server.registry), ghostID, old(reader.data), clock, 0);
            && server.registry == Disconnected(r, ghostID) && writer.data == old(writer.data) + out && events == served
    ensures ObservedInTurn(old(server.loop.State()), events, clock, server.loop.State())
    ensures server.mirageID == old(server.mirageID) && server.phase == old(server.phase)
  {
    hide EventRead, Encoded, Accept, Disconnected, Observed, ObservedInTurn, Read, LoopEnd;
    events := [];
    var turn := 0;
    var again := true;
    ghost var end := LoopEnd(codec, server.registry, ghostID, reader.data, clock, 0);
    ghost var was := writer.data;
    NoneObserved(server.loop.State(), clock);
    while again
      invariant again ==> turn == |events|
      invariant var (r, out, served) := if again then LoopEnd(codec, server.registry, ghostID, reader.data, clock, turn)
                                        else (server.registry, [], []);
                end.0 == r && was + end.1 == writer.data + out && end.2 == events + served
      invariant ObservedInTurn(old(server.loop.State()), events, clock, server.loop.State())
      invariant server.mirageID == old(server.mirageID) && server.phase == old(server.phase)
      decreases again, |reader.data|
    {
      ghost var data, before := reader.data, server.loop.State();
      ghost var served;
      LoopUnfolds(codec, server.registry, ghostID, data, clock, turn);
      again, served := Turn(server, codec, ghostID, reader, writer, clock(turn));
      if served.Some? {
        OneMoreObserved(old(server.loop.State()), events, served.value, clock, before, server.loop.State());
        events := events + [served.value];
      }
      if again {
        ReadReadable(codec, data);
        ReadConsumes(data);
        turn := turn + 1;
      }
    }
    server.MarkGhostDisconnected(ghostID);
  }

  lemma NoneObserved(s: Stores, clock: Clock)
    ensures ObservedInTurn(s, [], clock, s)
  {
  }

  lemma ReadReadable(codec: ArgsCodec, data: bytes)
    requires EventRead(codec, data).Ok?
    ensures Read(data, DEFAULT_LIMITS).0.Ok?
  {
    hide Read, Decoded;
  }

  // ---------------------------------------------------------------- what the loop amounts to

  /** Whatever bytes arrive, the loop keeps the count of distinct event ids, never changes a stored ack, and leaves
      other ghosts alone. */
  lemma {:induction false} LoopCounts(codec: ArgsCodec, r: Registry, g: bytes, data: bytes, clock: Clock, turn: nat)
    requires Counted(Entry(r, g))
    ensures var (r', out, events) := LoopEnd(codec, r, g, data, clock, turn);
            && Counted(Entry(r', g))
            && Entry(r', g).ackByEvent.Keys == Entry(r, g).ackByEvent.Keys + (set e | e in events :: e.eventID)
            && (forall k :: k in Entry(r, g).ackByEvent ==> Entry(r', g).ackByEvent[k] == Entry(r, g).ackByEvent[k])
            && (forall h :: h != g ==> Entry(r', h) == Entry(r, h))
    decreases |data|
  {
    hide EventRead, Encoded, Read, Counted;
    if EventRead(codec, data).Ok? {
      var (id, e) := EventRead(codec, data).value;
      AcceptCounts(r, g, e, clock(turn));
      var (r1, ack) := Accept(r, g, e, clock(turn));
      if Encoded(codec, id, AckEnvelope(ack)).Ok? {
        ReadReadable(codec, data);
        ReadConsumes(data);
        LoopCounts(codec, r1, g, Read(data, DEFAULT_LIMITS).1, clock, turn + 1);
      }
    }
  }

  /** The bytes of events framed one after the other. */
  function EventStream(codec: ArgsCodec, msgs: seq<(u64, Event)>): bytes
    requires forall x :: x in msgs ==> Encoded(codec, x.0, EventEnvelope(x.1)).Ok?
  {
    if msgs == [] then [] else Encoded(codec, msgs[0].0, EventEnvelope(msgs[0].1)).value + EventStream(codec, msgs[1..])
  }

  lemma FirstFrameRead(codec: ArgsCodec, id: u64, e: Event, rest: bytes)
    requires codec.Exact() && Encoded(codec, id, EventEnvelope(e)).Ok?
    ensures var data := Encoded(codec, id, EventEnvelope(e)).value + rest;
            EventRead(codec, data) == Ok((id, e)) && Read(data, DEFAULT_LIMITS).1 == rest
  {
    hide Read, Decoded, Encoded, HeaderBytes, Written, EventFields;
    EnvelopeRoundTrip(codec, id, EventEnvelope(e), rest);
  }

  function EventsOf(msgs: seq<(u64, Event)>): seq<Event>
  {
    if msgs == [] then [] else [msgs[0].1] + EventsOf(msgs[1..])
  }

  /** Every ack the events are answered with fits in a frame. */
  predicate AcksFramed(codec: ArgsCodec, r: Registry, g: bytes, msgs: seq<(u64, Event)>, clock: Clock, turn: nat)
    decreases |msgs|
  {
    msgs == []
    || (var (r1, ack) := Accept(r, g, msgs[0].1, clock(turn));
        Encoded(codec, msgs[0].0, AckEnvelope(ack)).Ok? && AcksFramed(codec, r1, g, msgs[1..], clock, turn + 1))
  }

  /** Events framed back to back are served one by one and in order, all of them when their acks can be framed. */
  lemma {:induction false} StreamServed(codec: ArgsCodec, r: Registry, g: bytes, msgs: seq<(u64, Event)>, clock: Clock, turn: nat)
    requires codec.Exact() && forall x :: x in msgs ==> Encoded(codec, x.0, EventEnvelope(x.1)).Ok?
    ensures var events := LoopEnd(codec, r, g, EventStream(codec, msgs), clock, turn).2;
            events <= EventsOf(msgs) && (AcksFramed(codec, r, g, msgs, clock, turn) ==> events == EventsOf(msgs))
    decreases |msgs|
  {
    hide EventRead, Encoded, Read, Accept;
    if msgs == [] {
      NoFrameInNothing(codec);
    } else {
      var (id, e) := msgs[0];
      FirstFrameRead(codec, id, e, EventStream(codec, msgs[1..]));
      StreamServed(codec, Accept(r, g, e, clock(turn)).0, g, msgs[1..], clock, turn + 1);
    }
  }

  lemma NoFrameInNothing(codec: ArgsCodec)
    ensures EventRead(codec, []).Err?
  {
  }
}
