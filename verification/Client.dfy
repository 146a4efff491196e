/** internal/mirage/ghost_admin_client.go: Mirage's command executor over a ghost's admin boundary. */
module Client {
  import opened Bytes
  import opened Errors
  import opened Session
  import opened Framing
  import opened Ghost
  import opened Admin

  const GHOST_LOCAL: bytes := Ascii("ghost.local")

  datatype Request = Request(ghostID: bytes, commandID: bytes, intentID: bytes, seedSelector: bytes, operation: bytes, args: Args)

  /** One control call: the request frame, and the response frame or an error. */
  type Transport = bytes -> Result<bytes>

  function CommandOf(q: Request): Command
  {
    Command(TrimSpace(q.commandID), TrimSpace(q.intentID), if Blank(q.ghostID) then GHOST_LOCAL else TrimSpace(q.ghostID),
            TrimSpace(q.seedSelector), TrimSpace(q.operation), q.args)
  }

  function RequestOf(c: Command): Request
  {
    Request(TrimSpace(c.ghostID), TrimSpace(c.commandID), TrimSpace(c.intentID), TrimSpace(c.seedSelector),
            TrimSpace(c.operation), c.args)
  }

  /** The transport to a service in state `a`. */
  function Over(codec: ArgsCodec, a: AdminState, world: SeedWorld, at: u64): Transport
  {
    request => Serve(a, codec, request, world, at).1
  }

  function ResponseEvent(codec: ArgsCodec, response: bytes): Result<Event>
  {
    match Read(response, DEFAULT_LIMITS).0
    case Err(e) => Err(e)
    case Ok(f) =>
      match Decoded(codec, EventKind, f.payload)
      case Err(e) => Err(e)
      case Ok(envelope) => DecodesItsKind(codec, EventKind, f.payload); Ok(envelope.event)
  }

  /** GhostControlClient.ExecuteAdminCommand. */
  function Answer(codec: ArgsCodec, q: Request, call: Transport): Result<Event>
  {
    match Encoded(codec, 1, CommandEnvelope(CommandOf(q)))
    case Err(e) => Err(e)
    case Ok(frame) =>
      match call(frame)
      case Err(e) => Err(e)
      case Ok(response) => ResponseEvent(codec, response)
  }

  /** Empty fields of the answer are filled in from the command. */
  function Patched(c: Command, e: Event, now: u64): Event
  {
    e.(commandID := if e.commandID == [] then c.commandID else e.commandID,
       intentID := if e.intentID == [] then c.intentID else e.intentID,
       ghostID := if e.ghostID == [] then c.ghostID else e.ghostID,
       seedID := if e.seedID == [] then c.seedSelector else e.seedID,
       timestampMS := if e.timestampMS == 0 then now else e.timestampMS)
  }

  /** GhostAdminCommandExecutor.ExecuteCommand. */
  function ExecutorAnswer(codec: ArgsCodec, c: Command, call: Transport, now: u64): Result<Event>
  {
    match Answer(codec, RequestOf(c), call)
    case Err(e) => Err(e)
    case Ok(event) =>
      var patched := Patched(c, event, now);
      if EventProblem(patched).Some? then Err(EventProblem(patched).value) else Ok(patched)
  }

  class GhostControlClient {
    const codec: ArgsCodec

    constructor (codec: ArgsCodec)
      ensures this.codec == codec
    {
      this.codec := codec;
    }

    method ExecuteAdminCommand(command: Request, call: Transport) returns (r: Result<Event>)
      ensures r == Answer(codec, command, call)
    {
      hide Read, Decoded, Encoded;
      var ghostID := TrimSpace(command.ghostID);
      if ghostID == [] { ghostID := GHOST_LOCAL; }
      var cmd := Command(TrimSpace(command.commandID), TrimSpace(command.intentID), ghostID,
                         TrimSpace(command.seedSelector), TrimSpace(command.operation), command.args);
      var cmdFrame := EncodeCommandFrame(codec, 1, cmd);
      if cmdFrame.Err? { return Err(cmdFrame.error); }
      var out := call(cmdFrame.value);
      if out.Err? { return Err(out.error); }
      var reader := new Reader(out.value);
      var fr := ReadFrame(reader, DEFAULT_LIMITS);
      if fr.Err? { return Err(fr.error); }
      var event := DecodeFrame(codec, EventKind, fr.value);
      if event.Err? { return Err(event.error); }
      DecodesItsKind(codec, EventKind, fr.value.payload);
      return Ok(event.value.event);
    }
  }

  class GhostAdminCommandExecutor {
    const client: GhostControlClient

    constructor (client: GhostControlClient)
      ensures this.client == client
    {
      this.client := client;
    }

    method ExecuteCommand(cmd: Command, call: Transport, now: u64) returns (r: Result<Event>)
      ensures r == ExecutorAnswer(client.codec, cmd, call, now)
    {
      hide Answer;
      var answer := client.ExecuteAdminCommand(RequestOf(cmd), call);
      if answer.Err? { return Err(answer.error); }
      var event := answer.value;
      if event.commandID == [] { event := event.(commandID := cmd.commandID); }
      if event.intentID == [] { event := event.(intentID := cmd.intentID); }
      if event.ghostID == [] { event := event.(ghostID := cmd.ghostID); }
      if event.seedID == [] { event := event.(seedID := cmd.seedSelector); }
      if event.timestampMS == 0 { event := event.(timestampMS := now); }
      var problem := EventProblem(event);
      if problem.Some? { return Err(problem.value); }
      return Ok(event);
    }
  }

  // ---------------------------------------------------------------- the executor's contract

  /** A command as plans hold it: valid, and its ids and texts trimmed. */
  predicate Clean(c: Command)
  {
    && CommandProblem(c) == None
    && Trimmed(c.commandID) && Trimmed(c.intentID) && Trimmed(c.ghostID) && Trimmed(c.seedSelector) && Trimmed(c.operation)
  }

  lemma CleanTravelsAsIs(c: Command)
    requires Clean(c)
    ensures CommandOf(RequestOf(c)) == c && FromWire(c) == AdminCommand(c.commandID, c.intentID, c.seedSelector, c.operation, c.args)
  {
    hide TrimLeft, TrimRight, Trimmed;
    TrimmedIsFixed(c.commandID);
    TrimmedIsFixed(c.intentID);
    TrimmedIsFixed(c.ghostID);
    TrimmedIsFixed(c.seedSelector);
    TrimmedIsFixed(c.operation);
  }

  lemma EmptyIsBlank(s: bytes)
    ensures s == [] ==> Blank(s)
  {
  }

  lemma TerminalTravels(c: Command, e: Event, now: u64)
    requires TerminalProblem(e) == None
    ensures EventProblem(e) == None && Patched(c, e, now) == e
  {
    hide TrimSpace;
    LiteralsNotBlank();
    EmptyIsBlank(e.commandID);
    EmptyIsBlank(e.intentID);
    EmptyIsBlank(e.ghostID);
    EmptyIsBlank(e.seedID);
  }

  /** A framed event is what the client gets. */
  lemma FramedEventIsRead(codec: ArgsCodec, id: u64, e: Event)
    requires codec.Exact() && EventProblem(e) == None
    ensures match Encoded(codec, id, EventEnvelope(e))
            case Ok(b) => Sendable(codec, EventEnvelope(e)) && ResponseEvent(codec, b) == Ok(e)
            case Err(x) => x == PayloadTooLarge && !Sendable(codec, EventEnvelope(e))
  {
    hide Read, Decoded, Encoded, Payload, HeaderBytes, Written;
    WireTrip(codec, id, EventEnvelope(e));
  }

  /** What travels is trimmed already. */
  lemma TravelsTrimmed(c: Command)
    ensures var c' := CommandOf(RequestOf(c));
            FromWire(c') == AdminCommand(c'.commandID, c'.intentID, c'.seedSelector, c'.operation, c'.args)
  {
    hide TrimLeft, TrimRight, Trimmed;
    var q := RequestOf(c);
    TrimmedIsFixed(q.commandID);
    TrimmedIsFixed(q.intentID);
    TrimmedIsFixed(q.seedSelector);
    TrimmedIsFixed(q.operation);
  }

  /** What ExecuteCommand returns when the service behind the transport is `a`: the event the ghost has stored for
      the command, unless the command cannot travel, the ghost refuses it, or the event is too large to travel. */
  lemma ExecutorContract(codec: ArgsCodec, a: AdminState, c: Command, world: SeedWorld, at: u64, now: u64)
    requires codec.Exact() && InOrder(a) && a.issued < MAX_U64 && at > 0
    ensures var c' := CommandOf(RequestOf(c));
            match Encoded(codec, 1, CommandEnvelope(c'))
            case Err(x) =>
              && !Sendable(codec, CommandEnvelope(c'))
              && ExecutorAnswer(codec, c, Over(codec, a, world, at), now) == Err(x)
            case Ok(frame) =>
              && Sendable(codec, CommandEnvelope(c'))
              && Serve(a, codec, frame, world, at).0 == Execute(a, FromWire(c'), world, at).0
              && ExecutorAnswer(codec, c, Over(codec, a, world, at), now) ==
                 match Execute(a, FromWire(c'), world, at).1
                 case Err(x) => Err(x)
                 case Ok((_, e)) => if Sendable(codec, EventEnvelope(e)) then Ok(e) else Err(PayloadTooLarge)
  {
    hide Read, Decoded, Execute, Encoded, Payload, HeaderBytes, Written, InOrder, ResponseEvent, Serve, Patched, EventProblem,
         TerminalProblem, CommandProblem, CommandOf, RequestOf;
    var c' := CommandOf(RequestOf(c));
    EnvelopeRoundTrip(codec, 1, CommandEnvelope(c'), []);
    if Encoded(codec, 1, CommandEnvelope(c')).Ok? {
      ServeFramed(a, codec, 1, c', world, at);
      var r := Execute(a, FromWire(c'), world, at).1;
      if r.Ok? {
        var e := r.value.1;
        assert TerminalProblem(e) == None by { ExecuteStep(a, FromWire(c'), world, at); }
        TerminalTravels(c, e, now);
        FramedEventIsRead(codec, 1, e);
      }
    }
  }

  /** The executor echoes every trimmed command id it is given. */
  lemma ExecutorEchoes(codec: ArgsCodec, a: AdminState, c: Command, world: SeedWorld, at: u64, now: u64)
    requires codec.Exact() && InOrder(a) && a.issued < MAX_U64 && at > 0 && Trimmed(c.commandID)
    ensures var r := ExecutorAnswer(codec, c, Over(codec, a, world, at), now);
            r.Ok? ==> r.value.commandID == c.commandID
  {
    hide Execute, Encoded, Payload, InOrder, Serve, ExecutorAnswer, EnvFor, TrimLeft, TrimRight, Rejection;
    ExecutorContract(codec, a, c, world, at, now);
    var c' := CommandOf(RequestOf(c));
    TravelsTrimmed(c);
    TrimmedIsFixed(c.commandID);
    if Sendable(codec, CommandEnvelope(c')) {
      ExecuteStep(a, FromWire(c'), world, at);
      EnvCommand(a.g.ghostID, a.issued + 1, FromWire(c'));
    }
  }

  lemma EnvCommand(ghostID: bytes, id: u64, cmd: AdminCommand)
    requires !Blank(cmd.commandID)
    ensures EnvFor(ghostID, id, cmd).commandID == TrimSpace(cmd.commandID)
  {
  }

  // ---------------------------------------------------------------- what is asked and what is filled in

  /** A request goes out trimmed, to ghost.local when it names no ghost. */
  lemma RequestsAreTrimmed(q: Request)
    ensures var c := CommandOf(q);
            && c.commandID == TrimSpace(q.commandID) && c.intentID == TrimSpace(q.intentID)
            && c.seedSelector == TrimSpace(q.seedSelector) && c.operation == TrimSpace(q.operation) && c.args == q.args
            && c.ghostID == if Blank(q.ghostID) then Ascii("ghost.local") else TrimSpace(q.ghostID)
  {
  }

  function OrElse(given: bytes, other: bytes): bytes { if given != [] then given else other }

  /** Over any transport: the executor's answer is the event it was sent, and what that left empty comes from the command;
      or the first error on the way, a field that is blank even so included. */
  lemma ExecutorFillsIn(codec: ArgsCodec, c: Command, call: Transport, now: u64)
    ensures match Answer(codec, RequestOf(c), call)
            case Err(x) => ExecutorAnswer(codec, c, call, now) == Err(x)
            case Ok(e) =>
              var full := Event(e.eventID, OrElse(e.commandID, c.commandID), OrElse(e.intentID, c.intentID),
                                OrElse(e.ghostID, c.ghostID), OrElse(e.seedID, c.seedSelector), e.outcome,
                                if e.timestampMS != 0 then e.timestampMS else now);
              ExecutorAnswer(codec, c, call, now)
              == if EventProblem(full) == None then Ok(full) else Err(EventProblem(full).value)
  {
    hide Answer, EventProblem;
  }
}
