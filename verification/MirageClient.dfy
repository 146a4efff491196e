/** internal/ghost/mirage_client.go: the retry loops around a session with Mirage. */
module MirageClient {
  import opened Bytes
  import opened Errors
  import opened Session
  import opened Framing
  import opened Backoff
  import opened Outbox
  import Delivery
  import MirageServer

  /** What a call of SendEventWithAck meets: the time stamp and the clock at its start, and after try `k`, counted from
      1, the clock, the random draw, and whether the context was cancelled while sleeping; `arrivals(k)` is what has
      newly arrived on the stream by the read of try `k`. Times are in nanoseconds. */
  datatype Surroundings = Surroundings(stamp: u64, start: int, clock: nat -> int, draw: nat -> Option<real>,
                                       cancelled: nat -> bool, arrivals: nat -> bytes)

  /** The clock advances by at least each slept delay. */
  ghost predicate Steady(cfg: BackoffConfig, env: Surroundings)
  {
    && env.clock(1) >= env.start
    && forall k: nat :: k >= 1 ==> Drawn(env.draw(k)) && Advances(cfg, env, k)
  }

  predicate Advances(cfg: BackoffConfig, env: Surroundings, k: nat)
  {
    env.clock(k + 1) >= env.clock(k) + NextBackoffDelay(cfg, k, env.draw(k))
  }

  /** The most tries that fit in the ack timeout. */
  function MaxTries(ackTimeout: int, cfg: BackoffConfig): int
    requires ShortestDelay(cfg) > 0
  {
    ackTimeout / ShortestDelay(cfg) + 2
  }

  lemma {:induction false} ClockRuns(cfg: BackoffConfig, env: Surroundings, k: nat)
    requires cfg.initialDelay > 0 && Steady(cfg, env) && k >= 1
    ensures env.clock(k) >= env.start + (k - 1) * ShortestDelay(cfg)
  {
    hide NextBackoffDelay, ShortestDelay;
    if k > 1 {
      ClockRuns(cfg, env, k - 1);
      assert Advances(cfg, env, k - 1);
      DelayAtLeast(cfg, k - 1, env.draw(k - 1));
      assert (k - 1) * ShortestDelay(cfg) == (k - 2) * ShortestDelay(cfg) + ShortestDelay(cfg);
    }
  }

  /** A try that starts has its predecessor inside the timeout, so there are at most MaxTries of them. */
  lemma TriesBounded(ackTimeout: int, cfg: BackoffConfig, env: Surroundings, k: nat)
    requires cfg.initialDelay > 0 && Steady(cfg, env) && ShortestDelay(cfg) > 0 && k >= 1
    requires env.clock(k) <= env.start + ackTimeout
    ensures k + 1 <= MaxTries(ackTimeout, cfg)
  {
    hide ShortestDelay;
    ClockRuns(cfg, env, k);
    QuotientBound(ackTimeout, ShortestDelay(cfg), k - 1);
  }

  lemma QuotientBound(t: int, d: int, q: int)
    requires d > 0 && q * d <= t
    ensures q <= t / d
  {
    var k := t / d;
    assert t < k * d + d && (k + 1) * d == k * d + d;
    if k + 1 <= q {
      MultiplyBound(k + 1, q, d);
      assert false;
    }
  }

  lemma MultiplyBound(a: int, b: int, d: int)
    requires a <= b && d > 0
    ensures a * d <= b * d
  {
  }

  lemma FirstTryFits(ackTimeout: int, cfg: BackoffConfig)
    requires ackTimeout >= 0 && ShortestDelay(cfg) > 0
    ensures MaxTries(ackTimeout, cfg) >= 2
  {
    hide ShortestDelay;
    QuotientBound(ackTimeout, ShortestDelay(cfg), 0);
  }

  /** An ack counts only when it names the event that was sent. */
  function Matching(ack: Result<EventAck>, event: Event): Result<EventAck>
  {
    if ack.Ok? && ack.value.eventID != event.eventID then Err(AckMismatch) else ack
  }

  /** The message id of try `n` when the counter stood at `id`. */
  function IDAfter(id: u64, n: nat): u64 { if n == 0 then id else NextU64(IDAfter(id, n - 1)) }

  /** The bytes of one try. */
  function TryFrame(codec: ArgsCodec, event: Event, id: u64): bytes
  {
    match Encoded(codec, id, EventEnvelope(event)) case Ok(b) => b case Err(_) => []
  }

  /** The bytes of `n` tries. */
  function TryFrames(codec: ArgsCodec, event: Event, id: u64, n: nat): bytes
  {
    if n == 0 then [] else TryFrames(codec, event, id, n - 1) + TryFrame(codec, event, IDAfter(id, n))
  }

  /** How a call that ends at its last try answers. */
  function Verdict(attempts: seq<Result<EventAck>>, env: Surroundings, deadline: int): Result<EventAck>
    requires attempts != []
  {
    var n, last := |attempts|, attempts[|attempts| - 1];
    if last.Ok? then (if last.value.ackStatus == MirageServer.ACCEPTED then last else Err(AckRejected))
    else if env.clock(n) > deadline then Err(AckTimeout) else Err(Cancelled)
  }

  /** Tries that have failed inside the deadline and have not been cancelled. */
  predicate AllFailed(attempts: seq<Result<EventAck>>, env: Surroundings, deadline: int)
  {
    forall i :: 0 <= i < |attempts| ==> attempts[i].Err? && env.clock(i + 1) <= deadline && !env.cancelled(i + 1)
  }

  /** Every try but the last has failed like that; the last ends the call. */
  predicate EndsAt(attempts: seq<Result<EventAck>>, env: Surroundings, deadline: int)
  {
    && attempts != [] && AllFailed(attempts[..|attempts| - 1], env, deadline)
    && var n := |attempts|; attempts[n - 1].Ok? || env.clock(n) > deadline || env.cancelled(n)
  }

  lemma NoTryYet(codec: ArgsCodec, event: Event, id: u64, env: Surroundings, deadline: int)
    ensures AllFailed([], env, deadline) && IDAfter(id, 0) == id && TryFrames(codec, event, id, 0) == []
  {
  }

  lemma OneMoreTry(attempts: seq<Result<EventAck>>, ack: Result<EventAck>, env: Surroundings, deadline: int)
    requires AllFailed(attempts, env, deadline)
    ensures var n := |attempts| + 1; var ends := ack.Ok? || env.clock(n) > deadline || env.cancelled(n);
            if ends then EndsAt(attempts + [ack], env, deadline) else AllFailed(attempts + [ack], env, deadline)
  {
    var all, n := attempts + [ack], |attempts|;
    assert all[..n] == attempts && all[n] == ack && |all| == n + 1;
    if !(ack.Ok? || env.clock(n + 1) > deadline || env.cancelled(n + 1)) {
      forall i | 0 <= i < |all| ensures all[i].Err? && env.clock(i + 1) <= deadline && !env.cancelled(i + 1) {
        if i < n { assert all[i] == attempts[i]; }
      }
    }
  }

  lemma OneMoreFrame(codec: ArgsCodec, event: Event, id: u64, n: nat)
    ensures IDAfter(id, n + 1) == NextU64(IDAfter(id, n))
    ensures TryFrames(codec, event, id, n + 1) == TryFrames(codec, event, id, n) + TryFrame(codec, event, IDAfter(id, n + 1))
  {
    hide NextU64, TryFrame;
  }

  /** A failed try marks the event twice, before it and after. */
  predicate Tried(was: PendingEvent, x: PendingEvent, at: int)
  {
    SameEvent(was, x) && x.attempts == was.attempts + 2 && x.lastAttemptAt == at
  }

  /** What the outbox holds of an event after `n` failed tries: its ids, when it was queued, by when its ack is due, and two
      marks for every try. */
  predicate Waiting(x: PendingEvent, event: Event, env: Surroundings, deadline: int, n: nat)
  {
    && x.eventID == event.eventID && x.commandID == event.commandID && x.ghostID == event.ghostID
    && x.queuedAt == env.start && x.ackDeadlineAt == deadline && x.attempts == 2 * n
    && (n > 0 ==> x.lastAttemptAt == env.clock(n))
  }

  class MirageSession {
    const codec: ArgsCodec
    const ackTimeout: int
    const backoff: BackoffConfig
    const reader: Reader
    const writer: Writer
    const outbox: EventOutbox
    var connected: bool
    var nextMessageID: u64

    constructor (codec: ArgsCodec, ackTimeout: int, backoff: BackoffConfig, firstID: u64)
      ensures this.codec == codec && this.ackTimeout == ackTimeout && this.backoff == backoff && connected
      ensures nextMessageID == firstID && outbox.items == map[] && fresh(reader) && fresh(writer) && fresh(outbox)
    {
      this.codec, this.ackTimeout, this.backoff, connected, nextMessageID := codec, ackTimeout, backoff, true, firstID;
      reader := new Reader([]);
      writer := new Writer();
      outbox := new EventOutbox();
    }

    /** One write and one read. */
    method SendEventOnce(event: Event) returns (r: Result<EventAck>)
      modifies this`nextMessageID, reader, writer
      ensures nextMessageID == NextU64(old(nextMessageID))
      ensures writer.data == old(writer.data) + TryFrame(codec, event, nextMessageID)
      ensures match Encoded(codec, nextMessageID, EventEnvelope(event))
              case Err(x) => r == Err(x) && reader.data == old(reader.data)
              case Ok(_) =>
                && r == Matching(Delivery.AckRead(codec, old(reader.data)), event)
                && reader.data == Read(old(reader.data), DEFAULT_LIMITS).1
    {
      hide Encoded, Read, Decoded;
      nextMessageID := NextU64(nextMessageID);
      var payload := EncodeEventFrame(nextMessageID, event);
      assert payload == Encoded(codec, nextMessageID, EventEnvelope(event));
      if payload.Err? { return Err(payload.error); }
      writer.Write(payload.value);
      var fr := ReadFrame(reader, DEFAULT_LIMITS);
      if fr.Err? { return Err(fr.error); }
      var envelope := DecodeFrame(codec, AckKind, fr.value);
      if envelope.Err? { return Err(envelope.error); }
      DecodesItsKind(codec, AckKind, fr.value.payload);
      var ack := envelope.value.ack;
      if ack.eventID != event.eventID { return Err(AckMismatch); }
      return Ok(ack);
    }

    /** One turn of the retry loop up to the error check: the outbox entry goes when an ack was read. */
    method TryOnce(wire: Event, at: int, arrived: bytes) returns (ack: Result<EventAck>)
      requires Keyed(outbox.items) && TrimSpace(wire.eventID) == wire.eventID && wire.eventID in outbox.items
      modifies this`nextMessageID, reader, writer, outbox
      ensures Keyed(outbox.items) && outbox.items - {wire.eventID} == old(outbox.items) - {wire.eventID}
      ensures wire.eventID in outbox.items <==> ack.Err?
      ensures ack.Err? ==> Tried(old(outbox.items[wire.eventID]), outbox.items[wire.eventID], at)
      ensures ack.Ok? ==> ack.value.eventID == wire.eventID
      ensures nextMessageID == NextU64(old(nextMessageID))
      ensures writer.data == old(writer.data) + TryFrame(codec, wire, nextMessageID)
    {
      hide Encoded, Read, TrimSpace, Delivery.AckRead, NextU64, TryFrame, Keyed;
      var _ := outbox.MarkAttempt(wire.eventID, at, []);
      reader.data := reader.data + arrived;
      ack := SendEventOnce(wire);
      if ack.Ok? {
        outbox.Remove(wire.eventID);
      } else {
        var _ := outbox.MarkAttempt(wire.eventID, at, []);
      }
    }

    /** Retry until an ack for the event is read, the deadline has passed or the context is cancelled. Every try
        sends the same event; the event stays in the outbox exactly when no ack for it was read. */
    method SendEventWithAck(event: Event, env: Surroundings) returns (r: Result<EventAck>, ghost attempts: seq<Result<EventAck>>)
      requires Keyed(outbox.items) && ackTimeout >= 0 && backoff.initialDelay > 0 && ShortestDelay(backoff) > 0
      requires Steady(backoff, env)
      modifies this`nextMessageID, reader, writer, outbox
      ensures Keyed(outbox.items)
      ensures var wire := Delivery.WireEvent(event, env.stamp);
              var problem := if !connected then Some(SessionClosed) else EventProblem(wire);
              match problem
              case Some(x) =>
                && r == Err(x) && attempts == [] && outbox.items == old(outbox.items) && writer.data == old(writer.data)
                && reader.data == old(reader.data) && nextMessageID == old(nextMessageID)
              case None =>
                && EndsAt(attempts, env, env.start + ackTimeout) && r == Verdict(attempts, env, env.start + ackTimeout)
                && |attempts| <= MaxTries(ackTimeout, backoff)
                && (r.Ok? ==> r.value.eventID == wire.eventID)
                && (wire.eventID in outbox.items <==> attempts[|attempts| - 1].Err?)
                && (wire.eventID in outbox.items ==>
                      Waiting(outbox.items[wire.eventID], wire, env, env.start + ackTimeout, |attempts|))
                && outbox.items - {wire.eventID} == old(outbox.items) - {wire.eventID}
                && nextMessageID == IDAfter(old(nextMessageID), |attempts|)
                && writer.data == old(writer.data) + TryFrames(codec, wire, old(nextMessageID), |attempts|)
    {
      hide Encoded, NextBackoffDelay, ShortestDelay, MaxTries, TrimSpace, Steady, NextU64, Delivery.WireEvent, TryFrame, TryFrames,
           IDAfter, Keyed, EventProblem, EndsAt, AllFailed;
      attempts := [];
      if !connected { return Err(SessionClosed), []; }
      var wire := Delivery.WireEvent(event, env.stamp);
      var problem := EventProblem(wire);
      if problem.Some? { return Err(problem.value), []; }
      WireIDFixed(event, env.stamp);
      var deadline := env.start + ackTimeout;
      outbox.Upsert(PendingEvent(wire.eventID, wire.commandID, wire.ghostID, 0, env.start, 0, deadline, []));
      var attempt := 0;
      ghost var was := nextMessageID;
      FirstTryFits(ackTimeout, backoff);
      NoTryYet(codec, wire, was, env, deadline);
      while true
        invariant attempt == |attempts| < MaxTries(ackTimeout, backoff)
        invariant AllFailed(attempts, env, deadline)
        invariant Keyed(outbox.items) && wire.eventID in outbox.items
        invariant Waiting(outbox.items[wire.eventID], wire, env, deadline, attempt)
        invariant outbox.items - {wire.eventID} == old(outbox.items) - {wire.eventID}
        invariant nextMessageID == IDAfter(old(nextMessageID), attempt)
        invariant writer.data == old(writer.data) + TryFrames(codec, wire, old(nextMessageID), attempt)
        decreases MaxTries(ackTimeout, backoff) - attempt
      {
        attempt := attempt + 1;
        var ack := TryOnce(wire, env.clock(attempt), env.arrivals(attempt));
        OneMoreTry(attempts, ack, env, deadline);
        OneMoreFrame(codec, wire, was, attempt - 1);
        attempts := attempts + [ack];
        if ack.Ok? {
          if ack.value.ackStatus == MirageServer.ACCEPTED { return Ok(ack.value), attempts; }
          return Err(AckRejected), attempts;
        }
        if env.clock(attempt) > deadline { return Err(AckTimeout), attempts; }
        if env.cancelled(attempt) { return Err(Cancelled), attempts; }
        TriesBounded(ackTimeout, backoff, env, attempt);
      }
    }
  }

  lemma WireIDFixed(event: Event, now: u64)
    requires EventProblem(Delivery.WireEvent(event, now)) == None
    ensures var id := Delivery.WireEvent(event, now).eventID; TrimSpace(id) == id && !Blank(id)
  {
    hide TrimLeft, TrimRight;
  }

  // ---------------------------------------------------------------- connect and register

  /** What the attempts of ConnectAndRegister meet, counted from 1: the error of dialling and of registering, and
      whether the context was cancelled while sleeping after the attempt. */
  datatype Handshakes = Handshakes(dial: nat -> Option<Error>, register: nat -> Option<Error>, cancelled: nat -> bool)

  predicate ShouldRetry(maxAttempts: int, attempt: int) { maxAttempts <= 0 || attempt < maxAttempts }

  /** Attempt `k` ends the loop. */
  predicate ConnectEnds(maxAttempts: int, h: Handshakes, k: nat)
  {
    || (h.dial(k).None? && (h.register(k).None? || h.register(k) == Some(RegistrationRejected)))
    || !ShouldRetry(maxAttempts, k) || h.cancelled(k)
  }

  /** The answer of an attempt that ends the loop: a session, the handshake's error, or the context's. */
  function ConnectAnswer(maxAttempts: int, h: Handshakes, k: nat): Option<Error>
  {
    var problem := if h.dial(k).Some? then h.dial(k) else h.register(k);
    if problem.Some? && ShouldRetry(maxAttempts, k) && (h.dial(k).Some? || problem.value != RegistrationRejected)
    then Some(Cancelled) else problem
  }

  /** Dials until an attempt ends the loop, and no longer; at most `maxAttempts` times when that is positive. Without
      such a bound the loop ends only if some attempt, `end` here, ends it. */
  method ConnectAndRegister(maxAttempts: int, h: Handshakes, ghost end: nat) returns (r: Option<Error>, attempt: nat)
    requires maxAttempts <= 0 ==> end >= 1 && ConnectEnds(maxAttempts, h, end)
    ensures attempt >= 1 && ConnectEnds(maxAttempts, h, attempt) && r == ConnectAnswer(maxAttempts, h, attempt)
    ensures forall k :: 1 <= k < attempt ==> !ConnectEnds(maxAttempts, h, k)
    ensures maxAttempts > 0 ==> attempt <= maxAttempts
    ensures r == None <==> h.dial(attempt).None? && h.register(attempt).None?
  {
    attempt := 0;
    while true
      invariant forall k :: 1 <= k <= attempt ==> !ConnectEnds(maxAttempts, h, k)
      invariant maxAttempts > 0 ==> attempt < maxAttempts
      invariant maxAttempts <= 0 ==> attempt < end
      decreases if maxAttempts > 0 then maxAttempts - attempt else end - attempt
    {
      attempt := attempt + 1;
      var problem := h.dial(attempt);
      if problem.Some? {
        if !ShouldRetry(maxAttempts, attempt) { return problem, attempt; }
        if h.cancelled(attempt) { return Some(Cancelled), attempt; }
        continue;
      }
      problem := h.register(attempt);
      if problem.None? { return None, attempt; }
      if problem.value == RegistrationRejected || !ShouldRetry(maxAttempts, attempt) { return problem, attempt; }
      if h.cancelled(attempt) { return Some(Cancelled), attempt; }
    }
  }
}
