/** When exactly a newly submitted plan can rely on acks: when none for it is on its way. */
module DeliveryExact {
  import opened Bytes
  import opened Errors
  import opened Session
  import opened Framing
  import opened Planning
  import opened Orchestration
  import opened Accounting
  import opened Progress
  import opened Delivery
  import opened Observation
  import Ghost
  import MirageServer

  /** An event for the command that is sent as it is, as ghosts make them. */
  ghost predicate EventFor(codec: ArgsCodec, s0: Stores, commandID: bytes, e: Event)
  {
    e.commandID == commandID && WellSent(s0, e) && WireEvent(e, 1) == e && Sendable(codec, EventEnvelope(e))
  }

  /** For every command of the plan there is an event that can be sent and reported on. */
  ghost predicate AllReportable(codec: ArgsCodec, s0: Stores, d: DesiredIntent)
  {
    forall p :: p in d.commands ==> exists e :: EventFor(codec, s0, p.command.commandID, e)
  }

  /** Whatever is answered from here on for a command of the plan has been observed. */
  ghost predicate AnswersMean(codec: ArgsCodec, s0: Stores, n: Net, id: bytes, d: DesiredIntent)
  {
    forall steps, j | Allowed(codec, s0, n, steps) && |n.answers| <= j < |Steps(codec, n, steps).answers| ::
      var (s', c) := (Steps(codec, n, steps).m.loop, Steps(codec, n, steps).answers[j].event.commandID);
      Names(d, c) ==> c in ObservedOf(s', id).byCommandID
  }

  /** No connection carries an ack for a command of the plan. */
  ghost predicate NoAckOnItsWay(codec: ArgsCodec, n: Net, d: DesiredIntent)
  {
    forall i, b :: i in n.conns && b in n.conns[i].toGhost ==> AckClear(codec, d, b)
  }

  // ---------------------------------------------------------------- reading up to a stale ack

  /** Two steps that are not calls, then the rest. */
  lemma TwoSteps(codec: ArgsCodec, s0: Stores, n: Net, a: Step, b: Step, rest: seq<Step>)
    requires !a.Loop? && !b.Loop?
    ensures var (n1, steps) := (Next(codec, n, a), [a, b] + rest); var n2 := Next(codec, n1, b);
            && Steps(codec, n, steps) == Steps(codec, n2, rest)
            && (Allowed(codec, s0, n, steps) <==>
                  StepAllowed(s0, n, a) && StepAllowed(s0, n1, b) && Allowed(codec, s0, n2, rest))
  {
    hide Next, StepAllowed, Clear;
    var steps := [a, b] + rest;
    assert steps[0] == a && steps[1..] == [b] + rest && steps[1..][0] == b && steps[1..][1..] == rest;
    assert NextWatched(codec, s0, n, a) == s0 && NextWatched(codec, s0, Next(codec, n, a), b) == s0;
  }

  /** Connection `i` is sending `e` and about to write, and the ack at position `k` is for it. */
  ghost predicate Reaches(codec: ArgsCodec, n: Net, i: nat, e: Event, k: nat)
  {
    && i in n.conns && n.conns[i].sending == Some(e) && !n.conns[i].waiting && k < |n.conns[i].toGhost|
    && var r := AckRead(codec, n.conns[i].toGhost[k]); r.Ok? && r.value.eventID == e.eventID
  }

  lemma Writes(codec: ArgsCodec, n: Net, i: nat, e: Event, k: nat)
    requires codec.Exact() && Reaches(codec, n, i, e, k) && Sendable(codec, EventEnvelope(e))
    ensures var n' := Next(codec, n, Send(i));
            && n'.m == n.m && n'.answers == n.answers && i in n'.conns && n'.conns[i].waiting
            && n'.conns[i].sending == Some(e) && n'.conns[i].toGhost == n.conns[i].toGhost
  {
    hide AckRead, Encoded, Sendable;
    EnvelopeRoundTrip(codec, NextU64(n.conns[i].nextID), EventEnvelope(e), []);
  }

  /** Reading the next ack answers the call, or takes the ack looked for one place further. */
  lemma Takes(codec: ArgsCodec, n: Net, i: nat, e: Event, k: nat)
    requires i in n.conns && n.conns[i].sending == Some(e) && n.conns[i].waiting && k < |n.conns[i].toGhost|
    requires var r := AckRead(codec, n.conns[i].toGhost[k]); r.Ok? && r.value.eventID == e.eventID
    ensures var n' := Next(codec, n, ReadAck(i));
            && n'.m == n.m
            && ((|n'.answers| == |n.answers| + 1 && n'.answers[|n.answers|].event == e)
                || (k > 0 && n'.answers == n.answers && Reaches(codec, n', i, e, k - 1)))
  {
    hide AckRead;
    var frames := n.conns[i].toGhost;
    if k > 0 { assert frames[1..][k - 1] == frames[k]; }
  }

  /** Sending `e` again and again answers the call at the latest when the ack is reached, and Mirage does nothing. */
  lemma {:induction false} StaleAckReached(codec: ArgsCodec, s0: Stores, n: Net, i: nat, e: Event, k: nat)
    returns (steps: seq<Step>)
    requires codec.Exact() && Reaches(codec, n, i, e, k) && Sendable(codec, EventEnvelope(e))
    ensures Allowed(codec, s0, n, steps)
    ensures var n' := Steps(codec, n, steps);
            n'.m == n.m && |n'.answers| == |n.answers| + 1 && n'.answers[|n.answers|].event == e
    decreases k
  {
    hide Next, AckRead, Sendable;
    var n1 := Next(codec, n, Send(i));
    var n2 := Next(codec, n1, ReadAck(i));
    Writes(codec, n, i, e, k);
    Takes(codec, n1, i, e, k);
    var rest := [];
    if |n2.answers| == |n.answers| { rest := StaleAckReached(codec, s0, n2, i, e, k - 1); }
    TwoSteps(codec, s0, n, Send(i), ReadAck(i), rest);
    steps := [Send(i), ReadAck(i)] + rest;
  }

  /** The call in progress is given up. */
  lemma GivesUp(codec: ArgsCodec, n: Net, i: nat)
    requires i in n.conns
    ensures var n' := Next(codec, Next(codec, n, ReadFails(i)), GiveUp(i));
            && n'.m == n.m && n'.answers == n.answers && i in n'.conns && n'.conns[i].sending == None
            && n'.conns[i].toGhost == n.conns[i].toGhost
  {
  }

  lemma Begins(codec: ArgsCodec, s0: Stores, n: Net, i: nat, e: Event, k: nat)
    requires i in n.conns && n.conns[i].sending == None && k < |n.conns[i].toGhost|
    requires EventFor(codec, s0, e.commandID, e)
    requires var r := AckRead(codec, n.conns[i].toGhost[k]); r.Ok? && r.value.eventID == e.eventID
    ensures StepAllowed(s0, n, Start(i, e, 1))
    ensures var n' := Next(codec, n, Start(i, e, 1)); Reaches(codec, n', i, e, k) && n'.m == n.m && n'.answers == n.answers
  {
    hide AckRead, WireEvent, WellSent, Payload, EventProblem;
  }

  /** An ack for `e` on its way can answer a new call. */
  lemma StaleAckAnswersCall(codec: ArgsCodec, s0: Stores, n: Net, i: nat, e: Event, k: nat) returns (steps: seq<Step>)
    requires codec.Exact() && i in n.conns && k < |n.conns[i].toGhost| && EventFor(codec, s0, e.commandID, e)
    requires var r := AckRead(codec, n.conns[i].toGhost[k]); r.Ok? && r.value.eventID == e.eventID
    ensures Allowed(codec, s0, n, steps)
    ensures var n' := Steps(codec, n, steps);
            n'.m == n.m && |n'.answers| == |n.answers| + 1 && n'.answers[|n.answers|].event == e
  {
    hide Next, AckRead, Reaches, WireEvent, WellSent, Sendable;
    GivesUp(codec, n, i);
    var n1 := Next(codec, n, ReadFails(i));
    var n2 := Next(codec, n1, GiveUp(i));
    Begins(codec, s0, n2, i, e, k);
    var n3 := Next(codec, n2, Start(i, e, 1));
    var rest := StaleAckReached(codec, s0, n3, i, e, k);
    OneStep(codec, s0, n2, Start(i, e, 1), rest);
    TwoSteps(codec, s0, n, ReadFails(i), GiveUp(i), [Start(i, e, 1)] + rest);
    steps := [ReadFails(i), GiveUp(i)] + ([Start(i, e, 1)] + rest);
  }

  lemma OneStep(codec: ArgsCodec, s0: Stores, n: Net, a: Step, rest: seq<Step>)
    requires !a.Loop?
    ensures var (n1, steps) := (Next(codec, n, a), [a] + rest);
            && Steps(codec, n, steps) == Steps(codec, n1, rest)
            && (Allowed(codec, s0, n, steps) <==> StepAllowed(s0, n, a) && Allowed(codec, s0, n1, rest))
  {
    hide Next, StepAllowed, Clear;
    assert ([a] + rest)[1..] == rest;
    assert NextWatched(codec, s0, n, a) == s0;
  }

  // ---------------------------------------------------------------- the exact condition

  /** One direction: an ack on its way can answer for a command nothing has been observed for. */
  lemma AckOnItsWayMisleads(codec: ArgsCodec, s0: Stores, n: Net, id: bytes, d: DesiredIntent)
    requires codec.Exact() && AllReportable(codec, s0, d) && ObservedOf(n.m.loop, id) == NOTHING_OBSERVED
    requires !NoAckOnItsWay(codec, n, d)
    ensures !AnswersMean(codec, s0, n, id, d)
  {
    hide AckRead, EventFor, Allowed, Steps;
    var i, b :| i in n.conns && b in n.conns[i].toGhost && !AckClear(codec, d, b);
    var k :| 0 <= k < |n.conns[i].toGhost| && n.conns[i].toGhost[k] == b;
    var p :| p in d.commands && Ghost.EventID(p.command.commandID) == AckRead(codec, b).value.eventID;
    var e :| EventFor(codec, s0, p.command.commandID, e);
    EventNamed(codec, s0, p.command.commandID, e);
    var steps := StaleAckAnswersCall(codec, s0, n, i, e, k);
    assert Names(d, Steps(codec, n, steps).answers[|n.answers|].event.commandID);
  }

  lemma EventNamed(codec: ArgsCodec, s0: Stores, commandID: bytes, e: Event)
    requires EventFor(codec, s0, commandID, e)
    ensures e.commandID == commandID && e.eventID == Ghost.EventID(commandID)
  {
    hide Sendable, WireEvent;
  }

  /** The other: without one, every answer to come is for an observed event. */
  lemma ClearAnswersMean(codec: ArgsCodec, s0: Stores, n: Net, id: bytes)
    requires codec.Exact() && Piped(codec, n) && Told(codec, s0, n) && id in n.m.loop.desired
    requires Clear(codec, n, n.m.loop.desired[id])
    ensures AnswersMean(codec, Watching(s0, id, n.m.loop.desired[id]), n, id, n.m.loop.desired[id])
  {
    hide Piped, Told, Clear, Allowed, Steps;
    var d := n.m.loop.desired[id];
    var s1 := Watching(s0, id, d);
    WatchExtends(codec, s0, n, id);
    forall steps, j | Allowed(codec, s1, n, steps) && |n.answers| <= j < |Steps(codec, n, steps).answers|
      ensures var (s', c) := (Steps(codec, n, steps).m.loop, Steps(codec, n, steps).answers[j].event.commandID);
              Names(d, c) ==> c in ObservedOf(s', id).byCommandID
    {
      AnsweredSince(codec, s1, n, steps, j);
      var c := Steps(codec, n, steps).answers[j].event.commandID;
      if Names(d, c) {
        var p :| p in d.commands && p.command.commandID == c;
        assert Owns(s1, id, p, c);
      }
    }
  }

  /** A plan just submitted, for which the events under way and to come can be reported on: whatever is answered from
      here on for one of its commands has been observed, in every run, exactly when no ack for one of its commands is
      on its way. Earlier answers make no difference. */
  lemma DeliverySoundIff(codec: ArgsCodec, s0: Stores, n: Net, id: bytes)
    requires codec.Exact() && Piped(codec, n) && Told(codec, s0, n)
    requires id in n.m.loop.desired && ObservedOf(n.m.loop, id) == NOTHING_OBSERVED
    requires forall i :: i in n.conns ==> ConnFits(codec, n.m.loop.desired[id], n.conns[i])
    requires AllReportable(codec, Watching(s0, id, n.m.loop.desired[id]), n.m.loop.desired[id])
    ensures var d := n.m.loop.desired[id];
            AnswersMean(codec, Watching(s0, id, d), n, id, d) <==> NoAckOnItsWay(codec, n, d)
  {
    hide Piped, Told, AnswersMean, AllReportable, ConnFits, AckClear;
    var d := n.m.loop.desired[id];
    if NoAckOnItsWay(codec, n, d) {
      ClearAnswersMean(codec, s0, n, id);
    } else {
      AckOnItsWayMisleads(codec, Watching(s0, id, d), n, id, d);
    }
  }
}
