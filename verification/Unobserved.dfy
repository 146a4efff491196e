/** Acknowledged events the orchestrator has not recorded: an ack left over from before the plan was submitted, a blank
    field, a report too large for a frame. */
module Unobserved {
  import opened Bytes
  import opened Errors
  import opened Session
  import opened Framing
  import opened Planning
  import opened Orchestration
  import opened Accounting
  import opened Delivery
  import opened Sizes
  import opened Counterexamples
  import opened Observation
  import opened DeliveryExact
  import Ghost
  import MirageServer

  /** One open connection of ghost `g`: `queued` frames of event `e` one way, `back` acks for it the other way. */
  ghost predicate Standing(codec: ArgsCodec, n: Net, g: bytes, e: Event, now: u64, queued: nat, back: nat,
                           sending: bool, waiting: bool)
  {
    && 0 in n.conns && n.conns[0].open && n.conns[0].ghostID == g && n.conns[0].waiting == waiting
    && n.conns[0].sending == (if sending then Some(e) else None)
    && |n.conns[0].toMirage| == queued && |n.conns[0].toGhost| == back
    && (forall b :: b in n.conns[0].toMirage ==> EventRead(codec, b).Ok? && EventRead(codec, b).value.1 == e)
    && (forall b :: b in n.conns[0].toGhost ==> AckRead(codec, b) == Ok(MirageServer.NewAck(g, e, now)))
    && Acks(n.m.registry, g, e, now)
  }

  /** The ack stored for `e`, if any, is the one given at `now`. */
  predicate Acks(r: MirageServer.Registry, g: bytes, e: Event, now: u64)
  {
    var acks := MirageServer.Entry(r, g).ackByEvent;
    e.eventID in acks ==> acks[e.eventID] == MirageServer.NewAck(g, e, now)
  }

  /** An event that is sent as it is, and whose ack can be sent. */
  predicate Travels(codec: ArgsCodec, g: bytes, e: Event, now: u64)
  {
    && WireEvent(e, now) == e && Sendable(codec, EventEnvelope(e))
    && Sendable(codec, AckEnvelope(MirageServer.NewAck(g, e, now)))
  }

  lemma Connects(codec: ArgsCodec, n: Net, g: bytes, e: Event, now: u64)
    requires n.conns == map[] && n.m.registry == map[]
    ensures var n' := Next(codec, n, Connect(0, g, [], 0, now));
            Standing(codec, n', g, e, now, 0, 0, false, false) && n'.m.loop == n.m.loop && n'.answers == n.answers
  {
    hide EventRead, AckRead;
  }

  lemma Starts(codec: ArgsCodec, n: Net, g: bytes, e: Event, now: u64, back: nat)
    requires Travels(codec, g, e, now) && Standing(codec, n, g, e, now, 0, back, false, false)
    ensures var n' := Next(codec, n, Start(0, e, now));
            Standing(codec, n', g, e, now, 0, back, true, false) && n'.m == n.m && n'.answers == n.answers
  {
    hide EventRead, AckRead, WireEvent, EventProblem, Payload, AckProblem, MirageServer.NewAck, Acks;
  }

  lemma EventEncodes(codec: ArgsCodec, g: bytes, e: Event, now: u64, id: u64)
    requires codec.Exact() && Travels(codec, g, e, now)
    ensures var r := Encoded(codec, id, EventEnvelope(e)); r.Ok? && EventRead(codec, r.value) == Ok((id, e))
  {
    hide EventRead, WireEvent, Encoded, Sendable, MirageServer.NewAck, Read, Decoded, EventProblemOnWire;
    EnvelopeRoundTrip(codec, id, EventEnvelope(e), []);
    EventFrameReads(codec, id, e);
  }

  lemma Sends(codec: ArgsCodec, n: Net, g: bytes, e: Event, now: u64, back: nat)
    requires codec.Exact() && Travels(codec, g, e, now) && Standing(codec, n, g, e, now, 0, back, true, false)
    ensures var n' := Next(codec, n, Send(0));
            Standing(codec, n', g, e, now, 1, back, true, true) && n'.m == n.m && n'.answers == n.answers
  {
    hide EventRead, AckRead, Encoded, Travels, MirageServer.NewAck, Acks;
    EventEncodes(codec, g, e, now, NextU64(n.conns[0].nextID));
  }

  lemma AckEncodes(codec: ArgsCodec, g: bytes, e: Event, now: u64, id: u64)
    requires codec.Exact() && Travels(codec, g, e, now)
    ensures var r := Encoded(codec, id, AckEnvelope(MirageServer.NewAck(g, e, now)));
            r.Ok? && AckRead(codec, r.value) == Ok(MirageServer.NewAck(g, e, now))
  {
    hide AckRead, WireEvent, Encoded, Sendable, MirageServer.NewAck, Read, Decoded;
    EnvelopeRoundTrip(codec, id, AckEnvelope(MirageServer.NewAck(g, e, now)), []);
    AckFrameReads(codec, id, MirageServer.NewAck(g, e, now));
  }

  lemma Accepts(r: MirageServer.Registry, g: bytes, e: Event, now: u64)
    requires Acks(r, g, e, now)
    ensures var (r', ack) := MirageServer.Accept(r, g, e, now); Acks(r', g, e, now) && ack == MirageServer.NewAck(g, e, now)
  {
    hide MirageServer.NewAck;
  }

  /** Mirage knows no plan for the command: the event is not recorded, and acknowledged all the same. */
  lemma Serves(codec: ArgsCodec, n: Net, g: bytes, e: Event, now: u64, back: nat, waiting: bool)
    requires codec.Exact() && Travels(codec, g, e, now) && n.m.loop == EMPTY
    requires Standing(codec, n, g, e, now, 1, back, true, waiting)
    ensures var n' := Next(codec, n, Serve(0, None, now, true));
            Standing(codec, n', g, e, now, 0, back + 1, true, waiting) && n'.m.loop == EMPTY && n'.answers == n.answers
  {
    hide EventRead, AckRead, Encoded, Travels, MirageServer.NewAck, MirageServer.Accept, Acks;
    var c := n.conns[0];
    var id := EventRead(codec, c.toMirage[0]).value.0;
    assert c.toMirage[0] in c.toMirage;
    assert OwnerFound(n.m.loop, TrimSpace(e.commandID), None);
    Accepts(n.m.registry, g, e, now);
    AckEncodes(codec, g, e, now, id);
  }

  lemma TimesOut(codec: ArgsCodec, n: Net, g: bytes, e: Event, now: u64, back: nat)
    requires Standing(codec, n, g, e, now, 0, back, true, true)
    ensures var n' := Next(codec, n, ReadFails(0));
            Standing(codec, n', g, e, now, 0, back, true, false) && n'.m == n.m && n'.answers == n.answers
  {
    hide EventRead, AckRead, MirageServer.NewAck, Acks;
  }

  lemma Reads(codec: ArgsCodec, n: Net, g: bytes, e: Event, now: u64, queued: nat, back: nat)
    requires Standing(codec, n, g, e, now, queued, back, true, true) && back > 0
    ensures var n' := Next(codec, n, ReadAck(0));
            && Standing(codec, n', g, e, now, queued, back - 1, false, false) && n'.m == n.m
            && n'.answers == n.answers + [Answered(g, e, MirageServer.NewAck(g, e, now))]
  {
    hide EventRead, AckRead, Acks;
    var c := n.conns[0];
    assert c.toGhost[0] in c.toGhost;
  }

  lemma {:induction false} StepsThen(codec: ArgsCodec, n: Net, first: seq<Step>, rest: seq<Step>)
    ensures Steps(codec, n, first + rest) == Steps(codec, Steps(codec, n, first), rest)
    decreases |first|
  {
    hide Next;
    if first == [] {
      assert first + rest == rest;
    } else {
      assert (first + rest)[0] == first[0] && (first + rest)[1..] == first[1..] + rest;
      StepsThen(codec, Next(codec, n, first[0]), first[1..], rest);
    }
  }

  lemma FourSteps(codec: ArgsCodec, n: Net, a: Step, b: Step, c: Step, d: Step)
    ensures Steps(codec, n, [a, b, c, d]) == Next(codec, Next(codec, Next(codec, Next(codec, n, a), b), c), d)
  {
    hide Next;
    var n1 := Next(codec, n, a);
    var n2 := Next(codec, n1, b);
    var n3 := Next(codec, n2, c);
    assert [a, b, c, d][1..] == [b, c, d] && [b, c, d][1..] == [c, d] && [c, d][1..] == [d] && [d][1..] == [];
    assert Steps(codec, n3, [d]) == Steps(codec, Next(codec, n3, d), []);
    assert Steps(codec, n2, [c, d]) == Steps(codec, n3, [d]);
    assert Steps(codec, n1, [b, c, d]) == Steps(codec, n2, [c, d]);
  }

  /** The event of a command nobody has planned is sent and served, but the ack does not come in time. */
  function FirstTry(g: bytes, e: Event, now: u64): seq<Step>
  {
    [Connect(0, g, [], 0, now), Start(0, e, now), Send(0), Serve(0, None, now, true)]
  }

  /** It is sent and served again, and the first ack is read. The second stays on its way. */
  const SECOND_TRY: seq<Step> := [ReadFails(0), Send(0), Serve(0, None, 1, true), ReadAck(0)]

  /** The plan arrives, the event is sent once more, and the ack left over is read. */
  function AfterPlan(e: Event, issue: IssueEnv, now: u64): seq<Step>
  {
    [Loop(SubmitCall(issue, now)), Start(0, e, now), Send(0), ReadAck(0)]
  }

  lemma TriedOnce(codec: ArgsCodec, g: bytes, e: Event)
    requires codec.Exact() && Travels(codec, g, e, 1)
    ensures var n := Steps(codec, QUIET, FirstTry(g, e, 1));
            Standing(codec, n, g, e, 1, 0, 1, true, true) && n.m.loop == EMPTY && n.answers == []
  {
    hide Next, Standing, Travels;
    FourSteps(codec, QUIET, Connect(0, g, [], 0, 1), Start(0, e, 1), Send(0), Serve(0, None, 1, true));
    var n1 := Next(codec, QUIET, Connect(0, g, [], 0, 1));
    Connects(codec, QUIET, g, e, 1);
    Starts(codec, n1, g, e, 1, 0);
    var n2 := Next(codec, n1, Start(0, e, 1));
    Sends(codec, n2, g, e, 1, 0);
    Serves(codec, Next(codec, n2, Send(0)), g, e, 1, 0, true);
  }

  lemma TriedTwice(codec: ArgsCodec, n: Net, g: bytes, e: Event)
    requires codec.Exact() && Travels(codec, g, e, 1) && n.m.loop == EMPTY
    requires Standing(codec, n, g, e, 1, 0, 1, true, true)
    ensures var n' := Steps(codec, n, SECOND_TRY);
            && Standing(codec, n', g, e, 1, 0, 1, false, false) && n'.m.loop == EMPTY
            && n'.answers == n.answers + [Answered(g, e, MirageServer.NewAck(g, e, 1))]
  {
    hide Next, Standing, Travels, MirageServer.NewAck;
    FourSteps(codec, n, ReadFails(0), Send(0), Serve(0, None, 1, true), ReadAck(0));
    var n1 := Next(codec, n, ReadFails(0));
    TimesOut(codec, n, g, e, 1, 1);
    Sends(codec, n1, g, e, 1, 1);
    var n2 := Next(codec, n1, Send(0));
    Serves(codec, n2, g, e, 1, 1, true);
    Reads(codec, Next(codec, n2, Serve(0, None, 1, true)), g, e, 1, 0, 2);
  }

  lemma PlannedThenRead(codec: ArgsCodec, n: Net, g: bytes, e: Event, issue: IssueEnv)
    requires codec.Exact() && Travels(codec, g, e, 1) && n.m.loop == EMPTY
    requires Standing(codec, n, g, e, 1, 0, 1, false, false)
    ensures var n' := Steps(codec, n, AfterPlan(e, issue, 1));
            && n'.m.loop == Submit(EMPTY, issue, 1).0
            && n'.answers == n.answers + [Answered(g, e, MirageServer.NewAck(g, e, 1))]
  {
    hide Next, Standing, Travels, MirageServer.NewAck, Submit;
    FourSteps(codec, n, Loop(SubmitCall(issue, 1)), Start(0, e, 1), Send(0), ReadAck(0));
    var n1 := Next(codec, n, Loop(SubmitCall(issue, 1)));
    Submits(codec, n, g, e, issue);
    Starts(codec, n1, g, e, 1, 1);
    var n2 := Next(codec, n1, Start(0, e, 1));
    Sends(codec, n2, g, e, 1, 1);
    Reads(codec, Next(codec, n2, Send(0)), g, e, 1, 1, 1);
  }

  lemma Submits(codec: ArgsCodec, n: Net, g: bytes, e: Event, issue: IssueEnv)
    requires n.m.loop == EMPTY && Standing(codec, n, g, e, 1, 0, 1, false, false)
    ensures var n' := Next(codec, n, Loop(SubmitCall(issue, 1)));
            && Standing(codec, n', g, e, 1, 0, 1, false, false)
            && n'.m.loop == Submit(EMPTY, issue, 1).0 && n'.answers == n.answers
  {
    hide EventRead, AckRead, Submit, MirageServer.NewAck, Acks;
  }

  /** For every event and every issue accepted after its command was acknowledged twice: the call made after the
      submission is answered by the ack left over, and none of the plan's commands has been observed. */
  lemma StaleAckAnswers(codec: ArgsCodec, g: bytes, e: Event, issue: IssueEnv)
    requires codec.Exact() && Travels(codec, g, e, 1)
    ensures var n := Steps(codec, QUIET, FirstTry(g, e, 1) + SECOND_TRY + AfterPlan(e, issue, 1));
            var answer := Answered(g, e, MirageServer.NewAck(g, e, 1));
            && n.answers == [answer, answer] && n.m.loop == Submit(EMPTY, issue, 1).0
            && ObservedOf(n.m.loop, issue.intentID) == NOTHING_OBSERVED
  {
    hide Next, Standing, Travels, MirageServer.NewAck, FirstTry, SECOND_TRY, AfterPlan;
    StepsThen(codec, QUIET, FirstTry(g, e, 1), SECOND_TRY);
    StepsThen(codec, QUIET, FirstTry(g, e, 1) + SECOND_TRY, AfterPlan(e, issue, 1));
    TriedOnce(codec, g, e);
    var n := Steps(codec, QUIET, FirstTry(g, e, 1));
    TriedTwice(codec, n, g, e);
    PlannedThenRead(codec, Steps(codec, n, SECOND_TRY), g, e, issue);
  }

  // ---------------------------------------------------------------- inputs

  lemma PlainTrimmed(s: bytes)
    requires s != [] && Printable(s)
    ensures Trimmed(s) && TrimSpace(s) == s && !Blank(s)
  {
    PrefixTrimmed(s, []);
    assert s + [] == s;
  }

  lemma PlainPrefix(p: bytes, t: bytes)
    requires p != [] && Printable(p) && Trimmed(t)
    ensures TrimSpace(p + t) == p + t && !Blank(p + t)
  {
    PrefixTrimmed(p, t);
  }

  /** A small event for command `c`. */
  function Plain(c: bytes): Event { SmallEvent(Ghost.EventID(c), c, A) }

  lemma SuccessPrintable()
    ensures |OUTCOME_SUCCESS| == 7 && Printable(OUTCOME_SUCCESS)
  {
  }

  lemma PlainTravels(codec: ArgsCodec, c: bytes)
    requires Trimmed(c) && !Blank(c) && |c| <= SMALL
    ensures WireEvent(Plain(c), 1) == Plain(c) && Sendable(codec, EventEnvelope(Plain(c)))
  {
    hide TrimSpace, Trimmed, Blank, Tlv.FieldsBytes, EventFields, Printable;
    Letters();
    LetterPlain(G);
    LetterPlain(S);
    LetterPlain(A);
    TrimmedIsFixed(c);
    Ghost.EvtPrintable();
    PlainPrefix(Ghost.EVT, c);
    SuccessPrintable();
    PlainTrimmed(OUTCOME_SUCCESS);
    EventSizeIs(Plain(c));
  }

  /** Small plans meet the assumption on events that can be sent and reported on. */
  lemma SmallPlansReportable(codec: ArgsCodec, s0: Stores, s: Stores, id: bytes)
    requires LoopInOrder(s0, s) && id in s.desired
    requires |s.desired[id].issue.intentID| <= SMALL && |s.desired[id].commands| <= 10000
    requires forall p :: p in s.desired[id].commands ==> |p.command.commandID| <= SMALL
    ensures AllReportable(codec, Watching(s0, id, s.desired[id]), s.desired[id])
  {
    hide Accounted, DistinctIntents, Trimmed, Blank, WireEvent, Sendable, ReportsFit;
    var d := s.desired[id];
    forall p | p in d.commands ensures EventFor(codec, Watching(s0, id, d), p.command.commandID, Plain(p.command.commandID)) {
      var c := p.command.commandID;
      StepNamed(s, id, p);
      PlainTravels(codec, c);
      PlainReports(d, c);
      forall k, q | Owns(Watching(s0, id, d), k, q, c) ensures ReportsFit(Watching(s0, id, d).desired[k], Plain(c)) {
        if k != id {
          assert Owns(s0, k, q, c) && Owns(s, k, q, c) && Owns(s, id, p, c);
          OneOwner(s, c, id, p, k, q);
        }
      }
    }
  }

  lemma OneOwner(s: Stores, c: bytes, id: bytes, p: PlannedCommand, k: bytes, q: PlannedCommand)
    requires Accounted(s) && DistinctIntents(s) && Owns(s, id, p, c) && Owns(s, k, q, c)
    ensures k == id
  {
    hide PlansInOrder, DistinctIntents, Concluded, Consistent;
    OwnerUnique(s, c, id, p, k, q);
  }

  lemma StepNamed(s: Stores, id: bytes, p: PlannedCommand)
    requires Accounted(s) && id in s.desired && p in s.desired[id].commands
    ensures Trimmed(p.command.commandID) && !Blank(p.command.commandID)
  {
    hide CommandID, Trimmed, Blank, Consistent, Concluded;
    assert PlanShape(id, s.desired[id].commands);
    var i :| 0 <= i < |s.desired[id].commands| && s.desired[id].commands[i] == p;
    assert StepShape(id, p, i + 1);
    CommandIDTrimmed(id, i + 1);
  }

  lemma PlainReports(d: DesiredIntent, c: bytes)
    requires |d.issue.intentID| <= SMALL && |d.commands| <= 10000 && Trimmed(c) && |c| <= SMALL
    ensures ReportsFit(d, Plain(c))
  {
    hide ReportFits, Trimmed, TrimSpace;
    Letters();
    TrimmedIsFixed(c);
    OutcomePlain();
    forall before: nat, now: u64 | before < |d.commands| ensures ReportFits(d, before, Plain(c), now) {
      ReportForSize(d, before, Plain(c), now);
    }
  }

  /** The event that ghost `g` makes for the first step of the plan of issue `a`. */
  const MADE: Event := Plain(CommandID(A, 1))

  lemma MadeTrimmed()
    ensures WireEvent(MADE, 1) == MADE && EventProblem(MADE) == None && |MADE.eventID| <= 14 && |MADE.commandID| <= 10
  {
    hide CommandID, TrimSpace, Trimmed, Blank, Printable;
    var c := CommandID(A, 1);
    Letters();
    LetterPlain(G);
    LetterPlain(S);
    LetterPlain(A);
    SmallIDs(A, 1);
    TrimmedIsFixed(c);
    Ghost.EvtPrintable();
    PlainPrefix(Ghost.EVT, c);
    SuccessPrintable();
    PlainTrimmed(OUTCOME_SUCCESS);
  }

  lemma MadeTravels(codec: ArgsCodec)
    ensures Travels(codec, G, MADE, 1)
  {
    hide CommandID, Tlv.FieldsBytes, EventFields, AckFields, TrimSpace, Blank, EventProblem, WireEvent;
    MadeTrimmed();
    var ack := MirageServer.NewAck(G, MADE, 1);
    MadeAckValid();
    Letters();
    EventSizeIs(MADE);
    AckSizeIs(ack);
    OutcomePlain();
  }

  lemma MadeAckValid()
    ensures AckProblem(MirageServer.NewAck(G, MADE, 1)) == None
  {
    hide CommandID, TrimSpace, Blank, Trimmed, Printable;
    MadeTrimmed();
    AcceptedPrintable();
    PlainTrimmed(MirageServer.ACCEPTED);
  }

  lemma AcceptedPrintable()
    ensures |MirageServer.ACCEPTED| == 8 && Printable(MirageServer.ACCEPTED)
  {
  }

  /** The run of `StaleAckAnswers` with one small issue: answered, planned, not observed. */
  lemma AnsweredNotObserved(codec: ArgsCodec)
    requires codec.Exact()
    ensures var n := Steps(codec, QUIET, FirstTry(G, MADE, 1) + SECOND_TRY + AfterPlan(MADE, SmallIssue(A, 1), 1));
            && Answered(G, MADE, MirageServer.NewAck(G, MADE, 1)) in n.answers
            && Owns(n.m.loop, A, SmallCommand(A, 1), MADE.commandID)
            && MADE.commandID !in ObservedOf(n.m.loop, A).byCommandID
  {
    hide Steps, FirstTry, AfterPlan, CommandID, TrimSpace, SeedLockKey, Travels, MirageServer.NewAck, Submit;
    Letters();
    MadeTravels(codec);
    StaleAckAnswers(codec, G, MADE, SmallIssue(A, 1));
    SmallSubmit(EMPTY, A, 1, 1);
    SmallOwned();
  }

  lemma SmallOwned()
    ensures Owns(Submit(EMPTY, SmallIssue(A, 1), 1).0, A, SmallCommand(A, 1), CommandID(A, 1))
    ensures Accounted(Submit(EMPTY, SmallIssue(A, 1), 1).0)
  {
    hide CommandID, TrimSpace, SeedLockKey, Submit, Blank;
    Letters();
    SmallSubmit(EMPTY, A, 1, 1);
    SubmitKeeps(EMPTY, SmallIssue(A, 1), 1);
    assert SmallPlan(A, 1).commands[0] == SmallCommand(A, 1);
  }

  /** Mirage with the plan of issue `a` and nothing else. */
  const PLANNED: MirageServer.MirageState := MirageServer.BOOTED.(loop := Submit(EMPTY, SmallIssue(A, 1), 1).0)

  /** What Mirage makes of an event of the planned command. */
  ghost predicate AcknowledgedUnobserved(g: bytes, e: Event)
  {
    var m' := MirageServer.Observe(PLANNED, Some((A, SmallCommand(A, 1))), e, 1).0;
    var (r', ack) := MirageServer.Accept(m'.registry, g, e, 1);
    && Owns(PLANNED.loop, A, SmallCommand(A, 1), e.commandID) && Stored(r', g, ack) && ack.eventID == e.eventID
    && A in m'.loop.desired && e.commandID !in ObservedOf(m'.loop, A).byCommandID
  }

  lemma Unfit(g: bytes, e: Event)
    requires e.commandID == CommandID(A, 1)
    requires EventProblemOnWire(e).Some? || !ReportFits(SmallPlan(A, 1), 0, e, 1)
    ensures AcknowledgedUnobserved(g, e)
  {
    hide CommandID, TrimSpace, SeedLockKey, Submit, Blank, Accounted, Stored, ReportFits, EventProblemOnWire,
      MirageServer.Accept, IngestReport;
    Letters();
    SmallSubmit(EMPTY, A, 1, 1);
    SmallOwned();
    NoneStored();
    AcknowledgedIsObservedIff(PLANNED, A, SmallCommand(A, 1), g, e, 1);
  }

  lemma NoneStored()
    ensures RegistryInOrder(PLANNED.registry)
  {
    MirageServer.CountedUnseen();
  }

  /** First cause: the event's seed id is blank. The frame decodes all the same. */
  lemma BlankFieldUnobserved(codec: ArgsCodec)
    requires codec.Exact()
    ensures var e := MADE.(seedID := []);
            var f := Written(OutFrame(EventKind, 1, Payload(codec, EventEnvelope(e))), DEFAULT_LIMITS);
            f.Ok? && EventRead(codec, f.value) == Ok((1, e)) && AcknowledgedUnobserved(G, e)
  {
    hide CommandID, EventRead, Written, OutFrame, Tlv.FieldsBytes, EventFields, AcknowledgedUnobserved, ReportFits;
    var e := MADE.(seedID := []);
    Letters();
    SmallIDs(A, 1);
    EventSizeIs(e);
    BlankFieldsDecode(codec, 1, e);
    Unfit(G, e);
  }

  /** An event whose payload is as large as a frame may carry. */
  const LARGEST: Event := MADE.(eventID := A, ghostID := seq(MAX_PAYLOAD - 67 - |CommandID(A, 1)|, i => G[0]))

  lemma LargestValid()
    ensures EventProblem(LARGEST) == None && |Tlv.FieldsBytes(EventFields(LARGEST))| == MAX_PAYLOAD
  {
    hide CommandID, Tlv.FieldsBytes, EventFields, TrimSpace;
    Letters();
    LetterPlain(A);
    LetterPlain(S);
    SmallIDs(A, 1);
    PlainTrimmed(LARGEST.ghostID);
    OutcomePlain();
    EventSizeIs(LARGEST);
  }

  /** Second cause: the event is a message that can be sent, but the report that names its ghost is too large. */
  lemma LargeReportUnobserved(codec: ArgsCodec)
    ensures Sendable(codec, EventEnvelope(LARGEST)) && AcknowledgedUnobserved(G, LARGEST)
  {
    hide CommandID, Tlv.FieldsBytes, EventFields, ReportFields, AcknowledgedUnobserved, TrimSpace, EventProblem;
    LargestValid();
    var d := SmallPlan(A, 1);
    assert |d.commands| == 1;
    SmallIDs(A, 1);
    Letters();
    ReportSizeIs(ReportFor(d, 0, LARGEST, 1));
    Unfit(G, LARGEST);
  }
}
