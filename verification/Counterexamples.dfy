/** Inputs on which the code does less than one may expect, for conditions that are proved elsewhere, and one that goes
    through. */
module Counterexamples {
  import opened Bytes
  import opened Errors
  import Tlv
  import opened Schema
  import opened Session
  import opened Framing
  import opened Planning
  import opened Orchestration
  import opened Accounting
  import opened Sizes
  import opened Progress
  import Admin
  import EndToEnd
  import Ghost
  import SeedLocks

  // ---------------------------------------------------------------- small issues

  const G: bytes := Ascii("g")
  const S: bytes := Ascii("s")
  const OP: bytes := Ascii("o")
  const A: bytes := Ascii("a")
  const B: bytes := Ascii("b")

  const STEP: IssueCommand := IssueCommand(G, S, OP, map[], true)

  /** `n` times the blocking operation `o` of seed `s` on ghost `g`. */
  function SmallIssue(id: bytes, n: nat): IssueEnv
  {
    IssueEnv(id, A, A, A, 1, seq(n, i requires 0 <= i < n => STEP), [], [], map[])
  }

  function SmallCommand(id: bytes, k: nat): PlannedCommand
  {
    PlannedCommand(Command(CommandID(id, k), id, G, S, OP, map[]), true, SeedLockKey(G, S))
  }

  function SmallPlan(id: bytes, n: nat): DesiredIntent
  {
    DesiredIntent(SmallIssue(id, n), seq(n, i requires 0 <= i < n => SmallCommand(id, i + 1)))
  }

  /** One visible character. */
  predicate Letter(s: bytes) { |s| == 1 && 33 <= s[0] <= 126 }

  lemma LetterPlain(s: bytes)
    requires Letter(s)
    ensures Trimmed(s) && TrimSpace(s) == s && !Blank(s)
  {
    PrintableStart(s);
  }

  lemma Letters()
    ensures Letter(G) && Letter(S) && Letter(OP) && Letter(A) && Letter(B) && A != B
  {
    assert A[0] == 97 && B[0] == 98;
  }

  lemma SmallSubmit(s: Stores, id: bytes, n: nat, now: u64)
    requires Letter(id) && n > 0
    ensures Submit(s, SmallIssue(id, n), now)
            == (s.(desired := s.desired[id := SmallPlan(id, n)], observed := s.observed - {id}), None)
  {
    hide TrimSpace, CommandID, SeedLockKey, Blank;
    Letters();
    LetterPlain(id);
    LetterPlain(A);
    LetterPlain(G);
    LetterPlain(S);
    LetterPlain(OP);
    var issue := SmallIssue(id, n);
    assert ValidIssue(issue);
    assert PlanOf(issue).value == SmallPlan(id, n).commands;
  }

  lemma SmallShape(id: bytes, n: nat)
    requires Letter(id) && n > 0
    ensures PlanShape(id, SmallPlan(id, n).commands)
  {
    hide PlanOf, PlanShape, ValidIssue;
    SmallIssueValid(id, n);
    SmallPlanOf(id, n);
    PlanHasShape(SmallIssue(id, n));
  }

  lemma SmallIssueValid(id: bytes, n: nat)
    requires Letter(id)
    ensures ValidIssue(SmallIssue(id, n))
  {
    hide TrimSpace;
    Letters();
    LetterPlain(id);
    LetterPlain(A);
    LetterPlain(G);
    LetterPlain(S);
    LetterPlain(OP);
  }

  lemma SmallPlanOf(id: bytes, n: nat)
    requires Letter(id) && n > 0
    ensures PlanOf(SmallIssue(id, n)) == Ok(SmallPlan(id, n).commands)
  {
    hide ValidIssue, PlanOf;
    SmallIssueValid(id, n);
    SmallSubmit(EMPTY, id, n, 1);
    assert SmallPlan(id, n) == Submit(EMPTY, SmallIssue(id, n), 1).0.desired[id];
  }

  // ---------------------------------------------------------------- small events

  function SmallEvent(eventID: bytes, commandID: bytes, id: bytes): Event
  {
    Event(eventID, commandID, id, G, S, OUTCOME_SUCCESS, 1)
  }

  lemma OutcomePlain()
    ensures !Blank(OUTCOME_SUCCESS) && |OUTCOME_SUCCESS| == 7
  {
    PrintableStart(OUTCOME_SUCCESS);
  }

  /** Events with short texts are valid messages and can be reported on. */
  lemma SmallReportable(d: DesiredIntent, o: ObservedIntent, e: Event, now: u64)
    requires Letter(d.issue.intentID) && |o.byCommandID| < |d.commands| <= 10000
    requires EventProblem(e) == None && |e.eventID| <= 1000 && |e.commandID| <= 1000 && |e.intentID| <= 1000
    requires |e.ghostID| <= 1000 && |e.seedID| <= 1000 && |e.outcome| <= 7
    ensures EventProblemOnWire(e) == None && ReportFits(d, |o.byCommandID|, e, now) && IngestReport(d, o, e, now).Ok?
  {
    hide EventFields, ReportFits, IngestReport, Tlv.FieldsBytes, EventProblem;
    LetterPlain(d.issue.intentID);
    EventSizeIs(e);
    ReportForSize(d, |o.byCommandID|, e, now);
    ReportableIff(d, o, e, now);
  }

  lemma SmallEventValid(eventID: bytes, commandID: bytes, id: bytes)
    requires Letter(id) && !Blank(eventID) && !Blank(commandID)
    ensures EventProblem(SmallEvent(eventID, commandID, id)) == None
  {
    hide TrimSpace;
    Letters();
    LetterPlain(id);
    LetterPlain(G);
    LetterPlain(S);
    OutcomePlain();
  }

  lemma SmallIDs(id: bytes, k: nat)
    requires Letter(id) && k <= 9
    ensures Trimmed(CommandID(id, k)) && !Blank(CommandID(id, k)) && |CommandID(id, k)| <= 10
  {
    LetterPlain(id);
    CommandIDTrimmed(id, k);
  }

  // ---------------------------------------------------------------- one event id, two commands

  lemma TwoIDs()
    ensures CommandID(A, 1) != CommandID(A, 2)
  {
    hide CommandID;
    if CommandID(A, 1) == CommandID(A, 2) { CommandIDInjective(A, 1, A, 2); }
  }

  /** A small event for step `k` of a small plan, not observed yet, is recorded under it. */
  lemma SmallIngest(s: Stores, n: nat, k: nat, e: Event, now: u64)
    requires A in s.desired && s.desired[A] == SmallPlan(A, n) && 1 <= k <= n <= 9 && |ObservedOf(s, A).byCommandID| < n
    requires e == SmallEvent(A, CommandID(A, k), A) && e.commandID !in ObservedOf(s, A).byCommandID
    ensures OwnerFound(s, e.commandID, Some((A, SmallCommand(A, k))))
    ensures var s' := Ingest(s, Some((A, SmallCommand(A, k))), e, now).0;
            && A in s'.desired && s'.desired[A] == SmallPlan(A, n)
            && ObservedOf(s', A).events == ObservedOf(s, A).events + [e]
            && ObservedOf(s', A).byCommandID == ObservedOf(s, A).byCommandID[e.commandID := e]
  {
    hide CommandID, TrimSpace, IngestReport, Blank, Trimmed, SettledReport;
    Letters();
    LetterPlain(A);
    SmallShape(A, n);
    SmallIDs(A, k);
    assert s.desired[A].commands[k - 1] == SmallCommand(A, k);
    SmallEventValid(A, e.commandID, A);
    SmallReportable(s.desired[A], ObservedOf(s, A), e, now);
  }

  /** docs/architecture/control-loop.md calls ingest idempotent by event id. Two commands of one plan, two events under
      one id: both are recorded, and both count. */
  lemma OneEventIDTwice(now: u64)
    ensures var e1, e2 := SmallEvent(A, CommandID(A, 1), A), SmallEvent(A, CommandID(A, 2), A);
            var p1, p2 := SmallCommand(A, 1), SmallCommand(A, 2);
            var s := Submit(EMPTY, SmallIssue(A, 2), now).0;
            && OwnerFound(s, e1.commandID, Some((A, p1))) && A in s.desired
            && var s1 := Ingest(s, Some((A, p1)), e1, now).0;
               && OwnerFound(s1, e2.commandID, Some((A, p2))) && A in s1.desired
               && var s2 := Ingest(s1, Some((A, p2)), e2, now).0;
                  && e1.eventID == e2.eventID && ObservedOf(s2, A).events == [e1, e2]
                  && A in s2.desired && PendingCount(s2.desired[A].commands, ObservedOf(s2, A).byCommandID) == 0
  {
    hide CommandID, TrimSpace, IngestReport, PendingCount, Blank, Trimmed, Submit, SettledReport, Ingest, OwnerFound;
    Letters();
    SmallSubmit(EMPTY, A, 2, now);
    TwoIDs();
    var s, d := Submit(EMPTY, SmallIssue(A, 2), now).0, SmallPlan(A, 2);
    var e1, e2 := SmallEvent(A, CommandID(A, 1), A), SmallEvent(A, CommandID(A, 2), A);
    assert d.commands[0] == SmallCommand(A, 1) && d.commands[1] == SmallCommand(A, 2);
    SmallIngest(s, 2, 1, e1, now);
    var s1 := Ingest(s, Some((A, SmallCommand(A, 1))), e1, now).0;
    SmallIngest(s1, 2, 2, e2, now);
    var s2 := Ingest(s1, Some((A, SmallCommand(A, 2))), e2, now).0;
    NonePendingIff(d.commands, ObservedOf(s2, A).byCommandID);
  }

  // ---------------------------------------------------------------- seed locks taken by others

  /** A registered ghost, two intents with one blocking step each for the same ghost and seed, the first in flight. */
  const OUT: seq<SeedLocks.Step> := [SeedLocks.RegisterStep(G), SeedLocks.SubmitStep(SmallIssue(A, 1), 1),
                                     SeedLocks.SubmitStep(SmallIssue(B, 1), 1), SeedLocks.BeginStep(0, A, 1)]

  const BOTH: Stores := Stores(map[A := SmallPlan(A, 1), B := SmallPlan(B, 1)], map[], {G}, map[])

  function Out(id: bytes): SeedLocks.Pass
  {
    SeedLocks.Pass(id, SmallPlan(id, 1), SmallCommand(id, 1), SeedLocks.Dispatched)
  }

  const LOCKED: Stores := BOTH.(seedLocks := map[SeedLockKey(G, S) := SeedLock(A, CommandID(A, 1))])

  const START: SeedLocks.Config := SeedLocks.Config(EMPTY, map[])

  /** Running `first`, then the rest. */
  lemma {:induction false} StepsThen(c: SeedLocks.Config, first: seq<SeedLocks.Step>, rest: seq<SeedLocks.Step>)
    ensures SeedLocks.Steps(c, first + rest) == SeedLocks.Steps(SeedLocks.Steps(c, first), rest)
    decreases |first|
  {
    hide SeedLocks.Next;
    if first == [] {
      assert first + rest == rest;
    } else {
      assert (first + rest)[0] == first[0] && (first + rest)[1..] == first[1..] + rest;
      StepsThen(SeedLocks.Next(c, first[0]), first[1..], rest);
    }
  }

  lemma OneStep(c: SeedLocks.Config, x: SeedLocks.Step)
    ensures SeedLocks.Steps(c, [x]) == SeedLocks.Next(c, x)
  {
    hide SeedLocks.Next;
    assert [x][1..] == [];
    assert SeedLocks.Steps(SeedLocks.Next(c, x), []) == SeedLocks.Next(c, x);
  }

  lemma BothSubmitted()
    ensures SeedLocks.Steps(START, OUT[..3]) == SeedLocks.Config(BOTH, map[])
  {
    hide Submit, CommandID, TrimSpace, Blank;
    Letters();
    LetterPlain(G);
    var c1 := SeedLocks.Next(START, OUT[0]);
    var c2 := SeedLocks.Next(c1, OUT[1]);
    SmallSubmit(c1.s, A, 1, 1);
    SmallSubmit(c2.s, B, 1, 1);
    var c3 := SeedLocks.Next(c2, OUT[2]);
    assert c3 == SeedLocks.Config(BOTH, map[]);
    assert OUT[..3] == ([OUT[0]] + [OUT[1]]) + [OUT[2]];
    OneStep(START, OUT[0]);
    OneStep(c1, OUT[1]);
    OneStep(c2, OUT[2]);
    StepsThen(START, [OUT[0]], [OUT[1]]);
    StepsThen(START, [OUT[0]] + [OUT[1]], [OUT[2]]);
  }

  lemma NextOfSmall(id: bytes)
    ensures NextPending(SmallPlan(id, 1).commands, map[]) == Some(SmallCommand(id, 1))
  {
    hide CommandID, SeedLockKey;
    assert SmallPlan(id, 1).commands[0] == SmallCommand(id, 1);
  }

  lemma FirstIsOut()
    ensures SeedLocks.Steps(START, OUT) == SeedLocks.Config(LOCKED, map[0 := Out(A)])
    ensures SeedLocks.Held(SeedLocks.Config(LOCKED, map[0 := Out(A)]))
  {
    hide CommandID, TrimSpace, SeedLockKey, NextPending;
    Letters();
    LetterPlain(A);
    BothSubmitted();
    NextOfSmall(A);
    StepsThen(START, OUT[..3], [OUT[3]]);
    assert OUT == OUT[..3] + [OUT[3]];
    OneStep(SeedLocks.Config(BOTH, map[]), OUT[3]);
  }

  function SmallOutcome(id: bytes): Event { SmallEvent(A, CommandID(id, 1), id) }

  lemma SmallOutcomeReportable(id: bytes, now: u64)
    requires Letter(id)
    ensures IngestReport(SmallPlan(id, 1), NOTHING_OBSERVED, SmallOutcome(id), now).Ok?
  {
    hide CommandID, IngestReport, Trimmed, Blank;
    Letters();
    LetterPlain(A);
    SmallIDs(id, 1);
    SmallEventValid(A, CommandID(id, 1), id);
    SmallReportable(SmallPlan(id, 1), NOTHING_OBSERVED, SmallOutcome(id), now);
  }

  /** From the empty orchestrator: the event of the command in flight arrives by ingest, which takes its lock, and the
      other intent's command goes out as well. */
  lemma LockStolenByIngest()
    ensures var steps := OUT + [SeedLocks.IngestStep(Some((A, SmallCommand(A, 1))), SmallOutcome(A), 1)]
                         + [SeedLocks.BeginStep(1, B, 1)];
            !SeedLocks.Exclusive(SeedLocks.Steps(START, steps))
  {
    hide CommandID, TrimSpace, SeedLockKey, NextPending, IngestReport, SeedLocks.Exclusive, SeedLocks.Next, SeedLocks.Steps;
    Letters();
    LetterPlain(B);
    FirstIsOut();
    NextOfSmall(B);
    SmallOutcomeReportable(A, 1);
    var c := SeedLocks.Config(LOCKED, map[0 := Out(A)]);
    var ingest, begin := SeedLocks.IngestStep(Some((A, SmallCommand(A, 1))), SmallOutcome(A), 1), SeedLocks.BeginStep(1, B, 1);
    SeedLocks.StolenLockBreaksExclusion(c, 0, SmallOutcome(A), 1, B, 1);
    StepsThen(START, OUT, [ingest]);
    OneStep(c, ingest);
    StepsThen(START, OUT + [ingest], [begin]);
    OneStep(SeedLocks.Next(c, ingest), begin);
  }

  /** From the empty orchestrator: a second pass over the same intent goes out under the same lock, and the first to
      finish takes it away from the other. */
  lemma LockLostToTwin()
    ensures var two := OUT + [SeedLocks.BeginStep(1, A, 1)];
            && SeedLocks.Held(SeedLocks.Steps(START, two))
            && !SeedLocks.Held(SeedLocks.Steps(START, two + [SeedLocks.FinishStep(0, SmallOutcome(A), 1)]))
  {
    hide CommandID, TrimSpace, SeedLockKey, NextPending, IngestReport, SeedLocks.Steps;
    Letters();
    LetterPlain(A);
    FirstIsOut();
    NextOfSmall(A);
    SmallOutcomeReportable(A, 1);
    var c := SeedLocks.Config(LOCKED, map[0 := Out(A)]);
    var begin, finish := SeedLocks.BeginStep(1, A, 1), SeedLocks.FinishStep(0, SmallOutcome(A), 1);
    var c1 := SeedLocks.Next(c, begin);
    assert c1 == SeedLocks.Config(LOCKED, map[0 := Out(A), 1 := Out(A)]);
    StepsThen(START, OUT, [begin]);
    OneStep(c, begin);
    StepsThen(START, OUT + [begin], [finish]);
    OneStep(c1, finish);
    SeedLocks.FinishStealsIff(c1, 0, SmallOutcome(A), 1);
    assert SeedLocks.Conflict(c1.passes[0], c1.passes[1]);
  }

  // ---------------------------------------------------------------- a plan that goes through

  /** A booted orchestrator with the executor of ghost `g`, which is radiating and has seed `s`. */
  const STAGE: EndToEnd.World :=
    EndToEnd.World(EMPTY.(executors := {G}),
                   map[G := Admin.AdminState(Ghost.Store(G, Ghost.Radiating, Some(map[S := S]), map[], map[], map[]), 0, [], [])])

  /** The end-to-end theorem applies to small issues of any number of steps up to a thousand. */
  lemma SmallLaunch(codec: ArgsCodec, n: nat, now: u64, spare: nat)
    requires 0 < n <= 1000 && spare <= MAX_U64
    ensures EndToEnd.Launchable(STAGE, codec, SmallIssue(A, n), now, spare)
  {
    hide CommandID, TrimSpace, SeedLockKey, PlanOf, Admin.InOrder, EndToEnd.Served, Blank, ValidIssue;
    Letters();
    LetterPlain(A);
    LetterPlain(G);
    SmallIssueValid(A, n);
    SmallPlanOf(A, n);
    Admin.FreshServiceInOrder(STAGE.ghosts[G].g);
    var d := SmallPlan(A, n);
    forall p | p in d.commands ensures EndToEnd.Unstarted(STAGE, codec, d, p) {
      var k :| 0 <= k < n && p == d.commands[k];
      SmallServed(codec, n, k + 1);
    }
  }

  lemma CommandIDLength(id: bytes, k: nat)
    requires Letter(id)
    ensures |CommandID(id, k)| <= 7 + k
  {
    hide TrimSpace, Decimal;
    LetterPlain(id);
    DecimalBound(k);
  }

  lemma SmallServed(codec: ArgsCodec, n: nat, k: nat)
    requires 0 < k <= n <= 1000
    ensures EndToEnd.Served(STAGE, codec, SmallPlan(A, n), SmallCommand(A, k).command)
  {
    hide CommandID, TrimSpace, SeedLockKey, EndToEnd.Travels, Tlv.FieldsBytes, CommandFields;
    Letters();
    LetterPlain(A);
    LetterPlain(G);
    LetterPlain(S);
    LetterPlain(OP);
    CommandIDTrimmed(A, k);
    CommandIDLength(A, k);
    CommandSizeIs(codec, SmallCommand(A, k).command);
    EndToEnd.SmallTextsTravel(SmallPlan(A, n), SmallCommand(A, k).command, G, S);
  }
}
