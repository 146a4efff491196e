/** ReconcileOnce split at its mutex sections: any number of passes over any intents, interleaved. */
module SeedLocks {
  import opened Bytes
  import opened Errors
  import opened Session
  import opened Planning
  import opened Orchestration
  import opened Accounting

  /** A pass between its mutex sections: its command is out, or it failed and still has to release its lock. */
  datatype Phase = Dispatched | Releasing
  datatype Pass = Pass(key: bytes, plan: DesiredIntent, next: PlannedCommand, phase: Phase)

  /** The stores and the passes in flight. */
  datatype Config = Config(s: Stores, passes: map<nat, Pass>)

  datatype Step =
    | RegisterStep(ghostID: bytes)
    | SubmitStep(issue: IssueEnv, at: u64)
    | BeginStep(pass: nat, intentID: bytes, at: u64)            // first mutex section
    | FailStep(pass: nat)                                       // dispatch or executor error
    | FinishStep(pass: nat, event: Event, at: u64)              // second mutex section
    | ReleaseStep(pass: nat)                                    // releaseSeedLock after an error
    | IngestStep(owner: Option<(bytes, PlannedCommand)>, event: Event, at: u64)

  /** One atomic step; a step that is not enabled does nothing. */
  function Next(c: Config, step: Step): Config
  {
    match step
    case RegisterStep(g) => c.(s := RegisterGhost(c.s, g).0)
    case SubmitStep(issue, now) => c.(s := Submit(c.s, issue, now).0)
    case BeginStep(i, id, now) =>
      if i in c.passes then c
      else
        var (s', b) := Begin(c.s, TrimSpace(id), now);
        Config(s', if b.Dispatch? then c.passes[i := Pass(TrimSpace(id), b.plan, b.next, Dispatched)] else c.passes)
    case FailStep(i) =>
      if i in c.passes then c.(passes := c.passes[i := c.passes[i].(phase := Releasing)]) else c
    case FinishStep(i, e, now) =>
      if i !in c.passes || c.passes[i].phase != Dispatched then c
      else
        var p := c.passes[i];
        var (s', r) := Finish(c.s, p.key, p.plan, p.next, e, now);
        Config(s', if r.Ok? then c.passes - {i} else c.passes[i := p.(phase := Releasing)])
    case ReleaseStep(i) =>
      if i !in c.passes || c.passes[i].phase != Releasing then c
      else Config(ReleaseAfterError(c.s, c.passes[i].key, c.passes[i].next), c.passes - {i})
    case IngestStep(owner, e, now) =>
      if owner.Some? && owner.value.0 !in c.s.desired then c else c.(s := Ingest(c.s, owner, e, now).0)
  }

  function Steps(c: Config, steps: seq<Step>): Config
    decreases |steps|
  {
    if steps == [] then c else Steps(Next(c, steps[0]), steps[1..])
  }

  // ---------------------------------------------------------------- invariants

  function OwnLock(p: Pass): SeedLock { SeedLock(p.key, p.next.command.commandID) }

  predicate Holds(s: Stores, p: Pass)
  {
    p.next.blocking ==> p.next.seedKey in s.seedLocks && s.seedLocks[p.next.seedKey] == OwnLock(p)
  }

  /** Every blocking pass in flight holds its lock. */
  predicate Held(c: Config) { forall i :: i in c.passes ==> Holds(c.s, c.passes[i]) }

  predicate OneEach(c: Config)
  {
    forall i, j :: i in c.passes && j in c.passes && c.passes[i].key == c.passes[j].key ==> i == j
  }

  /** Two blocking commands for one ghost/seed key. */
  predicate Conflict(p: Pass, q: Pass)
  {
    p.next.blocking && q.next.blocking && p.next.seedKey == q.next.seedKey
  }

  /** No two different passes have blocking commands with one ghost/seed key out together. */
  predicate Exclusive(c: Config)
  {
    forall i, j :: i in c.passes && j in c.passes && Conflict(c.passes[i], c.passes[j]) ==> i == j
  }

  predicate HolderInFlight(c: Config, k: bytes)
    requires k in c.s.seedLocks
  {
    exists i :: i in c.passes && c.passes[i].next.blocking && c.passes[i].next.seedKey == k
                && c.s.seedLocks[k] == OwnLock(c.passes[i])
  }

  /** No lock without its pass. */
  predicate NoneStranded(c: Config) { forall k :: k in c.s.seedLocks ==> HolderInFlight(c, k) }

  lemma HeldIsExclusive(c: Config)
    requires Held(c) && OneEach(c)
    ensures Exclusive(c)
  {
    forall i, j | i in c.passes && j in c.passes && Conflict(c.passes[i], c.passes[j]) ensures i == j
    {
      assert Holds(c.s, c.passes[i]) && Holds(c.s, c.passes[j]);
    }
  }

  // ---------------------------------------------------------------- exclusion

  predicate Idle(c: Config, key: bytes) { forall i :: i in c.passes ==> c.passes[i].key != key }

  /** One pass in flight per intent, no event ingest. */
  predicate OrderlyStep(c: Config, step: Step)
  {
    match step
    case BeginStep(_, id, _) => Idle(c, TrimSpace(id))
    case IngestStep(_, _, _) => false
    case _ => true
  }

  predicate Orderly(c: Config, steps: seq<Step>)
    decreases |steps|
  {
    steps == [] || (OrderlyStep(c, steps[0]) && Orderly(Next(c, steps[0]), steps[1..]))
  }

  /** How the mutex sections treat the lock table. */
  lemma BeginLocks(s: Stores, key: bytes, now: u64)
    ensures var (s', b) := Begin(s, key, now);
            && (b.Dispatch? || b.Unbound? ==>
                  key in s.desired && NextPending(s.desired[key].commands, ObservedOf(s, key).byCommandID).Some?
                  && var next := NextPending(s.desired[key].commands, ObservedOf(s, key).byCommandID).value;
                     && (b.Dispatch? ==> b.next == next)
                     && s'.seedLocks == (if next.blocking then s.seedLocks[next.seedKey := SeedLock(key, next.command.commandID)]
                                         else s.seedLocks)
                     && (next.blocking && next.seedKey in s.seedLocks ==>
                           s.seedLocks[next.seedKey] == SeedLock(key, next.command.commandID)))
            && (!b.Dispatch? && !b.Unbound? ==> s'.seedLocks == s.seedLocks)
  {
    hide BlockedReport, SettledReport, NextPending;
    if key in s.desired {
      var next := NextPending(s.desired[key].commands, ObservedOf(s, key).byCommandID);
      if next.Some? && next.value.blocking && next.value.seedKey in s.seedLocks {
        assert s.seedLocks[next.value.seedKey := s.seedLocks[next.value.seedKey]] == s.seedLocks;
      }
    }
  }

  lemma FinishLocks(s: Stores, key: bytes, d: DesiredIntent, next: PlannedCommand, e: Event, now: u64)
    ensures var (s', r) := Finish(s, key, d, next, e, now);
            s'.seedLocks == if r.Ok? && next.blocking then s.seedLocks - {next.seedKey} else s.seedLocks
  {
    hide IngestReport;
  }

  lemma OrderlyKeepsOne(c: Config, step: Step)
    requires OneEach(c) && OrderlyStep(c, step)
    ensures OneEach(Next(c, step))
  {
    hide Begin, Finish, Submit, RegisterGhost, TrimSpace;
  }

  /** A pass that leaves takes only its own lock with it. */
  lemma LeaveKeepsHeld(c: Config, i: nat, s': Stores)
    requires Held(c) && OneEach(c) && i in c.passes
    requires s'.seedLocks == c.s.seedLocks
          || (c.passes[i].next.blocking && s'.seedLocks == c.s.seedLocks - {c.passes[i].next.seedKey})
    ensures Held(Config(s', c.passes - {i}))
  {
    HeldIsExclusive(c);
    forall j | j in c.passes && j != i ensures Holds(s', c.passes[j]) { assert Holds(c.s, c.passes[j]); }
  }

  lemma OrderlyKeepsHeld(c: Config, step: Step)
    requires Held(c) && OneEach(c) && OrderlyStep(c, step)
    ensures Held(Next(c, step))
  {
    hide Begin, Finish, TrimSpace, PlanOf, ValidIssue, OneEach;
    match step
    case RegisterStep(_) =>
    case SubmitStep(_, _) =>
    case BeginStep(i, id, now) => BeginLocks(c.s, TrimSpace(id), now);
    case FailStep(_) =>
    case FinishStep(i, e, now) =>
      if i in c.passes && c.passes[i].phase == Dispatched {
        var p := c.passes[i];
        FinishLocks(c.s, p.key, p.plan, p.next, e, now);
        if Finish(c.s, p.key, p.plan, p.next, e, now).1.Ok? {
          LeaveKeepsHeld(c, i, Finish(c.s, p.key, p.plan, p.next, e, now).0);
        }
      }
    case ReleaseStep(i) =>
      if i in c.passes && c.passes[i].phase == Releasing {
        LeaveKeepsHeld(c, i, ReleaseAfterError(c.s, c.passes[i].key, c.passes[i].next));
      }
  }

  /** Over every interleaving with one pass per intent and no event ingest, every blocking command that is out
      holds its seed lock, so two different blocking commands for one ghost and seed are never out together.
      Missing executors, errors, resubmissions and new registrations make no difference. */
  lemma {:induction false} SeedLockExclusion(c: Config, steps: seq<Step>)
    requires Held(c) && OneEach(c) && Orderly(c, steps)
    ensures Held(Steps(c, steps)) && OneEach(Steps(c, steps)) && Exclusive(Steps(c, steps))
    decreases |steps|
  {
    hide Next, Held, OneEach, Exclusive, OrderlyStep;
    if steps == [] {
      HeldIsExclusive(c);
    } else {
      OrderlyKeepsOne(c, steps[0]);
      OrderlyKeepsHeld(c, steps[0]);
      SeedLockExclusion(Next(c, steps[0]), steps[1..]);
    }
  }

  // ---------------------------------------------------------------- exactness

  /** Every planned ghost has an executor. */
  predicate AllBound(s: Stores)
  {
    forall id :: id in s.desired ==> PlanBound(s, s.desired[id].commands)
  }

  predicate PlanBound(s: Stores, commands: seq<PlannedCommand>)
  {
    forall i :: 0 <= i < |commands| ==> commands[i].command.ghostID in s.executors
  }

  /** Only plans whose ghosts are registered are submitted. */
  predicate BoundStep(c: Config, step: Step)
  {
    step.SubmitStep? ==>
      var issue := if step.issue.timestampMS == 0 then step.issue.(timestampMS := step.at) else step.issue;
      PlanOf(issue).Ok? ==> PlanBound(c.s, PlanOf(issue).value)
  }

  predicate OrderlyBound(c: Config, steps: seq<Step>)
    decreases |steps|
  {
    steps == [] || (OrderlyStep(c, steps[0]) && BoundStep(c, steps[0]) && OrderlyBound(Next(c, steps[0]), steps[1..]))
  }

  lemma KeepsAllBound(c: Config, step: Step)
    requires AllBound(c.s) && OrderlyStep(c, step) && BoundStep(c, step)
    ensures AllBound(Next(c, step).s)
  {
    hide PlanOf, ValidIssue, IngestReport, NextPending, TrimSpace, BlockedReport;
  }

  lemma BoundNeverUnbound(s: Stores, key: bytes, now: u64)
    requires AllBound(s)
    ensures !Begin(s, key, now).1.Unbound?
  {
    if key in s.desired {
      assert PlanBound(s, s.desired[key].commands);
    }
  }

  /** The next pending command of an intent is blocking, its ghost has no executor, and its seed lock is free or its
      own already. */
  predicate WouldStrand(s: Stores, key: bytes)
  {
    && key in s.desired
    && var n := NextPending(s.desired[key].commands, ObservedOf(s, key).byCommandID);
       && n.Some? && n.value.blocking && n.value.command.ghostID !in s.executors
       && (n.value.seedKey in s.seedLocks ==> s.seedLocks[n.value.seedKey] == SeedLock(key, n.value.command.commandID))
  }

  lemma StrandsUnbound(s: Stores, key: bytes, now: u64)
    ensures WouldStrand(s, key) <==>
              Begin(s, key, now).1.Unbound?
              && NextPending(s.desired[key].commands, ObservedOf(s, key).byCommandID).value.blocking
  {
    hide NextPending, BlockedReport, SettledReport;
  }

  /** A pass strands a lock exactly when the next command would take one and has no executor. */
  lemma BeginStrandsIff(c: Config, i: nat, id: bytes, now: u64)
    requires Held(c) && NoneStranded(c) && i !in c.passes && Idle(c, TrimSpace(id))
    ensures NoneStranded(Next(c, BeginStep(i, id, now))) <==> !WouldStrand(c.s, TrimSpace(id))
  {
    hide Begin, NextPending, TrimSpace, WouldStrand;
    var key := TrimSpace(id);
    BeginLocks(c.s, key, now);
    StrandsUnbound(c.s, key, now);
    var c' := Next(c, BeginStep(i, id, now));
    var b := Begin(c.s, key, now).1;
    if WouldStrand(c.s, key) {
      var next := NextPending(c.s.desired[key].commands, ObservedOf(c.s, key).byCommandID).value;
      assert c'.passes == c.passes && c'.s.seedLocks[next.seedKey].intentID == key;
      assert !HolderInFlight(c', next.seedKey);
    } else {
      forall k | k in c'.s.seedLocks ensures HolderInFlight(c', k) {
        if b.Dispatch? && c'.passes[i].next.blocking && c'.passes[i].next.seedKey == k {
          assert c'.s.seedLocks[k] == OwnLock(c'.passes[i]);
        } else {
          assert HolderInFlight(c, k);
          var j :| j in c.passes && c.passes[j].next.blocking && c.passes[j].next.seedKey == k
                   && c.s.seedLocks[k] == OwnLock(c.passes[j]);
          assert c'.passes[j] == c.passes[j];
        }
      }
    }
  }

  /** A pass that leaves with its lock strands none. */
  lemma LeaveStrandsNone(c: Config, i: nat, s': Stores)
    requires Held(c) && NoneStranded(c) && i in c.passes
    requires s'.seedLocks == if c.passes[i].next.blocking then c.s.seedLocks - {c.passes[i].next.seedKey} else c.s.seedLocks
    ensures NoneStranded(Config(s', c.passes - {i}))
  {
    var c' := Config(s', c.passes - {i});
    forall k | k in s'.seedLocks ensures HolderInFlight(c', k) {
      assert HolderInFlight(c, k);
      var j :| j in c.passes && c.passes[j].next.blocking && c.passes[j].next.seedKey == k
               && c.s.seedLocks[k] == OwnLock(c.passes[j]);
      assert j in c'.passes && c'.passes[j] == c.passes[j];
    }
  }

  lemma PhaseStrandsNone(c: Config, i: nat, s': Stores)
    requires NoneStranded(c) && i in c.passes && s'.seedLocks == c.s.seedLocks
    ensures NoneStranded(Config(s', c.passes[i := c.passes[i].(phase := Releasing)]))
  {
    var c' := Config(s', c.passes[i := c.passes[i].(phase := Releasing)]);
    forall k | k in s'.seedLocks ensures HolderInFlight(c', k) {
      assert HolderInFlight(c, k);
      var j :| j in c.passes && c.passes[j].next.blocking && c.passes[j].next.seedKey == k
               && c.s.seedLocks[k] == OwnLock(c.passes[j]);
      assert OwnLock(c'.passes[j]) == OwnLock(c.passes[j]) && c'.passes[j].next == c.passes[j].next;
    }
  }

  lemma SameLocksStrandNone(c: Config, s': Stores)
    requires NoneStranded(c) && s'.seedLocks == c.s.seedLocks
    ensures NoneStranded(c.(s := s'))
  {
    forall k | k in s'.seedLocks ensures HolderInFlight(c.(s := s'), k) { assert HolderInFlight(c, k); }
  }

  lemma OrderlyStrandsNone(c: Config, step: Step)
    requires Held(c) && NoneStranded(c) && AllBound(c.s) && OrderlyStep(c, step)
    ensures NoneStranded(Next(c, step))
  {
    hide Begin, Finish, TrimSpace, PlanOf, ValidIssue, NoneStranded, AllBound, NextPending, WouldStrand;
    match step
    case RegisterStep(g) => SameLocksStrandNone(c, RegisterGhost(c.s, g).0);
    case SubmitStep(issue, now) => SameLocksStrandNone(c, Submit(c.s, issue, now).0);
    case BeginStep(i, id, now) =>
      if i !in c.passes {
        BoundNeverUnbound(c.s, TrimSpace(id), now);
        StrandsUnbound(c.s, TrimSpace(id), now);
        BeginStrandsIff(c, i, id, now);
      }
    case FailStep(i) => if i in c.passes { PhaseStrandsNone(c, i, c.s); }
    case FinishStep(i, e, now) =>
      if i in c.passes && c.passes[i].phase == Dispatched {
        var p := c.passes[i];
        FinishLocks(c.s, p.key, p.plan, p.next, e, now);
        var (s', r) := Finish(c.s, p.key, p.plan, p.next, e, now);
        if r.Ok? { LeaveStrandsNone(c, i, s'); } else { PhaseStrandsNone(c, i, s'); }
      }
    case ReleaseStep(i) =>
      if i in c.passes && c.passes[i].phase == Releasing {
        assert Holds(c.s, c.passes[i]);
        LeaveStrandsNone(c, i, ReleaseAfterError(c.s, c.passes[i].key, c.passes[i].next));
      }
  }

  /** With every planned ghost registered, the lock table is at every point exactly the blocking commands in
      flight, each lock carrying its own pass's intent and command. */
  lemma {:induction false} LockTableExact(c: Config, steps: seq<Step>)
    requires Held(c) && OneEach(c) && NoneStranded(c) && AllBound(c.s) && OrderlyBound(c, steps)
    ensures var c' := Steps(c, steps);
            && Exclusive(c') && AllBound(c'.s)
            && (forall i :: i in c'.passes && c'.passes[i].next.blocking ==>
                  c'.passes[i].next.seedKey in c'.s.seedLocks && c'.s.seedLocks[c'.passes[i].next.seedKey] == OwnLock(c'.passes[i]))
            && (forall k :: k in c'.s.seedLocks ==> HolderInFlight(c', k))
    decreases |steps|
  {
    hide Next, OneEach, Exclusive, AllBound, HolderInFlight, OrderlyStep, BoundStep;
    if steps == [] {
      HeldIsExclusive(c);
      assert forall i :: i in c.passes ==> Holds(c.s, c.passes[i]);
    } else {
      OrderlyKeepsOne(c, steps[0]);
      OrderlyKeepsHeld(c, steps[0]);
      OrderlyStrandsNone(c, steps[0]);
      KeepsAllBound(c, steps[0]);
      LockTableExact(Next(c, steps[0]), steps[1..]);
    }
  }

  // ---------------------------------------------------------------- what the assumptions are for

  /** `next` is pending for `key`, has no executor and holds its lock, and no pass is out for it or under that lock. */
  predicate Stranded(c: Config, key: bytes, next: PlannedCommand)
  {
    && key in c.s.desired && NextPending(c.s.desired[key].commands, ObservedOf(c.s, key).byCommandID) == Some(next)
    && next.blocking && next.command.ghostID !in c.s.executors
    && next.seedKey in c.s.seedLocks && c.s.seedLocks[next.seedKey] == SeedLock(key, next.command.commandID)
    && forall i :: i in c.passes ==>
         c.passes[i].key != key && (c.passes[i].next.blocking ==> c.passes[i].next.seedKey != next.seedKey)
  }

  /** Anything but what could give the lock back: an executor for the ghost, a resubmission of the intent, and the ingest
      of an event of the intent or for another blocking command of that ghost and seed. */
  predicate NoRescue(key: bytes, next: PlannedCommand, step: Step)
  {
    match step
    case RegisterStep(g) => TrimSpace(g) != next.command.ghostID
    case SubmitStep(issue, _) => issue.intentID != key
    case IngestStep(owner, _, _) =>
      owner.Some? ==> owner.value.0 != key && (owner.value.1.blocking ==> owner.value.1.seedKey != next.seedKey)
    case _ => true
  }

  lemma BeginLeavesObserved(s: Stores, key: bytes, now: u64, id: bytes)
    ensures var (s', b) := Begin(s, key, now);
            && s'.desired == s.desired && s'.executors == s.executors
            && ObservedOf(s', id).byCommandID == ObservedOf(s, id).byCommandID
  {
    hide NextPending, BlockedReport, SettledReport;
  }

  /** The pass of the stranded intent finds no executor again; any other that needs the lock is turned away. */
  lemma StrandedBegins(c: Config, key: bytes, next: PlannedCommand, id: bytes, now: u64)
    requires Stranded(c, key, next)
    ensures var (s', b) := Begin(c.s, id, now);
            && (b.Dispatch? ==> id != key && (b.next.blocking ==> b.next.seedKey != next.seedKey))
            && next.seedKey in s'.seedLocks && s'.seedLocks[next.seedKey] == SeedLock(key, next.command.commandID)
  {
    hide NextPending, BlockedReport, SettledReport;
  }

  lemma StrandedStays(c: Config, key: bytes, next: PlannedCommand, step: Step)
    requires Stranded(c, key, next) && NoRescue(key, next, step)
    ensures Stranded(Next(c, step), key, next)
  {
    hide Begin, Finish, TrimSpace, PlanOf, ValidIssue, NextPending;
    match step
    case RegisterStep(_) =>
    case SubmitStep(_, _) =>
    case BeginStep(i, id, now) =>
      BeginLeavesObserved(c.s, TrimSpace(id), now, key);
      StrandedBegins(c, key, next, TrimSpace(id), now);
    case FailStep(_) =>
    case FinishStep(i, e, now) =>
      if i in c.passes && c.passes[i].phase == Dispatched {
        var p := c.passes[i];
        FinishLocks(c.s, p.key, p.plan, p.next, e, now);
        FinishLeavesOthers(c.s, p.key, p.plan, p.next, e, now, key);
      }
    case ReleaseStep(_) =>
    case IngestStep(owner, e, now) =>
      if owner.Some? && owner.value.0 in c.s.desired { IngestLeavesOthers(c.s, owner.value.0, owner.value.1, e, now, key); }
  }

  lemma FinishLeavesOthers(s: Stores, key: bytes, d: DesiredIntent, next: PlannedCommand, e: Event, now: u64, other: bytes)
    requires other != key
    ensures var s' := Finish(s, key, d, next, e, now).0;
            s'.desired == s.desired && s'.executors == s.executors && ObservedOf(s', other) == ObservedOf(s, other)
  {
    hide IngestReport;
  }

  lemma IngestLeavesOthers(s: Stores, key: bytes, p: PlannedCommand, e: Event, now: u64, other: bytes)
    requires key in s.desired && other != key
    ensures var s' := Ingest(s, Some((key, p)), e, now).0;
            && s'.desired == s.desired && s'.executors == s.executors && ObservedOf(s', other) == ObservedOf(s, other)
            && (s'.seedLocks == s.seedLocks || (p.blocking && s'.seedLocks == s.seedLocks - {p.seedKey}))
  {
    hide IngestReport, SettledReport;
  }

  lemma {:induction false} StrandedStaysOn(c: Config, key: bytes, next: PlannedCommand, steps: seq<Step>)
    requires Stranded(c, key, next) && forall s :: s in steps ==> NoRescue(key, next, s)
    ensures Stranded(Steps(c, steps), key, next)
    decreases |steps|
  {
    hide Next, Stranded, NoRescue;
    if steps != [] {
      StrandedStays(c, key, next, steps[0]);
      StrandedStaysOn(Next(c, steps[0]), key, next, steps[1..]);
    }
  }

  /** A pass that finds no executor strands its lock, */
  lemma BeginLeavesStranded(c: Config, i: nat, id: bytes, now: u64)
    requires Held(c) && i !in c.passes && Idle(c, TrimSpace(id)) && WouldStrand(c.s, TrimSpace(id))
    ensures var key := TrimSpace(id);
            Stranded(Next(c, BeginStep(i, id, now)), key,
                     NextPending(c.s.desired[key].commands, ObservedOf(c.s, key).byCommandID).value)
  {
    hide NextPending, TrimSpace, BlockedReport, SettledReport;
    assert forall j :: j in c.passes ==> Holds(c.s, c.passes[j]);
  }

  /** and over every interleaving that does not rescue it the lock stays: no blocking command for that ghost and seed
      ever goes out again, of whatever intent, and the pass of the intent itself never does either. */
  lemma StrandedForever(c: Config, i: nat, id: bytes, now: u64, steps: seq<Step>)
    requires Held(c) && i !in c.passes && Idle(c, TrimSpace(id)) && WouldStrand(c.s, TrimSpace(id))
    requires var key := TrimSpace(id);
             var next := NextPending(c.s.desired[key].commands, ObservedOf(c.s, key).byCommandID).value;
             forall s :: s in steps ==> NoRescue(key, next, s)
    ensures var key := TrimSpace(id);
            var next := NextPending(c.s.desired[key].commands, ObservedOf(c.s, key).byCommandID).value;
            var c' := Steps(Next(c, BeginStep(i, id, now)), steps);
            && next.seedKey in c'.s.seedLocks && c'.s.seedLocks[next.seedKey] == SeedLock(key, next.command.commandID)
            && forall j :: j in c'.passes ==>
                 c'.passes[j].key != key && (c'.passes[j].next.blocking ==> c'.passes[j].next.seedKey != next.seedKey)
  {
    hide Next, NextPending, TrimSpace, NoRescue, Steps;
    var key := TrimSpace(id);
    var next := NextPending(c.s.desired[key].commands, ObservedOf(c.s, key).byCommandID).value;
    BeginLeavesStranded(c, i, id, now);
    StrandedStaysOn(Next(c, BeginStep(i, id, now)), key, next, steps);
  }

  /** Event ingest takes a lock from a pass in flight exactly when it newly records a blocking command of that
      pass's ghost and seed. */
  lemma IngestStealsIff(c: Config, key: bytes, p: PlannedCommand, e: Event, now: u64)
    requires Held(c) && key in c.s.desired
    ensures Held(Next(c, IngestStep(Some((key, p)), e, now))) <==>
              !(p.blocking && e.commandID !in ObservedOf(c.s, key).byCommandID
                && IngestReport(c.s.desired[key], ObservedOf(c.s, key), e, now).Ok?
                && exists i :: i in c.passes && c.passes[i].next.blocking && c.passes[i].next.seedKey == p.seedKey)
  {
    hide IngestReport, Recorded, SettledReport;
    var c' := Next(c, IngestStep(Some((key, p)), e, now));
    if p.blocking && e.commandID !in ObservedOf(c.s, key).byCommandID
       && IngestReport(c.s.desired[key], ObservedOf(c.s, key), e, now).Ok? {
      assert c'.s.seedLocks == c.s.seedLocks - {p.seedKey};
      forall i | i in c.passes ensures Holds(c'.s, c.passes[i]) <==> !(c.passes[i].next.blocking && c.passes[i].next.seedKey == p.seedKey) {
        assert Holds(c.s, c.passes[i]);
      }
    } else {
      assert c'.s.seedLocks == c.s.seedLocks;
      forall i | i in c.passes ensures Holds(c'.s, c.passes[i]) { assert Holds(c.s, c.passes[i]); }
    }
  }

  /** And then the lock is free for another intent. From any configuration in which every pass holds its lock: the
      event of a pass's own command comes in by ingest, another intent's next command blocks on the same ghost and
      seed, and two blocking commands for them are out together. */
  lemma StolenLockBreaksExclusion(c: Config, i: nat, e: Event, j: nat, id: bytes, now: u64)
    requires Held(c) && i in c.passes && j !in c.passes && c.passes[i].next.blocking
    requires var p := c.passes[i];
             && p.key in c.s.desired && e.commandID == p.next.command.commandID
             && e.commandID !in ObservedOf(c.s, p.key).byCommandID
             && IngestReport(c.s.desired[p.key], ObservedOf(c.s, p.key), e, now).Ok?
    requires var other := TrimSpace(id);
             && other != c.passes[i].key && other in c.s.desired
             && var n := NextPending(c.s.desired[other].commands, ObservedOf(c.s, other).byCommandID);
                n.Some? && n.value.blocking && n.value.seedKey == c.passes[i].next.seedKey
                && n.value.command.ghostID in c.s.executors
    ensures var c1 := Next(c, IngestStep(Some((c.passes[i].key, c.passes[i].next)), e, now));
            var c2 := Next(c1, BeginStep(j, id, now));
            && i in c2.passes && j in c2.passes && c2.passes[i] == c.passes[i] && Conflict(c2.passes[i], c2.passes[j])
            && !Exclusive(c2)
  {
    hide IngestReport, Recorded, SettledReport, NextPending, TrimSpace, BlockedReport;
    var p := c.passes[i];
    var c1 := Next(c, IngestStep(Some((p.key, p.next)), e, now));
    assert c1.s.seedLocks == c.s.seedLocks - {p.next.seedKey} && c1.passes == c.passes;
    var c2 := Next(c1, BeginStep(j, id, now));
    assert ObservedOf(c1.s, TrimSpace(id)) == ObservedOf(c.s, TrimSpace(id));
    assert i in c2.passes && j in c2.passes && Conflict(c2.passes[i], c2.passes[j]);
  }

  /** A pass that closes takes its lock from another one in flight exactly when the two conflict, as two passes over
      one intent do. */
  lemma FinishStealsIff(c: Config, i: nat, e: Event, now: u64)
    requires Held(c) && i in c.passes && c.passes[i].phase == Dispatched
    requires Finish(c.s, c.passes[i].key, c.passes[i].plan, c.passes[i].next, e, now).1.Ok?
    ensures Held(Next(c, FinishStep(i, e, now))) <==>
              !(exists j :: j in c.passes && j != i && Conflict(c.passes[i], c.passes[j]))
  {
    hide Finish;
    var p := c.passes[i];
    FinishLocks(c.s, p.key, p.plan, p.next, e, now);
    var c' := Next(c, FinishStep(i, e, now));
    assert c'.passes == c.passes - {i};
    forall j | j in c'.passes ensures Holds(c'.s, c'.passes[j]) <==> !Conflict(p, c.passes[j]) {
      assert Holds(c.s, c.passes[j]);
    }
    if exists j :: j in c.passes && j != i && Conflict(p, c.passes[j]) {
      var j :| j in c.passes && j != i && Conflict(p, c.passes[j]);
      assert !Holds(c'.s, c'.passes[j]);
    }
  }
}
