/** Any number of HandleCommandAndExecute calls on one ghost, interleaved at the points where the server's lock is free:
    accept, run the seed, complete. */
module GhostRuns {
  import opened Bytes
  import opened Errors
  import opened Session
  import opened Ghost

  /** Where a call stands, with the record HandleCommand gave it. */
  datatype Pipeline =
    | Taken(x: Execution)
    | Ran(x: Execution, exec: SeedExecute, result: SeedResult)
    | Returned(x: Execution, event: Event)
    | Stuck(x: Execution, error: Error)

  /** One call of Seed.Execute. */
  datatype Invocation = Invocation(commandID: bytes, seedID: bytes, operation: bytes, args: Args)

  datatype Config = Config(g: Store, calls: map<nat, Pipeline>, invoked: seq<Invocation>)

  datatype Step =
    | AppearStep(ghostID: bytes)
    | SeedStep(registry: Option<Registry>)
    | RadiateStep
    | AcceptStep(call: nat, command: CommandEnv)
    | RunStep(call: nat, world: SeedWorld)
    | CompleteStep(call: nat, at: u64)

  /** The seed is resolved and run outside the lock; the registry was read under it. */
  function RunCall(c: Config, i: nat, world: SeedWorld): Config
    requires i in c.calls && c.calls[i].Taken?
  {
    var x := c.calls[i].x;
    var e := BuildSeedExecute(x);
    if SeedExecuteProblem(e).Some? then c.(calls := c.calls[i := Stuck(x, SeedExecuteProblem(e).value)])
    else
      var r := RunSeed(c.g.registry, e, world);
      c.(calls := c.calls[i := if SeedResultProblem(r).Some? then Stuck(x, SeedResultProblem(r).value) else Ran(x, e, r)],
         invoked := if Resolves(c.g.registry, e.seedID)
                    then c.invoked + [Invocation(e.commandID, e.seedID, e.operation, e.args)] else c.invoked)
  }

  function CompleteCall(c: Config, i: nat, now: u64): Config
    requires i in c.calls && c.calls[i].Ran?
  {
    var p := c.calls[i];
    var event := BuildEvent(p.x, p.result, now);
    if TerminalProblem(event).Some? then c.(calls := c.calls[i := Stuck(p.x, TerminalProblem(event).value)])
    else c.(g := Finish(c.g, p.x.executionID, p.exec, p.result, event), calls := c.calls[i := Returned(p.x, event)])
  }

  /** One atomic step; a step that is not enabled does nothing. */
  function Next(c: Config, step: Step): Config
  {
    match step
    case AppearStep(id) => c.(g := AppearedAs(c.g, id).0)
    case SeedStep(reg) => c.(g := SeededWith(c.g, reg).0)
    case RadiateStep => c.(g := Radiated(c.g).0)
    case AcceptStep(i, cmd) =>
      if i in c.calls then c
      else
        var (g', r) := Handle(c.g, cmd);
        if r.Err? then c else c.(g := g', calls := c.calls[i := Taken(r.value)])
    case RunStep(i, world) => if i in c.calls && c.calls[i].Taken? then RunCall(c, i, world) else c
    case CompleteStep(i, now) => if i in c.calls && c.calls[i].Ran? then CompleteCall(c, i, now) else c
  }

  function Steps(c: Config, steps: seq<Step>): Config
    decreases |steps|
  {
    if steps == [] then c else Steps(Next(c, steps[0]), steps[1..])
  }

  /** The clock read when an event is built is positive. */
  predicate Ticks(step: Step) { step.CompleteStep? ==> step.at > 0 }

  // ---------------------------------------------------------------- the invariant

  /** No command id is invoked twice. */
  predicate OncePerCommand(invoked: seq<Invocation>)
  {
    forall i, j :: 0 <= i < j < |invoked| ==> invoked[i].commandID != invoked[j].commandID
  }

  predicate Invoked(invoked: seq<Invocation>, commandID: bytes)
  {
    exists i :: 0 <= i < |invoked| && invoked[i].commandID == commandID
  }

  predicate ValidRecord(x: Execution)
  {
    && SeedExecuteProblem(BuildSeedExecute(x)) == None
    && !Blank(x.commandID) && !Blank(x.intentID) && !Blank(x.ghostID) && !Blank(EventID(x.commandID))
  }

  /** A call's record is in the store; it is complete, with the event returned, exactly once the call has returned. */
  predicate InStore(g: Store, p: Pipeline)
  {
    && p.x.commandID in g.byCommandID && SameIdentity(g.byCommandID[p.x.commandID], p.x)
    && var y := g.byCommandID[p.x.commandID];
       if p.Returned? then y.phase == Complete && y.event == p.event && y.outcome == p.event.outcome
       else y.phase == Accepted
  }

  /** No call is stuck on a validation, and what it carries is valid. */
  predicate Healthy(p: Pipeline)
  {
    && ValidRecord(p.x)
    && match p
       case Taken(_) => true
       case Ran(_, _, r) => SeedResultProblem(r) == None
       case Returned(x, e) => TerminalProblem(e) == None && e.commandID == x.commandID
       case Stuck(_, _) => false
  }

  predicate CallOK(c: Config, p: Pipeline)
  {
    && InStore(c.g, p) && Healthy(p)
    && (p.Taken? ==> !Invoked(c.invoked, p.x.commandID))
  }

  /** Every call has its own command. */
  predicate OwnCommands(calls: map<nat, Pipeline>)
  {
    forall i, j :: i in calls && j in calls && calls[i].x.commandID == calls[j].x.commandID ==> i == j
  }

  predicate InOrder(c: Config)
  {
    && Agrees(c.g) && OwnCommands(c.calls) && OncePerCommand(c.invoked)
    && (forall i :: i in c.calls ==> CallOK(c, c.calls[i]))
    && (forall v :: v in c.invoked ==> v.commandID in c.g.byCommandID)
  }

  lemma BootInOrder()
    ensures InOrder(Config(BOOTED, map[], []))
  {
  }

  // ---------------------------------------------------------------- each step keeps it

  lemma AgreesSame(g: Store, g': Store)
    requires Agrees(g) && g'.byID == g.byID && g'.byCommandID == g.byCommandID && g'.byMessageID == g.byMessageID
    ensures Agrees(g')
  {
    hide ExecutionID, Trimmed;
    forall k | k in g.byCommandID ensures RecordAt(g', k) { assert RecordAt(g, k); }
    forall k | k in g.byID ensures ExecutionAt(g', k) { assert ExecutionAt(g, k); }
    forall k | k in g.byMessageID ensures MessageAt(g', k) { assert MessageAt(g, k); }
  }

  lemma LifecycleKeeps(c: Config, g': Store)
    requires InOrder(c)
    requires g'.byID == c.g.byID && g'.byCommandID == c.g.byCommandID && g'.byMessageID == c.g.byMessageID
    ensures InOrder(c.(g := g')) && Grows(c.g, g')
  {
    hide Agrees, ValidRecord, SameIdentity, OwnCommands, OncePerCommand, Invoked, Healthy, Grows;
    AgreesSame(c.g, g');
    forall i | i in c.calls ensures CallOK(c.(g := g'), c.calls[i]) { assert CallOK(c, c.calls[i]); }
    SameGrows(c.g, g');
  }

  lemma SameGrows(g: Store, g': Store)
    requires g'.byCommandID == g.byCommandID
    ensures Grows(g, g')
  {
  }

  lemma NewCallOK(c: Config, c': Config, x: Execution)
    requires forall v :: v in c.invoked ==> v.commandID in c.g.byCommandID
    requires x.commandID !in c.g.byCommandID && c'.invoked == c.invoked
    requires c'.g.byCommandID == c.g.byCommandID[x.commandID := x] && x.phase == Accepted
    requires ValidRecord(x) && SameIdentity(x, x)
    ensures CallOK(c', Taken(x))
  {
    hide ValidRecord, SameIdentity;
  }

  lemma CallStaysOK(c: Config, c': Config, p: Pipeline, x: Execution)
    requires CallOK(c, p) && x.commandID !in c.g.byCommandID && c'.invoked == c.invoked
    requires c'.g.byCommandID == c.g.byCommandID[x.commandID := x]
    ensures CallOK(c', p)
  {
    hide Healthy, Invoked, SameIdentity;
  }

  lemma NewCallKeeps(c: Config, i: nat, x: Execution, g': Store)
    requires InOrder(c) && i !in c.calls && x.commandID !in c.g.byCommandID && Agrees(g')
    requires g'.byCommandID == c.g.byCommandID[x.commandID := x] && x.phase == Accepted
    requires ValidRecord(x) && SameIdentity(x, x)
    ensures InOrder(c.(g := g', calls := c.calls[i := Taken(x)]))
  {
    hide Agrees, ValidRecord, SameIdentity, OwnCommands, OncePerCommand, CallOK;
    var c' := c.(g := g', calls := c.calls[i := Taken(x)]);
    NewCommand(c, i, x);
    assert CallOK(c', Taken(x)) by { NewCallOK(c, c', x); }
    forall j | j in c'.calls ensures CallOK(c', c'.calls[j]) {
      if j != i { CallStaysOK(c, c', c.calls[j], x); }
    }
  }

  lemma AcceptKeeps(c: Config, i: nat, cmd: CommandEnv)
    requires InOrder(c)
    ensures InOrder(Next(c, AcceptStep(i, cmd))) && Grows(c.g, Next(c, AcceptStep(i, cmd)).g)
  {
    hide Agrees, Handle, NewExecution, ValidRecord, SameIdentity, Grows, OwnCommands, OncePerCommand, CallOK;
    GrowsReflexive(c.g);
    HandleAgrees(c.g, cmd);
    var (g', r) := Handle(c.g, cmd);
    if i !in c.calls && r.Ok? {
      AcceptedRecord(c.g, cmd);
      NewCallKeeps(c, i, r.value, g');
    }
  }

  lemma AcceptedRecord(g: Store, cmd: CommandEnv)
    requires Handle(g, cmd).1.Ok?
    ensures var x := Handle(g, cmd).1.value; ValidRecord(x) && SameIdentity(x, x) && x == NewExecution(cmd)
  {
    AcceptedIsValid(g, cmd);
  }

  lemma NewCommand(c: Config, i: nat, x: Execution)
    requires OwnCommands(c.calls) && x.commandID !in c.g.byCommandID && i !in c.calls
    requires forall j :: j in c.calls ==> CallOK(c, c.calls[j])
    ensures OwnCommands(c.calls[i := Taken(x)])
  {
    hide Healthy, Invoked, SameIdentity;
    assert forall j :: j in c.calls ==> CallOK(c, c.calls[j]) && c.calls[j].x.commandID in c.g.byCommandID;
  }

  /** A step of one call leaves the others as they are. */
  lemma OthersKept(c: Config, c': Config, i: nat)
    requires InOrder(c) && i in c.calls && i in c'.calls && Agrees(c'.g) && OncePerCommand(c'.invoked)
    requires c'.calls == c.calls[i := c'.calls[i]] && c'.calls[i].x == c.calls[i].x && CallOK(c', c'.calls[i])
    requires c'.g.byCommandID.Keys == c.g.byCommandID.Keys
    requires forall k :: k in c.g.byCommandID && k != c.calls[i].x.commandID ==> c'.g.byCommandID[k] == c.g.byCommandID[k]
    requires forall k :: k != c.calls[i].x.commandID && Invoked(c'.invoked, k) ==> Invoked(c.invoked, k)
    requires forall v :: v in c'.invoked ==> v in c.invoked || v.commandID == c.calls[i].x.commandID
    ensures InOrder(c')
  {
    hide Agrees, Healthy, SameIdentity, OncePerCommand, Invoked;
    forall j | j in c'.calls ensures CallOK(c', c'.calls[j]) {
      if j != i { assert CallOK(c, c.calls[j]) && c.calls[j].x.commandID != c.calls[i].x.commandID; }
    }
    assert InStore(c.g, c.calls[i]) by { assert CallOK(c, c.calls[i]); }
  }

  lemma InvokeOnce(invoked: seq<Invocation>, v: Invocation)
    requires OncePerCommand(invoked) && !Invoked(invoked, v.commandID)
    ensures OncePerCommand(invoked + [v])
    ensures forall k :: k != v.commandID && Invoked(invoked + [v], k) ==> Invoked(invoked, k)
  {
    forall k | k != v.commandID && Invoked(invoked + [v], k) ensures Invoked(invoked, k) {
      var i :| 0 <= i < |invoked + [v]| && (invoked + [v])[i].commandID == k;
      assert invoked[i].commandID == k;
    }
    forall i, j | 0 <= i < j < |invoked + [v]| ensures (invoked + [v])[i].commandID != (invoked + [v])[j].commandID {
      if j == |invoked| { assert invoked[i].commandID != v.commandID; }
    }
  }

  lemma RunKeeps(c: Config, i: nat, world: SeedWorld)
    requires InOrder(c) && i in c.calls && c.calls[i].Taken?
    ensures var c' := RunCall(c, i, world);
            && InOrder(c') && c'.g == c.g && c'.calls[i].Ran?
            && c'.calls == c.calls[i := c'.calls[i]] && c'.calls[i].x == c.calls[i].x
            && (c'.invoked == c.invoked
                || exists v :: c'.invoked == c.invoked + [v] && v.commandID == c.calls[i].x.commandID)
  {
    hide Agrees, SameIdentity, OncePerCommand, Invoked, RunSeed, SeedExecuteProblem, SeedResultProblem, Blank, EventID,
         Resolves, OwnCommands;
    var x, c' := c.calls[i].x, RunCall(c, i, world);
    var e := BuildSeedExecute(x);
    assert CallOK(c, c.calls[i]);
    RunSeedValid(c.g.registry, e, world);
    var v := Invocation(e.commandID, e.seedID, e.operation, e.args);
    InvokeOnce(c.invoked, v);
    assert c'.invoked == c.invoked || c'.invoked == c.invoked + [v];
    assert v.commandID == x.commandID;
    assert CallOK(c', c'.calls[i]);
    OthersKept(c, c', i);
  }

  lemma StoredUnder(g: Store, p: Pipeline)
    requires Agrees(g) && InStore(g, p) && !p.Returned?
    ensures p.x.executionID in g.byID && g.byID[p.x.executionID].commandID == p.x.commandID
    ensures SameIdentity(g.byID[p.x.executionID], p.x) && g.byID[p.x.executionID] == g.byCommandID[p.x.commandID]
  {
    hide ExecutionID, Trimmed;
    assert RecordAt(g, p.x.commandID);
  }

  lemma CompleteKeeps(c: Config, i: nat, now: u64)
    requires InOrder(c) && i in c.calls && c.calls[i].Ran? && now > 0
    ensures var c' := CompleteCall(c, i, now);
            && InOrder(c') && Grows(c.g, c'.g) && c'.invoked == c.invoked && c'.calls[i].Returned?
            && c'.calls == c.calls[i := c'.calls[i]] && c'.calls[i].x == c.calls[i].x
  {
    hide Agrees, OncePerCommand, Invoked, SeedExecuteProblem, SeedResultProblem, TerminalProblem, Blank, EventID, BuildEvent,
         Grows, OwnCommands, Finish;
    var p, c' := c.calls[i], CompleteCall(c, i, now);
    assert CallOK(c, p);
    BuiltEventValid(p.x, p.result, now);
    var event := BuildEvent(p.x, p.result, now);
    EventNamesCommand(p.x, p.result, now);
    StoredUnder(c.g, p);
    FinishAgrees(c.g, p.x.executionID, p.exec, p.result, event);
    assert CallOK(c', c'.calls[i]);
    OthersKept(c, c', i);
  }

  lemma EventNamesCommand(x: Execution, r: SeedResult, now: u64)
    ensures BuildEvent(x, r, now).commandID == x.commandID
  {
  }

  lemma StepKeeps(c: Config, step: Step)
    requires InOrder(c) && Ticks(step)
    ensures InOrder(Next(c, step)) && Grows(c.g, Next(c, step).g) && c.invoked <= Next(c, step).invoked
  {
    hide InOrder, Grows, RunCall, CompleteCall, Handle;
    GrowsReflexive(c.g);
    match step
    case AppearStep(id) => LifecycleKeeps(c, AppearedAs(c.g, id).0);
    case SeedStep(reg) => LifecycleKeeps(c, SeededWith(c.g, reg).0);
    case RadiateStep => LifecycleKeeps(c, Radiated(c.g).0);
    case AcceptStep(i, cmd) => AcceptKeeps(c, i, cmd);
    case RunStep(i, world) => if i in c.calls && c.calls[i].Taken? { RunKeeps(c, i, world); }
    case CompleteStep(i, now) => if i in c.calls && c.calls[i].Ran? { CompleteKeeps(c, i, now); }
  }

  // ---------------------------------------------------------------- over every interleaving

  /** Whatever the interleaving, the seeds are run at most once per command id, the three lookups stay in
      agreement, records keep their identity and only go from accepted to complete, and no call gets stuck. */
  lemma {:induction false} AtMostOnce(c: Config, steps: seq<Step>)
    requires InOrder(c) && forall s :: s in steps ==> Ticks(s)
    ensures var c' := Steps(c, steps);
            && OncePerCommand(c'.invoked) && c.invoked <= c'.invoked
            && Agrees(c'.g) && Grows(c.g, c'.g)
            && (forall i :: i in c'.calls ==> !c'.calls[i].Stuck? && CallOK(c', c'.calls[i]))
            && InOrder(c')
    decreases |steps|
  {
    hide Next, Grows, Agrees, OncePerCommand, Ticks;
    if steps == [] {
      GrowsReflexive(c.g);
      forall i | i in c.calls ensures !c.calls[i].Stuck? { assert CallOK(c, c.calls[i]); }
    } else {
      StepKeeps(c, steps[0]);
      AtMostOnce(Next(c, steps[0]), steps[1..]);
      GrowsTransitive(c.g, Next(c, steps[0]).g, Steps(c, steps).g);
    }
  }

  /** From boot, through the lifecycle and whatever calls come: no two invocations are for one command, and each
      command run is on record and found by its message id. */
  lemma OnceFromBoot(steps: seq<Step>)
    requires forall s :: s in steps ==> Ticks(s)
    ensures var c' := Steps(Config(BOOTED, map[], []), steps);
            && OncePerCommand(c'.invoked) && Agrees(c'.g)
            && forall v :: v in c'.invoked ==>
                 && v.commandID in c'.g.byCommandID
                 && var x := c'.g.byCommandID[v.commandID]; ByMessageID(c'.g, x.messageID) == Some(x)
  {
    hide Steps, Agrees, OncePerCommand, Ticks, ByMessageID;
    BootInOrder();
    AtMostOnce(Config(BOOTED, map[], []), steps);
    var c' := Steps(Config(BOOTED, map[], []), steps);
    forall v | v in c'.invoked ensures var x := c'.g.byCommandID[v.commandID]; ByMessageID(c'.g, x.messageID) == Some(x) {
      RecordsAreFound(c'.g, v.commandID);
    }
  }

  lemma RecordsAreFound(g: Store, commandID: bytes)
    requires Agrees(g) && commandID in g.byCommandID
    ensures var x := g.byCommandID[commandID]; ByMessageID(g, x.messageID) == Some(x)
  {
    hide ExecutionID, TrimSpace, Trimmed;
  }

  // ---------------------------------------------------------------- accepted commands end complete

  function Rank(p: Pipeline): nat
  {
    match p case Taken(_) => 0 case Ran(_, _, _) => 1 case Returned(_, _) => 2 case Stuck(_, _) => 0
  }

  lemma NoneStuck(c: Config, i: nat)
    requires InOrder(c) && i in c.calls
    ensures !c.calls[i].Stuck?
  {
    assert CallOK(c, c.calls[i]);
  }

  lemma StepAdvances(c: Config, step: Step, i: nat)
    requires InOrder(c) && i in c.calls && Ticks(step)
    ensures var c' := Next(c, step);
            && i in c'.calls && c'.calls[i].x == c.calls[i].x && Rank(c'.calls[i]) >= Rank(c.calls[i])
            && (step.RunStep? && step.call == i ==> Rank(c'.calls[i]) >= 1)
            && (step.CompleteStep? && step.call == i && Rank(c.calls[i]) >= 1 ==> Rank(c'.calls[i]) == 2)
  {
    hide InOrder, RunCall, CompleteCall, Handle;
    NoneStuck(c, i);
    match step
    case AppearStep(_) =>
    case SeedStep(_) =>
    case RadiateStep =>
    case AcceptStep(_, _) =>
    case RunStep(j, world) => if j in c.calls && c.calls[j].Taken? { RunKeeps(c, j, world); }
    case CompleteStep(j, now) => if j in c.calls && c.calls[j].Ran? { CompleteKeeps(c, j, now); }
  }

  /** How far the steps to come are sure to take a call of rank `r`. */
  function Reaches(steps: seq<Step>, i: nat, r: nat): nat
    decreases |steps|
  {
    if steps == [] then r
    else
      var s := steps[0];
      var r' := if s.RunStep? && s.call == i && r < 1 then 1
                else if s.CompleteStep? && s.call == i && r == 1 then 2 else r;
      Reaches(steps[1..], i, r')
  }

  lemma {:induction false} CallAdvances(c: Config, steps: seq<Step>, i: nat, r: nat)
    requires InOrder(c) && i in c.calls && r <= Rank(c.calls[i]) && forall s :: s in steps ==> Ticks(s)
    ensures var c' := Steps(c, steps);
            InOrder(c') && i in c'.calls && c'.calls[i].x == c.calls[i].x && Rank(c'.calls[i]) >= Reaches(steps, i, r)
    decreases |steps|
  {
    hide Next, InOrder, Rank;
    if steps != [] {
      StepKeeps(c, steps[0]);
      StepAdvances(c, steps[0], i);
      var s := steps[0];
      var r' := if s.RunStep? && s.call == i && r < 1 then 1
                else if s.CompleteStep? && s.call == i && r == 1 then 2 else r;
      CallAdvances(Next(c, s), steps[1..], i, r');
    }
  }

  lemma {:induction false} ReachesTwo(steps: seq<Step>, i: nat, p: nat, q: nat, r: nat)
    requires q < |steps| && steps[q].CompleteStep? && steps[q].call == i
    requires r >= 1 || (p < q && steps[p].RunStep? && steps[p].call == i)
    ensures Reaches(steps, i, r) >= 2
    decreases |steps|
  {
    var s := steps[0];
    var r' := if s.RunStep? && s.call == i && r < 1 then 1
              else if s.CompleteStep? && s.call == i && r == 1 then 2 else r;
    if q == 0 {
      ReachesAtLeast(steps[1..], i, r');
    } else {
      ReachesTwo(steps[1..], i, if p == 0 then 0 else p - 1, q - 1, r');
    }
  }

  lemma {:induction false} ReachesAtLeast(steps: seq<Step>, i: nat, r: nat)
    ensures Reaches(steps, i, r) >= r
    decreases |steps|
  {
    if steps != [] {
      var s := steps[0];
      var r' := if s.RunStep? && s.call == i && r < 1 then 1
                else if s.CompleteStep? && s.call == i && r == 1 then 2 else r;
      ReachesAtLeast(steps[1..], i, r');
    }
  }

  /** Once a command is accepted, its call's run and complete steps, whatever is interleaved with them, leave the
      ghost with the complete record of that command and return the valid event stored in it. */
  lemma InterleavedEndsComplete(c: Config, steps: seq<Step>, i: nat, p: nat, q: nat)
    requires InOrder(c) && i in c.calls && forall s :: s in steps ==> Ticks(s)
    requires p < q < |steps| && steps[p].RunStep? && steps[p].call == i && steps[q].CompleteStep? && steps[q].call == i
    ensures var c' := Steps(c, steps);
            && i in c'.calls && c'.calls[i].Returned? && c'.calls[i].x == c.calls[i].x
            && var id := c.calls[i].x.commandID;
               && id in c'.g.byCommandID && c'.g.byCommandID[id].phase == Complete
               && c'.g.byCommandID[id].event == c'.calls[i].event && TerminalProblem(c'.calls[i].event) == None
               && SameIdentity(c'.g.byCommandID[id], c.calls[i].x)
  {
    hide Next, Agrees, Reaches, SameIdentity, TerminalProblem, ValidRecord, OncePerCommand, Invoked;
    CallAdvances(c, steps, i, 0);
    ReachesTwo(steps, i, p, q, 0);
    assert CallOK(Steps(c, steps), Steps(c, steps).calls[i]);
  }
}
