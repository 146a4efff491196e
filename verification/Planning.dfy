/** internal/mirage/orchestration.go, from an issue to a plan of commands. */
module Planning {
  import opened Bytes
  import opened Errors
  import opened Session

  datatype IssueCommand = IssueCommand(ghostID: bytes, seedSelector: bytes, operation: bytes, args: Args, blocking: bool)

  datatype IssueEnv = IssueEnv(intentID: bytes, actor: bytes, targetScope: bytes, objective: bytes, timestampMS: u64,
                               commandPlan: seq<IssueCommand>, seedSelector: bytes, operation: bytes, args: Args)

  datatype PlannedCommand = PlannedCommand(command: Command, blocking: bool, seedKey: bytes)

  predicate ValidStep(c: IssueCommand) { !Blank(c.ghostID) && !Blank(c.seedSelector) && !Blank(c.operation) }

  predicate ValidIssue(i: IssueEnv)
  {
    && !Blank(i.intentID) && !Blank(i.actor) && !Blank(i.targetScope) && !Blank(i.objective)
    && forall k :: 0 <= k < |i.commandPlan| ==> ValidStep(i.commandPlan[k])
  }

  // ---------------------------------------------------------------- ids

  const CMD: bytes := Ascii("cmd.")
  const LOCK_SEPARATOR: bytes := Ascii("::")
  const GHOST_SCOPE: bytes := Ascii("ghost:")
  const SEED_FLOW: bytes := Ascii("seed.flow")

  function Dotted(b: byte): byte { if b == 32 || b == 47 then DOT else b }

  /** Trims, then turns every space and slash into a dot. */
  function SanitizeID(id: bytes): (r: bytes)
    ensures |r| == |TrimSpace(id)| && forall i :: 0 <= i < |r| ==> r[i] != 32 && r[i] != 47
    ensures forall i :: 0 <= i < |r| && TrimSpace(id)[i] != 32 && TrimSpace(id)[i] != 47 ==> r[i] == TrimSpace(id)[i]
    ensures forall i :: 0 <= i < |r| && (TrimSpace(id)[i] == 32 || TrimSpace(id)[i] == 47) ==> r[i] == 46
  {
    var t := TrimSpace(id);
    seq(|t|, i requires 0 <= i < |t| => Dotted(t[i]))
  }

  /** `cmd.<sanitised intent id>.<step>`. */
  function CommandID(intentID: bytes, step: nat): bytes
  {
    CMD + (SanitizeID(intentID) + [DOT] + Decimal(step))
  }

  /** A command id determines the sanitised intent id and the step number. */
  lemma CommandIDInjective(i1: bytes, k1: nat, i2: bytes, k2: nat)
    requires CommandID(i1, k1) == CommandID(i2, k2)
    ensures SanitizeID(i1) == SanitizeID(i2) && k1 == k2
  {
    hide SanitizeID;
    var t1, t2 := SanitizeID(i1) + [DOT] + Decimal(k1), SanitizeID(i2) + [DOT] + Decimal(k2);
    assert CommandID(i1, k1)[|CMD|..] == t1 && CommandID(i2, k2)[|CMD|..] == t2;
    DottedInjective(SanitizeID(i1), k1, SanitizeID(i2), k2);
  }

  lemma CommandIDTrimmed(intentID: bytes, step: nat)
    ensures Trimmed(CommandID(intentID, step)) && !Blank(CommandID(intentID, step))
  {
    var t, d := SanitizeID(intentID) + [DOT] + Decimal(step), Decimal(step);
    assert t[|t| - 1] == d[|d| - 1];
    PrefixTrimmed(CMD, t);
  }

  function SeedLockKey(ghostID: bytes, seedSelector: bytes): bytes
  {
    TrimSpace(ghostID) + LOCK_SEPARATOR + TrimSpace(seedSelector)
  }

  /** What a ghost id or seed selector of a plan step is: trimmed and not blank. */
  predicate LockHalf(x: bytes) { Trimmed(x) && x != [] }

  predicate SeparatorAt(key: bytes, p: nat)
  {
    p + 2 <= |key| && key[p..p + 2] == LOCK_SEPARATOR
  }

  /** `p` cuts the key into a ghost and a seed a plan step could have. */
  predicate CutsAt(key: bytes, p: nat)
  {
    SeparatorAt(key, p) && LockHalf(key[..p]) && LockHalf(key[p + 2..])
  }

  lemma KeyCut(ghostID: bytes, seed: bytes)
    requires LockHalf(ghostID) && LockHalf(seed)
    ensures var key := SeedLockKey(ghostID, seed);
            CutsAt(key, |ghostID|) && key[..|ghostID|] == ghostID && key[|ghostID| + 2..] == seed
  {
    hide Trimmed;
    TrimmedIsFixed(ghostID);
    TrimmedIsFixed(seed);
    var key, n := SeedLockKey(ghostID, seed), |ghostID|;
    assert |LOCK_SEPARATOR| == 2 && key == ghostID + LOCK_SEPARATOR + seed;
    assert key[..n] == ghostID && key[n..n + 2] == LOCK_SEPARATOR && key[n + 2..] == seed;
  }

  lemma CutKey(key: bytes, p: nat)
    requires CutsAt(key, p)
    ensures SeedLockKey(key[..p], key[p + 2..]) == key
  {
    hide Trimmed;
    TrimmedIsFixed(key[..p]);
    TrimmedIsFixed(key[p + 2..]);
    assert key == key[..p] + key[p..p + 2] + key[p + 2..];
  }

  /** A seed lock belongs to one ghost and seed exactly when its key can be cut in only one place. */
  lemma LockKeyIdentifiesIff(ghostID: bytes, seed: bytes)
    requires LockHalf(ghostID) && LockHalf(seed)
    ensures (forall g, s :: LockHalf(g) && LockHalf(s) && SeedLockKey(g, s) == SeedLockKey(ghostID, seed)
               ==> g == ghostID && s == seed)
            <==> forall p: nat :: CutsAt(SeedLockKey(ghostID, seed), p) ==> p == |ghostID|
  {
    hide SeedLockKey, CutsAt, LockHalf;
    var key := SeedLockKey(ghostID, seed);
    if forall g, s :: LockHalf(g) && LockHalf(s) && SeedLockKey(g, s) == key ==> g == ghostID && s == seed {
      forall p: nat | CutsAt(key, p) ensures p == |ghostID| {
        CutBounds(key, p);
        CutKey(key, p);
        assert key[..p] == ghostID;
      }
    }
    if forall p: nat :: CutsAt(key, p) ==> p == |ghostID| {
      KeyCut(ghostID, seed);
      forall g, s | LockHalf(g) && LockHalf(s) && SeedLockKey(g, s) == key ensures g == ghostID && s == seed {
        KeyCut(g, s);
      }
    }
  }

  lemma CutBounds(key: bytes, p: nat)
    requires CutsAt(key, p)
    ensures p + 2 <= |key| && LockHalf(key[..p]) && LockHalf(key[p + 2..])
  {
  }

  /** Two pairs with one key: `a::b::c` can be cut in two places. */
  lemma LockKeysCollide()
    ensures var (a, b, c, d) := (Ascii("a"), Ascii("b::c"), Ascii("a::b"), Ascii("c"));
            && LockHalf(a) && LockHalf(b) && LockHalf(c) && LockHalf(d) && a != c
            && SeedLockKey(a, b) == SeedLockKey(c, d)
  {
    var a, b, c, d := Ascii("a"), Ascii("b::c"), Ascii("a::b"), Ascii("c");
    assert |a| != |c|;
    assert Trimmed(a) && Trimmed(b) && Trimmed(c) && Trimmed(d);
    assert a + LOCK_SEPARATOR + b == c + LOCK_SEPARATOR + d;
  }

  function NormalizeGhostID(targetScope: bytes): bytes
  {
    var t := TrimSpace(targetScope);
    TrimSpace(if GHOST_SCOPE <= t then t[|GHOST_SCOPE|..] else t)
  }

  /** A target names a ghost by its id, with or without the scope `ghost:` and a space after it. */
  lemma TargetNamesGhost(g: bytes)
    requires Trimmed(g)
    ensures NormalizeGhostID(Ascii("ghost:") + g) == g
    ensures g != [] ==> NormalizeGhostID(Ascii("ghost: ") + g) == g
    ensures !(Ascii("ghost:") <= g) ==> NormalizeGhostID(g) == g
  {
    hide TrimSpace, Trimmed;
    TrimmedIsFixed(g);
    ScopedTrimmed(g);
    var scoped, spaced := Ascii("ghost:") + g, Ascii("ghost: ") + g;
    assert scoped[6..] == g;
    if g != [] {
      assert Ascii("ghost: ") == Ascii("ghost:") + [32];
      assert spaced == Ascii("ghost:") + ([32] + g) && spaced[6..] == [32] + g;
      SpaceBefore(g);
    }
  }

  lemma ScopedTrimmed(g: bytes)
    requires Trimmed(g)
    ensures TrimSpace(Ascii("ghost:") + g) == Ascii("ghost:") + g
    ensures g != [] ==> TrimSpace(Ascii("ghost: ") + g) == Ascii("ghost: ") + g
  {
    hide TrimSpace;
    ScopePrintable();
    PrefixTrimmed(Ascii("ghost:"), g);
    TrimmedIsFixed(Ascii("ghost:") + g);
    if g != [] {
      assert Ascii("ghost: ") + g == Ascii("ghost:") + ([32] + g);
      BackOfLonger(g);
      PrefixTrimmed(Ascii("ghost:"), [32] + g);
      TrimmedIsFixed(Ascii("ghost: ") + g);
    }
  }

  lemma ScopePrintable()
    ensures |Ascii("ghost:")| == 6 && Printable(Ascii("ghost:")) && Ascii("ghost: ") == Ascii("ghost:") + [32]
  {
  }

  lemma BackOfLonger(g: bytes)
    requires Trimmed(g) && g != []
    ensures SpaceAtBack([32] + g) == 0
  {
    var s := [32] + g;
    assert s[|s| - 1] == g[|g| - 1];
    if |g| >= 2 { assert s[|s| - 2] == g[|g| - 2]; }
    if |g| >= 3 { assert s[|s| - 3] == g[|g| - 3]; }
  }

  lemma SpaceBefore(g: bytes)
    requires Trimmed(g) && g != []
    ensures TrimSpace([32] + g) == g
  {
    assert ([32] + g)[1..] == g;
    assert TrimLeft([32] + g) == TrimLeft(g);
  }

  // ---------------------------------------------------------------- plans

  /** Step `i` of an explicit plan. Steps are numbered from 1. */
  function PlannedStep(issue: IssueEnv, i: nat): PlannedCommand
    requires i < |issue.commandPlan|
  {
    var step := issue.commandPlan[i];
    var cmd := Command(CommandID(issue.intentID, i + 1), issue.intentID, TrimSpace(step.ghostID),
                       TrimSpace(step.seedSelector), TrimSpace(step.operation), step.args);
    PlannedCommand(cmd, step.blocking, SeedLockKey(cmd.ghostID, cmd.seedSelector))
  }

  /** The one step of an issue without a plan. */
  function SingleStep(issue: IssueEnv): Result<PlannedCommand>
  {
    var ghostID := NormalizeGhostID(issue.targetScope);
    if ghostID == [] then Err(TargetGhostRequired)
    else
      var seedSelector := if Blank(issue.seedSelector) then SEED_FLOW else TrimSpace(issue.seedSelector);
      var operation := if Blank(issue.operation) then TrimSpace(issue.objective) else TrimSpace(issue.operation);
      if operation == [] then Err(InvalidIssue)
      else
        var cmd := Command(CommandID(issue.intentID, 1), issue.intentID, ghostID, seedSelector, operation, issue.args);
        Ok(PlannedCommand(cmd, false, SeedLockKey(cmd.ghostID, cmd.seedSelector)))
  }

  /** Every step of an explicit plan, or an error when one is invalid; else the single step. */
  function PlanOf(issue: IssueEnv): (r: Result<seq<PlannedCommand>>)
  {
    if issue.commandPlan == [] then
      (var p :- SingleStep(issue); Ok([p]))
    else if exists k :: 0 <= k < |issue.commandPlan| && !ValidStep(issue.commandPlan[k]) then Err(InvalidIssue)
    else Ok(seq(|issue.commandPlan|, i requires 0 <= i < |issue.commandPlan| => PlannedStep(issue, i)))
  }

  method NormalizeIssueToCommands(issue: IssueEnv) returns (r: Result<seq<PlannedCommand>>)
    ensures r == PlanOf(issue)
  {
    if |issue.commandPlan| > 0 {
      r := PlanCommandsFromIssue(issue);
      return;
    }
    var single := SingleStep(issue);
    if single.Err? { return Err(single.error); }
    return Ok([single.value]);
  }

  method PlanCommandsFromIssue(issue: IssueEnv) returns (r: Result<seq<PlannedCommand>>)
    requires issue.commandPlan != []
    ensures r == PlanOf(issue)
  {
    hide PlannedStep, ValidStep;
    var out: seq<PlannedCommand> := [];
    for i := 0 to |issue.commandPlan|
      invariant |out| == i && forall k :: 0 <= k < i ==> ValidStep(issue.commandPlan[k]) && out[k] == PlannedStep(issue, k)
    {
      if !ValidStep(issue.commandPlan[i]) { return Err(InvalidIssue); }
      out := out + [PlannedStep(issue, i)];
    }
    assert out == seq(|issue.commandPlan|, i requires 0 <= i < |issue.commandPlan| => PlannedStep(issue, i));
    return Ok(out);
  }

  /** What step `k` of every stored plan satisfies: its numbered id, the intent's own id, a command that validates. */
  predicate StepShape(intentID: bytes, p: PlannedCommand, k: nat)
  {
    var c := p.command;
    && c.commandID == CommandID(intentID, k) && c.intentID == intentID
    && CommandProblem(c) == None
    && Trimmed(c.ghostID) && Trimmed(c.seedSelector) && Trimmed(c.operation)
    && p.seedKey == SeedLockKey(c.ghostID, c.seedSelector)
  }

  lemma StepHalves(intentID: bytes, p: PlannedCommand, k: nat)
    requires StepShape(intentID, p, k)
    ensures LockHalf(p.command.ghostID) && LockHalf(p.command.seedSelector)
  {
    hide CommandID, TrimLeft, TrimRight;
  }

  /** Another ghost and seed in a step. */
  function Moved(p: PlannedCommand, g: bytes, s: bytes): PlannedCommand
  {
    p.(command := p.command.(ghostID := g, seedSelector := s), seedKey := SeedLockKey(g, s))
  }

  lemma MovedShape(intentID: bytes, p: PlannedCommand, k: nat, g: bytes, s: bytes)
    requires StepShape(intentID, p, k) && LockHalf(g) && LockHalf(s)
    ensures StepShape(intentID, Moved(p, g, s), k)
  {
    hide CommandID, TrimLeft, TrimRight, SeedLockKey;
    TrimmedIsFixed(g);
    TrimmedIsFixed(s);
  }

  /** A plan step has the lock of no other ghost or seed exactly when its key can be cut in only one place. */
  lemma StepLockIdentifiesIff(intentID: bytes, p: PlannedCommand, k: nat)
    requires StepShape(intentID, p, k)
    ensures (forall i, q, j :: StepShape(i, q, j) && q.seedKey == p.seedKey
               ==> q.command.ghostID == p.command.ghostID && q.command.seedSelector == p.command.seedSelector)
            <==> forall n: nat :: CutsAt(p.seedKey, n) ==> n == |p.command.ghostID|
  {
    hide StepShape, SeedLockKey, CutsAt, LockHalf;
    var ghostID, seed := p.command.ghostID, p.command.seedSelector;
    StepHalves(intentID, p, k);
    KeyIsOwn(intentID, p, k);
    LockKeyIdentifiesIff(ghostID, seed);
    if forall n: nat :: CutsAt(p.seedKey, n) ==> n == |ghostID| {
      forall i, q, j | StepShape(i, q, j) && q.seedKey == p.seedKey
        ensures q.command.ghostID == ghostID && q.command.seedSelector == seed
      {
        StepHalves(i, q, j);
        KeyIsOwn(i, q, j);
      }
    } else {
      var g, s :| LockHalf(g) && LockHalf(s) && SeedLockKey(g, s) == p.seedKey && !(g == ghostID && s == seed);
      MovedShape(intentID, p, k, g, s);
      assert Moved(p, g, s).seedKey == p.seedKey;
    }
  }

  lemma KeyIsOwn(intentID: bytes, p: PlannedCommand, k: nat)
    requires StepShape(intentID, p, k)
    ensures p.seedKey == SeedLockKey(p.command.ghostID, p.command.seedSelector)
  {
    hide CommandID, CommandProblem, Trimmed, SeedLockKey;
  }

  /** An explicit plan has the issue's steps, in its order and with its flags; texts are trimmed. */
  lemma PlanFollowsIssue(issue: IssueEnv, i: nat)
    requires PlanOf(issue).Ok? && i < |issue.commandPlan|
    ensures |PlanOf(issue).value| == |issue.commandPlan|
    ensures var (p, step) := (PlanOf(issue).value[i], issue.commandPlan[i]);
            && p.command.ghostID == TrimSpace(step.ghostID) && p.command.seedSelector == TrimSpace(step.seedSelector)
            && p.command.operation == TrimSpace(step.operation) && p.command.args == step.args && p.blocking == step.blocking
  {
    hide CommandID, TrimSpace, SeedLockKey;
  }

  /** An issue without a plan is one non-blocking step at its target, with the seed and operation it names or else
      seed.flow and the objective. */
  lemma SinglePlanFollowsIssue(issue: IssueEnv)
    requires PlanOf(issue).Ok? && issue.commandPlan == []
    ensures |PlanOf(issue).value| == 1
    ensures var p := PlanOf(issue).value[0];
            && !p.blocking && p.command.args == issue.args
            && p.command.ghostID == NormalizeGhostID(issue.targetScope) && p.command.ghostID != []
            && p.command.seedSelector == (if Blank(issue.seedSelector) then SEED_FLOW else TrimSpace(issue.seedSelector))
            && p.command.operation == TrimSpace(if Blank(issue.operation) then issue.objective else issue.operation)
  {
    hide CommandID, TrimSpace, SeedLockKey, NormalizeGhostID;
  }

  predicate PlanShape(intentID: bytes, commands: seq<PlannedCommand>)
  {
    commands != [] && forall i :: 0 <= i < |commands| ==> StepShape(intentID, commands[i], i + 1)
  }

  lemma PlanHasShape(issue: IssueEnv)
    requires ValidIssue(issue) && PlanOf(issue).Ok?
    ensures PlanShape(issue.intentID, PlanOf(issue).value)
  {
    hide PlannedStep, SingleStep, StepShape;
    if issue.commandPlan == [] {
      SingleHasShape(issue);
    } else {
      forall i | 0 <= i < |issue.commandPlan| ensures StepShape(issue.intentID, PlannedStep(issue, i), i + 1) {
        StepHasShape(issue, i);
      }
    }
  }

  lemma StepHasShape(issue: IssueEnv, i: nat)
    requires i < |issue.commandPlan| && ValidStep(issue.commandPlan[i]) && !Blank(issue.intentID)
    ensures StepShape(issue.intentID, PlannedStep(issue, i), i + 1)
  {
    hide CommandID, TrimLeft, TrimRight, SeedLockKey;
    CommandIDTrimmed(issue.intentID, i + 1);
  }

  lemma SingleHasShape(issue: IssueEnv)
    requires SingleStep(issue).Ok? && !Blank(issue.intentID)
    ensures StepShape(issue.intentID, SingleStep(issue).value, 1)
  {
    hide CommandID, TrimLeft, TrimRight, SeedLockKey, NormalizeGhostID;
    CommandIDTrimmed(issue.intentID, 1);
    SeedFlowNotBlank();
    GhostIDTrimmed(issue.targetScope);
  }

  lemma GhostIDTrimmed(targetScope: bytes)
    ensures Trimmed(NormalizeGhostID(targetScope))
  {
  }

  lemma SeedFlowNotBlank()
    ensures Trimmed(SEED_FLOW) && !Blank(SEED_FLOW)
  {
    hide TrimSpace, Trimmed, Blank, Printable;
    SeedFlowPrintable();
    assert SEED_FLOW + [] == SEED_FLOW;
    PrefixTrimmed(SEED_FLOW, []);
  }

  lemma SeedFlowPrintable()
    ensures |SEED_FLOW| == 9 && Printable(SEED_FLOW)
  {
  }

  /** Ids are unique within a plan. */
  lemma PlanIDsDistinct(intentID: bytes, commands: seq<PlannedCommand>, i: nat, j: nat)
    requires PlanShape(intentID, commands) && i < |commands| && j < |commands|
    requires commands[i].command.commandID == commands[j].command.commandID
    ensures i == j
  {
    hide CommandID;
    CommandIDInjective(intentID, i + 1, intentID, j + 1);
  }
}
