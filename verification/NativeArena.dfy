/**
 The native twin of the splitting loop: TaskArenaImpl and the split gate of TokenFirewallImpl in
 cpp-harness/src/middleware.cpp, with the saturating estimator of cpp-harness/include/harness.hpp.
 An id is its list of dot-free segments; the child number i of a node appends the digits of i.
 */
module NativeArena {
  import opened Decimals
  import opened TreeBounds
  import opened Wrappers

  /** The dot-separated segments of an id; even the empty string has one. */
  type Id = segments: seq<string> | segments != [] witness [""]

  /** A cap is an int of the source, here one that is not negative. */
  type Cap = n: nat | n <= INT_MAX

  const MAX_RESPLITS := 3
  const MAX_ROUNDS_PER_TASK := 2
  const INT_MAX: int := 0x7FFF_FFFF
  const LONG_MAX: int := 0x7FFF_FFFF_FFFF_FFFF
  const INT128_MAX: int := 0x7FFF_FFFF_FFFF_FFFF_FFFF_FFFF_FFFF_FFFF

  /** The firewall's caps; `warnAt` is softWarnRatio * perTreeRequestBudget, truncated. */
  datatype Config = Config(dailyCap: Cap, treeBudget: Cap, breadthCap: Cap, warnAt: int, destructive: string -> bool)

  datatype State = Queued | Active | Proposed | SpiralStopped

  datatype Node = Node(
    criterion: string, model: string, depth: nat, resplitCount: nat,
    verifyFailures: nat, atomic: bool, alreadySplit: bool, state: State)

  datatype Line = SplitLine(id: Id) | SpiralLine(id: Id) | DenyLine(id: Id) | ReportLine(id: Id)

  datatype Arena = Arena(
    nodes: map<Id, Node>,
    children: map<Id, seq<Id>>,
    treeUsed: int,
    dayUsed: nat,
    ledger: seq<Line>)

  datatype Code =
    | Ok | BudgetWarn | SpiralStop | HomogeneousAssignment | BreadthCap | BudgetExceeded | DailyCap
    | SplitOnce | AtomicLocked | DestructiveProposeOnly | VerifyFail | MaxRounds | BusValueTooLarge

  /** One criterion of a split that passed the verb screen, with the worker model it was dealt. */
  datatype Job = Job(criterion: string, model: string)

  datatype Event =
    | Enqueue(id: Id, node: Node)
    | Split(id: Id, criteria: seq<string>, models: seq<string>)
    | Report(id: Id, artifact: bool, checked: Code)
    | RecordRequest

  // ---- estimatePreCallChecked --------------------------------------------------------------------

  /** What the gate is told: the true power when it fits a long, cap + 1 when it does not. */
  function Estimate(breadth: nat, exponent: nat, cap: int): int {
    if Pow(breadth, exponent) > LONG_MAX then cap + 1 else Pow(breadth, exponent)
  }

  /** The gate's comparison with the cap is exact although the loop may stop early. */
  lemma EstimateDecides(breadth: nat, exponent: nat, cap: int)
    requires cap < LONG_MAX
    ensures Estimate(breadth, exponent, cap) > cap <==> Pow(breadth, exponent) > cap
    ensures Pow(breadth, exponent) <= LONG_MAX ==> Estimate(breadth, exponent, cap) == Pow(breadth, exponent)
  {
  }

  /** The true power of a breadth that may be negative, as an argument of type long may be. */
  function Power(b: int, e: nat): int { if e == 0 then 1 else b * Power(b, e - 1) }

  /** The cast of the accumulator back to a long keeps its low 64 bits. */
  function AsLong(x: int): int {
    (x + 0x8000_0000_0000_0000) % 0x1_0000_0000_0000_0000 - 0x8000_0000_0000_0000
  }

  /** The loop meets a partial power above LONG_MAX. */
  ghost predicate Saturates(b: int, e: nat) {
    exists i | 0 <= i <= e :: Power(b, i) > LONG_MAX
  }

  ghost function Checked(b: int, e: nat, cap: int): int {
    if Saturates(b, e) then cap + 1 else AsLong(Power(b, e))
  }

  function Exponent(parentDepth: int): nat { if parentDepth < 0 then 0 else parentDepth + 1 }

  function Abs(b: int): nat { if b < 0 then -b else b }

  lemma {:induction false} PowerSign(b: int, e: nat)
    ensures Power(b, e) == (if b >= 0 || e % 2 == 0 then 1 else -1) * Pow(Abs(b), e)
  {
    if e > 0 {
      PowerSign(b, e - 1);
    }
  }

  lemma ProductWithin(x: int, y: int, range: int)
    requires -range <= x <= range && -range <= y <= range
    ensures -range * range <= x * y <= range * range
  {
    Scale(Abs(x), range, Abs(y));
    Scale(Abs(y), range, range);
    assert x * y == Abs(x) * Abs(y) || x * y == -(Abs(x) * Abs(y));
  }

  /** As long as no partial power was too large the next product fits the 128-bit accumulator. */
  lemma NextFits(b: int, i: nat, range: int)
    requires -range <= b <= range && range >= 1 && forall j | 0 <= j <= i :: Power(b, j) < range
    ensures -range * range <= Power(b, i + 1) <= range * range
  {
    assert Power(b, 0) == 1 && Power(b, 1) == b * Power(b, 0);
    if b >= 0 || i % 2 == 0 {
      PowerSign(b, i);
      ProductWithin(b, Power(b, i), range);
    } else {
      OddStep(b, i, range);
    }
  }

  lemma OddStep(b: int, i: nat, range: int)
    requires b < 0 && -range <= b && i % 2 == 1 && forall j | 0 <= j <= i :: Power(b, j) < range
    ensures -range * range <= Power(b, i + 1) <= range * range
  {
    assert Power(b, i + 1) == b * (b * Power(b, i - 1)) == (b * b) * Power(b, i - 1);
    PowerSign(b, i - 1);
    if i == 1 {
      ProductWithin(b, b, range);
      assert Power(b, 0) == 1;
    } else {
      assert Power(b, 2) == b * (b * Power(b, 0)) == b * b;
      ProductWithin(b * b, Power(b, i - 1), range);
    }
  }

  /** The loop over an __int128 accumulator, for every long breadth: no product leaves the accumulator's range. */
  method EstimatePreCallChecked(breadth: int, parentDepth: int, cap: int) returns (r: int)
    requires -LONG_MAX - 1 <= breadth <= LONG_MAX && -LONG_MAX - 1 <= cap <= LONG_MAX
    requires parentDepth < INT_MAX && (cap < LONG_MAX || !Saturates(breadth, Exponent(parentDepth)))
    ensures r == Checked(breadth, Exponent(parentDepth), cap)
    ensures -LONG_MAX - 1 <= r <= LONG_MAX
  {
    var acc := 1;
    ghost var e := Exponent(parentDepth);
    var i := 0;
    while i < parentDepth + 1
      invariant 0 <= i <= e && acc == Power(breadth, i)
      invariant forall j | 0 <= j <= i :: Power(breadth, j) <= LONG_MAX
    {
      NextFits(breadth, i, LONG_MAX + 1);
      acc := breadth * acc;
      assert -INT128_MAX <= acc <= INT128_MAX;
      i := i + 1;
      if acc > LONG_MAX {
        return cap + 1;
      }
    }
    return AsLong(acc);
  }

  /** For a breadth that counts children the result is the estimate of the gate. */
  lemma CheckedIsEstimate(breadth: nat, exponent: nat, cap: int)
    ensures Checked(breadth, exponent, cap) == Estimate(breadth, exponent, cap)
  {
    PowerSign(breadth, exponent);
    forall i: nat | i <= exponent && Power(breadth, i) > LONG_MAX ensures Pow(breadth, exponent) > LONG_MAX {
      PowerSign(breadth, i);
      if breadth > 0 {
        PowGrows(breadth, i, exponent);
      }
    }
  }

  lemma EvenPower(b: int, i: nat)
    requires b < 0 && Power(b, i) > 0
    ensures i % 2 == 0 && Power(b, i) == Pow(Abs(b), i)
  {
    PowerSign(b, i);
  }

  /** For a negative breadth the partial powers are largest at the last even exponent. */
  lemma LargestPartial(b: int, i: nat, last: nat)
    requires b < 0 && last % 2 == 0 && i <= last + 1 && Power(b, i) > 0
    ensures Power(b, last) >= Power(b, i)
  {
    EvenPower(b, i);
    PowerSign(b, last);
    PowGrows(Abs(b), i, last);
  }

  lemma SaturatesExactly(b: int, e: nat, last: nat)
    requires b < 0 && last % 2 == 0 && last <= e <= last + 1
    ensures Saturates(b, e) <==> Power(b, last) > LONG_MAX
  {
    forall i | 0 <= i <= e && Power(b, i) > LONG_MAX ensures Power(b, last) > LONG_MAX {
      LargestPartial(b, i, last);
    }
  }

  /**
   The comparison with the cap is exact for counts and for even exponents; for a negative breadth at an odd
   exponent it is exact if and only if no partial power saturates and the cast result does not exceed the cap.
   */
  lemma VerdictExactly(b: int, e: nat, cap: int)
    requires -LONG_MAX - 1 <= cap < LONG_MAX
    ensures (Checked(b, e, cap) > cap <==> Power(b, e) > cap) <==>
      b >= 0 || e % 2 == 0 ||
      (Power(b, e - 1) <= LONG_MAX && (Power(b, e) >= -LONG_MAX - 1 || AsLong(Power(b, e)) <= cap))
  {
    PowerSign(b, e);
    if b >= 0 {
      CheckedIsEstimate(b, e, cap);
      EstimateDecides(b, e, cap);
    } else {
      SaturatesExactly(b, e, e - e % 2);
      if e % 2 == 1 {
        PowerSign(b, e - 1);
        OddIsBelow(b, Power(b, e - 1));
      }
    }
  }

  lemma OddIsBelow(b: int, p: int)
    requires b < 0 && p >= 0
    ensures b * p <= -p
  {
    Scale(1, -b, p);
    assert -b * p == -(b * p);
  }

  /** A breadth of -2^32 three levels down is told to be over any cap although its power is negative. */
  lemma NegativeBreadthIsOverEveryCap(b: int, cap: int)
    requires b == -0x1_0000_0000 && -LONG_MAX - 1 <= cap < LONG_MAX
    ensures Checked(b, 3, cap) > cap >= Power(b, 3)
  {
    assert Power(b, 2) == b * (b * Power(b, 0));
    SaturatesExactly(b, 3, 2);
    assert Power(b, 3) == b * Power(b, 2);
  }

  // ---- checkSplit: the gate order --------------------------------------------------------------------

  /** Verdict code and estimate. Ok and BudgetWarn allow the split; every other code denies it. */
  function CheckSplit(cfg: Config, depth: nat, breadth: nat, resplitCount: nat, atomic: bool, alreadySplit: bool,
                      models: set<string>, dayUsed: nat): (r: (Code, int))
  {
    var estimate := Estimate(breadth, depth + 1, cfg.treeBudget);
    if resplitCount >= MAX_RESPLITS then (SpiralStop, resplitCount)
    else if breadth > 1 && |models| < 2 then (HomogeneousAssignment, |models|)
    else if breadth > cfg.breadthCap then (BreadthCap, breadth)
    else if estimate > cfg.treeBudget then (BudgetExceeded, estimate)
    else if dayUsed + estimate > cfg.dailyCap then (DailyCap, estimate)
    else if alreadySplit then (SplitOnce, estimate)
    else if atomic then (AtomicLocked, estimate)
    else if estimate > cfg.warnAt then (BudgetWarn, estimate)
    else (Ok, estimate)
  }

  predicate Allows(code: Code) { code == Ok || code == BudgetWarn }

  /** A split passes exactly when every cap holds of the true breadth^depth. */
  lemma AllowedExactly(cfg: Config, depth: nat, breadth: nat, resplitCount: nat, atomic: bool, alreadySplit: bool,
                       models: set<string>, dayUsed: nat)
    ensures Allows(CheckSplit(cfg, depth, breadth, resplitCount, atomic, alreadySplit, models, dayUsed).0) <==>
      resplitCount < MAX_RESPLITS && (breadth <= 1 || |models| >= 2) && breadth <= cfg.breadthCap &&
      Pow(breadth, depth + 1) <= cfg.treeBudget && dayUsed + Pow(breadth, depth + 1) <= cfg.dailyCap &&
      !alreadySplit && !atomic
  {
    EstimateDecides(breadth, depth + 1, cfg.treeBudget);
  }

  // ---- The arena's operations ----------------------------------------------------------------------------

  /** Criteria that pass the verb screen, each with the model its own position was dealt. */
  function Screen(cfg: Config, criteria: seq<string>, models: seq<string>, n: nat): seq<Job>
    requires n <= |criteria|
  {
    if n == 0 then []
    else
      Screen(cfg, criteria, models, n - 1) +
      (if cfg.destructive(criteria[n - 1]) then [] else [Job(criteria[n - 1], Dealt(models, n - 1))])
  }

  function Dealt(models: seq<string>, i: nat): string {
    if models == [] then "default" else models[i % |models|]
  }

  function Denials(cfg: Config, id: Id, criteria: seq<string>, n: nat): seq<Line>
    requires n <= |criteria|
  {
    if n == 0 then []
    else
      Denials(cfg, id, criteria, n - 1) +
      (if cfg.destructive(criteria[n - 1]) then [DenyLine(id + [Decimal(n - 1)])] else [])
  }

  function Models(jobs: seq<Job>): set<string> {
    set k | 0 <= k < |jobs| :: jobs[k].model
  }

  /** enqueue: an id already known is left alone, whatever the new task says. */
  function EnqueueStep(a: Arena, id: Id, node: Node): (Arena, Code) {
    if id in a.nodes then (a, Ok)
    else (a.(nodes := a.nodes[id := node.(depth := |id| - 1, resplitCount := 0, state := Queued)]), Ok)
  }

  function ChildNode(parent: Node, job: Job): Node {
    Node(job.criterion, job.model, parent.depth + 1, parent.resplitCount, 0, false, false, Queued)
  }

  /** Add children 0 .. n - 1; a node that already has the child's id stays as it is. */
  function AddChildren(nodes: map<Id, Node>, id: Id, parent: Node, jobs: seq<Job>, n: nat): map<Id, Node>
    requires n <= |jobs|
  {
    if n == 0 then nodes
    else
      var rest := AddChildren(nodes, id, parent, jobs, n - 1);
      if id + [Decimal(n - 1)] in rest then rest else rest[id + [Decimal(n - 1)] := ChildNode(parent, jobs[n - 1])]
  }

  function ChildIds(id: Id, n: nat): seq<Id> {
    seq(n, i requires 0 <= i => id + [Decimal(i)])
  }

  function ChildrenOf(a: Arena, id: Id): seq<Id> {
    if id in a.children then a.children[id] else []
  }

  function SplitStep(cfg: Config, a: Arena, id: Id, criteria: seq<string>, models: seq<string>): (Arena, Code) {
    if id !in a.nodes then (a, SplitOnce)
    else
      var parent := a.nodes[id];
      if parent.resplitCount >= MAX_RESPLITS then
        (a.(nodes := a.nodes[id := parent.(state := SpiralStopped)], ledger := a.ledger + [SpiralLine(id)]), SpiralStop)
      else
        var jobs := Screen(cfg, criteria, models, |criteria|);
        var a1 := a.(ledger := a.ledger + Denials(cfg, id, criteria, |criteria|));
        if jobs == [] then (a1, DestructiveProposeOnly)
        else
          var (code, estimate) := CheckSplit(cfg, parent.depth, |jobs|, parent.resplitCount, parent.atomic,
                                             parent.alreadySplit, Models(jobs), a.dayUsed);
          if !Allows(code) then (a1, code)
          else
              var committed := Committed(parent);
            (a1.(nodes := AddChildren(a.nodes[id := committed], id, committed, jobs, |jobs|),
                 children := a.children[id := ChildrenOf(a, id) + ChildIds(id, |jobs|)],
                 treeUsed := a.treeUsed + estimate,
                 ledger := a1.ledger + [SplitLine(id)]), code)
  }

  /** report, with the outcome `checked` of validating the result vector. */
  function ReportStep(a: Arena, id: Id, artifact: bool, checked: Code): (Arena, Code) {
    if !artifact then (a, VerifyFail)
    else if id !in a.nodes then (a, SplitOnce)
    else
      var node := a.nodes[id];
      if node.verifyFailures >= MAX_ROUNDS_PER_TASK then (a, MaxRounds)
      else if checked != Ok then (a.(nodes := a.nodes[id := node.(verifyFailures := node.verifyFailures + 1)]), checked)
      else (a.(nodes := a.nodes[id := node.(state := Proposed)], ledger := a.ledger + [ReportLine(id)]), Ok)
  }

  function Step(cfg: Config, a: Arena, ev: Event): (Arena, Code) {
    match ev
    case Enqueue(id, node) => EnqueueStep(a, id, node)
    case Split(id, criteria, models) => SplitStep(cfg, a, id, criteria, models)
    case Report(id, artifact, checked) => ReportStep(a, id, artifact, checked)
    case RecordRequest => (a.(dayUsed := a.dayUsed + 1), Ok)
  }

  const EMPTY := Arena(map[], map[], 0, 0, [])

  /** The state after the first `n` events. */
  function RunTo(cfg: Config, evs: seq<Event>, n: nat): Arena
    requires n <= |evs|
  {
    if n == 0 then EMPTY else Step(cfg, RunTo(cfg, evs, n - 1), evs[n - 1]).0
  }

  function Run(cfg: Config, evs: seq<Event>): Arena { RunTo(cfg, evs, |evs|) }

  function ReplyAt(cfg: Config, evs: seq<Event>, k: nat): Code
    requires k < |evs|
  {
    Step(cfg, RunTo(cfg, evs, k), evs[k]).1
  }

  // ---- What every step keeps -------------------------------------------------------------------------------

  ghost predicate NewChild(r: map<Id, Node>, id: Id, parent: Node, jobs: seq<Job>, n: nat, x: Id) {
    exists i: nat | i < n && i < |jobs| :: x == id + [Decimal(i)] && x in r && r[x] == ChildNode(parent, jobs[i])
  }

  lemma {:induction false} AddShape(nodes: map<Id, Node>, id: Id, parent: Node, jobs: seq<Job>, n: nat, x: Id)
    requires n <= |jobs|
    ensures var r := AddChildren(nodes, id, parent, jobs, n);
      (x in nodes ==> x in r && r[x] == nodes[x]) && (x in r && x !in nodes ==> NewChild(r, id, parent, jobs, n, x))
  {
    if n > 0 {
      AddShape(nodes, id, parent, jobs, n - 1, x);
      var (before, r) := (AddChildren(nodes, id, parent, jobs, n - 1), AddChildren(nodes, id, parent, jobs, n));
      if x in before && x !in nodes {
        var i: nat :| i < n - 1 && i < |jobs| && x == id + [Decimal(i)] && before[x] == ChildNode(parent, jobs[i]);
        assert r[x] == before[x];
      } else if x in r && x !in before {
        assert x == id + [Decimal(n - 1)] && r[x] == ChildNode(parent, jobs[n - 1]);
      }
    }
  }

  lemma {:induction false} AddsEach(nodes: map<Id, Node>, id: Id, parent: Node, jobs: seq<Job>, n: nat, i: nat)
    requires i < n <= |jobs|
    ensures id + [Decimal(i)] in AddChildren(nodes, id, parent, jobs, n)
  {
    if i < n - 1 {
      AddsEach(nodes, id, parent, jobs, n - 1, i);
    }
  }

  /** How far a node's counter lags behind depth + (1 if already split). */
  function Lag(node: Node): int {
    node.depth + (if node.alreadySplit then 1 else 0) - node.resplitCount
  }

  function Committed(parent: Node): Node {
    parent.(resplitCount := parent.resplitCount + 1, alreadySplit := true, state := Active)
  }

  /** What a split does to the nodes, once allowed. */
  ghost predicate SplitShape(a: Arena, a': Arena, id: Id, jobs: seq<Job>) {
    id in a.nodes && !a.nodes[id].alreadySplit &&
    var parent := Committed(a.nodes[id]);
    a'.nodes == AddChildren(a.nodes[id := parent], id, parent, jobs, |jobs|)
  }

  /** Once anything passes the screen of an unspiralled parent, the gate decides. */
  lemma SplitVerdict(cfg: Config, a: Arena, id: Id, criteria: seq<string>, models: seq<string>)
    requires id in a.nodes && a.nodes[id].resplitCount < MAX_RESPLITS && Screen(cfg, criteria, models, |criteria|) != []
    ensures var (node, jobs) := (a.nodes[id], Screen(cfg, criteria, models, |criteria|));
      SplitStep(cfg, a, id, criteria, models).1 ==
        CheckSplit(cfg, node.depth, |jobs|, node.resplitCount, node.atomic, node.alreadySplit, Models(jobs), a.dayUsed).0
  {
  }

  /** The smaller of the two budgets bounds what a single split may cost. */
  function Budget(cfg: Config): nat { if cfg.treeBudget < cfg.dailyCap then cfg.treeBudget else cfg.dailyCap }

  predicate Affordable(cfg: Config, breadth: nat, e: nat) {
    breadth <= cfg.breadthCap && Pow(breadth, e) <= Budget(cfg)
  }

  lemma SplitMakes(cfg: Config, a: Arena, id: Id, criteria: seq<string>, models: seq<string>)
    requires Allows(SplitStep(cfg, a, id, criteria, models).1)
    ensures var jobs := Screen(cfg, criteria, models, |criteria|);
      jobs != [] && SplitShape(a, SplitStep(cfg, a, id, criteria, models).0, id, jobs) &&
      a.nodes[id].resplitCount < MAX_RESPLITS && Affordable(cfg, |jobs|, a.nodes[id].depth + 1)
  {
    var (parent, jobs) := (a.nodes[id], Screen(cfg, criteria, models, |criteria|));
    AllowedExactly(cfg, parent.depth, |jobs|, parent.resplitCount, parent.atomic, parent.alreadySplit, Models(jobs),
                   a.dayUsed);
  }

  /** The node `x` after a split of `id`: the parent, a node that was there before, or a new child. */
  lemma AfterSplit(a: Arena, a': Arena, id: Id, jobs: seq<Job>, x: Id)
    requires SplitShape(a, a', id, jobs)
    ensures id in a'.nodes && a'.nodes[id] == Committed(a.nodes[id])
    ensures x in a.nodes && x != id ==> x in a'.nodes && a'.nodes[x] == a.nodes[x]
    ensures x in a'.nodes && x !in a.nodes ==> NewChild(a'.nodes, id, a'.nodes[id], jobs, |jobs|, x)
  {
    var parent := Committed(a.nodes[id]);
    AddShape(a.nodes[id := parent], id, parent, jobs, |jobs|, x);
    AddShape(a.nodes[id := parent], id, parent, jobs, |jobs|, id);
  }

  /** Nodes stay, their lag never changes, and a split passes its own lag on to its children. */
  ghost predicate Inherits(a: Arena, a': Arena, ev: Event) {
    (forall x | x in a.nodes :: x in a'.nodes && Lag(a'.nodes[x]) == Lag(a.nodes[x]) &&
      (a.nodes[x].alreadySplit ==> a'.nodes[x].alreadySplit)) &&
    (forall x | x in a'.nodes && x !in a.nodes ::
      if ev.Enqueue? then x == ev.id && Lag(a'.nodes[x]) == |x| - 1 + (if ev.node.alreadySplit then 1 else 0)
      else ev.Split? && ev.id in a.nodes && Lag(a'.nodes[x]) == Lag(a.nodes[ev.id]))
  }

  lemma StepInherits(cfg: Config, a: Arena, ev: Event)
    ensures Inherits(a, Step(cfg, a, ev).0, ev)
  {
    if ev.Split? && Allows(SplitStep(cfg, a, ev.id, ev.criteria, ev.models).1) {
      SplitMakes(cfg, a, ev.id, ev.criteria, ev.models);
      SplitInherits(a, Step(cfg, a, ev).0, ev, Screen(cfg, ev.criteria, ev.models, |ev.criteria|));
    }
  }

  lemma SplitInherits(a: Arena, a': Arena, ev: Event, jobs: seq<Job>)
    requires ev.Split? && SplitShape(a, a', ev.id, jobs)
    ensures Inherits(a, a', ev)
  {
    forall x {
      AfterSplit(a, a', ev.id, jobs, x);
    }
  }

  ghost predicate Follows(a: Arena, a': Arena, id: Id) {
    id in a.nodes ==>
      id in a'.nodes && Lag(a'.nodes[id]) == Lag(a.nodes[id]) &&
      (a.nodes[id].alreadySplit ==> a'.nodes[id].alreadySplit)
  }

  lemma StepFollows(cfg: Config, a0: Arena, a: Arena, ev: Event, id: Id)
    requires Follows(a0, a, id)
    ensures Follows(a0, Step(cfg, a, ev).0, id)
  {
    StepInherits(cfg, a, ev);
  }

  lemma {:induction false} RunInherits(cfg: Config, evs: seq<Event>, i: nat, j: nat, id: Id)
    requires i <= j <= |evs|
    ensures Follows(RunTo(cfg, evs, i), RunTo(cfg, evs, j), id)
  {
    if i < j {
      RunInherits(cfg, evs, i, j - 1, id);
      StepFollows(cfg, RunTo(cfg, evs, i), RunTo(cfg, evs, j - 1), evs[j - 1], id);
    }
  }

  /** Every id the run adds by hand is a root, not marked as split before it starts. */
  ghost predicate FreshRoots(cfg: Config, evs: seq<Event>) {
    forall k | 0 <= k < |evs| :: FreshRoot(RunTo(cfg, evs, k), evs[k])
  }

  predicate FreshRoot(a: Arena, ev: Event) {
    ev.Enqueue? && ev.id !in a.nodes ==> |ev.id| == 1 && !ev.node.alreadySplit
  }

  /** resplitCount is the depth, plus one once split. */
  ghost predicate Exact(a: Arena) {
    forall x | x in a.nodes :: a.nodes[x].resplitCount == a.nodes[x].depth + (if a.nodes[x].alreadySplit then 1 else 0)
  }

  lemma StepExact(cfg: Config, a: Arena, ev: Event)
    requires Exact(a) && FreshRoot(a, ev)
    ensures Exact(Step(cfg, a, ev).0)
  {
    StepInherits(cfg, a, ev);
    var a' := Step(cfg, a, ev).0;
    forall x | x in a'.nodes ensures Lag(a'.nodes[x]) == 0 {
      if x in a.nodes {
        assert Lag(a.nodes[x]) == 0;
      }
    }
  }

  lemma {:induction false} FreshRootsAreExact(cfg: Config, evs: seq<Event>, n: nat)
    requires FreshRoots(cfg, evs) && n <= |evs|
    ensures Exact(RunTo(cfg, evs, n))
  {
    if n > 0 {
      FreshRootsAreExact(cfg, evs, n - 1);
      StepExact(cfg, RunTo(cfg, evs, n - 1), evs[n - 1]);
    }
  }

  lemma StrangerLags(cfg: Config, a: Arena, ev: Event)
    requires !FreshRoot(a, ev)
    ensures var a' := Step(cfg, a, ev).0; ev.id in a'.nodes && Lag(a'.nodes[ev.id]) != 0
  {
  }

  /** The counters are exact in every state of a run if and only if only fresh dot-free roots were enqueued. */
  lemma CountsExactIffFreshRoots(cfg: Config, evs: seq<Event>)
    ensures Exact(Run(cfg, evs)) <==> FreshRoots(cfg, evs)
  {
    if FreshRoots(cfg, evs) {
      FreshRootsAreExact(cfg, evs, |evs|);
    } else {
      var k :| 0 <= k < |evs| && !FreshRoot(RunTo(cfg, evs, k), evs[k]);
      StrangerLags(cfg, RunTo(cfg, evs, k), evs[k]);
      RunInherits(cfg, evs, k + 1, |evs|, evs[k].id);
    }
  }

  /** No run splits the same parent twice. */
  lemma ParentsSplitOnce(cfg: Config, evs: seq<Event>, i: nat, j: nat)
    requires i < j < |evs| && evs[i].Split? && evs[j].Split? && evs[i].id == evs[j].id
    requires Allows(ReplyAt(cfg, evs, i))
    ensures !Allows(ReplyAt(cfg, evs, j))
  {
    var id := evs[i].id;
    SplitMarks(cfg, RunTo(cfg, evs, i), id, evs[i].criteria, evs[i].models);
    RunInherits(cfg, evs, i + 1, j, id);
    SplitOnlyOnce(cfg, RunTo(cfg, evs, j), id, evs[j].criteria, evs[j].models);
  }

  lemma SplitMarks(cfg: Config, a: Arena, id: Id, criteria: seq<string>, models: seq<string>)
    requires Allows(SplitStep(cfg, a, id, criteria, models).1)
    ensures var a' := SplitStep(cfg, a, id, criteria, models).0; id in a'.nodes && a'.nodes[id].alreadySplit
  {
    SplitMakes(cfg, a, id, criteria, models);
    AfterSplit(a, SplitStep(cfg, a, id, criteria, models).0, id, Screen(cfg, criteria, models, |criteria|), id);
  }

  lemma SplitOnlyOnce(cfg: Config, a: Arena, id: Id, criteria: seq<string>, models: seq<string>)
    requires id in a.nodes && a.nodes[id].alreadySplit
    ensures !Allows(SplitStep(cfg, a, id, criteria, models).1)
  {
  }

  // ---- How many nodes a root can have -------------------------------------------------------------------------

  /** The widest affordable split at exponent `e`. */
  function Width(cfg: Config, e: nat): nat {
    if Widest(Budget(cfg), e) < cfg.breadthCap then Widest(Budget(cfg), e) else cfg.breadthCap
  }

  lemma WidthIsWidest(cfg: Config, b: nat, e: nat)
    requires b >= 1 && e >= 1
    ensures b <= Width(cfg, e) <==> Affordable(cfg, b, e)
  {
    WidestIsWidest(Budget(cfg), e, b);
  }

  function Widths(cfg: Config): seq<nat> { [Width(cfg, 1), Width(cfg, 2), Width(cfg, 3)] }

  /** The children of a node are numbered from 0. */
  function Name(i: nat): string { Decimal(i) }

  lemma NamesDiffer()
    ensures Injective(Name)
  {
    forall i: nat, j: nat | Name(i) == Name(j) ensures i == j {
      DecimalInjective(i, j);
    }
  }

  /** The ids at depth `d` that splits within the caps can create below `root`. */
  ghost function Level(cfg: Config, root: string, d: nat): set<seq<string>>
    requires d <= 3
  {
    LevelBelow([root], Widths(cfg), Name, d)
  }

  ghost function Levels(cfg: Config, root: string): set<seq<string>> { TreeBelow([root], Widths(cfg), Name) }

  ghost predicate NodeOk(cfg: Config, a: Arena, id: Id)
    requires id in a.nodes
  {
    var node := a.nodes[id];
    node.depth == |id| - 1 && node.resplitCount <= MAX_RESPLITS && |id| <= 4 && id in Level(cfg, id[0], |id| - 1) &&
    (|id| > 1 ==> id[..|id| - 1] in a.nodes && a.nodes[id[..|id| - 1]].alreadySplit)
  }

  ghost predicate ArenaOk(cfg: Config, a: Arena) {
    Exact(a) && (forall id | id in a.nodes :: NodeOk(cfg, a, id)) &&
    (forall id | id in a.children :: id in a.nodes && a.nodes[id].alreadySplit)
  }

  lemma ChildInLevel(cfg: Config, id: Id, width: nat, i: nat)
    requires |id| <= 3 && id in Level(cfg, id[0], |id| - 1) && i < width && Affordable(cfg, width, |id|)
    ensures id + [Decimal(i)] in Level(cfg, id[0], |id|)
  {
    var d := |id| - 1;
    WidthIsWidest(cfg, width, d + 1);
    assert Widths(cfg)[d] == Width(cfg, d + 1);
    LevelMember([id[0]], Widths(cfg), Name, d, id, i);
  }

  lemma SplitKeeps(cfg: Config, a: Arena, a': Arena, id: Id, jobs: seq<Job>)
    requires ArenaOk(cfg, a) && SplitShape(a, a', id, jobs)
    requires a'.children.Keys == a.children.Keys + {id}
    requires a.nodes[id].resplitCount < MAX_RESPLITS && Affordable(cfg, |jobs|, a.nodes[id].depth + 1)
    ensures ArenaOk(cfg, a')
  {
    forall x | x in a'.nodes ensures NodeOk(cfg, a', x) && Lag(a'.nodes[x]) == 0 {
      SplitNodeOk(cfg, a, a', id, jobs, x);
    }
    forall x | x in a'.children ensures x in a'.nodes && a'.nodes[x].alreadySplit {
      AfterSplit(a, a', id, jobs, x);
    }
  }

  lemma SplitNodeOk(cfg: Config, a: Arena, a': Arena, id: Id, jobs: seq<Job>, x: Id)
    requires ArenaOk(cfg, a) && SplitShape(a, a', id, jobs) && x in a'.nodes
    requires a.nodes[id].resplitCount < MAX_RESPLITS && Affordable(cfg, |jobs|, a.nodes[id].depth + 1)
    ensures NodeOk(cfg, a', x) && Lag(a'.nodes[x]) == 0
  {
    if x in a.nodes {
      OldNodeOk(cfg, a, a', id, jobs, x);
    } else {
      NewNodeOk(cfg, a, a', id, jobs, x);
    }
  }

  lemma OldNodeOk(cfg: Config, a: Arena, a': Arena, id: Id, jobs: seq<Job>, x: Id)
    requires ArenaOk(cfg, a) && SplitShape(a, a', id, jobs) && x in a.nodes
    requires a.nodes[id].resplitCount < MAX_RESPLITS
    ensures x in a'.nodes && NodeOk(cfg, a', x) && Lag(a'.nodes[x]) == 0
  {
    AfterSplit(a, a', id, jobs, x);
    assert NodeOk(cfg, a, x) && Lag(a.nodes[x]) == 0;
    if |x| > 1 {
      AfterSplit(a, a', id, jobs, x[..|x| - 1]);
    }
  }

  lemma NewNodeOk(cfg: Config, a: Arena, a': Arena, id: Id, jobs: seq<Job>, x: Id)
    requires ArenaOk(cfg, a) && SplitShape(a, a', id, jobs) && x in a'.nodes && x !in a.nodes
    requires a.nodes[id].resplitCount < MAX_RESPLITS && Affordable(cfg, |jobs|, a.nodes[id].depth + 1)
    ensures NodeOk(cfg, a', x) && Lag(a'.nodes[x]) == 0
  {
    AfterSplit(a, a', id, jobs, x);
    assert NodeOk(cfg, a, id) && Lag(a.nodes[id]) == 0;
    var i: nat :| i < |jobs| && x == id + [Decimal(i)] && a'.nodes[x] == ChildNode(a'.nodes[id], jobs[i]);
    ChildInLevel(cfg, id, |jobs|, i);
    assert x[..|x| - 1] == id && x[0] == id[0];
  }

  /** At most node `id` changed, and neither its depth nor its counters of splits did. */
  lemma UpdateKeeps(cfg: Config, a: Arena, a': Arena, id: Id, node: Node)
    requires ArenaOk(cfg, a) && a'.children == a.children && id in a.nodes && a'.nodes == a.nodes[id := node]
    requires node.depth == a.nodes[id].depth && node.resplitCount == a.nodes[id].resplitCount
    requires node.alreadySplit == a.nodes[id].alreadySplit
    ensures ArenaOk(cfg, a')
  {
    forall x | x in a'.nodes ensures NodeOk(cfg, a', x) && Lag(a'.nodes[x]) == 0 {
      assert NodeOk(cfg, a, x) && Lag(a.nodes[x]) == 0;
    }
  }

  lemma SameKeeps(cfg: Config, a: Arena, a': Arena)
    requires ArenaOk(cfg, a) && a'.children == a.children && a'.nodes == a.nodes
    ensures ArenaOk(cfg, a')
  {
    forall x | x in a'.nodes ensures NodeOk(cfg, a', x) {
      assert NodeOk(cfg, a, x);
    }
  }

  lemma RootKeeps(cfg: Config, a: Arena, id: Id, node: Node)
    requires ArenaOk(cfg, a) && |id| == 1 && !node.alreadySplit
    ensures ArenaOk(cfg, EnqueueStep(a, id, node).0)
  {
    var a' := EnqueueStep(a, id, node).0;
    forall x | x in a'.nodes ensures NodeOk(cfg, a', x) && Lag(a'.nodes[x]) == 0 {
      if x in a.nodes {
        assert NodeOk(cfg, a, x) && Lag(a.nodes[x]) == 0;
      } else {
        assert id == [id[0]];
      }
    }
  }

  /** A refused split changes at most the state of the parent, whose lineage then spiralled. */
  lemma RefusedSplit(cfg: Config, a: Arena, id: Id, criteria: seq<string>, models: seq<string>)
    requires !Allows(SplitStep(cfg, a, id, criteria, models).1)
    ensures var a' := SplitStep(cfg, a, id, criteria, models).0;
      a'.children == a.children && a'.treeUsed == a.treeUsed &&
      a'.nodes ==
        if id in a.nodes && a.nodes[id].resplitCount >= MAX_RESPLITS
        then a.nodes[id := a.nodes[id].(state := SpiralStopped)] else a.nodes
  {
  }

  lemma SplitStepKeeps(cfg: Config, a: Arena, id: Id, criteria: seq<string>, models: seq<string>)
    requires ArenaOk(cfg, a)
    ensures ArenaOk(cfg, SplitStep(cfg, a, id, criteria, models).0)
  {
    var (a', code) := SplitStep(cfg, a, id, criteria, models);
    if Allows(code) {
      SplitMakes(cfg, a, id, criteria, models);
      SplitKeeps(cfg, a, a', id, Screen(cfg, criteria, models, |criteria|));
    } else {
      RefusedSplit(cfg, a, id, criteria, models);
      if id in a.nodes && a.nodes[id].resplitCount >= MAX_RESPLITS {
        UpdateKeeps(cfg, a, a', id, a.nodes[id].(state := SpiralStopped));
      } else {
        SameKeeps(cfg, a, a');
      }
    }
  }

  lemma ReportKeeps(cfg: Config, a: Arena, id: Id, artifact: bool, checked: Code)
    requires ArenaOk(cfg, a)
    ensures ArenaOk(cfg, ReportStep(a, id, artifact, checked).0)
  {
    var a' := ReportStep(a, id, artifact, checked).0;
    if a' == a {
    } else if checked != Ok {
      UpdateKeeps(cfg, a, a', id, a.nodes[id].(verifyFailures := a.nodes[id].verifyFailures + 1));
    } else {
      UpdateKeeps(cfg, a, a', id, a.nodes[id].(state := Proposed));
    }
  }

  lemma StepKeeps(cfg: Config, a: Arena, ev: Event)
    requires ArenaOk(cfg, a)
    requires FreshRoot(a, ev)
    ensures ArenaOk(cfg, Step(cfg, a, ev).0)
  {
    match ev
    case Enqueue(id, node) =>
      if id !in a.nodes {
        RootKeeps(cfg, a, id, node);
      }
    case Split(id, criteria, models) =>
      SplitStepKeeps(cfg, a, id, criteria, models);
    case Report(id, artifact, checked) =>
      ReportKeeps(cfg, a, id, artifact, checked);
    case RecordRequest =>
      SameKeeps(cfg, a, a.(dayUsed := a.dayUsed + 1));
  }

  lemma {:induction false} RunKeeps(cfg: Config, evs: seq<Event>, n: nat)
    requires FreshRoots(cfg, evs) && n <= |evs|
    ensures ArenaOk(cfg, RunTo(cfg, evs, n))
  {
    if n > 0 {
      RunKeeps(cfg, evs, n - 1);
      StepKeeps(cfg, RunTo(cfg, evs, n - 1), evs[n - 1]);
    }
  }

  ghost function NodesBelow(a: Arena, root: string): set<Id> {
    set id | id in a.nodes && id[0] == root
  }

  /** The most nodes the caps allow below one root. */
  function MostNodes(cfg: Config): int { TreeSize(Widths(cfg)) }

  lemma InSomeLevel(cfg: Config, root: string, id: Id)
    requires |id| <= 4 && id in Level(cfg, root, |id| - 1)
    ensures id in Levels(cfg, root)
  {
    assert |id| == 1 || |id| == 2 || |id| == 3 || |id| == 4;
  }

  /** A root never has more nodes below it than its caps allow, however its splits are ordered. */
  lemma NodesAreBounded(cfg: Config, evs: seq<Event>, root: string)
    requires FreshRoots(cfg, evs)
    ensures |NodesBelow(Run(cfg, evs), root)| <= MostNodes(cfg)
  {
    var a := Run(cfg, evs);
    RunKeeps(cfg, evs, |evs|);
    forall id | id in NodesBelow(a, root) ensures id in Levels(cfg, root) {
      assert NodeOk(cfg, a, id);
      InSomeLevel(cfg, root, id);
    }
    SubsetSize(NodesBelow(a, root), Levels(cfg, root));
    NamesDiffer();
    TreeSizeExact([root], Widths(cfg), Name);
  }

  /** The caps the runtime ships with. */
  predicate DefaultCaps(cfg: Config) { cfg.treeBudget == 64 && cfg.breadthCap == 8 && cfg.dailyCap == 1000 }

  lemma DefaultNodes(cfg: Config)
    requires DefaultCaps(cfg)
    ensures MostNodes(cfg) == 1 + 8 + 64 + 256
  {
    DefaultWidths(Budget(cfg));
  }

  /** At the shipped caps (budget 64, breadth 8): 1 + 8 + 64 + 256 nodes. */
  lemma DefaultCapsBound(cfg: Config, evs: seq<Event>, root: string)
    requires FreshRoots(cfg, evs) && DefaultCaps(cfg)
    ensures |NodesBelow(Run(cfg, evs), root)| <= 329
  {
    NodesAreBounded(cfg, evs, root);
    DefaultNodes(cfg);
  }

  lemma ChildMeansSplit(cfg: Config, a: Arena, id: Id, last: string)
    requires ArenaOk(cfg, a) && id in a.nodes && id + [last] in a.nodes
    ensures a.nodes[id].alreadySplit
  {
    var x := id + [last];
    assert NodeOk(cfg, a, id) && NodeOk(cfg, a, x) && x[..|x| - 1] == id;
  }

  /** From fresh roots, an allowed split adds a new node for each screened criterion, and childrenOf lists just them. */
  lemma SplitAddsItsJobs(cfg: Config, a: Arena, id: Id, criteria: seq<string>, models: seq<string>, i: nat)
    requires ArenaOk(cfg, a) && Allows(SplitStep(cfg, a, id, criteria, models).1)
    requires i < |Screen(cfg, criteria, models, |criteria|)|
    ensures var (a', jobs) := (SplitStep(cfg, a, id, criteria, models).0, Screen(cfg, criteria, models, |criteria|));
      ChildrenOf(a', id) == ChildIds(id, |jobs|) && id + [Decimal(i)] !in a.nodes &&
      id in a'.nodes && id + [Decimal(i)] in a'.nodes &&
      a'.nodes[id + [Decimal(i)]] == ChildNode(a'.nodes[id], jobs[i])
  {
    SplitMakes(cfg, a, id, criteria, models);
    var (a', jobs) := (SplitStep(cfg, a, id, criteria, models).0, Screen(cfg, criteria, models, |criteria|));
    var x: Id := id + [Decimal(i)];
    if x in a.nodes {
      ChildMeansSplit(cfg, a, id, Decimal(i));
    }
    AfterSplit(a, a', id, jobs, x);
    AddsEach(a.nodes[id := a'.nodes[id]], id, a'.nodes[id], jobs, |jobs|, i);
    var j: nat :| j < |jobs| && x == id + [Decimal(j)] && a'.nodes[x] == ChildNode(a'.nodes[id], jobs[j]);
    assert x[|id|] == Decimal(i) == Decimal(j);
    DecimalInjective(i, j);
    assert ChildrenOf(a, id) == [];
  }

  // ---- The per-tree budget limits one split, not the tree -----------------------------------------------------

  /**
   The arena sums the estimates of its splits, but no gate reads the sum: a split keeps it within the per-tree budget
   if and only if it is denied or its own estimate still fits beside what the tree has used.
   */
  lemma TreeBudgetIsPerSplit(cfg: Config, a: Arena, id: Id, criteria: seq<string>, models: seq<string>)
    requires a.treeUsed <= cfg.treeBudget && id in a.nodes
    ensures var (a', code) := SplitStep(cfg, a, id, criteria, models);
      var cost := Pow(|Screen(cfg, criteria, models, |criteria|)|, a.nodes[id].depth + 1);
      a'.treeUsed <= cfg.treeBudget <==> !Allows(code) || a.treeUsed + cost <= cfg.treeBudget
  {
    EstimateDecides(|Screen(cfg, criteria, models, |criteria|)|, a.nodes[id].depth + 1, cfg.treeBudget);
  }

  ghost function ChildSet(id: Id, n: nat): set<seq<string>> { Extend({id}, Labels(Name, n)) }

  lemma ChildSetSize(id: Id, n: nat)
    ensures |ChildSet(id, n)| == n
  {
    NamesDiffer();
    LabelsSize(Name, n);
    ExtendSize({id}, Labels(Name, n));
    TimesIsProduct(1, n);
  }

  /** What an allowed split does to the tree: it grows by exactly the criteria that passed the screen. */
  lemma SplitGrowsTree(cfg: Config, a: Arena, id: Id, criteria: seq<string>, models: seq<string>)
    requires ArenaOk(cfg, a) && Allows(SplitStep(cfg, a, id, criteria, models).1)
    ensures var (a', jobs) := (SplitStep(cfg, a, id, criteria, models).0, Screen(cfg, criteria, models, |criteria|));
      |NodesBelow(a', id[0])| == |NodesBelow(a, id[0])| + |jobs|
  {
    var (a', jobs) := (SplitStep(cfg, a, id, criteria, models).0, Screen(cfg, criteria, models, |criteria|));
    SplitMakes(cfg, a, id, criteria, models);
    forall x {
      AfterSplit(a, a', id, jobs, x);
    }
    forall i: nat | i < |jobs| ensures id + [Name(i)] in a'.nodes && id + [Name(i)] !in a.nodes {
      SplitAddsItsJobs(cfg, a, id, criteria, models, i);
    }
    TreeGrows(a, a', id, jobs);
  }

  lemma TreeGrows(a: Arena, a': Arena, id: Id, jobs: seq<Job>)
    requires id in a'.nodes && forall x | x in a.nodes :: x in a'.nodes
    requires forall x | x in a'.nodes && x !in a.nodes :: NewChild(a'.nodes, id, a'.nodes[id], jobs, |jobs|, x)
    requires forall i: nat | i < |jobs| :: id + [Name(i)] in a'.nodes && id + [Name(i)] !in a.nodes
    ensures |NodesBelow(a', id[0])| == |NodesBelow(a, id[0])| + |jobs|
  {
    ChildSetSize(id, |jobs|);
    forall x ensures x in NodesBelow(a', id[0]) <==> x in NodesBelow(a, id[0]) || x in ChildSet(id, |jobs|) {
      if x in a'.nodes && x !in a.nodes {
        var i: nat :| i < |jobs| && x == id + [Decimal(i)];
        assert Name(i) in Labels(Name, |jobs|);
      }
    }
    assert NodesBelow(a', id[0]) == NodesBelow(a, id[0]) + ChildSet(id, |jobs|);
    DisjointUnion(NodesBelow(a, id[0]), ChildSet(id, |jobs|));
  }

  // ---- The arena, updated in place -------------------------------------------------------------------------------

  lemma ChildIdsGrow(id: Id, i: nat)
    ensures ChildIds(id, i + 1) == ChildIds(id, i) + [id + [Decimal(i)]]
  {
  }

  lemma UpdateTwice(m: map<Id, seq<Id>>, id: Id, u: seq<Id>, v: seq<Id>)
    ensures m[id := u][id := v] == m[id := v]
  {
  }

  class TaskArena {
    const cfg: Config
    var nodes: map<Id, Node>
    var children: map<Id, seq<Id>>
    var treeUsed: int
    var dayUsed: nat
    var ledger: seq<Line>

    ghost function State(): Arena
      reads this
    {
      Arena(nodes, children, treeUsed, dayUsed, ledger)
    }

    constructor (cfg: Config)
      ensures State() == EMPTY && this.cfg == cfg
    {
      this.cfg := cfg;
      nodes := map[];
      children := map[];
      treeUsed := 0;
      dayUsed := 0;
      ledger := [];
    }

    method EnqueueTask(id: Id, node: Node) returns (code: Code)
      modifies this
      ensures (State(), code) == EnqueueStep(old(State()), id, node)
    {
      if id in nodes {
        return Ok;
      }
      nodes := nodes[id := node.(depth := |id| - 1, resplitCount := 0, state := Queued)];
      return Ok;
    }

    method SplitTask(id: Id, criteria: seq<string>, models: seq<string>) returns (code: Code)
      modifies this
      ensures (State(), code) == SplitStep(cfg, old(State()), id, criteria, models)
    {
      if id !in nodes {
        return SplitOnce;
      }
      var parent := nodes[id];
      if parent.resplitCount >= MAX_RESPLITS {
        nodes := nodes[id := parent.(state := SpiralStopped)];
        ledger := ledger + [SpiralLine(id)];
        return SpiralStop;
      }
      var jobs := ScreenCriteria(id, criteria, models);
      if jobs == [] {
        return DestructiveProposeOnly;
      }
      var distinct := Models(jobs);
      var (verdict, estimate) := CheckSplit(cfg, parent.depth, |jobs|, parent.resplitCount, parent.atomic,
                                            parent.alreadySplit, distinct, dayUsed);
      if !Allows(verdict) {
        return verdict;
      }
      CommitSplit(id, parent, jobs, estimate);
      return verdict;
    }

    method CommitSplit(id: Id, parent: Node, jobs: seq<Job>, estimate: int)
      requires id in nodes && jobs != []
      modifies this
      ensures State() == old(State()).(
        nodes := AddChildren(old(nodes)[id := Committed(parent)], id, Committed(parent), jobs, |jobs|),
        children := old(children)[id := ChildrenOf(old(State()), id) + ChildIds(id, |jobs|)],
        treeUsed := old(treeUsed) + estimate,
        ledger := old(ledger) + [SplitLine(id)])
    {
      treeUsed := treeUsed + estimate;
      var committed := parent.(resplitCount := parent.resplitCount + 1, alreadySplit := true, state := Active);
      nodes := nodes[id := committed];
      CommitChildren(id, committed, jobs);
      ledger := ledger + [SplitLine(id)];
    }

    /** Keep the criteria that may run and log a denial for each that may only be proposed. */
    method ScreenCriteria(id: Id, criteria: seq<string>, models: seq<string>) returns (jobs: seq<Job>)
      modifies this`ledger
      ensures jobs == Screen(cfg, criteria, models, |criteria|)
      ensures ledger == old(ledger) + Denials(cfg, id, criteria, |criteria|)
    {
      jobs := [];
      for i := 0 to |criteria|
        invariant jobs == Screen(cfg, criteria, models, i)
        invariant ledger == old(ledger) + Denials(cfg, id, criteria, i)
      {
        var model := if models == [] then "default" else models[i % |models|];
        if cfg.destructive(criteria[i]) {
          ledger := ledger + [DenyLine(id + [Decimal(i)])];
        } else {
          jobs := jobs + [Job(criteria[i], model)];
        }
      }
    }

    method CommitChildren(id: Id, parent: Node, jobs: seq<Job>)
      requires jobs != []
      modifies this`nodes, this`children
      ensures nodes == AddChildren(old(nodes), id, parent, jobs, |jobs|)
      ensures children == old(children)[id := ChildrenOf(old(State()), id) + ChildIds(id, |jobs|)]
    {
      var listed: seq<Id> := if id in children then children[id] else [];
      for i := 0 to |jobs|
        invariant nodes == AddChildren(old(nodes), id, parent, jobs, i)
        invariant listed == ChildrenOf(old(State()), id) + ChildIds(id, i)
        invariant i == 0 ==> children == old(children)
        invariant i > 0 ==> children == old(children)[id := listed]
      {
        var child: Id := id + [Decimal(i)];
        if child !in nodes {
          nodes := nodes[child := ChildNode(parent, jobs[i])];
        }
        UpdateTwice(old(children), id, listed, listed + [child]);
        ChildIdsGrow(id, i);
        listed := listed + [child];
        children := children[id := listed];
      }
    }

    method ReportTask(id: Id, artifact: bool, checked: Code) returns (code: Code)
      modifies this
      ensures (State(), code) == ReportStep(old(State()), id, artifact, checked)
    {
      if !artifact {
        return VerifyFail;
      }
      if id !in nodes {
        return SplitOnce;
      }
      var node := nodes[id];
      if node.verifyFailures >= MAX_ROUNDS_PER_TASK {
        return MaxRounds;
      }
      if checked != Ok {
        nodes := nodes[id := node.(verifyFailures := node.verifyFailures + 1)];
        return checked;
      }
      nodes := nodes[id := node.(state := Proposed)];
      ledger := ledger + [ReportLine(id)];
      return Ok;
    }
  }
}
