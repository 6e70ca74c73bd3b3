/**
 The rules of the native arena, each stated without the step that follows it: which code the gate answers, what a
 split deals and leaves, and when a node accepts no more reports.
 */
module ArenaRules {
  import opened Decimals
  import opened NativeArena
  import opened TreeBounds

  // ---- The gate -----------------------------------------------------------------------------------

  /** What speaks against a split, in the order in which the gate asks. */
  ghost predicate Objection(cfg: Config, depth: nat, breadth: nat, resplitCount: nat, atomic: bool, alreadySplit: bool,
                            models: set<string>, dayUsed: nat, code: Code)
  {
    match code
    case SpiralStop => resplitCount >= 3
    case HomogeneousAssignment => breadth >= 2 && forall a, b | a in models && b in models :: a == b
    case BreadthCap => breadth > cfg.breadthCap
    case BudgetExceeded => Pow(breadth, depth + 1) > cfg.treeBudget
    case DailyCap => dayUsed + Pow(breadth, depth + 1) > cfg.dailyCap
    case SplitOnce => alreadySplit
    case AtomicLocked => atomic
    case _ => false
  }

  const ORDER: seq<Code> :=
    [SpiralStop, HomogeneousAssignment, BreadthCap, BudgetExceeded, DailyCap, SplitOnce, AtomicLocked]

  /**
   The gate answers the first objection in its order. Without one it allows, with a warning exactly when the true
   power is over the warning mark.
   */
  lemma GateExactly(cfg: Config, depth: nat, breadth: nat, resplitCount: nat, atomic: bool, alreadySplit: bool,
                    models: set<string>, dayUsed: nat, k: nat)
    requires k < |ORDER|
    ensures var code := CheckSplit(cfg, depth, breadth, resplitCount, atomic, alreadySplit, models, dayUsed).0;
      (code == ORDER[k] <==>
         Objection(cfg, depth, breadth, resplitCount, atomic, alreadySplit, models, dayUsed, ORDER[k]) &&
         forall j | 0 <= j < k ::
           !Objection(cfg, depth, breadth, resplitCount, atomic, alreadySplit, models, dayUsed, ORDER[j])) &&
      (code == BudgetWarn ==> Pow(breadth, depth + 1) > cfg.warnAt) &&
      (code == Ok ==> Pow(breadth, depth + 1) <= cfg.warnAt) && (code in ORDER || Allows(code))
  {
    EstimateDecides(breadth, depth + 1, cfg.treeBudget);
    AtMostOne(models);
    assert ORDER[0] == SpiralStop && ORDER[1] == HomogeneousAssignment && ORDER[2] == BreadthCap;
    assert ORDER[3] == BudgetExceeded && ORDER[4] == DailyCap && ORDER[5] == SplitOnce && ORDER[6] == AtomicLocked;
  }

  // ---- What a split deals --------------------------------------------------------------------------------

  function RunnableAmong(cfg: Config, criteria: seq<string>, n: nat): set<nat>
    requires n <= |criteria|
  {
    set i: nat | i < n && !cfg.destructive(criteria[i])
  }

  function RefusedAmong(cfg: Config, criteria: seq<string>, n: nat): set<nat>
    requires n <= |criteria|
  {
    set i: nat | i < n && cfg.destructive(criteria[i])
  }

  /** How many of the first `n` criteria may run. */
  function Runnable(cfg: Config, criteria: seq<string>, n: nat): nat
    requires n <= |criteria|
  {
    |RunnableAmong(cfg, criteria, n)|
  }

  /** How many may only be proposed. */
  function Refused(cfg: Config, criteria: seq<string>, n: nat): nat
    requires n <= |criteria|
  {
    |RefusedAmong(cfg, criteria, n)|
  }

  lemma CountsGrow(cfg: Config, criteria: seq<string>, n: nat, next: nat)
    requires n < |criteria| && next == n + 1
    ensures Runnable(cfg, criteria, next) == Runnable(cfg, criteria, n) + if cfg.destructive(criteria[n]) then 0 else 1
    ensures Refused(cfg, criteria, next) == Refused(cfg, criteria, n) + if cfg.destructive(criteria[n]) then 1 else 0
  {
    var (runs, not) := (RunnableAmong(cfg, criteria, n), RefusedAmong(cfg, criteria, n));
    assert RunnableAmong(cfg, criteria, next) == if cfg.destructive(criteria[n]) then runs else runs + {n};
    assert RefusedAmong(cfg, criteria, next) == if cfg.destructive(criteria[n]) then not + {n} else not;
  }

  lemma {:induction false} CountsRise(cfg: Config, criteria: seq<string>, i: nat, n: nat)
    requires i < n <= |criteria|
    ensures Runnable(cfg, criteria, i) + (if cfg.destructive(criteria[i]) then 0 else 1) <= Runnable(cfg, criteria, n)
    ensures Refused(cfg, criteria, i) + (if cfg.destructive(criteria[i]) then 1 else 0) <= Refused(cfg, criteria, n)
  {
    CountsGrow(cfg, criteria, n - 1, n);
    if i < n - 1 {
      CountsRise(cfg, criteria, i, n - 1);
    }
  }

  /** Criterion `i` is the job at its place among those that may run, or the denial at its place among the others. */
  ghost predicate DealtWith(cfg: Config, id: Id, criteria: seq<string>, models: seq<string>, i: nat, jobs: seq<Job>,
                            denials: seq<Line>)
    requires i < |criteria|
  {
    if cfg.destructive(criteria[i]) then
      var k := Refused(cfg, criteria, i); k < |denials| && denials[k] == DenyLine(id + [Decimal(i)])
    else
      var k := Runnable(cfg, criteria, i); k < |jobs| && jobs[k] == Job(criteria[i], Dealt(models, i))
  }

  lemma {:induction false} ScreenCounts(cfg: Config, id: Id, criteria: seq<string>, models: seq<string>, n: nat)
    requires n <= |criteria|
    ensures |Screen(cfg, criteria, models, n)| == Runnable(cfg, criteria, n)
    ensures |Denials(cfg, id, criteria, n)| == Refused(cfg, criteria, n)
  {
    if n > 0 {
      ScreenCounts(cfg, id, criteria, models, n - 1);
      CountsGrow(cfg, criteria, n - 1, n);
    }
  }

  lemma {:induction false} ScreenDeals(cfg: Config, id: Id, criteria: seq<string>, models: seq<string>, n: nat, i: nat)
    requires i < n <= |criteria|
    ensures DealtWith(cfg, id, criteria, models, i, Screen(cfg, criteria, models, n), Denials(cfg, id, criteria, n))
  {
    ScreenCounts(cfg, id, criteria, models, n - 1);
    if i < n - 1 {
      ScreenDeals(cfg, id, criteria, models, n - 1, i);
    }
  }

  /** The screen keeps each runnable criterion in its order and denies each other one, and there is nothing else. */
  lemma ScreenExactly(cfg: Config, id: Id, criteria: seq<string>, models: seq<string>)
    ensures var (jobs, denials) := (Screen(cfg, criteria, models, |criteria|), Denials(cfg, id, criteria, |criteria|));
      |jobs| == Runnable(cfg, criteria, |criteria|) && |denials| == Refused(cfg, criteria, |criteria|) &&
      forall i: nat | i < |criteria| :: DealtWith(cfg, id, criteria, models, i, jobs, denials)
  {
    ScreenCounts(cfg, id, criteria, models, |criteria|);
    forall i: nat | i < |criteria|
      ensures DealtWith(cfg, id, criteria, models, i, Screen(cfg, criteria, models, |criteria|),
                        Denials(cfg, id, criteria, |criteria|))
    {
      ScreenDeals(cfg, id, criteria, models, |criteria|, i);
    }
  }

  lemma RemainderRepeats(i: nat, n: nat)
    requires n > 0
    ensures (i + n) % n == i % n
  {
    var (q, r, q1, r1) := (i / n, i % n, (i + n) / n, (i + n) % n);
    assert i == n * q + r && i + n == n * q1 + r1;
    var d := q1 - q - 1;
    assert d * n == q1 * n - q * n - n == r - r1;
    if d >= 1 {
      Scale(1, d, n);
    } else if d <= -1 {
      Scale(1, -d, n);
    }
  }

  /** The models are dealt in turn, round and round. */
  lemma DealtInTurn(models: seq<string>, i: nat)
    ensures models == [] ==> Dealt(models, i) == "default"
    ensures i < |models| ==> Dealt(models, i) == models[i]
    ensures models != [] ==> Dealt(models, i + |models|) == Dealt(models, i)
  {
    if models != [] {
      RemainderRepeats(i, |models|);
    }
  }

  // ---- Splits ---------------------------------------------------------------------------------------------

  /** Everything but the ledger is as it was, and the ledger grew by these lines. */
  predicate OnlyLogs(a: Arena, a': Arena, lines: seq<Line>) {
    a' == a.(ledger := a'.ledger) && a'.ledger == a.ledger + lines
  }

  /** What an allowed split leaves of its parent. */
  predicate ParentSplit(before: Node, after: Node) {
    after.resplitCount == before.resplitCount + 1 && after.alreadySplit && after.state == Active &&
    after == before.(resplitCount := after.resplitCount, alreadySplit := true, state := Active)
  }

  /** The `k`-th child is there: the node that was, else a new one for job `k`, one deeper. */
  ghost predicate ChildIs(a: Arena, a': Arena, id: Id, k: nat, job: Job) {
    var x: Id := id + [Decimal(k)];
    x in a'.nodes && id in a.nodes &&
    a'.nodes[x] == if x in a.nodes then a.nodes[x]
                   else Node(job.criterion, job.model, a.nodes[id].depth + 1, a.nodes[id].resplitCount + 1, 0, false, false,
                             Queued)
  }

  ghost predicate IsNumbered(id: Id, n: nat, x: Id) { exists k: nat | k < n :: x == id + [Decimal(k)] }

  ghost predicate SplitDone(a: Arena, a': Arena, id: Id, jobs: seq<Job>, denials: seq<Line>) {
    id in a.nodes && id in a'.nodes && ParentSplit(a.nodes[id], a'.nodes[id]) &&
    (forall k: nat | k < |jobs| :: ChildIs(a, a', id, k, jobs[k])) &&
    (forall x | x in a'.nodes && x !in a.nodes :: IsNumbered(id, |jobs|, x)) &&
    (forall x | x in a.nodes && x != id :: x in a'.nodes && a'.nodes[x] == a.nodes[x]) &&
    a'.treeUsed == a.treeUsed + Pow(|jobs|, a.nodes[id].depth + 1) && a'.dayUsed == a.dayUsed &&
    a'.ledger == a.ledger + denials + [SplitLine(id)]
  }

  lemma ChildAdded(a: Arena, a': Arena, id: Id, jobs: seq<Job>, k: nat)
    requires SplitShape(a, a', id, jobs) && k < |jobs|
    ensures ChildIs(a, a', id, k, jobs[k])
  {
    var x: Id := id + [Decimal(k)];
    AfterSplit(a, a', id, jobs, x);
    AddsEach(a.nodes[id := a'.nodes[id]], id, a'.nodes[id], jobs, |jobs|, k);
    if x !in a.nodes {
      var j: nat :| j < |jobs| && x == id + [Decimal(j)] && a'.nodes[x] == ChildNode(a'.nodes[id], jobs[j]);
      assert x[|id|] == Decimal(k) == Decimal(j);
      DecimalInjective(k, j);
    } else {
      assert |x| == |id| + 1;
    }
  }

  lemma SplitIsDone(cfg: Config, a: Arena, id: Id, criteria: seq<string>, models: seq<string>)
    requires Allows(SplitStep(cfg, a, id, criteria, models).1)
    ensures var a' := SplitStep(cfg, a, id, criteria, models).0;
      SplitDone(a, a', id, Screen(cfg, criteria, models, |criteria|), Denials(cfg, id, criteria, |criteria|))
  {
    SplitMakes(cfg, a, id, criteria, models);
    var (a', jobs) := (SplitStep(cfg, a, id, criteria, models).0, Screen(cfg, criteria, models, |criteria|));
    EstimateDecides(|jobs|, a.nodes[id].depth + 1, cfg.treeBudget);
    AfterSplit(a, a', id, jobs, id);
    forall k: nat | k < |jobs| ensures ChildIs(a, a', id, k, jobs[k]) {
      ChildAdded(a, a', id, jobs, k);
    }
    forall x | x in a'.nodes && x !in a.nodes ensures IsNumbered(id, |jobs|, x) {
      AfterSplit(a, a', id, jobs, x);
    }
    forall x | x in a.nodes && x != id ensures x in a'.nodes && a'.nodes[x] == a.nodes[x] {
      AfterSplit(a, a', id, jobs, x);
    }
  }

  /**
   A split of an unknown id is refused, one of a node split three times along its lineage stops it with a line, and one
   that may only be proposed just logs its denials. Otherwise the gate decides on what passed the screen: a refusal
   leaves the denials, an allowed split also the committed parent, its children, and its cost.
   */
  lemma SplitExactly(cfg: Config, a: Arena, id: Id, criteria: seq<string>, models: seq<string>)
    ensures var (a', code) := Step(cfg, a, Split(id, criteria, models));
      var (jobs, denials) := (Screen(cfg, criteria, models, |criteria|), Denials(cfg, id, criteria, |criteria|));
      if id !in a.nodes then code == SplitOnce && a' == a
      else if a.nodes[id].resplitCount >= 3 then
        code == SpiralStop &&
        a' == a.(nodes := a.nodes[id := a.nodes[id].(state := SpiralStopped)], ledger := a.ledger + [SpiralLine(id)])
      else if jobs == [] then code == DestructiveProposeOnly && OnlyLogs(a, a', denials)
      else
        var node := a.nodes[id];
        code == CheckSplit(cfg, node.depth, |jobs|, node.resplitCount, node.atomic, node.alreadySplit, Models(jobs),
                           a.dayUsed).0 &&
        (forall m :: m in Models(jobs) <==> exists k :: 0 <= k < |jobs| && jobs[k].model == m) &&
        (Allows(code) ==> SplitDone(a, a', id, jobs, denials)) && (!Allows(code) ==> OnlyLogs(a, a', denials))
  {
    if Allows(SplitStep(cfg, a, id, criteria, models).1) {
      SplitIsDone(cfg, a, id, criteria, models);
    }
  }

  /** A new id is queued at the depth its dots say, uncounted, otherwise as given; a known one changes nothing. */
  lemma EnqueueExactly(cfg: Config, a: Arena, id: Id, node: Node)
    ensures var (a', code) := Step(cfg, a, Enqueue(id, node));
      code == Ok && (id in a.nodes ==> a' == a) &&
      (id !in a.nodes ==>
         a'.nodes.Keys == a.nodes.Keys + {id} && (forall x | x in a.nodes :: a'.nodes[x] == a.nodes[x]) &&
         a'.nodes[id].depth + 1 == |id| && a'.nodes[id].resplitCount == 0 && a'.nodes[id].state == Queued &&
         a'.nodes[id] == node.(depth := a'.nodes[id].depth, resplitCount := 0, state := Queued) && a' == a.(nodes := a'.nodes))
  {
  }

  // ---- Reports ------------------------------------------------------------------------------------------------

  /** Only the node of `id` changed, and the ledger by these lines. */
  ghost predicate OnlyNode(a: Arena, a': Arena, id: Id, lines: seq<Line>) {
    a'.nodes.Keys == a.nodes.Keys && (forall x | x in a.nodes && x != id :: a'.nodes[x] == a.nodes[x]) &&
    a' == a.(nodes := a'.nodes, ledger := a'.ledger) && a'.ledger == a.ledger + lines
  }

  /**
   A report with a check artifact, on a known node that failed less than twice, is judged: accepted, it makes the node
   proposed and logs a line; failed, it counts one failure. Any other report changes nothing.
   */
  lemma ReportExactly(cfg: Config, a: Arena, id: Id, artifact: bool, checked: Code)
    ensures var (a', code) := Step(cfg, a, Report(id, artifact, checked));
      var judged := artifact && id in a.nodes && a.nodes[id].verifyFailures <= 1;
      (judged ==> code == checked) && (!judged ==> a' == a) &&
      (!artifact ==> code == VerifyFail) && (artifact && id !in a.nodes ==> code == SplitOnce) &&
      (artifact && id in a.nodes && !judged ==> code == MaxRounds) &&
      (judged && checked == Ok ==>
         OnlyNode(a, a', id, [ReportLine(id)]) && a'.nodes[id] == a.nodes[id].(state := Proposed)) &&
      (judged && checked != Ok ==>
         OnlyNode(a, a', id, []) && a'.nodes[id].verifyFailures == a.nodes[id].verifyFailures + 1 &&
         a'.nodes[id] == a.nodes[id].(verifyFailures := a'.nodes[id].verifyFailures))
  {
  }

  /** Event `k` brought a report on `id` that did not validate. */
  ghost predicate Fails(cfg: Config, evs: seq<Event>, k: nat, id: Id) {
    k < |evs| && evs[k].Report? && evs[k].id == id && evs[k].artifact && evs[k].checked != Ok &&
    id in RunTo(cfg, evs, k).nodes
  }

  ghost function Failures(cfg: Config, evs: seq<Event>, n: nat, id: Id): nat
    requires n <= |evs|
  {
    if n == 0 then 0 else Failures(cfg, evs, n - 1, id) + if Fails(cfg, evs, n - 1, id) then 1 else 0
  }

  /** The failures a node came with when it entered the arena: a child with none. */
  function Brought(cfg: Config, evs: seq<Event>, n: nat, id: Id): nat
    requires n <= |evs|
  {
    if n == 0 then 0
    else if id in RunTo(cfg, evs, n - 1).nodes then Brought(cfg, evs, n - 1, id)
    else if evs[n - 1].Enqueue? && evs[n - 1].id == id then evs[n - 1].node.verifyFailures
    else 0
  }

  function Least(a: nat, b: nat): nat { if a <= b then a else b }

  /** Failures count up to two; a node that came with more keeps them. */
  predicate Counted(count: nat, brought: nat, failures: nat) {
    if brought >= 2 then count == brought else count == Least(brought + failures, 2)
  }

  lemma FailureStep(cfg: Config, a: Arena, ev: Event, id: Id)
    ensures var a' := Step(cfg, a, ev).0;
      (id in a.nodes ==>
         id in a'.nodes && a'.nodes[id].verifyFailures == a.nodes[id].verifyFailures +
           if ev.Report? && ev.id == id && ev.artifact && ev.checked != Ok && a.nodes[id].verifyFailures < 2 then 1 else 0) &&
      (id in a'.nodes && id !in a.nodes ==>
         a'.nodes[id].verifyFailures == if ev.Enqueue? && ev.id == id then ev.node.verifyFailures else 0)
  {
    if ev.Split? {
      SplitExactly(cfg, a, ev.id, ev.criteria, ev.models);
      var (a', jobs) := (Step(cfg, a, ev).0, Screen(cfg, ev.criteria, ev.models, |ev.criteria|));
      if id in a'.nodes && id !in a.nodes {
        var k: nat :| k < |jobs| && id == ev.id + [Decimal(k)];
        assert ChildIs(a, a', ev.id, k, jobs[k]);
      }
    }
  }

  lemma {:induction false} FailuresCounted(cfg: Config, evs: seq<Event>, n: nat, id: Id)
    requires n <= |evs|
    ensures id !in RunTo(cfg, evs, n).nodes ==> Failures(cfg, evs, n, id) == 0
    ensures id in RunTo(cfg, evs, n).nodes ==>
      Counted(RunTo(cfg, evs, n).nodes[id].verifyFailures, Brought(cfg, evs, n, id), Failures(cfg, evs, n, id))
  {
    if n > 0 {
      FailuresCounted(cfg, evs, n - 1, id);
      FailureStep(cfg, RunTo(cfg, evs, n - 1), evs[n - 1], id);
    }
  }

  /**
   In every run a node judges no more reports if and only if two reports on it failed before, counting those it came
   with: whatever the next one brings, the answer is MaxRounds and nothing changes.
   */
  lemma TwoFailuresLock(cfg: Config, evs: seq<Event>, k: nat)
    requires k < |evs| && evs[k].Report? && evs[k].artifact && evs[k].checked != MaxRounds
    requires evs[k].id in RunTo(cfg, evs, k).nodes
    ensures ReplyAt(cfg, evs, k) == MaxRounds <==>
      Brought(cfg, evs, k, evs[k].id) + Failures(cfg, evs, k, evs[k].id) >= 2
    ensures ReplyAt(cfg, evs, k) == MaxRounds ==> RunTo(cfg, evs, k + 1) == RunTo(cfg, evs, k)
  {
    FailuresCounted(cfg, evs, k, evs[k].id);
    ReportExactly(cfg, RunTo(cfg, evs, k), evs[k].id, true, evs[k].checked);
  }
}
