/**
 The splitting loop of harness/loop.ts, for the lineage of one root task. A task id is the path
 from the root: [] is the root and id + [i] its i-th child ("<id>.<i>"). Task files, lock files,
 queue markers and the ledger are the state; a claim is three steps (create the lock file, stamp it,
 take the task), so that any number of claimants may interleave with everything else.
 */
module SplitLoop {
  import opened TreeBounds
  import opened Wrappers

  type Id = seq<nat>

  const MAX_RESPLITS := 3
  const MAX_REPORT_CHARS := 2000
  const DEFAULT_BUDGET_MAX_AGENTS := 64

  datatype Status = Queued | Claimed | Done | Verified | Failed

  datatype Task = Task(depth: nat, resplitCount: nat, status: Status, workerModel: Option<string>)

  datatype Line =
    | SplitLine(id: Id, resplitCount: nat)
    | ReportLine(id: Id, resplitCount: nat)
    | VerifyLine(id: Id, passed: bool)

  /** Model ids count as missing when blank, and may be compared after normalisation. */
  datatype Config = Config(blank: string -> bool, norm: string -> string)

  datatype Options = Options(budgetMax: nat, workerModels: seq<Option<string>>, requireHetero: bool, normalize: bool)

  datatype Harness = Harness(
    tasks: map<Id, Task>,
    locks: map<Id, Option<string>>, // lock files; None is one whose owner is not written yet
    claiming: map<Id, string>, // claimants between creating the lock and taking or missing the task
    queue: set<Id>,
    ledger: seq<Line>)

  datatype Event =
    | Lock(id: Id, owner: string)
    | Stamp(id: Id)
    | FinishClaim(id: Id)
    | Report(id: Id, chars: nat)
    | Verify(id: Id, passed: bool, reviewer: string, worker: string, reason: string, normalize: bool)
    | Split(id: Id, breadth: nat, opts: Options)

  datatype Reply =
    | Accepted | NothingPending
    | LockWon | ClaimConflict(owner: string) | LockUnreadable | NoSuchTask | NotQueued | ClaimedBy(owner: string)
    | WrongStatus | OversizedReport | NoReason | CorrelatedBlindness | WorkerMismatch
    | NoChildren | HomogeneousAssignment | SpiralStop | BudgetExceeded | Made(children: nat)

  /** A root task has just been enqueued. */
  function Initial(workerModel: Option<string>): Harness {
    Harness(map[[] := Task(0, 0, Queued, workerModel)], map[], map[], {[]}, [])
  }

  // ---- claim / report / verify ----------------------------------------------------------------

  /** Creating the lock file with O_EXCL; the loser reads the winner, who may not have written it yet. */
  function LockStep(h: Harness, id: Id, owner: string): (Harness, Reply) {
    if id !in h.locks then (h.(locks := h.locks[id := None], claiming := h.claiming[id := owner]), LockWon)
    else if h.locks[id].None? then (h, LockUnreadable)
    else (h, ClaimConflict(h.locks[id].value))
  }

  /** The winner writes its name into the lock file. */
  function StampStep(h: Harness, id: Id): (Harness, Reply) {
    if id !in h.claiming || id !in h.locks || h.locks[id].Some? then (h, NothingPending)
    else (h.(locks := h.locks[id := Some(h.claiming[id])]), Accepted)
  }

  /** The winner takes the task if it is still queued; the lock stays either way. */
  function FinishClaimStep(h0: Harness, id: Id): (Harness, Reply) {
    if id !in h0.claiming || id !in h0.locks || h0.locks[id].None? then (h0, NothingPending)
    else
      var h := h0.(claiming := h0.claiming - {id});
      if id !in h.tasks then (h, NoSuchTask)
      else if h.tasks[id].status != Queued then (h, NotQueued)
      else
        (h.(tasks := h.tasks[id := h.tasks[id].(status := Claimed)], queue := h.queue - {id}),
         ClaimedBy(h.locks[id].value))
  }

  function ReportStep(h: Harness, id: Id, chars: nat): (Harness, Reply) {
    if id !in h.tasks then (h, NoSuchTask)
    else
      var t := h.tasks[id];
      if t.status != Claimed then (h, WrongStatus)
      else if chars > MAX_REPORT_CHARS then (h, OversizedReport)
      else (h.(tasks := h.tasks[id := t.(status := Done)], ledger := h.ledger + [ReportLine(id, t.resplitCount)]), Accepted)
  }

  predicate ModelsEqual(cfg: Config, normalize: bool, a: string, b: string) {
    if normalize then cfg.norm(a) == cfg.norm(b) else a == b
  }

  function VerifyStep(cfg: Config, h: Harness, id: Id, passed: bool, reviewer: string, worker: string, reason: string,
                      normalize: bool): (Harness, Reply)
  {
    if id !in h.tasks then (h, NoSuchTask)
    else
      var t := h.tasks[id];
      if t.status != Done then (h, WrongStatus)
      else if reason == "" then (h, NoReason)
      else if ModelsEqual(cfg, normalize, reviewer, worker) then (h, CorrelatedBlindness)
      else if t.workerModel.Some? && t.workerModel.value != "" && !ModelsEqual(cfg, normalize, t.workerModel.value, worker)
      then (h, WorkerMismatch)
      else (h.(tasks := h.tasks[id := t.(status := if passed then Verified else Failed)],
               ledger := h.ledger + [VerifyLine(id, passed)]), Accepted)
  }

  // ---- splitOnce -------------------------------------------------------------------------------

  /** The usable worker models of a sibling set, in order. */
  function Usable(cfg: Config, models: seq<Option<string>>): seq<string> {
    if models == [] then []
    else
      (if models[0].Some? && !cfg.blank(models[0].value) then [models[0].value] else []) + Usable(cfg, models[1..])
  }

  function Distinct(cfg: Config, normalize: bool, usable: seq<string>): set<string> {
    set m | m in usable :: if normalize then cfg.norm(m) else m
  }

  predicate Homogeneous(cfg: Config, breadth: nat, opts: Options) {
    var usable := Usable(cfg, opts.workerModels);
    breadth > 1 && |usable| > 0 &&
    (|usable| < breadth || (opts.requireHetero && |Distinct(cfg, opts.normalize, usable)| < 2))
  }

  function Child(parent: Task, models: seq<Option<string>>, i: nat): Task {
    Task(parent.depth + 1, parent.resplitCount + 1, Queued,
         if i < |models| && models[i].Some? && models[i].value != "" then models[i] else None)
  }

  /** Enqueue the first `n` children; an existing file or marker of the same name is overwritten. */
  function EnqueueChildren(h: Harness, id: Id, parent: Task, models: seq<Option<string>>, n: nat): Harness {
    if n == 0 then h
    else
      var h1 := EnqueueChildren(h, id, parent, models, n - 1);
      h1.(tasks := h1.tasks[id + [n] := Child(parent, models, n - 1)], queue := h1.queue + {id + [n]})
  }

  function SplitStep(cfg: Config, h: Harness, id: Id, breadth: nat, opts: Options): (Harness, Reply) {
    if id !in h.tasks then (h, NoSuchTask)
    else
      var t := h.tasks[id];
      if t.status != Claimed && t.status != Done && t.status != Failed then (h, WrongStatus)
      else if breadth == 0 then (h, NoChildren)
      else if Homogeneous(cfg, breadth, opts) then (h, HomogeneousAssignment)
      else if t.resplitCount >= MAX_RESPLITS then
        (h.(tasks := h.tasks[id := t.(status := Failed)], ledger := h.ledger + [ReportLine(id, t.resplitCount)]), SpiralStop)
      else if Pow(breadth, t.depth + 1) > opts.budgetMax then (h, BudgetExceeded)
      else
        var h1 := EnqueueChildren(h, id, t, opts.workerModels, breadth);
        (h1.(tasks := h1.tasks[id := t.(resplitCount := t.resplitCount + 1, status := Done)],
             ledger := h1.ledger + [SplitLine(id, t.resplitCount + 1)]), Made(breadth))
  }

  function Step(cfg: Config, h: Harness, ev: Event): (Harness, Reply) {
    match ev
    case Lock(id, owner) => LockStep(h, id, owner)
    case Stamp(id) => StampStep(h, id)
    case FinishClaim(id) => FinishClaimStep(h, id)
    case Report(id, chars) => ReportStep(h, id, chars)
    case Verify(id, passed, reviewer, worker, reason, normalize) =>
      VerifyStep(cfg, h, id, passed, reviewer, worker, reason, normalize)
    case Split(id, breadth, opts) => SplitStep(cfg, h, id, breadth, opts)
  }

  /** The state after the first `n` events. */
  function RunTo(cfg: Config, workerModel: Option<string>, evs: seq<Event>, n: nat): Harness
    requires n <= |evs|
  {
    if n == 0 then Initial(workerModel) else Step(cfg, RunTo(cfg, workerModel, evs, n - 1), evs[n - 1]).0
  }

  function Run(cfg: Config, workerModel: Option<string>, evs: seq<Event>): Harness {
    RunTo(cfg, workerModel, evs, |evs|)
  }

  /** No split is given a larger budget than `budget`. */
  ghost predicate Within(budget: nat, evs: seq<Event>) {
    forall k | 0 <= k < |evs| && evs[k].Split? :: evs[k].opts.budgetMax <= budget
  }

  // ---- How wide and deep the tree can get ---------------------------------------------------------

  /** The widest splits the budget allows at depths 0, 1 and 2. */
  function Widths(budget: nat): seq<nat> { [Widest(budget, 1), Widest(budget, 2), Widest(budget, 3)] }

  /** All ids of depth `d` that splits within the budget can create. */
  ghost function Level(budget: nat, d: nat): set<Id>
    requires d <= 3
  {
    LevelBelow([], Widths(budget), Number, d)
  }

  ghost function Levels(budget: nat): set<Id> { TreeBelow([], Widths(budget), Number) }

  // ---- What every step keeps -----------------------------------------------------------------------

  /** The lock was taken and its claim is over: nobody can claim `id` any more. */
  predicate Held(h: Harness, id: Id) {
    id in h.locks && id !in h.claiming
  }

  /** depth <= resplit_count <= 3, a tree position within the budget, and no progress without a claim. */
  ghost predicate TaskOk(budget: nat, h: Harness, id: Id)
    requires id in h.tasks
  {
    var t := h.tasks[id];
    t.depth == |id| && |id| <= t.resplitCount <= MAX_RESPLITS && id in Level(budget, |id|) &&
    (t.status != Queued ==> Held(h, id))
  }

  /** A logged split happened after the claim, at a count the task has not fallen behind unless overwritten. */
  ghost predicate LineOk(h: Harness, line: Line) {
    line.SplitLine? ==>
      line.id in h.tasks && Held(h, line.id) && |line.id| < line.resplitCount <= MAX_RESPLITS &&
      (h.tasks[line.id].status != Queued ==> line.resplitCount <= h.tasks[line.id].resplitCount)
  }

  ghost predicate SplitsDistinct(ledger: seq<Line>) {
    forall i, j | 0 <= i < j < |ledger| && ledger[i].SplitLine? :: ledger[i] != ledger[j]
  }

  ghost predicate Inv(budget: nat, h: Harness) {
    (forall id | id in h.tasks :: TaskOk(budget, h, id)) &&
    (forall k | 0 <= k < |h.ledger| :: LineOk(h, h.ledger[k])) &&
    SplitsDistinct(h.ledger)
  }

  predicate IsChild(id: Id, n: nat, x: Id) {
    |x| == |id| + 1 && x[..|id|] == id && 1 <= x[|id|] <= n
  }

  lemma {:induction false} EnqueueShape(h: Harness, id: Id, parent: Task, models: seq<Option<string>>, n: nat)
    ensures var r := EnqueueChildren(h, id, parent, models, n);
      r.locks == h.locks && r.claiming == h.claiming && r.ledger == h.ledger &&
      (forall x :: x in r.tasks <==> x in h.tasks || IsChild(id, n, x)) &&
      (forall x :: x in r.queue <==> x in h.queue || IsChild(id, n, x)) &&
      (forall x | x in r.tasks ::
        r.tasks[x] == if IsChild(id, n, x) then Child(parent, models, x[|id|] - 1) else h.tasks[x])
  {
    if n > 0 {
      EnqueueShape(h, id, parent, models, n - 1);
      var r1 := EnqueueChildren(h, id, parent, models, n - 1);
      forall x ensures IsChild(id, n, x) <==> IsChild(id, n - 1, x) || x == id + [n] {
        if |x| == |id| + 1 {
          assert x == x[..|id|] + [x[|id|]];
        }
      }
    }
  }

  lemma ChildInLevel(budget: nat, id: Id, n: nat, x: Id)
    requires |id| < 3 && id in Level(budget, |id|) && Pow(n, |id| + 1) <= budget && IsChild(id, n, x)
    ensures x in Level(budget, |id| + 1)
  {
    var d := |id|;
    WidestIsWidest(budget, d + 1, n);
    assert Widths(budget)[d] == Widest(budget, d + 1);
    LevelMember([], Widths(budget), Number, d, id, x[d] - 1);
    assert x == id + [Number(x[d] - 1)];
  }

  /** Nothing but locks changed, and no lock was given up. */
  lemma LocksKeep(budget: nat, h: Harness, h': Harness)
    requires Inv(budget, h)
    requires h'.tasks == h.tasks && h'.ledger == h.ledger && (forall x :: Held(h, x) ==> Held(h', x))
    ensures Inv(budget, h')
  {
    forall x | x in h'.tasks ensures TaskOk(budget, h', x) {
      assert TaskOk(budget, h, x);
    }
    forall k | 0 <= k < |h'.ledger| ensures LineOk(h', h'.ledger[k]) {
      assert LineOk(h, h.ledger[k]);
    }
  }

  /** Task `id` moved to `status`, not back to the queue, with at most one line logged and no split. */
  lemma StatusKeeps(budget: nat, h: Harness, h': Harness, id: Id, status: Status)
    requires Inv(budget, h) && id in h.tasks && status != Queued
    requires h'.tasks == h.tasks[id := h.tasks[id].(status := status)]
    requires h'.ledger == h.ledger || exists line: Line :: !line.SplitLine? && h'.ledger == h.ledger + [line]
    requires forall x :: Held(h, x) ==> Held(h', x)
    requires Held(h', id) && (h.tasks[id].status == Queued ==> !Held(h, id))
    ensures Inv(budget, h')
  {
    forall x | x in h'.tasks ensures TaskOk(budget, h', x) {
      assert TaskOk(budget, h, x);
    }
    forall k | 0 <= k < |h'.ledger| ensures LineOk(h', h'.ledger[k]) {
      if k < |h.ledger| {
        assert LineOk(h, h.ledger[k]) && h'.ledger[k] == h.ledger[k];
      }
    }
    forall i, j | 0 <= i < j < |h'.ledger| && h'.ledger[i].SplitLine? ensures h'.ledger[i] != h'.ledger[j] {
      assert i < |h.ledger|;
    }
  }

  /** A split replaces its children, which may be held and half split already, and logs a new count. */
  ghost predicate MadeChildren(h: Harness, h': Harness, id: Id, n: nat, models: seq<Option<string>>) {
    id in h.tasks && id in h'.tasks && !IsChild(id, n, id) &&
    h'.locks == h.locks && h'.claiming == h.claiming &&
    h'.ledger == h.ledger + [SplitLine(id, h.tasks[id].resplitCount + 1)] &&
    h'.tasks[id] == h.tasks[id].(resplitCount := h.tasks[id].resplitCount + 1, status := Done) &&
    (forall x :: x in h'.tasks <==> x in h.tasks || IsChild(id, n, x)) &&
    (forall x | x in h'.tasks && x != id ::
      h'.tasks[x] == if IsChild(id, n, x) then Child(h.tasks[id], models, x[|id|] - 1) else h.tasks[x])
  }

  lemma SplitMakes(cfg: Config, h: Harness, id: Id, breadth: nat, opts: Options)
    requires SplitStep(cfg, h, id, breadth, opts).1.Made?
    ensures id in h.tasks && h.tasks[id].status != Queued && h.tasks[id].resplitCount < MAX_RESPLITS
    ensures Pow(breadth, h.tasks[id].depth + 1) <= opts.budgetMax
    ensures MadeChildren(h, SplitStep(cfg, h, id, breadth, opts).0, id, breadth, opts.workerModels)
  {
    EnqueueShape(h, id, h.tasks[id], opts.workerModels, breadth);
  }

  lemma MadeKeeps(budget: nat, h: Harness, h': Harness, id: Id, n: nat, models: seq<Option<string>>)
    requires Inv(budget, h) && MadeChildren(h, h', id, n, models)
    requires h.tasks[id].status != Queued && h.tasks[id].resplitCount < MAX_RESPLITS
    requires Pow(n, h.tasks[id].depth + 1) <= budget
    ensures Inv(budget, h')
  {
    assert TaskOk(budget, h, id);
    forall x | x in h'.tasks ensures TaskOk(budget, h', x) {
      MadeTaskOk(budget, h, h', id, h.tasks[id], n, models, x);
    }
    forall k | 0 <= k < |h'.ledger| ensures LineOk(h', h'.ledger[k]) {
      if k < |h.ledger| {
        MadeLineOk(h, h', id, n, h.ledger[k]);
      }
    }
    MadeDistinct(h, id);
  }

  lemma MadeLineOk(h: Harness, h': Harness, id: Id, n: nat, line: Line)
    requires LineOk(h, line) && id in h.tasks && id in h'.tasks && h.tasks[id].status != Queued
    requires h'.locks == h.locks && h'.claiming == h.claiming
    requires h'.tasks[id].resplitCount >= h.tasks[id].resplitCount
    requires forall x | x in h.tasks :: x in h'.tasks
    requires forall x | x in h.tasks && x != id :: h'.tasks[x] == h.tasks[x] || h'.tasks[x].status == Queued
    ensures LineOk(h', line)
  {
  }

  lemma MadeDistinct(h: Harness, id: Id)
    requires id in h.tasks && h.tasks[id].status != Queued
    requires SplitsDistinct(h.ledger) && forall k | 0 <= k < |h.ledger| :: LineOk(h, h.ledger[k])
    ensures SplitsDistinct(h.ledger + [SplitLine(id, h.tasks[id].resplitCount + 1)])
  {
    var ledger := h.ledger + [SplitLine(id, h.tasks[id].resplitCount + 1)];
    forall i, j | 0 <= i < j < |ledger| && ledger[i].SplitLine? ensures ledger[i] != ledger[j] {
      assert LineOk(h, h.ledger[i]);
    }
  }

  lemma MadeTaskOk(budget: nat, h: Harness, h': Harness, id: Id, t: Task, n: nat, models: seq<Option<string>>, x: Id)
    requires Inv(budget, h) && id in h.tasks && t == h.tasks[id] && t.status != Queued
    requires t.resplitCount < MAX_RESPLITS && Pow(n, t.depth + 1) <= budget
    requires x in h'.tasks && h'.locks == h.locks && h'.claiming == h.claiming
    requires IsChild(id, n, x) ==> h'.tasks[x] == Child(t, models, x[|id|] - 1)
    requires x == id ==> h'.tasks[x] == t.(resplitCount := t.resplitCount + 1, status := Done)
    requires !IsChild(id, n, x) && x != id ==> x in h.tasks && h'.tasks[x] == h.tasks[x]
    ensures TaskOk(budget, h', x)
  {
    assert TaskOk(budget, h, id);
    if IsChild(id, n, x) {
      ChildInLevel(budget, id, n, x);
    } else {
      assert TaskOk(budget, h, x);
    }
  }

  lemma FinishClaimKeeps(budget: nat, h: Harness, id: Id)
    requires Inv(budget, h)
    ensures Inv(budget, FinishClaimStep(h, id).0)
  {
    var (h', r) := FinishClaimStep(h, id);
    if r.ClaimedBy? {
      StatusKeeps(budget, h, h', id, Claimed);
    } else {
      LocksKeep(budget, h, h');
    }
  }

  lemma SplitKeeps(cfg: Config, budget: nat, h: Harness, id: Id, breadth: nat, opts: Options)
    requires Inv(budget, h) && opts.budgetMax <= budget
    ensures Inv(budget, SplitStep(cfg, h, id, breadth, opts).0)
  {
    var (h', r) := SplitStep(cfg, h, id, breadth, opts);
    if r.Made? {
      SplitMakes(cfg, h, id, breadth, opts);
      MadeKeeps(budget, h, h', id, breadth, opts.workerModels);
    } else if r.SpiralStop? {
      assert TaskOk(budget, h, id);
      StatusKeeps(budget, h, h', id, Failed);
    }
  }

  lemma StepKeeps(cfg: Config, budget: nat, h: Harness, ev: Event)
    requires Inv(budget, h) && (ev.Split? ==> ev.opts.budgetMax <= budget)
    ensures Inv(budget, Step(cfg, h, ev).0)
  {
    var (h', r) := Step(cfg, h, ev);
    if h' != h {
      assert ev.id in h.tasks ==> TaskOk(budget, h, ev.id);
      match ev
      case Lock(id, owner) =>
        LocksKeep(budget, h, h');
      case Stamp(id) =>
        LocksKeep(budget, h, h');
      case FinishClaim(id) =>
        FinishClaimKeeps(budget, h, id);
      case Report(id, chars) =>
        StatusKeeps(budget, h, h', id, Done);
      case Verify(id, passed, reviewer, worker, reason, normalize) =>
        StatusKeeps(budget, h, h', id, if passed then Verified else Failed);
      case Split(id, breadth, opts) =>
        SplitKeeps(cfg, budget, h, id, breadth, opts);
    }
  }

  lemma {:induction false} RunKeeps(cfg: Config, budget: nat, workerModel: Option<string>, evs: seq<Event>, n: nat)
    requires Within(budget, evs) && n <= |evs|
    ensures Inv(budget, RunTo(cfg, workerModel, evs, n))
  {
    if n > 0 {
      RunKeeps(cfg, budget, workerModel, evs, n - 1);
      StepKeeps(cfg, budget, RunTo(cfg, workerModel, evs, n - 1), evs[n - 1]);
    }
  }

  // ---- The bounds --------------------------------------------------------------------------------------

  /** In every reachable state depth <= resplit_count <= 3. */
  lemma DepthBoundedByCount(cfg: Config, workerModel: Option<string>, evs: seq<Event>, budget: nat, id: Id)
    requires Within(budget, evs) && id in Run(cfg, workerModel, evs).tasks
    ensures var t := Run(cfg, workerModel, evs).tasks[id];
      t.depth == |id| && |id| <= t.resplitCount <= MAX_RESPLITS
  {
    RunKeeps(cfg, budget, workerModel, evs, |evs|);
    assert TaskOk(budget, Run(cfg, workerModel, evs), id);
  }

  /** The most task ids a budget allows below one root. */
  function MostTasks(budget: nat): int { TreeSize(Widths(budget)) }

  /** The most successful splits a budget allows below one root. */
  function MostSplits(budget: nat): int {
    3 + 2 * Widest(budget, 1) + Widest(budget, 1) * Widest(budget, 2)
  }

  /** However splits, re-splits, claims and verdicts interleave, only so many task ids ever exist. */
  lemma TasksAreBounded(cfg: Config, workerModel: Option<string>, evs: seq<Event>, budget: nat)
    requires Within(budget, evs)
    ensures |Run(cfg, workerModel, evs).tasks| <= MostTasks(budget)
  {
    var h := Run(cfg, workerModel, evs);
    RunKeeps(cfg, budget, workerModel, evs, |evs|);
    forall id | id in h.tasks.Keys ensures id in Levels(budget) {
      assert TaskOk(budget, h, id);
      assert |id| == 0 || |id| == 1 || |id| == 2 || |id| == 3;
    }
    SubsetSize(h.tasks.Keys, Levels(budget));
    TreeSizeExact([], Widths(budget), Number);
    assert |h.tasks| == |h.tasks.Keys|;
  }

  /** How many splits the ledger records: every successful splitOnce appends exactly one such line. */
  function Splits(ledger: seq<Line>): nat {
    if ledger == [] then 0
    else Splits(ledger[..|ledger| - 1]) + (if ledger[|ledger| - 1].SplitLine? then 1 else 0)
  }

  ghost function SplitSet(ledger: seq<Line>): set<(Id, nat)> {
    set k | 0 <= k < |ledger| && ledger[k].SplitLine? :: (ledger[k].id, ledger[k].resplitCount)
  }

  lemma {:induction false} SplitsCounted(ledger: seq<Line>)
    requires SplitsDistinct(ledger)
    ensures Splits(ledger) == |SplitSet(ledger)|
  {
    if ledger != [] {
      var front, last := ledger[..|ledger| - 1], ledger[|ledger| - 1];
      SplitsCounted(front);
      if last.SplitLine? {
        assert (last.id, last.resplitCount) !in SplitSet(front);
        assert SplitSet(ledger) == SplitSet(front) + {(last.id, last.resplitCount)};
      } else {
        assert SplitSet(ledger) == SplitSet(front);
      }
    }
  }

  ghost function AtCount(ids: set<Id>, r: nat): set<(Id, nat)> {
    set id | id in ids :: (id, r)
  }

  lemma {:induction false} AtCountSize(ids: set<Id>, r: nat)
    ensures |AtCount(ids, r)| == |ids|
    decreases |ids|
  {
    if ids != {} {
      var one :| one in ids;
      AtCountSize(ids - {one}, r);
      assert AtCount(ids, r) == AtCount(ids - {one}, r) + {(one, r)};
    }
  }

  /** Where a split can be logged: the root at counts 1 to 3, its children at 2 and 3, theirs at 3. */
  ghost function Places(a: set<Id>, b: set<Id>, c: set<Id>): set<(Id, nat)> {
    AtCount(a, 1) + AtCount(a, 2) + AtCount(a, 3) + AtCount(b, 2) + AtCount(b, 3) + AtCount(c, 3)
  }

  lemma PlacesSize(a: set<Id>, b: set<Id>, c: set<Id>)
    ensures |Places(a, b, c)| <= 3 * |a| + 2 * |b| + |c|
  {
    AtCountSize(a, 1);
    AtCountSize(a, 2);
    AtCountSize(a, 3);
    AtCountSize(b, 2);
    AtCountSize(b, 3);
    AtCountSize(c, 3);
  }

  /** Every run makes only finitely many successful splits, counted by depth: 3, then 2, then 1 per id. */
  lemma SplitsAreBounded(cfg: Config, workerModel: Option<string>, evs: seq<Event>, budget: nat)
    requires Within(budget, evs)
    ensures Splits(Run(cfg, workerModel, evs).ledger) <= MostSplits(budget)
  {
    var h := Run(cfg, workerModel, evs);
    RunKeeps(cfg, budget, workerModel, evs, |evs|);
    SplitsCounted(h.ledger);
    LevelSizes([], Widths(budget), Number);
    var (a, b, c) := (Level(budget, 0), Level(budget, 1), Level(budget, 2));
    forall p | p in SplitSet(h.ledger) ensures p in Places(a, b, c) {
      SplitPosition(budget, h, p);
    }
    SubsetSize(SplitSet(h.ledger), Places(a, b, c));
    PlacesSize(a, b, c);
  }

  lemma SplitPosition(budget: nat, h: Harness, p: (Id, nat))
    requires Inv(budget, h) && p in SplitSet(h.ledger)
    ensures p in Places(Level(budget, 0), Level(budget, 1), Level(budget, 2))
  {
    var k :| 0 <= k < |h.ledger| && h.ledger[k].SplitLine? && p == (h.ledger[k].id, h.ledger[k].resplitCount);
    assert LineOk(h, h.ledger[k]);
    assert TaskOk(budget, h, p.0);
    InPlaces(Level(budget, 0), Level(budget, 1), Level(budget, 2), p);
  }

  lemma InPlaces(a: set<Id>, b: set<Id>, c: set<Id>, p: (Id, nat))
    requires |p.0| < p.1 <= 3
    requires |p.0| == 0 ==> p.0 in a
    requires |p.0| == 1 ==> p.0 in b
    requires |p.0| == 2 ==> p.0 in c
    ensures p in Places(a, b, c)
  {
    var (id, r) := p;
    assert p in AtCount(if |id| == 0 then a else if |id| == 1 then b else c, r);
  }

  lemma DefaultNumbers(budget: nat)
    requires budget == DEFAULT_BUDGET_MAX_AGENTS
    ensures MostTasks(budget) == 1 + 64 + 512 + 2048 && MostSplits(budget) == 3 + 128 + 512
  {
    DefaultWidths(budget);
  }

  /** The numbers at the default budget of 64: 1 + 64 + 512 + 2048 ids and 3 + 128 + 512 splits. */
  lemma DefaultBudgetBounds(cfg: Config, workerModel: Option<string>, evs: seq<Event>, budget: nat)
    requires budget == DEFAULT_BUDGET_MAX_AGENTS && Within(budget, evs)
    ensures |Run(cfg, workerModel, evs).tasks| <= 1 + 64 + 512 + 2048
    ensures Splits(Run(cfg, workerModel, evs).ledger) <= 3 + 128 + 512
  {
    TasksAreBounded(cfg, workerModel, evs, budget);
    SplitsAreBounded(cfg, workerModel, evs, budget);
    DefaultNumbers(budget);
  }

  // ---- One claim per id, whoever races -----------------------------------------------------------------

  function ReplyAt(cfg: Config, workerModel: Option<string>, evs: seq<Event>, k: nat): Reply
    requires k < |evs|
  {
    Step(cfg, RunTo(cfg, workerModel, evs, k), evs[k]).1
  }

  /** A lock file stays, with its owner once written, and a finished claim stays finished. */
  ghost predicate LocksKept(h: Harness, h': Harness, id: Id) {
    (Held(h, id) ==> Held(h', id)) &&
    (id in h.locks ==> id in h'.locks && (h.locks[id].Some? ==> h'.locks[id] == h.locks[id]))
  }

  lemma LocksStay(cfg: Config, h0: Harness, h: Harness, ev: Event, id: Id)
    requires LocksKept(h0, h, id)
    ensures LocksKept(h0, Step(cfg, h, ev).0, id)
  {
    if ev.Split? && ev.id in h.tasks {
      EnqueueShape(h, ev.id, h.tasks[ev.id], ev.opts.workerModels, ev.breadth);
    }
  }

  lemma {:induction false} RunLocksStay(cfg: Config, workerModel: Option<string>, evs: seq<Event>, i: nat, j: nat, id: Id)
    requires i <= j <= |evs|
    ensures LocksKept(RunTo(cfg, workerModel, evs, i), RunTo(cfg, workerModel, evs, j), id)
  {
    if i < j {
      RunLocksStay(cfg, workerModel, evs, i, j - 1, id);
      LocksStay(cfg, RunTo(cfg, workerModel, evs, i), RunTo(cfg, workerModel, evs, j - 1), evs[j - 1], id);
    }
  }

  /** Under any interleaving an id is claimed at most once, even after a re-split queued it again. */
  lemma ClaimedAtMostOnce(cfg: Config, workerModel: Option<string>, evs: seq<Event>, i: nat, j: nat)
    requires i < j < |evs| && evs[i].FinishClaim? && evs[j].FinishClaim? && evs[i].id == evs[j].id
    requires ReplyAt(cfg, workerModel, evs, i).ClaimedBy?
    ensures ReplyAt(cfg, workerModel, evs, j) == NothingPending
  {
    RunLocksStay(cfg, workerModel, evs, i + 1, j, evs[i].id);
  }

  /** `owner` holds the lock of `id`, which names it once it is stamped. */
  ghost predicate Owns(h: Harness, id: Id, owner: string, stamped: bool) {
    id in h.locks &&
    if stamped then h.locks[id] == Some(owner)
    else h.locks[id] == None && id in h.claiming && h.claiming[id] == owner
  }

  lemma OwnerStays(cfg: Config, h: Harness, ev: Event, id: Id, owner: string, stamped: bool)
    requires Owns(h, id, owner, stamped)
    ensures Owns(Step(cfg, h, ev).0, id, owner, stamped || ev == Stamp(id))
  {
    if ev.Split? && ev.id in h.tasks {
      EnqueueShape(h, ev.id, h.tasks[ev.id], ev.opts.workerModels, ev.breadth);
    }
  }

  ghost predicate StampedBetween(evs: seq<Event>, id: Id, i: nat, j: nat) {
    exists k: nat | i < k < j && k < |evs| :: evs[k] == Stamp(id)
  }

  lemma {:induction false} RunOwns(cfg: Config, workerModel: Option<string>, evs: seq<Event>, i: nat, j: nat)
    requires i < j <= |evs| && evs[i].Lock? && ReplyAt(cfg, workerModel, evs, i) == LockWon
    ensures Owns(RunTo(cfg, workerModel, evs, j), evs[i].id, evs[i].owner, StampedBetween(evs, evs[i].id, i, j))
  {
    if i < j - 1 {
      RunOwns(cfg, workerModel, evs, i, j - 1);
      OwnerStays(cfg, RunTo(cfg, workerModel, evs, j - 1), evs[j - 1], evs[i].id, evs[i].owner,
                 StampedBetween(evs, evs[i].id, i, j - 1));
    }
  }

  /** The lock is won once; a loser learns the winner's name if and only if the winner has written it. */
  lemma LosersLearnTheWinner(cfg: Config, workerModel: Option<string>, evs: seq<Event>, i: nat, j: nat)
    requires i < j < |evs| && evs[i].Lock? && evs[j].Lock? && evs[i].id == evs[j].id
    requires ReplyAt(cfg, workerModel, evs, i) == LockWon
    ensures ReplyAt(cfg, workerModel, evs, j) ==
      if StampedBetween(evs, evs[i].id, i, j) then ClaimConflict(evs[i].owner) else LockUnreadable
  {
    RunOwns(cfg, workerModel, evs, i, j);
  }

  ghost predicate WonBy(cfg: Config, workerModel: Option<string>, evs: seq<Event>, id: Id, owner: string, i: nat) {
    i < |evs| && evs[i] == Lock(id, owner) && ReplyAt(cfg, workerModel, evs, i) == LockWon
  }

  lemma {:induction false} LockWasWon(cfg: Config, workerModel: Option<string>, evs: seq<Event>, j: nat, id: Id)
    returns (i: nat)
    requires j <= |evs| && id in RunTo(cfg, workerModel, evs, j).locks
    ensures i < j && evs[i].Lock? && WonBy(cfg, workerModel, evs, id, evs[i].owner, i)
  {
    var h := RunTo(cfg, workerModel, evs, j - 1);
    if id in h.locks {
      i := LockWasWon(cfg, workerModel, evs, j - 1, id);
    } else {
      OnlyLockLocks(cfg, h, evs[j - 1], id);
      i := j - 1;
    }
  }

  lemma OnlyLockLocks(cfg: Config, h: Harness, ev: Event, id: Id)
    requires id !in h.locks && id in Step(cfg, h, ev).0.locks
    ensures ev.Lock? && ev.id == id && Step(cfg, h, ev).1 == LockWon
  {
    if ev.Split? && ev.id in h.tasks {
      EnqueueShape(h, ev.id, h.tasks[ev.id], ev.opts.workerModels, ev.breadth);
    }
  }

  /** A claim that succeeds was opened by the one Lock event that won the id's lock file. */
  lemma ClaimBelongsToLockWinner(cfg: Config, workerModel: Option<string>, evs: seq<Event>, j: nat, owner: string)
    returns (i: nat)
    requires j < |evs| && evs[j].FinishClaim? && ReplyAt(cfg, workerModel, evs, j) == ClaimedBy(owner)
    ensures i < j && WonBy(cfg, workerModel, evs, evs[j].id, owner, i)
  {
    i := LockWasWon(cfg, workerModel, evs, j, evs[j].id);
    RunOwns(cfg, workerModel, evs, i, j);
  }

  /** Queued, listed by its marker, and locked by a claim that is over. */
  predicate Stranded(h: Harness, id: Id) {
    id in h.tasks && h.tasks[id].status == Queued && id in h.queue && Held(h, id)
  }

  lemma StrandedStays(cfg: Config, h: Harness, ev: Event, id: Id)
    requires Stranded(h, id)
    ensures Stranded(Step(cfg, h, ev).0, id)
    ensures ev.id == id ==> Step(cfg, h, ev).0.tasks == h.tasks && !Step(cfg, h, ev).1.ClaimedBy?
  {
    if ev.Split? && ev.id in h.tasks {
      EnqueueShape(h, ev.id, h.tasks[ev.id], ev.opts.workerModels, ev.breadth);
    }
  }

  /** A split strands exactly those of its children that were claimed before: their lock files outlive it. */
  lemma SplitStrandsExactly(cfg: Config, h: Harness, ev: Event, c: nat)
    requires ev.Split? && Step(cfg, h, ev).1.Made? && 1 <= c <= ev.breadth
    ensures Stranded(Step(cfg, h, ev).0, ev.id + [c]) <==> Held(h, ev.id + [c])
  {
    EnqueueShape(h, ev.id, h.tasks[ev.id], ev.opts.workerModels, ev.breadth);
    assert IsChild(ev.id, ev.breadth, ev.id + [c]);
  }

  /** Section `i` of the run re-split `id` over a child `c` whose claim was over. */
  ghost predicate Resplits(cfg: Config, workerModel: Option<string>, evs: seq<Event>, i: nat, id: Id, c: nat) {
    i < |evs| && evs[i].Split? && evs[i].id == id && 1 <= c <= evs[i].breadth &&
    ReplyAt(cfg, workerModel, evs, i).Made? && Held(RunTo(cfg, workerModel, evs, i), id + [c])
  }

  /** One step strands a child exactly when it splits the parent over it after the child's claim. */
  lemma StrandStep(cfg: Config, h: Harness, ev: Event, id: Id, c: nat)
    ensures Stranded(Step(cfg, h, ev).0, id + [c]) <==>
      Stranded(h, id + [c]) ||
      (ev.Split? && ev.id == id && 1 <= c <= ev.breadth && Step(cfg, h, ev).1.Made? && Held(h, id + [c]))
  {
    if Stranded(h, id + [c]) {
      StrandedStays(cfg, h, ev, id + [c]);
    } else if ev.Split? && ev.id in h.tasks {
      EnqueueShape(h, ev.id, h.tasks[ev.id], ev.opts.workerModels, ev.breadth);
      assert (id + [c])[..|id|] == id;
    }
  }

  /**
   In every run a child is stranded (queued, listed, and locked by a claim that is over, so that nobody can ever
   claim it) if and only if its parent was split again after the child's claim was over.
   */
  lemma {:induction false} StrandedExactlyByResplit(cfg: Config, workerModel: Option<string>, evs: seq<Event>, j: nat,
                                                    id: Id, c: nat)
    requires j <= |evs|
    ensures Stranded(RunTo(cfg, workerModel, evs, j), id + [c]) <==>
      exists i: nat | i < j :: Resplits(cfg, workerModel, evs, i, id, c)
  {
    if j > 0 {
      StrandedExactlyByResplit(cfg, workerModel, evs, j - 1, id, c);
      StrandStep(cfg, RunTo(cfg, workerModel, evs, j - 1), evs[j - 1], id, c);
      assert Resplits(cfg, workerModel, evs, j - 1, id, c) <==>
        (evs[j - 1].Split? && evs[j - 1].id == id && 1 <= c <= evs[j - 1].breadth &&
         ReplyAt(cfg, workerModel, evs, j - 1).Made? && Held(RunTo(cfg, workerModel, evs, j - 1), id + [c]));
    }
  }

  // ---- A run that strands a child ------------------------------------------------------------------------

  const PLAIN := Options(1, [], true, false)

  /** Claim the root, split it, claim its child, split it again. */
  const RESPLIT_RUN: seq<Event> := [
    Lock([], "a"), Stamp([]), FinishClaim([]), Split([], 1, PLAIN),
    Lock([1], "b"), Stamp([1]), FinishClaim([1]), Split([], 1, PLAIN)]

  lemma ClaimRuns(cfg: Config, h: Harness, id: Id, owner: string)
    requires id in h.tasks && h.tasks[id].status == Queued && id !in h.locks && id !in h.claiming
    ensures var h1 := Step(cfg, h, Lock(id, owner)).0;
      var h3 := Step(cfg, Step(cfg, h1, Stamp(id)).0, FinishClaim(id)).0;
      h3.tasks == h.tasks[id := h.tasks[id].(status := Claimed)] && h3.locks == h.locks[id := Some(owner)] &&
      h3.claiming == h.claiming && h3.ledger == h.ledger && h3.queue == h.queue - {id}
  {
  }

  lemma RunNext(cfg: Config, workerModel: Option<string>, k: nat)
    requires k < |RESPLIT_RUN|
    ensures RunTo(cfg, workerModel, RESPLIT_RUN, k + 1) == Step(cfg, RunTo(cfg, workerModel, RESPLIT_RUN, k), RESPLIT_RUN[k]).0
  {
  }

  lemma ChildIsLost(cfg: Config, workerModel: Option<string>)
    ensures Resplits(cfg, workerModel, RESPLIT_RUN, 7, [], 1)
    ensures Stranded(Run(cfg, workerModel, RESPLIT_RUN), [1])
  {
    SecondClaim(cfg, workerModel);
    OneChild(cfg, RunTo(cfg, workerModel, RESPLIT_RUN, 7), PLAIN);
    assert [] + [1] == [1];
    StrandedExactlyByResplit(cfg, workerModel, RESPLIT_RUN, 8, [], 1);
  }

  lemma SecondClaim(cfg: Config, workerModel: Option<string>)
    ensures var h := RunTo(cfg, workerModel, RESPLIT_RUN, 7);
      [] in h.tasks && h.tasks[[]].status == Done && h.tasks[[]].depth == 0 && h.tasks[[]].resplitCount == 1 &&
      Held(h, [1])
  {
    FirstClaim(cfg, workerModel);
    OneChild(cfg, RunTo(cfg, workerModel, RESPLIT_RUN, 3), PLAIN);
    RunNext(cfg, workerModel, 3);
    RunNext(cfg, workerModel, 4);
    RunNext(cfg, workerModel, 5);
    RunNext(cfg, workerModel, 6);
    ClaimRuns(cfg, RunTo(cfg, workerModel, RESPLIT_RUN, 4), [1], "b");
  }

  lemma FirstClaim(cfg: Config, workerModel: Option<string>)
    ensures var h := RunTo(cfg, workerModel, RESPLIT_RUN, 3);
      [] in h.tasks && h.tasks[[]] == Task(0, 0, Claimed, workerModel) && h.locks == map[[] := Some("a")] &&
      h.claiming == map[]
  {
    RunNext(cfg, workerModel, 0);
    RunNext(cfg, workerModel, 1);
    RunNext(cfg, workerModel, 2);
    ClaimRuns(cfg, Initial(workerModel), [], "a");
  }

  /** Splitting the root one way, budget 1. */
  lemma OneChild(cfg: Config, h: Harness, opts: Options)
    requires [] in h.tasks && h.tasks[[]].status in {Claimed, Done} && h.tasks[[]].depth == 0
    requires h.tasks[[]].resplitCount < MAX_RESPLITS && opts == PLAIN
    ensures var (h', r) := SplitStep(cfg, h, [], 1, opts);
      r.Made? && [] in h'.tasks && [1] in h'.tasks && h'.tasks[[]].status == Done && h'.tasks[[]].depth == 0 &&
      h'.tasks[[]].resplitCount == h.tasks[[]].resplitCount + 1 && h'.tasks[[1]].status == Queued &&
      h'.locks == h.locks && h'.claiming == h.claiming
  {
    assert Pow(1, 1) == 1 * Pow(1, 0);
    EnqueueShape(h, [], h.tasks[[]], opts.workerModels, 1);
    assert IsChild([], 1, [1]);
  }

  // ---- The ledger tells the truth about splits ---------------------------------------------------------

  function SuccessfulSplits(cfg: Config, workerModel: Option<string>, evs: seq<Event>, n: nat): nat
    requires n <= |evs|
  {
    if n == 0 then 0
    else
      SuccessfulSplits(cfg, workerModel, evs, n - 1) + (if ReplyAt(cfg, workerModel, evs, n - 1).Made? then 1 else 0)
  }

  lemma SplitsAppend(ledger: seq<Line>, line: Line)
    ensures Splits(ledger + [line]) == Splits(ledger) + (if line.SplitLine? then 1 else 0)
  {
    assert (ledger + [line])[..|ledger|] == ledger;
  }

  /** A step logs at most one line, a split line exactly when it makes a split. */
  lemma StepLogs(cfg: Config, h: Harness, ev: Event)
    ensures var (h', r) := Step(cfg, h, ev);
      (h'.ledger == h.ledger && !r.Made?) ||
      exists line :: h'.ledger == h.ledger + [line] && (line.SplitLine? <==> r.Made?)
  {
    if ev.Split? && ev.id in h.tasks {
      EnqueueShape(h, ev.id, h.tasks[ev.id], ev.opts.workerModels, ev.breadth);
    }
  }

  lemma SplitsGrow(cfg: Config, h: Harness, ev: Event)
    ensures Splits(Step(cfg, h, ev).0.ledger) == Splits(h.ledger) + (if Step(cfg, h, ev).1.Made? then 1 else 0)
  {
    StepLogs(cfg, h, ev);
    var (h', r) := Step(cfg, h, ev);
    if h'.ledger != h.ledger {
      var line :| h'.ledger == h.ledger + [line] && (line.SplitLine? <==> r.Made?);
      SplitsAppend(h.ledger, line);
    }
  }

  lemma {:induction false} LedgerCountsSplits(cfg: Config, workerModel: Option<string>, evs: seq<Event>, n: nat)
    requires n <= |evs|
    ensures SuccessfulSplits(cfg, workerModel, evs, n) == Splits(RunTo(cfg, workerModel, evs, n).ledger)
  {
    if n == 0 {
      assert Splits(RunTo(cfg, workerModel, evs, 0).ledger) == 0;
    } else {
      OneMore(cfg, workerModel, evs, n);
      LedgerCountsSplits(cfg, workerModel, evs, n - 1);
    }
  }

  lemma OneMore(cfg: Config, workerModel: Option<string>, evs: seq<Event>, n: nat)
    requires 0 < n <= |evs|
    ensures Splits(RunTo(cfg, workerModel, evs, n).ledger) ==
      Splits(RunTo(cfg, workerModel, evs, n - 1).ledger) +
      (if ReplyAt(cfg, workerModel, evs, n - 1).Made? then 1 else 0)
  {
    var h := RunTo(cfg, workerModel, evs, n - 1);
    SplitsGrow(cfg, h, evs[n - 1]);
  }

  /** Splitting stops: no run, however long, makes more successful splits than the budget allows. */
  lemma SplittingStops(cfg: Config, workerModel: Option<string>, evs: seq<Event>, budget: nat)
    requires Within(budget, evs)
    ensures SuccessfulSplits(cfg, workerModel, evs, |evs|) <= MostSplits(budget)
    ensures budget == DEFAULT_BUDGET_MAX_AGENTS ==> SuccessfulSplits(cfg, workerModel, evs, |evs|) <= 643
  {
    LedgerCountsSplits(cfg, workerModel, evs, |evs|);
    SplitsAreBounded(cfg, workerModel, evs, budget);
    if budget == DEFAULT_BUDGET_MAX_AGENTS {
      DefaultBudgetBounds(cfg, workerModel, evs, budget);
    }
  }

  // ---- The files, updated in place ---------------------------------------------------------------------

  lemma UsableAppend(cfg: Config, models: seq<Option<string>>, m: Option<string>)
    ensures Usable(cfg, models + [m]) == Usable(cfg, models) + Usable(cfg, [m])
  {
    if models != [] {
      assert (models + [m])[1..] == models[1..] + [m];
      UsableAppend(cfg, models[1..], m);
    } else {
      assert models + [m] == [m];
    }
  }

  class HarnessFiles {
    var tasks: map<Id, Task>
    var locks: map<Id, Option<string>>
    var queue: set<Id>
    var ledger: seq<Line>
    ghost var claiming: map<Id, string>

    ghost function State(): Harness
      reads this
    {
      Harness(tasks, locks, claiming, queue, ledger)
    }

    constructor (workerModel: Option<string>)
      ensures State() == Initial(workerModel)
    {
      tasks := map[[] := Task(0, 0, Queued, workerModel)];
      locks := map[];
      queue := {[]};
      ledger := [];
      claiming := map[];
    }

    method CreateLock(id: Id, owner: string) returns (won: bool)
      modifies this
      ensures State() == LockStep(old(State()), id, owner).0
      ensures won <==> LockStep(old(State()), id, owner).1 == LockWon
    {
      won := id !in locks;
      if won {
        locks := locks[id := None];
        claiming := claiming[id := owner];
      }
    }

    /** From now on whoever tries to claim the task is refused in the winner's name. */
    method StampLock(id: Id, owner: string)
      requires id in locks && locks[id].None? && id in claiming && claiming[id] == owner
      modifies this
      ensures State() == StampStep(old(State()), id).0
      ensures forall who :: LockStep(State(), id, who) == (State(), ClaimConflict(owner))
    {
      locks := locks[id := Some(owner)];
    }

    /** The rest of a claim, run only by the claimant whose CreateLock won, once it has stamped the lock. */
    method FinishClaim(id: Id) returns (r: Reply)
      requires id in claiming && id in locks && locks[id].Some?
      modifies this
      ensures (State(), r) == FinishClaimStep(old(State()), id)
    {
      claiming := claiming - {id};
      if id !in tasks {
        return NoSuchTask;
      }
      var t := tasks[id];
      if t.status != Queued {
        return NotQueued;
      }
      t := t.(status := Claimed);
      tasks := tasks[id := t];
      queue := queue - {id};
      r := ClaimedBy(locks[id].value);
    }

    method Report(id: Id, chars: nat) returns (r: Reply)
      modifies this
      ensures (State(), r) == ReportStep(old(State()), id, chars)
    {
      if id !in tasks {
        return NoSuchTask;
      }
      var t := tasks[id];
      if t.status != Claimed {
        return WrongStatus;
      }
      if chars > MAX_REPORT_CHARS {
        return OversizedReport;
      }
      t := t.(status := Done);
      tasks := tasks[id := t];
      ledger := ledger + [ReportLine(id, t.resplitCount)];
      r := Accepted;
    }

    method Verify(cfg: Config, id: Id, passed: bool, reviewer: string, worker: string, reason: string, normalize: bool)
      returns (r: Reply)
      modifies this
      ensures (State(), r) == VerifyStep(cfg, old(State()), id, passed, reviewer, worker, reason, normalize)
    {
      if id !in tasks {
        return NoSuchTask;
      }
      var t := tasks[id];
      if t.status != Done {
        return WrongStatus;
      }
      if reason == "" {
        return NoReason;
      }
      if ModelsEqual(cfg, normalize, reviewer, worker) {
        return CorrelatedBlindness;
      }
      if t.workerModel.Some? && t.workerModel.value != "" && !ModelsEqual(cfg, normalize, t.workerModel.value, worker) {
        return WorkerMismatch;
      }
      t := t.(status := if passed then Verified else Failed);
      tasks := tasks[id := t];
      ledger := ledger + [VerifyLine(id, passed)];
      r := Accepted;
    }

    method SplitOnce(cfg: Config, id: Id, breadth: nat, opts: Options) returns (r: Reply)
      modifies this
      ensures (State(), r) == SplitStep(cfg, old(State()), id, breadth, opts)
    {
      if id !in tasks {
        return NoSuchTask;
      }
      var t := tasks[id];
      if t.status != Claimed && t.status != Done && t.status != Failed {
        return WrongStatus;
      }
      if breadth == 0 {
        return NoChildren;
      }
      var usable := UsableModels(cfg, opts.workerModels);
      if breadth > 1 && |usable| > 0 {
        if |usable| < breadth {
          return HomogeneousAssignment;
        }
        if opts.requireHetero && |Distinct(cfg, opts.normalize, usable)| < 2 {
          return HomogeneousAssignment;
        }
      }
      if t.resplitCount >= MAX_RESPLITS {
        tasks := tasks[id := t.(status := Failed)];
        ledger := ledger + [ReportLine(id, t.resplitCount)];
        return SpiralStop;
      }
      if Pow(breadth, t.depth + 1) > opts.budgetMax {
        return BudgetExceeded;
      }
      EnqueueAll(id, t, breadth, opts.workerModels);
      tasks := tasks[id := t.(resplitCount := t.resplitCount + 1, status := Done)];
      ledger := ledger + [SplitLine(id, t.resplitCount + 1)];
      r := Made(breadth);
    }

    method EnqueueAll(id: Id, t: Task, breadth: nat, models: seq<Option<string>>)
      modifies this
      ensures State() == EnqueueChildren(old(State()), id, t, models, breadth)
    {
      for i := 0 to breadth
        invariant State() == EnqueueChildren(old(State()), id, t, models, i)
      {
        Enqueue(id + [i + 1], Child(t, models, i));
      }
    }

    method Enqueue(id: Id, task: Task)
      modifies this
      ensures State() == old(State()).(tasks := old(tasks)[id := task.(status := Queued)], queue := old(queue) + {id})
    {
      tasks := tasks[id := task.(status := Queued)];
      queue := queue + {id};
    }

    static method UsableModels(cfg: Config, models: seq<Option<string>>) returns (usable: seq<string>)
      ensures usable == Usable(cfg, models)
    {
      usable := [];
      for i := 0 to |models|
        invariant usable == Usable(cfg, models[..i])
      {
        UsableAppend(cfg, models[..i], models[i]);
        assert models[..i + 1] == models[..i] + [models[i]];
        if models[i].Some? && !cfg.blank(models[i].value) {
          usable := usable + [models[i].value];
        }
      }
      assert models[..|models|] == models;
    }
  }
}
