/**
 The rules of the splitting loop, each stated without the step that follows it: when a claim, report, verdict or split
 is accepted, what it then leaves, and what the files of a whole run say.
 */
module SplitRules {
  import opened SplitLoop
  import opened TreeBounds
  import opened Wrappers

  // ---- Claims, reports and verdicts --------------------------------------------------------------

  /** Every task file but that of `id`, and every lock and claim, is as it was. */
  ghost predicate OnlyTask(h: Harness, h': Harness, id: Id) {
    h'.tasks.Keys == h.tasks.Keys && h'.locks == h.locks && (forall x | x in h.tasks && x != id :: h'.tasks[x] == h.tasks[x])
  }

  /** `id` went from `before` to `after`, and nothing else in its file or another changed. */
  ghost predicate Moved(h: Harness, h': Harness, id: Id, before: Status, after: Status) {
    OnlyTask(h, h', id) && id in h.tasks && h.tasks[id].status == before && h'.tasks[id].status == after &&
    h'.tasks[id].depth == h.tasks[id].depth && h'.tasks[id].resplitCount == h.tasks[id].resplitCount &&
    h'.tasks[id].workerModel == h.tasks[id].workerModel
  }

  /** A claim succeeds exactly for the winner of the lock, once stamped, on a task still queued. */
  lemma ClaimExactly(cfg: Config, h: Harness, id: Id, owner: string)
    ensures var (h', r) := Step(cfg, h, FinishClaim(id));
      (r == ClaimedBy(owner) <==>
         id in h.claiming && id in h.locks && h.locks[id] == Some(owner) && id in h.tasks && h.tasks[id].status == Queued) &&
      (r == ClaimedBy(owner) ==>
         Moved(h, h', id, Queued, Claimed) && h'.queue == h.queue - {id} && h'.ledger == h.ledger && Held(h', id)) &&
      (!r.ClaimedBy? ==> h' == h.(claiming := h'.claiming))
  {
  }

  /** A report is accepted exactly for a claimed task and at most 2000 characters; it is then done, with one line. */
  lemma ReportExactly(cfg: Config, h: Harness, id: Id, chars: nat)
    ensures var (h', r) := Step(cfg, h, Report(id, chars));
      (r == Accepted <==> id in h.tasks && h.tasks[id].status == Claimed && chars <= 2000) &&
      (r == OversizedReport <==> id in h.tasks && h.tasks[id].status == Claimed && chars > 2000) &&
      (r == Accepted ==>
         Moved(h, h', id, Claimed, Done) && h'.queue == h.queue && h'.claiming == h.claiming &&
         h'.ledger == h.ledger + [ReportLine(id, h.tasks[id].resplitCount)]) &&
      (r != Accepted ==> h' == h)
  {
  }

  /** The same model, as written or as normalised. */
  predicate Same(cfg: Config, normalize: bool, a: string, b: string) {
    a == b || (normalize && cfg.norm(a) == cfg.norm(b))
  }

  /** A task is given to a worker by name. */
  predicate GivenTo(t: Task, model: string) { t.workerModel == Some(model) && model != "" }

  /** Another model gives a reason, and the worker is the one assigned, if one was. */
  ghost predicate FairVerdict(cfg: Config, t: Task, reviewer: string, worker: string, reason: string, normalize: bool) {
    reason != "" && !Same(cfg, normalize, reviewer, worker) &&
    forall model | GivenTo(t, model) :: Same(cfg, normalize, model, worker)
  }

  /**
   A verdict is accepted exactly on a reported task, with a reason, from another model than the worker's, and about
   the worker assigned; then the task passed if and only if the verdict did, and one line records it.
   */
  lemma VerifyExactly(cfg: Config, h: Harness, id: Id, passed: bool, reviewer: string, worker: string, reason: string,
                      normalize: bool)
    ensures var (h', r) := Step(cfg, h, Verify(id, passed, reviewer, worker, reason, normalize));
      (r == Accepted <==>
         id in h.tasks && h.tasks[id].status == Done && FairVerdict(cfg, h.tasks[id], reviewer, worker, reason, normalize)) &&
      (r == CorrelatedBlindness ==> Same(cfg, normalize, reviewer, worker)) &&
      (r == WorkerMismatch ==> exists model :: GivenTo(h.tasks[id], model) && !Same(cfg, normalize, model, worker)) &&
      (r == Accepted ==>
         (passed ==> Moved(h, h', id, Done, Verified)) && (!passed ==> Moved(h, h', id, Done, Failed)) &&
         h'.queue == h.queue && h'.claiming == h.claiming && h'.ledger == h.ledger + [VerifyLine(id, passed)]) &&
      (r != Accepted ==> h' == h)
  {
    if id in h.tasks && h.tasks[id].workerModel.Some? && h.tasks[id].workerModel.value != "" {
      assert GivenTo(h.tasks[id], h.tasks[id].workerModel.value);
    }
  }

  // ---- Worker models of a sibling set ---------------------------------------------------------------

  predicate Names(cfg: Config, models: seq<Option<string>>, i: nat) {
    i < |models| && models[i].Some? && !cfg.blank(models[i].value)
  }

  function NamedPlaces(cfg: Config, models: seq<Option<string>>): set<nat> {
    set i: nat | i < |models| && Names(cfg, models, i)
  }

  ghost predicate Listed(cfg: Config, models: seq<Option<string>>, name: string) {
    exists i: nat :: Names(cfg, models, i) && models[i].value == name
  }

  /** The usable models are those listed at the named places, one for each. */
  lemma {:induction false} UsableMeaning(cfg: Config, models: seq<Option<string>>, name: string)
    ensures |Usable(cfg, models)| == |NamedPlaces(cfg, models)|
    ensures name in Usable(cfg, models) <==> Listed(cfg, models, name)
  {
    if models == [] {
      assert NamedPlaces(cfg, models) == {} && !Listed(cfg, models, name);
    } else {
      var (front, last) := (models[..|models| - 1], models[|models| - 1]);
      assert models == front + [last];
      UsableMeaning(cfg, front, name);
      UsableAppend(cfg, front, last);
      assert [last][1..] == [];
      var places := NamedPlaces(cfg, front);
      assert NamedPlaces(cfg, models) == if Names(cfg, models, |front|) then places + {|front|} else places;
      ListedGrows(cfg, front, last, name);
    }
  }

  lemma ListedGrows(cfg: Config, front: seq<Option<string>>, last: Option<string>, name: string)
    ensures Listed(cfg, front + [last], name) <==>
      Listed(cfg, front, name) || (last == Some(name) && !cfg.blank(name))
  {
    var models := front + [last];
    if Listed(cfg, front, name) {
      var i: nat :| Names(cfg, front, i) && front[i].value == name;
      assert Names(cfg, models, i) && models[i].value == name;
    } else if Listed(cfg, models, name) {
      var i: nat :| Names(cfg, models, i) && models[i].value == name;
      assert i < |front| ==> Names(cfg, front, i);
    } else {
      assert Names(cfg, models, |front|) <==> last.Some? && !cfg.blank(last.value);
    }
  }

  /** All listed models are the same one. */
  ghost predicate AllSame(cfg: Config, normalize: bool, models: seq<Option<string>>) {
    forall a, b | Listed(cfg, models, a) && Listed(cfg, models, b) :: Same(cfg, normalize, a, b)
  }

  function NameOf(cfg: Config, normalize: bool, model: string): string { if normalize then cfg.norm(model) else model }

  /** Two names in `names` would be those of two listed models that are not the same. */
  lemma NamesDiffer(cfg: Config, normalize: bool, models: seq<Option<string>>, names: set<string>)
    requires forall m :: Listed(cfg, models, m) ==> NameOf(cfg, normalize, m) in names
    requires forall n | n in names :: exists m :: Listed(cfg, models, m) && NameOf(cfg, normalize, m) == n
    ensures (forall a, b | a in names && b in names :: a == b) <==> AllSame(cfg, normalize, models)
  {
    if AllSame(cfg, normalize, models) {
      forall a, b | a in names && b in names ensures a == b {
        var a0 :| Listed(cfg, models, a0) && NameOf(cfg, normalize, a0) == a;
        var b0 :| Listed(cfg, models, b0) && NameOf(cfg, normalize, b0) == b;
        assert Same(cfg, normalize, a0, b0);
      }
    } else {
      var a, b :| Listed(cfg, models, a) && Listed(cfg, models, b) && !Same(cfg, normalize, a, b);
      assert NameOf(cfg, normalize, a) != NameOf(cfg, normalize, b);
    }
  }

  lemma DistinctMeaning(cfg: Config, normalize: bool, models: seq<Option<string>>)
    ensures |Distinct(cfg, normalize, Usable(cfg, models))| < 2 <==> AllSame(cfg, normalize, models)
  {
    var names := Distinct(cfg, normalize, Usable(cfg, models));
    forall m ensures m in Usable(cfg, models) <==> Listed(cfg, models, m) {
      UsableMeaning(cfg, models, m);
    }
    forall m ensures Listed(cfg, models, m) ==> NameOf(cfg, normalize, m) in names {
    }
    AtMostOne(names);
    NamesDiffer(cfg, normalize, models, names);
  }

  /** Models are named, but not for every one of several children, or one model serves all that must differ. */
  ghost predicate TooAlike(cfg: Config, breadth: nat, opts: Options) {
    breadth >= 2 && NamedPlaces(cfg, opts.workerModels) != {} &&
    (|NamedPlaces(cfg, opts.workerModels)| < breadth ||
     (opts.requireHetero && AllSame(cfg, opts.normalize, opts.workerModels)))
  }

  lemma HomogeneousMeaning(cfg: Config, breadth: nat, opts: Options)
    ensures Homogeneous(cfg, breadth, opts) <==> TooAlike(cfg, breadth, opts)
  {
    UsableMeaning(cfg, opts.workerModels, "");
    DistinctMeaning(cfg, opts.normalize, opts.workerModels);
  }

  // ---- Splits ------------------------------------------------------------------------------------------

  /** A task that was claimed, and not yet verified, may be split. */
  predicate Splittable(h: Harness, id: Id) {
    id in h.tasks && h.tasks[id].status in {Claimed, Done, Failed}
  }

  /** The model a split gives its `i`-th child. */
  function ModelOf(models: seq<Option<string>>, i: nat): Option<string> {
    if i < |models| && models[i] != Some("") then models[i] else None
  }

  /** The id of the `i`-th child, counted from 0. */
  function Nth(id: Id, i: nat): Id { id + [i + 1] }

  /** The `i`-th child is queued one deeper and with one re-split more than its parent had. */
  ghost predicate ChildMade(h: Harness, h': Harness, id: Id, models: seq<Option<string>>, i: nat) {
    var x := Nth(id, i);
    id in h.tasks && x in h'.tasks && x in h'.queue &&
    h'.tasks[x] == Task(h.tasks[id].depth + 1, h.tasks[id].resplitCount + 1, Queued, ModelOf(models, i))
  }

  /** The tasks that `id` may get by a split of width `n`. */
  ghost predicate IsNumbered(id: Id, n: nat, x: Id) { exists i: nat | i < n :: x == Nth(id, i) }

  ghost predicate SplitMade(h: Harness, h': Harness, id: Id, breadth: nat, models: seq<Option<string>>) {
    id in h.tasks && id in h'.tasks &&
    h'.tasks[id] == h.tasks[id].(resplitCount := h.tasks[id].resplitCount + 1, status := Done) &&
    (forall i: nat | i < breadth :: ChildMade(h, h', id, models, i)) &&
    (forall x | x != id && !IsNumbered(id, breadth, x) :: x in h'.tasks <==> x in h.tasks) &&
    (forall x | x in h.tasks && x != id && !IsNumbered(id, breadth, x) :: h'.tasks[x] == h.tasks[x]) &&
    (forall x | !IsNumbered(id, breadth, x) :: x in h'.queue <==> x in h.queue) &&
    h'.locks == h.locks && h'.claiming == h.claiming &&
    h'.ledger == h.ledger + [SplitLine(id, h.tasks[id].resplitCount + 1)]
  }

  lemma NumberedIsChild(id: Id, n: nat, x: Id)
    ensures IsNumbered(id, n, x) <==> IsChild(id, n, x)
  {
    if IsChild(id, n, x) {
      assert x == x[..|id|] + [x[|id|]];
      assert x == Nth(id, x[|id|] - 1);
    }
  }

  lemma EnqueuedChild(h: Harness, id: Id, t: Task, models: seq<Option<string>>, n: nat, i: nat)
    requires i < n
    ensures var r := EnqueueChildren(h, id, t, models, n);
      Nth(id, i) in r.tasks && Nth(id, i) in r.queue &&
      r.tasks[Nth(id, i)] == Task(t.depth + 1, t.resplitCount + 1, Queued, ModelOf(models, i))
  {
    EnqueueShape(h, id, t, models, n);
    assert IsChild(id, n, Nth(id, i)) && Nth(id, i)[|id|] == i + 1;
  }

  lemma EnqueuedOther(h: Harness, id: Id, t: Task, models: seq<Option<string>>, n: nat, x: Id)
    requires !IsNumbered(id, n, x)
    ensures var r := EnqueueChildren(h, id, t, models, n);
      (x in r.tasks <==> x in h.tasks) && (x in r.queue <==> x in h.queue) && (x in h.tasks ==> r.tasks[x] == h.tasks[x])
  {
    EnqueueShape(h, id, t, models, n);
    NumberedIsChild(id, n, x);
  }

  /**
   A split is refused for the first of: unknown, queued or verified; no children; too alike; and over the budget. A
   task split three times already fails instead, with a line. Everything else is split, into exactly its children.
   */
  lemma SplitExactly(cfg: Config, h: Harness, id: Id, breadth: nat, opts: Options)
    ensures var (h', r) := Step(cfg, h, Split(id, breadth, opts));
      var fit := Splittable(h, id) && breadth > 0 && !TooAlike(cfg, breadth, opts);
      (r == NoChildren <==> Splittable(h, id) && breadth == 0) &&
      (r == HomogeneousAssignment <==> Splittable(h, id) && breadth > 0 && TooAlike(cfg, breadth, opts)) &&
      (r == SpiralStop <==> fit && h.tasks[id].resplitCount >= 3) &&
      (r == BudgetExceeded <==>
         fit && h.tasks[id].resplitCount < 3 && Pow(breadth, h.tasks[id].depth + 1) > opts.budgetMax) &&
      (r.Made? <==> fit && h.tasks[id].resplitCount < 3 && Pow(breadth, h.tasks[id].depth + 1) <= opts.budgetMax) &&
      (r.Made? ==> r.children == breadth && SplitMade(h, h', id, breadth, opts.workerModels)) &&
      (r == SpiralStop ==>
         Moved(h, h', id, h.tasks[id].status, Failed) && h'.queue == h.queue && h'.claiming == h.claiming &&
         h'.ledger == h.ledger + [ReportLine(id, h.tasks[id].resplitCount)]) &&
      (!r.Made? && r != SpiralStop ==> h' == h)
  {
    HomogeneousMeaning(cfg, breadth, opts);
    if SplitStep(cfg, h, id, breadth, opts).1.Made? {
      SplitIsMade(cfg, h, id, breadth, opts);
    }
  }

  lemma SplitIsMade(cfg: Config, h: Harness, id: Id, breadth: nat, opts: Options)
    requires SplitStep(cfg, h, id, breadth, opts).1.Made?
    ensures SplitMade(h, SplitStep(cfg, h, id, breadth, opts).0, id, breadth, opts.workerModels)
  {
    NotItsOwnChild(id, breadth);
    var (h', t) := (SplitStep(cfg, h, id, breadth, opts).0, h.tasks[id]);
    EnqueueShape(h, id, t, opts.workerModels, breadth);
    forall i: nat | i < breadth ensures ChildMade(h, h', id, opts.workerModels, i) {
      EnqueuedChild(h, id, t, opts.workerModels, breadth, i);
      assert IsNumbered(id, breadth, Nth(id, i));
    }
    forall x | !IsNumbered(id, breadth, x)
      ensures (x in h'.tasks <==> x in h.tasks) && (x in h'.queue <==> x in h.queue) &&
              (x in h.tasks && x != id ==> h'.tasks[x] == h.tasks[x])
    {
      EnqueuedOther(h, id, t, opts.workerModels, breadth, x);
    }
  }

  lemma NotItsOwnChild(id: Id, n: nat)
    ensures !IsNumbered(id, n, id)
  {
    forall i: nat ensures Nth(id, i) != id {
      assert |Nth(id, i)| == |id| + 1;
    }
  }

  // ---- What the files of a run say ---------------------------------------------------------------------

  /** The marker of a task is in the queue exactly while the task waits to be claimed. */
  ghost predicate QueueIsQueued(h: Harness) {
    forall id :: id in h.queue <==> id in h.tasks && h.tasks[id].status == Queued
  }

  lemma QueueKept(cfg: Config, h: Harness, ev: Event)
    requires QueueIsQueued(h)
    ensures QueueIsQueued(Step(cfg, h, ev).0)
  {
    if ev.Split? && SplitStep(cfg, h, ev.id, ev.breadth, ev.opts).1.Made? {
      EnqueueShape(h, ev.id, h.tasks[ev.id], ev.opts.workerModels, ev.breadth);
    }
  }

  /** In every run the queue lists exactly the tasks that wait, those a re-split queued again included. */
  lemma {:induction false} QueueListsWaiting(cfg: Config, workerModel: Option<string>, evs: seq<Event>, n: nat)
    requires n <= |evs|
    ensures QueueIsQueued(RunTo(cfg, workerModel, evs, n))
  {
    if n > 0 {
      QueueListsWaiting(cfg, workerModel, evs, n - 1);
      QueueKept(cfg, RunTo(cfg, workerModel, evs, n - 1), evs[n - 1]);
    }
  }

  /** Event `i` was a verdict on `id` that passed. */
  ghost predicate Passes(cfg: Config, workerModel: Option<string>, evs: seq<Event>, i: nat, id: Id) {
    i < |evs| && evs[i].Verify? && evs[i].id == id && evs[i].passed && ReplyAt(cfg, workerModel, evs, i) == Accepted
  }

  /** Event `k` split the parent of `id` over it. */
  ghost predicate Replaces(cfg: Config, workerModel: Option<string>, evs: seq<Event>, k: nat, id: Id) {
    k < |evs| && evs[k].Split? && ReplyAt(cfg, workerModel, evs, k).Made? && IsNumbered(evs[k].id, evs[k].breadth, id)
  }

  /** Event `i` passed `id`, and no event after it and before `n` replaced it. */
  ghost predicate PassedSince(cfg: Config, workerModel: Option<string>, evs: seq<Event>, i: nat, n: nat, id: Id) {
    Passes(cfg, workerModel, evs, i, id) && forall k: nat | i < k < n :: !Replaces(cfg, workerModel, evs, k, id)
  }

  ghost predicate PassStands(cfg: Config, workerModel: Option<string>, evs: seq<Event>, n: nat, id: Id) {
    exists i: nat | i < n :: PassedSince(cfg, workerModel, evs, i, n, id)
  }

  predicate IsVerified(h: Harness, id: Id) { id in h.tasks && h.tasks[id].status == Verified }

  lemma VerifiedStep(cfg: Config, h: Harness, ev: Event, id: Id)
    ensures var (h', r) := Step(cfg, h, ev);
      IsVerified(h', id) <==>
        (ev.Verify? && ev.id == id && ev.passed && r == Accepted) ||
        (IsVerified(h, id) && !(ev.Split? && r.Made? && IsNumbered(ev.id, ev.breadth, id)))
  {
    if ev.Split? {
      SplitExactly(cfg, h, ev.id, ev.breadth, ev.opts);
      if Step(cfg, h, ev).1.Made? && IsNumbered(ev.id, ev.breadth, id) {
        var i: nat :| i < ev.breadth && id == Nth(ev.id, i);
        assert ChildMade(h, Step(cfg, h, ev).0, ev.id, ev.opts.workerModels, i);
      }
    }
  }

  /**
   In every run a task is verified if and only if a fair verdict passed it and its parent was not split over it since:
   no claim, report, later verdict or split of its own takes that back.
   */
  lemma {:induction false} VerifiedWasPassed(cfg: Config, workerModel: Option<string>, evs: seq<Event>, n: nat, id: Id)
    requires n <= |evs|
    ensures IsVerified(RunTo(cfg, workerModel, evs, n), id) <==> PassStands(cfg, workerModel, evs, n, id)
  {
    if n > 0 {
      VerifiedWasPassed(cfg, workerModel, evs, n - 1, id);
      VerifiedStep(cfg, RunTo(cfg, workerModel, evs, n - 1), evs[n - 1], id);
      PassStandsStill(cfg, workerModel, evs, n - 1, n, id);
    }
  }

  lemma PassStandsStill(cfg: Config, workerModel: Option<string>, evs: seq<Event>, last: nat, n: nat, id: Id)
    requires last < |evs| && n == last + 1
    ensures PassStands(cfg, workerModel, evs, n, id) <==>
      Passes(cfg, workerModel, evs, last, id) ||
      (!Replaces(cfg, workerModel, evs, last, id) && PassStands(cfg, workerModel, evs, last, id))
  {
    if PassStands(cfg, workerModel, evs, n, id) {
      var i: nat :| i < n && PassedSince(cfg, workerModel, evs, i, n, id);
      assert i < last ==> PassedSince(cfg, workerModel, evs, i, last, id);
    }
    PassStandsOn(cfg, workerModel, evs, last, n, id);
  }

  lemma PassStandsOn(cfg: Config, workerModel: Option<string>, evs: seq<Event>, last: nat, n: nat, id: Id)
    requires last < |evs| && n == last + 1
    ensures Passes(cfg, workerModel, evs, last, id) ==> PassStands(cfg, workerModel, evs, n, id)
    ensures PassStands(cfg, workerModel, evs, last, id) && !Replaces(cfg, workerModel, evs, last, id) ==>
      PassStands(cfg, workerModel, evs, n, id)
  {
    if PassStands(cfg, workerModel, evs, last, id) && !Replaces(cfg, workerModel, evs, last, id) {
      var i: nat :| i < last && PassedSince(cfg, workerModel, evs, i, last, id);
      PassedStill(cfg, workerModel, evs, i, last, n, id);
    }
    if Passes(cfg, workerModel, evs, last, id) {
      assert PassedSince(cfg, workerModel, evs, last, n, id);
    }
  }

  lemma PassedStill(cfg: Config, workerModel: Option<string>, evs: seq<Event>, i: nat, last: nat, n: nat, id: Id)
    requires n == last + 1 && i < last && PassedSince(cfg, workerModel, evs, i, last, id)
    requires !Replaces(cfg, workerModel, evs, last, id)
    ensures PassedSince(cfg, workerModel, evs, i, n, id)
  {
  }
}
