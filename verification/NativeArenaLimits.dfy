/**
 The node bound of NativeArena is exact: for all caps there is a run that creates as many nodes below one root as the
 bound allows. Hence the per-tree budget bounds the size of every tree exactly when the bound itself is within it.
 */
module NativeArenaLimits {
  import opened NativeArena
  import opened Runs
  import opened TreeBounds

  function Stepper(cfg: Config): (Arena, Event) -> Arena {
    (a, ev) => Step(cfg, a, ev).0
  }

  lemma ReachesIsRun(cfg: Config, evs: seq<Event>, a: Arena)
    requires Reaches(Stepper(cfg), EMPTY, evs, a)
    ensures Run(cfg, evs) == a
  {
    var states :| Path(Stepper(cfg), evs, states) && states[0] == EMPTY && states[|evs|] == a;
    PathIsRun(cfg, evs, states, |evs|);
  }

  lemma {:induction false} PathIsRun(cfg: Config, evs: seq<Event>, states: seq<Arena>, n: nat)
    requires Path(Stepper(cfg), evs, states) && states[0] == EMPTY && n <= |evs|
    ensures RunTo(cfg, evs, n) == states[n]
  {
    if n > 0 {
      PathIsRun(cfg, evs, states, n - 1);
      assert states[n] == Stepper(cfg)(states[n - 1], evs[n - 1]);
    }
  }

  // ---- One split ------------------------------------------------------------------------------------

  /** A criterion that may run and two models that differ. */
  ghost predicate Usable(cfg: Config, word: string, models: seq<string>) {
    !cfg.destructive(word) && |models| >= 2 && models[0] != models[1]
  }

  function Words(word: string, n: nat): seq<string> { seq(n, i => word) }

  function Part(id: Id, w: nat, word: string, models: seq<string>): Event { Split(id, Words(word, w), models) }

  predicate Fresh(a: Arena, id: Id) {
    id in a.nodes && a.nodes[id].depth == a.nodes[id].resplitCount == |id| - 1 && !a.nodes[id].alreadySplit &&
    !a.nodes[id].atomic
  }

  predicate ChildOf(id: Id, x: Id) { |x| == |id| + 1 && x[..|id|] == id }

  /** What splitting `id` `w` ways does: its children are queued, every other node stays. */
  ghost predicate SplitOf(a: Arena, a': Arena, id: Id, w: nat) {
    a'.dayUsed == a.dayUsed && (forall x | x in a.nodes :: x in a'.nodes) &&
    (forall x | x in a.nodes && x != id :: a'.nodes[x] == a.nodes[x]) &&
    (forall x | x in a'.nodes && x !in a.nodes :: ChildOf(id, x)) &&
    (forall x | ChildOf(id, x) && x[|id|] in Labels(Name, w) :: Fresh(a', x))
  }

  lemma {:induction false} ScreenPassesAll(cfg: Config, criteria: seq<string>, models: seq<string>, n: nat)
    requires n <= |criteria| && forall k | 0 <= k < n :: !cfg.destructive(criteria[k])
    ensures |Screen(cfg, criteria, models, n)| == n
    ensures forall k | 0 <= k < n :: Screen(cfg, criteria, models, n)[k] == Job(criteria[k], Dealt(models, k))
  {
    if n > 0 {
      ScreenPassesAll(cfg, criteria, models, n - 1);
    }
  }

  lemma TwoModels(jobs: seq<Job>, one: string, other: string)
    requires |jobs| >= 2 && jobs[0].model == one && jobs[1].model == other && one != other
    ensures |Models(jobs)| >= 2
  {
    SubsetSize({one, other}, Models(jobs));
  }

  lemma FirstTwo(models: seq<string>)
    requires |models| >= 2
    ensures Dealt(models, 0) == models[0] && Dealt(models, 1) == models[1]
  {
    SmallRemainder(1, |models|);
  }

  lemma SmallRemainder(k: nat, n: nat)
    requires k < n
    ensures k % n == k && 0 % n == 0
  {
  }

  lemma DealtTwo(cfg: Config, criteria: seq<string>, models: seq<string>)
    requires |models| >= 2 && models[0] != models[1] && |criteria| >= 2
    requires forall k | 0 <= k < |criteria| :: !cfg.destructive(criteria[k])
    ensures |Models(Screen(cfg, criteria, models, |criteria|))| >= 2
  {
    ScreenPassesAll(cfg, criteria, models, |criteria|);
    FirstTwo(models);
    TwoModels(Screen(cfg, criteria, models, |criteria|), models[0], models[1]);
  }

  lemma SplitAllowed(cfg: Config, a: Arena, id: Id, criteria: seq<string>, models: seq<string>)
    requires Fresh(a, id) && a.dayUsed == 0 && |id| <= 3 && |models| >= 2 && models[0] != models[1]
    requires |criteria| >= 1 && Affordable(cfg, |criteria|, |id|)
    requires forall k | 0 <= k < |criteria| :: !cfg.destructive(criteria[k])
    ensures Allows(SplitStep(cfg, a, id, criteria, models).1)
    ensures |Screen(cfg, criteria, models, |criteria|)| == |criteria|
  {
    var (jobs, node) := (Screen(cfg, criteria, models, |criteria|), a.nodes[id]);
    ScreenPassesAll(cfg, criteria, models, |criteria|);
    if |criteria| >= 2 {
      DealtTwo(cfg, criteria, models);
    }
    AllowedExactly(cfg, node.depth, |criteria|, node.resplitCount, node.atomic, node.alreadySplit, Models(jobs), a.dayUsed);
    SplitVerdict(cfg, a, id, criteria, models);
  }

  lemma ChildFresh(a: Arena, a': Arena, id: Id, jobs: seq<Job>, x: Id)
    requires SplitShape(a, a', id, jobs) && Fresh(a, id)
    requires ChildOf(id, x) && x !in a.nodes && x[|id|] in Labels(Name, |jobs|)
    ensures Fresh(a', x)
  {
    var i: nat :| i < |jobs| && x[|id|] == Name(i);
    var parent := Committed(a.nodes[id]);
    assert x == id + [Name(i)];
    AddsEach(a.nodes[id := parent], id, parent, jobs, |jobs|, i);
    AfterSplit(a, a', id, jobs, x);
  }

  lemma SplitGoes(cfg: Config, a: Arena, id: Id, w: nat, word: string, models: seq<string>)
    requires Usable(cfg, word, models) && Fresh(a, id) && a.dayUsed == 0
    requires |id| <= 3 && w >= 1 && Affordable(cfg, w, |id|)
    requires forall x | x in a.nodes :: !ChildOf(id, x)
    ensures SplitOf(a, SplitStep(cfg, a, id, Words(word, w), models).0, id, w)
  {
    var criteria := Words(word, w);
    var (a', jobs) := (SplitStep(cfg, a, id, criteria, models).0, Screen(cfg, criteria, models, |criteria|));
    SplitAllowed(cfg, a, id, criteria, models);
    SplitMakes(cfg, a, id, criteria, models);
    ShapeIsSplit(a, a', id, jobs);
  }

  lemma ShapeIsSplit(a: Arena, a': Arena, id: Id, jobs: seq<Job>)
    requires SplitShape(a, a', id, jobs) && Fresh(a, id) && a'.dayUsed == a.dayUsed
    requires forall x | x in a.nodes :: !ChildOf(id, x)
    ensures SplitOf(a, a', id, |jobs|)
  {
    forall x {
      AfterSplit(a, a', id, jobs, x);
    }
    forall x | ChildOf(id, x) && x[|id|] in Labels(Name, |jobs|) ensures Fresh(a', x) {
      ChildFresh(a, a', id, jobs, x);
    }
  }

  // ---- A whole level -----------------------------------------------------------------------------------

  function Each(ids: seq<Id>, w: nat, word: string, models: seq<string>, n: nat): seq<Event>
    requires n <= |ids|
  {
    if n == 0 then [] else Each(ids, w, word, models, n - 1) + [Part(ids[n - 1], w, word, models)]
  }

  predicate ChildOfSome(ids: seq<Id>, d: nat, x: Id) { |x| == d + 1 && x[..d] in ids }

  /** What splitting all of `ids`, which have `d` segments, does. */
  ghost predicate LevelSplit(a: Arena, a': Arena, ids: seq<Id>, d: nat, w: nat) {
    a'.dayUsed == a.dayUsed && (forall x | x in a.nodes :: x in a'.nodes) &&
    (forall x | x in a.nodes && x !in ids :: a'.nodes[x] == a.nodes[x]) &&
    (forall x | x in a'.nodes && x !in a.nodes :: ChildOfSome(ids, d, x)) &&
    (forall x | ChildOfSome(ids, d, x) && x[d] in Labels(Name, w) :: Fresh(a', x))
  }

  lemma LevelSplitStep(a: Arena, a1: Arena, a2: Arena, ids: seq<Id>, id: Id, d: nat, w: nat)
    requires (forall x | x in ids :: |x| == d) && |id| == d && id !in ids
    requires LevelSplit(a, a1, ids, d, w) && SplitOf(a1, a2, id, w)
    ensures LevelSplit(a, a2, ids + [id], d, w)
  {
    assert forall x :: x in ids + [id] <==> x in ids || x == id;
    forall x | ChildOfSome(ids + [id], d, x) && x[d] in Labels(Name, w) ensures Fresh(a2, x) {
      if x[..d] in ids {
        assert ChildOfSome(ids, d, x) && x != id;
      } else {
        assert ChildOf(id, x);
      }
    }
  }

  /** Distinct ids of `d` segments, all fresh, none with a child yet. */
  ghost predicate AllFresh(a: Arena, ids: seq<Id>, d: nat) {
    (forall i | 0 <= i < |ids| :: |ids[i]| == d && Fresh(a, ids[i])) &&
    (forall i, j | 0 <= i < j < |ids| :: ids[i] != ids[j]) && (forall x | x in a.nodes :: |x| <= d)
  }

  lemma NextGoes(cfg: Config, a: Arena, evs: seq<Event>, a1: Arena, done: seq<Id>, id: Id, w: nat, word: string,
                 models: seq<string>) returns (a': Arena)
    requires Usable(cfg, word, models) && a.dayUsed == 0 && |id| <= 3 && w >= 1 && Affordable(cfg, w, |id|)
    requires Fresh(a, id) && id !in done && (forall x | x in done :: |x| == |id|) && forall x | x in a.nodes :: |x| <= |id|
    requires Reaches(Stepper(cfg), a, evs, a1) && LevelSplit(a, a1, done, |id|, w)
    ensures Reaches(Stepper(cfg), a, evs + [Part(id, w, word, models)], a')
    ensures LevelSplit(a, a', done + [id], |id|, w)
  {
    a' := SplitStep(cfg, a1, id, Words(word, w), models).0;
    forall x | x in a1.nodes ensures !ChildOf(id, x) {
      assert x in a.nodes || ChildOfSome(done, |id|, x);
    }
    SplitGoes(cfg, a1, id, w, word, models);
    ReachesOne(Stepper(cfg), a1, Part(id, w, word, models));
    ReachesConcat(Stepper(cfg), a, evs, a1, [Part(id, w, word, models)], a');
    LevelSplitStep(a, a1, a', done, id, |id|, w);
  }

  lemma NothingSplit(a: Arena, d: nat, w: nat)
    ensures LevelSplit(a, a, [], d, w)
  {
  }

  lemma NextId(a: Arena, ids: seq<Id>, d: nat, n: nat)
    requires 0 < n <= |ids| && AllFresh(a, ids, d)
    ensures ids[..n] == ids[..n - 1] + [ids[n - 1]] && ids[n - 1] !in ids[..n - 1]
    ensures |ids[n - 1]| == d && Fresh(a, ids[n - 1]) && forall x | x in ids[..n - 1] :: |x| == d
  {
  }

  lemma {:induction false} EachGoes(cfg: Config, a: Arena, ids: seq<Id>, w: nat, word: string, models: seq<string>,
                                    d: nat, n: nat) returns (a': Arena)
    requires Usable(cfg, word, models) && a.dayUsed == 0 && d <= 3 && w >= 1 && Affordable(cfg, w, d)
    requires n <= |ids| && AllFresh(a, ids, d)
    ensures Reaches(Stepper(cfg), a, Each(ids, w, word, models, n), a') && LevelSplit(a, a', ids[..n], d, w)
  {
    if n == 0 {
      a' := a;
      ReachesNothing(Stepper(cfg), a);
      NothingSplit(a, d, w);
    } else {
      NextId(a, ids, d, n);
      var a1 := EachGoes(cfg, a, ids, w, word, models, d, n - 1);
      a' := NextGoes(cfg, a, Each(ids, w, word, models, n - 1), a1, ids[..n - 1], ids[n - 1], w, word, models);
    }
  }

  // ---- The extremal run -----------------------------------------------------------------------------------

  /** The ids of level `d`, each once. */
  ghost function Row(cfg: Config, root: string, d: nat): (ids: seq<Id>)
    requires d <= 3
    ensures forall x :: x in ids <==> x in Level(cfg, root, d)
    ensures forall i, j | 0 <= i < j < |ids| :: ids[i] != ids[j]
  {
    Nonempty(cfg, root, d);
    Listing(Level(cfg, root, d))
  }

  lemma Nonempty(cfg: Config, root: string, d: nat)
    requires d <= 3
    ensures forall x | x in Level(cfg, root, d) :: |x| == d + 1
  {
    forall x | x in Level(cfg, root, d) ensures |x| == d + 1 {
      LevelDepth([root], Widths(cfg), Name, d, x);
    }
  }

  ghost function SplitRow(cfg: Config, root: string, word: string, models: seq<string>, d: nat): seq<Event>
    requires d < 3
  {
    Each(Row(cfg, root, d), Widths(cfg)[d], word, models, |Row(cfg, root, d)|)
  }

  /** The rows down to `d` are there, the last of them fresh and without children. */
  ghost predicate Down(cfg: Config, root: string, a: Arena, d: nat)
    requires d <= 3
  {
    a.dayUsed == 0 && (forall x | x in Level(cfg, root, d) :: Fresh(a, x)) && (forall x | x in a.nodes :: |x| <= d + 1)
  }

  lemma LevelParent(cfg: Config, root: string, d: nat, x: Id)
    requires d < 3 && x in Level(cfg, root, d + 1)
    ensures |x| == d + 2 && x[..d + 1] in Level(cfg, root, d) && x[d + 1] in Labels(Name, Widths(cfg)[d])
  {
    var (above, names) := (Level(cfg, root, d), Labels(Name, Widths(cfg)[d]));
    assert x in Extend(above, names);
    var id, c :| id in above && c in names && x == id + [c];
    Nonempty(cfg, root, d);
    assert x[..d + 1] == id && x[d + 1] == c;
  }

  lemma AllGo(cfg: Config, a: Arena, ids: seq<Id>, w: nat, word: string, models: seq<string>, d: nat)
    returns (a': Arena)
    requires Usable(cfg, word, models) && a.dayUsed == 0 && d <= 3 && w >= 1 && Affordable(cfg, w, d)
    requires AllFresh(a, ids, d)
    ensures Reaches(Stepper(cfg), a, Each(ids, w, word, models, |ids|), a') && LevelSplit(a, a', ids, d, w)
  {
    a' := EachGoes(cfg, a, ids, w, word, models, d, |ids|);
    assert ids[..|ids|] == ids;
  }

  lemma RowIsFresh(cfg: Config, root: string, a: Arena, d: nat)
    requires d < 3 && Down(cfg, root, a, d)
    ensures AllFresh(a, Row(cfg, root, d), d + 1)
  {
    Nonempty(cfg, root, d);
    var ids := Row(cfg, root, d);
    forall i | 0 <= i < |ids| ensures |ids[i]| == d + 1 && Fresh(a, ids[i]) {
      assert ids[i] in Level(cfg, root, d);
    }
  }

  lemma RowGoes(cfg: Config, root: string, word: string, models: seq<string>, a: Arena, d: nat) returns (a': Arena)
    requires Usable(cfg, word, models) && d < 3 && Widths(cfg)[d] >= 1 && Down(cfg, root, a, d)
    ensures Reaches(Stepper(cfg), a, SplitRow(cfg, root, word, models, d), a')
    ensures LevelSplit(a, a', Row(cfg, root, d), d + 1, Widths(cfg)[d])
  {
    RowIsFresh(cfg, root, a, d);
    WidthIsWidest(cfg, Widths(cfg)[d], d + 1);
    a' := AllGo(cfg, a, Row(cfg, root, d), Widths(cfg)[d], word, models, d + 1);
  }

  lemma RowFresh(cfg: Config, root: string, a: Arena, a': Arena, d: nat)
    requires d < 3 && Down(cfg, root, a, d) && LevelSplit(a, a', Row(cfg, root, d), d + 1, Widths(cfg)[d])
    ensures Down(cfg, root, a', d + 1)
  {
    forall x | x in Level(cfg, root, d + 1) ensures Fresh(a', x) {
      LevelParent(cfg, root, d, x);
      assert ChildOfSome(Row(cfg, root, d), d + 1, x);
    }
  }

  lemma DownOne(cfg: Config, root: string, word: string, models: seq<string>, a: Arena, d: nat) returns (a': Arena)
    requires Usable(cfg, word, models) && d < 3 && Widths(cfg)[d] >= 1 && Down(cfg, root, a, d)
    ensures Reaches(Stepper(cfg), a, SplitRow(cfg, root, word, models, d), a') && Down(cfg, root, a', d + 1)
    ensures forall x | x in a.nodes :: x in a'.nodes
  {
    a' := RowGoes(cfg, root, word, models, a, d);
    RowFresh(cfg, root, a, a', d);
  }

  function Root(root: string): Event { Enqueue([root], Node("", "", 0, 0, 0, false, false, Queued)) }

  ghost function Splits(cfg: Config, root: string, word: string, models: seq<string>): seq<Event> {
    SplitRow(cfg, root, word, models, 0) + SplitRow(cfg, root, word, models, 1) + SplitRow(cfg, root, word, models, 2)
  }

  ghost function FullRun(cfg: Config, root: string, word: string, models: seq<string>): seq<Event> {
    [Root(root)] + if Widths(cfg)[0] == 0 then [] else Splits(cfg, root, word, models)
  }

  /** Some split is affordable at every depth or at none. */
  lemma WidthsTogether(cfg: Config, e: nat)
    requires 1 <= e
    ensures Width(cfg, e) >= 1 <==> Width(cfg, 1) >= 1
  {
    PowOfOne(e);
    PowOfOne(1);
    WidthIsWidest(cfg, 1, e);
    WidthIsWidest(cfg, 1, 1);
  }

  lemma DownAll(cfg: Config, root: string, word: string, models: seq<string>) returns (a: Arena)
    requires Usable(cfg, word, models) && Widths(cfg)[0] >= 1
    ensures Reaches(Stepper(cfg), EMPTY, FullRun(cfg, root, word, models), a)
    ensures Levels(cfg, root) <= a.nodes.Keys
  {
    var a0 := Step(cfg, EMPTY, Root(root)).0;
    ReachesOne(Stepper(cfg), EMPTY, Root(root));
    WidthsTogether(cfg, 2);
    WidthsTogether(cfg, 3);
    var a1 := DownOne(cfg, root, word, models, a0, 0);
    var a2 := DownOne(cfg, root, word, models, a1, 1);
    a := DownOne(cfg, root, word, models, a2, 2);
    var (r0, r1) := (SplitRow(cfg, root, word, models, 0), SplitRow(cfg, root, word, models, 1));
    ReachesConcat(Stepper(cfg), a0, r0, a1, r1, a2);
    ReachesConcat(Stepper(cfg), a0, r0 + r1, a2, SplitRow(cfg, root, word, models, 2), a);
    ReachesConcat(Stepper(cfg), EMPTY, [Root(root)], a0, Splits(cfg, root, word, models), a);
    FourRows(cfg, root, a0, a1, a2, a);
  }

  lemma FourRows(cfg: Config, root: string, a0: Arena, a1: Arena, a2: Arena, a: Arena)
    requires Down(cfg, root, a0, 0) && Down(cfg, root, a1, 1) && Down(cfg, root, a2, 2) && Down(cfg, root, a, 3)
    requires (forall x | x in a0.nodes :: x in a1.nodes) && (forall x | x in a1.nodes :: x in a2.nodes)
    requires forall x | x in a2.nodes :: x in a.nodes
    ensures Levels(cfg, root) <= a.nodes.Keys
  {
    assert forall x | x in Level(cfg, root, 0) :: x in a.nodes;
    assert forall x | x in Level(cfg, root, 1) :: x in a.nodes;
    assert forall x | x in Level(cfg, root, 2) :: x in a.nodes;
    assert forall x | x in Level(cfg, root, 3) :: x in a.nodes;
  }

  // ---- The bound is reached ------------------------------------------------------------------------------

  ghost predicate AllSplits(evs: seq<Event>) { forall k | 0 <= k < |evs| :: evs[k].Split? }

  lemma {:induction false} EachSplits(ids: seq<Id>, w: nat, word: string, models: seq<string>, n: nat)
    requires n <= |ids|
    ensures AllSplits(Each(ids, w, word, models, n))
  {
    if n > 0 {
      EachSplits(ids, w, word, models, n - 1);
    }
  }

  lemma RowSplits(cfg: Config, root: string, word: string, models: seq<string>, d: nat)
    requires d < 3
    ensures AllSplits(SplitRow(cfg, root, word, models, d))
  {
    EachSplits(Row(cfg, root, d), Widths(cfg)[d], word, models, |Row(cfg, root, d)|);
  }

  lemma RootFirstIsFresh(cfg: Config, first: Event, evs: seq<Event>)
    requires first.Enqueue? && |first.id| == 1 && !first.node.alreadySplit && AllSplits(evs)
    ensures FreshRoots(cfg, [first] + evs)
  {
    var all := [first] + evs;
    forall k | 0 <= k < |all| ensures FreshRoot(RunTo(cfg, all, k), all[k]) {
      assert k > 0 ==> all[k] == evs[k - 1];
    }
  }

  lemma FullRunIsFresh(cfg: Config, root: string, word: string, models: seq<string>)
    ensures FreshRoots(cfg, FullRun(cfg, root, word, models))
  {
    RowSplits(cfg, root, word, models, 0);
    RowSplits(cfg, root, word, models, 1);
    RowSplits(cfg, root, word, models, 2);
    AllConcat(SplitRow(cfg, root, word, models, 0), SplitRow(cfg, root, word, models, 1),
              SplitRow(cfg, root, word, models, 2));
    RootFirstIsFresh(cfg, Root(root), if Widths(cfg)[0] == 0 then [] else Splits(cfg, root, word, models));
  }

  lemma AllConcat(a: seq<Event>, b: seq<Event>, c: seq<Event>)
    requires AllSplits(a) && AllSplits(b) && AllSplits(c)
    ensures AllSplits(a + b + c)
  {
  }

  /** For all caps some run from fresh roots has exactly as many nodes below a root as the bound allows. */
  lemma BoundIsReached(cfg: Config, root: string, word: string, models: seq<string>) returns (evs: seq<Event>)
    requires Usable(cfg, word, models)
    ensures FreshRoots(cfg, evs) && |NodesBelow(Run(cfg, evs), root)| == MostNodes(cfg)
  {
    evs := FullRun(cfg, root, word, models);
    FullRunIsFresh(cfg, root, word, models);
    NodesAreBounded(cfg, evs, root);
    if Widths(cfg)[0] >= 1 {
      var a := DownAll(cfg, root, word, models);
      ReachesIsRun(cfg, evs, a);
      Full(cfg, root, a);
    } else {
      WidthsTogether(cfg, 2);
      WidthsTogether(cfg, 3);
      assert RunTo(cfg, evs, 1) == Step(cfg, EMPTY, evs[0]).0;
      SubsetSize({[root]}, NodesBelow(Run(cfg, evs), root));
    }
  }

  lemma RowBelow(cfg: Config, root: string, a: Arena, d: nat)
    requires d <= 3 && Level(cfg, root, d) <= a.nodes.Keys
    ensures Level(cfg, root, d) <= NodesBelow(a, root)
  {
    forall x | x in Level(cfg, root, d) ensures x in NodesBelow(a, root) {
      RootFirst(cfg, root, d, x);
    }
  }

  lemma Full(cfg: Config, root: string, a: Arena)
    requires Levels(cfg, root) <= a.nodes.Keys
    ensures |NodesBelow(a, root)| >= MostNodes(cfg)
  {
    RowBelow(cfg, root, a, 0);
    RowBelow(cfg, root, a, 1);
    RowBelow(cfg, root, a, 2);
    RowBelow(cfg, root, a, 3);
    SubsetSize(Levels(cfg, root), NodesBelow(a, root));
    NamesDiffer();
    TreeSizeExact([root], Widths(cfg), Name);
  }

  lemma {:induction false} RootFirst(cfg: Config, root: string, d: nat, x: Id)
    requires d <= 3 && x in Level(cfg, root, d)
    ensures x[0] == root
  {
    if d > 0 {
      LevelParent(cfg, root, d - 1, x);
      RootFirst(cfg, root, d - 1, x[..d]);
    }
  }

  /** The most agents one tree may cost is the per-tree budget in every run exactly when the whole tree fits it. */
  lemma TreeBudgetHoldsExactly(cfg: Config, root: string, word: string, models: seq<string>)
    requires Usable(cfg, word, models)
    ensures (forall evs | FreshRoots(cfg, evs) :: |NodesBelow(Run(cfg, evs), root)| <= cfg.treeBudget) <==>
      MostNodes(cfg) <= cfg.treeBudget
  {
    var full := BoundIsReached(cfg, root, word, models);
    forall evs | FreshRoots(cfg, evs) ensures |NodesBelow(Run(cfg, evs), root)| <= MostNodes(cfg) {
      NodesAreBounded(cfg, evs, root);
    }
  }

  /** At the shipped caps it fails: a tree of 329 nodes under a budget of 64. */
  lemma DefaultTreeBudgetFails(cfg: Config, root: string, word: string, models: seq<string>) returns (evs: seq<Event>)
    requires Usable(cfg, word, models) && DefaultCaps(cfg)
    ensures FreshRoots(cfg, evs) && |NodesBelow(Run(cfg, evs), root)| == 329 > cfg.treeBudget
  {
    evs := BoundIsReached(cfg, root, word, models);
    DefaultNodes(cfg);
  }
}
