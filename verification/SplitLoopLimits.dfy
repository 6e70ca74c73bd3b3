/**
 The bounds of SplitLoop are exact: for every budget there is a run that creates as many task ids and makes as
 many splits as the bounds allow. It claims and splits level by level, each as wide as the budget lets it, then
 splits the children of the root once more and the root twice more.
 */
module SplitLoopLimits {
  import opened Runs
  import opened SplitLoop
  import opened TreeBounds
  import opened Wrappers

  function Stepper(cfg: Config): (Harness, Event) -> Harness {
    (h, ev) => Step(cfg, h, ev).0
  }

  lemma ReachesIsRun(cfg: Config, workerModel: Option<string>, evs: seq<Event>, h: Harness)
    requires Reaches(Stepper(cfg), Initial(workerModel), evs, h)
    ensures Run(cfg, workerModel, evs) == h
  {
    var hs :| Path(Stepper(cfg), evs, hs) && hs[0] == Initial(workerModel) && hs[|evs|] == h;
    PathIsRun(cfg, workerModel, evs, hs, |evs|);
  }

  lemma {:induction false} PathIsRun(cfg: Config, workerModel: Option<string>, evs: seq<Event>, hs: seq<Harness>, n: nat)
    requires Path(Stepper(cfg), evs, hs) && hs[0] == Initial(workerModel) && n <= |evs|
    ensures RunTo(cfg, workerModel, evs, n) == hs[n]
  {
    if n > 0 {
      PathIsRun(cfg, workerModel, evs, hs, n - 1);
      assert hs[n] == Stepper(cfg)(hs[n - 1], evs[n - 1]);
    }
  }

  // ---- One split ------------------------------------------------------------------------------------

  function Widely(budget: nat): Options { Options(budget, [], true, false) }

  predicate Fresh(h: Harness, id: Id) {
    id in h.tasks && h.tasks[id].status == Queued && h.tasks[id].depth == h.tasks[id].resplitCount == |id| &&
    id !in h.locks
  }

  /** `id` has been claimed and split, up to count `r`. */
  predicate Parted(h: Harness, id: Id, r: nat) {
    id in h.tasks && h.tasks[id].status == Done && h.tasks[id].depth == |id| && h.tasks[id].resplitCount == r &&
    id in h.locks
  }

  predicate Able(h: Harness, id: Id, r: nat, again: bool) {
    if again then Parted(h, id, r) else Fresh(h, id) && r == |id|
  }

  /** Splits of one level are possible: they fit the budget and the count is not used up. */
  predicate Fits(budget: nat, d: nat, w: nat, r: nat) {
    d < MAX_RESPLITS && r < MAX_RESPLITS && w >= 1 && Pow(w, d + 1) <= budget
  }

  predicate NewChild(h: Harness, x: Id, r: nat) {
    x in h.tasks && h.tasks[x].status == Queued && h.tasks[x].depth == |x| && h.tasks[x].resplitCount == r
  }

  /** What splitting `id` `w` ways does: its count rises to `r`, its children are queued, all else stays. */
  ghost predicate SplitOf(h: Harness, h': Harness, id: Id, w: nat, r: nat) {
    Parted(h', id, r) && h'.claiming == h.claiming &&
    (forall x :: x in h'.locks <==> x in h.locks || x == id) &&
    (forall x | x in h.tasks :: x in h'.tasks) &&
    (forall x | x in h.tasks && x != id && !IsChild(id, w, x) :: h'.tasks[x] == h.tasks[x]) &&
    (forall x | IsChild(id, w, x) :: NewChild(h', x, r)) &&
    Splits(h'.ledger) == Splits(h.ledger) + 1
  }

  lemma SplitGoes(cfg: Config, h: Harness, id: Id, w: nat, budget: nat)
    requires id in h.tasks && h.tasks[id].status in {Claimed, Done} && h.tasks[id].depth == |id| && id in h.locks
    requires Fits(budget, |id|, w, h.tasks[id].resplitCount)
    ensures SplitOf(h, SplitStep(cfg, h, id, w, Widely(budget)).0, id, w, h.tasks[id].resplitCount + 1)
  {
    assert Usable(cfg, []) == [];
    SplitMakes(cfg, h, id, w, Widely(budget));
    SplitsGrow(cfg, h, Split(id, w, Widely(budget)));
  }

  /** `h3` is `h` with the task claimed and its lock stamped. */
  ghost predicate ClaimOf(h: Harness, h3: Harness, id: Id) {
    id in h.tasks && h3.tasks == h.tasks[id := h.tasks[id].(status := Claimed)] &&
    h3.locks == h.locks[id := Some("w")] && h3.claiming == h.claiming && h3.ledger == h.ledger
  }

  /** Lock, stamp and claim one task. */
  function Claim(id: Id): seq<Event> { [Lock(id, "w")] + ([Stamp(id)] + [FinishClaim(id)]) }

  lemma ClaimGoes(cfg: Config, h: Harness, id: Id) returns (h3: Harness)
    requires Fresh(h, id) && h.claiming == map[]
    ensures Reaches(Stepper(cfg), h, Claim(id), h3) && ClaimOf(h, h3, id)
  {
    var h1 := Step(cfg, h, Lock(id, "w")).0;
    var h2 := Step(cfg, h1, Stamp(id)).0;
    h3 := Step(cfg, h2, FinishClaim(id)).0;
    ClaimRuns(cfg, h, id, "w");
    ReachesOne(Stepper(cfg), h, Lock(id, "w"));
    ReachesOne(Stepper(cfg), h1, Stamp(id));
    ReachesOne(Stepper(cfg), h2, FinishClaim(id));
    ReachesConcat(Stepper(cfg), h1, [Stamp(id)], h2, [FinishClaim(id)], h3);
    ReachesConcat(Stepper(cfg), h, [Lock(id, "w")], h1, [Stamp(id)] + [FinishClaim(id)], h3);
  }

  lemma SplitAfterClaim(h: Harness, h3: Harness, h': Harness, id: Id, w: nat, r: nat)
    requires ClaimOf(h, h3, id) && SplitOf(h3, h', id, w, r)
    ensures SplitOf(h, h', id, w, r)
  {
  }

  function First(id: Id, w: nat, budget: nat, again: bool): seq<Event> {
    (if again then [] else Claim(id)) + [Split(id, w, Widely(budget))]
  }

  lemma FirstGoes(cfg: Config, h: Harness, id: Id, w: nat, budget: nat, again: bool, r: nat) returns (h': Harness)
    requires h.claiming == map[] && Fits(budget, |id|, w, r) && Able(h, id, r, again)
    ensures Reaches(Stepper(cfg), h, First(id, w, budget, again), h') && SplitOf(h, h', id, w, r + 1)
  {
    var h3 := h;
    ReachesNothing(Stepper(cfg), h);
    if !again {
      h3 := ClaimGoes(cfg, h, id);
    }
    h' := SplitStep(cfg, h3, id, w, Widely(budget)).0;
    SplitGoes(cfg, h3, id, w, budget);
    ReachesOne(Stepper(cfg), h3, Split(id, w, Widely(budget)));
    ReachesConcat(Stepper(cfg), h, if again then [] else Claim(id), h3, [Split(id, w, Widely(budget))], h');
    if !again {
      SplitAfterClaim(h, h3, h', id, w, r + 1);
    }
  }

  // ---- A whole level -----------------------------------------------------------------------------------

  /** Split each of the first `n` ids, claiming it first unless this is a re-split. */
  function Each(ids: seq<Id>, w: nat, budget: nat, again: bool, n: nat): seq<Event>
    requires n <= |ids|
  {
    if n == 0 then [] else Each(ids, w, budget, again, n - 1) + First(ids[n - 1], w, budget, again)
  }

  predicate ChildOf(ids: seq<Id>, d: nat, x: Id) { |x| == d + 1 && x[..d] in ids }

  /** What splitting all of `ids`, which lie at depth `d`, does. */
  ghost predicate LevelSplit(h: Harness, h': Harness, ids: seq<Id>, d: nat, w: nat, r: nat) {
    h'.claiming == h.claiming && (forall x | x in h.tasks :: x in h'.tasks) &&
    (forall x :: x in h'.locks <==> x in h.locks || x in ids) &&
    (forall id | id in ids :: Parted(h', id, r)) &&
    (forall x | x in h.tasks && x !in ids && !ChildOf(ids, d, x) :: h'.tasks[x] == h.tasks[x]) &&
    (forall x | ChildOf(ids, d, x) && 1 <= x[d] <= w :: NewChild(h', x, r)) &&
    Splits(h'.ledger) == Splits(h.ledger) + |ids|
  }

  lemma LevelSplitStep(h: Harness, h1: Harness, h2: Harness, ids: seq<Id>, id: Id, d: nat, w: nat, r: nat)
    requires (forall x | x in ids :: |x| == d) && |id| == d && id !in ids
    requires LevelSplit(h, h1, ids, d, w, r) && SplitOf(h1, h2, id, w, r)
    ensures LevelSplit(h, h2, ids + [id], d, w, r)
  {
    assert forall x :: x in ids + [id] <==> x in ids || x == id;
    forall x | ChildOf(ids + [id], d, x) ensures ChildOf(ids, d, x) || IsChild(id, x[d], x) || x[d] == 0 {
    }
    forall x | x in h.tasks && x !in ids + [id] && !ChildOf(ids + [id], d, x) ensures h2.tasks[x] == h.tasks[x] {
      assert !ChildOf(ids, d, x) && !IsChild(id, w, x);
    }
    forall x | ChildOf(ids + [id], d, x) && 1 <= x[d] <= w ensures NewChild(h2, x, r) {
      assert IsChild(id, w, x) || ChildOf(ids, d, x);
    }
  }

  /** Distinct ids of depth `d` that can all be split. */
  ghost predicate AllAble(h: Harness, ids: seq<Id>, d: nat, r: nat, again: bool) {
    (forall i | 0 <= i < |ids| :: |ids[i]| == d && Able(h, ids[i], r, again)) &&
    (forall i, j | 0 <= i < j < |ids| :: ids[i] != ids[j])
  }

  /** One more id of the level, after `done`. */
  lemma NextGoes(cfg: Config, h: Harness, evs: seq<Event>, h1: Harness, done: seq<Id>, id: Id, w: nat, budget: nat,
                 again: bool, r: nat) returns (h': Harness)
    requires h.claiming == map[] && Fits(budget, |id|, w, r) && Able(h, id, r, again)
    requires id !in done && forall x | x in done :: |x| == |id|
    requires Reaches(Stepper(cfg), h, evs, h1) && LevelSplit(h, h1, done, |id|, w, r + 1)
    ensures Reaches(Stepper(cfg), h, evs + First(id, w, budget, again), h')
    ensures LevelSplit(h, h', done + [id], |id|, w, r + 1)
  {
    StillAble(h, h1, done, id, w, r, again);
    h' := FirstGoes(cfg, h1, id, w, budget, again, r);
    ReachesConcat(Stepper(cfg), h, evs, h1, First(id, w, budget, again), h');
    LevelSplitStep(h, h1, h', done, id, |id|, w, r + 1);
  }

  lemma NothingSplit(h: Harness, d: nat, w: nat, r: nat)
    ensures LevelSplit(h, h, [], d, w, r)
  {
  }

  lemma NextId(h: Harness, ids: seq<Id>, d: nat, r: nat, again: bool, n: nat)
    requires 0 < n <= |ids| && AllAble(h, ids, d, r, again)
    ensures ids[..n] == ids[..n - 1] + [ids[n - 1]] && ids[n - 1] !in ids[..n - 1]
    ensures |ids[n - 1]| == d && Able(h, ids[n - 1], r, again) && forall x | x in ids[..n - 1] :: |x| == d
  {
  }

  lemma {:induction false} EachGoes(cfg: Config, h: Harness, ids: seq<Id>, w: nat, budget: nat, again: bool, d: nat,
                                    r: nat, n: nat) returns (h': Harness)
    requires h.claiming == map[] && Fits(budget, d, w, r) && n <= |ids| && AllAble(h, ids, d, r, again)
    ensures Reaches(Stepper(cfg), h, Each(ids, w, budget, again, n), h') && LevelSplit(h, h', ids[..n], d, w, r + 1)
  {
    if n == 0 {
      h' := h;
      ReachesNothing(Stepper(cfg), h);
      NothingSplit(h, d, w, r + 1);
    } else {
      NextId(h, ids, d, r, again, n);
      var h1 := EachGoes(cfg, h, ids, w, budget, again, d, r, n - 1);
      h' := NextGoes(cfg, h, Each(ids, w, budget, again, n - 1), h1, ids[..n - 1], ids[n - 1], w, budget, again, r);
    }
  }

  lemma AllGo(cfg: Config, h: Harness, ids: seq<Id>, w: nat, budget: nat, again: bool, d: nat, r: nat)
    returns (h': Harness)
    requires h.claiming == map[] && Fits(budget, d, w, r) && AllAble(h, ids, d, r, again)
    ensures Reaches(Stepper(cfg), h, Each(ids, w, budget, again, |ids|), h') && LevelSplit(h, h', ids, d, w, r + 1)
  {
    h' := EachGoes(cfg, h, ids, w, budget, again, d, r, |ids|);
    assert ids[..|ids|] == ids;
  }

  lemma StillAble(h: Harness, h1: Harness, done: seq<Id>, id: Id, w: nat, r: nat, again: bool)
    requires LevelSplit(h, h1, done, |id|, w, r + 1) && Able(h, id, r, again) && id !in done
    ensures Able(h1, id, r, again)
  {
  }

  // ---- The extremal run -----------------------------------------------------------------------------------

  lemma WidthsFit(budget: nat, d: nat, r: nat)
    requires budget >= 1 && d < 3 && r < MAX_RESPLITS
    ensures Fits(budget, d, Widths(budget)[d], r)
  {
    PowOfOne(d + 1);
    WidestIsWidest(budget, d + 1, 1);
    WidestIsWidest(budget, d + 1, Widest(budget, d + 1));
  }

  /** Nobody is in the middle of a claim, and only ids down to depth `d` have been claimed. */
  ghost predicate Quiet(h: Harness, d: nat) {
    h.claiming == map[] && forall x | x in h.locks :: |x| <= d
  }

  /** The ids of level `d`, each once. */
  ghost function Row(budget: nat, d: nat): (ids: seq<Id>)
    requires d <= 3
    ensures (forall x :: x in ids <==> x in Level(budget, d)) && |ids| == |Level(budget, d)|
    ensures forall i, j | 0 <= i < j < |ids| :: ids[i] != ids[j]
  {
    Listing(Level(budget, d))
  }

  ghost function SplitRow(budget: nat, d: nat, again: bool): seq<Event>
    requires d < 3
  {
    Each(Row(budget, d), Widths(budget)[d], budget, again, |Row(budget, d)|)
  }

  lemma RowGoes(cfg: Config, h: Harness, budget: nat, d: nat, r: nat, again: bool) returns (h': Harness)
    requires budget >= 1 && d < 3 && r < MAX_RESPLITS && h.claiming == map[]
    requires forall x | x in Level(budget, d) :: Able(h, x, r, again)
    ensures Reaches(Stepper(cfg), h, SplitRow(budget, d, again), h')
    ensures LevelSplit(h, h', Row(budget, d), d, Widths(budget)[d], r + 1)
  {
    var ids := Row(budget, d);
    WidthsFit(budget, d, r);
    forall i | 0 <= i < |ids| ensures |ids[i]| == d && Able(h, ids[i], r, again) {
      assert ids[i] in Level(budget, d);
      LevelDepth([], Widths(budget), Number, d, ids[i]);
    }
    h' := AllGo(cfg, h, ids, Widths(budget)[d], budget, again, d, r);
  }

  lemma LevelParent(budget: nat, d: nat, x: Id)
    requires d < 3 && x in Level(budget, d + 1)
    ensures |x| == d + 1 && x[..d] in Level(budget, d) && 1 <= x[d] <= Widths(budget)[d]
  {
    var (above, names) := (Level(budget, d), Labels(Number, Widths(budget)[d]));
    assert x in Extend(above, names);
    var id, c :| id in above && c in names && x == id + [c];
    assert id in LevelBelow([], Widths(budget), Number, d);
    LevelDepth([], Widths(budget), Number, d, id);
    assert x[..d] == id && x[d] == c;
  }

  lemma NextFresh(h: Harness, h': Harness, budget: nat, d: nat, x: Id)
    requires d < 3 && Quiet(h, d) && LevelSplit(h, h', Row(budget, d), d, Widths(budget)[d], d + 1)
    requires x in Level(budget, d + 1)
    ensures Fresh(h', x)
  {
    LevelParent(budget, d, x);
    assert ChildOf(Row(budget, d), d, x);
  }

  /** After a first split of a row the next row is fresh. */
  lemma NextRowFresh(h: Harness, h': Harness, budget: nat, d: nat)
    requires d < 3 && Quiet(h, d) && LevelSplit(h, h', Row(budget, d), d, Widths(budget)[d], d + 1)
    ensures Quiet(h', d + 1) && forall x | x in Level(budget, d + 1) :: Fresh(h', x)
  {
    forall x | x in h'.locks ensures |x| <= d {
      if x in Row(budget, d) {
        LevelDepth([], Widths(budget), Number, d, x);
      }
    }
    forall x | x in Level(budget, d + 1) ensures Fresh(h', x) {
      NextFresh(h, h', budget, d, x);
    }
  }

  /** How many ids lie above depth `d`. */
  ghost function Above(budget: nat, d: nat): nat
    requires d <= 3
  {
    if d == 0 then 0 else Above(budget, d - 1) + |Level(budget, d - 1)|
  }

  ghost predicate RowParted(budget: nat, h: Harness, d: nat, r: nat)
    requires d <= 3
  {
    forall x | x in Level(budget, d) :: Parted(h, x, r)
  }

  /** Row `d` has been split once. */
  ghost predicate RowOnce(budget: nat, h: Harness, d: nat)
    requires d <= 3
  {
    RowParted(budget, h, d, d + 1)
  }

  /** Rows 0 to `d` - 1 have been split once. */
  ghost predicate RowsOnce(budget: nat, h: Harness, d: nat)
    requires d <= 3
  {
    forall e: nat | e < d :: RowOnce(budget, h, e)
  }

  /** Rows 0 to `d` - 1 have been split once, row `d` is queued and unclaimed. */
  ghost predicate Down(budget: nat, h: Harness, d: nat)
    requires d <= 3
  {
    Quiet(h, d) && (forall x | x in Level(budget, d) :: Fresh(h, x)) &&
    RowsOnce(budget, h, d) &&
    Splits(h.ledger) == Above(budget, d)
  }

  /** A row above row `d` is left alone by splits of row `d`. */
  lemma UpperStays(h: Harness, h': Harness, budget: nat, e: nat, d: nat, q: nat, w: nat, r: nat)
    requires e < d < 3 && LevelSplit(h, h', Row(budget, d), d, w, r) && RowParted(budget, h, e, q)
    ensures RowParted(budget, h', e, q)
  {
    forall x | x in Level(budget, e) ensures Parted(h', x, q) {
      LevelDepth([], Widths(budget), Number, e, x);
      if x in Row(budget, d) {
        LevelDepth([], Widths(budget), Number, d, x);
      }
    }
  }

  lemma DownOne(cfg: Config, h: Harness, budget: nat, d: nat) returns (h': Harness)
    requires budget >= 1 && d < 3 && Down(budget, h, d)
    ensures Reaches(Stepper(cfg), h, SplitRow(budget, d, false), h') && Down(budget, h', d + 1)
  {
    FreshIsAble(h, budget, d);
    h' := RowGoes(cfg, h, budget, d, d, false);
    DownNext(h, h', budget, d);
  }

  lemma FreshIsAble(h: Harness, budget: nat, d: nat)
    requires d < 3 && forall x | x in Level(budget, d) :: Fresh(h, x)
    ensures forall x | x in Level(budget, d) :: Able(h, x, d, false)
  {
    forall x | x in Level(budget, d) ensures |x| == d {
      LevelDepth([], Widths(budget), Number, d, x);
    }
  }

  lemma RowsStay(h: Harness, h': Harness, budget: nat, d: nat)
    requires d < 3 && RowsOnce(budget, h, d) && LevelSplit(h, h', Row(budget, d), d, Widths(budget)[d], d + 1)
    ensures RowsOnce(budget, h', d + 1)
  {
    forall e: nat | e < d ensures RowOnce(budget, h', e) {
      assert RowOnce(budget, h, e);
      UpperStays(h, h', budget, e, d, e + 1, Widths(budget)[d], d + 1);
    }
  }

  lemma DownNext(h: Harness, h': Harness, budget: nat, d: nat)
    requires d < 3 && Down(budget, h, d) && LevelSplit(h, h', Row(budget, d), d, Widths(budget)[d], d + 1)
    ensures Down(budget, h', d + 1)
  {
    NextRowFresh(h, h', budget, d);
    RowsStay(h, h', budget, d);
  }

  /** A row split up to count `r` is split once more; a row above stays. */
  lemma Again(cfg: Config, h: Harness, budget: nat, d: nat, r: nat) returns (h': Harness)
    requires budget >= 1 && d < 3 && r < MAX_RESPLITS && h.claiming == map[] && RowParted(budget, h, d, r)
    ensures Reaches(Stepper(cfg), h, SplitRow(budget, d, true), h')
    ensures h'.claiming == map[] && (forall x | x in h.tasks :: x in h'.tasks)
    ensures RowParted(budget, h', d, r + 1)
    ensures Splits(h'.ledger) == Splits(h.ledger) + |Level(budget, d)|
    ensures forall e, q | 0 <= e < d && RowParted(budget, h, e, q) :: RowParted(budget, h', e, q)
  {
    h' := RowGoes(cfg, h, budget, d, r, true);
    forall e, q | 0 <= e < d && RowParted(budget, h, e, q) ensures RowParted(budget, h', e, q) {
      UpperStays(h, h', budget, e, d, q, Widths(budget)[d], r + 1);
    }
  }

  ghost function DownRun(budget: nat): seq<Event> {
    SplitRow(budget, 0, false) + SplitRow(budget, 1, false) + SplitRow(budget, 2, false)
  }

  lemma DownAll(cfg: Config, workerModel: Option<string>, budget: nat) returns (h: Harness)
    requires budget >= 1
    ensures Reaches(Stepper(cfg), Initial(workerModel), DownRun(budget), h) && Down(budget, h, 3)
  {
    var h0 := Initial(workerModel);
    assert forall x | x in Level(budget, 0) :: x == [];
    var h1 := DownOne(cfg, h0, budget, 0);
    var h2 := DownOne(cfg, h1, budget, 1);
    h := DownOne(cfg, h2, budget, 2);
    ReachesConcat(Stepper(cfg), h0, SplitRow(budget, 0, false), h1, SplitRow(budget, 1, false), h2);
    ReachesConcat(Stepper(cfg), h0, SplitRow(budget, 0, false) + SplitRow(budget, 1, false), h2, SplitRow(budget, 2, false), h);
  }

  ghost function UpRun(budget: nat): seq<Event> {
    SplitRow(budget, 1, true) + SplitRow(budget, 0, true) + SplitRow(budget, 0, true)
  }

  lemma UpAll(cfg: Config, budget: nat, h3: Harness) returns (h: Harness)
    requires budget >= 1 && Down(budget, h3, 3)
    ensures Reaches(Stepper(cfg), h3, UpRun(budget), h) && (forall x | x in h3.tasks :: x in h.tasks)
    ensures Splits(h.ledger) == Splits(h3.ledger) + |Level(budget, 1)| + 2 * |Level(budget, 0)|
  {
    assert RowOnce(budget, h3, 0) && RowOnce(budget, h3, 1);
    var h4 := Again(cfg, h3, budget, 1, 2);
    var h5 := Again(cfg, h4, budget, 0, 1);
    h := Again(cfg, h5, budget, 0, 2);
    ReachesConcat(Stepper(cfg), h3, SplitRow(budget, 1, true), h4, SplitRow(budget, 0, true), h5);
    ReachesConcat(Stepper(cfg), h3, SplitRow(budget, 1, true) + SplitRow(budget, 0, true), h5, SplitRow(budget, 0, true), h);
  }

  // ---- It stays within the budget ------------------------------------------------------------------------

  lemma WithinConcat(budget: nat, a: seq<Event>, b: seq<Event>)
    requires Within(budget, a) && Within(budget, b)
    ensures Within(budget, a + b)
  {
  }

  lemma FirstWithin(id: Id, w: nat, budget: nat, again: bool)
    ensures Within(budget, First(id, w, budget, again))
  {
  }

  lemma {:induction false} EachWithin(ids: seq<Id>, w: nat, budget: nat, again: bool, n: nat)
    requires n <= |ids|
    ensures Within(budget, Each(ids, w, budget, again, n))
  {
    if n > 0 {
      EachWithin(ids, w, budget, again, n - 1);
      FirstWithin(ids[n - 1], w, budget, again);
      WithinConcat(budget, Each(ids, w, budget, again, n - 1), First(ids[n - 1], w, budget, again));
    }
  }

  lemma RunsWithin(budget: nat)
    ensures Within(budget, DownRun(budget) + UpRun(budget))
  {
    forall d: nat, again | d < 3 ensures Within(budget, SplitRow(budget, d, again)) {
      EachWithin(Row(budget, d), Widths(budget)[d], budget, again, |Row(budget, d)|);
    }
  }

  // ---- The bounds are reached ----------------------------------------------------------------------------

  lemma DownIsFull(budget: nat, h: Harness)
    requires Down(budget, h, 3)
    ensures Levels(budget) <= h.tasks.Keys
  {
    assert RowOnce(budget, h, 0) && RowOnce(budget, h, 1) && RowOnce(budget, h, 2);
    assert Level(budget, 0) <= h.tasks.Keys;
    assert Level(budget, 1) <= h.tasks.Keys;
    assert Level(budget, 2) <= h.tasks.Keys;
    assert Level(budget, 3) <= h.tasks.Keys;
    FourWithin(Level(budget, 0), Level(budget, 1), Level(budget, 2), Level(budget, 3), h.tasks.Keys);
  }

  lemma FourWithin(a: set<Id>, b: set<Id>, c: set<Id>, d: set<Id>, all: set<Id>)
    requires a <= all && b <= all && c <= all && d <= all
    ensures a + b + c + d <= all
  {
  }

  lemma FullTree(budget: nat, tasks: map<Id, Task>)
    requires Levels(budget) <= tasks.Keys && |tasks| <= MostTasks(budget)
    ensures |tasks| == MostTasks(budget)
  {
    SubsetSize(Levels(budget), tasks.Keys);
    TreeSizeExact([], Widths(budget), Number);
  }

  lemma AllSplits(budget: nat)
    ensures Above(budget, 3) + |Level(budget, 1)| + 2 * |Level(budget, 0)| == MostSplits(budget)
  {
    LevelSizes([], Widths(budget), Number);
    assert Above(budget, 3) == Above(budget, 2) + |Level(budget, 2)|;
    assert Above(budget, 2) == Above(budget, 1) + |Level(budget, 1)|;
    assert Above(budget, 1) == Above(budget, 0) + |Level(budget, 0)|;
  }

  /** A run within the budget with as many task ids and as many splits as the bounds allow. */
  ghost predicate Reaching(cfg: Config, workerModel: Option<string>, budget: nat, evs: seq<Event>) {
    Within(budget, evs) && |Run(cfg, workerModel, evs).tasks| == MostTasks(budget) &&
    SuccessfulSplits(cfg, workerModel, evs, |evs|) == MostSplits(budget)
  }

  /** For every budget there is such a run, so both bounds are exact. */
  lemma BoundsAreReached(cfg: Config, workerModel: Option<string>, budget: nat)
    requires budget >= 1
    ensures exists evs :: Reaching(cfg, workerModel, budget, evs)
  {
    var evs := DownRun(budget) + UpRun(budget);
    RunsWithin(budget);
    var h3 := DownAll(cfg, workerModel, budget);
    var h := UpAll(cfg, budget, h3);
    ReachesConcat(Stepper(cfg), Initial(workerModel), DownRun(budget), h3, UpRun(budget), h);
    ReachesIsRun(cfg, workerModel, evs, h);
    DownIsFull(budget, h3);
    TasksAreBounded(cfg, workerModel, evs, budget);
    FullTree(budget, h.tasks);
    AllSplits(budget);
    LedgerCountsSplits(cfg, workerModel, evs, |evs|);
    assert Reaching(cfg, workerModel, budget, evs);
  }

  /** At the default budget: 2625 ids and 643 splits. */
  lemma DefaultBoundsAreReached(cfg: Config, workerModel: Option<string>, budget: nat) returns (evs: seq<Event>)
    requires budget == DEFAULT_BUDGET_MAX_AGENTS
    ensures Within(budget, evs)
    ensures |Run(cfg, workerModel, evs).tasks| == 2625 && SuccessfulSplits(cfg, workerModel, evs, |evs|) == 643
  {
    BoundsAreReached(cfg, workerModel, budget);
    evs :| Reaching(cfg, workerModel, budget, evs);
    DefaultNumbers(budget);
  }
}
