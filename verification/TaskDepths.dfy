/** taskDepthsById (plugin/src/state.ts): a memoised depth-first search for longest dependency paths. */
module TaskDepths {
  type Id = string

  /** Known tasks with the dependencies they list; a listed dependency need not be known. */
  type Graph = map<Id, seq<Id>>

  datatype Node = Node(id: Id, dependencies: seq<Id>)

  /** A chain of known tasks, each listing the next one. */
  ghost predicate Path(g: Graph, p: seq<Id>) {
    && p != []
    && (forall k | 0 <= k < |p| :: p[k] in g)
    && (forall k | 0 <= k < |p| - 1 :: p[k + 1] in g[p[k]])
  }

  /** The longest chain from `t` has exactly `d` steps. */
  ghost predicate LongestPath(g: Graph, t: Id, d: nat) {
    && (exists p :: Path(g, p) && p[0] == t && |p| == d + 1)
    && (forall p | Path(g, p) && p[0] == t :: |p| <= d + 1)
  }

  /** `rank` witnesses that the graph has no cycle. */
  ghost predicate Ranked(g: Graph, rank: map<Id, nat>) {
    forall t | t in g :: t in rank && forall d | d in g[t] && d in g :: d in rank && rank[d] < rank[t]
  }

  function Known(g: Graph, ids: seq<Id>): (r: seq<Id>)
    ensures forall d :: d in r <==> d in ids && d in g
  {
    if ids == [] then []
    else if ids[0] in g then [ids[0]] + Known(g, ids[1..]) else Known(g, ids[1..])
  }

  /** Reference definition: 0, or one more than the deepest known dependency. */
  ghost function Depth(g: Graph, rank: map<Id, nat>, t: Id): nat
    requires Ranked(g, rank) && t in g
    decreases rank[t], 1, 0
  {
    if Known(g, g[t]) == [] then 0 else 1 + Deepest(g, rank, t, Known(g, g[t]))
  }

  ghost function Deepest(g: Graph, rank: map<Id, nat>, t: Id, ids: seq<Id>): nat
    requires Ranked(g, rank) && t in g && forall d | d in ids :: d in g && d in g[t]
    decreases rank[t], 0, |ids|
  {
    if ids == [] then 0
    else
      var d, rest := Depth(g, rank, ids[0]), Deepest(g, rank, t, ids[1..]);
      if d > rest then d else rest
  }

  lemma {:induction false} DeepestBounds(g: Graph, rank: map<Id, nat>, t: Id, ids: seq<Id>)
    requires Ranked(g, rank) && t in g && forall d | d in ids :: d in g && d in g[t]
    ensures forall d | d in ids :: Depth(g, rank, d) <= Deepest(g, rank, t, ids)
    ensures ids != [] ==> exists d :: d in ids && Depth(g, rank, d) == Deepest(g, rank, t, ids)
  {
    if ids != [] {
      DeepestBounds(g, rank, t, ids[1..]);
      assert ids[0] in ids;
    }
  }

  lemma {:induction false} ChainFitsDepth(g: Graph, rank: map<Id, nat>, p: seq<Id>)
    requires Ranked(g, rank) && Path(g, p)
    ensures |p| <= Depth(g, rank, p[0]) + 1
    decreases |p|
  {
    if |p| > 1 {
      ChainFitsDepth(g, rank, p[1..]);
      assert p[1] in Known(g, g[p[0]]);
      DeepestBounds(g, rank, p[0], Known(g, g[p[0]]));
    }
  }

  lemma {:induction false} DepthHasChain(g: Graph, rank: map<Id, nat>, t: Id) returns (p: seq<Id>)
    requires Ranked(g, rank) && t in g
    ensures Path(g, p) && p[0] == t && |p| == Depth(g, rank, t) + 1
    decreases rank[t]
  {
    p := [t];
    var deps := Known(g, g[t]);
    if deps != [] {
      DeepestBounds(g, rank, t, deps);
      var d :| d in deps && Depth(g, rank, d) == Deepest(g, rank, t, deps);
      var rest := DepthHasChain(g, rank, d);
      p := [t] + rest;
    }
  }

  /** The reference definition is the length of the longest dependency chain. */
  lemma DepthIsLongestPath(g: Graph, rank: map<Id, nat>, t: Id)
    requires Ranked(g, rank) && t in g
    ensures LongestPath(g, t, Depth(g, rank, t))
  {
    var p := DepthHasChain(g, rank, t);
    forall q | Path(g, q) && q[0] == t
      ensures |q| <= Depth(g, rank, t) + 1
    {
      ChainFitsDepth(g, rank, q);
    }
  }

  /** A table of all reference depths of a graph without cycles. */
  ghost predicate Tells(g: Graph, rank: map<Id, nat>, expected: map<Id, nat>) {
    Ranked(g, rank) && expected.Keys == g.Keys && forall t {:trigger Depth(g, rank, t)} | t in g :: expected[t] == Depth(g, rank, t)
  }

  ghost function Table(g: Graph, rank: map<Id, nat>): (expected: map<Id, nat>)
    requires Ranked(g, rank)
    ensures Tells(g, rank, expected)
  {
    map t | t in g :: Depth(g, rank, t)
  }

  /** `best` is the maximum depth among the first `n` of `ids`, if there is one. */
  ghost predicate MaximumOver(expected: map<Id, nat>, ids: seq<Id>, n: nat, best: nat)
    requires n <= |ids|
  {
    && (forall j | 0 <= j < n :: ids[j] in expected && expected[ids[j]] <= best)
    && (n > 0 ==> exists j :: 0 <= j < n && expected[ids[j]] == best)
  }

  lemma ExtendMaximum(expected: map<Id, nat>, ids: seq<Id>, n: nat, best: nat, d: nat)
    requires n < |ids| && MaximumOver(expected, ids, n, best) && ids[n] in expected && expected[ids[n]] == d
    ensures MaximumOver(expected, ids, n + 1, if n == 0 || d > best then d else best)
  {
    if n > 0 && d <= best {
      var j :| 0 <= j < n && expected[ids[j]] == best;
    }
  }

  /** Any order of trying the dependencies finds the same maximum. */
  lemma MaximumIsDeepest(g: Graph, rank: map<Id, nat>, expected: map<Id, nat>, t: Id, order: seq<Id>, best: nat)
    requires Tells(g, rank, expected) && t in g && forall d :: d in order <==> d in Known(g, g[t])
    requires MaximumOver(expected, order, |order|, best)
    ensures expected[t] == if order == [] then 0 else 1 + best
  {
    var known := Known(g, g[t]);
    assert expected[t] == Depth(g, rank, t);
    if known != [] {
      assert known[0] in order;
    }
    if order != [] {
      assert order[0] in known;
      DeepestBounds(g, rank, t, known);
      var j :| 0 <= j < |order| && expected[order[j]] == best;
      assert order[j] in known && Depth(g, rank, order[j]) == best;
      forall d | d in known
        ensures Depth(g, rank, d) <= best
      {
        assert d in order;
      }
    }
  }

  /** Sorting only changes the order in which the dependencies are tried. */
  ghost predicate Rearranges(arrange: seq<Id> -> seq<Id>) {
    forall s, d :: d in arrange(s) <==> d in s
  }

  /** The mutable state of one traversal. */
  class Traversal {
    const byId: Graph
    /** `.sort()`; see Rearranges. */
    const arrange: seq<Id> -> seq<Id>
    var depths: map<Id, nat>
    var visiting: set<Id>

    constructor (byId: Graph, arrange: seq<Id> -> seq<Id>)
      ensures this.byId == byId && this.arrange == arrange && depths == map[] && visiting == {}
    {
      this.byId, this.arrange, depths, visiting := byId, arrange, map[], {};
    }

    /** The table is exact so far, and `taskId` lies strictly below every task still being visited. */
    ghost predicate Good(rank: map<Id, nat>, expected: map<Id, nat>, taskId: Id)
      reads this
    {
      && visiting <= byId.Keys && Tells(byId, rank, expected) && Exact(expected)
      && (taskId in byId ==> forall v | v in visiting :: rank[taskId] < rank[v])
    }

    /** The table is exact so far, and `taskId` is the lowest task still being visited. */
    ghost predicate GoodBelow(rank: map<Id, nat>, expected: map<Id, nat>, taskId: Id)
      reads this
    {
      && visiting <= byId.Keys && Tells(byId, rank, expected) && Exact(expected)
      && taskId in byId && forall v | v in visiting :: rank[taskId] <= rank[v]
    }

    /** Every memoised entry is the reference depth. */
    ghost predicate Exact(expected: map<Id, nat>)
      reads this
    {
      forall t | t in depths :: t in expected && depths[t] == expected[t]
    }

    /** On any graph this terminates; on a graph without cycles it returns and memoises exact depths. */
    method DepthOf(taskId: Id, ghost rank: map<Id, nat>, ghost expected: map<Id, nat>) returns (depth: nat)
      requires Rearranges(arrange)
      requires depths.Keys <= byId.Keys && visiting <= byId.Keys
      modifies this
      ensures visiting == old(visiting) && old(depths.Keys) <= depths.Keys <= byId.Keys
      ensures taskId in byId && taskId !in old(visiting) ==> taskId in depths
      ensures old(Good(rank, expected, taskId)) ==>
                Exact(expected) && (taskId in byId ==> depth == expected[taskId])
      decreases |byId.Keys - visiting|, 0
    {
      if taskId in depths { return depths[taskId]; }
      if taskId in visiting { return 0; }
      if taskId !in byId { return 0; }
      ghost var good := Good(rank, expected, taskId);
      StrictlyFewer(byId.Keys, visiting, taskId);
      visiting := visiting + {taskId};
      var dependencies := arrange(Known(byId, byId[taskId]));
      var deepest := DeepestOf(taskId, dependencies, rank, expected);
      depth := if |dependencies| == 0 then 0 else 1 + deepest;
      if good {
        SoundEntry(rank, expected, taskId, dependencies, deepest, depth);
      }
      visiting := visiting - {taskId};
      depths := depths[taskId := depth];
    }

    lemma SoundEntry(rank: map<Id, nat>, expected: map<Id, nat>, taskId: Id, dependencies: seq<Id>, deepest: nat,
                     depth: nat)
      requires Tells(byId, rank, expected) && taskId in byId
      requires forall d :: d in dependencies <==> d in Known(byId, byId[taskId])
      requires MaximumOver(expected, dependencies, |dependencies|, deepest)
      requires depth == if |dependencies| == 0 then 0 else 1 + deepest
      requires Exact(expected)
      ensures depth == expected[taskId]
      ensures forall t | t in depths[taskId := depth] :: t in expected && depths[taskId := depth][t] == expected[t]
    {
      MaximumIsDeepest(byId, rank, expected, taskId, dependencies, deepest);
    }

    /** Math.max over the depths of the dependencies of the task that was entered last. */
    method DeepestOf(taskId: Id, dependencies: seq<Id>, ghost rank: map<Id, nat>, ghost expected: map<Id, nat>)
      returns (deepest: nat)
      requires Rearranges(arrange)
      requires taskId in visiting && depths.Keys <= byId.Keys && visiting <= byId.Keys
      requires forall d | d in dependencies :: d in byId && d in byId[taskId]
      modifies this
      ensures visiting == old(visiting) && old(depths.Keys) <= depths.Keys <= byId.Keys
      ensures old(GoodBelow(rank, expected, taskId)) ==> Exact(expected) && MaximumOver(expected, dependencies, |dependencies|, deepest)
      decreases |byId.Keys - visiting|, 1
    {
      ghost var good := GoodBelow(rank, expected, taskId);
      deepest := 0;
      for k := 0 to |dependencies|
        invariant visiting == old(visiting) && old(depths.Keys) <= depths.Keys <= byId.Keys
        invariant good ==> Exact(expected)
        invariant good ==> MaximumOver(expected, dependencies, k, deepest)
      {
        assert dependencies[k] in byId && dependencies[k] in byId[taskId];
        var d := DepthOf(dependencies[k], rank, expected);
        if good {
          ExtendMaximum(expected, dependencies, k, deepest, d);
        }
        if k == 0 || d > deepest {
          deepest := d;
        }
      }
    }
  }

  lemma StrictlyFewer(all: set<Id>, seen: set<Id>, t: Id)
    requires t in all && t !in seen
    ensures |all - (seen + {t})| < |all - seen|
  {
    assert all - (seen + {t}) == (all - seen) - {t};
  }

  /** The task table; a later task with the same id replaces an earlier one. */
  function ById(tasks: seq<Node>): (g: Graph)
    ensures forall t :: t in g <==> exists k :: 0 <= k < |tasks| && tasks[k].id == t
  {
    if tasks == [] then map[]
    else ById(tasks[..|tasks| - 1])[tasks[|tasks| - 1].id := tasks[|tasks| - 1].dependencies]
  }

  /** Every task gets a depth; without cycles it is the length of its longest dependency chain. */
  method TaskDepthsById(tasks: seq<Node>, arrange: seq<Id> -> seq<Id>, ghost rank: map<Id, nat>)
    returns (depths: map<Id, nat>)
    requires Rearranges(arrange)
    ensures depths.Keys == ById(tasks).Keys
    ensures Ranked(ById(tasks), rank) ==> forall t | t in depths :: LongestPath(ById(tasks), t, depths[t])
  {
    var byId := ById(tasks);
    ghost var expected := if Ranked(byId, rank) then Table(byId, rank) else map[];
    var traversal := new Traversal(byId, arrange);
    for k := 0 to |tasks|
      invariant traversal.visiting == {} && traversal.depths.Keys <= byId.Keys
      invariant forall j | 0 <= j < k :: tasks[j].id in traversal.depths
      invariant Ranked(byId, rank) ==> traversal.Exact(expected)
    {
      var _ := traversal.DepthOf(tasks[k].id, rank, expected);
    }
    depths := traversal.depths;
    if Ranked(byId, rank) {
      forall t | t in depths
        ensures LongestPath(byId, t, depths[t])
      {
        assert expected[t] == Depth(byId, rank, t);
        DepthIsLongestPath(byId, rank, t);
      }
    }
  }
}
