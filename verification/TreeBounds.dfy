/** Counting what breadth^depth budgets allow: powers, the widest split, and the ids a tree can hold. */
module TreeBounds {

  function Pow(b: nat, e: nat): nat {
    if e == 0 then 1 else b * Pow(b, e - 1)
  }

  /** The widest split a budget allows at exponent `e`. */
  function Widest(budget: nat, e: nat): nat { WidestUpTo(budget, e, budget) }

  function WidestUpTo(budget: nat, e: nat, b: nat): (r: nat)
    ensures forall c | 1 <= c <= b && Pow(c, e) <= budget :: c <= r
    ensures r <= b && (r > 0 ==> Pow(r, e) <= budget)
  {
    if b == 0 || Pow(b, e) <= budget then b else WidestUpTo(budget, e, b - 1)
  }

  lemma {:induction false} PowAtLeastBase(b: nat, e: nat)
    requires e >= 1
    ensures b <= Pow(b, e)
  {
    if e == 1 {
      assert Pow(b, 1) == b * Pow(b, 0);
    } else if b > 0 {
      PowAtLeastBase(b, e - 1);
      assert Pow(b, e) == b * Pow(b, e - 1);
    }
  }

  /** A set has fewer than two elements exactly when all it has are equal. */
  lemma AtMostOne<T>(s: set<T>)
    ensures |s| < 2 <==> forall a, b | a in s && b in s :: a == b
  {
    if s != {} {
      var a :| a in s;
      var rest := s - {a};
      assert s == rest + {a};
      if rest != {} {
        var b :| b in rest;
        assert rest == rest - {b} + {b};
      }
    }
  }

  lemma Scale(a: nat, b: nat, k: nat)
    requires a <= b
    ensures a * k <= b * k
  {
    assert b * k == a * k + (b - a) * k;
  }

  lemma {:induction false} PowMonotone(a: nat, b: nat, e: nat)
    requires a <= b
    ensures Pow(a, e) <= Pow(b, e)
  {
    if e > 0 {
      PowMonotone(a, b, e - 1);
      Scale(Pow(a, e - 1), Pow(b, e - 1), a);
      Scale(a, b, Pow(b, e - 1));
    }
  }

  lemma {:induction false} PowGrows(b: nat, d: nat, e: nat)
    requires b >= 1 && d <= e
    ensures 1 <= Pow(b, d) <= Pow(b, e)
  {
    if d < e {
      PowGrows(b, d, e - 1);
      Scale(1, b, Pow(b, e - 1));
    } else if d > 0 {
      PowGrows(b, d - 1, e - 1);
      Scale(1, b, Pow(b, e - 1));
    }
  }

  lemma {:induction false} PowOfOne(e: nat)
    ensures Pow(1, e) == 1
  {
    if e > 0 {
      PowOfOne(e - 1);
    }
  }

  lemma WidestIsWidest(budget: nat, e: nat, b: nat)
    requires e >= 1 && b >= 1
    ensures b <= Widest(budget, e) <==> Pow(b, e) <= budget
  {
    PowAtLeastBase(b, e);
    if b <= Widest(budget, e) {
      PowMonotone(b, Widest(budget, e), e);
    }
  }

  lemma WidestIs(budget: nat, e: nat, w: nat)
    requires 1 <= e <= 3 && w >= 1
    requires Pow(w, e) <= budget < Pow(w + 1, e)
    ensures Widest(budget, e) == w
  {
    WidestIsWidest(budget, e, w);
    WidestIsWidest(budget, e, w + 1);
  }

  lemma SmallPowers(b: nat)
    ensures Pow(b, 1) == b && Pow(b, 2) == b * b && Pow(b, 3) == b * b * b
  {
    assert Pow(b, 1) == b * Pow(b, 0);
    assert Pow(b, 2) == b * Pow(b, 1);
    assert Pow(b, 3) == b * (b * b);
  }

  /** At the default budget of 64 a split may be 64, 8 or 4 wide at exponent 1, 2 or 3. */
  lemma DefaultWidths(budget: nat)
    requires budget == 64
    ensures Widest(budget, 1) == 64 && Widest(budget, 2) == 8 && Widest(budget, 3) == 4
  {
    SmallPowers(64);
    SmallPowers(65);
    SmallPowers(8);
    SmallPowers(9);
    SmallPowers(4);
    SmallPowers(5);
    WidestIs(budget, 1, 64);
    WidestIs(budget, 2, 8);
    WidestIs(budget, 3, 4);
  }

  // ---- Trees of ids ---------------------------------------------------------------------------------

  /** Every id extended by every name. */
  ghost function Extend<T(!new)>(ids: set<seq<T>>, labels: set<T>): set<seq<T>> {
    set id, c | id in ids && c in labels :: id + [c]
  }

  ghost function AllWith<T(!new)>(ids: set<seq<T>>, c: T): set<seq<T>> {
    set id | id in ids :: id + [c]
  }

  lemma ExtendStep<T(!new)>(ids: set<seq<T>>, labels: set<T>, c: T)
    requires c in labels
    ensures Extend(ids, labels) == Extend(ids, labels - {c}) + AllWith(ids, c)
    ensures Extend(ids, labels - {c}) !! AllWith(ids, c)
  {
    forall x | x in Extend(ids, labels - {c}) ensures x !in AllWith(ids, c) {
      assert x[|x| - 1] in labels - {c};
    }
  }

  lemma {:induction false} ExtendSize<T(!new)>(ids: set<seq<T>>, labels: set<T>)
    ensures |Extend(ids, labels)| == Times(|ids|, |labels|)
    decreases |labels|
  {
    if labels == {} {
      assert Extend(ids, labels) == {};
    } else {
      var c :| c in labels;
      var rest := labels - {c};
      assert |labels| == |rest| + 1;
      ExtendStep(ids, labels, c);
      ExtendSize(ids, rest);
      AllWithSize(ids, c);
      DisjointUnion(Extend(ids, rest), AllWith(ids, c));
    }
  }

  /** Repeated addition, which needs no multiplication of two unknowns. */
  function Times(a: nat, n: nat): nat { if n == 0 then 0 else Times(a, n - 1) + a }

  lemma {:induction false} TimesIsProduct(a: nat, n: nat)
    ensures Times(a, n) == a * n
  {
    if n > 0 {
      TimesIsProduct(a, n - 1);
      assert a * n == a * (n - 1) + a;
    }
  }

  lemma DisjointUnion<T>(a: set<T>, b: set<T>)
    requires a !! b
    ensures |a + b| == |a| + |b|
  {
  }

  lemma AppendDiffers<T>(a: seq<T>, b: seq<T>, c: T)
    requires a != b
    ensures a + [c] != b + [c]
  {
    assert (a + [c])[..|a|] == a;
    assert (b + [c])[..|b|] == b;
  }

  lemma {:induction false} AllWithSize<T(!new)>(ids: set<seq<T>>, c: T)
    ensures |AllWith(ids, c)| == |ids|
    decreases |ids|
  {
    if ids != {} {
      var one :| one in ids;
      var rest := ids - {one};
      AllWithSize(rest, c);
      forall other | other in rest ensures other + [c] != one + [c] {
        AppendDiffers(other, one, c);
      }
      assert AllWith(ids, c) == AllWith(rest, c) + {one + [c]};
    }
  }

  lemma SubsetSize<T>(a: set<T>, b: set<T>)
    requires a <= b
    ensures |a| <= |b|
  {
    assert b == a + (b - a);
  }

  /** Children numbered from 1. */
  function Number(i: nat): nat { i + 1 }

  /** How the children of a node are named, first to last. */
  ghost predicate Injective<T(!new)>(name: nat -> T) {
    forall i, j :: name(i) == name(j) ==> i == j
  }

  ghost function Labels<T(!new)>(name: nat -> T, w: nat): set<T> {
    set i: nat | i < w :: name(i)
  }

  lemma {:induction false} LabelsSize<T(!new)>(name: nat -> T, w: nat)
    requires Injective(name)
    ensures |Labels(name, w)| == w
  {
    if w == 0 {
      assert Labels(name, 0) == {};
    } else {
      LabelsSize(name, w - 1);
      assert Labels(name, w) == Labels(name, w - 1) + {name(w - 1)};
    }
  }

  /** The ids `d` steps below `root` in the tree whose nodes at depth k have `widths[k]` children. */
  ghost function LevelBelow<T(!new)>(root: seq<T>, widths: seq<nat>, name: nat -> T, d: nat): set<seq<T>>
    requires d <= |widths|
  {
    if d == 0 then {root} else Extend(LevelBelow(root, widths, name, d - 1), Labels(name, widths[d - 1]))
  }

  lemma {:induction false} LevelDepth<T(!new)>(root: seq<T>, widths: seq<nat>, name: nat -> T, d: nat, id: seq<T>)
    requires d <= |widths| && id in LevelBelow(root, widths, name, d)
    ensures |id| == |root| + d
  {
    if d > 0 {
      assert id[..|id| - 1] in LevelBelow(root, widths, name, d - 1);
      LevelDepth(root, widths, name, d - 1, id[..|id| - 1]);
    }
  }

  lemma LevelMember<T(!new)>(root: seq<T>, widths: seq<nat>, name: nat -> T, d: nat, id: seq<T>, i: nat)
    requires d < |widths| && id in LevelBelow(root, widths, name, d) && i < widths[d]
    ensures id + [name(i)] in LevelBelow(root, widths, name, d + 1)
  {
    assert name(i) in Labels(name, widths[d]);
    assert id + [name(i)] in Extend(LevelBelow(root, widths, name, d), Labels(name, widths[d]));
  }

  lemma LevelSize<T(!new)>(root: seq<T>, widths: seq<nat>, name: nat -> T, d: nat)
    requires d <= |widths| && Injective(name)
    ensures d == 0 ==> |LevelBelow(root, widths, name, d)| == 1
    ensures d > 0 ==>
      |LevelBelow(root, widths, name, d)| == |LevelBelow(root, widths, name, d - 1)| * widths[d - 1]
  {
    if d > 0 {
      var above := LevelBelow(root, widths, name, d - 1);
      ExtendSize(above, Labels(name, widths[d - 1]));
      LabelsSize(name, widths[d - 1]);
      TimesIsProduct(|above|, widths[d - 1]);
    }
  }

  /** The tree three steps deep. */
  ghost function TreeBelow<T(!new)>(root: seq<T>, widths: seq<nat>, name: nat -> T): set<seq<T>>
    requires |widths| == 3
  {
    LevelBelow(root, widths, name, 0) + LevelBelow(root, widths, name, 1) +
    LevelBelow(root, widths, name, 2) + LevelBelow(root, widths, name, 3)
  }

  function TreeSize(widths: seq<nat>): int
    requires |widths| == 3
  {
    1 + widths[0] + widths[0] * widths[1] + widths[0] * widths[1] * widths[2]
  }

  lemma LevelSizes<T(!new)>(root: seq<T>, widths: seq<nat>, name: nat -> T)
    requires |widths| == 3 && Injective(name)
    ensures |LevelBelow(root, widths, name, 0)| == 1
    ensures |LevelBelow(root, widths, name, 1)| == widths[0]
    ensures |LevelBelow(root, widths, name, 2)| == widths[0] * widths[1]
    ensures |LevelBelow(root, widths, name, 3)| == widths[0] * widths[1] * widths[2]
  {
    LevelSize(root, widths, name, 0);
    LevelSize(root, widths, name, 1);
    LevelSize(root, widths, name, 2);
    LevelSize(root, widths, name, 3);
  }

  lemma DisjointSizes<T>(a: set<T>, b: set<T>, c: set<T>, d: set<T>)
    requires a !! b && a !! c && a !! d && b !! c && b !! d && c !! d
    ensures |a + b + c + d| == |a| + |b| + |c| + |d|
  {
  }

  lemma LevelsDisjoint<T(!new)>(root: seq<T>, widths: seq<nat>, name: nat -> T, d: nat, e: nat)
    requires d < e <= |widths|
    ensures LevelBelow(root, widths, name, d) !! LevelBelow(root, widths, name, e)
  {
    forall id | id in LevelBelow(root, widths, name, d) ensures id !in LevelBelow(root, widths, name, e) {
      LevelDepth(root, widths, name, d, id);
      if id in LevelBelow(root, widths, name, e) {
        LevelDepth(root, widths, name, e, id);
      }
    }
  }

  /** The tree has exactly 1 + a + ab + abc ids. */
  lemma TreeSizeExact<T(!new)>(root: seq<T>, widths: seq<nat>, name: nat -> T)
    requires |widths| == 3 && Injective(name)
    ensures |TreeBelow(root, widths, name)| == TreeSize(widths)
  {
    LevelSizes(root, widths, name);
    LevelsDisjoint(root, widths, name, 0, 1);
    LevelsDisjoint(root, widths, name, 0, 2);
    LevelsDisjoint(root, widths, name, 0, 3);
    LevelsDisjoint(root, widths, name, 1, 2);
    LevelsDisjoint(root, widths, name, 1, 3);
    LevelsDisjoint(root, widths, name, 2, 3);
    DisjointSizes(LevelBelow(root, widths, name, 0), LevelBelow(root, widths, name, 1),
                  LevelBelow(root, widths, name, 2), LevelBelow(root, widths, name, 3));
  }

  /** The elements of a finite set, each once. */
  ghost function Listing<T(!new)>(s: set<T>): (r: seq<T>)
    ensures |r| == |s|
    ensures forall x :: x in r <==> x in s
    ensures forall i, j | 0 <= i < j < |r| :: r[i] != r[j]
    decreases |s|
  {
    if s == {} then []
    else
      var x :| x in s;
      [x] + Listing(s - {x})
  }
}
