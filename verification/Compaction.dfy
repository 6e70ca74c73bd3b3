/** History compaction: serializedChars and compactHistory of dsh-lite-cpp/src/compaction.cpp. */
module Compaction {
  import opened Decimals
  import opened Sanitizer

  datatype Message = Message(role: string, content: string)

  /** Character counts, defaults 8192, 4096 and 1024. */
  datatype Config = Config(threshold: int, head: nat, tail: nat)

  const MARKER_RESERVE := 256
  const LONG_MAX: int := 0x7FFF_FFFF_FFFF_FFFF
  const SYSTEM: string := "system"
  const USER: string := "user"

  // ---- Sizes ---------------------------------------------------------------------------------------

  function Size(m: Message): nat { |m.role| + |m.content| + 4 }

  function SerializedChars(h: seq<Message>): nat {
    if h == [] then 0 else Size(h[0]) + SerializedChars(h[1..])
  }

  lemma {:induction false} SizeConcat(a: seq<Message>, b: seq<Message>)
    ensures SerializedChars(a + b) == SerializedChars(a) + SerializedChars(b)
  {
    if a == [] {
      assert a + b == b;
    } else {
      assert (a + b)[1..] == a[1..] + b;
      SizeConcat(a[1..], b);
    }
  }

  // ---- The protected turns ----------------------------------------------------------------------------

  /** Position of the last user message, or -1. */
  function LastUser(h: seq<Message>): (r: int)
    ensures -1 <= r < |h|
    ensures r >= 0 ==> h[r].role == USER
    ensures forall j | r < j < |h| :: h[j].role != USER
  {
    if h == [] then -1 else if h[|h| - 1].role == USER then |h| - 1 else LastUser(h[..|h| - 1])
  }

  /** A leading system message, the final message and the last user message are never pruned. */
  predicate Protected(h: seq<Message>, i: nat) {
    (i == 0 && h != [] && h[0].role == SYSTEM) || i == |h| - 1 || i == LastUser(h)
  }

  function Guards(h: seq<Message>): (g: seq<bool>)
    ensures |g| == |h| && forall i | 0 <= i < |h| :: g[i] == Protected(h, i)
  {
    seq(|h|, i requires 0 <= i => Protected(h, i))
  }

  // ---- Stage 1: shorten single turns ---------------------------------------------------------------------

  function Shorten(cfg: Config, content: string): string {
    var clean := Sanitize(content);
    if |clean| > cfg.head + cfg.tail > 0 then clean[..cfg.head] + TRUNCATION_MARKER + clean[|clean| - cfg.tail..]
    else clean
  }

  function Shortened(cfg: Config, h: seq<Message>, g: seq<bool>): (r: seq<Message>)
    requires |g| == |h|
    ensures |r| == |h|
    ensures forall i | 0 <= i < |h| :: r[i] == if g[i] then h[i] else h[i].(content := Shorten(cfg, h[i].content))
  {
    seq(|h|, i requires 0 <= i < |h| => if g[i] then h[i] else h[i].(content := Shorten(cfg, h[i].content)))
  }

  // ---- Stage 2: drop middle turns, oldest first -------------------------------------------------------------

  /** `h` without its first `k` unguarded turns. */
  function Without(h: seq<Message>, g: seq<bool>, k: nat): (r: seq<Message>)
    requires |g| == |h|
    ensures |r| <= |h|
  {
    if h == [] || k == 0 then h
    else if g[0] then [h[0]] + Without(h[1..], g[1..], k)
    else Without(h[1..], g[1..], k - 1)
  }

  /** How many turns may be dropped. */
  function Prunable(g: seq<bool>): nat {
    if g == [] then 0 else (if g[0] then 0 else 1) + Prunable(g[1..])
  }

  /** Where the first turn that may be dropped stands. */
  function FirstPrunable(g: seq<bool>): (i: nat)
    ensures i <= |g| && (forall j | 0 <= j < i :: g[j]) && (i < |g| ==> !g[i])
  {
    if g == [] || !g[0] then 0 else 1 + FirstPrunable(g[1..])
  }

  /** Division by two toward zero. */
  function Half(n: int): int { if n >= 0 then n / 2 else -((-n) / 2) }

  function Target(threshold: int): int {
    threshold - (if MARKER_RESERVE < Half(threshold) then MARKER_RESERVE else Half(threshold))
  }

  /** Drops go on from `k` until one has been made and the rest fits, or none is left to make. */
  function Drops(h: seq<Message>, g: seq<bool>, target: int, k: nat): (r: nat)
    requires |g| == |h| && k <= Prunable(g)
    ensures k <= r <= Prunable(g)
    ensures r == Prunable(g) || (r > 0 && SerializedChars(Without(h, g, r)) <= target)
    ensures forall j | k <= j < r :: j == 0 || SerializedChars(Without(h, g, j)) > target
    decreases Prunable(g) - k
  {
    if k == Prunable(g) || (k > 0 && SerializedChars(Without(h, g, k)) <= target) then k else Drops(h, g, target, k + 1)
  }

  const MARKER_START: string := "[HOST COMPACTION] "
  const MARKER_MIDDLE: string := " middle turn(s) pruned to protect " + "brain context (G2.5, budget "
  const MARKER_CLOSE: string := " chars) "
  const MARKER_END: string := " full detail lives in ledger " + "lines + patch artifacts, not here"
  const DASH: string := "\U{2014}"

  /** The host's note in place of the dropped turns. */
  function Marker(dropped: nat, threshold: int): Message {
    Message(USER, Sanitize(MARKER_START + Decimal(dropped) + MARKER_MIDDLE + Decimal(threshold) + MARKER_CLOSE +
                           (DASH + MARKER_END)))
  }

  /** The first `k` unguarded turns collapse into one note where the first of them stood. */
  function Collapse(h: seq<Message>, g: seq<bool>, k: nat, note: Message): seq<Message>
    requires |g| == |h|
  {
    var rest := Without(h, g, k);
    var at := if FirstPrunable(g) < |rest| then FirstPrunable(g) else |rest|;
    rest[..at] + [note] + rest[at..]
  }

  function Pruned(cfg: Config, h: seq<Message>, g: seq<bool>): seq<Message>
    requires |g| == |h|
  {
    var k := Drops(h, g, Target(cfg.threshold), 0);
    if k == 0 then h else Collapse(h, g, k, Marker(k, cfg.threshold))
  }

  /** compactHistory: the new history and whether the host is told it changed. */
  function Compact(cfg: Config, h: seq<Message>): (seq<Message>, bool) {
    if h == [] || SerializedChars(h) <= cfg.threshold then (h, false)
    else
      var g := Guards(h);
      var h1 := Shortened(cfg, h, g);
      if SerializedChars(h1) <= cfg.threshold then (h1, h1 != h)
      else (Pruned(cfg, h1, g), h1 != h || Drops(h1, g, Target(cfg.threshold), 0) > 0)
  }

  // ---- Which turns survive, and where ----------------------------------------------------------------------

  function Min(a: nat, b: nat): nat { if a < b then a else b }

  /** How many of the first `k` unguarded turns stand before `i`. */
  function DroppedBefore(g: seq<bool>, k: nat, i: nat): nat
    requires i <= |g|
  {
    Min(k, Prunable(g[..i]))
  }

  lemma {:induction false} PrunableBefore(g: seq<bool>, i: nat)
    requires i <= |g|
    ensures Prunable(g[..i]) <= i && Prunable(g[..i]) <= Prunable(g)
    ensures i < |g| && !g[i] ==> Prunable(g[..i]) < Prunable(g)
  {
    if i > 0 {
      PrunableBefore(g[1..], i - 1);
      assert g[..i][1..] == g[1..][..i - 1];
    } else {
      assert g[..0] == [];
      if |g| > 0 && !g[0] {
        assert Prunable(g) >= 1;
      }
    }
  }

  lemma {:induction false} WithoutSize(h: seq<Message>, g: seq<bool>, k: nat)
    requires |g| == |h| && k <= Prunable(g)
    ensures |Without(h, g, k)| == |h| - k
  {
    if h != [] && k > 0 {
      WithoutSize(h[1..], g[1..], if g[0] then k else k - 1);
    }
  }

  /** A turn that is guarded, or not among the first `k` unguarded ones, keeps its text and its order. */
  lemma {:induction false} WithoutAt(h: seq<Message>, g: seq<bool>, k: nat, i: nat)
    requires |g| == |h| && i < |h| && (g[i] || Prunable(g[..i]) >= k)
    ensures var j := i - DroppedBefore(g, k, i);
      0 <= j < |Without(h, g, k)| && Without(h, g, k)[j] == h[i]
    decreases |h|
  {
    PrunableBefore(g, i);
    if k > 0 {
      if i == 0 {
        assert g[..0] == [];
      } else {
        assert g[..i][1..] == g[1..][..i - 1];
        WithoutAt(h[1..], g[1..], if g[0] then k else k - 1, i - 1);
      }
    }
  }

  /** How many turns a compaction drops. */
  function Dropped(cfg: Config, h: seq<Message>): nat {
    var g := Guards(h);
    var h1 := Shortened(cfg, h, g);
    if SerializedChars(h) <= cfg.threshold || SerializedChars(h1) <= cfg.threshold then 0
    else Drops(h1, g, Target(cfg.threshold), 0)
  }

  /** Where the turn `i` stands after `k` drops and the marker. */
  function Place(g: seq<bool>, k: nat, i: nat): int
    requires i < |g|
  {
    if i < FirstPrunable(g) then i else i - DroppedBefore(g, k, i) + 1
  }

  /** The turns a compaction keeps: the protected ones and those younger than everything it drops. */
  predicate Survives(cfg: Config, h: seq<Message>, i: nat) {
    i < |h| && (Protected(h, i) || Prunable(Guards(h)[..i]) >= Dropped(cfg, h))
  }

  /** The position of a surviving turn in the compacted history. */
  function PositionOf(cfg: Config, h: seq<Message>, i: nat): int
    requires i < |h|
  {
    if Dropped(cfg, h) == 0 then i else Place(Guards(h), Dropped(cfg, h), i)
  }

  /** What a surviving turn says afterwards. */
  function Kept(cfg: Config, h: seq<Message>, i: nat): Message
    requires i < |h|
  {
    if Protected(h, i) || SerializedChars(h) <= cfg.threshold then h[i]
    else h[i].(content := Shorten(cfg, h[i].content))
  }

  lemma {:induction false} NothingPrunableBefore(g: seq<bool>, i: nat)
    requires i <= FirstPrunable(g)
    ensures Prunable(g[..i]) == 0
  {
    if i > 0 {
      assert g[..i][1..] == g[1..][..i - 1];
      NothingPrunableBefore(g[1..], i - 1);
    } else {
      assert g[..0] == [];
    }
  }

  lemma {:induction false} FirstPrunableExists(g: seq<bool>)
    ensures Prunable(g) > 0 <==> FirstPrunable(g) < |g|
  {
    if g != [] {
      FirstPrunableExists(g[1..]);
    }
  }

  /** The marker goes where the first dropped turn stood. */
  lemma CollapseShape(h: seq<Message>, g: seq<bool>, k: nat, note: Message)
    requires |g| == |h| && 0 < k <= Prunable(g)
    ensures var (rest, at) := (Without(h, g, k), FirstPrunable(g));
      at <= |rest| && |rest| == |h| - k && at < |g| &&
      Collapse(h, g, k, note) == rest[..at] + [note] + rest[at..]
  {
    WithoutSize(h, g, k);
    FirstPrunableExists(g);
    PrunableAfter(g, FirstPrunable(g));
    NothingPrunableBefore(g, FirstPrunable(g));
  }

  lemma {:induction false} PrunableAfter(g: seq<bool>, i: nat)
    requires i <= |g|
    ensures Prunable(g) <= Prunable(g[..i]) + |g| - i
  {
    if i > 0 {
      PrunableAfter(g[1..], i - 1);
      assert g[..i][1..] == g[1..][..i - 1];
    } else {
      PrunableBefore(g, |g|);
      assert g[..|g|] == g && g[..0] == [];
    }
  }

  /** Every surviving turn is found at its position; a protected one is unchanged. */
  lemma SurvivorsStay(cfg: Config, h: seq<Message>, i: nat)
    requires Survives(cfg, h, i)
    ensures 0 <= PositionOf(cfg, h, i) < |Compact(cfg, h).0|
    ensures Compact(cfg, h).0[PositionOf(cfg, h, i)] == Kept(cfg, h, i)
  {
    if Dropped(cfg, h) > 0 {
      var g := Guards(h);
      CollapseKeeps(Shortened(cfg, h, g), g, Dropped(cfg, h), Marker(Dropped(cfg, h), cfg.threshold), i);
    }
  }

  lemma CollapseKeeps(h: seq<Message>, g: seq<bool>, k: nat, note: Message, i: nat)
    requires |g| == |h| && i < |h| && (g[i] || Prunable(g[..i]) >= k) && 0 < k <= Prunable(g)
    ensures var r := Collapse(h, g, k, note);
      0 <= Place(g, k, i) < |r| && r[Place(g, k, i)] == h[i]
  {
    CollapseShape(h, g, k, note);
    WithoutAt(h, g, k, i);
    SurvivorPosition(g, k, i);
  }

  lemma SurvivorPosition(g: seq<bool>, k: nat, i: nat)
    requires i < |g| && 0 < k <= Prunable(g)
    ensures i < FirstPrunable(g) ==> DroppedBefore(g, k, i) == 0
    ensures i >= FirstPrunable(g) ==> i - DroppedBefore(g, k, i) >= FirstPrunable(g)
  {
    var at := FirstPrunable(g);
    if i < at {
      NothingPrunableBefore(g, i);
    } else {
      NothingPrunableBefore(g, at);
      assert g[..i][..at] == g[..at];
      PrunableAfter(g[..i], at);
    }
  }

  /** Survivors keep their order. */
  lemma PositionsIncrease(cfg: Config, h: seq<Message>, i: nat, j: nat)
    requires i < j && Survives(cfg, h, i) && Survives(cfg, h, j)
    ensures PositionOf(cfg, h, i) < PositionOf(cfg, h, j)
  {
    if Dropped(cfg, h) > 0 {
      PlacesIncrease(Guards(h), Dropped(cfg, h), i, j);
    }
  }

  lemma PlacesIncrease(g: seq<bool>, k: nat, i: nat, j: nat)
    requires i < j < |g| && 0 < k <= Prunable(g) && (g[i] || Prunable(g[..i]) >= k)
    ensures Place(g, k, i) < Place(g, k, j)
  {
    SurvivorPosition(g, k, i);
    SurvivorPosition(g, k, j);
    if g[i] {
      PrunableGap(g, i, j);
    } else {
      PrunableBefore(g[..j], i);
      assert g[..j][..i] == g[..i];
    }
  }

  /** Nothing else is in the result but one marker, at the first dropped turn's place. */
  lemma OnlySurvivorsAndTheMarker(cfg: Config, h: seq<Message>, j: nat) returns (i: nat)
    requires j < |Compact(cfg, h).0|
    ensures if Dropped(cfg, h) > 0 && j == FirstPrunable(Guards(h))
      then Compact(cfg, h).0[j] == Marker(Dropped(cfg, h), cfg.threshold)
      else Survives(cfg, h, i) && PositionOf(cfg, h, i) == j && Compact(cfg, h).0[j] == Kept(cfg, h, i)
  {
    i := j;
    if Dropped(cfg, h) > 0 {
      var (g, k) := (Guards(h), Dropped(cfg, h));
      var h1 := Shortened(cfg, h, g);
      CollapseElement(h1, g, k, Marker(k, cfg.threshold), j);
      if j != FirstPrunable(g) {
        i := WithoutFrom(h1, g, k, if j < FirstPrunable(g) then j else j - 1);
        SurvivorPosition(g, k, i);
      }
    }
  }

  lemma {:induction false} PrunableGap(g: seq<bool>, i: nat, j: nat)
    requires i < j <= |g| && g[i]
    ensures Prunable(g[..i]) <= Prunable(g[..j]) < Prunable(g[..i]) + (j - i)
  {
    if i > 0 {
      PrunableGap(g[1..], i - 1, j - 1);
      assert g[..i][1..] == g[1..][..i - 1] && g[..j][1..] == g[1..][..j - 1];
    } else {
      assert g[..0] == [];
      PrunableAfter(g[..j], 1);
      assert g[..j][..1] == [true];
      assert Prunable([true]) == 0 by {
        var one := [true];
        assert one[1..] == [];
      }
    }
  }

  // ---- The budget --------------------------------------------------------------------------------------------

  lemma LongWidth(n: nat)
    requires n <= LONG_MAX
    ensures |Decimal(n)| <= 19
  {
    assert PowerOfTen(5) == 100_000;
    assert PowerOfTen(10) == 10_000_000_000;
    assert PowerOfTen(15) == 1_000_000_000_000_000;
    assert PowerOfTen(19) == 10_000_000_000_000_000_000;
    DecimalWidth(n, 19, PowerOfTen(19));
  }

  /** Whatever it counts, the marker message fits the room reserved for it. */
  lemma MarkerFits(dropped: nat, threshold: int)
    requires dropped <= LONG_MAX && 0 <= threshold <= LONG_MAX
    ensures Size(Marker(dropped, threshold)) <= MARKER_RESERVE
  {
    LongWidth(dropped);
    LongWidth(threshold);
    assert |MARKER_START| == 18 && |MARKER_MIDDLE| == 62 && |MARKER_CLOSE| == 8 && |MARKER_END| == 62;
    var text := MARKER_START + Decimal(dropped) + MARKER_MIDDLE + Decimal(threshold) + MARKER_CLOSE + (DASH + MARKER_END);
    assert |Clean(text)| <= |text| <= 189;
  }

  lemma CollapseSize(h: seq<Message>, g: seq<bool>, k: nat, note: Message)
    requires |g| == |h| && 0 < k <= Prunable(g)
    ensures SerializedChars(Collapse(h, g, k, note)) == SerializedChars(Without(h, g, k)) + Size(note)
  {
    CollapseShape(h, g, k, note);
    var (rest, at) := (Without(h, g, k), FirstPrunable(g));
    SizeConcat(rest[..at] + [note], rest[at..]);
    SizeConcat(rest[..at], [note]);
    SizeConcat(rest[..at], rest[at..]);
    assert rest == rest[..at] + rest[at..];
    SizeOfOne(note);
  }

  lemma SizeOfOne(m: Message)
    ensures SerializedChars([m]) == Size(m)
  {
    var one := [m];
    assert one[1..] == [];
  }

  lemma FitsAfterDrops(h: seq<Message>, g: seq<bool>, k: nat, threshold: int)
    requires |g| == |h| <= LONG_MAX && 512 <= threshold <= LONG_MAX && k == Drops(h, g, Target(threshold), 0) > 0
    ensures var r := Collapse(h, g, k, Marker(k, threshold));
      SerializedChars(r) <= threshold || (k == Prunable(g) && |r| == |h| - k + 1)
  {
    CollapseShape(h, g, k, Marker(k, threshold));
    CollapseSize(h, g, k, Marker(k, threshold));
    PrunableBefore(g, |g|);
    assert g[..|g|] == g;
    MarkerFits(k, threshold);
  }

  /**
   With a threshold of at least 512 characters the compacted history fits it, marker included, or every turn that
   may be dropped is gone; and one drop fewer would not have reached the target.
   */
  lemma FitsOrNothingLeft(cfg: Config, h: seq<Message>)
    requires 512 <= cfg.threshold <= LONG_MAX && |h| <= LONG_MAX
    ensures var (h', g) := (Compact(cfg, h).0, Guards(h));
      var k := Drops(Shortened(cfg, h, g), g, Target(cfg.threshold), 0);
      SerializedChars(h') <= cfg.threshold || (k == Prunable(g) && |h'| == |h| - k + (if k > 0 then 1 else 0))
    ensures var (h1, g) := (Shortened(cfg, h, Guards(h)), Guards(h));
      forall j | 1 <= j < Drops(h1, g, Target(cfg.threshold), 0) ::
        SerializedChars(Without(h1, g, j)) > cfg.threshold - MARKER_RESERVE
  {
    var g := Guards(h);
    var k := Drops(Shortened(cfg, h, g), g, Target(cfg.threshold), 0);
    if k > 0 {
      FitsAfterDrops(Shortened(cfg, h, g), g, k, cfg.threshold);
    }
  }

  /** Under budget nothing happens; "unchanged" is never said of a history that changed. */
  lemma UnchangedIsHonest(cfg: Config, h: seq<Message>)
    ensures SerializedChars(h) <= cfg.threshold ==> Compact(cfg, h) == (h, false)
    ensures !Compact(cfg, h).1 ==> Compact(cfg, h).0 == h
  {
  }

  // ---- Which user message comes last ----------------------------------------------------------------------------

  lemma LastUserIs(h: seq<Message>, i: nat)
    requires i < |h| && h[i].role == USER && forall j | i < j < |h| :: h[j].role != USER
    ensures LastUser(h) == i
  {
  }

  /** Every turn kept by a drop is an original turn, at or after its own place. */
  lemma {:induction false} WithoutFrom(h: seq<Message>, g: seq<bool>, k: nat, j: nat) returns (i: nat)
    requires |g| == |h| && k <= Prunable(g) && j < |Without(h, g, k)|
    ensures i < |h| && Without(h, g, k)[j] == h[i] && (g[i] || Prunable(g[..i]) >= k) && j == i - DroppedBefore(g, k, i)
    decreases |h|
  {
    if k == 0 {
      i := j;
      PrunableBefore(g, i);
    } else if g[0] && j == 0 {
      i := 0;
      assert g[..0] == [];
    } else {
      i := WithoutFrom(h[1..], g[1..], if g[0] then k else k - 1, if g[0] then j - 1 else j);
      assert g[..i + 1][1..] == g[1..][..i];
      i := i + 1;
    }
  }

  lemma CollapseLastUser(h: seq<Message>, g: seq<bool>, k: nat, note: Message)
    requires |g| == |h| && LastUser(h) >= 0 && g[LastUser(h)] && 0 < k <= Prunable(g) && note.role == USER
    ensures LastUser(Collapse(h, g, k, note)) ==
      if FirstPrunable(g) < LastUser(h) then Place(g, k, LastUser(h)) else FirstPrunable(g)
  {
    var (u, at) := (LastUser(h), FirstPrunable(g));
    CollapseKeeps(h, g, k, note, u);
    SurvivorPosition(g, k, u);
    var last := if at < u then Place(g, k, u) else at;
    CollapseElement(h, g, k, note, last);
    forall j | last < j < |Collapse(h, g, k, note)| ensures Collapse(h, g, k, note)[j].role != USER {
      CollapseNoUserAfter(h, g, k, note, j);
    }
    LastUserIs(Collapse(h, g, k, note), last);
  }

  lemma CollapseElement(h: seq<Message>, g: seq<bool>, k: nat, note: Message, j: nat)
    requires |g| == |h| && 0 < k <= Prunable(g)
    ensures var (r, rest, at) := (Collapse(h, g, k, note), Without(h, g, k), FirstPrunable(g));
      |r| == |rest| + 1 && at < |r| &&
      (j < |r| ==> r[j] == if j < at then rest[j] else if j == at then note else rest[j - 1])
  {
    CollapseShape(h, g, k, note);
  }

  lemma CollapseNoUserAfter(h: seq<Message>, g: seq<bool>, k: nat, note: Message, j: nat)
    requires |g| == |h| && LastUser(h) >= 0 && g[LastUser(h)] && 0 < k <= Prunable(g)
    requires var (u, at) := (LastUser(h), FirstPrunable(g));
      (if at < u then Place(g, k, u) else at) < j < |Collapse(h, g, k, note)|
    ensures Collapse(h, g, k, note)[j].role != USER
  {
    SurvivorPosition(g, k, LastUser(h));
    FirstPrunableExists(g);
    CollapseElement(h, g, k, note, j);
    NoUserAfter(h, g, k, j - 1);
  }

  lemma NoUserAfter(h: seq<Message>, g: seq<bool>, k: nat, j: nat)
    requires |g| == |h| && LastUser(h) >= 0 && g[LastUser(h)] && 0 < k <= Prunable(g) && j < |Without(h, g, k)|
    requires var (u, at) := (LastUser(h), FirstPrunable(g));
      at != u && j > (if at < u then u - DroppedBefore(g, k, u) else at - 1)
    ensures Without(h, g, k)[j].role != USER
  {
    var i := WithoutFrom(h, g, k, j);
    LaterOrigin(g, k, LastUser(h), i, FirstPrunable(g));
  }

  lemma ShortenedRoles(cfg: Config, h: seq<Message>, g: seq<bool>)
    requires |g| == |h| && LastUser(h) >= 0
    ensures LastUser(Shortened(cfg, h, g)) == LastUser(h)
  {
    LastUserIs(Shortened(cfg, h, g), LastUser(h));
  }

  /** Shortening is not enough, and there is a turn that may be dropped. */
  predicate MustDrop(cfg: Config, h: seq<Message>) {
    SerializedChars(h) > cfg.threshold && SerializedChars(Shortened(cfg, h, Guards(h))) > cfg.threshold &&
    Prunable(Guards(h)) > 0
  }

  lemma DropsExactly(cfg: Config, h: seq<Message>)
    ensures Dropped(cfg, h) > 0 <==> MustDrop(cfg, h)
  {
  }

  /**
   The marker is written in the user's name. The last user message of the compacted history is still the user's own
   if and only if no turn must be dropped or some turn before it may be.
   */
  lemma LastUserStaysLastExactly(cfg: Config, h: seq<Message>)
    requires LastUser(h) >= 0
    ensures LastUser(Compact(cfg, h).0) == PositionOf(cfg, h, LastUser(h)) <==>
      !MustDrop(cfg, h) || FirstPrunable(Guards(h)) < LastUser(h)
  {
    DropsExactly(cfg, h);
    ShortenedRoles(cfg, h, Guards(h));
    if MustDrop(cfg, h) {
      LastUserAfterDrops(cfg, h);
      assert Protected(h, LastUser(h)) && Guards(h)[LastUser(h)];
      FirstPrunableExists(Guards(h));
    }
  }

  lemma LastUserAfterDrops(cfg: Config, h: seq<Message>)
    requires LastUser(h) >= 0 && Dropped(cfg, h) > 0
    ensures var (g, k) := (Guards(h), Dropped(cfg, h));
      LastUser(Compact(cfg, h).0) ==
        if FirstPrunable(g) < LastUser(h) then Place(g, k, LastUser(h)) else FirstPrunable(g)
  {
    var (g, k) := (Guards(h), Dropped(cfg, h));
    ShortenedRoles(cfg, h, g);
    CollapseLastUser(Shortened(cfg, h, g), g, k, Marker(k, cfg.threshold));
  }

  /** In the other case the next compaction guards the marker, and no longer the user's message before it. */
  lemma MarkerTakesOver(cfg: Config, h: seq<Message>)
    requires LastUser(h) >= 0 && MustDrop(cfg, h) && FirstPrunable(Guards(h)) >= LastUser(h)
    ensures var (h', at) := (Compact(cfg, h).0, FirstPrunable(Guards(h)));
      LastUser(h) < at < |h'| && h'[LastUser(h)] == h[LastUser(h)] && h'[at] == Marker(Dropped(cfg, h), cfg.threshold) &&
      Protected(h', at) && !Protected(h', LastUser(h))
  {
    DropsExactly(cfg, h);
    var (g, u, k) := (Guards(h), LastUser(h), Dropped(cfg, h));
    assert Protected(h, u) && g[u];
    FirstPrunableExists(g);
    SurvivorsStay(cfg, h, u);
    LastUserAfterDrops(cfg, h);
    CollapseElement(Shortened(cfg, h, g), g, k, Marker(k, cfg.threshold), FirstPrunable(g));
  }

  /** Such a history: one question, two answers, a budget of ten characters. */
  lemma QuestionLosesItsGuard(cfg: Config, h: seq<Message>)
    requires cfg.threshold == 10
    requires h == [Message(USER, "x"), Message("assistant", "y"), Message("assistant", "z")]
    ensures var h' := Compact(cfg, h).0; |h'| > 1 && h'[0] == h[0] && Protected(h', 1) && !Protected(h', 0)
  {
    assert LastUser(h) == 0 by {
      LastUserIs(h, 0);
    }
    var g := Guards(h);
    assert !Protected(h, 1) && g[0] && !g[1] && FirstPrunable(g) == 1;
    FirstPrunableExists(g);
    AtLeastRoles(h);
    AtLeastRoles(Shortened(cfg, h, g));
    MarkerTakesOver(cfg, h);
  }

  lemma AtLeastRoles(h: seq<Message>)
    requires |h| == 3
    ensures SerializedChars(h) >= |h[0].role| + |h[1].role| + |h[2].role| + 12
  {
    SizeConcat(h[..1], h[1..]);
    SizeConcat(h[1..][..1], h[1..][1..]);
    assert h == h[..1] + h[1..] && h[1..] == h[1..][..1] + h[1..][1..];
    assert h[..1] == [h[0]] && h[1..][..1] == [h[1]] && h[1..][1..] == [h[2]];
    SizeOfOne(h[0]);
    SizeOfOne(h[1]);
    SizeOfOne(h[2]);
  }

  /** A kept turn standing after the place of `u`, or after the marker, was after `u` to begin with. */
  lemma LaterOrigin(g: seq<bool>, k: nat, u: nat, i: nat, at: nat)
    requires u < |g| && g[u] && i < |g| && k <= Prunable(g) && at == FirstPrunable(g)
    requires i - DroppedBefore(g, k, i) > (if at < u then u - DroppedBefore(g, k, u) else at - 1)
    requires at != u
    ensures i > u
  {
    if i <= u && at < u {
      DroppedGap(g, k, i, u);
    } else if i <= u {
      NothingPrunableBefore(g, i);
    }
  }

  /** Places of turns never cross: between `i` and `u` at most `u - i` turns can be dropped. */
  lemma DroppedGap(g: seq<bool>, k: nat, i: nat, u: nat)
    requires i <= u <= |g|
    ensures DroppedBefore(g, k, u) <= DroppedBefore(g, k, i) + (u - i)
  {
    assert g[..u][..i] == g[..i];
    PrunableAfter(g[..u], i);
  }

  /**
   An executive turn appends the user's input first, so compaction always leaves it last and unchanged, and the marker
   never takes over its guard.
   */
  lemma TurnKeepsInput(cfg: Config, h: seq<Message>, input: string)
    ensures var h' := Compact(cfg, h + [Message(USER, input)]).0;
      h' != [] && h'[|h'| - 1] == Message(USER, input) && LastUser(h') == |h'| - 1
  {
    var h0 := h + [Message(USER, input)];
    InputStays(cfg, h0);
    FinalUserIsLast(Compact(cfg, h0).0);
  }

  lemma FinalUserIsLast(h: seq<Message>)
    requires h != [] && h[|h| - 1].role == USER
    ensures LastUser(h) == |h| - 1
  {
  }

  lemma InputStays(cfg: Config, h: seq<Message>)
    requires h != []
    ensures var h' := Compact(cfg, h).0; h' != [] && h'[|h'| - 1] == h[|h| - 1]
  {
    var (g, k) := (Guards(h), Dropped(cfg, h));
    assert g[|h| - 1];
    if k > 0 {
      CollapseLast(Shortened(cfg, h, g), g, k, Marker(k, cfg.threshold));
    }
  }

  lemma CollapseLast(h: seq<Message>, g: seq<bool>, k: nat, note: Message)
    requires h != [] && |g| == |h| && g[|h| - 1] && 0 < k <= Prunable(g)
    ensures var r := Collapse(h, g, k, note); r != [] && r[|r| - 1] == h[|h| - 1]
  {
    CollapseKeeps(h, g, k, note, |h| - 1);
    PlaceOfLast(g, k);
    WithoutSize(h, g, k);
    CollapseElement(h, g, k, note, 0);
  }

  /** The condition under which the user's message stays the last one holds in every turn. */
  lemma TurnsKeepTheGuard(cfg: Config, h: seq<Message>, input: string)
    ensures var h0 := h + [Message(USER, input)];
      LastUser(h0) == |h| && (!MustDrop(cfg, h0) || FirstPrunable(Guards(h0)) < LastUser(h0))
  {
    var h0 := h + [Message(USER, input)];
    LastUserIs(h0, |h|);
    FirstPrunableExists(Guards(h0));
    assert Protected(h0, |h|) && Guards(h0)[|h|];
  }

  lemma PlaceOfLast(g: seq<bool>, k: nat)
    requires g != [] && g[|g| - 1] && 0 < k <= Prunable(g)
    ensures Place(g, k, |g| - 1) == |g| - k
  {
    FirstPrunableExists(g);
    PrunableLast(g);
  }

  lemma {:induction false} PrunableLast(g: seq<bool>)
    requires g != [] && g[|g| - 1]
    ensures Prunable(g[..|g| - 1]) == Prunable(g)
  {
    if |g| > 1 {
      PrunableLast(g[1..]);
      assert g[..|g| - 1][1..] == g[1..][..|g| - 2];
    }
  }

  // ---- The vector, edited in place --------------------------------------------------------------------------------

  /** Where the k-th turn that may be dropped stands. */
  function NthPrunable(g: seq<bool>, k: nat): (i: nat)
    requires k < Prunable(g)
    ensures i < |g|
  {
    if g[0] then 1 + NthPrunable(g[1..], k) else if k == 0 then 0 else 1 + NthPrunable(g[1..], k - 1)
  }

  lemma {:induction false} NthIs(g: seq<bool>, i: nat)
    requires i < |g| && !g[i]
    ensures Prunable(g[..i]) < Prunable(g) && NthPrunable(g, Prunable(g[..i])) == i
    ensures Prunable(g[..i + 1]) == Prunable(g[..i]) + 1
  {
    PrunableBefore(g, i);
    if i > 0 {
      assert g[..i][1..] == g[1..][..i - 1] && g[..i + 1][1..] == g[1..][..i];
      NthIs(g[1..], i - 1);
    } else {
      assert g[..0] == [] && g[..1][1..] == [];
    }
  }

  lemma {:induction false} GuardedAddsNone(g: seq<bool>, i: nat)
    requires i < |g| && g[i]
    ensures Prunable(g[..i + 1]) == Prunable(g[..i])
  {
    if i > 0 {
      assert g[..i][1..] == g[1..][..i - 1] && g[..i + 1][1..] == g[1..][..i];
      GuardedAddsNone(g[1..], i - 1);
    } else {
      assert g[..0] == [] && g[..1][1..] == [];
    }
  }

  lemma {:induction false} NthZero(g: seq<bool>)
    requires Prunable(g) > 0
    ensures NthPrunable(g, 0) == FirstPrunable(g)
  {
    if g[0] {
      NthZero(g[1..]);
    }
  }

  /** Erasing the next such turn, at its shifted place, is one drop more. */
  lemma {:induction false} EraseNext(h: seq<Message>, g: seq<bool>, k: nat)
    requires |g| == |h| && k < Prunable(g)
    ensures var (rest, i) := (Without(h, g, k), NthPrunable(g, k) - k);
      0 <= i < |rest| && Without(h, g, k + 1) == rest[..i] + rest[i + 1..]
  {
    if g[0] {
      EraseNext(h[1..], g[1..], k);
      ConsErase(h[0], Without(h[1..], g[1..], k), NthPrunable(g[1..], k) - k);
      assert h == [h[0]] + h[1..];
    } else if k > 0 {
      EraseNext(h[1..], g[1..], k - 1);
    } else {
      assert h[..0] + h[1..] == h[1..];
    }
  }

  lemma ConsErase(x: Message, rest: seq<Message>, i: nat)
    requires i < |rest|
    ensures [x] + (rest[..i] + rest[i + 1..]) == ([x] + rest)[..i + 1] + ([x] + rest)[i + 2..]
  {
  }

  class History {
    var turns: seq<Message>

    constructor ()
      ensures turns == []
    {
      turns := [];
    }

    static method Measure(h: seq<Message>) returns (total: nat)
      ensures total == SerializedChars(h)
    {
      total := 0;
      for i := 0 to |h|
        invariant total == SerializedChars(h[..i])
      {
        assert h[..i + 1] == h[..i] + [h[i]];
        SizeConcat(h[..i], [h[i]]);
        SizeOfOne(h[i]);
        total := total + |h[i].role| + |h[i].content| + 4;
      }
      assert h[..|h|] == h;
    }

    static method FindLastUser(h: seq<Message>) returns (r: int)
      ensures r == LastUser(h)
    {
      r := |h| - 1;
      while r >= 0 && h[r].role != USER
        invariant -1 <= r < |h| && LastUser(h) == LastUser(h[..r + 1])
      {
        assert h[..r + 1][..r] == h[..r];
        r := r - 1;
      }
      if r >= 0 {
        assert h[..r + 1][..r] == h[..r];
      }
    }

    /** Which turns are protected. */
    static method FindGuards(h: seq<Message>) returns (g: seq<bool>)
      ensures g == Guards(h)
    {
      var lastUser := FindLastUser(h);
      g := [];
      for i := 0 to |h|
        invariant |g| == i && forall j | 0 <= j < i :: g[j] == Protected(h, j)
      {
        g := g + [(i == 0 && h[0].role == SYSTEM) || i == |h| - 1 || i == lastUser];
      }
    }

    static method ShortenText(cfg: Config, content: string) returns (clean: string)
      ensures clean == Shorten(cfg, content)
    {
      clean := SanitizeBytes(content);
      var cap := cfg.head + cfg.tail;
      if |clean| > cap && cap > 0 {
        clean := clean[..cfg.head] + TRUNCATION_MARKER + clean[|clean| - cfg.tail..];
      }
    }

    /** Sanitize and shorten every turn that is not protected. */
    method ShortenTurns(cfg: Config, g: seq<bool>) returns (changed: bool)
      requires |g| == |turns|
      modifies this
      ensures turns == Shortened(cfg, old(turns), g)
      ensures changed <==> turns != old(turns)
    {
      changed := false;
      ghost var h, goal := turns, Shortened(cfg, turns, g);
      for i := 0 to |turns|
        invariant |turns| == |h| == |goal| && forall j | i <= j < |h| :: turns[j] == h[j]
        invariant forall j | 0 <= j < i :: turns[j] == goal[j]
        invariant changed <==> turns != h
      {
        if !g[i] {
          var clean := ShortenText(cfg, turns[i].content);
          assert goal[i] == h[i].(content := clean);
          if clean != turns[i].content {
            turns := turns[i := turns[i].(content := clean)];
            assert turns[i] != h[i];
            changed := true;
          }
        }
      }
    }

    /** The places of the turns that may be dropped, in order. */
    static method PrunablePlaces(h: seq<Message>, g: seq<bool>) returns (places: seq<nat>)
      requires |g| == |h|
      ensures |places| == Prunable(g) && forall k | 0 <= k < |places| :: places[k] == NthPrunable(g, k)
    {
      places := [];
      assert g[..0] == [];
      for i := 0 to |h|
        invariant |places| == Prunable(g[..i]) <= Prunable(g)
        invariant forall k | 0 <= k < |places| :: places[k] == NthPrunable(g, k)
      {
        if !g[i] {
          NthIs(g, i);
          places := places + [i];
        } else {
          GuardedAddsNone(g, i);
        }
      }
      assert g[..|g|] == g;
    }

    /** Erase prunable turns, oldest first, until one is gone and the rest meets the target. */
    method DropTurns(ghost g: seq<bool>, places: seq<nat>, target: int) returns (dropped: nat)
      requires |g| == |turns| && |places| == Prunable(g)
      requires forall k | 0 <= k < |places| :: places[k] == NthPrunable(g, k)
      modifies this
      ensures dropped == Drops(old(turns), g, target, 0) && turns == Without(old(turns), g, dropped)
    {
      dropped := 0;
      while dropped < |places|
        invariant dropped <= |places| && turns == Without(old(turns), g, dropped)
        invariant Drops(old(turns), g, target, 0) == Drops(old(turns), g, target, dropped)
      {
        var total := Measure(turns);
        if dropped > 0 && total <= target {
          break;
        }
        EraseNext(old(turns), g, dropped);
        var at := places[dropped] - dropped;
        turns := turns[..at] + turns[at + 1..];
        dropped := dropped + 1;
      }
    }

    method CompactTurns(cfg: Config) returns (changed: bool)
      modifies this
      ensures (turns, changed) == Compact(cfg, old(turns))
    {
      var total := Measure(turns);
      if turns == [] || total <= cfg.threshold {
        return false;
      }
      var g := FindGuards(turns);
      changed := ShortenTurns(cfg, g);
      total := Measure(turns);
      if total <= cfg.threshold {
        return;
      }
      var dropped := PruneTurns(cfg, g);
      changed := changed || dropped;
    }

    method PruneTurns(cfg: Config, g: seq<bool>) returns (changed: bool)
      requires |g| == |turns|
      modifies this
      ensures turns == Pruned(cfg, old(turns), g)
      ensures changed <==> Drops(old(turns), g, Target(cfg.threshold), 0) > 0
    {
      var places := PrunablePlaces(turns, g);
      var dropped := DropTurns(g, places, Target(cfg.threshold));
      changed := dropped > 0;
      if changed {
        NthZero(g);
        var at := if places[0] < |turns| then places[0] else |turns|;
        turns := turns[..at] + [Marker(dropped, cfg.threshold)] + turns[at..];
      }
    }
  }
}
