/** What compaction measures, cuts and writes, each said without the function that computes it. */
module CompactionRules {
  import opened Compaction
  import opened Decimals
  import opened Sanitizer
  import opened SanitizerPieces

  function Roles(h: seq<Message>): string {
    if h == [] then "" else Roles(h[..|h| - 1]) + h[|h| - 1].role
  }

  function Contents(h: seq<Message>): string {
    if h == [] then "" else Contents(h[..|h| - 1]) + h[|h| - 1].content
  }

  /** The size of a history is that of all its roles and contents, and four for each message. */
  lemma {:induction false} SizeExactly(h: seq<Message>)
    ensures SerializedChars(h) == |Roles(h)| + |Contents(h)| + 4 * |h|
  {
    if h != [] {
      var (front, last) := (h[..|h| - 1], h[|h| - 1]);
      SizeExactly(front);
      assert h == front + [last];
      SizeConcat(front, [last]);
      SizeOfOne(last);
    }
  }

  /** Guarded are a system message at the start, the final message, and the user's last. */
  predicate MustStay(h: seq<Message>, i: nat)
    requires i < |h|
  {
    i == |h| - 1 || (i == 0 && h[i].role == "system") ||
    (h[i].role == "user" && forall j | i < j < |h| :: h[j].role != "user")
  }

  /** Exactly these are guarded, and each of them is in the compacted history unchanged: the system message first. */
  lemma GuardedExactly(cfg: Config, h: seq<Message>, i: nat)
    requires i < |h|
    ensures Guards(h)[i] <==> MustStay(h, i)
    ensures MustStay(h, i) ==> h[i] in Compact(cfg, h).0
    ensures h[0].role == "system" ==> Compact(cfg, h).0 != [] && Compact(cfg, h).0[0] == h[0]
  {
    if MustStay(h, i) {
      SurvivorsStay(cfg, h, i);
    }
    if h[0].role == "system" {
      SurvivorsStay(cfg, h, 0);
      var g := Guards(h);
      assert g[..0] == [] && Protected(h, 0) && g[0];
    }
  }

  /** `r` is `clean`, or when that is longer than head and tail together its head and tail with the note between. */
  predicate IsShort(cfg: Config, clean: string, r: string) {
    if |clean| <= cfg.head + cfg.tail || (cfg.head == 0 && cfg.tail == 0) then r == clean
    else
      |r| == cfg.head + |TRUNCATION_MARKER| + cfg.tail && (forall i | 0 <= i < cfg.head :: r[i] == clean[i]) &&
      (forall i | 0 <= i < |TRUNCATION_MARKER| :: r[cfg.head + i] == TRUNCATION_MARKER[i]) &&
      (forall i | |r| - cfg.tail <= i < |r| :: r[i] == clean[i - |r| + |clean|])
  }

  /** A shortened turn has the first head and the last tail characters of its clean text. */
  lemma ShortenExactly(cfg: Config, content: string)
    ensures IsShort(cfg, Sanitize(content), Shorten(cfg, content))
  {
    var clean := Sanitize(content);
    if |clean| > cfg.head + cfg.tail > 0 {
      CutExactly(cfg, clean, clean[..cfg.head], clean[|clean| - cfg.tail..], Shorten(cfg, content));
    }
  }

  lemma CutExactly(cfg: Config, clean: string, head: string, tail: string, r: string)
    requires |clean| > cfg.head + cfg.tail > 0 && |head| == cfg.head && |tail| == cfg.tail
    requires head <= clean && tail == clean[|clean| - cfg.tail..] && r == head + TRUNCATION_MARKER + tail
    ensures IsShort(cfg, clean, r)
  {
    forall i | |r| - cfg.tail <= i < |r| ensures r[i] == clean[i - |r| + |clean|] {
      assert r[i] == tail[i - |r| + |tail|];
    }
  }

  /** Room for the note is at most 256 characters and at most half of the budget. */
  lemma TargetExactly(threshold: int)
    ensures threshold >= 512 ==> Target(threshold) == threshold - 256
    ensures 0 <= threshold < 512 ==> 2 * Target(threshold) == threshold + threshold % 2
    ensures threshold < 0 ==> 2 * Target(threshold) == threshold - threshold % 2
  {
  }

  lemma KeptThenClean(a: string, rest: string)
    requires AllKept(a)
    ensures Clean(a + rest) == a + Clean(rest)
  {
    CleanOfKept(a);
    forall i | 0 <= i < |a| ensures a[i] != ESC {
      assert Keep(a[i]);
    }
    CleanConcat(a, rest);
  }

  lemma {:induction false} DecimalIsKept(n: int)
    ensures AllKept(Decimal(n))
    decreases n < 0, if n < 0 then -n else n
  {
    if n < 0 {
      DecimalIsKept(-n);
    } else if n >= 10 {
      DecimalIsKept(n / 10);
    }
  }

  lemma WordsAreKept()
    ensures AllKept(MARKER_MIDDLE)
  {
    MiddleStartIsKept();
    assert AllKept("brain context (G2.5, budget ");
  }

  lemma MiddleStartIsKept()
    ensures AllKept(" middle turn(s) pruned to protect ")
  {
  }

  lemma FirstWordsAreKept()
    ensures AllKept(MARKER_START)
  {
  }

  lemma LastWordsAreKept()
    ensures AllKept(MARKER_CLOSE) && AllKept(MARKER_END)
  {
    assert AllKept(" full detail lives in ledger ") && AllKept("lines + patch artifacts, not here");
  }

  /** Of these words only the dash is dropped, which is no ASCII. */
  lemma DashIsDropped(before: string, after: string)
    requires AllKept(before) && AllKept(after)
    ensures Clean(before + (DASH + after)) == before + after
  {
    KeptThenClean(before, DASH + after);
    assert (DASH + after)[1..] == after;
    CleanOfKept(after);
  }

  /** The note is the host's, in the user's name; it says how many turns are gone and under which budget. */
  lemma MarkerExactly(dropped: nat, threshold: int)
    requires dropped <= LONG_MAX && 0 <= threshold <= LONG_MAX
    ensures Marker(dropped, threshold) == Message("user",
      MARKER_START + Decimal(dropped) + MARKER_MIDDLE + Decimal(threshold) + MARKER_CLOSE + MARKER_END)
    ensures "[HOST COMPACTION] " + Decimal(dropped) <= Marker(dropped, threshold).content
  {
    FirstWordsAreKept();
    WordsAreKept();
    LastWordsAreKept();
    DecimalIsKept(dropped);
    DecimalIsKept(threshold);
    DashIsDropped(MARKER_START + Decimal(dropped) + MARKER_MIDDLE + Decimal(threshold) + MARKER_CLOSE, MARKER_END);
    MarkerFits(dropped, threshold);
    MarkerLength(dropped, threshold);
  }

  lemma MarkerLength(dropped: nat, threshold: int)
    requires dropped <= LONG_MAX && 0 <= threshold <= LONG_MAX
    ensures |MARKER_START + Decimal(dropped) + MARKER_MIDDLE + Decimal(threshold) + MARKER_CLOSE + MARKER_END| <= 188
  {
    LongWidth(dropped);
    LongWidth(threshold);
  }

  ghost predicate SomeDiffer(cfg: Config, h: seq<Message>) { exists i | 0 <= i < |h| :: Kept(cfg, h, i) != h[i] }

  lemma ShortenedDiffers(cfg: Config, h: seq<Message>)
    requires SerializedChars(h) > cfg.threshold
    ensures Shortened(cfg, h, Guards(h)) != h <==> SomeDiffer(cfg, h)
  {
    var h1 := Shortened(cfg, h, Guards(h));
    forall i | 0 <= i < |h| ensures h1[i] == Kept(cfg, h, i) {
    }
    if h1 != h {
      var i :| 0 <= i < |h| && h1[i] != h[i];
      assert Kept(cfg, h, i) != h[i];
    }
  }

  /** The host is told of a change exactly when a turn was shortened or dropped. */
  lemma ToldExactly(cfg: Config, h: seq<Message>)
    ensures Compact(cfg, h).1 <==>
      Dropped(cfg, h) > 0 || (SerializedChars(h) > cfg.threshold && SomeDiffer(cfg, h))
  {
    if SerializedChars(h) > cfg.threshold {
      ShortenedDiffers(cfg, h);
    }
  }
}
