/** Degenerate output detection: isRepeatLoop of dsh-lite-cpp/src/nudge.cpp. */
module RepeatLoop {
  import opened TextLines

  /** The trimmed lines that are not empty, in order. */
  function Solid(lines: seq<string>): seq<string> {
    if lines == [] then []
    else
      var last := TrimEnd(lines[|lines| - 1]);
      Solid(lines[..|lines| - 1]) + (if last == "" then [] else [last])
  }

  /** `t` is the line up to its padding. */
  predicate Trimmed(line: string, t: string) {
    t <= line && Padded(line[|t|..]) && (t != "" ==> !Padded(t[|t| - 1..]))
  }

  /** A line on its own gives what is left of it, if anything; lines after others give theirs after those. */
  lemma SolidExactly(lines: seq<string>, line: string)
    ensures exists t :: Trimmed(line, t) && Solid(lines + [line]) == Solid(lines) + (if t == "" then [] else [t])
    ensures Solid([]) == []
  {
    var padding := TrimEndParts(line);
    assert line[|TrimEnd(line)|..] == padding && Trimmed(line, TrimEnd(line));
    assert (lines + [line])[..|lines|] == lines;
  }

  /** `k` equal lines in a row start at `i`. */
  predicate Row(s: seq<string>, i: nat, k: nat) {
    i + k <= |s| && forall j | i <= j < i + k :: s[j] == s[i]
  }

  ghost predicate Repeats(s: seq<string>, k: nat) {
    exists i :: Row(s, i, k)
  }

  /** The last `run` lines are equal, and no longer row ends there. */
  ghost predicate EndsWithRow(s: seq<string>, run: nat) {
    if s == [] then run == 0
    else 1 <= run <= |s| && Row(s, |s| - run, run) && (run < |s| ==> s[|s| - run - 1] != s[|s| - 1])
  }

  /** One more line makes a row of `k` exactly when its own row has reached `k`. */
  lemma RowGrows(s: seq<string>, x: string, run: nat, k: nat)
    requires k >= 2 && !Repeats(s, k) && EndsWithRow(s, run) && run < k
    ensures var run' := if s != [] && x == s[|s| - 1] then run + 1 else 1;
      EndsWithRow(s + [x], run') && (Repeats(s + [x], k) <==> run' >= k)
  {
    var (t, run') := (s + [x], if s != [] && x == s[|s| - 1] then run + 1 else 1);
    forall j | |t| - run' <= j < |t| ensures t[j] == t[|t| - run'] {
      if run' > 1 && j < |s| {
        assert s[j] == s[|s| - run] == s[|s| - 1];
      }
    }
    assert EndsWithRow(t, run');
    if i: nat :| Row(t, i, k) {
      if i + k <= |s| {
        assert Row(s, i, k) by {
          assert forall j | i <= j < i + k :: s[j] == t[j];
        }
      }
    }
    if run' >= k {
      assert Row(t, |t| - k, k) by {
        assert forall j | |t| - k <= j < |t| :: t[j] == t[|t| - run'];
      }
    }
  }

  lemma RepeatsPersists(s: seq<string>, more: seq<string>, k: nat)
    requires Repeats(s, k)
    ensures Repeats(s + more, k)
  {
    var i :| Row(s, i, k);
    assert Row(s + more, i, k);
  }

  lemma {:induction false} SolidPrefix(lines: seq<string>, n: nat)
    requires n <= |lines|
    ensures exists more :: Solid(lines) == Solid(lines[..n]) + more
    decreases |lines|
  {
    if n == |lines| {
      assert lines[..n] == lines && Solid(lines) == Solid(lines[..n]) + [];
    } else {
      var front := lines[..|lines| - 1];
      SolidPrefix(front, n);
      assert front[..n] == lines[..n];
      var more :| Solid(front) == Solid(lines[..n]) + more;
      var tail := Solid(lines)[|Solid(front)|..];
      assert Solid(lines) == Solid(lines[..n]) + (more + tail);
    }
  }

  /** True exactly when some non-empty line, trimmed, comes `k` times in a row, blank lines in between ignored. */
  method IsRepeatLoop(text: string, k: int) returns (r: bool)
    ensures r <==> Repeats(Solid(Split(text)), if k <= 1 then 2 else k)
  {
    var limit: nat := if k <= 1 then 2 else k;
    var lines := Split(text);
    var run: nat := 0;
    var prev := "";
    ghost var seen: seq<string> := [];
    for i := 0 to |lines|
      invariant seen == Solid(lines[..i])
      invariant run < limit && EndsWithRow(seen, run)
      invariant !Repeats(seen, limit)
      invariant seen != [] ==> prev == seen[|seen| - 1]
    {
      var line := TrimLine(lines[i]);
      SolidGrows(lines, i);
      if line != "" {
        RowGrows(seen, line, run, limit);
        if run > 0 && line == prev {
          run := run + 1;
        } else {
          run := 1;
          prev := line;
        }
        seen := seen + [line];
        if run >= limit {
          SolidPrefix(lines, i + 1);
          ghost var more :| Solid(lines) == seen + more;
          RepeatsPersists(seen, more, limit);
          return true;
        }
      }
    }
    assert lines[..|lines|] == lines;
    return false;
  }

  lemma SolidGrows(lines: seq<string>, n: nat)
    requires n < |lines|
    ensures Solid(lines[..n + 1]) == Solid(lines[..n]) + (if TrimEnd(lines[n]) == "" then [] else [TrimEnd(lines[n])])
  {
    assert lines[..n + 1][..n] == lines[..n];
  }
}
