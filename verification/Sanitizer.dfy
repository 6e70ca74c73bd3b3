/** The byte sanitizer of dsh-lite-cpp/src/sanitizer.cpp. Chars below 256 are bytes. */
module Sanitizer {

  const ESC: char := 27 as char
  const BEL: char := 7 as char
  const TRUNCATE_LIMIT: nat := 4096
  const HEAD: nat := 2048
  const TAIL: nat := 1024
  const TRUNCATION_MARKER: string := "\n... [TRUNCATED RAW LOGS " + "TO PROTECT BRAIN CONTEXT] ...\n"

  /** Printable ASCII, TAB, LF and CR. */
  predicate Keep(c: char) {
    ' ' <= c <= '~' || c == '\t' || c == '\n' || c == '\r'
  }

  predicate CsiFinal(c: char) { '@' <= c <= '~' }

  // ---- What is erased ------------------------------------------------------------------------------

  /** What follows a CSI sequence: everything after its first final byte. */
  function AfterCsi(s: string): (r: string)
    ensures |r| <= |s|
  {
    if s == "" then "" else if CsiFinal(s[0]) then s[1..] else AfterCsi(s[1..])
  }

  /** What follows a control string: everything after its first BEL or ESC backslash. */
  function AfterString(s: string): (r: string)
    ensures |r| <= |s|
  {
    if s == "" then ""
    else if s[0] == BEL then s[1..]
    else if s[0] == ESC && |s| > 1 && s[1] == '\\' then s[2..]
    else AfterString(s[1..])
  }

  predicate Introducer(c: char) { c == ']' || c == 'P' || c == 'X' || c == '^' || c == '_' }

  predicate Charset(c: char) { c == '(' || c == ')' || c == '#' || c == '%' }

  /** What follows the escape sequence at the head of `s`. */
  function AfterEscape(s: string): (r: string)
    requires s != "" && s[0] == ESC
    ensures |r| < |s|
  {
    if |s| == 1 then ""
    else if s[1] == '[' then AfterCsi(s[2..])
    else if Introducer(s[1]) then AfterString(s[2..])
    else if Charset(s[1]) then (if |s| <= 3 then "" else s[3..])
    else s[2..]
  }

  /** Escape sequences and bytes outside the alphabet removed. */
  function Clean(s: string): (r: string)
    ensures |r| <= |s| && forall i | 0 <= i < |r| :: Keep(r[i])
    decreases |s|
  {
    if s == "" then ""
    else if Keep(s[0]) then [s[0]] + Clean(s[1..])
    else if s[0] == ESC then Clean(AfterEscape(s))
    else Clean(s[1..])
  }

  function Truncate(s: string): string {
    if |s| > TRUNCATE_LIMIT then s[..HEAD] + TRUNCATION_MARKER + s[|s| - TAIL..] else s
  }

  function Sanitize(s: string): string { Truncate(Clean(s)) }

  // ---- Its meaning -----------------------------------------------------------------------------------

  predicate AllKept(s: string) { forall i | 0 <= i < |s| :: Keep(s[i]) }

  lemma MarkerIsClean()
    ensures AllKept(TRUNCATION_MARKER) && |TRUNCATION_MARKER| <= TAIL
  {
    assert AllKept("\n... [TRUNCATED RAW LOGS ") && AllKept("TO PROTECT BRAIN CONTEXT] ...\n");
  }

  lemma {:induction false} CleanOfKept(s: string)
    requires AllKept(s)
    ensures Clean(s) == s
  {
    if s != "" {
      CleanOfKept(s[1..]);
    }
  }

  lemma {:induction false} CleanConcat(a: string, b: string)
    requires ESC !in a
    ensures Clean(a + b) == Clean(a) + Clean(b)
  {
    if a == "" {
      assert a + b == b;
    } else {
      assert (a + b)[1..] == a[1..] + b;
      CleanConcat(a[1..], b);
      assert ESC !in [a[0]] && a[0] != ESC;
      if Keep(a[0]) {
        assert [a[0]] + (Clean(a[1..]) + Clean(b)) == [a[0]] + Clean(a[1..]) + Clean(b);
      }
    }
  }

  /** Brain-safe text, never longer than the limit, and sanitizing it again changes nothing. */
  lemma SanitizedIsSafe(s: string)
    ensures AllKept(Sanitize(s)) && |Sanitize(s)| <= TRUNCATE_LIMIT
    ensures Sanitize(Sanitize(s)) == Sanitize(s)
  {
    MarkerIsClean();
    CleanOfKept(Sanitize(s));
  }

  /** Input is returned unchanged if and only if it is clean and within the limit. */
  lemma UnchangedExactly(s: string)
    ensures Sanitize(s) == s <==> AllKept(s) && |s| <= TRUNCATE_LIMIT
  {
    SanitizedIsSafe(s);
    if AllKept(s) {
      CleanOfKept(s);
    }
  }

  lemma {:induction false} CsiEnds(params: string, final: char, rest: string)
    requires (forall i | 0 <= i < |params| :: !CsiFinal(params[i])) && CsiFinal(final)
    ensures AfterCsi(params + [final] + rest) == rest
  {
    var s := params + [final] + rest;
    if params == "" {
      assert s[1..] == rest;
    } else {
      assert s[1..] == params[1..] + [final] + rest;
      CsiEnds(params[1..], final, rest);
    }
  }

  /** A CSI sequence between two texts vanishes without a trace. */
  lemma CsiIsErased(before: string, params: string, final: char, rest: string)
    requires ESC !in before
    requires (forall i | 0 <= i < |params| :: !CsiFinal(params[i])) && CsiFinal(final)
    ensures Clean(before + ([ESC, '['] + params + [final] + rest)) == Clean(before) + Clean(rest)
  {
    CleanConcat(before, [ESC, '['] + params + [final] + rest);
    EscapedCsi(params, final, rest);
  }

  lemma EscapedCsi(params: string, final: char, rest: string)
    requires (forall i | 0 <= i < |params| :: !CsiFinal(params[i])) && CsiFinal(final)
    ensures Clean([ESC, '['] + params + [final] + rest) == Clean(rest)
  {
    var s := [ESC, '['] + params + [final] + rest;
    assert s[2..] == params + [final] + rest;
    CsiEnds(params, final, rest);
    assert AfterEscape(s) == rest;
  }

  lemma {:induction false} StringEnds(body: string, rest: string)
    requires BEL !in body && ESC !in body
    ensures AfterString(body + [BEL] + rest) == rest
    ensures AfterString(body + [ESC, '\\'] + rest) == rest
  {
    var (s, t) := (body + [BEL] + rest, body + [ESC, '\\'] + rest);
    if body == "" {
      assert s[1..] == rest && t[2..] == rest;
    } else {
      assert s[1..] == body[1..] + [BEL] + rest && t[1..] == body[1..] + [ESC, '\\'] + rest;
      StringEnds(body[1..], rest);
    }
  }

  /** So does an OSC, DCS, SOS, PM or APC string, whichever way it is terminated. */
  lemma StringIsErased(before: string, intro: char, body: string, end: string, rest: string)
    requires ESC !in before && Introducer(intro) && BEL !in body && ESC !in body
    requires end == [BEL] || end == [ESC, '\\']
    ensures Clean(before + ([ESC, intro] + body + end + rest)) == Clean(before) + Clean(rest)
  {
    var s := [ESC, intro] + body + end + rest;
    CleanConcat(before, s);
    EscapedString(intro, body, end, rest);
  }

  lemma EscapedString(intro: char, body: string, end: string, rest: string)
    requires Introducer(intro) && BEL !in body && ESC !in body && (end == [BEL] || end == [ESC, '\\'])
    ensures Clean([ESC, intro] + body + end + rest) == Clean(rest)
  {
    var s := [ESC, intro] + body + end + rest;
    assert s[2..] == body + end + rest;
    StringEnds(body, rest);
    assert AfterEscape(s) == rest;
  }

  lemma {:induction false} NeverEnds(body: string)
    ensures (forall i | 0 <= i < |body| :: !CsiFinal(body[i])) ==> AfterCsi(body) == ""
    ensures BEL !in body && ESC !in body ==> AfterString(body) == ""
  {
    if body != "" {
      NeverEnds(body[1..]);
    }
  }

  /** A sequence that runs past the end of the input takes the rest with it. */
  lemma UnterminatedSwallowsTheRest(before: string, intro: char, body: string)
    requires ESC !in before
    requires (intro == '[' && forall i | 0 <= i < |body| :: !CsiFinal(body[i])) ||
             (Introducer(intro) && BEL !in body && ESC !in body)
    ensures Clean(before + ([ESC, intro] + body)) == Clean(before)
  {
    CleanConcat(before, [ESC, intro] + body);
    assert ([ESC, intro] + body)[2..] == body;
    NeverEnds(body);
    assert Clean(before) + "" == Clean(before);
  }

  // ---- The single pass over the bytes ---------------------------------------------------------------------

  /** Position after the escape sequence at `i`, not past the end. */
  method SkipEscape(s: string, i: nat) returns (j: nat)
    requires i < |s| && s[i] == ESC
    ensures i < j <= |s| && s[j..] == AfterEscape(s[i..])
  {
    if i + 1 >= |s| {
      return |s|;
    }
    var next := s[i + 1];
    assert s[i..][2..] == s[i + 2..] && s[i..][1] == next;
    if next == '[' {
      j := i + 2;
      while j < |s| && !CsiFinal(s[j])
        invariant i + 2 <= j <= |s| && AfterCsi(s[i + 2..]) == AfterCsi(s[j..])
      {
        assert s[j..][1..] == s[j + 1..];
        j := j + 1;
      }
      if j < |s| {
        assert s[j..][1..] == s[j + 1..];
        j := j + 1;
      }
    } else if Introducer(next) {
      j := SkipString(s, i + 2);
    } else if Charset(next) {
      j := i + 3;
      if j > |s| {
        j := |s|;
      }
      assert j < |s| ==> s[i..][3..] == s[j..];
    } else {
      j := i + 2;
    }
  }

  method SkipString(s: string, i: nat) returns (j: nat)
    requires i <= |s|
    ensures i <= j <= |s| && s[j..] == AfterString(s[i..])
  {
    j := i;
    while j < |s|
      invariant i <= j <= |s| && AfterString(s[i..]) == AfterString(s[j..])
    {
      assert s[j..][1..] == s[j + 1..];
      if s[j] == BEL {
        return j + 1;
      }
      if s[j] == ESC && j + 1 < |s| && s[j + 1] == '\\' {
        assert s[j..][2..] == s[j + 2..];
        return j + 2;
      }
      j := j + 1;
    }
  }

  lemma CleanSpan(s: string, i: nat, j: nat)
    requires i <= j <= |s| && forall k | i <= k < j :: Keep(s[k])
    ensures Clean(s[i..]) == s[i..j] + Clean(s[j..])
  {
    assert s[i..] == s[i..j] + s[j..];
    CleanOfKept(s[i..j]);
    CleanConcat(s[i..j], s[j..]);
  }

  method CopySpan(out: array<char>, w: nat, s: string, i: nat, j: nat)
    requires i <= j <= |s| && w + (j - i) <= out.Length
    modifies out
    ensures out[..w + j - i] == old(out[..w]) + s[i..j]
  {
    forall k | i <= k < j {
      out[w + k - i] := s[k];
    }
    assert out[..w] == old(out[..w]) && out[w..w + j - i] == s[i..j];
  }

  /** Drop what stands at `i`: a whole escape sequence, or one byte that is not kept. */
  method SkipDropped(s: string, i: nat) returns (j: nat)
    requires i < |s| && !Keep(s[i])
    ensures i < j <= |s| && Clean(s[i..]) == Clean(s[j..])
  {
    if s[i] == ESC {
      j := SkipEscape(s, i);
    } else {
      assert s[i..][1..] == s[i + 1..];
      j := i + 1;
    }
  }

  method SpanEnd(s: string, i: nat) returns (j: nat)
    requires i <= |s|
    ensures i <= j <= |s| && (forall k | i <= k < j :: Keep(s[k])) && (j < |s| ==> !Keep(s[j]))
  {
    j := i;
    while j < |s| && Keep(s[j])
      invariant i <= j <= |s| && forall k | i <= k < j :: Keep(s[k])
    {
      j := j + 1;
    }
  }

  lemma SpanJoins(done: string, s: string, i: nat, j: nat)
    requires i <= j <= |s| && forall k | i <= k < j :: Keep(s[k])
    ensures done + s[i..j] + Clean(s[j..]) == done + Clean(s[i..])
  {
    CleanSpan(s, i, j);
  }

  /** One kept span is copied down, and what stops it is skipped. */
  method PackSpan(s: string, out: array<char>, w: nat, i: nat) returns (w': nat, i': nat)
    requires out.Length == |s| && w <= i < |s|
    modifies out
    ensures i < i' <= |s| && w' <= i' && out[..w'] + Clean(s[i'..]) == old(out[..w]) + Clean(s[i..])
  {
    var j := SpanEnd(s, i);
    SpanJoins(out[..w], s, i, j);
    CopySpan(out, w, s, i, j);
    w', i' := w + j - i, j;
    if j < |s| {
      i' := SkipDropped(s, j);
    }
  }

  /** The write-pointer pass: kept spans are packed to the front of a buffer as long as the input. */
  method Pack(s: string, out: array<char>) returns (w: nat)
    requires out.Length == |s|
    modifies out
    ensures w <= |s| && out[..w] == Clean(s)
  {
    w := 0;
    var i: nat := 0;
    assert out[..0] + Clean(s[0..]) == Clean(s);
    while i < |s|
      invariant w <= i <= |s|
      invariant out[..w] + Clean(s[i..]) == Clean(s)
    {
      w, i := PackSpan(s, out, w, i);
    }
    assert s[i..] == "" && out[..w] + "" == out[..w];
  }

  method SanitizeBytes(s: string) returns (r: string)
    ensures r == Sanitize(s)
  {
    var out := new char[|s|];
    var w := Pack(s, out);
    if w > TRUNCATE_LIMIT {
      r := out[..HEAD] + TRUNCATION_MARKER + out[w - TAIL..w];
      assert out[..w][..HEAD] == out[..HEAD] && out[..w][w - TAIL..] == out[w - TAIL..w];
    } else {
      r := out[..w];
    }
  }
}
