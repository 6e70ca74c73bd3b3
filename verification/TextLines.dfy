/** Text as lines: JavaScript's split('\n') and join('\n'), inverse to each other. */
module TextLines {

  const NEWLINE := '\n'

  /** text.split('\n'): always at least one line. */
  function Split(text: string): (lines: seq<string>)
    ensures lines != []
  {
    if text == "" then [""]
    else
      var rest := Split(text[1..]);
      if text[0] == NEWLINE then [""] + rest else Longer(text[0], rest)
  }

  /** `ch` put before the first line. */
  function Longer(ch: char, lines: seq<string>): seq<string>
    requires lines != []
  {
    [[ch] + lines[0]] + lines[1..]
  }

  lemma LongerConcat(ch: char, lines: seq<string>, more: seq<string>)
    requires lines != []
    ensures Longer(ch, lines + more) == Longer(ch, lines) + more
  {
    assert (lines + more)[1..] == lines[1..] + more;
  }

  /** lines.join('\n') */
  function Join(lines: seq<string>): string
    requires lines != []
  {
    if |lines| == 1 then lines[0] else lines[0] + [NEWLINE] + Join(lines[1..])
  }

  lemma {:induction false} JoinSplit(text: string)
    ensures Join(Split(text)) == text
  {
    if text != "" {
      var rest := Split(text[1..]);
      JoinSplit(text[1..]);
      assert text == [text[0]] + text[1..];
      if text[0] == NEWLINE {
        assert ([""] + rest)[1..] == rest;
      } else {
        assert Longer(text[0], rest)[1..] == rest[1..];
        if |rest| > 1 {
          assert [text[0]] + (rest[0] + [NEWLINE] + Join(rest[1..])) == [text[0]] + rest[0] + [NEWLINE] + Join(rest[1..]);
        }
      }
    }
  }

  lemma {:induction false} SplitLine(line: string)
    requires NEWLINE !in line
    ensures Split(line) == [line]
  {
    if line != "" {
      SplitLine(line[1..]);
      assert line == [line[0]] + line[1..];
    }
  }

  lemma {:induction false} SplitConcat(a: string, b: string)
    ensures Split(a + [NEWLINE] + b) == Split(a) + Split(b)
  {
    var text := a + [NEWLINE] + b;
    if a == "" {
      assert text[1..] == b;
    } else {
      SplitConcat(a[1..], b);
      assert text[1..] == a[1..] + [NEWLINE] + b;
      LongerConcat(a[0], Split(a[1..]), Split(b));
      assert [""] + (Split(a[1..]) + Split(b)) == [""] + Split(a[1..]) + Split(b);
    }
  }

  lemma {:induction false} SplitJoin(lines: seq<string>)
    requires lines != [] && forall k | 0 <= k < |lines| :: NEWLINE !in lines[k]
    ensures Split(Join(lines)) == lines
  {
    SplitLine(lines[0]);
    if |lines| > 1 {
      SplitJoin(lines[1..]);
      SplitConcat(lines[0], Join(lines[1..]));
      assert [lines[0]] + lines[1..] == lines;
    } else {
      assert lines == [lines[0]];
    }
  }

  lemma {:induction false} SplitHasNoNewline(text: string)
    ensures forall k | 0 <= k < |Split(text)| :: NEWLINE !in Split(text)[k]
  {
    if text != "" {
      SplitHasNoNewline(text[1..]);
    }
  }

  // ---- Trailing padding ----------------------------------------------------------------------------

  predicate Padding(c: char) { c == '\r' || c == ' ' }

  /** A line without its trailing carriage returns and spaces. */
  function TrimEnd(line: string): (r: string)
    ensures r <= line
  {
    if line != "" && Padding(line[|line| - 1]) then TrimEnd(line[..|line| - 1]) else line
  }

  predicate Padded(s: string) { forall k | 0 <= k < |s| :: s[k] == '\r' || s[k] == ' ' }

  lemma {:induction false} TrimEndParts(s: string) returns (padding: string)
    ensures Padded(padding) && s == TrimEnd(s) + padding
    ensures TrimEnd(s) != "" ==> !Padded(TrimEnd(s)[|TrimEnd(s)| - 1..])
  {
    padding := "";
    if s != "" {
      var last := s[|s| - 1..];
      assert s == s[..|s| - 1] + last;
      if Padding(s[|s| - 1]) {
        var rest := TrimEndParts(s[..|s| - 1]);
        padding := rest + last;
      } else {
        assert last[0] == s[|s| - 1];
      }
    }
  }

  lemma {:induction false} TrimEndPadded(s: string, padding: string)
    requires Padded(padding) && (s != "" ==> !Padding(s[|s| - 1]))
    ensures TrimEnd(s + padding) == s
  {
    if padding == "" {
      assert s + padding == s;
    } else {
      var front := padding[..|padding| - 1];
      assert (s + padding)[..|s + padding| - 1] == s + front;
      TrimEndPadded(s, front);
    }
  }

  method TrimLine(line: string) returns (r: string)
    ensures r == TrimEnd(line)
  {
    r := line;
    while r != "" && Padding(r[|r| - 1])
      invariant TrimEnd(r) == TrimEnd(line)
      decreases |r|
    {
      r := r[..|r| - 1];
    }
  }
}
