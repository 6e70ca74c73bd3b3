/**
 What the sanitizer erases, said without its scanner: a text is made of pieces, of which only the plain characters
 are kept.
 */
module SanitizerPieces {
  import opened Sanitizer

  /** A plain character, one that is dropped, or a whole escape sequence. */
  datatype Piece =
    | Plain(c: char)
    | Stray(c: char)
    | Csi(params: string, final: char)
    | Control(intro: char, body: string, end: string)
    | Select(intro: char, c: char)
    | Short(c: char)

  const ESCAPE := '\U{1B}'
  const BELL := '\U{07}'

  /** Printable ASCII, TAB, LF and CR. */
  predicate Graphic(c: char) { 32 <= c as int <= 126 || c as int == 9 || c as int == 10 || c as int == 13 }

  predicate NoFinal(s: string) { forall i | 0 <= i < |s| :: !(64 <= s[i] as int <= 126) }

  /** No bell, and no escape followed by a backslash. */
  predicate NoEnd(s: string) {
    forall i | 0 <= i < |s| :: s[i] != BELL && !(s[i] == ESCAPE && i + 1 < |s| && s[i + 1] == '\\')
  }

  predicate Proper(p: Piece) {
    match p
    case Plain(c) => Graphic(c)
    case Stray(c) => !Graphic(c) && c != ESCAPE
    case Csi(params, final) => NoFinal(params) && 64 <= final as int <= 126
    case Control(intro, body, end) => intro in "]PX^_" && NoEnd(body) && (end == [BELL] || end == [ESCAPE, '\\'])
    case Select(intro, _) => intro in "()#%"
    case Short(c) => c !in "[]PX^_()#%"
  }

  function Text(p: Piece): string {
    match p
    case Plain(c) => [c]
    case Stray(c) => [c]
    case Csi(params, final) => [ESCAPE, '['] + params + [final]
    case Control(intro, body, end) => [ESCAPE, intro] + body + end
    case Select(intro, c) => [ESCAPE, intro, c]
    case Short(c) => [ESCAPE, c]
  }

  /** An escape sequence that the text ends within, or nothing. */
  predicate Unfinished(tail: string) {
    tail == "" ||
    (tail[0] == ESCAPE &&
     (|tail| == 1 ||
      (tail[1] == '[' && NoFinal(tail[2..])) ||
      (tail[1] in "]PX^_" && NoEnd(tail[2..])) ||
      (tail[1] in "()#%" && |tail| == 2)))
  }

  function TextOf(pieces: seq<Piece>): string {
    if pieces == [] then "" else Text(pieces[0]) + TextOf(pieces[1..])
  }

  /** The plain characters, in order. */
  function PlainOf(pieces: seq<Piece>): string {
    if pieces == [] then "" else (if pieces[0].Plain? then [pieces[0].c] else "") + PlainOf(pieces[1..])
  }

  predicate AllProper(pieces: seq<Piece>) { forall i | 0 <= i < |pieces| :: Proper(pieces[i]) }

  // ---- One piece ----------------------------------------------------------------------------------------

  lemma LiteralsAgree(c: char)
    ensures ESC == ESCAPE && BEL == BELL
    ensures Keep(c) <==> Graphic(c)
    ensures CsiFinal(c) <==> 64 <= c as int <= 126
    ensures Introducer(c) <==> c in "]PX^_"
    ensures Charset(c) <==> c in "()#%"
  {
  }

  /** A control string may hold escapes, as long as no backslash follows one. */
  lemma {:induction false} ControlEnds(body: string, end: string, rest: string)
    requires NoEnd(body) && (end == [BELL] || end == [ESCAPE, '\\'])
    ensures AfterString(body + end + rest) == rest
  {
    LiteralsAgree(' ');
    var s := body + end + rest;
    if body == "" {
      assert s == end + rest && s[|end|..] == rest;
    } else {
      assert s[1..] == body[1..] + end + rest;
      ControlEnds(body[1..], end, rest);
      if |body| > 1 {
        assert s[1] == body[1];
      } else {
        assert s[1] == end[0];
      }
    }
  }

  lemma CsiPiece(params: string, final: char, rest: string)
    requires Proper(Csi(params, final))
    ensures Clean(Text(Csi(params, final)) + rest) == Clean(rest)
  {
    LiteralsAgree(final);
    forall i | 0 <= i < |params| ensures !CsiFinal(params[i]) {
      LiteralsAgree(params[i]);
    }
    EscapedCsi(params, final, rest);
    assert [ESC, '['] + params + [final] + rest == Text(Csi(params, final)) + rest;
  }

  lemma ControlPiece(intro: char, body: string, end: string, rest: string)
    requires Proper(Control(intro, body, end))
    ensures Clean(Text(Control(intro, body, end)) + rest) == Clean(rest)
  {
    LiteralsAgree(intro);
    var s := Text(Control(intro, body, end)) + rest;
    assert s[2..] == body + end + rest;
    ControlEnds(body, end, rest);
    assert s[0] == ESC && s[1] == intro && AfterEscape(s) == rest;
  }

  lemma SelectPiece(intro: char, c: char, rest: string)
    requires Proper(Select(intro, c))
    ensures Clean(Text(Select(intro, c)) + rest) == Clean(rest)
  {
    LiteralsAgree(intro);
    var s := Text(Select(intro, c)) + rest;
    assert s[0] == ESC && s[1] == intro && s[3..] == rest && AfterEscape(s) == rest;
  }

  lemma ShortPiece(c: char, rest: string)
    requires Proper(Short(c))
    ensures Clean(Text(Short(c)) + rest) == Clean(rest)
  {
    LiteralsAgree(c);
    var s := Text(Short(c)) + rest;
    assert s[0] == ESC && s[1] == c && s[2..] == rest && AfterEscape(s) == rest;
  }

  lemma PieceClean(p: Piece, rest: string)
    requires Proper(p)
    ensures Clean(Text(p) + rest) == (if p.Plain? then [p.c] else "") + Clean(rest)
  {
    match p
    case Plain(c) =>
      LiteralsAgree(c);
      assert ([c] + rest)[1..] == rest;
    case Stray(c) =>
      LiteralsAgree(c);
      assert ([c] + rest)[1..] == rest;
    case Csi(params, final) => CsiPiece(params, final, rest);
    case Control(intro, body, end) => ControlPiece(intro, body, end, rest);
    case Select(intro, c) => SelectPiece(intro, c, rest);
    case Short(c) => ShortPiece(c, rest);
  }

  lemma {:induction false} OpenCsi(s: string)
    requires NoFinal(s)
    ensures AfterCsi(s) == ""
  {
    if s != "" {
      LiteralsAgree(s[0]);
      OpenCsi(s[1..]);
    }
  }

  lemma {:induction false} OpenControl(s: string)
    requires NoEnd(s)
    ensures AfterString(s) == ""
  {
    if s != "" {
      LiteralsAgree(s[0]);
      OpenControl(s[1..]);
    }
  }

  lemma UnfinishedClean(tail: string)
    requires Unfinished(tail)
    ensures Clean(tail) == ""
  {
    if |tail| > 1 {
      LiteralsAgree(tail[1]);
      if tail[1] == '[' {
        OpenCsi(tail[2..]);
      } else if tail[1] in "]PX^_" {
        OpenControl(tail[2..]);
      }
    } else {
      LiteralsAgree(' ');
    }
  }

  // ---- The whole text ------------------------------------------------------------------------------------

  /** Whatever pieces a text is made of, just its plain characters are left. */
  lemma {:induction false} PlainIsLeft(pieces: seq<Piece>, tail: string)
    requires AllProper(pieces) && Unfinished(tail)
    ensures Clean(TextOf(pieces) + tail) == PlainOf(pieces)
  {
    if pieces == [] {
      assert "" + tail == tail;
      UnfinishedClean(tail);
    } else {
      var rest := TextOf(pieces[1..]) + tail;
      assert TextOf(pieces) + tail == Text(pieces[0]) + rest;
      PlainIsLeft(pieces[1..], tail);
      PieceClean(pieces[0], rest);
    }
  }

  /** How many parameter characters stand before the final one, or before the end. */
  lemma {:induction false} FindFinal(s: string) returns (n: nat)
    ensures n <= |s| && NoFinal(s[..n]) && (n < |s| ==> 64 <= s[n] as int <= 126)
  {
    n := 0;
    if s != "" && !(64 <= s[0] as int <= 126) {
      n := FindFinal(s[1..]);
      assert s[..n + 1] == [s[0]] + s[1..][..n];
      n := n + 1;
    }
  }

  /** Where the first end of a control string stands, and which. */
  lemma {:induction false} FindEnd(s: string) returns (n: nat, end: string)
    ensures n <= |s| && NoEnd(s[..n]) && (n < |s| ==> end == [BELL] || end == [ESCAPE, '\\'])
    ensures n < |s| ==> end <= s[n..]
  {
    n, end := 0, "";
    if s != "" {
      if s[0] == BELL {
        end := [BELL];
      } else if |s| > 1 && s[0] == ESCAPE && s[1] == '\\' {
        end := [ESCAPE, '\\'];
      } else {
        n, end := FindEnd(s[1..]);
        assert s[..n + 1] == [s[0]] + s[1..][..n];
        n := n + 1;
      }
    }
  }

  lemma ReadCsi(s: string) returns (pieces: seq<Piece>, rest: string)
    requires |s| > 1 && s[0] == ESCAPE && s[1] == '['
    ensures AllProper(pieces) && s == TextOf(pieces) + rest && (pieces == [] ==> Unfinished(rest)) && |pieces| <= 1
  {
    var n := FindFinal(s[2..]);
    pieces, rest := [], s;
    if n < |s| - 2 {
      var p := Csi(s[2..][..n], s[2 + n]);
      pieces, rest := [p], s[3 + n..];
      OnePiece(p);
      assert s == Text(p) + rest;
    } else {
      assert s[2..][..n] == s[2..];
    }
  }

  lemma ReadControl(s: string) returns (pieces: seq<Piece>, rest: string)
    requires |s| > 1 && s[0] == ESCAPE && s[1] in "]PX^_"
    ensures AllProper(pieces) && s == TextOf(pieces) + rest && (pieces == [] ==> Unfinished(rest)) && |pieces| <= 1
  {
    var n, end := FindEnd(s[2..]);
    pieces, rest := [], s;
    if n < |s| - 2 {
      var p := Control(s[1], s[2..][..n], end);
      pieces, rest := [p], s[2 + n + |end|..];
      OnePiece(p);
      assert s[2..][n..] == end + rest;
      assert s == Text(p) + rest;
    } else {
      assert s[2..][..n] == s[2..];
    }
  }

  lemma OnePiece(p: Piece)
    ensures TextOf([p]) == Text(p)
  {
    var one := [p];
    assert one[1..] == [];
  }

  /** The first piece of a text, unless the text is unfinished from its start. */
  lemma ReadPiece(s: string) returns (pieces: seq<Piece>, rest: string)
    ensures AllProper(pieces) && s == TextOf(pieces) + rest && (pieces == [] ==> Unfinished(rest)) && |pieces| <= 1
  {
    pieces, rest := [], s;
    if s != "" && s[0] != ESCAPE {
      var p := if Graphic(s[0]) then Plain(s[0]) else Stray(s[0]);
      pieces, rest := [p], s[1..];
      OnePiece(p);
    } else if |s| > 1 && s[1] == '[' {
      pieces, rest := ReadCsi(s);
    } else if |s| > 1 && s[1] in "]PX^_" {
      pieces, rest := ReadControl(s);
    } else if |s| > 1 && s[1] !in "()#%" {
      pieces, rest := [Short(s[1])], s[2..];
      OnePiece(Short(s[1]));
    } else if |s| > 2 {
      pieces, rest := [Select(s[1], s[2])], s[3..];
      OnePiece(Select(s[1], s[2]));
    }
  }

  lemma TextNotEmpty(p: Piece)
    ensures Text(p) != ""
  {
  }

  /** Every text is made of pieces, up to an unfinished one at its end. */
  lemma {:induction false} EveryTextIsPieces(s: string) returns (pieces: seq<Piece>, tail: string)
    ensures AllProper(pieces) && Unfinished(tail) && s == TextOf(pieces) + tail
    decreases |s|
  {
    var first, rest := ReadPiece(s);
    if first == [] {
      pieces, tail := [], rest;
    } else {
      TextNotEmpty(first[0]);
      OnePiece(first[0]);
      var more, last := EveryTextIsPieces(rest);
      pieces, tail := [first[0]] + more, last;
      assert pieces[1..] == more && s == Text(first[0]) + (TextOf(more) + last);
    }
  }

  /** `r` is `clean`, or when that is over 4096 characters its first 2048 and last 1024 with the note between. */
  predicate IsCut(clean: string, r: string) {
    if |clean| <= 4096 then r == clean
    else
      |r| == 2048 + |TRUNCATION_MARKER| + 1024 && (forall i | 0 <= i < 2048 :: r[i] == clean[i]) &&
      (forall i | 0 <= i < |TRUNCATION_MARKER| :: r[2048 + i] == TRUNCATION_MARKER[i]) &&
      (forall i | |r| - 1024 <= i < |r| :: r[i] == clean[i - |r| + |clean|])
  }

  /** Every text is made of pieces, and sanitizing leaves its plain characters, cut when they are too many. */
  lemma SanitizeExactly(s: string) returns (pieces: seq<Piece>, tail: string)
    ensures AllProper(pieces) && Unfinished(tail) && s == TextOf(pieces) + tail && IsCut(PlainOf(pieces), Sanitize(s))
  {
    pieces, tail := EveryTextIsPieces(s);
    PlainIsLeft(pieces, tail);
  }
}
