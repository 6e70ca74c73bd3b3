/**
 The event-stream receiver of dsh-lite-cpp/src/llm_client.cpp: bytes arrive in arbitrary chunks, lines are
 cut from a buffer, and what an unterminated last line holds is flushed at the end. JSON is a parameter.
 */
module SseStream {
  import opened TextLines
  import opened Wrappers

  datatype Usage = Usage(prompt: int, completion: int, total: int)

  /** What one JSON frame carries; an absent piece is empty. */
  datatype Frame = Frame(content: string, reasoning: string, usage: Option<Usage>)

  datatype Totals = Totals(content: string, contentDeltas: nat, reasoningDeltas: nat, usage: Option<Usage>)

  const NOTHING := Totals("", 0, 0, None)

  datatype Receiver = Receiver(totals: Totals, partial: string)

  const START := Receiver(NOTHING, "")

  /** JSON.parse of a data payload: None when malformed. */
  type Parser = string -> Option<Frame>

  const DATA: string := "data:"
  const DONE: string := "[DONE]"

  // ---- One line ------------------------------------------------------------------------------------

  /** handleSseData */
  function HandleData(parse: Parser, t: Totals, data: string): Totals {
    if data == DONE then t
    else
      var j := parse(data);
      if j.None? then t
      else
        var f := j.value;
        Totals(t.content + f.content,
               if f.content != "" then t.contentDeltas + 1 else t.contentDeltas,
               if f.reasoning != "" then t.reasoningDeltas + 1 else t.reasoningDeltas,
               if f.usage.Some? then f.usage else t.usage)
  }

  function TrimStart(s: string): string {
    if s != "" && s[0] == ' ' then TrimStart(s[1..]) else s
  }

  function HandleLine(parse: Parser, t: Totals, raw: string): Totals {
    var line := TrimEnd(raw);
    if DATA <= line then HandleData(parse, t, TrimStart(line[|DATA|..])) else t
  }

  function HandleLines(parse: Parser, t: Totals, lines: seq<string>): Totals
    decreases lines
  {
    if lines == [] then t else HandleLines(parse, HandleLine(parse, t, lines[0]), lines[1..])
  }

  // ---- Chunks ----------------------------------------------------------------------------------------------

  function Front(lines: seq<string>): seq<string>
    requires lines != []
  {
    lines[..|lines| - 1]
  }

  function Last(lines: seq<string>): string
    requires lines != []
  {
    lines[|lines| - 1]
  }

  /** Every finished line of the buffer is handled, the unfinished one stays. */
  function Drain(parse: Parser, t: Totals, text: string): Receiver {
    Receiver(HandleLines(parse, t, Front(Split(text))), Last(Split(text)))
  }

  /** handleSseChunk */
  function Receive(parse: Parser, s: Receiver, chunk: string): Receiver {
    Drain(parse, s.totals, s.partial + chunk)
  }

  function ReceiveAll(parse: Parser, s: Receiver, chunks: seq<string>): Receiver {
    if chunks == [] then s else Receive(parse, ReceiveAll(parse, s, chunks[..|chunks| - 1]), chunks[|chunks| - 1])
  }

  /** The flush at the end: an unterminated data line counts, untrimmed. */
  function Flush(parse: Parser, s: Receiver): Totals {
    if DATA <= s.partial then HandleData(parse, s.totals, s.partial[|DATA|..]) else s.totals
  }

  function Result(parse: Parser, chunks: seq<string>): Totals {
    Flush(parse, ReceiveAll(parse, START, chunks))
  }

  function Concat(chunks: seq<string>): string {
    if chunks == [] then "" else Concat(chunks[..|chunks| - 1]) + chunks[|chunks| - 1]
  }

  lemma {:induction false} HandleConcat(parse: Parser, t: Totals, a: seq<string>, b: seq<string>)
    ensures HandleLines(parse, t, a + b) == HandleLines(parse, HandleLines(parse, t, a), b)
    decreases a
  {
    if a == [] {
      assert a + b == b;
    } else {
      assert (a + b)[1..] == a[1..] + b;
      HandleConcat(parse, HandleLine(parse, t, a[0]), a[1..], b);
    }
  }

  lemma HandleOne(parse: Parser, t: Totals, line: string)
    ensures HandleLines(parse, t, [line]) == HandleLine(parse, t, line)
  {
    var lines := [line];
    assert lines[1..] == [];
  }

  /** Appending to a text continues its last line. */
  lemma {:induction false} SplitContinues(a: string, b: string)
    ensures Split(a + b) == Front(Split(a)) + Split(Last(Split(a)) + b)
  {
    if a == "" {
      assert a + b == b && "" + b == b;
    } else {
      assert (a + b)[1..] == a[1..] + b;
      SplitContinues(a[1..], b);
      LineContinues(a[0], Split(a[1..]), b);
    }
  }

  /** The step of SplitContinues: `rest` are the lines after the first character. */
  lemma LineContinues(ch: char, rest: seq<string>, b: string)
    requires rest != []
    ensures [""] + (Front(rest) + Split(Last(rest) + b)) == Front([""] + rest) + Split(Last([""] + rest) + b)
    ensures ch != NEWLINE ==>
      Longer(ch, Front(rest) + Split(Last(rest) + b)) == Front(Longer(ch, rest)) + Split(Last(Longer(ch, rest)) + b)
  {
    if |rest| == 1 {
      assert Front(rest) == [] && Longer(ch, rest) == [[ch] + rest[0]];
      assert ([ch] + rest[0] + b)[1..] == rest[0] + b;
    } else {
      LongerConcat(ch, Front(rest), Split(Last(rest) + b));
      assert Front(Longer(ch, rest)) == Longer(ch, Front(rest));
    }
  }

  lemma DrainContinues(parse: Parser, t: Totals, text: string, more: string)
    ensures var s := Drain(parse, t, text);
      Drain(parse, s.totals, s.partial + more) == Drain(parse, t, text + more)
  {
    var done, tail := Front(Split(text)), Split(Last(Split(text)) + more);
    SplitContinues(text, more);
    HandleConcat(parse, t, done, Front(tail));
    assert Front(done + tail) == done + Front(tail);
  }

  /** Two chunks are one: cutting a stream at any byte changes nothing. */
  lemma ReceiveConcat(parse: Parser, s: Receiver, a: string, b: string)
    ensures Receive(parse, Receive(parse, s, a), b) == Receive(parse, s, a + b)
  {
    DrainContinues(parse, s.totals, s.partial + a, b);
    assert s.partial + a + b == s.partial + (a + b);
  }

  lemma {:induction false} ReceiveAllIsOne(parse: Parser, s: Receiver, chunks: seq<string>)
    requires Split(s.partial) == [s.partial]
    ensures ReceiveAll(parse, s, chunks) == Receive(parse, s, Concat(chunks))
  {
    if chunks == [] {
      assert s.partial + "" == s.partial;
    } else {
      ReceiveAllIsOne(parse, s, chunks[..|chunks| - 1]);
      ReceiveConcat(parse, s, Concat(chunks[..|chunks| - 1]), chunks[|chunks| - 1]);
    }
  }

  /** The whole stream at once: fold its finished lines, then flush the last. */
  function OneShot(parse: Parser, text: string): Totals {
    Flush(parse, Drain(parse, NOTHING, text))
  }

  /** Content, usage and delta counts depend on the bytes of the stream alone, not on how they arrived. */
  lemma ChunksDoNotMatter(parse: Parser, chunks: seq<string>)
    ensures Result(parse, chunks) == OneShot(parse, Concat(chunks))
  {
    ReceiveAllIsOne(parse, START, chunks);
    assert "" + Concat(chunks) == Concat(chunks);
  }

  lemma SameBytesSameResult(parse: Parser, a: seq<string>, b: seq<string>)
    requires Concat(a) == Concat(b)
    ensures Result(parse, a) == Result(parse, b)
  {
    ChunksDoNotMatter(parse, a);
    ChunksDoNotMatter(parse, b);
  }

  // ---- What the totals are -----------------------------------------------------------------------------------

  predicate Blank(s: string) { forall k | 0 <= k < |s| :: s[k] == ' ' }

  /** What a finished line carries, between the spaces after its prefix and the padding at its end. */
  function DataOf(line: string): Option<string> {
    if DATA <= TrimEnd(line) then Some(TrimStart(TrimEnd(line)[|DATA|..])) else None
  }

  /** What the unterminated last line carries, nothing trimmed. */
  function RestOf(line: string): Option<string> {
    if DATA <= line then Some(line[|DATA|..]) else None
  }

  /** `line` is "data:", spaces, `data`, and padding; `data` neither begins with a space nor ends with padding. */
  ghost predicate Carries(line: string, data: string) {
    exists blank, padding :: Blank(blank) && Padded(padding) && line == DATA + blank + data + padding &&
      (data != "" ==> data[0] != ' ' && !Padded(data[|data| - 1..]))
  }

  lemma {:induction false} TrimStartParts(s: string) returns (blank: string)
    ensures Blank(blank) && s == blank + TrimStart(s) && (TrimStart(s) != "" ==> TrimStart(s)[0] != ' ')
  {
    blank := "";
    if s != "" && s[0] == ' ' {
      var rest := TrimStartParts(s[1..]);
      blank := " " + rest;
    }
  }

  lemma {:induction false} TrimStartBlank(blank: string, s: string)
    requires Blank(blank) && (s != "" ==> s[0] != ' ')
    ensures TrimStart(blank + s) == s
  {
    if blank == "" {
      assert blank + s == s;
    } else {
      assert (blank + s)[1..] == blank[1..] + s;
      TrimStartBlank(blank[1..], s);
    }
  }

  lemma DataIsCarried(line: string)
    requires DataOf(line).Some?
    ensures Carries(line, DataOf(line).value)
  {
    var trimmed := TrimEnd(line);
    var padding := TrimEndParts(line);
    var rest := trimmed[|DATA|..];
    var blank := TrimStartParts(rest);
    var data := TrimStart(rest);
    assert line == DATA + blank + data + padding;
    if data != "" {
      assert data[|data| - 1..] == trimmed[|trimmed| - 1..];
    }
  }

  lemma CarriedIsData(line: string, data: string)
    requires Carries(line, data)
    ensures DataOf(line) == Some(data)
  {
    var blank, padding :| Blank(blank) && Padded(padding) && line == DATA + blank + data + padding &&
      (data != "" ==> data[0] != ' ' && !Padded(data[|data| - 1..]));
    if data == "" {
      assert Padded(blank + padding);
      assert line == DATA + (blank + padding);
      TrimEndPadded(DATA, blank + padding);
      assert TrimEnd(line) == DATA && DATA[|DATA|..] == data;
    } else {
      assert data[|data| - 1..] == [data[|data| - 1]];
      TrimEndPadded(DATA + blank + data, padding);
      assert TrimEnd(line) == DATA + blank + data;
      assert (DATA + blank + data)[|DATA|..] == blank + data;
      TrimStartBlank(blank, data);
    }
  }

  /** A finished line carries data exactly when it is "data:" and that data, up to spaces before and padding after. */
  lemma DataLineExactly(line: string, data: string)
    ensures DataOf(line) == Some(data) <==> Carries(line, data)
  {
    if Carries(line, data) {
      CarriedIsData(line, data);
    } else if DataOf(line) == Some(data) {
      DataIsCarried(line);
    }
  }

  /** The frame of a data line, unless it is the end mark or malformed. */
  function FrameOf(parse: Parser, data: Option<string>): seq<Frame> {
    if data.None? || data.value == DONE || parse(data.value).None? then [] else [parse(data.value).value]
  }

  function FramesIn(parse: Parser, lines: seq<string>): seq<Frame> {
    if lines == [] then [] else FramesIn(parse, lines[..|lines| - 1]) + FrameOf(parse, DataOf(lines[|lines| - 1]))
  }

  /** The frames of a stream, in order, with that of an unterminated last line. */
  function Frames(parse: Parser, text: string): seq<Frame> {
    FramesIn(parse, Front(Split(text))) + FrameOf(parse, RestOf(Last(Split(text))))
  }

  function Contents(frames: seq<Frame>): string {
    if frames == [] then "" else Contents(frames[..|frames| - 1]) + frames[|frames| - 1].content
  }

  function Count(frames: seq<Frame>, counts: Frame -> bool): nat {
    if frames == [] then 0
    else Count(frames[..|frames| - 1], counts) + if counts(frames[|frames| - 1]) then 1 else 0
  }

  /** The usage of the last frame that has one. */
  ghost predicate LastUsage(frames: seq<Frame>, usage: Option<Usage>) {
    if usage.None? then forall i | 0 <= i < |frames| :: frames[i].usage.None?
    else exists i | 0 <= i < |frames| :: frames[i].usage == usage && forall j | i < j < |frames| :: frames[j].usage.None?
  }

  /** The totals of these frames. */
  ghost predicate Sums(frames: seq<Frame>, t: Totals) {
    t.content == Contents(frames) && LastUsage(frames, t.usage) &&
    t.contentDeltas == Count(frames, (f: Frame) => f.content != "") &&
    t.reasoningDeltas == Count(frames, (f: Frame) => f.reasoning != "")
  }

  lemma UsageGrows(frames: seq<Frame>, f: Frame, usage: Option<Usage>)
    requires LastUsage(frames, usage)
    ensures LastUsage(frames + [f], if f.usage.Some? then f.usage else usage)
  {
    var grown := frames + [f];
    if f.usage.Some? {
      assert grown[|frames|].usage == f.usage;
    } else if usage.Some? {
      var i :| 0 <= i < |frames| && frames[i].usage == usage && forall j | i < j < |frames| :: frames[j].usage.None?;
      assert grown[i].usage == usage;
    }
  }

  lemma DataSums(parse: Parser, frames: seq<Frame>, t: Totals, data: string)
    requires Sums(frames, t)
    ensures Sums(frames + FrameOf(parse, Some(data)), HandleData(parse, t, data))
  {
    var more := FrameOf(parse, Some(data));
    if more == [] {
      assert frames + more == frames;
    } else {
      var f := more[0];
      assert (frames + [f])[..|frames|] == frames;
      UsageGrows(frames, f, t.usage);
    }
  }

  lemma LineSums(parse: Parser, frames: seq<Frame>, t: Totals, line: string)
    requires Sums(frames, t)
    ensures Sums(frames + FrameOf(parse, DataOf(line)), HandleLine(parse, t, line))
  {
    if DataOf(line).Some? {
      DataSums(parse, frames, t, DataOf(line).value);
    } else {
      assert frames + [] == frames;
    }
  }

  lemma {:induction false} LinesSum(parse: Parser, lines: seq<string>)
    ensures Sums(FramesIn(parse, lines), HandleLines(parse, NOTHING, lines))
  {
    if lines != [] {
      var front, line := lines[..|lines| - 1], lines[|lines| - 1];
      LinesSum(parse, front);
      assert lines == front + [line];
      var t := HandleLines(parse, NOTHING, front);
      HandleConcat(parse, NOTHING, front, [line]);
      HandleOne(parse, t, line);
      LineSums(parse, FramesIn(parse, front), t, line);
    }
  }

  /**
   However a stream is cut, the content is that of its frames in order, the counts are those of the frames with
   content and with reasoning, and the usage is that of the last frame with one.
   */
  lemma TotalsAreOfFrames(parse: Parser, chunks: seq<string>)
    ensures Sums(Frames(parse, Concat(chunks)), Result(parse, chunks))
  {
    ChunksDoNotMatter(parse, chunks);
    var lines := Split(Concat(chunks));
    LinesSum(parse, Front(lines));
    var (frames, t) := (FramesIn(parse, Front(lines)), HandleLines(parse, NOTHING, Front(lines)));
    if RestOf(Last(lines)).Some? {
      DataSums(parse, frames, t, RestOf(Last(lines)).value);
    } else {
      assert frames + [] == frames;
    }
  }

  // ---- The unterminated last line ---------------------------------------------------------------------------

  /** JSON ignores the padding the receiver trims (section 2 of RFC 8259), and [DONE] is not JSON however padded. */
  ghost predicate IgnoresPadding(parse: Parser) {
    (forall s :: parse(TrimStart(s)) == parse(s)) && (forall s :: parse(TrimEnd(s)) == parse(s)) && parse(DONE) == None
  }

  lemma {:induction false} TrimEndOfData(line: string)
    requires DATA <= line
    ensures DATA <= TrimEnd(line) && TrimEnd(line)[|DATA|..] == TrimEnd(line[|DATA|..])
  {
    if |line| == |DATA| {
      assert line == DATA && line[|line| - 1] == ':';
    } else if Padding(line[|line| - 1]) {
      var front := line[..|line| - 1];
      TrimEndOfData(front);
      assert line[|DATA|..][..|line| - |DATA| - 1] == front[|DATA|..];
    }
  }

  lemma HandlePadded(parse: Parser, t: Totals, s: string)
    requires IgnoresPadding(parse)
    ensures HandleData(parse, t, TrimStart(TrimEnd(s))) == HandleData(parse, t, s)
  {
    assert parse(TrimStart(TrimEnd(s))) == parse(TrimEnd(s)) == parse(s);
  }

  /** With JSON's own padding rule, a stream may end with or without its final newline. */
  lemma FinalNewlineIsOptional(parse: Parser, text: string)
    requires IgnoresPadding(parse)
    ensures OneShot(parse, text + [NEWLINE]) == OneShot(parse, text)
  {
    var lines := Split(text);
    var done, last := lines[..|lines| - 1], lines[|lines| - 1];
    SplitConcat(text, "");
    assert text + [NEWLINE] + "" == text + [NEWLINE];
    assert Split(text + [NEWLINE]) == lines + [""];
    assert Front(lines + [""]) == done + [last];
    HandleConcat(parse, NOTHING, done, [last]);
    var t := HandleLines(parse, NOTHING, done);
    HandleOne(parse, t, last);
    if DATA <= last {
      TrimEndOfData(last);
      HandlePadded(parse, t, last[|DATA|..]);
    } else {
      assert TrimEnd(last) <= last;
    }
  }

  // ---- What is left of an error body -------------------------------------------------------------------------

  /**
   On an HTTP error the receiver's buffer is used as the response body. It is the whole body exactly when the
   body has no newline: every finished line was cut away.
   */
  lemma ErrorBodyIsKeptExactly(parse: Parser, chunks: seq<string>)
    ensures ReceiveAll(parse, START, chunks).partial == Concat(chunks) <==> NEWLINE !in Concat(chunks)
  {
    var body := Concat(chunks);
    ReceiveAllIsOne(parse, START, chunks);
    assert "" + body == body;
    SplitHasNoNewline(body);
    if NEWLINE !in body {
      SplitLine(body);
    }
  }

  // ---- The receiver, updated in place --------------------------------------------------------------------------

  class SseReceiver {
    const parse: Parser
    var totals: Totals
    var partial: string

    ghost function State(): Receiver
      reads this
    {
      Receiver(totals, partial)
    }

    constructor (parse: Parser)
      ensures State() == START && this.parse == parse
    {
      this.parse := parse;
      totals := NOTHING;
      partial := "";
    }

    method HandleChunk(data: string)
      modifies this
      ensures State() == Receive(parse, old(State()), data)
    {
      partial := partial + data;
      var pos := Find(partial, (c: char) => c == NEWLINE);
      while pos.Some?
        invariant pos == Find(partial, (c: char) => c == NEWLINE)
        invariant Drain(parse, totals, partial) == Receive(parse, old(State()), data)
        decreases |partial|
      {
        var line := partial[..pos.value];
        DrainFirst(parse, totals, partial, pos.value);
        partial := partial[pos.value + 1..];
        HandleRawLine(line);
        pos := Find(partial, (c: char) => c == NEWLINE);
      }
      DrainNothing(parse, totals, partial);
    }

    method HandleRawLine(raw: string)
      modifies this
      ensures totals == HandleLine(parse, old(totals), raw) && partial == old(partial)
    {
      var line := TrimLine(raw);
      if |line| >= |DATA| && line[..|DATA|] == DATA {
        var data := line[|DATA|..];
        while data != "" && data[0] == ' '
          invariant TrimStart(data) == TrimStart(line[|DATA|..])
          decreases |data|
        {
          data := data[1..];
        }
        HandleFrame(data);
      }
    }

    method HandleFrame(data: string)
      modifies this
      ensures totals == HandleData(parse, old(totals), data) && partial == old(partial)
    {
      if data == DONE {
        return;
      }
      var j := parse(data);
      if j.None? {
        return;
      }
      var f := j.value;
      if f.content != "" {
        totals := totals.(content := totals.content + f.content, contentDeltas := totals.contentDeltas + 1);
      }
      if f.reasoning != "" {
        totals := totals.(reasoningDeltas := totals.reasoningDeltas + 1);
      }
      if f.usage.Some? {
        totals := totals.(usage := f.usage);
      }
    }

    method Finish() returns (t: Totals)
      modifies this
      ensures t == Flush(parse, old(State()))
    {
      if partial != "" && DATA <= partial {
        HandleFrame(partial[|DATA|..]);
      }
      t := totals;
    }
  }

  lemma DrainFirst(parse: Parser, t: Totals, text: string, pos: nat)
    requires pos < |text| && text[pos] == NEWLINE && NEWLINE !in text[..pos]
    ensures Drain(parse, t, text) == Drain(parse, HandleLine(parse, t, text[..pos]), text[pos + 1..])
  {
    var line, rest := text[..pos], Split(text[pos + 1..]);
    assert text == line + [NEWLINE] + text[pos + 1..];
    SplitConcat(line, text[pos + 1..]);
    SplitLine(line);
    assert Front([line] + rest) == [line] + Front(rest);
    HandleConcat(parse, t, [line], Front(rest));
    HandleOne(parse, t, line);
  }

  lemma DrainNothing(parse: Parser, t: Totals, text: string)
    requires NEWLINE !in text
    ensures Drain(parse, t, text) == Receiver(t, text)
  {
    SplitLine(text);
  }
}
