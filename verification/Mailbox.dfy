/**
 The mailbox files of plugin/src/state.ts: one JSON record per line, appended to and rewritten as text.
 JSON itself is a parameter, a codec that round trips and prints without newlines (section 7 of RFC 8259).
 */
module Mailbox {
  import opened TextLines
  import opened Wrappers

  const LEASE_MS := 60_000
  const BOM := '\U{FEFF}'

  /** `extra` is whatever else the record holds; rewriting a record keeps it. */
  datatype Message = Message(
    id: string, sender: string, to: string, content: string, ts: int,
    claimedAt: Option<int>, deliveredAt: Option<int>, readAt: Option<int>, extra: string)

  /** `parse` fails on invalid JSON and on JSON that is not a message; `blank` is trim() === ''. */
  datatype Codec = Codec(parse: string -> Option<Message>, show: Message -> string, blank: string -> bool)

  /** What JSON promises the mailbox. */
  ghost predicate Lawful(c: Codec) {
    c.blank("") && forall m :: LawfulFor(c, m)
  }

  ghost predicate LawfulFor(c: Codec, m: Message) {
    var line := c.show(m);
    c.parse(line) == Some(m) && NEWLINE !in line && !c.blank(line) && line != "" && line[0] != BOM
  }

  // ---- Records ------------------------------------------------------------------------------------------

  function StripBom(line: string): string {
    if line != "" && line[0] == BOM then line[1..] else line
  }

  predicate Blank(c: Codec, raw: string) { c.blank(StripBom(raw)) }

  /** The message on a line, if there is one. */
  function MessageOn(c: Codec, raw: string): Option<Message> {
    if Blank(c, raw) then None else c.parse(StripBom(raw))
  }

  function Messages(c: Codec, lines: seq<string>): seq<Message> {
    if lines == [] then []
    else (if MessageOn(c, lines[0]).Some? then [MessageOn(c, lines[0]).value] else []) + Messages(c, lines[1..])
  }

  /** readMailbox; a missing file is an empty mailbox. */
  function Read(c: Codec, file: Option<string>): seq<Message> {
    if file.None? then [] else Messages(c, Split(file.value))
  }

  predicate UnreadAt(m: Message, now: int) {
    m.readAt.None? && (m.claimedAt.None? || now - m.claimedAt.value >= LEASE_MS)
  }

  // ---- Operations ---------------------------------------------------------------------------------------------

  /** appendMailbox: start a new line when the last one was left unfinished. */
  function Append(c: Codec, file: Option<string>, m: Message): Option<string> {
    Some(AppendLine(if file.Some? then file.value else "", c.show(m)))
  }

  function AppendLine(existing: string, line: string): string {
    var separator := if existing != "" && existing[|existing| - 1] != NEWLINE then [NEWLINE] else "";
    existing + separator + line + [NEWLINE]
  }

  /** The new text of one line: a selected message is printed again, everything else stays byte for byte. */
  function Rewrite(c: Codec, ids: set<string>, f: Message -> Message, raw: string): string {
    var m := MessageOn(c, raw);
    if m.Some? && m.value.id in ids then c.show(f(m.value)) else raw
  }

  function RewriteAll(c: Codec, ids: set<string>, f: Message -> Message, lines: seq<string>): (r: seq<string>)
    ensures |r| == |lines| && forall k | 0 <= k < |lines| :: r[k] == Rewrite(c, ids, f, lines[k])
  {
    if lines == [] then [] else [Rewrite(c, ids, f, lines[0])] + RewriteAll(c, ids, f, lines[1..])
  }

  /** mutateMailbox */
  function Mutate(c: Codec, file: Option<string>, ids: set<string>, f: Message -> Message): Option<string> {
    if ids == {} || file.None? then file else Some(Join(RewriteAll(c, ids, f, Split(file.value))))
  }

  function Claimed(now: int): Message -> Message { (m: Message) => m.(claimedAt := Some(now)) }

  function Released(): Message -> Message { (m: Message) => m.(claimedAt := None) }

  function Or(o: Option<int>, now: int): Option<int> { if o.Some? then o else Some(now) }

  function Acknowledged(now: int): Message -> Message {
    (m: Message) => m.(claimedAt := None, deliveredAt := Or(m.deliveredAt, now), readAt := Or(m.readAt, now))
  }

  datatype Op =
    | Add(m: Message)
    | Claim(ids: set<string>, now: int)
    | Release(ids: set<string>)
    | Acknowledge(ids: set<string>, now: int)

  function Change(op: Op): Message -> Message
    requires !op.Add?
  {
    match op
    case Claim(ids, now) => Claimed(now)
    case Release(ids) => Released()
    case Acknowledge(ids, now) => Acknowledged(now)
  }

  function Apply(c: Codec, file: Option<string>, op: Op): Option<string> {
    if op.Add? then Append(c, file, op.m) else Mutate(c, file, op.ids, Change(op))
  }

  function Run(c: Codec, file: Option<string>, ops: seq<Op>): Option<string> {
    if ops == [] then file else Apply(c, Run(c, file, ops[..|ops| - 1]), ops[|ops| - 1])
  }

  // ---- The log as records ----------------------------------------------------------------------------------------

  /** What no operation may change about a line: who said what to whom, or the raw text of a malformed line. */
  datatype Record =
    | Said(id: string, sender: string, to: string, content: string, ts: int, extra: string)
    | Malformed(raw: string)

  function Core(m: Message): Record { Said(m.id, m.sender, m.to, m.content, m.ts, m.extra) }

  function RecordOn(c: Codec, raw: string): Record {
    var m := MessageOn(c, raw);
    if m.Some? then Core(m.value) else Malformed(raw)
  }

  /** The records of the lines that are not blank. */
  function Records(c: Codec, lines: seq<string>): seq<Record> {
    if lines == [] then []
    else (if Blank(c, lines[0]) then [] else [RecordOn(c, lines[0])]) + Records(c, lines[1..])
  }

  function Log(c: Codec, file: Option<string>): seq<Record> {
    if file.None? then [] else Records(c, Split(file.value))
  }

  /** The records a run appends. */
  function Added(ops: seq<Op>): seq<Record> {
    if ops == [] then []
    else Added(ops[..|ops| - 1]) + (if ops[|ops| - 1].Add? then [Core(ops[|ops| - 1].m)] else [])
  }

  lemma {:induction false} MessagesConcat(c: Codec, a: seq<string>, b: seq<string>)
    ensures Messages(c, a + b) == Messages(c, a) + Messages(c, b)
    ensures Records(c, a + b) == Records(c, a) + Records(c, b)
  {
    if a == [] {
      assert a + b == b;
    } else {
      assert (a + b)[1..] == a[1..] + b;
      MessagesConcat(c, a[1..], b);
    }
  }

  lemma PrintedLine(c: Codec, m: Message)
    requires Lawful(c)
    ensures Messages(c, [c.show(m)]) == [m] && Records(c, [c.show(m)]) == [Core(m)]
    ensures Messages(c, [""]) == [] && Records(c, [""]) == []
  {
    assert LawfulFor(c, m);
    assert [c.show(m)][1..] == [] && [""][1..] == [];
  }

  /** A finished line after `body` is one line more. */
  lemma LineAfter(c: Codec, body: string, line: string)
    requires NEWLINE !in line && c.blank("")
    ensures Messages(c, Split(body + [NEWLINE] + (line + [NEWLINE]))) == Messages(c, Split(body)) + Messages(c, [line])
    ensures Records(c, Split(body + [NEWLINE] + (line + [NEWLINE]))) == Records(c, Split(body)) + Records(c, [line])
  {
    SplitConcat(body, line + [NEWLINE]);
    FinishedLine(c, line);
    MessagesConcat(c, Split(body), Split(line + [NEWLINE]));
  }

  lemma FinishedLine(c: Codec, line: string)
    requires c.blank("")
    ensures Messages(c, Split(line + [NEWLINE])) == Messages(c, Split(line))
    ensures Records(c, Split(line + [NEWLINE])) == Records(c, Split(line))
    ensures NEWLINE !in line ==> Split(line) == [line]
  {
    SplitConcat(line, "");
    assert line + [NEWLINE] + "" == line + [NEWLINE];
    MessagesConcat(c, Split(line), [""]);
    assert Messages(c, [""]) == [] && Records(c, [""]) == [] by {
      assert [""][1..] == [];
    }
    if NEWLINE !in line {
      SplitLine(line);
    }
  }

  lemma AppendLineAdds(c: Codec, text: string, line: string)
    requires NEWLINE !in line && c.blank("")
    ensures Messages(c, Split(AppendLine(text, line))) == Messages(c, Split(text)) + Messages(c, [line])
    ensures Records(c, Split(AppendLine(text, line))) == Records(c, Split(text)) + Records(c, [line])
  {
    if text == "" {
      assert AppendLine(text, line) == line + [NEWLINE];
      FinishedLine(c, line);
    } else if text[|text| - 1] == NEWLINE {
      var body := text[..|text| - 1];
      assert text == body + [NEWLINE];
      FinishedLine(c, body);
      LineAfter(c, body, line);
      assert AppendLine(text, line) == body + [NEWLINE] + (line + [NEWLINE]);
    } else {
      LineAfter(c, text, line);
      assert AppendLine(text, line) == text + [NEWLINE] + (line + [NEWLINE]);
    }
  }

  /** An append adds one message at the end, whatever the file held and however it ended. */
  lemma AppendAdds(c: Codec, file: Option<string>, m: Message)
    requires Lawful(c)
    ensures Read(c, Append(c, file, m)) == Read(c, file) + [m]
    ensures Log(c, Append(c, file, m)) == Log(c, file) + [Core(m)]
  {
    assert LawfulFor(c, m);
    PrintedLine(c, m);
    AppendLineAdds(c, if file.Some? then file.value else "", c.show(m));
  }

  // ---- Rewriting -------------------------------------------------------------------------------------------------

  function Selected(ids: set<string>, f: Message -> Message, m: Message): Message {
    if m.id in ids then f(m) else m
  }

  function MapMessages(ids: set<string>, f: Message -> Message, ms: seq<Message>): (r: seq<Message>)
    ensures |r| == |ms| && forall k | 0 <= k < |ms| :: r[k] == Selected(ids, f, ms[k])
  {
    if ms == [] then [] else [Selected(ids, f, ms[0])] + MapMessages(ids, f, ms[1..])
  }

  lemma RewrittenLine(c: Codec, ids: set<string>, f: Message -> Message, raw: string)
    requires Lawful(c)
    ensures var (m, m') := (MessageOn(c, raw), MessageOn(c, Rewrite(c, ids, f, raw)));
      m' == (if m.Some? then Some(Selected(ids, f, m.value)) else None) &&
      (Blank(c, Rewrite(c, ids, f, raw)) <==> Blank(c, raw))
    ensures NEWLINE !in raw ==> NEWLINE !in Rewrite(c, ids, f, raw)
  {
    var m := MessageOn(c, raw);
    if m.Some? {
      assert LawfulFor(c, f(m.value));
    }
  }

  lemma {:induction false} RewrittenMessages(c: Codec, ids: set<string>, f: Message -> Message, lines: seq<string>)
    requires Lawful(c)
    ensures Messages(c, RewriteAll(c, ids, f, lines)) == MapMessages(ids, f, Messages(c, lines))
  {
    if lines != [] {
      RewrittenLine(c, ids, f, lines[0]);
      RewrittenMessages(c, ids, f, lines[1..]);
      var (head, tail) := (MessageOn(c, lines[0]), Messages(c, lines[1..]));
      if head.Some? {
        assert ([head.value] + tail)[1..] == tail;
      } else {
        assert [] + tail == tail;
      }
    }
  }

  lemma {:induction false} RewrittenRecords(c: Codec, ids: set<string>, f: Message -> Message, lines: seq<string>)
    requires Lawful(c) && forall m: Message :: Core(f(m)) == Core(m)
    ensures Records(c, RewriteAll(c, ids, f, lines)) == Records(c, lines)
  {
    if lines != [] {
      RewrittenLine(c, ids, f, lines[0]);
      RewrittenRecords(c, ids, f, lines[1..]);
    }
  }

  lemma RewrittenText(c: Codec, text: string, ids: set<string>, f: Message -> Message)
    requires Lawful(c)
    ensures Split(Join(RewriteAll(c, ids, f, Split(text)))) == RewriteAll(c, ids, f, Split(text))
  {
    var lines := RewriteAll(c, ids, f, Split(text));
    SplitHasNoNewline(text);
    forall k | 0 <= k < |lines| ensures NEWLINE !in lines[k] {
      RewrittenLine(c, ids, f, Split(text)[k]);
    }
    SplitJoin(lines);
  }

  /** A rewrite changes the selected messages and nothing else: every other line stays byte for byte. */
  lemma MutateMaps(c: Codec, text: string, ids: set<string>, f: Message -> Message)
    requires Lawful(c) && ids != {}
    ensures var text' := Mutate(c, Some(text), ids, f).value;
      Read(c, Some(text')) == MapMessages(ids, f, Read(c, Some(text))) && |Split(text')| == |Split(text)| &&
      forall k | 0 <= k < |Split(text)| ::
        var m := MessageOn(c, Split(text)[k]);
        Split(text')[k] == if m.Some? && m.value.id in ids then c.show(f(m.value)) else Split(text)[k]
  {
    RewrittenText(c, text, ids, f);
    RewrittenMessages(c, ids, f, Split(text));
  }

  /** A rewrite that selects nobody leaves the file exactly as it was. */
  lemma MutateNobody(c: Codec, text: string, ids: set<string>, f: Message -> Message)
    requires forall k | 0 <= k < |Split(text)| ::
      var m := MessageOn(c, Split(text)[k]); m.None? || m.value.id !in ids
    ensures Mutate(c, Some(text), ids, f) == Some(text)
  {
    assert RewriteAll(c, ids, f, Split(text)) == Split(text);
    JoinSplit(text);
  }

  // ---- Whole runs ------------------------------------------------------------------------------------------------

  lemma ApplyLogs(c: Codec, file: Option<string>, op: Op)
    requires Lawful(c)
    ensures Log(c, Apply(c, file, op)) == Log(c, file) + (if op.Add? then [Core(op.m)] else [])
  {
    if op.Add? {
      AppendAdds(c, file, op.m);
    } else if file.Some? && op.ids != {} {
      RewrittenText(c, file.value, op.ids, Change(op));
      RewrittenRecords(c, op.ids, Change(op), Split(file.value));
    }
  }

  /**
   The mailbox is an append-only record log: after any appends, claims, releases and acknowledgements, from any
   file at all, its records are the old ones followed by the appended ones, malformed lines byte for byte.
   */
  lemma {:induction false} LogIsAppendOnly(c: Codec, file: Option<string>, ops: seq<Op>)
    requires Lawful(c)
    ensures Log(c, Run(c, file, ops)) == Log(c, file) + Added(ops)
  {
    if ops != [] {
      LogIsAppendOnly(c, file, ops[..|ops| - 1]);
      ApplyLogs(c, Run(c, file, ops[..|ops| - 1]), ops[|ops| - 1]);
    }
  }

  /** The k-th message stays the k-th message and keeps its content and, once set, its readAt and deliveredAt. */
  ghost predicate Succeeds(m: Message, m': Message) {
    Core(m') == Core(m) && (m.readAt.Some? ==> m'.readAt == m.readAt) &&
    (m.deliveredAt.Some? ==> m'.deliveredAt == m.deliveredAt)
  }

  lemma ApplySucceeds(c: Codec, file: Option<string>, op: Op, k: nat)
    requires Lawful(c) && k < |Read(c, file)|
    ensures k < |Read(c, Apply(c, file, op))|
    ensures Succeeds(Read(c, file)[k], Read(c, Apply(c, file, op))[k])
  {
    if op.Add? {
      AppendAdds(c, file, op.m);
    } else if op.ids != {} {
      MutateMaps(c, file.value, op.ids, Change(op));
    }
  }

  lemma {:induction false} MessagesPersist(c: Codec, file: Option<string>, ops: seq<Op>, k: nat)
    requires Lawful(c) && k < |Read(c, file)|
    ensures k < |Read(c, Run(c, file, ops))|
    ensures Succeeds(Read(c, file)[k], Read(c, Run(c, file, ops))[k])
  {
    if ops != [] {
      MessagesPersist(c, file, ops[..|ops| - 1], k);
      ApplySucceeds(c, Run(c, file, ops[..|ops| - 1]), ops[|ops| - 1], k);
    }
  }

  /** A message acknowledged at any point of a run is never unread again. */
  lemma AcknowledgedIsNeverUnread(c: Codec, file: Option<string>, ids: set<string>, now: int, later: seq<Op>,
                                  k: nat, at: int)
    requires Lawful(c) && k < |Read(c, file)| && Read(c, file)[k].id in ids
    ensures var end := Read(c, Run(c, Mutate(c, file, ids, Acknowledged(now)), later));
      k < |end| && !UnreadAt(end[k], at) && Core(end[k]) == Core(Read(c, file)[k]) &&
      end[k].readAt == Or(Read(c, file)[k].readAt, now)
  {
    MutateMaps(c, file.value, ids, Acknowledged(now));
    MessagesPersist(c, Mutate(c, file, ids, Acknowledged(now)), later, k);
  }

  /** A lease hides exactly its messages for 60 seconds; releasing it shows those not yet read. */
  lemma LeaseHides(c: Codec, file: Option<string>, ids: set<string>, now: int, k: nat, at: int)
    requires Lawful(c) && k < |Read(c, file)| && Read(c, file)[k].id in ids
    ensures var leased := Mutate(c, file, ids, Claimed(now));
      var m := Read(c, file)[k];
      k < |Read(c, leased)| && k < |Read(c, Mutate(c, leased, ids, Released()))| &&
      (UnreadAt(Read(c, leased)[k], at) <==> m.readAt.None? && at >= now + LEASE_MS) &&
      (UnreadAt(Read(c, Mutate(c, leased, ids, Released()))[k], at) <==> m.readAt.None?)
  {
    MutateMaps(c, file.value, ids, Claimed(now));
    MutateMaps(c, Mutate(c, file, ids, Claimed(now)).value, ids, Released());
  }

  // ---- Byte by byte, mark by mark --------------------------------------------------------------------------------

  /** A line without the byte order mark it may begin with. */
  function Unmarked(raw: string): string { if "\U{FEFF}" <= raw then raw[1..] else raw }

  function Says(c: Codec, raw: string): Option<Message> {
    if c.blank(Unmarked(raw)) then None else c.parse(Unmarked(raw))
  }

  /** A file with one line more holds that line's message, if it says one, after all the others. */
  lemma ReadsLineByLine(c: Codec, lines: seq<string>, raw: string)
    ensures Messages(c, lines + [raw]) ==
      Messages(c, lines) + (if Says(c, raw).Some? then [Says(c, raw).value] else [])
    ensures Messages(c, []) == []
  {
    MessagesConcat(c, lines, [raw]);
    assert [raw][1..] == [];
  }

  /** An append leaves every byte, and adds the printed line, a final newline, and at most one newline before. */
  lemma AppendKeepsBytes(c: Codec, file: Option<string>, m: Message)
    ensures var (old', new') := (if file.Some? then file.value else "", Append(c, file, m).value);
      new' == old' + c.show(m) + "\n" || (old' != "" && new' == old' + "\n" + c.show(m) + "\n")
  {
  }

  /** The k-th message after an operation that selects by id, or the same as before when it selects another. */
  lemma MarksExactly(c: Codec, file: Option<string>, ids: set<string>, now: int, k: nat)
    requires Lawful(c) && k < |Read(c, file)| && ids != {}
    ensures var m := Read(c, file)[k];
      var (claimed, released) := (Apply(c, file, Claim(ids, now)), Apply(c, file, Release(ids)));
      var acknowledged := Apply(c, file, Acknowledge(ids, now));
      |Read(c, claimed)| == |Read(c, released)| == |Read(c, acknowledged)| == |Read(c, file)| &&
      Read(c, claimed)[k] == (if m.id in ids then m.(claimedAt := Some(now)) else m) &&
      Read(c, released)[k] == (if m.id in ids then m.(claimedAt := None) else m) &&
      Read(c, acknowledged)[k] == if m.id !in ids then m
        else m.(claimedAt := None, deliveredAt := Some(if m.deliveredAt.Some? then m.deliveredAt.value else now),
                readAt := Some(if m.readAt.Some? then m.readAt.value else now))
  {
    MutateMaps(c, file.value, ids, Claimed(now));
    MutateMaps(c, file.value, ids, Released());
    MutateMaps(c, file.value, ids, Acknowledged(now));
  }

  predicate Rising(numbers: seq<nat>, most: nat) {
    (forall i | 0 <= i < |numbers| :: numbers[i] <= most) && forall i, j | 0 <= i < j < |numbers| :: numbers[i] < numbers[j]
  }

  /** The damaged lines are the ones that are neither blank nor say anything, by number and rising. */
  lemma {:induction false} DamagedExactly(c: Codec, lines: seq<string>, n: nat, number: nat)
    requires n <= |lines|
    ensures number in Damaged(c, lines, n) <==>
      1 <= number <= n && Says(c, lines[number - 1]).None? && !c.blank(Unmarked(lines[number - 1]))
    ensures Rising(Damaged(c, lines, n), n)
  {
    if n > 0 {
      DamagedExactly(c, lines, n - 1, number);
    }
  }

  // ---- The file, rewritten in place ---------------------------------------------------------------------------------

  /** The numbers, from 1, of the lines readMailbox reports as malformed. */
  function Damaged(c: Codec, lines: seq<string>, n: nat): seq<nat>
    requires n <= |lines|
  {
    if n == 0 then []
    else
      Damaged(c, lines, n - 1) +
      (if !Blank(c, lines[n - 1]) && MessageOn(c, lines[n - 1]).None? then [n] else [])
  }

  lemma MessagesGrow(c: Codec, lines: seq<string>, n: nat)
    requires n < |lines|
    ensures Messages(c, lines[..n + 1]) ==
      Messages(c, lines[..n]) + (if MessageOn(c, lines[n]).Some? then [MessageOn(c, lines[n]).value] else [])
  {
    assert lines[..n + 1] == lines[..n] + [lines[n]];
    MessagesConcat(c, lines[..n], [lines[n]]);
    assert [lines[n]][1..] == [];
  }

  class MailboxFile {
    const codec: Codec
    var file: Option<string>

    constructor (codec: Codec)
      ensures this.codec == codec && file == None
    {
      this.codec := codec;
      file := None;
    }

    method AppendMessage(m: Message)
      modifies this
      ensures file == Append(codec, old(file), m)
    {
      var existing := "";
      if file.Some? {
        existing := file.value;
      }
      var separator := "";
      if existing != "" && existing[|existing| - 1] != NEWLINE {
        separator := [NEWLINE];
      }
      file := Some(existing + separator + codec.show(m) + [NEWLINE]);
    }

    method ReadMessages() returns (messages: seq<Message>, damaged: seq<nat>)
      ensures messages == Read(codec, file)
      ensures damaged == if file.None? then [] else Damaged(codec, Split(file.value), |Split(file.value)|)
    {
      messages, damaged := [], [];
      if file.None? {
        return;
      }
      var lines := Split(file.value);
      for i := 0 to |lines|
        invariant messages == Messages(codec, lines[..i])
        invariant damaged == Damaged(codec, lines, i)
      {
        MessagesGrow(codec, lines, i);
        var line := StripBom(lines[i]);
        if !codec.blank(line) {
          var value := codec.parse(line);
          if value.None? {
            damaged := damaged + [i + 1];
          } else {
            messages := messages + [value.value];
          }
        }
      }
      assert lines[..|lines|] == lines;
    }

    method MutateMessages(ids: set<string>, f: Message -> Message)
      modifies this
      ensures file == Mutate(codec, old(file), ids, f)
    {
      if ids == {} || file.None? {
        return;
      }
      var raw := Split(file.value);
      var lines: seq<string> := [];
      for i := 0 to |raw|
        invariant |lines| == i && forall k | 0 <= k < i :: lines[k] == Rewrite(codec, ids, f, raw[k])
      {
        var line := StripBom(raw[i]);
        var next := raw[i];
        if !codec.blank(line) {
          var value := codec.parse(line);
          if value.Some? && value.value.id in ids {
            next := codec.show(f(value.value));
          }
        }
        lines := lines + [next];
      }
      assert lines == RewriteAll(codec, ids, f, raw);
      file := Some(Join(lines));
    }

    method ClaimDelivery(ids: set<string>, now: int)
      modifies this
      ensures file == Apply(codec, old(file), Claim(ids, now))
    {
      MutateMessages(ids, Claimed(now));
    }

    method ReleaseDelivery(ids: set<string>)
      modifies this
      ensures file == Apply(codec, old(file), Release(ids))
    {
      MutateMessages(ids, Released());
    }

    method AcknowledgeMessages(ids: set<string>, now: int)
      modifies this
      ensures file == Apply(codec, old(file), Acknowledge(ids, now))
    {
      MutateMessages(ids, Acknowledged(now));
    }
  }
}
