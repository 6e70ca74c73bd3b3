/**
 The shared-memory sister bus of cpp-harness/src/sister_shm.cpp: a fixed array of slots with NUL-padded
 fields, searched linearly, filled one store at a time and committed by the magic number. Chars are bytes.
 Beside it, the in-process bus of cpp-harness/src/middleware.cpp, which the segment must agree with.
 */
module SisterBus {
  import opened TreeBounds
  import opened Wrappers

  const SLOTS: nat := 64
  const TASK_ID_MAX: nat := 64
  const SESSION_ID_MAX: nat := 64
  const NAMESPACE_MAX: nat := 64
  const KEY_MAX: nat := 128
  const WORKER_ID_MAX: nat := 64
  const VALUE_MAX: nat := 65536
  const NUL: char := '\0'

  /** The key of an entry: partition, namespace and key. */
  datatype Triple = Triple(session: string, space: string, key: string)

  datatype Entry = Entry(taskId: string, at: Triple, value: string, promotable: bool, updatedBy: string, timestamp: nat)

  /** One slot; `live` is a non-zero magic. Text fields hold their whole fixed-size storage. */
  datatype Slot = Slot(
    live: bool, promotable: bool, timestamp: nat, taskId: string, session: string, space: string, key: string,
    updatedBy: string, valueLen: nat, value: string)

  datatype Bus = Bus(slots: seq<Slot>, entryCount: nat, seqNo: nat)

  // ---- Fixed-size fields --------------------------------------------------------------------------

  function Nuls(n: nat): (r: string)
    ensures |r| == n && forall i | 0 <= i < n :: r[i] == NUL
  {
    seq(n, i => NUL)
  }

  /** copyField: at most cap - 1 bytes, then NULs to the end of the field. */
  function Pad(cap: nat, s: string): (r: string)
    requires cap > 0
    ensures |r| == cap
  {
    if |s| < cap then s + Nuls(cap - |s|) else s[..cap - 1] + Nuls(1)
  }

  /** fromField: the bytes before the first NUL. */
  function Text(f: string): string {
    if f == "" || f[0] == NUL then "" else [f[0]] + Text(f[1..])
  }

  /** fieldEq: `v` fits the field and is exactly what the field holds, padding included. */
  predicate FieldEq(f: string, v: string) {
    |v| < |f| && f[..|v|] == v && forall i | |v| <= i < |f| :: f[i] == NUL
  }

  predicate NulFree(s: string) { forall i | 0 <= i < |s| :: s[i] != NUL }

  lemma FieldEqIsPad(f: string, v: string)
    requires f != ""
    ensures FieldEq(f, v) <==> |v| < |f| && f == Pad(|f|, v)
  {
    if FieldEq(f, v) {
      assert f == f[..|v|] + f[|v|..];
    }
  }

  lemma {:induction false} TextOfPad(s: string, n: nat)
    requires NulFree(s) && n > 0
    ensures Text(s + Nuls(n)) == s
  {
    if s == "" {
      assert s + Nuls(n) == Nuls(n);
    } else {
      assert (s + Nuls(n))[1..] == s[1..] + Nuls(n);
      TextOfPad(s[1..], n);
    }
  }

  lemma ShortTextSurvives(cap: nat, s: string)
    requires NulFree(s) && |s| < cap
    ensures Text(Pad(cap, s)) == s
  {
    TextOfPad(s, cap - |s|);
  }

  lemma PadInjective(cap: nat, s: string, t: string)
    requires NulFree(s) && NulFree(t) && |s| < cap && |t| < cap && Pad(cap, s) == Pad(cap, t)
    ensures s == t
  {
    ShortTextSurvives(cap, s);
    ShortTextSurvives(cap, t);
  }

  // ---- Slots ------------------------------------------------------------------------------------------

  predicate Sized(s: Slot) {
    |s.taskId| == TASK_ID_MAX && |s.session| == SESSION_ID_MAX && |s.space| == NAMESPACE_MAX && |s.key| == KEY_MAX &&
    |s.updatedBy| == WORKER_ID_MAX && |s.value| == VALUE_MAX && s.valueLen <= VALUE_MAX
  }

  /** A bus segment: any slot contents at all, as long as the layout is right. */
  ghost predicate Layout(b: Bus) {
    |b.slots| == SLOTS && forall i | 0 <= i < SLOTS :: Sized(b.slots[i])
  }

  predicate SlotMatch(s: Slot, t: Triple) {
    FieldEq(s.session, t.session) && FieldEq(s.space, t.space) && FieldEq(s.key, t.key)
  }

  /** A live slot that answers for `t`. */
  predicate Hit(s: Slot, t: Triple) { s.live && SlotMatch(s, t) }

  /** Every field of the triple is shorter than its storage. */
  predicate Short(t: Triple) {
    |t.session| < SESSION_ID_MAX && |t.space| < NAMESPACE_MAX && |t.key| < KEY_MAX
  }

  predicate Plain(t: Triple) {
    Short(t) && NulFree(t.session) && NulFree(t.space) && NulFree(t.key)
  }

  /** The storage a triple is copied to. */
  function Stored(t: Triple): Triple {
    Triple(Pad(SESSION_ID_MAX, t.session), Pad(NAMESPACE_MAX, t.space), Pad(KEY_MAX, t.key))
  }

  function Where(s: Slot): Triple { Triple(s.session, s.space, s.key) }

  lemma MatchIsStored(s: Slot, t: Triple)
    requires Sized(s)
    ensures SlotMatch(s, t) <==> Short(t) && Where(s) == Stored(t)
  {
    FieldEqIsPad(s.session, t.session);
    FieldEqIsPad(s.space, t.space);
    FieldEqIsPad(s.key, t.key);
  }

  lemma PlainStoredInjective(t: Triple, u: Triple)
    requires Plain(t) && Plain(u) && Stored(t) == Stored(u)
    ensures t == u
  {
    PadInjective(SESSION_ID_MAX, t.session, u.session);
    PadInjective(NAMESPACE_MAX, t.space, u.space);
    PadInjective(KEY_MAX, t.key, u.key);
  }

  /** slotToEntry. */
  function ToEntry(s: Slot): Entry
    requires Sized(s)
  {
    Entry(Text(s.taskId), Triple(Text(s.session), Text(s.space), Text(s.key)), s.value[..s.valueLen], s.promotable,
          Text(s.updatedBy), s.timestamp)
  }

  // ---- read and publish -----------------------------------------------------------------------------------

  function Read(b: Bus, t: Triple): Option<Entry>
    requires Layout(b)
  {
    var i := Find(b.slots, s => Hit(s, t));
    if i.Some? then Some(ToEntry(b.slots[i.value])) else None
  }

  datatype Mode = Update | Claim | Evict

  /** Where a publish writes: the matching slot, else the first free slot, else slot 0. */
  function Target(b: Bus, t: Triple): (nat, Mode) {
    var hit := Find(b.slots, s => Hit(s, t));
    var free := Find(b.slots, (s: Slot) => !s.live);
    if hit.Some? then (hit.value, Update) else if free.Some? then (free.value, Claim) else (0, Evict)
  }

  const ZERO: Slot := Slot(false, false, 0, Nuls(TASK_ID_MAX), Nuls(SESSION_ID_MAX), Nuls(NAMESPACE_MAX), Nuls(KEY_MAX),
                           Nuls(WORKER_ID_MAX), 0, Nuls(VALUE_MAX))

  function Host(who: string): string { if who == "" then "host" else who }

  /** Stores made before the fields every publish writes: clear the slot, three keys, count it. */
  function Prelude(mode: Mode): nat { if mode == Update then 0 else 5 }

  /** Stores until the commit: the prelude and taskId, updatedBy, visibility, timestamp, valueLen, value. */
  function Uncommitted(mode: Mode): nat { Prelude(mode) + 6 }

  /** The target slot after the first `k` stores of a publish. */
  function SlotAt(before: Slot, e: Entry, now: nat, mode: Mode, k: nat): Slot
    requires Sized(before) && |e.value| <= VALUE_MAX
  {
    var claims := mode != Update;
    var n := Prelude(mode);
    var base := if claims && k >= 1 then ZERO else before;
    Slot(
      k >= n + 7 || base.live,
      if k >= n + 3 then e.promotable else base.promotable,
      if k >= n + 4 then now else base.timestamp,
      if k >= n + 1 then Pad(TASK_ID_MAX, e.taskId) else base.taskId,
      if claims && k >= 2 then Pad(SESSION_ID_MAX, e.at.session) else base.session,
      if claims && k >= 3 then Pad(NAMESPACE_MAX, e.at.space) else base.space,
      if claims && k >= 4 then Pad(KEY_MAX, e.at.key) else base.key,
      if k >= n + 2 then Pad(WORKER_ID_MAX, Host(e.updatedBy)) else base.updatedBy,
      if k >= n + 5 then |e.value| else base.valueLen,
      if k >= n + 6 then e.value + base.value[|e.value|..] else base.value)
  }

  /** The whole segment after the first `k` stores of a publish. */
  function BusAt(b: Bus, e: Entry, now: nat, k: nat): Bus
    requires Layout(b) && |e.value| <= VALUE_MAX
  {
    var (i, mode) := Target(b, e.at);
    Bus(b.slots[i := SlotAt(b.slots[i], e, now, mode, k)],
        if mode != Update && k >= 5 && b.entryCount < SLOTS then b.entryCount + 1 else b.entryCount,
        if k >= Uncommitted(mode) + 2 then b.seqNo + 1 else b.seqNo)
  }

  /** publish, run to its end; a value over the cap changes nothing. */
  function Publish(b: Bus, e: Entry, now: nat): (Bus, bool)
    requires Layout(b)
  {
    if |e.value| > VALUE_MAX then (b, false) else (BusAt(b, e, now, Uncommitted(Target(b, e.at).1) + 2), true)
  }

  lemma BusAtLayout(b: Bus, e: Entry, now: nat, k: nat)
    requires Layout(b) && |e.value| <= VALUE_MAX
    ensures Layout(BusAt(b, e, now, k))
  {
  }

  /** A segment just created: all bytes zero. */
  function Blank(): Bus { Bus(seq(SLOTS, i => ZERO), 0, 0) }

  // ---- Reads see slots, and only slots that hit -------------------------------------------------------------

  /** No two live slots hold the same triple. */
  ghost predicate OnePerTriple(slots: seq<Slot>) {
    forall i, j | 0 <= i < j < |slots| && slots[i].live && slots[j].live :: Where(slots[i]) != Where(slots[j])
  }

  lemma ReadAt(b: Bus, t: Triple, i: nat)
    requires Layout(b) && OnePerTriple(b.slots) && i < SLOTS && Hit(b.slots[i], t)
    ensures Read(b, t) == Some(ToEntry(b.slots[i]))
  {
    var j := Find(b.slots, s => Hit(s, t)).value;
    MatchIsStored(b.slots[i], t);
    MatchIsStored(b.slots[j], t);
  }

  lemma ReadNone(b: Bus, t: Triple)
    requires Layout(b) && forall i | 0 <= i < SLOTS :: !Hit(b.slots[i], t)
    ensures Read(b, t) == None
  {
  }

  /** When slots that answer for `t` are the same, so is the answer. */
  lemma ReadSame(b: Bus, b': Bus, t: Triple)
    requires Layout(b) && Layout(b')
    requires forall i | 0 <= i < SLOTS :: b'.slots[i] == b.slots[i] || (!Hit(b.slots[i], t) && !Hit(b'.slots[i], t))
    ensures Read(b', t) == Read(b, t)
  {
    var (x, y) := (Find(b.slots, s => Hit(s, t)), Find(b'.slots, s => Hit(s, t)));
    if x.Some? {
      assert Hit(b'.slots[x.value], t);
    }
    if y.Some? {
      assert Hit(b.slots[y.value], t);
    }
  }

  // ---- What a publish does to every read ----------------------------------------------------------------------

  /** The entry as it reads back: text fields cut to their storage, the host's time, "host" for nobody. */
  function Shown(e: Entry, now: nat): Entry {
    Entry(Text(Pad(TASK_ID_MAX, e.taskId)),
          Triple(Text(Stored(e.at).session), Text(Stored(e.at).space), Text(Stored(e.at).key)),
          e.value, e.promotable, Text(Pad(WORKER_ID_MAX, Host(e.updatedBy))), now)
  }

  /** A field reads back as the bytes before its first NUL, and one fewer than its storage at most. */
  predicate IsFieldOf(r: string, cap: nat, s: string) {
    r <= s && |r| < cap && NulFree(r) && (r == s || s[|r|] == '\0' || |r| == cap - 1)
  }

  lemma {:induction false} TextStopsAtNul(f: string)
    ensures Text(f) <= f && NulFree(Text(f)) && (|Text(f)| < |f| ==> f[|Text(f)|] == NUL)
  {
    if f != "" && f[0] != NUL {
      TextStopsAtNul(f[1..]);
      assert f == [f[0]] + f[1..];
    }
  }

  lemma FieldReadsBack(cap: nat, s: string)
    requires cap > 0
    ensures IsFieldOf(Text(Pad(cap, s)), cap, s)
  {
    var (f, r) := (Pad(cap, s), Text(Pad(cap, s)));
    TextStopsAtNul(f);
    assert f[..|r|] == r;
    forall i | 0 <= i < |r| ensures f[i] != NUL {
      assert f[i] == r[i];
    }
    assert f[cap - 1] == NUL && (|s| < cap ==> f[|s|] == NUL);
    assert r == s[..|r|];
  }

  /** What an entry reads back as, field by field; the time and a missing writer's name are the host's. */
  lemma ShownExactly(e: Entry, now: nat)
    ensures var r := Shown(e, now);
      IsFieldOf(r.taskId, 64, e.taskId) && IsFieldOf(r.at.session, 64, e.at.session) &&
      IsFieldOf(r.at.space, 64, e.at.space) && IsFieldOf(r.at.key, 128, e.at.key) &&
      IsFieldOf(r.updatedBy, 64, if e.updatedBy == "" then "host" else e.updatedBy) &&
      r.value == e.value && r.promotable == e.promotable && r.timestamp == now
  {
    FieldReadsBack(TASK_ID_MAX, e.taskId);
    FieldReadsBack(SESSION_ID_MAX, e.at.session);
    FieldReadsBack(NAMESPACE_MAX, e.at.space);
    FieldReadsBack(KEY_MAX, e.at.key);
    FieldReadsBack(WORKER_ID_MAX, Host(e.updatedBy));
  }

  lemma TargetFacts(b: Bus, t: Triple)
    requires Layout(b)
    ensures var (i, mode) := Target(b, t);
      i < SLOTS && (mode == Update <==> Hit(b.slots[i], t)) &&
      (mode == Claim ==> !b.slots[i].live && forall j | 0 <= j < i :: b.slots[j].live) &&
      (mode == Evict ==> i == 0 && forall j | 0 <= j < SLOTS :: b.slots[j].live) &&
      (mode != Update ==> forall j | 0 <= j < SLOTS :: !Hit(b.slots[j], t))
  {
  }

  lemma FinalSlot(before: Slot, e: Entry, now: nat, mode: Mode)
    requires Sized(before) && |e.value| <= VALUE_MAX && (mode == Update ==> Where(before) == Stored(e.at))
    ensures var s := SlotAt(before, e, now, mode, Uncommitted(mode) + 2);
      Sized(s) && s.live && Where(s) == Stored(e.at) && ToEntry(s) == Shown(e, now)
  {
  }

  /** The segment without slot 0, which an eviction clears first. */
  function Cleared(b: Bus): Bus
    requires Layout(b)
  {
    b.(slots := b.slots[0 := ZERO])
  }

  lemma ClearedRead(b: Bus, t: Triple)
    requires Layout(b) && OnePerTriple(b.slots)
    ensures Read(Cleared(b), t) == if Hit(b.slots[0], t) then None else Read(b, t)
  {
    if Hit(b.slots[0], t) {
      forall j | 0 < j < SLOTS ensures !Hit(b.slots[j], t) {
        MatchIsStored(b.slots[j], t);
        MatchIsStored(b.slots[0], t);
      }
    } else {
      ReadSame(b, Cleared(b), t);
    }
  }

  ghost predicate HitBefore(b: Bus, t: Triple, i: nat)
    requires Layout(b) && i < SLOTS
  {
    exists j | 0 <= j < i :: Hit(b.slots[j], t)
  }

  /**
   What any publish into any segment does to any read: it answers for every triple with the storage of its own, unless
   an earlier slot already does, and loses slot 0 when it evicts; every other answer stays.
   */
  lemma PublishThenRead(b: Bus, e: Entry, now: nat, t: Triple)
    requires Layout(b) && |e.value| <= VALUE_MAX
    ensures Layout(Publish(b, e, now).0) && Target(b, e.at).0 < SLOTS
    ensures Read(Publish(b, e, now).0, t) ==
      if Short(t) && Stored(t) == Stored(e.at) && !HitBefore(b, t, Target(b, e.at).0) then Some(Shown(e, now))
      else if Target(b, e.at).1 == Evict then Read(Cleared(b), t)
      else Read(b, t)
  {
    var (i, mode) := Target(b, e.at);
    var b' := Publish(b, e, now).0;
    TargetFacts(b, e.at);
    MatchIsStored(b.slots[i], e.at);
    FinalSlot(b.slots[i], e, now, mode);
    MatchIsStored(b'.slots[i], t);
    MatchIsStored(b.slots[i], t);
    if Short(t) && Stored(t) == Stored(e.at) {
      OwnRead(b, b', e, now, t, i);
    } else if mode == Evict {
      ReadSame(Cleared(b), b', t);
    } else {
      ReadSame(b, b', t);
    }
  }

  lemma OwnRead(b: Bus, b': Bus, e: Entry, now: nat, t: Triple, i: nat)
    requires Layout(b) && Layout(b') && i < SLOTS && b'.slots == b.slots[i := b'.slots[i]]
    requires Hit(b'.slots[i], t) && ToEntry(b'.slots[i]) == Shown(e, now)
    ensures Read(b', t) == if HitBefore(b, t, i) then Read(b, t) else Some(Shown(e, now))
  {
    var (x, y) := (Find(b.slots, s => Hit(s, t)), Find(b'.slots, s => Hit(s, t)));
    if HitBefore(b, t, i) {
      assert x.Some? && x.value < i && Hit(b'.slots[x.value], t);
    }
  }

  /** With one slot per triple: the entry answers for its own triple, and an eviction loses slot 0's. */
  lemma PublishThenReadUnique(b: Bus, e: Entry, now: nat, t: Triple)
    requires Layout(b) && OnePerTriple(b.slots) && Short(e.at) && |e.value| <= VALUE_MAX
    ensures Layout(Publish(b, e, now).0)
    ensures Read(Publish(b, e, now).0, t) ==
      if Short(t) && Stored(t) == Stored(e.at) then Some(Shown(e, now))
      else if Target(b, e.at).1 == Evict && Hit(b.slots[0], t) then None
      else Read(b, t)
  {
    PublishThenRead(b, e, now, t);
    TargetFacts(b, e.at);
    ClearedRead(b, t);
    if Short(t) && Stored(t) == Stored(e.at) {
      NoneBefore(b, e.at, t);
    }
  }

  lemma NoneBefore(b: Bus, u: Triple, t: Triple)
    requires Layout(b) && Short(u) && Short(t) && Stored(t) == Stored(u) && Target(b, u).0 < SLOTS
    ensures !HitBefore(b, t, Target(b, u).0)
  {
    forall j | 0 <= j < Target(b, u).0 ensures !Hit(b.slots[j], t) {
      MatchIsStored(b.slots[j], t);
      MatchIsStored(b.slots[j], u);
    }
  }

  lemma PublishKeepsOne(b: Bus, e: Entry, now: nat)
    requires Layout(b) && OnePerTriple(b.slots) && Short(e.at) && |e.value| <= VALUE_MAX
    ensures OnePerTriple(Publish(b, e, now).0.slots)
  {
    var (i, mode) := Target(b, e.at);
    TargetFacts(b, e.at);
    MatchIsStored(b.slots[i], e.at);
    FinalSlot(b.slots[i], e, now, mode);
    forall j | 0 <= j < SLOTS && j != i && b.slots[j].live ensures Where(b.slots[j]) != Stored(e.at) {
      MatchIsStored(b.slots[j], e.at);
    }
  }

  /** One live slot per triple survives a publish exactly when its triple fits, or nothing else holds the cut form. */
  lemma OnePerTripleKeptExactly(b: Bus, e: Entry, now: nat)
    requires Layout(b) && OnePerTriple(b.slots) && |e.value| <= VALUE_MAX
    ensures OnePerTriple(Publish(b, e, now).0.slots) <==>
      Short(e.at) ||
      forall j | 0 <= j < SLOTS && j != Target(b, e.at).0 && b.slots[j].live :: Where(b.slots[j]) != Stored(e.at)
  {
    if Short(e.at) {
      PublishKeepsOne(b, e, now);
    } else {
      var (i, mode) := Target(b, e.at);
      TargetFacts(b, e.at);
      MatchIsStored(b.slots[i], e.at);
      FinalSlot(b.slots[i], e, now, mode);
      var after := Publish(b, e, now).0.slots;
      if j :| 0 <= j < SLOTS && j != i && b.slots[j].live && Where(b.slots[j]) == Stored(e.at) {
        assert after[j] == b.slots[j] && Where(after[i]) == Where(after[j]);
        assert !OnePerTriple(after) by {
          if i < j {
            assert after[i].live && after[j].live;
          } else {
            assert after[j].live && after[i].live;
          }
        }
      }
    }
  }

  /** What was published is read back under its own triple if and only if the triple fits its fields. */
  lemma ReadBackExactly(b: Bus, e: Entry, now: nat)
    requires Layout(b) && OnePerTriple(b.slots) && |e.value| <= VALUE_MAX
    ensures Layout(Publish(b, e, now).0)
    ensures Read(Publish(b, e, now).0, e.at) == Some(Shown(e, now)) <==> Short(e.at)
  {
    var b' := Publish(b, e, now).0;
    if Short(e.at) {
      PublishThenReadUnique(b, e, now, e.at);
    } else {
      forall j | 0 <= j < SLOTS ensures !Hit(b'.slots[j], e.at) {
        MatchIsStored(b'.slots[j], e.at);
      }
    }
  }

  // ---- Reads under another triple ----------------------------------------------------------------------------

  /** A triple that nothing answered for reads a newly published entry exactly when both are stored alike. */
  lemma ForeignReadExactly(b: Bus, e: Entry, now: nat, t: Triple)
    requires Layout(b) && |e.value| <= VALUE_MAX && forall j | 0 <= j < SLOTS :: !Hit(b.slots[j], t)
    ensures Layout(Publish(b, e, now).0)
    ensures Read(Publish(b, e, now).0, t) == if Short(t) && Stored(t) == Stored(e.at) then Some(Shown(e, now)) else None
  {
    PublishThenRead(b, e, now, t);
    ReadNone(b, t);
    ReadNone(Cleared(b), t);
  }

  /** Of the bytes that reach a field of `cap` bytes, only NULs follow a NUL. */
  predicate NulsLast(cap: nat, s: string) {
    forall i, j | 0 <= i < j < |s| && j < cap - 1 && s[i] == NUL :: s[j] == NUL
  }

  lemma {:induction false} TextStops(f: string)
    ensures |Text(f)| <= |f| && NulFree(Text(f)) && f[..|Text(f)|] == Text(f)
    ensures |Text(f)| < |f| ==> f[|Text(f)|] == NUL
  {
    if f != "" && f[0] != NUL {
      TextStops(f[1..]);
      assert f == [f[0]] + f[1..];
    }
  }

  /** Reading a field back and storing it again gives the same field exactly when its NULs come last. */
  lemma RestoredExactly(cap: nat, s: string)
    requires cap > 0
    ensures |Text(Pad(cap, s))| < cap
    ensures Pad(cap, Text(Pad(cap, s))) == Pad(cap, s) <==> NulsLast(cap, s)
  {
    var f := Pad(cap, s);
    var n := |Text(f)|;
    TextStops(f);
    assert f[cap - 1] == NUL;
    assert forall i | 0 <= i < |s| && i < cap - 1 :: f[i] == s[i];
    assert forall i | n <= i < cap :: Pad(cap, Text(f))[i] == NUL;
    if NulsLast(cap, s) {
      forall i | n <= i < cap ensures f[i] == NUL {
        if i < |s| && i < cap - 1 {
          assert s[n] == NUL;
        }
      }
      assert Pad(cap, Text(f)) == f;
    } else {
      var i, j :| 0 <= i < j < |s| && j < cap - 1 && s[i] == NUL && s[j] != NUL;
      assert f[i] == NUL && f[j] != NUL;
      assert n <= i;
      assert Pad(cap, Text(f))[j] == NUL;
    }
  }

  /** The names a stored triple reads back under. */
  function Named(t: Triple): Triple {
    Triple(Text(Stored(t).session), Text(Stored(t).space), Text(Stored(t).key))
  }

  predicate TripleNulsLast(t: Triple) {
    NulsLast(SESSION_ID_MAX, t.session) && NulsLast(NAMESPACE_MAX, t.space) && NulsLast(KEY_MAX, t.key)
  }

  lemma PlainIsNamed(t: Triple)
    requires Plain(t)
    ensures Named(t) == t
  {
    ShortTextSurvives(SESSION_ID_MAX, t.session);
    ShortTextSurvives(NAMESPACE_MAX, t.space);
    ShortTextSurvives(KEY_MAX, t.key);
  }

  lemma NamedIsPlain(t: Triple)
    ensures Plain(Named(t)) && (Stored(Named(t)) == Stored(t) <==> TripleNulsLast(t))
  {
    RestoredExactly(SESSION_ID_MAX, t.session);
    RestoredExactly(NAMESPACE_MAX, t.space);
    RestoredExactly(KEY_MAX, t.key);
    TextStops(Stored(t).session);
    TextStops(Stored(t).space);
    TextStops(Stored(t).key);
  }

  /**
   Reads are called fail-closed across partitions. Another NUL-free triple that fits its fields answers for what is
   published under `at` exactly when `at` itself does not fit or holds NULs, and they are its last stored bytes.
   */
  lemma ForeignNameExactly(at: Triple)
    ensures (exists t :: Plain(t) && t != at && Stored(t) == Stored(at)) <==> !Plain(at) && TripleNulsLast(at)
  {
    NamedIsPlain(at);
    forall t | Plain(t) && t != at && Stored(t) == Stored(at) ensures !Plain(at) && TripleNulsLast(at) {
      PlainIsNamed(t);
      assert Named(t) == Named(at);
      if Plain(at) {
        PlainIsNamed(at);
      }
    }
    if !Plain(at) && TripleNulsLast(at) {
      assert Named(at) != at && Stored(Named(at)) == Stored(at);
    }
  }

  /** Session "a" reads what session "a" followed by a NUL published, and both names fit. */
  lemma TrailingNulLeaks(e: Entry, now: nat, t: Triple)
    requires e.at == Triple("a" + [NUL], t.space, t.key) && t.session == "a" && Plain(t) && |e.value| <= VALUE_MAX
    ensures Short(e.at) && e.at != t && Read(Blank(), t) == None
    ensures Read(Publish(Blank(), e, now).0, t) == Some(Shown(e, now))
  {
    assert Pad(SESSION_ID_MAX, "a" + [NUL]) == Pad(SESSION_ID_MAX, "a");
    ReadNone(Blank(), t);
    ForeignReadExactly(Blank(), e, now, t);
  }

  /** A session id of 64 bytes or more is stored cut to 63, and the partition of those 63 bytes can read it. */
  lemma OversizeSessionLeaks(b: Bus, e: Entry, now: nat, t: Triple)
    requires Layout(b) && |e.value| <= VALUE_MAX
    requires |e.at.session| >= SESSION_ID_MAX && t == e.at.(session := e.at.session[..SESSION_ID_MAX - 1]) && Short(t)
    requires forall j | 0 <= j < SLOTS :: !Hit(b.slots[j], t)
    ensures Read(b, t) == None && Layout(Publish(b, e, now).0)
    ensures Read(Publish(b, e, now).0, t) == Some(Shown(e, now))
  {
    ReadNone(b, t);
    assert Stored(t).session == Stored(e.at).session;
    ForeignReadExactly(b, e, now, t);
  }

  // ---- Crashes -----------------------------------------------------------------------------------------------------

  /** A publisher that dies before the commit of a slot that was free changes no read at all. */
  lemma CrashInFreeSlotIsInvisible(b: Bus, e: Entry, now: nat, k: nat, t: Triple)
    requires Layout(b) && |e.value| <= VALUE_MAX
    requires Target(b, e.at).1 == Claim && k <= Uncommitted(Claim)
    ensures Layout(BusAt(b, e, now, k)) && Read(BusAt(b, e, now, k), t) == Read(b, t)
  {
    TargetFacts(b, e.at);
    ReadSame(b, BusAt(b, e, now, k), t);
  }

  /** One that dies while it evicts has already lost slot 0's entry, and only that. */
  lemma CrashWhileEvicting(b: Bus, e: Entry, now: nat, k: nat, t: Triple)
    requires Layout(b) && OnePerTriple(b.slots) && |e.value| <= VALUE_MAX
    requires Target(b, e.at).1 == Evict && 1 <= k <= Uncommitted(Evict)
    ensures Layout(BusAt(b, e, now, k))
    ensures Read(BusAt(b, e, now, k), t) == if Hit(b.slots[0], t) then None else Read(b, t)
  {
    TargetFacts(b, e.at);
    var b' := BusAt(b, e, now, k);
    assert !b'.slots[0].live;
    if Hit(b.slots[0], t) {
      forall j | 0 <= j < SLOTS ensures !Hit(b'.slots[j], t) {
        MatchIsStored(b.slots[j], t);
        MatchIsStored(b.slots[0], t);
      }
    } else {
      ReadSame(b, b', t);
    }
  }

  /** What a live slot shows after `k` stores of an update: new fields up to there, old ones after. */
  function Mixed(before: Slot, e: Entry, now: nat, k: nat): Entry
    requires Sized(before) && |e.value| <= VALUE_MAX
  {
    var (was, next) := (ToEntry(before), Shown(e, now));
    Entry(if k >= 1 then next.taskId else was.taskId, was.at,
          if k >= 6 then e.value else if k == 5 then before.value[..|e.value|] else was.value,
          if k >= 3 then next.promotable else was.promotable,
          if k >= 2 then next.updatedBy else was.updatedBy,
          if k >= 4 then now else was.timestamp)
  }

  /** An update in place is visible store by store: a crash leaves the mixture, for its triple only. */
  lemma CrashWhileUpdating(b: Bus, e: Entry, now: nat, k: nat, t: Triple)
    requires Layout(b) && OnePerTriple(b.slots) && |e.value| <= VALUE_MAX && Target(b, e.at).1 == Update
    ensures Layout(BusAt(b, e, now, k))
    ensures Read(BusAt(b, e, now, k), t) ==
      var i := Target(b, e.at).0;
      if Hit(b.slots[i], t) then Some(Mixed(b.slots[i], e, now, k)) else Read(b, t)
  {
    TargetFacts(b, e.at);
    var (i, b') := (Target(b, e.at).0, BusAt(b, e, now, k));
    assert Where(b'.slots[i]) == Where(b.slots[i]) && b'.slots[i].live;
    if Hit(b.slots[i], t) {
      ReadAt(b', t, i);
      MixedIsShown(b.slots[i], e, now, k);
    } else {
      ReadSame(b, b', t);
    }
  }

  lemma MixedIsShown(before: Slot, e: Entry, now: nat, k: nat)
    requires Sized(before) && |e.value| <= VALUE_MAX
    ensures ToEntry(SlotAt(before, e, now, Update, k)) == Mixed(before, e, now, k)
  {
    if k == 5 {
      assert SlotAt(before, e, now, Update, k).value == before.value;
    } else if k >= 6 {
      assert (e.value + before.value[|e.value|..])[..|e.value|] == e.value;
    }
  }

  /** How many of the five things an update writes it changes. */
  function Changes(was: Entry, next: Entry): nat {
    (if was.taskId != next.taskId then 1 else 0) + (if was.updatedBy != next.updatedBy then 1 else 0) +
    (if was.promotable != next.promotable then 1 else 0) + (if was.timestamp != next.timestamp then 1 else 0) +
    (if was.value != next.value then 1 else 0)
  }

  /** What is in the slot reads whole under the new length already: as the old value or as the new one. */
  predicate LengthFirst(before: Slot, e: Entry)
    requires Sized(before) && |e.value| <= VALUE_MAX
  {
    var resized := before.value[..|e.value|];
    resized == e.value || resized == before.value[..before.valueLen]
  }

  lemma MixedIsWholeExactly(before: Slot, e: Entry, now: nat)
    requires Sized(before) && |e.value| <= VALUE_MAX && Where(before) == Stored(e.at)
    ensures var (was, next) := (ToEntry(before), Shown(e, now));
      (forall k | 0 <= k <= 6 :: Mixed(before, e, now, k) in {was, next}) <==>
        Changes(was, next) <= 1 && (was.value != e.value ==> LengthFirst(before, e))
  {
    var (was, next) := (ToEntry(before), Shown(e, now));
    if forall k | 0 <= k <= 6 :: Mixed(before, e, now, k) in {was, next} {
      assert Mixed(before, e, now, 1) in {was, next} && Mixed(before, e, now, 2) in {was, next};
      assert Mixed(before, e, now, 3) in {was, next} && Mixed(before, e, now, 4) in {was, next};
      assert Mixed(before, e, now, 5) in {was, next};
    }
    if Changes(was, next) <= 1 && (was.value != e.value ==> LengthFirst(before, e)) {
      forall k: nat | k <= 6 ensures Mixed(before, e, now, k) in {was, next} {
      }
    }
  }

  /**
   The source promises that no torn slot is ever visible. A crash during an update in place leaves the old entry or
   the new one, wherever it falls, exactly when at most one of task id, writer, visibility, clock and value changes
   and, if it is the value, the slot's bytes under the new length already are the old or the new value.
   */
  lemma UpdateIsWholeExactly(b: Bus, e: Entry, now: nat)
    requires Layout(b) && OnePerTriple(b.slots) && |e.value| <= VALUE_MAX && Target(b, e.at).1 == Update
    ensures Target(b, e.at).0 < SLOTS && Read(b, e.at).Some?
    ensures forall k | 0 <= k <= 6 :: Layout(BusAt(b, e, now, k)) && Read(BusAt(b, e, now, k), e.at).Some?
    ensures var (was, next) := (Read(b, e.at).value, Shown(e, now));
      (forall k | 0 <= k <= 6 :: Read(BusAt(b, e, now, k), e.at).value in {was, next}) <==>
        Changes(was, next) <= 1 && (was.value != e.value ==> LengthFirst(b.slots[Target(b, e.at).0], e))
  {
    TargetFacts(b, e.at);
    var i := Target(b, e.at).0;
    MatchIsStored(b.slots[i], e.at);
    ReadAt(b, e.at, i);
    forall k | 0 <= k <= 6
      ensures Layout(BusAt(b, e, now, k)) && Read(BusAt(b, e, now, k), e.at) == Some(Mixed(b.slots[i], e, now, k))
    {
      CrashWhileUpdating(b, e, now, k, e.at);
    }
    MixedIsWholeExactly(b.slots[i], e, now);
  }

  /** An ordinary update, a new value at a later time, cut off after its fourth store shows an entry never published. */
  lemma OrdinaryUpdateTears(e: Entry, value: string, now: nat, later: nat)
    requires Plain(e.at) && |e.value| <= VALUE_MAX && |value| <= VALUE_MAX && value != e.value && now != later
    ensures var (b, e') := (Publish(Blank(), e, now).0, e.(value := value));
      Layout(b) && Layout(BusAt(b, e', later, 4)) &&
      Read(BusAt(b, e', later, 4), e.at) == Some(Shown(e, later)) &&
      Shown(e, later) !in {Shown(e, now), Shown(e', later)}
  {
    var (b, e') := (Publish(Blank(), e, now).0, e.(value := value));
    PublishThenReadUnique(Blank(), e, now, e.at);
    PublishKeepsOne(Blank(), e, now);
    TargetFacts(b, e.at);
    var i := Target(b, e.at).0;
    assert Hit(b.slots[i], e.at);
    ReadAt(b, e.at, i);
    CrashWhileUpdating(b, e', later, 4, e.at);
  }

  // ---- entryCount ------------------------------------------------------------------------------------------------

  ghost function LiveSlots(b: Bus): set<nat> { LiveBelow(b.slots, |b.slots|) }

  ghost function LiveBelow(slots: seq<Slot>, n: nat): set<nat>
    requires n <= |slots|
  {
    set i: nat | i < n && slots[i].live
  }

  lemma {:induction false} AllLive(slots: seq<Slot>, n: nat)
    requires n <= |slots| && forall i | 0 <= i < n :: slots[i].live
    ensures |LiveBelow(slots, n)| == n
  {
    if n == 0 {
      assert LiveBelow(slots, 0) == {};
    } else {
      AllLive(slots, n - 1);
      assert LiveBelow(slots, n) == LiveBelow(slots, n - 1) + {n - 1};
    }
  }

  lemma LiveAtMostSlots(b: Bus)
    requires Layout(b)
    ensures |LiveSlots(b)| <= SLOTS
    ensures |LiveSlots(b)| == SLOTS <==> forall i | 0 <= i < SLOTS :: b.slots[i].live
  {
    var full := seq(SLOTS, i => ZERO.(live := true));
    AllLive(full, SLOTS);
    var all := LiveBelow(full, SLOTS);
    SubsetSize(LiveSlots(b), all);
    if |LiveSlots(b)| == SLOTS {
      assert all == LiveSlots(b) + (all - LiveSlots(b));
      forall i | 0 <= i < SLOTS ensures b.slots[i].live {
        assert full[i].live && i in all;
      }
    } else if forall i | 0 <= i < SLOTS :: b.slots[i].live {
      AllLive(b.slots, SLOTS);
    }
  }

  lemma LiveAfter(slots: seq<Slot>, i: nat, s: Slot)
    requires i < |slots| && s.live
    ensures |LiveBelow(slots[i := s], |slots|)| == |LiveBelow(slots, |slots|)| + (if slots[i].live then 0 else 1)
  {
    var after := slots[i := s];
    assert LiveBelow(after, |slots|) == LiveBelow(slots, |slots|) + {i};
  }

  /** entryCount counts the live slots through every publish that runs to its end, whatever it publishes. */
  lemma EntryCountIsLive(b: Bus, e: Entry, now: nat)
    requires Layout(b) && b.entryCount == |LiveSlots(b)|
    ensures var b' := Publish(b, e, now).0; Layout(b') && b'.entryCount == |LiveSlots(b')|
  {
    if |e.value| <= VALUE_MAX {
      var (i, mode) := Target(b, e.at);
      var b' := Publish(b, e, now).0;
      TargetFacts(b, e.at);
      LiveAtMostSlots(b);
      LiveAfter(b.slots, i, b'.slots[i]);
    }
  }

  lemma LiveLost(slots: seq<Slot>, i: nat, s: Slot)
    requires i < |slots| && slots[i].live && !s.live
    ensures |LiveBelow(slots[i := s], |slots|)| == |LiveBelow(slots, |slots|)| - 1
  {
    assert LiveBelow(slots, |slots|) == LiveBelow(slots[i := s], |slots|) + {i};
  }

  /** How far a crash after `k` stores leaves the count above the live slots. */
  function Overcount(mode: Mode, k: nat): nat {
    if (mode == Claim && k >= 5) || (mode == Evict && k >= 1) then 1 else 0
  }

  /**
   A crash before the commit leaves the count one too high exactly when it claimed and counted a free slot or cleared
   an evicted one; during an update it stays right.
   */
  lemma CrashOvercounts(b: Bus, e: Entry, now: nat, k: nat)
    requires Layout(b) && b.entryCount == |LiveSlots(b)| && |e.value| <= VALUE_MAX
    requires k <= Uncommitted(Target(b, e.at).1)
    ensures var b' := BusAt(b, e, now, k);
      b'.entryCount == |LiveSlots(b')| + Overcount(Target(b, e.at).1, k)
  {
    var ((i, mode), b') := (Target(b, e.at), BusAt(b, e, now, k));
    TargetFacts(b, e.at);
    LiveAtMostSlots(b);
    if mode == Evict && k >= 1 {
      LiveLost(b.slots, i, b'.slots[i]);
    } else {
      assert LiveSlots(b') == LiveSlots(b);
    }
  }

  // ---- Agreement with the in-process bus -----------------------------------------------------------------------------

  /** The composite key of the in-process map. */
  function Key(t: Triple): string { t.session + [NUL] + t.space + [NUL] + t.key }

  lemma {:induction false} CutAtNul(a: string, b: string, x: string, y: string)
    requires NulFree(a) && NulFree(b) && a + [NUL] + x == b + [NUL] + y
    ensures a == b && x == y
  {
    if a == "" || b == "" {
      assert (a + [NUL] + x)[0] == (b + [NUL] + y)[0];
      assert (a + [NUL] + x)[1..] == (b + [NUL] + y)[1..];
      assert a == b == "";
      assert (a + [NUL] + x)[1..] == x && (b + [NUL] + y)[1..] == y;
    } else {
      assert (a + [NUL] + x)[0] == a[0] && (b + [NUL] + y)[0] == b[0];
      assert (a + [NUL] + x)[1..] == a[1..] + [NUL] + x && (b + [NUL] + y)[1..] == b[1..] + [NUL] + y;
      CutAtNul(a[1..], b[1..], x, y);
      assert a == [a[0]] + a[1..] && b == [b[0]] + b[1..];
    }
  }

  lemma KeyInjective(t: Triple, u: Triple)
    requires Plain(t) && Plain(u) && Key(t) == Key(u)
    ensures t == u
  {
    assert Key(t) == t.session + [NUL] + (t.space + [NUL] + t.key);
    assert Key(u) == u.session + [NUL] + (u.space + [NUL] + u.key);
    CutAtNul(t.session, u.session, t.space + [NUL] + t.key, u.space + [NUL] + u.key);
    CutAtNul(t.space, u.space, t.key, u.key);
  }

  function MapPublish(m: map<string, Entry>, e: Entry, now: nat): map<string, Entry> {
    if |e.value| > VALUE_MAX then m else m[Key(e.at) := e.(timestamp := now, updatedBy := Host(e.updatedBy))]
  }

  function MapRead(m: map<string, Entry>, t: Triple): Option<Entry> {
    if Key(t) in m then Some(m[Key(t)]) else None
  }

  /** The in-process answer as the segment can show it: its text fields cut to their storage. */
  function Cut(r: Option<Entry>): Option<Entry> {
    if r.Some? then Some(Shown(r.value, r.value.timestamp)) else None
  }

  datatype Post = Post(e: Entry, now: nat)

  function ShmRun(posts: seq<Post>): (b: Bus)
    ensures Layout(b)
  {
    if posts == [] then Blank()
    else
      var (b, p) := (ShmRun(posts[..|posts| - 1]), posts[|posts| - 1]);
      Publish(b, p.e, p.now).0
  }

  function MapRun(posts: seq<Post>): map<string, Entry> {
    if posts == [] then map[]
    else
      var p := posts[|posts| - 1];
      MapPublish(MapRun(posts[..|posts| - 1]), p.e, p.now)
  }

  ghost predicate PlainPosts(posts: seq<Post>) {
    forall k | 0 <= k < |posts| :: Plain(posts[k].e.at)
  }

  ghost predicate Agree(b: Bus, m: map<string, Entry>)
    requires Layout(b)
  {
    forall t | Plain(t) :: Read(b, t) == Cut(MapRead(m, t))
  }

  /** In step: same answers, and as many live slots as the map has keys. */
  ghost predicate InStep(b: Bus, m: map<string, Entry>) {
    Layout(b) && OnePerTriple(b.slots) && Agree(b, m) && b.entryCount == |LiveSlots(b)| == |m|
  }

  lemma PublishInStep(b: Bus, m: map<string, Entry>, e: Entry, now: nat)
    requires InStep(b, m) && Plain(e.at)
    requires |MapPublish(m, e, now)| <= SLOTS
    ensures InStep(Publish(b, e, now).0, MapPublish(m, e, now))
  {
    if |e.value| <= VALUE_MAX {
      var (i, mode) := Target(b, e.at);
      var (b', m') := (Publish(b, e, now).0, MapPublish(m, e, now));
      TargetFacts(b, e.at);
      EntryCountIsLive(b, e, now);
      KnownExactlyWhenHit(b, m, e.at);
      assert mode != Evict by {
        if mode == Evict {
          LiveAtMostSlots(b);
        }
      }
      assert m'.Keys == m.Keys + {Key(e.at)};
      forall t | Plain(t) ensures Read(b', t) == Cut(MapRead(m', t)) {
        assert Read(b, t) == Cut(MapRead(m, t));
        PublishAgreesAt(b, m, e, now, t);
      }
      PublishKeepsOne(b, e, now);
      LiveAtMostSlots(b);
    }
  }

  lemma PublishAgreesAt(b: Bus, m: map<string, Entry>, e: Entry, now: nat, t: Triple)
    requires Layout(b) && OnePerTriple(b.slots) && Target(b, e.at).1 != Evict && |e.value| <= VALUE_MAX
    requires Plain(e.at) && Plain(t) && Read(b, t) == Cut(MapRead(m, t))
    ensures Layout(Publish(b, e, now).0)
    ensures Read(Publish(b, e, now).0, t) == Cut(MapRead(MapPublish(m, e, now), t))
  {
    PublishThenReadUnique(b, e, now, t);
    if Stored(t) == Stored(e.at) {
      PlainStoredInjective(t, e.at);
    } else if Key(t) == Key(e.at) {
      KeyInjective(t, e.at);
    }
  }

  lemma KnownExactlyWhenHit(b: Bus, m: map<string, Entry>, t: Triple)
    requires InStep(b, m) && Plain(t)
    ensures Target(b, t).1 == Update <==> Key(t) in m
  {
    assert Read(b, t) == Cut(MapRead(m, t));
  }

  lemma {:induction false} RunInStep(posts: seq<Post>)
    requires PlainPosts(posts) && |MapRun(posts)| <= SLOTS
    ensures InStep(ShmRun(posts), MapRun(posts))
  {
    if posts == [] {
      BlankInStep();
    } else {
      var (rest, p) := (posts[..|posts| - 1], posts[|posts| - 1]);
      SubsetSize(MapRun(rest).Keys, MapRun(posts).Keys);
      RunInStep(rest);
      PublishInStep(ShmRun(rest), MapRun(rest), p.e, p.now);
    }
  }

  lemma BlankInStep()
    ensures InStep(Blank(), map[])
  {
    forall t: Triple ensures Read(Blank(), t) == None {
      ReadNone(Blank(), t);
    }
    assert LiveSlots(Blank()) == {};
  }

  lemma {:induction false} RunEntriesPlain(posts: seq<Post>)
    requires PlainPosts(posts)
    ensures forall k | k in MapRun(posts) :: Plain(MapRun(posts)[k].at) && Key(MapRun(posts)[k].at) == k
  {
    if posts != [] {
      RunEntriesPlain(posts[..|posts| - 1]);
    }
  }

  /** At most `n` elements can be told apart by numbers below `n`. */
  lemma {:induction false} Pigeonhole<T(!new)>(s: set<T>, f: T -> nat, n: nat)
    requires forall x | x in s :: f(x) < n
    requires forall x, y | x in s && y in s && f(x) == f(y) :: x == y
    ensures |s| <= n
  {
    if n == 0 {
      assert s == {};
    } else if x :| x in s && f(x) == n - 1 {
      Pigeonhole(s - {x}, f, n - 1);
    } else {
      Pigeonhole(s, f, n - 1);
    }
  }

  ghost function Triples(m: map<string, Entry>): set<Triple> {
    set k | k in m :: m[k].at
  }

  lemma {:induction false} TriplesSize(m: map<string, Entry>)
    requires forall k | k in m :: Key(m[k].at) == k
    ensures |Triples(m)| == |m|
    decreases |m|
  {
    if |m| > 0 {
      var k :| k in m;
      var rest := m - {k};
      TriplesSize(rest);
      assert forall j | j in m :: j == k || (j in rest && m[j].at == rest[j].at);
      assert forall j | j in rest :: j in m && j != k && rest[j] == m[j];
      assert Triples(m) == Triples(rest) + {m[k].at};
      assert m[k].at !in Triples(rest);
    }
  }

  lemma AgreementFits(b: Bus, m: map<string, Entry>)
    requires Layout(b) && Agree(b, m)
    requires forall k | k in m :: Plain(m[k].at) && Key(m[k].at) == k
    ensures |m| <= SLOTS
  {
    var slotOf := (t: Triple) => Target(b, t).0;
    forall t | t in Triples(m) ensures slotOf(t) < SLOTS && Hit(b.slots[slotOf(t)], t) {
      assert Read(b, t) == Cut(MapRead(m, t));
    }
    forall t, u | t in Triples(m) && u in Triples(m) && slotOf(t) == slotOf(u) ensures t == u {
      MatchIsStored(b.slots[slotOf(t)], t);
      MatchIsStored(b.slots[slotOf(u)], u);
      PlainStoredInjective(t, u);
    }
    Pigeonhole(Triples(m), slotOf, SLOTS);
    TriplesSize(m);
  }

  /**
   After any run of publishes the two buses give the same answer to every read if and only if no more than 64
   triples were ever published: until then nothing is evicted, and from then on some answer must be missing.
   */
  lemma BusesAgreeExactly(posts: seq<Post>)
    requires PlainPosts(posts)
    ensures Agree(ShmRun(posts), MapRun(posts)) <==> |MapRun(posts)| <= SLOTS
    ensures |MapRun(posts)| <= SLOTS ==> ShmRun(posts).entryCount == |MapRun(posts)|
  {
    RunEntriesPlain(posts);
    if |MapRun(posts)| <= SLOTS {
      RunInStep(posts);
    } else if Agree(ShmRun(posts), MapRun(posts)) {
      AgreementFits(ShmRun(posts), MapRun(posts));
    }
  }

  function Completed(posts: seq<Post>): nat {
    if posts == [] then 0 else Completed(posts[..|posts| - 1]) + if |posts[|posts| - 1].e.value| <= 65536 then 1 else 0
  }

  /** The sequence number counts the publishes that completed: those whose value is at most 65536 bytes. */
  lemma {:induction false} SeqNoCountsPublishes(posts: seq<Post>)
    ensures ShmRun(posts).seqNo == Completed(posts)
    ensures posts != [] && |posts[|posts| - 1].e.value| > 65536 ==> ShmRun(posts) == ShmRun(posts[..|posts| - 1])
  {
    if posts != [] {
      SeqNoCountsPublishes(posts[..|posts| - 1]);
    }
  }

  // ---- Which answers are missing ---------------------------------------------------------------------------------

  /** The triples that have a slot, by slot: a new one takes the next slot, or slot 0 once all are taken. */
  function Seats(posts: seq<Post>): seq<Triple> {
    if posts == [] then []
    else
      var (seats, p) := (Seats(posts[..|posts| - 1]), posts[|posts| - 1]);
      if |p.e.value| > VALUE_MAX then seats else Seat(seats, p.e.at)
  }

  function Seat(seats: seq<Triple>, t: Triple): seq<Triple> {
    if t in seats then seats else if |seats| < SLOTS then seats + [t] else seats[0 := t]
  }

  /** Slot `i` shows the map's entry for `t`. */
  ghost predicate Seated(b: Bus, m: map<string, Entry>, t: Triple, i: nat)
    requires Layout(b) && i < SLOTS
  {
    Plain(t) && b.slots[i].live && Where(b.slots[i]) == Stored(t) && Cut(MapRead(m, t)) == Some(ToEntry(b.slots[i]))
  }

  /** Who sits where: distinct triples, each showing what the map holds for it; the slots behind them are free. */
  ghost predicate Seating(b: Bus, m: map<string, Entry>, seats: seq<Triple>) {
    Layout(b) && |seats| <= SLOTS && (forall i | 0 <= i < |seats| :: Seated(b, m, seats[i], i)) &&
    (forall i, j | 0 <= i < j < |seats| :: seats[i] != seats[j]) &&
    (forall i | |seats| <= i < SLOTS :: !b.slots[i].live)
  }

  /** A slot answers for a plain triple exactly when it is the triple's seat. */
  lemma SeatHits(b: Bus, m: map<string, Entry>, seats: seq<Triple>, t: Triple, i: nat)
    requires Seating(b, m, seats) && Plain(t) && i < SLOTS
    ensures Hit(b.slots[i], t) <==> i < |seats| && seats[i] == t
  {
    MatchIsStored(b.slots[i], t);
    if i < |seats| {
      assert Seated(b, m, seats[i], i);
      if Stored(seats[i]) == Stored(t) {
        PlainStoredInjective(seats[i], t);
      }
    }
  }

  lemma SeatedRead(b: Bus, m: map<string, Entry>, seats: seq<Triple>, t: Triple)
    requires Seating(b, m, seats) && Plain(t)
    ensures Read(b, t) == if t in seats then Cut(MapRead(m, t)) else None
  {
    forall i: nat | i < SLOTS ensures Hit(b.slots[i], t) <==> i < |seats| && seats[i] == t {
      SeatHits(b, m, seats, t, i);
    }
    var found := Find(b.slots, s => Hit(s, t));
    if found.Some? {
      assert Seated(b, m, seats[found.value], found.value);
    } else {
      assert forall i: nat | i < SLOTS :: !Hit(b.slots[i], t);
    }
  }

  /** Where a publish goes: to the triple's seat, to the next free slot, or to slot 0. */
  lemma SeatTarget(b: Bus, m: map<string, Entry>, seats: seq<Triple>, t: Triple)
    requires Seating(b, m, seats) && Plain(t)
    ensures var (i, mode) := Target(b, t);
      Seat(seats, t) == (if i < |seats| then seats[i := t] else seats + [t]) && i < SLOTS && i <= |seats| &&
      (forall j | 0 <= j < |seats| && j != i :: seats[j] != t) && (mode == Update ==> i < |seats| && seats[i] == t)
  {
    TargetFacts(b, t);
    forall i: nat | i < SLOTS ensures Hit(b.slots[i], t) <==> i < |seats| && seats[i] == t {
      SeatHits(b, m, seats, t, i);
    }
    var (i, mode) := Target(b, t);
    if mode == Update {
      assert seats[i := t] == seats;
    } else {
      forall j: nat | j < |seats| ensures seats[j] != t && b.slots[j].live {
        assert Seated(b, m, seats[j], j);
        assert !Hit(b.slots[j], t);
      }
      assert |seats| < SLOTS ==> !b.slots[|seats|].live;
    }
  }

  lemma SeatKept(b: Bus, m: map<string, Entry>, e: Entry, now: nat, t: Triple, j: nat)
    requires Layout(b) && |e.value| <= VALUE_MAX && Plain(e.at) && t != e.at
    requires j < SLOTS && j != Target(b, e.at).0 && Target(b, e.at).0 < SLOTS && Seated(b, m, t, j)
    ensures Layout(Publish(b, e, now).0) && Seated(Publish(b, e, now).0, MapPublish(m, e, now), t, j)
  {
    BusAtLayout(b, e, now, Uncommitted(Target(b, e.at).1) + 2);
    if Key(t) == Key(e.at) {
      KeyInjective(t, e.at);
    }
  }

  lemma SeatTaken(b: Bus, m: map<string, Entry>, e: Entry, now: nat)
    requires Layout(b) && |e.value| <= VALUE_MAX && Plain(e.at)
    ensures Target(b, e.at).0 < SLOTS && Layout(Publish(b, e, now).0)
    ensures Seated(Publish(b, e, now).0, MapPublish(m, e, now), e.at, Target(b, e.at).0)
  {
    var (i, mode) := Target(b, e.at);
    TargetFacts(b, e.at);
    MatchIsStored(b.slots[i], e.at);
    FinalSlot(b.slots[i], e, now, mode);
  }

  lemma SeatNext(b: Bus, m: map<string, Entry>, seats: seq<Triple>, e: Entry, now: nat)
    requires Seating(b, m, seats) && Plain(e.at) && |e.value| <= VALUE_MAX
    ensures Seating(Publish(b, e, now).0, MapPublish(m, e, now), Seat(seats, e.at))
  {
    var (i, next) := (Target(b, e.at).0, Seat(seats, e.at));
    SeatTarget(b, m, seats, e.at);
    SeatTaken(b, m, e, now);
    forall j | 0 <= j < |next| ensures Seated(Publish(b, e, now).0, MapPublish(m, e, now), next[j], j) {
      if j != i {
        assert Seated(b, m, seats[j], j);
        SeatKept(b, m, e, now, seats[j], j);
      }
    }
  }

  lemma {:induction false} RunSeats(posts: seq<Post>)
    requires PlainPosts(posts)
    ensures Seating(ShmRun(posts), MapRun(posts), Seats(posts))
  {
    if posts != [] {
      var (rest, p) := (posts[..|posts| - 1], posts[|posts| - 1]);
      RunSeats(rest);
      if |p.e.value| <= VALUE_MAX {
        SeatNext(ShmRun(rest), MapRun(rest), Seats(rest), p.e, p.now);
      }
    }
  }

  /**
   After any run the segment answers exactly the triples that have a seat, as the in-process bus does; every other one
   is missing.
   */
  lemma RunReadsExactly(posts: seq<Post>, t: Triple)
    requires PlainPosts(posts) && Plain(t)
    ensures Read(ShmRun(posts), t) == if t in Seats(posts) then Cut(MapRead(MapRun(posts), t)) else None
  {
    RunSeats(posts);
    SeatedRead(ShmRun(posts), MapRun(posts), Seats(posts), t);
  }

  // ---- listNamespace ---------------------------------------------------------------------------------------------

  predicate InNamespace(s: Slot, session: string, space: string) {
    s.live && Text(s.session) == session && Text(s.space) == space
  }

  /** The first `n` slots of one namespace by key; std::map::emplace keeps the first of two equal keys. */
  function Listed(b: Bus, session: string, space: string, n: nat): map<string, Entry>
    requires Layout(b) && n <= SLOTS
  {
    if n == 0 then map[]
    else
      var (rest, s) := (Listed(b, session, space, n - 1), b.slots[n - 1]);
      if InNamespace(s, session, space) && Text(s.key) !in rest then rest[Text(s.key) := ToEntry(s)] else rest
  }

  /** Every live slot was published under a NUL-free triple that fits. */
  ghost predicate PlainSlots(b: Bus) {
    forall i | 0 <= i < |b.slots| && b.slots[i].live :: exists t :: Plain(t) && Where(b.slots[i]) == Stored(t)
  }

  lemma PlainSlotShows(s: Slot, t: Triple, u: Triple)
    requires Sized(s) && s.live && Plain(u) && Where(s) == Stored(u) && Plain(t)
    ensures Hit(s, t) <==> Text(s.session) == t.session && Text(s.space) == t.space && Text(s.key) == t.key
  {
    MatchIsStored(s, t);
    ShortTextSurvives(SESSION_ID_MAX, u.session);
    ShortTextSurvives(NAMESPACE_MAX, u.space);
    ShortTextSurvives(KEY_MAX, u.key);
    if Hit(s, t) {
      PlainStoredInjective(t, u);
    }
  }

  lemma {:induction false} ListedMiss(b: Bus, t: Triple, n: nat)
    requires Layout(b) && PlainSlots(b) && Plain(t) && n <= SLOTS
    requires forall i | 0 <= i < n :: !Hit(b.slots[i], t)
    ensures t.key !in Listed(b, t.session, t.space, n)
  {
    if n > 0 {
      ListedMiss(b, t, n - 1);
      var s := b.slots[n - 1];
      if s.live {
        var u :| Plain(u) && Where(s) == Stored(u);
        PlainSlotShows(s, t, u);
      }
    }
  }

  lemma HitsOnce(b: Bus, t: Triple, i: nat, j: nat)
    requires Layout(b) && OnePerTriple(b.slots) && j < i < SLOTS && Hit(b.slots[i], t)
    ensures !Hit(b.slots[j], t)
  {
    MatchIsStored(b.slots[i], t);
    MatchIsStored(b.slots[j], t);
  }

  lemma {:induction false} ListedHit(b: Bus, t: Triple, n: nat, i: nat)
    requires Layout(b) && OnePerTriple(b.slots) && PlainSlots(b) && Plain(t) && i < n <= SLOTS && Hit(b.slots[i], t)
    ensures var m := Listed(b, t.session, t.space, n); t.key in m && m[t.key] == ToEntry(b.slots[i])
  {
    if i < n - 1 {
      ListedHit(b, t, n - 1, i);
    } else {
      var u :| Plain(u) && Where(b.slots[i]) == Stored(u);
      PlainSlotShows(b.slots[i], t, u);
      forall j | 0 <= j < i ensures !Hit(b.slots[j], t) {
        HitsOnce(b, t, i, j);
      }
      ListedMiss(b, t, i);
    }
  }

  /** A namespace lists a key exactly when a read of it succeeds, with the same entry. */
  lemma ListMatchesReads(b: Bus, t: Triple)
    requires Layout(b) && OnePerTriple(b.slots) && PlainSlots(b) && Plain(t)
    ensures var m := Listed(b, t.session, t.space, SLOTS);
      Read(b, t) == if t.key in m then Some(m[t.key]) else None
  {
    var i := Find(b.slots, s => Hit(s, t));
    if i.Some? {
      ListedHit(b, t, SLOTS, i.value);
    } else {
      ListedMiss(b, t, SLOTS);
    }
  }

  lemma {:induction false} RunStaysPlain(posts: seq<Post>)
    requires PlainPosts(posts)
    ensures OnePerTriple(ShmRun(posts).slots) && PlainSlots(ShmRun(posts))
  {
    if posts != [] {
      var (rest, p) := (posts[..|posts| - 1], posts[|posts| - 1]);
      RunStaysPlain(rest);
      PublishStaysPlain(ShmRun(rest), p.e, p.now);
    }
  }

  lemma PublishStaysPlain(b: Bus, e: Entry, now: nat)
    requires Layout(b) && OnePerTriple(b.slots) && PlainSlots(b) && Plain(e.at)
    ensures var b' := Publish(b, e, now).0; OnePerTriple(b'.slots) && PlainSlots(b')
  {
    if |e.value| <= VALUE_MAX {
      var (i, mode) := Target(b, e.at);
      PublishKeepsOne(b, e, now);
      TargetFacts(b, e.at);
      MatchIsStored(b.slots[i], e.at);
      FinalSlot(b.slots[i], e, now, mode);
    }
  }

  /** In every run, evictions included, listings and reads tell the same story. */
  lemma RunListsWhatItReads(posts: seq<Post>, t: Triple)
    requires PlainPosts(posts) && Plain(t)
    ensures var (b, m) := (ShmRun(posts), Listed(ShmRun(posts), t.session, t.space, SLOTS));
      Read(b, t) == if t.key in m then Some(m[t.key]) else None
  {
    RunStaysPlain(posts);
    ListMatchesReads(ShmRun(posts), t);
  }

  function MapListed(m: map<string, Entry>, session: string, space: string): map<string, Entry> {
    map k | k in m && m[k].at.session == session && m[k].at.space == space :: m[k]
  }

  /** The in-process listing agrees with its reads too, but under composite keys: never under the bare one. */
  lemma ListingsNameKeysDifferently(posts: seq<Post>, t: Triple)
    requires PlainPosts(posts) && Plain(t)
    ensures var (m, listed) := (MapRun(posts), MapListed(MapRun(posts), t.session, t.space));
      t.key !in listed && MapRead(m, t) == if Key(t) in listed then Some(listed[Key(t)]) else None
  {
    RunEntriesPlain(posts);
    var m := MapRun(posts);
    if t.key in MapListed(m, t.session, t.space) {
      KeyHasNul(m[t.key].at);
    }
    if Key(t) in m {
      KeyInjective(m[Key(t)].at, t);
    }
  }

  lemma KeyHasNul(t: Triple)
    ensures !NulFree(Key(t))
  {
    assert Key(t)[|t.session|] == NUL;
  }

  // ---- The mapped segment, written in place --------------------------------------------------------------------------

  class ShmBus {
    var slots: array<Slot>
    var entryCount: nat
    var seqNo: nat

    ghost function State(): Bus
      reads this, slots
    {
      Bus(slots[..], entryCount, seqNo)
    }

    ghost predicate Valid()
      reads this, slots
    {
      Layout(State())
    }

    constructor ()
      ensures Valid() && State() == Blank() && fresh(slots)
    {
      slots := new Slot[SLOTS](_ => ZERO);
      entryCount := 0;
      seqNo := 0;
      new;
      assert slots[..] == Blank().slots;
    }

    /** The bytes of a field up to its first NUL. */
    static method FromField(f: string) returns (s: string)
      ensures s == Text(f)
    {
      var n := 0;
      while n < |f| && f[n] != NUL
        invariant n <= |f| && Text(f) == f[..n] + Text(f[n..])
      {
        assert f[n..][1..] == f[n + 1..] && f[..n] + [f[n]] == f[..n + 1];
        n := n + 1;
      }
      s := f[..n];
    }

    static method FieldHolds(f: string, v: string) returns (same: bool)
      ensures same == FieldEq(f, v)
    {
      if |v| >= |f| {
        return false;
      }
      if f[..|v|] != v {
        return false;
      }
      for i := |v| to |f|
        invariant forall j | |v| <= j < i :: f[j] == NUL
      {
        if f[i] != NUL {
          return false;
        }
      }
      return true;
    }

    static method Matches(s: Slot, t: Triple) returns (same: bool)
      ensures same == SlotMatch(s, t)
    {
      same := FieldHolds(s.session, t.session);
      if same {
        same := FieldHolds(s.space, t.space);
      }
      if same {
        same := FieldHolds(s.key, t.key);
      }
    }

    static method SlotToEntry(s: Slot) returns (e: Entry)
      requires Sized(s)
      ensures e == ToEntry(s)
    {
      var taskId := FromField(s.taskId);
      var session := FromField(s.session);
      var space := FromField(s.space);
      var key := FromField(s.key);
      var who := FromField(s.updatedBy);
      e := Entry(taskId, Triple(session, space, key), s.value[..s.valueLen], s.promotable, who, s.timestamp);
    }

    method ReadEntry(t: Triple) returns (r: Option<Entry>)
      requires Valid()
      ensures r == Read(State(), t)
    {
      for i := 0 to slots.Length
        invariant forall j | 0 <= j < i :: !Hit(slots[j], t)
      {
        if slots[i].live {
          var same := Matches(slots[i], t);
          if same {
            var e := SlotToEntry(slots[i]);
            return Some(e);
          }
        }
      }
      return None;
    }

    /** The slot a publish writes and how it came by it. */
    method Choose(t: Triple) returns (i: nat, mode: Mode)
      requires Valid()
      ensures (i, mode) == Target(State(), t) && i < slots.Length
    {
      var free: Option<nat> := None;
      for j := 0 to slots.Length
        invariant forall k | 0 <= k < j :: !Hit(slots[k], t)
        invariant free.None? ==> forall k | 0 <= k < j :: slots[k].live
        invariant free.Some? ==> free.value < j && !slots[free.value].live && forall k | 0 <= k < free.value :: slots[k].live
      {
        if !slots[j].live {
          if free.None? {
            free := Some(j);
          }
        } else {
          var same := Matches(slots[j], t);
          if same {
            return j, Update;
          }
        }
      }
      if free.None? {
        return 0, Evict;
      }
      return free.value, Claim;
    }

    /** The segment as a crash would leave it after `k` stores of the publish of `e` into `b`. */
    ghost predicate Reached(b: Bus, e: Entry, now: nat, k: nat)
      reads this, slots
    {
      Layout(b) && |e.value| <= VALUE_MAX && slots.Length == SLOTS && State() == BusAt(b, e, now, k)
    }

    /** One store into the target slot: the next of the publish. */
    method Put(ghost b: Bus, ghost e: Entry, ghost now: nat, ghost k: nat, i: nat, s: Slot)
      requires Reached(b, e, now, k) && i == Target(b, e.at).0 && i < SLOTS
      requires s == SlotAt(b.slots[i], e, now, Target(b, e.at).1, k + 1) && (k == 4 ==> Target(b, e.at).1 == Update)
      requires k < Uncommitted(Target(b, e.at).1) + 1
      modifies slots
      ensures Reached(b, e, now, k + 1) && slots[i] == s
    {
      slots[i] := s;
    }

    /** The stores of a publish, in the order in which a crash can cut them off. */
    method PublishEntry(e: Entry, now: nat) returns (ok: bool)
      requires Valid()
      modifies this`entryCount, this`seqNo, slots
      ensures Valid() && (State(), ok) == Publish(old(State()), e, now)
    {
      if |e.value| > VALUE_MAX {
        return false;
      }
      ghost var b := State();
      var i, mode := Choose(e.at);
      assert Reached(b, e, now, 0);
      if mode != Update {
        ClaimSlot(b, i, e, now);
      }
      WriteFields(b, i, mode, e, now);
      CommitSlot(b, i, mode, e, now);
      BusAtLayout(b, e, now, Uncommitted(mode) + 2);
      ok := true;
    }

    /** Set the magic, last of all, and count the publish. */
    method CommitSlot(ghost b: Bus, i: nat, ghost mode: Mode, e: Entry, now: nat)
      requires Reached(b, e, now, Uncommitted(mode)) && (i, mode) == Target(b, e.at) && i < SLOTS
      modifies this`seqNo, slots
      ensures Reached(b, e, now, Uncommitted(mode) + 2)
    {
      Put(b, e, now, Uncommitted(mode), i, slots[i].(live := true));
      seqNo := seqNo + 1;
    }

    /** Clear the slot, write its triple, count it. */
    method ClaimSlot(ghost b: Bus, i: nat, e: Entry, now: nat)
      requires Reached(b, e, now, 0) && i == Target(b, e.at).0 && i < SLOTS && Target(b, e.at).1 != Update
      modifies this`entryCount, slots
      ensures Reached(b, e, now, 5)
    {
      Put(b, e, now, 0, i, ZERO);
      Put(b, e, now, 1, i, slots[i].(session := Pad(SESSION_ID_MAX, e.at.session)));
      Put(b, e, now, 2, i, slots[i].(space := Pad(NAMESPACE_MAX, e.at.space)));
      Put(b, e, now, 3, i, slots[i].(key := Pad(KEY_MAX, e.at.key)));
      if entryCount < SLOTS {
        entryCount := entryCount + 1;
      }
    }

    /** The fields every publish writes, still before the commit. */
    method WriteFields(ghost b: Bus, i: nat, ghost mode: Mode, e: Entry, now: nat)
      requires Reached(b, e, now, Prelude(mode)) && (i, mode) == Target(b, e.at) && i < SLOTS
      modifies slots
      ensures Reached(b, e, now, Uncommitted(mode))
    {
      ghost var n := Prelude(mode);
      Put(b, e, now, n, i, slots[i].(taskId := Pad(TASK_ID_MAX, e.taskId)));
      var who := if e.updatedBy == "" then "host" else e.updatedBy;
      Put(b, e, now, n + 1, i, slots[i].(updatedBy := Pad(WORKER_ID_MAX, who)));
      Put(b, e, now, n + 2, i, slots[i].(promotable := e.promotable));
      Put(b, e, now, n + 3, i, slots[i].(timestamp := now));
      WriteValue(b, i, mode, e, now);
    }

    method WriteValue(ghost b: Bus, i: nat, ghost mode: Mode, e: Entry, now: nat)
      requires Reached(b, e, now, Prelude(mode) + 4) && (i, mode) == Target(b, e.at) && i < SLOTS
      modifies slots
      ensures Reached(b, e, now, Uncommitted(mode))
    {
      ghost var n := Prelude(mode);
      Put(b, e, now, n + 4, i, slots[i].(valueLen := |e.value|));
      Put(b, e, now, n + 5, i, slots[i].(value := e.value + slots[i].value[|e.value|..]));
    }

    method ListEntries(session: string, space: string) returns (out: map<string, Entry>)
      requires Valid()
      ensures out == Listed(State(), session, space, SLOTS)
    {
      out := map[];
      for i := 0 to slots.Length
        invariant out == Listed(State(), session, space, i)
      {
        if slots[i].live {
          var e := SlotToEntry(slots[i]);
          if e.at.session == session && e.at.space == space && e.at.key !in out {
            out := out[e.at.key := e];
          }
        }
      }
    }
  }
}
