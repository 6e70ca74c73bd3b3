/**
 The locks each operation of the plugin takes, and in which order (plugin/src/tools.ts, plugin/src/scheduler.ts): every
 interleaving of such operations follows the nesting order that PromiseLock needs, so none of them can deadlock.
 */
module LockScripts {
  import opened PromiseLock
  import opened Wrappers

  datatype Action = Take(key: LockKey) | Release

  /** Waking one member: the number of team sections made inside its queue. */
  datatype Kick = Kick(member: string, sections: nat)

  datatype Operation =
    | CreateTeam(captain: string, team: string)
    | AddMember(root: string, team: string, orphaned: bool, kicks: seq<Kick>)
    | RemoveMember(root: string, team: string, retires: bool, kicks: seq<Kick>)
    | DeleteTeam(root: string, team: string, retires: bool, sections: nat)
    | TaskTool(team: string, sections: nat, kicks: seq<Kick>) // create, reassign, claim, update, message, status edge
    | StatusTool(team: string, kicks: seq<Kick>, sections: nat)

  /** A section under `key`; what it does inside is `body`. */
  function Under(key: LockKey, body: seq<Action>): seq<Action> { [Take(key)] + body + [Release] }

  function Sections(team: string, n: nat): seq<Action> {
    if n == 0 then [] else Sections(team, n - 1) + Under(TeamLock(team), [])
  }

  function Kicks(team: string, kicks: seq<Kick>): seq<Action> {
    if kicks == [] then []
    else
      var last := kicks[|kicks| - 1];
      Kicks(team, kicks[..|kicks| - 1]) + Under(MemberQueue(team, last.member), Sections(team, last.sections))
  }

  function Retiring(root: string, retires: bool): seq<Action> { if retires then Under(RetiredIndex(root), []) else [] }

  function Script(op: Operation): seq<Action> {
    match op
    case CreateTeam(captain, team) => Under(CaptainLock(captain), Under(TeamLock(team), []))
    case AddMember(root, team, orphaned, kicks) => Under(TeamLock(team), Retiring(root, orphaned)) + Kicks(team, kicks)
    case RemoveMember(root, team, retires, kicks) =>
      Under(TeamLock(team), []) + Retiring(root, retires) + Kicks(team, kicks)
    case DeleteTeam(root, team, retires, sections) =>
      Under(TeamLock(team), []) + Retiring(root, retires) + Sections(team, sections)
    case TaskTool(team, sections, kicks) => Sections(team, sections) + Kicks(team, kicks)
    case StatusTool(team, kicks, sections) => Kicks(team, kicks) + Sections(team, sections)
  }

  /** `script` leads from the locks `held`, outermost first, to those in `after`, and only ever nests upwards. */
  ghost predicate Ordered(held: seq<LockKey>, script: seq<Action>, after: seq<LockKey>)
    decreases |script|
  {
    if script == [] then held == after
    else match script[0]
      case Take(key) => Above(held, key) && Ordered(held + [key], script[1..], after)
      case Release => held != [] && Ordered(held[..|held| - 1], script[1..], after)
  }

  predicate Above(held: seq<LockKey>, key: LockKey) {
    held == [] || held[|held| - 1].Level() < key.Level()
  }

  lemma {:induction false} OrderedConcat(h: seq<LockKey>, a: seq<Action>, h1: seq<LockKey>, b: seq<Action>, h2: seq<LockKey>)
    requires Ordered(h, a, h1) && Ordered(h1, b, h2)
    ensures Ordered(h, a + b, h2)
    decreases |a|
  {
    if a == [] {
      assert a + b == b;
    } else {
      assert (a + b)[1..] == a[1..] + b;
      match a[0]
      case Take(key) => OrderedConcat(h + [key], a[1..], h1, b, h2);
      case Release => OrderedConcat(h[..|h| - 1], a[1..], h1, b, h2);
    }
  }

  lemma UnderIsOrdered(h: seq<LockKey>, key: LockKey, body: seq<Action>)
    requires Above(h, key) && Ordered(h + [key], body, h + [key])
    ensures Ordered(h, Under(key, body), h)
  {
    var inner := h + [key];
    assert Ordered(inner, [Release], h) by {
      assert inner[..|inner| - 1] == h;
    }
    OrderedConcat(inner, body, inner, [Release], h);
    assert Under(key, body)[1..] == body + [Release];
  }

  lemma PlainSection(h: seq<LockKey>, key: LockKey)
    requires Above(h, key)
    ensures Ordered(h, Under(key, []), h)
  {
    UnderIsOrdered(h, key, []);
  }

  lemma {:induction false} SectionsAreOrdered(h: seq<LockKey>, team: string, n: nat)
    requires Above(h, TeamLock(team))
    ensures Ordered(h, Sections(team, n), h)
  {
    if n > 0 {
      SectionsAreOrdered(h, team, n - 1);
      PlainSection(h, TeamLock(team));
      OrderedConcat(h, Sections(team, n - 1), h, Under(TeamLock(team), []), h);
    }
  }

  lemma {:induction false} KicksAreOrdered(team: string, kicks: seq<Kick>)
    ensures Ordered([], Kicks(team, kicks), [])
  {
    if kicks != [] {
      var (front, last) := (kicks[..|kicks| - 1], kicks[|kicks| - 1]);
      KicksAreOrdered(team, front);
      SectionsAreOrdered([MemberQueue(team, last.member)], team, last.sections);
      assert [] + [MemberQueue(team, last.member)] == [MemberQueue(team, last.member)];
      UnderIsOrdered([], MemberQueue(team, last.member), Sections(team, last.sections));
      OrderedConcat([], Kicks(team, front), [], Under(MemberQueue(team, last.member), Sections(team, last.sections)), []);
    }
  }

  lemma RetiringIsOrdered(h: seq<LockKey>, root: string, retires: bool)
    requires Above(h, RetiredIndex(root))
    ensures Ordered(h, Retiring(root, retires), h)
  {
    UnderIsOrdered(h, RetiredIndex(root), []);
  }

  /** Every operation nests its locks upwards and gives all of them back. */
  lemma ScriptsAreOrdered(op: Operation)
    ensures Ordered([], Script(op), [])
  {
    match op
    case CreateTeam(captain, team) =>
      assert [] + [CaptainLock(captain)] == [CaptainLock(captain)];
      UnderIsOrdered([CaptainLock(captain)], TeamLock(team), []);
      UnderIsOrdered([], CaptainLock(captain), Under(TeamLock(team), []));
    case AddMember(root, team, orphaned, kicks) =>
      assert [] + [TeamLock(team)] == [TeamLock(team)];
      RetiringIsOrdered([TeamLock(team)], root, orphaned);
      UnderIsOrdered([], TeamLock(team), Retiring(root, orphaned));
      KicksAreOrdered(team, kicks);
      OrderedConcat([], Under(TeamLock(team), Retiring(root, orphaned)), [], Kicks(team, kicks), []);
    case RemoveMember(root, team, retires, kicks) =>
      TeamThenRetiring(root, team, retires);
      KicksAreOrdered(team, kicks);
      OrderedConcat([], Under(TeamLock(team), []) + Retiring(root, retires), [], Kicks(team, kicks), []);
    case DeleteTeam(root, team, retires, sections) =>
      TeamThenRetiring(root, team, retires);
      SectionsAreOrdered([], team, sections);
      OrderedConcat([], Under(TeamLock(team), []) + Retiring(root, retires), [], Sections(team, sections), []);
    case TaskTool(team, sections, kicks) =>
      SectionsAreOrdered([], team, sections);
      KicksAreOrdered(team, kicks);
      OrderedConcat([], Sections(team, sections), [], Kicks(team, kicks), []);
    case StatusTool(team, kicks, sections) =>
      KicksAreOrdered(team, kicks);
      SectionsAreOrdered([], team, sections);
      OrderedConcat([], Kicks(team, kicks), [], Sections(team, sections), []);
  }

  lemma TeamThenRetiring(root: string, team: string, retires: bool)
    ensures Ordered([], Under(TeamLock(team), []) + Retiring(root, retires), [])
  {
    UnderIsOrdered([], TeamLock(team), []);
    RetiringIsOrdered([], root, retires);
    OrderedConcat([], Under(TeamLock(team), []), [], Retiring(root, retires), []);
  }

  // ---- Operations, interleaved ------------------------------------------------------------------------

  /** An operation on its way: what it still does, and its open calls, outermost first. */
  datatype Process = Process(rest: seq<Action>, calls: seq<nat>)

  datatype System = System(locks: Locks, running: map<Caller, Process>)

  datatype Turn = Starts(caller: Caller, op: Operation) | Moves(caller: Caller)

  /** The next lock event of an operation, unless it has to wait or is through. */
  function NextEvent(sys: System, caller: Caller): Option<Event> {
    if caller !in sys.running then None
    else
      var (p, s) := (sys.running[caller], sys.locks);
      var innermost := if p.calls == [] then |s.calls| else p.calls[|p.calls| - 1];
      if innermost < |s.calls| && s.calls[innermost].phase == Waiting then
        if CanBegin(s, innermost) then Some(Begins(innermost)) else None
      else if p.rest == [] then None
      else match p.rest[0]
        case Take(key) => Some(Arrives(caller, key))
        case Release => if p.calls == [] then None else Some(Finishes(innermost))
  }

  function After(sys: System, p: Process, ev: Event): Process {
    match ev
    case Arrives(_, _) => Process(if p.rest == [] then [] else p.rest[1..], p.calls + [|sys.locks.calls|])
    case Begins(_) => p
    case Finishes(_) =>
      Process(if p.rest == [] then [] else p.rest[1..], if p.calls == [] then [] else p.calls[..|p.calls| - 1])
  }

  function TakeTurn(sys: System, turn: Turn): System {
    match turn
    case Starts(caller, op) =>
      if caller in sys.running then sys else sys.(running := sys.running[caller := Process(Script(op), [])])
    case Moves(caller) =>
      match NextEvent(sys, caller)
      case None => sys
      case Some(ev) =>
        System(Step(sys.locks, ev), sys.running[caller := After(sys, sys.running[caller], ev)])
  }

  function SystemRun(turns: seq<Turn>): System {
    if turns == [] then System(Locks([], map[]), map[]) else TakeTurn(SystemRun(turns[..|turns| - 1]), turns[|turns| - 1])
  }

  function Keys(s: Locks, calls: seq<nat>): seq<LockKey>
    requires forall a | 0 <= a < |calls| :: calls[a] < |s.calls|
  {
    seq(|calls|, a requires 0 <= a < |calls| => s.calls[calls[a]].key)
  }

  /** The open calls of `caller` are exactly these, in order, and all but the innermost are running. */
  ghost predicate Listed(s: Locks, caller: Caller, calls: seq<nat>) {
    && (forall a | 0 <= a < |calls| ::
          calls[a] < |s.calls| && s.calls[calls[a]].caller == caller && s.calls[calls[a]].phase != Over)
    && (forall a, b | 0 <= a < b < |calls| :: calls[a] < calls[b] && s.calls[calls[a]].phase == Inside)
    && (forall i | 0 <= i < |s.calls| && s.calls[i].caller == caller && s.calls[i].phase != Over :: i in calls)
  }

  ghost predicate ProcessOk(s: Locks, caller: Caller, p: Process) {
    Listed(s, caller, p.calls) && Ordered(Keys(s, p.calls), p.rest, [])
  }

  ghost predicate SystemOk(sys: System) {
    && Inv(sys.locks) && Nested(sys.locks)
    && (forall c | c in sys.running :: ProcessOk(sys.locks, c, sys.running[c]))
    && (forall i | 0 <= i < |sys.locks.calls| :: sys.locks.calls[i].caller in sys.running)
  }

  /** The locks a caller holds have rising levels, so the innermost is the highest. */
  lemma InnermostIsHighest(s: Locks, caller: Caller, p: Process, i: nat)
    requires Nested(s) && ProcessOk(s, caller, p) && p.calls != []
    requires i < |s.calls| && s.calls[i].caller == caller && s.calls[i].phase != Over && i != p.calls[|p.calls| - 1]
    ensures i < p.calls[|p.calls| - 1] && s.calls[i].phase == Inside
    ensures s.calls[i].key.Level() < s.calls[p.calls[|p.calls| - 1]].key.Level()
  {
    var a :| 0 <= a < |p.calls| && p.calls[a] == i;
  }

  lemma ArrivesDisciplined(s: Locks, caller: Caller, p: Process, key: LockKey)
    requires Nested(s) && ProcessOk(s, caller, p) && p.rest != [] && p.rest[0] == Take(key)
    requires p.calls != [] ==> s.calls[p.calls[|p.calls| - 1]].phase != Waiting
    ensures MayNest(s, caller, key)
  {
    forall i | 0 <= i < |s.calls| && s.calls[i].caller == caller && s.calls[i].phase != Over
      ensures s.calls[i].phase == Inside && s.calls[i].key.Level() < key.Level()
    {
      var last := p.calls[|p.calls| - 1];
      assert Keys(s, p.calls)[|p.calls| - 1] == s.calls[last].key;
      if i != last {
        InnermostIsHighest(s, caller, p, i);
      }
    }
  }

  lemma FinishesDisciplined(s: Locks, caller: Caller, p: Process, i: nat)
    requires Nested(s) && ProcessOk(s, caller, p) && p.calls != [] && i == p.calls[|p.calls| - 1]
    requires s.calls[i].phase == Inside
    ensures MayFinish(s, i)
  {
    forall j | 0 <= j < |s.calls| && j != i && s.calls[j].caller == caller && s.calls[j].phase != Over
      ensures s.calls[j].key.Level() < s.calls[i].key.Level()
    {
      InnermostIsHighest(s, caller, p, j);
    }
  }

  /** Whatever an operation does next keeps to the nesting order. */
  lemma NextIsDisciplined(sys: System, caller: Caller)
    requires SystemOk(sys) && NextEvent(sys, caller).Some?
    ensures Disciplined(sys.locks, NextEvent(sys, caller).value)
  {
    var (p, s) := (sys.running[caller], sys.locks);
    assert ProcessOk(s, caller, p);
    match NextEvent(sys, caller).value
    case Arrives(_, key) => ArrivesDisciplined(s, caller, p, key);
    case Begins(i) =>
    case Finishes(i) => FinishesDisciplined(s, caller, p, i);
  }

  lemma ArrivedListed(s: Locks, caller: Caller, calls: seq<nat>, key: LockKey)
    requires Listed(s, caller, calls) && forall a | 0 <= a < |calls| :: s.calls[calls[a]].phase == Inside
    ensures Listed(Arrive(s, caller, key), caller, calls + [|s.calls|])
  {
    var (s', calls') := (Arrive(s, caller, key), calls + [|s.calls|]);
    forall i | 0 <= i < |s'.calls| && s'.calls[i].caller == caller && s'.calls[i].phase != Over ensures i in calls' {
      assert i < |s.calls| ==> i in calls;
    }
  }

  lemma ArrivedProcess(s: Locks, caller: Caller, p: Process, key: LockKey)
    requires ProcessOk(s, caller, p) && p.rest != [] && p.rest[0] == Take(key)
    requires forall a | 0 <= a < |p.calls| :: s.calls[p.calls[a]].phase == Inside
    ensures ProcessOk(Arrive(s, caller, key), caller, Process(p.rest[1..], p.calls + [|s.calls|]))
  {
    ArrivedListed(s, caller, p.calls, key);
    assert Keys(Arrive(s, caller, key), p.calls + [|s.calls|]) == Keys(s, p.calls) + [key];
  }

  lemma BegunProcess(s: Locks, caller: Caller, p: Process, i: nat)
    requires ProcessOk(s, caller, p) && CanBegin(s, i) && p.calls != [] && i == p.calls[|p.calls| - 1]
    ensures ProcessOk(Begin(s, i), caller, p)
  {
    assert Keys(Begin(s, i), p.calls) == Keys(s, p.calls);
  }

  lemma FinishedListed(s: Locks, caller: Caller, calls: seq<nat>, i: nat)
    requires Listed(s, caller, calls) && calls != [] && i == calls[|calls| - 1] && s.calls[i].phase == Inside
    ensures Listed(Finish(s, i), caller, calls[..|calls| - 1])
  {
    var (s', open) := (Finish(s, i), calls[..|calls| - 1]);
    forall j | 0 <= j < |s'.calls| && s'.calls[j].caller == caller && s'.calls[j].phase != Over ensures j in open {
      var a :| 0 <= a < |calls| && calls[a] == j;
      assert open[a] == j;
    }
  }

  lemma FinishedProcess(s: Locks, caller: Caller, p: Process, i: nat)
    requires ProcessOk(s, caller, p) && p.calls != [] && i == p.calls[|p.calls| - 1]
    requires s.calls[i].phase == Inside && p.rest != [] && p.rest[0] == Release
    ensures ProcessOk(Finish(s, i), caller, Process(p.rest[1..], p.calls[..|p.calls| - 1]))
  {
    FinishedListed(s, caller, p.calls, i);
    assert Keys(Finish(s, i), p.calls[..|p.calls| - 1]) == Keys(s, p.calls)[..|p.calls| - 1];
  }

  lemma AllInside(s: Locks, caller: Caller, calls: seq<nat>)
    requires Listed(s, caller, calls) && (calls != [] ==> s.calls[calls[|calls| - 1]].phase != Waiting)
    ensures forall a | 0 <= a < |calls| :: s.calls[calls[a]].phase == Inside
  {
  }

  lemma OwnProcess(sys: System, caller: Caller)
    requires SystemOk(sys) && NextEvent(sys, caller).Some?
    ensures var ev := NextEvent(sys, caller).value;
      ProcessOk(Step(sys.locks, ev), caller, After(sys, sys.running[caller], ev))
  {
    var (p, s) := (sys.running[caller], sys.locks);
    assert ProcessOk(s, caller, p);
    match NextEvent(sys, caller).value
    case Arrives(_, key) =>
      AllInside(s, caller, p.calls);
      ArrivedProcess(s, caller, p, key);
    case Begins(i) => BegunProcess(s, caller, p, i);
    case Finishes(i) => FinishedProcess(s, caller, p, i);
  }

  /** Only calls of `caller` differ, or are new. */
  ghost predicate OnlyOf(s: Locks, s': Locks, caller: Caller) {
    |s.calls| <= |s'.calls| &&
    (forall i | 0 <= i < |s.calls| && s.calls[i].caller != caller :: s'.calls[i] == s.calls[i]) &&
    (forall i | 0 <= i < |s'.calls| && s'.calls[i].caller != caller :: i < |s.calls| && s.calls[i].caller != caller)
  }

  lemma OthersKeep(s: Locks, s': Locks, caller: Caller, other: Caller, p: Process)
    requires OnlyOf(s, s', caller) && other != caller && ProcessOk(s, other, p)
    ensures ProcessOk(s', other, p)
  {
    forall a | 0 <= a < |p.calls| ensures s'.calls[p.calls[a]] == s.calls[p.calls[a]] {
      assert s.calls[p.calls[a]].caller == other;
    }
    forall i | 0 <= i < |s'.calls| && s'.calls[i].caller == other && s'.calls[i].phase != Over ensures i in p.calls {
      assert i < |s.calls| && s.calls[i].caller != caller && s'.calls[i] == s.calls[i];
    }
    assert Keys(s', p.calls) == Keys(s, p.calls);
  }

  lemma OtherProcess(sys: System, caller: Caller, other: Caller)
    requires SystemOk(sys) && NextEvent(sys, caller).Some? && other in sys.running && other != caller
    ensures ProcessOk(Step(sys.locks, NextEvent(sys, caller).value), other, sys.running[other])
  {
    var (s, ev) := (sys.locks, NextEvent(sys, caller).value);
    assert ProcessOk(s, caller, sys.running[caller]);
    OthersKeep(s, Step(s, ev), caller, other, sys.running[other]);
  }

  lemma TurnKeeps(sys: System, turn: Turn)
    requires SystemOk(sys)
    ensures SystemOk(TakeTurn(sys, turn))
  {
    match turn
    case Starts(caller, op) =>
      ScriptsAreOrdered(op);
    case Moves(caller) =>
      var next := NextEvent(sys, caller);
      if next.Some? {
        NextIsDisciplined(sys, caller);
        StepKeeps(sys.locks, next.value);
        StepNested(sys.locks, next.value);
        OwnProcess(sys, caller);
        forall c | c in sys.running && c != caller
          ensures ProcessOk(Step(sys.locks, next.value), c, sys.running[c])
        {
          OtherProcess(sys, caller, c);
        }
      }
  }

  lemma {:induction false} SystemKeeps(turns: seq<Turn>)
    ensures SystemOk(SystemRun(turns))
  {
    if turns != [] {
      SystemKeeps(turns[..|turns| - 1]);
      TurnKeeps(SystemRun(turns[..|turns| - 1]), turns[|turns| - 1]);
    }
  }

  predicate Unfinished(sys: System, caller: Caller) {
    caller in sys.running && sys.running[caller] != Process([], [])
  }

  /** No deadlock, whatever operations run and however they interleave: while any of them is unfinished, one can move. */
  lemma OperationsNeverDeadlock(turns: seq<Turn>, caller: Caller) returns (mover: Caller)
    requires Unfinished(SystemRun(turns), caller)
    ensures NextEvent(SystemRun(turns), mover).Some?
  {
    var sys := SystemRun(turns);
    SystemKeeps(turns);
    var p := sys.running[caller];
    assert ProcessOk(sys.locks, caller, p);
    if p.calls == [] {
      mover := caller;
    } else {
      var k := SomebodyCanMove(sys.locks, p.calls[0]);
      mover := sys.locks.calls[k].caller;
      MoverMoves(sys, k);
    }
  }

  /** A call that may go on is the innermost one of its caller. */
  lemma MoverIsInnermost(s: Locks, caller: Caller, p: Process, k: nat)
    requires Nested(s) && ProcessOk(s, caller, p) && k < |s.calls| && s.calls[k].caller == caller
    requires CanBegin(s, k) || MayFinish(s, k)
    ensures p.calls != [] && k == p.calls[|p.calls| - 1]
  {
    assert k in p.calls;
    if k != p.calls[|p.calls| - 1] {
      InnermostIsHighest(s, caller, p, k);
    }
  }

  lemma MoverMoves(sys: System, k: nat)
    requires SystemOk(sys) && (CanBegin(sys.locks, k) || MayFinish(sys.locks, k))
    ensures NextEvent(sys, sys.locks.calls[k].caller).Some?
  {
    var s := sys.locks;
    var caller := s.calls[k].caller;
    var p := sys.running[caller];
    assert ProcessOk(s, caller, p);
    MoverIsInnermost(s, caller, p, k);
    if s.calls[k].phase != Waiting {
      SomethingLeft(Keys(s, p.calls), p.rest);
    }
  }

  lemma SomethingLeft(held: seq<LockKey>, rest: seq<Action>)
    requires held != [] && Ordered(held, rest, [])
    ensures rest != []
  {
  }
}
