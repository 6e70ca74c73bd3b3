/**
 The promise-chain queues of withTeamLock (plugin/src/state.ts) and serializeMember
 (plugin/src/scheduler.ts). A call chains its own tail promise behind the one it found in the
 table; the tail settles when the predecessor's tail has settled and the call itself is over.
 Member queues also drop their table entry when nobody has queued up behind it.
 */
module PromiseLock {
  import opened Wrappers

  type Caller = nat

  datatype LockKey =
    | MemberQueue(team: string, member: string)
    | CaptainLock(captain: string)
    | TeamLock(team: string)
    | RetiredIndex(root: string)
  {
    /** The order in which one operation may nest these locks. */
    function Level(): nat {
      match this
      case MemberQueue(_, _) => 0
      case CaptainLock(_) => 1
      case TeamLock(_) => 2
      case RetiredIndex(_) => 3
    }

    /** serializeMember deletes its table entry, withTeamLock keeps it. */
    predicate Forgets() { MemberQueue? }
  }

  datatype Phase = Waiting | Inside | Over

  /** One call, with the call whose tail promise it awaits (none: an already resolved promise). */
  datatype Call = Call(caller: Caller, key: LockKey, previous: Option<nat>, phase: Phase)

  datatype Locks = Locks(calls: seq<Call>, tails: map<LockKey, nat>)

  /** The tail promise of call `i` has settled. */
  predicate Settled(calls: seq<Call>, i: nat)
    decreases i
  {
    i < |calls| && calls[i].phase == Over &&
    (calls[i].previous.None? || (calls[i].previous.value < i && Settled(calls, calls[i].previous.value)))
  }

  predicate CanBegin(s: Locks, i: nat) {
    i < |s.calls| && s.calls[i].phase == Waiting &&
    (s.calls[i].previous.None? || Settled(s.calls, s.calls[i].previous.value))
  }

  function Arrive(s: Locks, caller: Caller, key: LockKey): Locks {
    var previous := if key in s.tails then Some(s.tails[key]) else None;
    Locks(s.calls + [Call(caller, key, previous, Waiting)], s.tails[key := |s.calls|])
  }

  function Begin(s: Locks, i: nat): Locks {
    if CanBegin(s, i) then s.(calls := s.calls[i := s.calls[i].(phase := Inside)]) else s
  }

  function Finish(s: Locks, i: nat): Locks {
    if i < |s.calls| && s.calls[i].phase == Inside then
      var key := s.calls[i].key;
      Locks(s.calls[i := s.calls[i].(phase := Over)],
            if key.Forgets() && key in s.tails && s.tails[key] == i then s.tails - {key} else s.tails)
    else s
  }

  datatype Event = Arrives(caller: Caller, key: LockKey) | Begins(i: nat) | Finishes(i: nat)

  function Step(s: Locks, ev: Event): Locks {
    match ev
    case Arrives(caller, key) => Arrive(s, caller, key)
    case Begins(i) => Begin(s, i)
    case Finishes(i) => Finish(s, i)
  }

  function Run(evs: seq<Event>): Locks {
    if evs == [] then Locks([], map[]) else Step(Run(evs[..|evs| - 1]), evs[|evs| - 1])
  }

  /** Every call before `n` for the same lock is over. */
  ghost predicate AllOver(calls: seq<Call>, key: LockKey, n: nat)
    requires n <= |calls|
  {
    forall j | 0 <= j < n && calls[j].key == key :: calls[j].phase == Over
  }

  /** Call `j` is the last one before `n` for this lock. */
  ghost predicate LastBefore(calls: seq<Call>, key: LockKey, n: nat, j: nat)
    requires n <= |calls|
  {
    j < n && calls[j].key == key && forall k | j < k < n :: calls[k].key != key
  }

  /** A call waits for the last earlier call for its lock, or for nobody because all of them are over. */
  ghost predicate ChainOk(calls: seq<Call>, i: nat)
    requires i < |calls|
  {
    && (calls[i].previous.None? ==> AllOver(calls, calls[i].key, i))
    && (calls[i].previous.Some? ==> LastBefore(calls, calls[i].key, i, calls[i].previous.value))
    && (calls[i].phase != Waiting ==> AllOver(calls, calls[i].key, i))
  }

  ghost predicate TailOk(s: Locks, key: LockKey) {
    if key in s.tails then LastBefore(s.calls, key, |s.calls|, s.tails[key]) else AllOver(s.calls, key, |s.calls|)
  }

  ghost predicate Inv(s: Locks) {
    && (forall i | 0 <= i < |s.calls| :: ChainOk(s.calls, i))
    && (forall key :: TailOk(s, key))
  }

  /** A tail promise settles exactly when its call and all earlier calls for the lock are over. */
  lemma {:induction false} SettledMeaning(s: Locks, i: nat)
    requires Inv(s) && i < |s.calls|
    ensures Settled(s.calls, i) <==> s.calls[i].phase == Over
    ensures Settled(s.calls, i) ==> AllOver(s.calls, s.calls[i].key, i + 1)
    decreases i
  {
    assert ChainOk(s.calls, i);
    if s.calls[i].previous.Some? {
      SettledMeaning(s, s.calls[i].previous.value);
    }
  }

  /** First come, first served: a waiting call may begin exactly when every earlier one is over. */
  lemma BeginsInTurn(s: Locks, i: nat)
    requires Inv(s) && i < |s.calls| && s.calls[i].phase == Waiting
    ensures CanBegin(s, i) <==> AllOver(s.calls, s.calls[i].key, i)
  {
    assert ChainOk(s.calls, i);
    if s.calls[i].previous.Some? {
      SettledMeaning(s, s.calls[i].previous.value);
    }
  }

  lemma ArriveKeeps(s: Locks, caller: Caller, key: LockKey)
    requires Inv(s)
    ensures Inv(Arrive(s, caller, key))
  {
    var s' := Arrive(s, caller, key);
    forall i | 0 <= i < |s'.calls|
      ensures ChainOk(s'.calls, i)
    {
      assert TailOk(s, key);
      if i < |s.calls| {
        assert ChainOk(s.calls, i);
      }
    }
    forall k
      ensures TailOk(s', k)
    {
      assert TailOk(s, k);
    }
  }

  /** Moving one call forward keeps the chains, as long as it only begins in turn. */
  lemma ChainsKept(s: Locks, i: nat, phase: Phase)
    requires Inv(s) && i < |s.calls| && AllOver(s.calls, s.calls[i].key, i)
    requires s.calls[i].phase == Over ==> phase == Over
    ensures var calls := s.calls[i := s.calls[i].(phase := phase)];
            forall j | 0 <= j < |calls| :: ChainOk(calls, j)
  {
    var calls := s.calls[i := s.calls[i].(phase := phase)];
    forall j | 0 <= j < |calls|
      ensures ChainOk(calls, j)
    {
      assert ChainOk(s.calls, j);
    }
  }

  lemma BeginKeeps(s: Locks, i: nat)
    requires Inv(s)
    ensures Inv(Begin(s, i))
  {
    if CanBegin(s, i) {
      BeginsInTurn(s, i);
      ChainsKept(s, i, Inside);
      forall key
        ensures TailOk(Begin(s, i), key)
      {
        assert TailOk(s, key);
      }
    }
  }

  lemma FinishKeeps(s: Locks, i: nat)
    requires Inv(s)
    ensures Inv(Finish(s, i))
  {
    if i < |s.calls| && s.calls[i].phase == Inside {
      assert ChainOk(s.calls, i);
      ChainsKept(s, i, Over);
      forall key
        ensures TailOk(Finish(s, i), key)
      {
        assert TailOk(s, key);
      }
    }
  }

  lemma StepKeeps(s: Locks, ev: Event)
    requires Inv(s)
    ensures Inv(Step(s, ev))
  {
    match ev
    case Arrives(caller, key) => ArriveKeeps(s, caller, key);
    case Begins(i) => BeginKeeps(s, i);
    case Finishes(i) => FinishKeeps(s, i);
  }

  lemma {:induction false} RunKeeps(evs: seq<Event>)
    ensures Inv(Run(evs))
  {
    if evs != [] {
      RunKeeps(evs[..|evs| - 1]);
      StepKeeps(Run(evs[..|evs| - 1]), evs[|evs| - 1]);
    }
  }

  /** Mutual exclusion and FIFO order per lock, for any number of callers and any interleaving. */
  lemma ExclusiveAndInOrder(evs: seq<Event>, i: nat, j: nat)
    requires i < j < |Run(evs).calls| && Run(evs).calls[i].key == Run(evs).calls[j].key
    ensures Run(evs).calls[j].phase != Waiting ==> Run(evs).calls[i].phase == Over
    ensures Run(evs).calls[j].phase == Waiting ==>
              (CanBegin(Run(evs), j) <==> AllOver(Run(evs).calls, Run(evs).calls[j].key, j))
  {
    RunKeeps(evs);
    assert ChainOk(Run(evs).calls, j);
    if Run(evs).calls[j].phase == Waiting {
      BeginsInTurn(Run(evs), j);
    }
  }

  // ---- What the tables remember --------------------------------------------------------------------

  ghost predicate EverCalled(s: Locks, key: LockKey) { exists j | 0 <= j < |s.calls| :: s.calls[j].key == key }

  /** Somebody waits for this lock or is inside it. */
  ghost predicate InUse(s: Locks, key: LockKey) {
    exists j | 0 <= j < |s.calls| :: s.calls[j].key == key && s.calls[j].phase != Over
  }

  /** An entry is the last call for its lock; in a member queue that call is not over. */
  ghost predicate EntryOk(s: Locks, key: LockKey) {
    if key in s.tails then
      s.tails[key] < |s.calls| && s.calls[s.tails[key]].key == key &&
      (key.MemberQueue? ==> s.calls[s.tails[key]].phase != Over)
    else if key.MemberQueue? then !InUse(s, key)
    else !EverCalled(s, key)
  }

  lemma ArriveRemembers(s: Locks, caller: Caller, lock: LockKey, key: LockKey)
    requires EntryOk(s, key)
    ensures EntryOk(Arrive(s, caller, lock), key)
  {
  }

  lemma FinishRemembers(s: Locks, i: nat, key: LockKey)
    requires Inv(s) && EntryOk(s, key)
    ensures EntryOk(Finish(s, i), key)
  {
    if i < |s.calls| && s.calls[i].phase == Inside && key in s.tails && s.tails[key] == i && key.MemberQueue? {
      assert ChainOk(s.calls, i) && TailOk(s, key);
    }
  }

  lemma {:induction false} RunRemembers(evs: seq<Event>, key: LockKey)
    ensures EntryOk(Run(evs), key)
  {
    if evs != [] {
      var (s, ev) := (Run(evs[..|evs| - 1]), evs[|evs| - 1]);
      RunRemembers(evs[..|evs| - 1], key);
      RunKeeps(evs[..|evs| - 1]);
      match ev
      case Arrives(caller, lock) => ArriveRemembers(s, caller, lock, key);
      case Begins(i) =>
      case Finishes(i) => FinishRemembers(s, i, key);
    }
  }

  /** After any interleaving a member queue has an entry exactly while in use, another lock once it was ever called. */
  lemma EntriesExactly(evs: seq<Event>, key: LockKey)
    ensures key in Run(evs).tails <==> if key.MemberQueue? then InUse(Run(evs), key) else EverCalled(Run(evs), key)
  {
    RunRemembers(evs, key);
  }

  // ---- Nesting ------------------------------------------------------------------------------------

  /** Operations nest locks in level order: nothing of this caller is open at this level or above, or still waiting. */
  ghost predicate MayNest(s: Locks, caller: Caller, key: LockKey) {
    forall i | 0 <= i < |s.calls| && s.calls[i].caller == caller && s.calls[i].phase != Over ::
      s.calls[i].phase == Inside && s.calls[i].key.Level() < key.Level()
  }

  /** The call is running and its caller is not busy with an inner lock. */
  ghost predicate MayFinish(s: Locks, i: nat) {
    && i < |s.calls| && s.calls[i].phase == Inside
    && forall j | 0 <= j < |s.calls| && j != i && s.calls[j].caller == s.calls[i].caller && s.calls[j].phase != Over ::
         s.calls[j].key.Level() < s.calls[i].key.Level()
  }

  ghost predicate Disciplined(s: Locks, ev: Event) {
    match ev
    case Arrives(caller, key) => MayNest(s, caller, key)
    case Begins(i) => CanBegin(s, i)
    case Finishes(i) => MayFinish(s, i)
  }

  /** Two open calls of one caller: the earlier is running, at a lower level. */
  ghost predicate Nested(s: Locks) {
    forall i, j | 0 <= i < j < |s.calls| && s.calls[i].caller == s.calls[j].caller
                  && s.calls[i].phase != Over && s.calls[j].phase != Over ::
      s.calls[i].phase == Inside && s.calls[i].key.Level() < s.calls[j].key.Level()
  }

  lemma StepNested(s: Locks, ev: Event)
    requires Nested(s) && Disciplined(s, ev)
    ensures Nested(Step(s, ev))
  {
  }

  /** From any open call the chain of what it waits for ends at a call that can take its next step. */
  lemma {:induction false} SomebodyCanMove(s: Locks, i: nat) returns (k: nat)
    requires Inv(s) && Nested(s) && i < |s.calls| && s.calls[i].phase != Over
    ensures CanBegin(s, k) || MayFinish(s, k)
    decreases 3 - s.calls[i].key.Level(), i
  {
    if CanBegin(s, i) || MayFinish(s, i) {
      k := i;
    } else if s.calls[i].phase == Waiting {
      BeginsInTurn(s, i);
      var j :| 0 <= j < i && s.calls[j].key == s.calls[i].key && s.calls[j].phase != Over;
      k := SomebodyCanMove(s, j);
    } else {
      var j :| 0 <= j < |s.calls| && j != i && s.calls[j].caller == s.calls[i].caller && s.calls[j].phase != Over
               && s.calls[j].key.Level() >= s.calls[i].key.Level();
      k := SomebodyCanMove(s, j);
    }
  }

  // ---- The tables -----------------------------------------------------------------------------------

  /** `locks` and `memberQueues`, with the promises they have handed out. */
  class LockTable {
    var calls: seq<Call>
    var tails: map<LockKey, nat>

    ghost function State(): Locks
      reads this
    {
      Locks(calls, tails)
    }

    constructor ()
      ensures State() == Run([])
    {
      calls, tails := [], map[];
    }

    /** Chain a new tail behind the current one; the result is what the caller awaits. */
    method Enter(caller: Caller, key: LockKey) returns (i: nat, previous: Option<nat>)
      modifies this
      ensures State() == Arrive(old(State()), caller, key)
      ensures i == |old(calls)| && calls[i] == Call(caller, key, previous, Waiting)
    {
      previous := if key in tails then Some(tails[key]) else None;
      i := |calls|;
      calls := calls + [Call(caller, key, previous, Waiting)];
      tails := tails[key := i];
    }

    /** The awaited promise has settled: run the operation, alone for this lock and in order of arrival. */
    method Resume(i: nat)
      requires Inv(State()) && CanBegin(State(), i)
      modifies this
      ensures State() == Begin(old(State()), i)
      ensures forall j | 0 <= j < |calls| && j != i && calls[j].key == calls[i].key :: calls[j].phase != Inside
      ensures forall j | 0 <= j < i && calls[j].key == calls[i].key :: calls[j].phase == Over
    {
      BeginsInTurn(State(), i);
      forall j | i < j < |calls| && calls[j].key == calls[i].key
        ensures calls[j].phase == Waiting
      {
        assert ChainOk(calls, j);
      }
      calls := calls[i := calls[i].(phase := Inside)];
    }

    /** The finally block: release our gate, and forget the queue if we are its tail. */
    method Leave(i: nat)
      requires i < |calls| && calls[i].phase == Inside
      modifies this
      ensures State() == Finish(old(State()), i)
    {
      var key := calls[i].key;
      calls := calls[i := calls[i].(phase := Over)];
      if key.Forgets() && key in tails && tails[key] == i {
        tails := tails - {key};
      }
    }
  }
}
