/**
 Progress of the shared scheduler: the dependency graph cannot deadlock, and members drain it in exactly as many
 dispatch-and-complete rounds as there are unfinished tasks, one of them alone or several in turn.
 */
module TeamProgress {
  import opened Wrappers
  import opened TeamState
  import opened TeamProtocol
  import opened TeamInvariants

  /** Each task is finished, or waits for `name` or for anybody. */
  ghost predicate Waiting(tasks: seq<Task>, name: Name) {
    forall i | 0 <= i < |tasks| ::
      || tasks[i].status == Completed
      || (tasks[i].status == Pending && !tasks[i].reassigning
          && (tasks[i].assignee == None || tasks[i].assignee == Some(name)))
  }

  function Unfinished(tasks: seq<Task>): nat {
    if tasks == [] then 0
    else Unfinished(tasks[..|tasks| - 1]) + if tasks[|tasks| - 1].status == Completed then 0 else 1
  }

  ghost predicate AllCompleted(tasks: seq<Task>) {
    forall i | 0 <= i < |tasks| :: tasks[i].status == Completed
  }

  lemma {:induction false} UnfinishedZero(tasks: seq<Task>)
    ensures Unfinished(tasks) == 0 <==> AllCompleted(tasks)
  {
    if tasks != [] {
      UnfinishedZero(tasks[..|tasks| - 1]);
    }
  }

  lemma {:induction false} CompletingOne(tasks: seq<Task>, i: nat, t: Task)
    requires i < |tasks| && tasks[i].status != Completed && t.status == Completed
    ensures Unfinished(tasks[i := t]) == Unfinished(tasks) - 1
  {
    var n := |tasks| - 1;
    if i < n {
      CompletingOne(tasks[..n], i, t);
      assert tasks[i := t][..n] == tasks[..n][i := t];
    } else {
      assert tasks[i := t][..n] == tasks[..n];
    }
  }

  /** No deadlock: the oldest unfinished task is always ready. */
  lemma OldestIsReady(tasks: seq<Task>, name: Name, i: nat)
    requires Numbered(tasks) && Waiting(tasks, name)
    requires i < |tasks| && tasks[i].status == Pending && forall j | 0 <= j < i :: tasks[j].status == Completed
    ensures Ready(tasks, tasks[i])
  {
    DepsCheck(tasks, i);
  }

  lemma ReadyTaskExists(tasks: seq<Task>, name: Name)
    requires Numbered(tasks) && Waiting(tasks, name)
    ensures NextReady(tasks, name).Some? <==> !AllCompleted(tasks)
    ensures NextReady(tasks, name).Some? ==>
              var i := NextReady(tasks, name).value;
              i < |tasks| && tasks[i].status == Pending && DepsDone(tasks, i)
  {
    var oldest := Find(tasks, (t: Task) => t.status != Completed);
    if oldest.Some? {
      OldestIsReady(tasks, name, oldest.value);
    }
    var next := NextReady(tasks, name);
    if next.Some? {
      DepsCheck(tasks, next.value);
    }
  }

  /** The team is up, `name` is one of its members, and all unfinished work waits for it. */
  ghost predicate Drainable(cfg: Config, w: World, name: Name) {
    && ConfigOk(cfg) && BaseInv(cfg, w) && w.live
    && IsActive(w.members, name)
    && Waiting(w.tasks, name)
  }

  /** The working half of a round: the owner starts and completes its claimed task. */
  function WorkHalf(w: World, tk: Ticket, output: string): World {
    var w1 := UpdateStep(w, tk.memberId, tk.taskId, Some(InProgress), None, Some(tk.attemptId)).0;
    UpdateStep(w1, tk.memberId, tk.taskId, Some(Completed), Some(output), Some(tk.attemptId)).0
  }

  /** Four sections: dispatch to the member, whose delivery is accepted, who starts and completes the task. */
  function Round(cfg: Config, w: World, name: Name, output: string): World {
    var (w1, reply) := DispatchStep(w, name, true);
    if reply.Dispatched? then WorkHalf(AcceptedStep(w1, reply.ticket).0, reply.ticket, output) else w1
  }

  function Rounds(cfg: Config, w: World, name: Name, output: string, n: nat): World {
    if n == 0 then w else Round(cfg, Rounds(cfg, w, name, output, n - 1), name, output)
  }

  lemma MemberSpeaksForItself(cfg: Config, w: World, k: nat)
    requires RosterOk(cfg, w.captain, w.members) && k < |w.members| && w.members[k].status != Removed
    ensures IdentityOf(w, w.members[k].id) == Some(MemberIdentity(w.members[k].name))
  {
  }

  lemma ActiveMemberFound(cfg: Config, w: World, name: Name) returns (k: nat)
    requires ConfigOk(cfg) && RosterOk(cfg, w.captain, w.members) && IsActive(w.members, name)
    ensures FindActive(w.members, name) == Some(k) && k < |w.members|
    ensures w.members[k].name == name != CAPTAIN_KEY && w.members[k].id != "" && w.members[k].status != Removed
  {
    k := FindActive(w.members, name).value;
  }

  /** `name` is there, works on nothing, and the scheduler has a task for it. */
  ghost predicate Willing(cfg: Config, w: World, name: Name) {
    && ConfigOk(cfg) && BaseInv(cfg, w) && w.live && IsActive(w.members, name)
    && OpenTaskOf(w.tasks, name, None).None? && NextReady(w.tasks, name).Some?
  }

  /** The dispatch half of a round. */
  lemma DispatchHalf(cfg: Config, w: World, name: Name) returns (i: nat, k: nat)
    requires Willing(cfg, w, name)
    ensures i < |w.tasks| && k < |w.members| && w.tasks[i].status == Pending
    ensures var (w1, reply) := DispatchStep(w, name, true);
            && w1.tasks == w.tasks[i := BeginAttempt(w.tasks[i], name, w.nextToken)]
            && reply == Dispatched(Ticket(w.tasks[i].id, name, w.members[k].id, w.tasks[i].attempt + 1, w.nextToken,
                                          w.tasks[i].assignee))
            && w1.live && w1.captain == w.captain && |w1.members| == |w.members|
            && w1.members[k] == w.members[k].(status := Working) && w1.members[k].name == name
  {
    k := ActiveMemberFound(cfg, w, name);
    i := NextReady(w.tasks, name).value;
  }

  lemma UpdateHalf(cfg: Config, w: World, k: nat, i: nat, status: Status, output: Option<string>)
    requires BaseInv(cfg, w) && w.live && k < |w.members| && w.members[k].status != Removed && i < |w.tasks|
    requires w.tasks[i].assignee == Some(w.members[k].name)
    requires (w.tasks[i].status == Claimed && status == InProgress) || (w.tasks[i].status == InProgress && status == Completed)
    ensures var w' := UpdateStep(w, w.members[k].id, w.tasks[i].id, Some(status), output, w.tasks[i].attemptId).0;
            w' == w.(tasks := w'.tasks) && w'.tasks == w.tasks[i := w'.tasks[i]]
            && w'.tasks[i] == w.tasks[i].(status := status, output := if output.Some? then output else w.tasks[i].output)
  {
    MemberSpeaksForItself(cfg, w, k);
  }

  lemma UpdateBase(cfg: Config, w: World, caller: AgentId, taskId: TaskId, status: Option<Status>,
                   output: Option<string>, attemptId: Option<Token>)
    requires ConfigOk(cfg) && BaseInv(cfg, w)
    ensures BaseInv(cfg, UpdateStep(w, caller, taskId, status, output, attemptId).0)
  {
    var ev := UpdateTask(caller, taskId, status, output, attemptId);
    assert Step(cfg, w, ev) == UpdateStep(w, caller, taskId, status, output, attemptId);
    StepBase(cfg, w, ev);
  }

  lemma DispatchBase(cfg: Config, w: World, name: Name)
    requires ConfigOk(cfg) && BaseInv(cfg, w)
    ensures BaseInv(cfg, DispatchStep(w, name, true).0)
  {
    var ev := Dispatch(name, true);
    assert Step(cfg, w, ev) == DispatchStep(w, name, true);
    StepBase(cfg, w, ev);
  }

  lemma AcceptedBase(cfg: Config, w: World, tk: Ticket)
    requires ConfigOk(cfg) && BaseInv(cfg, w)
    ensures BaseInv(cfg, AcceptedStep(w, tk).0)
  {
    var ev := DispatchAccepted(tk);
    assert Step(cfg, w, ev) == AcceptedStep(w, tk);
    StepBase(cfg, w, ev);
  }

  lemma WorkHalfCompletes(cfg: Config, w: World, tk: Ticket, k: nat, i: nat, output: string)
    requires ConfigOk(cfg) && BaseInv(cfg, w) && w.live && k < |w.members| && w.members[k].status != Removed && i < |w.tasks|
    requires tk.memberId == w.members[k].id && tk.taskId == w.tasks[i].id && w.tasks[i].attemptId == Some(tk.attemptId)
    requires w.tasks[i].assignee == Some(w.members[k].name) && w.tasks[i].status == Claimed
    ensures var w' := WorkHalf(w, tk, output);
            && BaseInv(cfg, w') && w' == w.(tasks := w'.tasks) && |w'.tasks| == |w.tasks| && w'.tasks == w.tasks[i := w'.tasks[i]]
            && w'.tasks[i].status == Completed && w'.tasks[i].output == Some(output)
  {
    UpdateHalf(cfg, w, k, i, InProgress, None);
    UpdateBase(cfg, w, tk.memberId, tk.taskId, Some(InProgress), None, Some(tk.attemptId));
    var w1 := UpdateStep(w, tk.memberId, tk.taskId, Some(InProgress), None, Some(tk.attemptId)).0;
    UpdateHalf(cfg, w1, k, i, Completed, Some(output));
    UpdateBase(cfg, w1, tk.memberId, tk.taskId, Some(Completed), Some(output), Some(tk.attemptId));
  }

  /** What a dispatch of task `i` to member `k` leaves behind. */
  ghost predicate DispatchedTo(w: World, w1: World, tk: Ticket, i: nat, k: nat, name: Name) {
    && i < |w.tasks| && k < |w1.members| && w.tasks[i].status == Pending
    && w1.tasks == w.tasks[i := BeginAttempt(w.tasks[i], name, w.nextToken)]
    && w1.live && w1.members[k].name == name && w1.members[k].status != Removed
    && tk.memberId == w1.members[k].id && tk.taskId == w.tasks[i].id && tk.attemptId == w.nextToken
  }

  lemma DispatchHappens(cfg: Config, w: World, name: Name) returns (w1: World, tk: Ticket, i: nat, k: nat)
    requires Willing(cfg, w, name)
    ensures NobodyRemoved(w.members, w1.members)
    ensures DispatchStep(w, name, true) == (w1, Dispatched(tk)) && BaseInv(cfg, w1)
    ensures DispatchedTo(w, w1, tk, i, k, name)
  {
    i, k := DispatchHalf(cfg, w, name);
    var reply;
    w1, reply := DispatchStep(w, name, true).0, DispatchStep(w, name, true).1;
    tk := reply.ticket;
    DispatchBase(cfg, w, name);
    DispatchRoster(w, name, true);
  }

  lemma RoundTail(cfg: Config, w: World, w1: World, tk: Ticket, i: nat, k: nat, name: Name, output: string)
    requires ConfigOk(cfg) && BaseInv(cfg, w1) && DispatchedTo(w, w1, tk, i, k, name)
    ensures var w' := WorkHalf(AcceptedStep(w1, tk).0, tk, output);
            && BaseInv(cfg, w') && w'.live && IsActive(w'.members, name) && w'.members == w1.members
            && |w'.tasks| == |w.tasks| && w'.tasks == w.tasks[i := w'.tasks[i]] && w'.tasks[i].status == Completed
  {
    AcceptedBase(cfg, w1, tk);
    WorkHalfCompletes(cfg, AcceptedStep(w1, tk).0, tk, k, i, output);
    assert WorkHalf(AcceptedStep(w1, tk).0, tk, output).members[k].name == name;
  }

  lemma RoundEffect(cfg: Config, w: World, name: Name, output: string) returns (i: nat, w': World)
    requires Willing(cfg, w, name)
    ensures i < |w.tasks| && w.tasks[i].status == Pending && w' == Round(cfg, w, name, output)
    ensures NobodyRemoved(w.members, w'.members)
    ensures && BaseInv(cfg, w') && w'.live && IsActive(w'.members, name)
            && |w'.tasks| == |w.tasks| && w'.tasks == w.tasks[i := w'.tasks[i]] && w'.tasks[i].status == Completed
  {
    var w1, tk, k;
    w1, tk, i, k := DispatchHappens(cfg, w, name);
    w' := WorkHalf(AcceptedStep(w1, tk).0, tk, output);
    RoundTail(cfg, w, w1, tk, i, k, name, output);
  }

  lemma IdleRound(cfg: Config, w: World, name: Name, output: string)
    requires Drainable(cfg, w, name) && AllCompleted(w.tasks)
    ensures Drainable(cfg, Round(cfg, w, name, output), name) && Round(cfg, w, name, output).tasks == w.tasks
  {
    var (w1, reply) := DispatchStep(w, name, true);
    DispatchBase(cfg, w, name);
    ReadyTaskExists(w.tasks, name);
    var k := ActiveMemberFound(cfg, w, name);
    assert reply == Quiet && w1.tasks == w.tasks;
    assert w1.members[k].name == name && w1.members[k].status != Removed;
  }

  /** One round completes exactly one task, and changes no other. */
  lemma RoundCompletesOne(cfg: Config, w: World, name: Name, output: string)
    requires Drainable(cfg, w, name)
    ensures Drainable(cfg, Round(cfg, w, name, output), name)
    ensures var n := Unfinished(w.tasks);
            Unfinished(Round(cfg, w, name, output).tasks) == if n == 0 then 0 else n - 1
  {
    UnfinishedZero(w.tasks);
    if AllCompleted(w.tasks) {
      IdleRound(cfg, w, name, output);
    } else {
      ReadyTaskExists(w.tasks, name);
      var i, w' := RoundEffect(cfg, w, name, output);
      CompletingOne(w.tasks, i, w'.tasks[i]);
    }
  }

  /** `left` tasks are unfinished and the member can go on. */
  ghost predicate HasLeft(cfg: Config, w: World, name: Name, left: nat) {
    Drainable(cfg, w, name) && Unfinished(w.tasks) == left && (AllCompleted(w.tasks) <==> left == 0)
  }

  lemma NextRound(cfg: Config, w: World, name: Name, output: string, left: nat)
    requires HasLeft(cfg, w, name, left)
    ensures HasLeft(cfg, Round(cfg, w, name, output), name, if left == 0 then 0 else left - 1)
  {
    RoundCompletesOne(cfg, w, name, output);
    UnfinishedZero(Round(cfg, w, name, output).tasks);
  }

  lemma {:induction false} RoundsLeave(cfg: Config, w: World, name: Name, output: string, left: nat, n: nat)
    requires HasLeft(cfg, w, name, left)
    ensures HasLeft(cfg, Rounds(cfg, w, name, output, n), name, if n <= left then left - n else 0)
  {
    if n > 0 {
      RoundsLeave(cfg, w, name, output, left, n - 1);
      NextRound(cfg, Rounds(cfg, w, name, output, n - 1), name, output, if n - 1 <= left then left - (n - 1) else 0);
    }
  }

  /** The graph is finished after exactly as many rounds as there were unfinished tasks, and not before. */
  lemma DrainsInExactlyThatManyRounds(cfg: Config, w: World, name: Name, output: string, n: nat)
    requires Drainable(cfg, w, name)
    ensures var w' := Rounds(cfg, w, name, output, n);
            && Drainable(cfg, w', name)
            && Unfinished(w'.tasks) == (if n <= Unfinished(w.tasks) then Unfinished(w.tasks) - n else 0)
            && (AllCompleted(w'.tasks) <==> n >= Unfinished(w.tasks))
  {
    UnfinishedZero(w.tasks);
    RoundsLeave(cfg, w, name, output, Unfinished(w.tasks), n);
  }

  // ---- Several members ------------------------------------------------------------------------------

  /** The team is up, somebody is there, and each unfinished task waits for anybody or for one who is still there. */
  ghost predicate TeamDrainable(cfg: Config, w: World) {
    && ConfigOk(cfg) && BaseInv(cfg, w) && w.live
    && (exists name :: IsActive(w.members, name))
    && forall i | 0 <= i < |w.tasks| && w.tasks[i].status != Completed ::
         && w.tasks[i].status == Pending && !w.tasks[i].reassigning
         && (w.tasks[i].assignee.Some? ==> IsActive(w.members, w.tasks[i].assignee.value))
  }

  lemma NobodyBusy(cfg: Config, w: World, name: Name)
    requires TeamDrainable(cfg, w)
    ensures OpenTaskOf(w.tasks, name, None).None?
  {
  }

  /** Whatever is assigned to whom, some member can go on exactly as long as something is unfinished. */
  lemma SomebodyIsWilling(cfg: Config, w: World)
    requires TeamDrainable(cfg, w)
    ensures (exists name :: Willing(cfg, w, name)) <==> !AllCompleted(w.tasks)
  {
    var oldest := Find(w.tasks, (t: Task) => t.status != Completed);
    if oldest.Some? {
      var i := oldest.value;
      DepsCheck(w.tasks, i);
      var name :| IsActive(w.members, name);
      var owner := if w.tasks[i].assignee.Some? then w.tasks[i].assignee.value else name;
      NobodyBusy(cfg, w, owner);
      assert Ready(w.tasks, w.tasks[i]);
      assert Willing(cfg, w, owner);
    }
  }

  lemma TeamRound(cfg: Config, w: World, name: Name, output: string)
    requires TeamDrainable(cfg, w) && Willing(cfg, w, name)
    ensures TeamDrainable(cfg, Round(cfg, w, name, output))
    ensures Unfinished(w.tasks) == Unfinished(Round(cfg, w, name, output).tasks) + 1
  {
    var i, w' := RoundEffect(cfg, w, name, output);
    CompletingOne(w.tasks, i, w'.tasks[i]);
    forall j | 0 <= j < |w'.tasks| && w'.tasks[j].status != Completed && w'.tasks[j].assignee.Some?
      ensures IsActive(w'.members, w'.tasks[j].assignee.value)
    {
      assert w'.tasks[j] == w.tasks[j];
      ActiveKept(w.members, w'.members, w.tasks[j].assignee.value);
    }
  }

  /** Rounds by the members of a list, one after the other. */
  function RoundsBy(cfg: Config, w: World, names: seq<Name>, output: string): World {
    if names == [] then w else Round(cfg, RoundsBy(cfg, w, names[..|names| - 1], output), names[|names| - 1], output)
  }

  /** Each of them was willing when its turn came. */
  ghost predicate Schedule(cfg: Config, w: World, names: seq<Name>, output: string) {
    names == [] ||
    (Schedule(cfg, w, names[..|names| - 1], output) &&
     Willing(cfg, RoundsBy(cfg, w, names[..|names| - 1], output), names[|names| - 1]))
  }

  /** However the members take turns, every round finishes one more task, and the last one the graph. */
  lemma {:induction false} TeamDrainsInExactlyThatManyRounds(cfg: Config, w: World, names: seq<Name>, output: string)
    requires TeamDrainable(cfg, w) && Schedule(cfg, w, names, output)
    ensures var w' := RoundsBy(cfg, w, names, output);
            && TeamDrainable(cfg, w') && Unfinished(w.tasks) == Unfinished(w'.tasks) + |names|
            && (AllCompleted(w'.tasks) <==> |names| == Unfinished(w.tasks))
  {
    if names == [] {
      UnfinishedZero(w.tasks);
    } else {
      TeamDrainsInExactlyThatManyRounds(cfg, w, names[..|names| - 1], output);
      var w' := NextTeamRound(cfg, RoundsBy(cfg, w, names[..|names| - 1], output), names[|names| - 1], output);
    }
  }

  lemma NextTeamRound(cfg: Config, w: World, name: Name, output: string) returns (w': World)
    requires TeamDrainable(cfg, w) && Willing(cfg, w, name)
    ensures w' == Round(cfg, w, name, output) && TeamDrainable(cfg, w')
    ensures Unfinished(w.tasks) == Unfinished(w'.tasks) + 1
    ensures AllCompleted(w'.tasks) <==> Unfinished(w'.tasks) == 0
  {
    w' := Round(cfg, w, name, output);
    TeamRound(cfg, w, name, output);
    UnfinishedZero(w'.tasks);
  }

  /** Turns can always be taken until the graph is finished. */
  lemma {:induction false} TurnsCanBeTaken(cfg: Config, w: World, n: nat, output: string) returns (names: seq<Name>)
    requires TeamDrainable(cfg, w) && n <= Unfinished(w.tasks)
    ensures |names| == n && Schedule(cfg, w, names, output)
  {
    if n == 0 {
      names := [];
    } else {
      var before := TurnsCanBeTaken(cfg, w, n - 1, output);
      var name := OneMoreTurn(cfg, w, before, output);
      names := before + [name];
      assert names[..n - 1] == before;
    }
  }

  lemma OneMoreTurn(cfg: Config, w: World, names: seq<Name>, output: string) returns (name: Name)
    requires TeamDrainable(cfg, w) && Schedule(cfg, w, names, output) && |names| < Unfinished(w.tasks)
    ensures Willing(cfg, RoundsBy(cfg, w, names, output), name)
  {
    TeamDrainsInExactlyThatManyRounds(cfg, w, names, output);
    SomebodyIsWilling(cfg, RoundsBy(cfg, w, names, output));
    name :| Willing(cfg, RoundsBy(cfg, w, names, output), name);
  }

  // ---- Parking ----------------------------------------------------------------------------------

  /**
   A parked attempt is never rotated by the scheduler: only the captain's reassignment, the
   removal of its owner, or the failure of its own delivery takes the capability away.
   */
  lemma ParkedAttemptStays(cfg: Config, w: World, ev: Event, i: nat, k: nat)
    requires ConfigOk(cfg) && BaseInv(cfg, w) && i < |w.tasks| && k < |w.members|
    requires w.tasks[i].status.Open() && w.tasks[i].assignee == Some(w.members[k].name)
    requires w.members[k].id in w.parked && w.tasks[i].attemptId == Some(w.parked[w.members[k].id])
    requires w.members[k].status != Removed
    ensures var w' := Step(cfg, w, ev).0;
            || (i < |w'.tasks| && w'.tasks[i].attemptId == w.tasks[i].attemptId)
            || ev.ReassignBegin? || ev.RemoveMember? || ev.RetireAll?
            || (ev.DispatchRejected? && Some(ev.ticket.attemptId) == w.tasks[i].attemptId)
  {
    var m := StepMove(cfg, w, ev, i);
    match ev
    case Dispatch(name, available) => DispatchSparesParked(cfg, w, name, available, i, k);
    case ClaimTask(caller, taskId, owner) => ClaimSparesOpen(w, caller, taskId, owner, i);
    case ReassignCommit(handoff, quiesced) => CommitSparesOpen(cfg, w, handoff, quiesced, i);
    case _ =>
  }

  lemma ClaimSparesOpen(w: World, caller: AgentId, taskId: TaskId, owner: Option<Name>, i: nat)
    requires i < |w.tasks| && w.tasks[i].status.Open()
    ensures i < |ClaimStep(w, caller, taskId, owner).0.tasks|
    ensures ClaimStep(w, caller, taskId, owner).0.tasks[i] == w.tasks[i]
  {
  }

  lemma CommitSparesOpen(cfg: Config, w: World, handoff: Handoff, quiesced: bool, i: nat)
    requires BaseInv(cfg, w) && i < |w.tasks| && w.tasks[i].status.Open()
    ensures i < |ReassignCommitStep(w, handoff, quiesced).0.tasks|
    ensures ReassignCommitStep(w, handoff, quiesced).0.tasks[i] == w.tasks[i]
  {
    assert TaskShape(w.tasks[i], w.nextToken);
  }

  lemma DispatchSparesParked(cfg: Config, w: World, name: Name, available: bool, i: nat, k: nat)
    requires ConfigOk(cfg) && BaseInv(cfg, w) && i < |w.tasks| && k < |w.members|
    requires w.tasks[i].status.Open() && w.tasks[i].assignee == Some(w.members[k].name)
    requires w.members[k].id in w.parked && w.tasks[i].attemptId == Some(w.parked[w.members[k].id])
    requires w.members[k].status != Removed
    ensures i < |DispatchStep(w, name, available).0.tasks| && DispatchStep(w, name, available).0.tasks[i] == w.tasks[i]
  {
    var found := FindActive(w.members, name);
    if found.Some? {
      var owned := OpenTaskOf(w.tasks, name, None);
      if w.members[k].name == name {
        assert found == Some(k);
        assert owned == Some(i);
      }
    }
  }
}
