/**
 What every locked section keeps. `MoveOk` lists the six ways one section may change one task;
 `StepMove` shows that no section does anything else, and the invariants follow from that list.
 */
module TeamInvariants {
  import opened Wrappers
  import opened TeamState
  import opened TeamProtocol

  /** The key function keeps the captain's own mailbox key fixed, as sanitizeKey does. */
  ghost predicate ConfigOk(cfg: Config) { cfg.key(CAPTAIN_KEY) == CAPTAIN_KEY }

  /** A spawned child gets a session id that nobody else has. */
  ghost predicate GoodSpawn(w: World, ev: Event) {
    ev.AddMember? && ev.child.Some? ==>
      ev.child.value != "" && ev.child.value != w.captain && forall m | m in w.members :: m.id != ev.child.value
  }

  ghost predicate IsActive(members: seq<Member>, name: Name) {
    exists k | 0 <= k < |members| :: members[k].name == name && members[k].status != Removed
  }

  /** The member part of isTeamState, plus: no member is the captain's own session. */
  ghost predicate RosterOk(cfg: Config, captain: AgentId, members: seq<Member>) {
    && (forall k | 0 <= k < |members| ::
          members[k].id != "" && members[k].id != captain && members[k].name != ""
          && cfg.key(members[k].name) != CAPTAIN_KEY)
    && (forall j, k | 0 <= j < k < |members| ::
          members[j].id != members[k].id && cfg.key(members[j].name) != cfg.key(members[k].name))
  }

  ghost predicate TaskShape(t: Task, next: Token) {
    && (t.status == Pending ==> t.attemptId.None?)
    && (t.status.Worked() ==> t.attemptId.Some?)
    && (t.attemptId.Some? ==>
          t.assignee.Some? && t.handoffId.None? && !t.reassigning && t.attemptId.value < next && t.attempt > 0)
    && (t.reassigning ==> t.handoffId.Some? && t.assignee.Some?)
    && (t.handoffId.Some? ==> t.handoffId.value < next)
  }

  /** No member owns two tasks that are claimed or in progress. */
  ghost predicate OneOpen(tasks: seq<Task>) {
    forall i, j | 0 <= i < j < |tasks| && tasks[i].status.Open() && tasks[j].status.Open()
                  && tasks[i].assignee == tasks[j].assignee :: tasks[i].assignee == Some(CAPTAIN_KEY)
  }

  /** A capability in flight names its own task and owner. */
  ghost predicate TicketOk(w: World, tk: Ticket) {
    && tk.attemptId < w.nextToken
    && tk.memberName != CAPTAIN_KEY
    && (tk.previousAssignee == None || tk.previousAssignee == Some(tk.memberName))
    && forall i | 0 <= i < |w.tasks| && w.tasks[i].attemptId == Some(tk.attemptId) ::
         w.tasks[i].id == tk.taskId && w.tasks[i].assignee == Some(tk.memberName)
  }

  ghost predicate HandoffOk(w: World, h: Handoff) {
    && h.handoffId < w.nextToken
    && forall i | 0 <= i < |w.tasks| && w.tasks[i].handoffId == Some(h.handoffId) :: w.tasks[i].id == h.taskId
  }

  /** What holds in every reachable state, whatever deliveries do. */
  ghost predicate BaseInv(cfg: Config, w: World) {
    && RosterOk(cfg, w.captain, w.members)
    && w.taskSeq == |w.tasks|
    && Numbered(w.tasks)
    && (forall i | 0 <= i < |w.tasks| :: TaskShape(w.tasks[i], w.nextToken))
    && OneOpen(w.tasks)
    && (forall tk | tk in w.tickets :: TicketOk(w, tk))
    && (forall h | h in w.handoffs :: HandoffOk(w, h))
  }

  datatype Move =
    | Kept
    | Begun(owner: Name)
    | Revoked(next: Option<Name>, handingOver: bool, token: Token)
    | Closed
    | Progressed(status: Status, output: Option<string>)
    | Undone(ticket: Ticket)

  /** Nobody but task `i` keeps this member busy. */
  ghost predicate FreeFor(tasks: seq<Task>, name: Name, i: nat) {
    forall j | 0 <= j < |tasks| && j != i :: !(tasks[j].status.Open() && tasks[j].assignee == Some(name))
  }

  ghost predicate MoveOk(w: World, w': World, i: nat, m: Move)
    requires i < |w.tasks| <= |w'.tasks|
  {
    var t, t' := w.tasks[i], w'.tasks[i];
    match m
    case Kept => t' == t
    case Begun(owner) =>
      && t' == BeginAttempt(t, owner, w.nextToken)
      && w'.nextToken == w.nextToken + 1
      && w'.tasks == w.tasks[i := t']
      && t.status != Completed && t.status != Failed
      && (owner != CAPTAIN_KEY ==>
            && (IsActive(w.members, owner) || t.assignee == Some(owner))
            && !t.reassigning
            && FreeFor(w.tasks, owner, i)
            && (DepsDone(w.tasks, i) || (t.status.Open() && t.assignee == Some(owner))))
      && (owner == CAPTAIN_KEY ==> !t.status.Open())
    case Revoked(next, handingOver, token) =>
      && t' == InvalidateAttempt(t, next, handingOver, token)
      && w.nextToken <= token < w'.nextToken
      && t.status != Completed
      && (handingOver ==> !t.reassigning && next.Some?)
      && (next.Some? ==> next == Some(CAPTAIN_KEY) || IsActive(w.members, next.value))
    case Closed => t.reassigning && t' == t.(reassigning := false)
    case Progressed(status, output) =>
      && t' == t.(status := status, output := output)
      && !t.status.Terminal() && TransitionAllowed(t.status, status)
      && (status != t.status ==> status != Claimed)
    case Undone(ticket) =>
      ticket in w.tickets && t.attemptId == Some(ticket.attemptId) && t' == RolledBack(t, ticket)
  }

  /** Members are only ever appended, and a removed one stays removed. */
  ghost predicate MembersKept(w: World, w': World) {
    && |w.members| <= |w'.members|
    && w'.captain == w.captain
    && forall k | 0 <= k < |w.members| ::
         && w'.members[k].id == w.members[k].id && w'.members[k].name == w.members[k].name
         && (w.members[k].status == Removed ==> w'.members[k].status == Removed)
  }

  // ---- Finding tasks ---------------------------------------------------------------------

  lemma DepsCheck(tasks: seq<Task>, i: nat)
    requires Numbered(tasks) && i < |tasks|
    ensures Unsatisfied(tasks, tasks[i].dependencies) == [] <==> DepsDone(tasks, i)
  {
    UnsatisfiedMeaning(tasks, tasks[i].dependencies);
    var u := Unsatisfied(tasks, tasks[i].dependencies);
    if u != [] {
      assert u[0] in u;
    }
  }

  lemma NotBusy(tasks: seq<Task>, name: Name, i: nat)
    requires Numbered(tasks) && i < |tasks|
    ensures OpenTaskOf(tasks, name, Some(tasks[i].id)).None? <==> FreeFor(tasks, name, i)
  {
    var busy := OpenTaskOf(tasks, name, Some(tasks[i].id));
    if busy.Some? {
      assert busy.value != i;
    }
  }

  // ---- One section, one task ---------------------------------------------------------------

  lemma {:induction false} RetireMoves(w: World, k: nat, i: nat) returns (m: Move)
    requires k <= |w.members| && i < |w.tasks|
    ensures var w' := RetireFrom(w, k);
            && |w'.tasks| == |w.tasks| && |w'.members| == |w.members| && w.nextToken <= w'.nextToken
            && MoveOk(w, w', i, m) && (m.Kept? || (m.Revoked? && m.next.None? && !m.handingOver))
    decreases |w.members| - k
  {
    if k == |w.members| {
      m := Kept;
    } else if w.members[k].status == Removed {
      m := RetireMoves(w, k + 1, i);
    } else {
      var w1 := WithPresence(w, k, Removed).(tasks := Requeue(w.tasks, w.members[k].name, w.nextToken),
                                             nextToken := w.nextToken + |w.tasks|);
      m := RetireMoves(w1, k + 1, i);
      if m.Kept? && w1.tasks[i] != w.tasks[i] {
        m := Revoked(None, false, w.nextToken + i);
      }
    }
  }

  /** What a claim needs before it changes task `i`. */
  lemma ClaimNeeds(cfg: Config, w: World, caller: AgentId, taskId: TaskId, owner: Option<Name>, i: nat)
    returns (assignee: Name)
    requires BaseInv(cfg, w) && i < |w.tasks|
    requires |ClaimStep(w, caller, taskId, owner).0.tasks| == |w.tasks| ==>
      ClaimStep(w, caller, taskId, owner).0.tasks[i] != w.tasks[i]
    ensures var w' := ClaimStep(w, caller, taskId, owner).0;
      w'.tasks == w.tasks[i := BeginAttempt(w.tasks[i], assignee, w.nextToken)] && w'.nextToken == w.nextToken + 1
    ensures !w.tasks[i].reassigning && w.tasks[i].status == Pending
    ensures Unsatisfied(w.tasks, w.tasks[i].dependencies) == []
    ensures OpenTaskOf(w.tasks, assignee, Some(w.tasks[i].id)).None?
    ensures IsActive(w.members, assignee) || w.tasks[i].assignee == Some(assignee)
  {
    var (name, _) := ClaimOwner(w, IdentityOf(w, caller).value, w.tasks[i], owner);
    assignee := name.value;
  }

  lemma ClaimMove(cfg: Config, w: World, caller: AgentId, taskId: TaskId, owner: Option<Name>, i: nat)
    returns (m: Move)
    requires BaseInv(cfg, w) && i < |w.tasks|
    ensures var w' := ClaimStep(w, caller, taskId, owner).0;
            |w'.tasks| == |w.tasks| && w.nextToken <= w'.nextToken && MoveOk(w, w', i, m)
    ensures m.Kept? || m.Begun?
  {
    var w' := ClaimStep(w, caller, taskId, owner).0;
    m := Kept;
    if w'.tasks[i] != w.tasks[i] {
      var assignee := ClaimNeeds(cfg, w, caller, taskId, owner, i);
      DepsCheck(w.tasks, i);
      NotBusy(w.tasks, assignee, i);
      m := Move.Begun(assignee);
    }
  }

  lemma UpdateMove(cfg: Config, w: World, caller: AgentId, taskId: TaskId, status: Option<Status>,
                   output: Option<string>, attemptId: Option<Token>, i: nat)
    returns (m: Move)
    requires BaseInv(cfg, w) && i < |w.tasks|
    ensures var w' := UpdateStep(w, caller, taskId, status, output, attemptId).0;
            |w'.tasks| == |w.tasks| && w.nextToken <= w'.nextToken && MoveOk(w, w', i, m)
    ensures m.Kept? || m.Progressed?
  {
    var w' := UpdateStep(w, caller, taskId, status, output, attemptId).0;
    m := if w'.tasks[i] == w.tasks[i] then Kept else Progressed(w'.tasks[i].status, w'.tasks[i].output);
  }

  lemma ReassignBeginMove(cfg: Config, w: World, caller: AgentId, taskId: TaskId, target: Name, i: nat)
    returns (m: Move)
    requires BaseInv(cfg, w) && i < |w.tasks|
    ensures var w' := ReassignBeginStep(w, caller, taskId, target).0;
            |w'.tasks| == |w.tasks| && w.nextToken <= w'.nextToken && MoveOk(w, w', i, m)
    ensures m.Kept? || m.Revoked?
  {
    var w' := ReassignBeginStep(w, caller, taskId, target).0;
    m := if w'.tasks[i] == w.tasks[i] then Kept else Revoked(Some(target), true, w.nextToken);
  }

  lemma ReassignCommitMove(cfg: Config, w: World, h: Handoff, quiesced: bool, i: nat) returns (m: Move)
    requires BaseInv(cfg, w) && i < |w.tasks|
    ensures var w' := ReassignCommitStep(w, h, quiesced).0;
            |w'.tasks| == |w.tasks| && w.nextToken <= w'.nextToken && MoveOk(w, w', i, m)
    ensures m.Kept? || m.Begun? || m.Closed?
  {
    var w' := ReassignCommitStep(w, h, quiesced).0;
    m := if w'.tasks[i] == w.tasks[i] then Kept
         else if w'.nextToken == w.nextToken then Closed else Move.Begun(CAPTAIN_KEY);
  }

  /** What the scheduler selects is free to be worked on by the member it is selected for. */
  lemma SelectedTask(cfg: Config, w: World, k: nat, i: nat)
    requires BaseInv(cfg, w) && k < |w.members| && SelectTask(w, w.members[k]) == Some(i)
    ensures i < |w.tasks| && !w.tasks[i].reassigning && (w.tasks[i].status == Pending || w.tasks[i].status.Open())
    ensures FreeFor(w.tasks, w.members[k].name, i) || w.members[k].name == CAPTAIN_KEY
    ensures DepsDone(w.tasks, i) || (w.tasks[i].status.Open() && w.tasks[i].assignee == Some(w.members[k].name))
  {
    DepsCheck(w.tasks, i);
    NotBusy(w.tasks, w.members[k].name, i);
    assert TaskShape(w.tasks[i], w.nextToken);
  }

  lemma DispatchMove(cfg: Config, w: World, name: Name, available: bool, i: nat) returns (m: Move)
    requires ConfigOk(cfg) && BaseInv(cfg, w) && i < |w.tasks|
    ensures var w' := DispatchStep(w, name, available).0;
            |w'.tasks| == |w.tasks| && w.nextToken <= w'.nextToken && MoveOk(w, w', i, m)
    ensures m.Kept? || m.Begun?
  {
    var w' := DispatchStep(w, name, available).0;
    m := Kept;
    if w'.tasks[i] != w.tasks[i] {
      SelectedTask(cfg, w, FindActive(w.members, name).value, i);
      m := Move.Begun(name);
    }
  }

  lemma RejectedMove(cfg: Config, w: World, ticket: Ticket, i: nat) returns (m: Move)
    requires BaseInv(cfg, w) && i < |w.tasks|
    ensures var w' := RejectedStep(w, ticket).0;
            |w'.tasks| == |w.tasks| && w.nextToken <= w'.nextToken && MoveOk(w, w', i, m)
    ensures m.Kept? || (m == Undone(ticket) && w.live)
  {
    var w' := RejectedStep(w, ticket).0;
    m := if w'.tasks[i] == w.tasks[i] then Kept else Undone(ticket);
  }

  lemma RemoveMove(w: World, caller: AgentId, name: Name, i: nat) returns (m: Move)
    requires i < |w.tasks|
    ensures var w' := RemoveMemberStep(w, caller, name).0;
            |w'.tasks| == |w.tasks| && w.nextToken <= w'.nextToken && MoveOk(w, w', i, m)
    ensures m.Kept? || m.Revoked?
  {
    var w' := RemoveMemberStep(w, caller, name).0;
    m := if w'.tasks[i] == w.tasks[i] then Kept else Revoked(None, false, w.nextToken + i);
  }

  /** Sections that touch no existing task. */
  predicate LeavesTasks(ev: Event) {
    ev.AddMember? || ev.CreateTask? || ev.Archive? || ev.DispatchAccepted? || ev.MemberLookup? ||
    ev.MemberActivity? || ev.Restart?
  }

  lemma OtherMove(cfg: Config, w: World, ev: Event)
    requires LeavesTasks(ev)
    ensures var w' := Step(cfg, w, ev).0;
            |w.tasks| <= |w'.tasks| && w'.nextToken == w.nextToken && w'.tasks[..|w.tasks|] == w.tasks
  {
  }

  /** Which section makes which move. */
  ghost predicate MoveSource(w: World, ev: Event, m: Move) {
    match m
    case Kept => true
    case Begun(_) => ev.ClaimTask? || ev.Dispatch? || ev.ReassignCommit?
    case Revoked(_, _, _) => ev.RemoveMember? || ev.RetireAll? || ev.ReassignBegin?
    case Closed => ev.ReassignCommit?
    case Progressed(_, _) => ev.UpdateTask?
    case Undone(ticket) => ev == DispatchRejected(ticket) && w.live
  }

  /** Every locked section changes each existing task in one of the listed ways, or not at all. */
  lemma StepMove(cfg: Config, w: World, ev: Event, i: nat) returns (m: Move)
    requires ConfigOk(cfg) && BaseInv(cfg, w) && i < |w.tasks|
    ensures var w' := Step(cfg, w, ev).0;
            |w.tasks| <= |w'.tasks| && w.nextToken <= w'.nextToken && MoveOk(w, w', i, m) && MoveSource(w, ev, m)
  {
    if LeavesTasks(ev) {
      OtherMove(cfg, w, ev);
      assert w.tasks[i] == Step(cfg, w, ev).0.tasks[..|w.tasks|][i];
      m := Kept;
      return;
    }
    match ev
    case RemoveMember(caller, name) => m := RemoveMove(w, caller, name, i);
    case ReassignBegin(caller, taskId, assignee) => m := ReassignBeginMove(cfg, w, caller, taskId, cfg.trim(assignee), i);
    case ReassignCommit(handoff, quiesced) => m := ReassignCommitMove(cfg, w, handoff, quiesced, i);
    case ClaimTask(caller, taskId, owner) => m := ClaimMove(cfg, w, caller, taskId, owner, i);
    case UpdateTask(caller, taskId, status, output, attemptId) =>
      m := UpdateMove(cfg, w, caller, taskId, status, output, attemptId, i);
    case RetireAll(caller) =>
      if w.live && caller == w.captain {
        m := RetireMoves(w, 0, i);
      } else {
        m := Kept;
      }
    case Dispatch(name, available) => m := DispatchMove(cfg, w, name, available, i);
    case DispatchRejected(ticket) => m := RejectedMove(cfg, w, ticket, i);
  }

  // ---- Consequences of one move ------------------------------------------------------------

  lemma MoveShape(w: World, w': World, i: nat, m: Move)
    requires i < |w.tasks| <= |w'.tasks| && MoveOk(w, w', i, m)
    requires w.nextToken <= w'.nextToken && TaskShape(w.tasks[i], w.nextToken)
    ensures TaskShape(w'.tasks[i], w'.nextToken)
    ensures w'.tasks[i].id == w.tasks[i].id && w'.tasks[i].dependencies == w.tasks[i].dependencies
    ensures w.tasks[i].attempt <= w'.tasks[i].attempt
  {
  }

  /** A capability is either fresh from this section, or was already current with the same owner and number. */
  lemma TokenBack(w: World, w': World, i: nat, m: Move)
    requires i < |w.tasks| <= |w'.tasks| && MoveOk(w, w', i, m) && TaskShape(w.tasks[i], w.nextToken)
    requires w'.tasks[i].attemptId.Some?
    ensures var t, t' := w.tasks[i], w'.tasks[i];
            if t'.attemptId.value < w.nextToken
            then (m.Kept? || m.Progressed?) && t.attemptId == t'.attemptId && t.assignee == t'.assignee
                 && t.attempt == t'.attempt
            else m.Begun? && t'.attemptId == Some(w.nextToken)
  {
  }

  /** Likewise for a handoff generation; while it stands, ownership and attempt are frozen. */
  lemma HandoffBack(w: World, w': World, i: nat, m: Move)
    requires i < |w.tasks| <= |w'.tasks| && MoveOk(w, w', i, m) && TaskShape(w.tasks[i], w.nextToken)
    requires w'.tasks[i].handoffId.Some?
    ensures var t, t' := w.tasks[i], w'.tasks[i];
            if t'.handoffId.value < w.nextToken
            then (m.Kept? || m.Closed? || m.Progressed?) && t.handoffId == t'.handoffId
                 && t.assignee == t'.assignee && t.attempt == t'.attempt && t.attemptId == t'.attemptId == None
                 && (t'.reassigning ==> t.reassigning)
            else m.Revoked? && t'.handoffId.value < w'.nextToken
  {
  }

  // ---- Members ------------------------------------------------------------------------------

  /** Same people in the same order; only their presence may differ, and removed is final. */
  ghost predicate SameRoster(a: seq<Member>, b: seq<Member>) {
    |a| == |b| && forall k | 0 <= k < |a| ::
      b[k].id == a[k].id && b[k].name == a[k].name && (a[k].status == Removed ==> b[k].status == Removed)
  }

  lemma {:induction false} RetireCounts(w: World, k: nat)
    requires k <= |w.members|
    ensures var w' := RetireFrom(w, k);
            && SameRoster(w.members, w'.members) && w'.captain == w.captain
            && (forall j | k <= j < |w.members| :: w'.members[j].status == Removed)
            && w'.tickets == w.tickets && w'.handoffs == w.handoffs && w'.live == w.live
            && w'.taskSeq == w.taskSeq && |w'.tasks| == |w.tasks| && w.nextToken <= w'.nextToken
    decreases |w.members| - k
  {
    if k < |w.members| {
      if w.members[k].status == Removed {
        RetireCounts(w, k + 1);
      } else {
        RetireCounts(WithPresence(w, k, Removed).(
                       tasks := Requeue(w.tasks, w.members[k].name, w.nextToken),
                       nextToken := w.nextToken + |w.tasks|), k + 1);
      }
    }
  }

  /** Sections that may change somebody's presence. */
  predicate ChangesPresence(ev: Event) {
    ev.RemoveMember? || ev.RetireAll? || ev.Dispatch? || ev.DispatchRejected? || ev.MemberActivity?
  }

  lemma PresenceUnchanged(cfg: Config, w: World, ev: Event)
    requires !ChangesPresence(ev) && !ev.AddMember?
    ensures var w' := Step(cfg, w, ev).0; w'.members == w.members && w'.captain == w.captain
  {
  }

  /** Nobody leaves. */
  ghost predicate NobodyRemoved(a: seq<Member>, b: seq<Member>) {
    |a| <= |b| && forall k | 0 <= k < |a| :: b[k].name == a[k].name && (b[k].status == Removed ==> a[k].status == Removed)
  }

  lemma ActiveKept(a: seq<Member>, b: seq<Member>, name: Name)
    requires NobodyRemoved(a, b) && IsActive(a, name)
    ensures IsActive(b, name)
  {
    var k :| 0 <= k < |a| && a[k].name == name && a[k].status != Removed;
    assert b[k].name == name && b[k].status != Removed;
  }

  lemma DispatchRoster(w: World, name: Name, available: bool)
    ensures var w' := DispatchStep(w, name, available).0;
            SameRoster(w.members, w'.members) && NobodyRemoved(w.members, w'.members) && w'.captain == w.captain
  {
  }

  lemma RejectedRoster(w: World, ticket: Ticket)
    ensures var w' := RejectedStep(w, ticket).0;
            SameRoster(w.members, w'.members) && NobodyRemoved(w.members, w'.members) && w'.captain == w.captain
  {
  }

  lemma ActivityRoster(w: World, agentId: AgentId, running: bool)
    ensures var w' := ActivityStep(w, agentId, running).0;
            SameRoster(w.members, w'.members) && NobodyRemoved(w.members, w'.members) && w'.captain == w.captain
  {
  }

  lemma StepRoster(cfg: Config, w: World, ev: Event)
    requires !ev.AddMember?
    ensures var w' := Step(cfg, w, ev).0;
            && SameRoster(w.members, w'.members) && w'.captain == w.captain
            && (!ev.RemoveMember? && !ev.RetireAll? ==> NobodyRemoved(w.members, w'.members))
  {
    if !ChangesPresence(ev) {
      PresenceUnchanged(cfg, w, ev);
      return;
    }
    match ev
    case RemoveMember(_, _) =>
    case RetireAll(_) => RetireCounts(w, 0);
    case Dispatch(name, available) => DispatchRoster(w, name, available);
    case DispatchRejected(ticket) => RejectedRoster(w, ticket);
    case MemberActivity(agentId, running) => ActivityRoster(w, agentId, running);
  }

  lemma StepMembers(cfg: Config, w: World, ev: Event)
    requires RosterOk(cfg, w.captain, w.members) && GoodSpawn(w, ev)
    ensures var w' := Step(cfg, w, ev).0; MembersKept(w, w') && RosterOk(cfg, w'.captain, w'.members)
  {
    if ev.AddMember? {
      var added := AddMemberStep(cfg, w, ev.caller, cfg.trim(ev.name), ev.child).0;
    } else {
      StepRoster(cfg, w, ev);
    }
  }

  // ---- The invariant ------------------------------------------------------------------------

  lemma StepNumbered(cfg: Config, w: World, ev: Event)
    requires ConfigOk(cfg) && BaseInv(cfg, w)
    ensures var w' := Step(cfg, w, ev).0;
            && w'.taskSeq == |w'.tasks| && Numbered(w'.tasks) && |w.tasks| <= |w'.tasks|
            && w.nextToken <= w'.nextToken
            && (forall i | 0 <= i < |w'.tasks| :: TaskShape(w'.tasks[i], w'.nextToken))
            && (forall i | |w.tasks| <= i < |w'.tasks| ::
                  ev.CreateTask? && w'.tasks[i] == Task(i + 1, Pending, ev.owner, ev.dependencies, 0, None, None, false, None)
                  && (ev.owner.Some? ==> IsActive(w.members, ev.owner.value)))
  {
    var w' := Step(cfg, w, ev).0;
    if |w.tasks| > 0 {
      var _ := StepMove(cfg, w, ev, 0);
    }
    StepCounts(cfg, w, ev);
    forall i | 0 <= i < |w'.tasks|
      ensures TaskShape(w'.tasks[i], w'.nextToken)
      ensures w'.tasks[i].id == i + 1 && forall d | d in w'.tasks[i].dependencies :: 1 <= d <= i
    {
      if i < |w.tasks| {
        var m := StepMove(cfg, w, ev, i);
        MoveShape(w, w', i, m);
      } else {
        forall d | d in ev.dependencies ensures 1 <= d <= |w.tasks| {
          var j :| 0 <= j < |ev.dependencies| && ev.dependencies[j] == d;
          assert MissingDependency(w.tasks, ev.dependencies).None?;
        }
      }
    }
  }

  lemma CreateCounts(w: World, caller: AgentId, dependencies: seq<TaskId>, owner: Option<Name>)
    requires w.taskSeq == |w.tasks|
    ensures var w' := CreateTaskStep(w, caller, dependencies, owner).0;
            || w' == w
            || (&& w' == w.(tasks := w'.tasks, taskSeq := |w'.tasks|)
                && w'.tasks == w.tasks + [Task(|w'.tasks|, Pending, owner, dependencies, 0, None, None, false, None)]
                && MissingDependency(w.tasks, dependencies).None?
                && (owner.Some? ==> IsActive(w.members, owner.value)))
  {
  }

  /** Sections on behalf of a participant, which work on one existing task. */
  predicate TaskTool(ev: Event) {
    ev.ClaimTask? || ev.UpdateTask? || ev.ReassignBegin? || ev.ReassignCommit?
  }

  lemma ToolCounts(cfg: Config, w: World, ev: Event)
    requires TaskTool(ev)
    ensures var w' := Step(cfg, w, ev).0;
            && w'.taskSeq == w.taskSeq && |w'.tasks| == |w.tasks| && w.nextToken <= w'.nextToken
            && w'.tickets == w.tickets && (!ev.ReassignBegin? ==> w'.handoffs <= w.handoffs)
  {
  }

  lemma DispatchCounts(w: World, name: Name, available: bool)
    ensures var w' := DispatchStep(w, name, available).0;
            && w'.taskSeq == w.taskSeq && |w'.tasks| == |w.tasks| && w.nextToken <= w'.nextToken
            && w'.handoffs == w.handoffs
  {
  }

  lemma RejectedCounts(w: World, ticket: Ticket)
    ensures var w' := RejectedStep(w, ticket).0;
            && w'.taskSeq == w.taskSeq && |w'.tasks| == |w.tasks| && w'.nextToken == w.nextToken
            && w'.tickets <= w.tickets && w'.handoffs == w.handoffs
  {
  }

  lemma OtherCounts(cfg: Config, w: World, ev: Event)
    requires !ev.CreateTask? && !TaskTool(ev)
    ensures var w' := Step(cfg, w, ev).0;
            && w'.taskSeq == w.taskSeq && |w'.tasks| == |w.tasks| && w.nextToken <= w'.nextToken
            && (!ev.Dispatch? ==> w'.tickets <= w.tickets) && w'.handoffs <= w.handoffs
  {
    if ev.RetireAll? {
      RetireCounts(w, 0);
    } else if ev.Dispatch? {
      DispatchCounts(w, ev.name, ev.available);
    } else if ev.DispatchRejected? {
      RejectedCounts(w, ev.ticket);
    }
  }

  lemma StepCounts(cfg: Config, w: World, ev: Event)
    requires w.taskSeq == |w.tasks|
    ensures var w' := Step(cfg, w, ev).0;
            w'.taskSeq == |w'.tasks| && w.nextToken <= w'.nextToken
            && (|w'.tasks| == |w.tasks| || (ev.CreateTask? && MissingDependency(w.tasks, ev.dependencies).None?))
            && |w.tasks| <= |w'.tasks|
            && (forall i | |w.tasks| <= i < |w'.tasks| ::
                  ev.CreateTask? && w'.tasks[i] == Task(i + 1, Pending, ev.owner, ev.dependencies, 0, None, None, false, None)
                  && (ev.owner.Some? ==> IsActive(w.members, ev.owner.value)))
  {
    if ev.CreateTask? {
      assert Step(cfg, w, ev) == CreateTaskStep(w, ev.caller, ev.dependencies, ev.owner);
      CreateCounts(w, ev.caller, ev.dependencies, ev.owner);
    } else if TaskTool(ev) {
      ToolCounts(cfg, w, ev);
    } else {
      OtherCounts(cfg, w, ev);
    }
  }

  lemma StepOneOpen(cfg: Config, w: World, ev: Event)
    requires ConfigOk(cfg) && BaseInv(cfg, w)
    ensures OneOpen(Step(cfg, w, ev).0.tasks)
  {
    var w' := Step(cfg, w, ev).0;
    StepNumbered(cfg, w, ev);
    forall i, j | 0 <= i < j < |w'.tasks| && w'.tasks[i].status.Open() && w'.tasks[j].status.Open()
                  && w'.tasks[i].assignee == w'.tasks[j].assignee
      ensures w'.tasks[i].assignee == Some(CAPTAIN_KEY)
    {
      var mi := StepMove(cfg, w, ev, i);
      var mj := StepMove(cfg, w, ev, j);
    }
  }

  lemma StepTickets(cfg: Config, w: World, ev: Event)
    requires ConfigOk(cfg) && BaseInv(cfg, w)
    ensures var w' := Step(cfg, w, ev).0; forall tk | tk in w'.tickets :: TicketOk(w', tk)
  {
    var w' := Step(cfg, w, ev).0;
    StepNumbered(cfg, w, ev);
    forall tk | tk in w'.tickets
      ensures TicketOk(w', tk)
    {
      TicketSource(cfg, w, ev, tk);
      forall i | 0 <= i < |w'.tasks| && w'.tasks[i].attemptId == Some(tk.attemptId)
        ensures w'.tasks[i].id == tk.taskId && w'.tasks[i].assignee == Some(tk.memberName)
      {
        var m := StepMove(cfg, w, ev, i);
        TokenBack(w, w', i, m);
      }
    }
  }

  lemma DispatchTicket(cfg: Config, w: World, name: Name, available: bool, tk: Ticket)
    requires ConfigOk(cfg) && BaseInv(cfg, w)
    requires tk in DispatchStep(w, name, available).0.tickets && tk !in w.tickets
    ensures NewTicket(w, DispatchStep(w, name, available).0, tk)
  {
  }

  /** A ticket for the capability that the dispatch from `w` to `w'` issued. */
  ghost predicate NewTicket(w: World, w': World, tk: Ticket) {
    && tk.attemptId == w.nextToken < w'.nextToken && tk.memberName != CAPTAIN_KEY
    && (tk.previousAssignee == None || tk.previousAssignee == Some(tk.memberName))
    && forall i | 0 <= i < |w'.tasks| && w'.tasks[i].attemptId == Some(w.nextToken) ::
         w'.tasks[i].id == tk.taskId && w'.tasks[i].assignee == Some(tk.memberName)
  }

  /** A ticket was there before, or this section is the dispatch that issued it. */
  lemma TicketSource(cfg: Config, w: World, ev: Event, tk: Ticket)
    requires ConfigOk(cfg) && BaseInv(cfg, w) && tk in Step(cfg, w, ev).0.tickets
    ensures tk in w.tickets || NewTicket(w, Step(cfg, w, ev).0, tk)
  {
    if ev.CreateTask? {
    } else if ev.Dispatch? {
      assert Step(cfg, w, ev) == DispatchStep(w, ev.name, ev.available);
      if tk !in w.tickets {
        DispatchTicket(cfg, w, ev.name, ev.available, tk);
      }
    } else {
      if TaskTool(ev) {
        ToolCounts(cfg, w, ev);
      } else {
        OtherCounts(cfg, w, ev);
      }
    }
  }

  lemma BegunHandoff(w: World, caller: AgentId, taskId: TaskId, target: Name, h: Handoff)
    requires h in ReassignBeginStep(w, caller, taskId, target).0.handoffs && h !in w.handoffs
    ensures NewHandoff(w, ReassignBeginStep(w, caller, taskId, target).0, h)
  {
  }

  /** The handoff that phase one from `w` to `w'` opened; it touches only its own task. */
  ghost predicate NewHandoff(w: World, w': World, h: Handoff) {
    && h.handoffId == w.nextToken < w'.nextToken
    && forall i | 0 <= i < |w'.tasks| && w'.tasks[i].id != h.taskId :: i < |w.tasks| && w'.tasks[i] == w.tasks[i]
  }

  lemma HandoffSource(cfg: Config, w: World, ev: Event, h: Handoff)
    requires h in Step(cfg, w, ev).0.handoffs
    ensures h in w.handoffs || (ev.ReassignBegin? && NewHandoff(w, Step(cfg, w, ev).0, h))
  {
    if ev.CreateTask? {
    } else if ev.ReassignBegin? {
      assert Step(cfg, w, ev) == ReassignBeginStep(w, ev.caller, ev.taskId, cfg.trim(ev.assignee));
      if h !in w.handoffs {
        BegunHandoff(w, ev.caller, ev.taskId, cfg.trim(ev.assignee), h);
      }
    } else {
      if TaskTool(ev) {
        ToolCounts(cfg, w, ev);
      } else {
        OtherCounts(cfg, w, ev);
      }
    }
  }

  lemma StepHandoffs(cfg: Config, w: World, ev: Event)
    requires ConfigOk(cfg) && BaseInv(cfg, w)
    ensures var w' := Step(cfg, w, ev).0; forall h | h in w'.handoffs :: HandoffOk(w', h)
  {
    var w' := Step(cfg, w, ev).0;
    StepNumbered(cfg, w, ev);
    forall h | h in w'.handoffs
      ensures HandoffOk(w', h)
    {
      HandoffSource(cfg, w, ev, h);
      forall i | 0 <= i < |w'.tasks| && w'.tasks[i].handoffId == Some(h.handoffId)
        ensures w'.tasks[i].id == h.taskId
      {
        if i < |w.tasks| {
          var m := StepMove(cfg, w, ev, i);
          HandoffBack(w, w', i, m);
        }
      }
    }
  }

  /** Every locked section keeps the invariant, whatever deliveries and workers do. */
  lemma StepBase(cfg: Config, w: World, ev: Event)
    requires ConfigOk(cfg) && BaseInv(cfg, w) && GoodSpawn(w, ev)
    ensures BaseInv(cfg, Step(cfg, w, ev).0)
  {
    StepMembers(cfg, w, ev);
    StepNumbered(cfg, w, ev);
    StepOneOpen(cfg, w, ev);
    StepTickets(cfg, w, ev);
    StepHandoffs(cfg, w, ev);
  }
}
