/**
 What each locked section is for, said of the record alone: exactly when it takes effect, what it then does to tasks,
 members and capabilities, and what it answers. Nothing here mentions the branches of a transition.
 */
module TeamRules {
  import opened Wrappers
  import opened TeamState
  import opened TeamProtocol
  import opened TeamInvariants

  // ---- Who speaks, and of which task ---------------------------------------------------------------

  /** Session `agent` is a member called `name` who is still there. */
  ghost predicate SpeaksFor(w: World, agent: AgentId, name: Name) {
    exists k | 0 <= k < |w.members| ::
      w.members[k].id == agent && w.members[k].name == name && w.members[k].status != Removed
  }

  lemma WhoSpeaks(cfg: Config, w: World, agent: AgentId, name: Name)
    requires RosterOk(cfg, w.captain, w.members)
    ensures IdentityOf(w, agent) == Some(CaptainIdentity) <==> agent == w.captain
    ensures IdentityOf(w, agent) == Some(MemberIdentity(name)) <==> SpeaksFor(w, agent, name)
  {
  }

  lemma TaskNumbered(tasks: seq<Task>, id: TaskId)
    requires Numbered(tasks)
    ensures FindTask(tasks, id) == if 1 <= id <= |tasks| then Some(id - 1) else None
  {
    if 1 <= id <= |tasks| {
      assert tasks[id - 1].id == id;
    }
    var found := FindTask(tasks, id);
    if found.Some? {
      assert tasks[found.value].id == found.value + 1;
    }
  }

  lemma ActiveIsFound(members: seq<Member>, name: Name)
    ensures FindActive(members, name).Some? <==> IsActive(members, name)
  {
  }

  // ---- Claiming ------------------------------------------------------------------------------------

  /** For whom a claim is: the captain names an active member or means the assignee, a member means itself. */
  ghost predicate ClaimFor(w: World, caller: AgentId, owner: Option<Name>, t: Task, name: Name) {
    if caller == w.captain then
      if owner.Some? then owner == Some(name) && IsActive(w.members, name) else t.assignee == Some(name)
    else
      SpeaksFor(w, caller, name) && owner.None? && (t.assignee.None? || t.assignee == Some(name))
  }

  ghost predicate MayClaim(w: World, caller: AgentId, owner: Option<Name>, i: nat, name: Name)
    requires i < |w.tasks|
  {
    w.tasks[i].status == Pending && !w.tasks[i].reassigning && DepsDone(w.tasks, i) &&
    ClaimFor(w, caller, owner, w.tasks[i], name) && FreeFor(w.tasks, name, i)
  }

  /** The task under a fresh capability. */
  function Taken(t: Task, name: Name, token: Token): Task {
    Task(t.id, Claimed, Some(name), t.dependencies, t.attempt + 1, Some(token), None, false, None)
  }

  /** A claim that may be made is made, under a fresh capability that the reply hands over. */
  lemma ClaimTakes(cfg: Config, w: World, caller: AgentId, owner: Option<Name>, i: nat, name: Name)
    requires BaseInv(cfg, w) && w.live && i < |w.tasks| && MayClaim(w, caller, owner, i, name)
    ensures Step(cfg, w, ClaimTask(caller, i + 1, owner)) ==
      (w.(tasks := w.tasks[i := Taken(w.tasks[i], name, w.nextToken)], nextToken := w.nextToken + 1),
       Holding(Claimed, name, w.tasks[i].attempt + 1, Some(w.nextToken)))
  {
    WhoSpeaks(cfg, w, caller, name);
    TaskNumbered(w.tasks, i + 1);
    DepsCheck(w.tasks, i);
    NotBusy(w.tasks, name, i);
  }

  lemma ClaimChanges(cfg: Config, w: World, caller: AgentId, taskId: TaskId, owner: Option<Name>, i: nat)
    returns (name: Name)
    requires BaseInv(cfg, w) && i < |w.tasks|
    requires |ClaimStep(w, caller, taskId, owner).0.tasks| == |w.tasks|
    requires ClaimStep(w, caller, taskId, owner).0.tasks[i] != w.tasks[i]
    ensures w.live && taskId == i + 1 && MayClaim(w, caller, owner, i, name)
  {
    var who := IdentityOf(w, caller).value;
    name := ClaimNeeds(cfg, w, caller, taskId, owner, i);
    ClaimedFor(cfg, w, caller, taskId, owner, i, name);
    DepsCheck(w.tasks, i);
    NotBusy(w.tasks, name, i);
  }

  lemma ClaimedFor(cfg: Config, w: World, caller: AgentId, taskId: TaskId, owner: Option<Name>, i: nat, name: Name)
    requires BaseInv(cfg, w) && i < |w.tasks|
    requires ClaimStep(w, caller, taskId, owner).0.tasks == w.tasks[i := BeginAttempt(w.tasks[i], name, w.nextToken)]
    requires w.tasks[i].status == Pending
    ensures w.live && taskId == i + 1 && ClaimFor(w, caller, owner, w.tasks[i], name)
  {
    TaskNumbered(w.tasks, taskId);
    WhoSpeaks(cfg, w, caller, name);
    var after := w.tasks[i := BeginAttempt(w.tasks[i], name, w.nextToken)];
    assert after[i].status == Claimed && after[i].assignee == Some(name);
  }

  /** A claim changes a task exactly when its caller may claim it for somebody. */
  lemma ClaimExactly(cfg: Config, w: World, caller: AgentId, taskId: TaskId, owner: Option<Name>, i: nat)
    requires ConfigOk(cfg) && BaseInv(cfg, w) && i < |w.tasks|
    ensures |Step(cfg, w, ClaimTask(caller, taskId, owner)).0.tasks| == |w.tasks|
    ensures Step(cfg, w, ClaimTask(caller, taskId, owner)).0.tasks[i] != w.tasks[i] <==>
      w.live && taskId == i + 1 && exists name :: MayClaim(w, caller, owner, i, name)
  {
    var w' := Step(cfg, w, ClaimTask(caller, taskId, owner)).0;
    var m := ClaimMove(cfg, w, caller, taskId, owner, i);
    if w'.tasks[i] != w.tasks[i] {
      var name := ClaimChanges(cfg, w, caller, taskId, owner, i);
    } else if w.live && taskId == i + 1 {
      forall name ensures !MayClaim(w, caller, owner, i, name) {
        if MayClaim(w, caller, owner, i, name) {
          ClaimTakes(cfg, w, caller, owner, i, name);
        }
      }
    }
  }

  /** A claim of open work changes nothing; its owner, or the captain on its behalf, is told what is held. */
  lemma ClaimAgain(cfg: Config, w: World, caller: AgentId, owner: Option<Name>, i: nat)
    requires BaseInv(cfg, w) && w.live && i < |w.tasks| && w.tasks[i].status.Open() && w.tasks[i].assignee.Some?
    ensures var ((w', r), t) := (Step(cfg, w, ClaimTask(caller, i + 1, owner)), w.tasks[i]);
      w' == w && (r.Refused? || r == Holding(t.status, t.assignee.value, t.attempt, t.attemptId)) &&
      (r.Holding? <==> ClaimFor(w, caller, owner, t, t.assignee.value))
  {
    assert TaskShape(w.tasks[i], w.nextToken);
    WhoSpeaks(cfg, w, caller, w.tasks[i].assignee.value);
    TaskNumbered(w.tasks, i + 1);
  }

  // ---- Updating ------------------------------------------------------------------------------------

  /** How far along a task is; cancelled and failed ones have left the path. */
  function Stage(s: Status): nat {
    match s
    case Pending => 0
    case Claimed => 1
    case InProgress => 2
    case Completed => 3
    case _ => 4
  }

  /** A status stays, goes one stage on, is cancelled before its end, or fails while open. */
  lemma TransitionExactly(current: Status, next: Status)
    ensures TransitionAllowed(current, next) <==>
      next == current ||
      (Stage(current) < 3 &&
       (Stage(next) == Stage(current) + 1 || next == Cancelled || (next == Failed && Stage(current) >= 1)))
  {
  }

  ghost predicate MayUpdate(w: World, caller: AgentId, t: Task, attemptId: Option<Token>) {
    if caller == w.captain then t.assignee.None? || t.assignee == Some(CAPTAIN_KEY)
    else
      t.assignee.Some? && SpeaksFor(w, caller, t.assignee.value) && (t.attemptId.Some? ==> attemptId == t.attemptId)
  }

  /** The update says nothing new of a finished task, or moves an unfinished one where it may go. */
  ghost predicate UpdateFits(t: Task, status: Option<Status>, output: Option<string>) {
    status != Some(Pending) && status != Some(Claimed) &&
    if t.status in {Completed, Failed, Cancelled} then
      (status.None? || status == Some(t.status)) && (output.None? || output == t.output)
    else status.None? || TransitionAllowed(t.status, status.value)
  }

  function Given<T>(now: Option<T>, before: T): T { if now.Some? then now.value else before }

  lemma UpdateAccepted(cfg: Config, w: World, caller: AgentId, i: nat, status: Option<Status>, output: Option<string>,
                       attemptId: Option<Token>)
    requires BaseInv(cfg, w) && i < |w.tasks|
    ensures UpdateStep(w, caller, i + 1, status, output, attemptId).1.Updated? <==>
      w.live && MayUpdate(w, caller, w.tasks[i], attemptId) && UpdateFits(w.tasks[i], status, output)
  {
    if w.tasks[i].assignee.Some? {
      WhoSpeaks(cfg, w, caller, w.tasks[i].assignee.value);
    }
    TaskNumbered(w.tasks, i + 1);
  }

  lemma UpdateDoes(w: World, caller: AgentId, i: nat, status: Option<Status>, output: Option<string>,
                   attemptId: Option<Token>)
    requires Numbered(w.tasks) && i < |w.tasks|
    ensures var ((w', r), t) := (UpdateStep(w, caller, i + 1, status, output, attemptId), w.tasks[i]);
      if r.Updated? then
        var t' := t.(status := Given(status, t.status), output := if output.Some? then output else t.output);
        w' == w.(tasks := w.tasks[i := t']) && r == Updated(t'.status, t.attempt, t.attemptId, t'.output)
      else w' == w && r.Refused?
  {
    TaskNumbered(w.tasks, i + 1);
    assert w.tasks[i := w.tasks[i]] == w.tasks;
  }

  /** An update is accepted exactly from whoever may make it and when it fits, and then does what it says and no more. */
  lemma UpdateExactly(cfg: Config, w: World, caller: AgentId, i: nat, status: Option<Status>, output: Option<string>,
                      attemptId: Option<Token>)
    requires ConfigOk(cfg) && BaseInv(cfg, w) && i < |w.tasks|
    ensures var ((w', r), t) := (Step(cfg, w, UpdateTask(caller, i + 1, status, output, attemptId)), w.tasks[i]);
      if w.live && MayUpdate(w, caller, t, attemptId) && UpdateFits(t, status, output) then
        var t' := t.(status := Given(status, t.status), output := if output.Some? then output else t.output);
        w' == w.(tasks := w.tasks[i := t']) && r == Updated(t'.status, t.attempt, t.attemptId, t'.output)
      else w' == w && r.Refused?
  {
    assert Step(cfg, w, UpdateTask(caller, i + 1, status, output, attemptId)) ==
      UpdateStep(w, caller, i + 1, status, output, attemptId);
    UpdateAccepted(cfg, w, caller, i, status, output, attemptId);
    UpdateDoes(w, caller, i, status, output, attemptId);
  }

  lemma UpdateOfNoTask(cfg: Config, w: World, caller: AgentId, taskId: TaskId, status: Option<Status>,
                       output: Option<string>, attemptId: Option<Token>)
    requires Numbered(w.tasks) && !(1 <= taskId <= |w.tasks|)
    ensures var (w', r) := Step(cfg, w, UpdateTask(caller, taskId, status, output, attemptId)); w' == w && r.Refused?
  {
    TaskNumbered(w.tasks, taskId);
  }

  /** The captain never writes into a member's task, whatever it presents. */
  lemma CaptainSparesMembers(cfg: Config, w: World, taskId: TaskId, status: Option<Status>, output: Option<string>,
                             attemptId: Option<Token>, i: nat)
    requires ConfigOk(cfg) && BaseInv(cfg, w) && i < |w.tasks|
    requires w.tasks[i].assignee.Some? && w.tasks[i].assignee != Some(CAPTAIN_KEY)
    ensures |Step(cfg, w, UpdateTask(w.captain, taskId, status, output, attemptId)).0.tasks| == |w.tasks|
    ensures Step(cfg, w, UpdateTask(w.captain, taskId, status, output, attemptId)).0.tasks[i] == w.tasks[i]
  {
    if 1 <= taskId <= |w.tasks| {
      UpdateExactly(cfg, w, w.captain, taskId - 1, status, output, attemptId);
    } else {
      UpdateOfNoTask(cfg, w, w.captain, taskId, status, output, attemptId);
    }
  }

  // ---- Members -------------------------------------------------------------------------------------

  ghost function Present(members: seq<Member>): set<nat> {
    set k: nat | k < |members| && members[k].status != Removed
  }

  lemma {:induction false} PresentCounted(members: seq<Member>)
    ensures ActiveMembers(members) == |Present(members)|
  {
    if members == [] {
      assert Present(members) == {};
    } else {
      PresentGrows(members[..|members| - 1], members[|members| - 1]);
      assert members == members[..|members| - 1] + [members[|members| - 1]];
      PresentCounted(members[..|members| - 1]);
    }
  }

  lemma PresentGrows(members: seq<Member>, m: Member)
    ensures |Present(members + [m])| == |Present(members)| + if m.status == Removed then 0 else 1
  {
    if m.status == Removed {
      assert Present(members + [m]) == Present(members);
    } else {
      assert Present(members + [m]) == Present(members) + {|members|};
    }
  }

  /** A member is added exactly when the name is new and not the captain's, there is room, and the child was spawned. */
  lemma AddExactly(cfg: Config, w: World, caller: AgentId, givenName: Name, child: Option<AgentId>)
    ensures var ((w', r), name) := (Step(cfg, w, AddMember(caller, givenName, child)), cfg.trim(givenName));
      (r.Added? <==>
        w.live && caller == w.captain && name != "" && cfg.key(name) != CAPTAIN_KEY &&
        (forall m | m in w.members :: cfg.key(m.name) != cfg.key(name)) && |Present(w.members)| < cfg.maxMembers &&
        child.Some?) &&
      (r.Added? ==> r == Added(child.value) && w' == w.(members := w.members + [Member(child.value, name, Idle)])) &&
      (!r.Added? ==> w' == w && r.Refused?)
  {
    PresentCounted(w.members);
  }

  /** Back in the shared pool, under a new handoff generation. */
  ghost predicate Freed(t: Task, t': Task, next: Token) {
    t' == Task(t.id, Pending, None, t.dependencies, t.attempt, None, t'.handoffId, false, None) &&
    t'.handoffId.Some? && t'.handoffId.value >= next
  }

  predicate IsFreed(t: Task, name: Name, id: TaskId) {
    t.id == id && t.assignee == Some(name) && t.status != Completed
  }

  lemma RequeuedLast(tasks: seq<Task>, name: Name, id: TaskId)
    requires tasks != []
    ensures var (front, last) := (tasks[..|tasks| - 1], tasks[|tasks| - 1]);
      id in RequeuedIds(tasks, name) <==> id in RequeuedIds(front, name) || IsFreed(last, name, id)
  {
    var last := tasks[|tasks| - 1];
    var own := if last.assignee == Some(name) && last.status != Completed then [last.id] else [];
    assert RequeuedIds(tasks, name) == RequeuedIds(tasks[..|tasks| - 1], name) + own;
    assert id in own <==> IsFreed(last, name, id);
  }

  lemma {:induction false} RequeuedAre(tasks: seq<Task>, name: Name, id: TaskId)
    ensures id in RequeuedIds(tasks, name) <==> exists t :: t in tasks && IsFreed(t, name, id)
  {
    if tasks != [] {
      var (front, last) := (tasks[..|tasks| - 1], tasks[|tasks| - 1]);
      RequeuedAre(front, name, id);
      RequeuedLast(tasks, name, id);
      assert tasks == front + [last];
    }
  }

  ghost predicate Rising(ids: seq<TaskId>) { forall a, b | 0 <= a < b < |ids| :: ids[a] < ids[b] }

  lemma RisingAppend(ids: seq<TaskId>, id: TaskId)
    requires Rising(ids) && forall a | 0 <= a < |ids| :: ids[a] < id
    ensures Rising(ids + [id]) && Rising(ids + [])
  {
    assert ids + [] == ids;
  }

  lemma {:induction false} RequeuedInOrder(tasks: seq<Task>, name: Name)
    requires forall i, j | 0 <= i < j < |tasks| :: tasks[i].id < tasks[j].id
    ensures Rising(RequeuedIds(tasks, name))
  {
    if tasks != [] {
      var (front, last) := (tasks[..|tasks| - 1], tasks[|tasks| - 1]);
      RequeuedInOrder(front, name);
      var ids := RequeuedIds(front, name);
      forall a | 0 <= a < |ids| ensures ids[a] < last.id {
        RequeuedAre(front, name, ids[a]);
        var t :| t in front && IsFreed(t, name, ids[a]);
        var i :| 0 <= i < |front| && front[i] == t;
        assert tasks[i].id < tasks[|tasks| - 1].id;
      }
      RisingAppend(ids, last.id);
    }
  }

  lemma ListedExactly(tasks: seq<Task>, name: Name, i: nat)
    requires Numbered(tasks) && i < |tasks|
    ensures tasks[i].id in RequeuedIds(tasks, name) <==> tasks[i].assignee == Some(name) && tasks[i].status != Completed
  {
    RequeuedAre(tasks, name, tasks[i].id);
    assert tasks[i] in tasks;
    forall t | t in tasks && t.id == tasks[i].id ensures t == tasks[i] {
      var a :| 0 <= a < |tasks| && tasks[a] == t;
    }
  }

  /** Removal takes effect exactly for the captain and a member who is there; nobody else's presence changes. */
  lemma RemoveExactly(cfg: Config, w: World, caller: AgentId, name: Name)
    requires BaseInv(cfg, w)
    ensures var (w', r) := Step(cfg, w, RemoveMember(caller, name));
      (r.Requeued? <==> w.live && caller == w.captain && IsActive(w.members, name)) &&
      (!r.Requeued? ==> w' == w && r.Refused?) &&
      (r.Requeued? ==>
        !IsActive(w'.members, name) && |w'.members| == |w.members| &&
        (forall k | 0 <= k < |w.members| && w.members[k].name != name :: w'.members[k] == w.members[k]))
  {
    ActiveIsFound(w.members, name);
  }

  /** Then exactly the member's unfinished tasks are freed, and listed in order. */
  lemma RemoveFrees(cfg: Config, w: World, caller: AgentId, name: Name)
    requires BaseInv(cfg, w) && w.live && caller == w.captain && IsActive(w.members, name)
    ensures var (w', r) := Step(cfg, w, RemoveMember(caller, name));
      r.Requeued? && |w'.tasks| == |w.tasks| && Rising(r.ids) &&
      forall i | 0 <= i < |w.tasks| ::
        if w.tasks[i].assignee == Some(name) && w.tasks[i].status != Completed
        then Freed(w.tasks[i], w'.tasks[i], w.nextToken) && w.tasks[i].id in r.ids
        else w'.tasks[i] == w.tasks[i] && w.tasks[i].id !in r.ids
  {
    ActiveIsFound(w.members, name);
    RequeuedInOrder(w.tasks, name);
    forall i: nat | i < |w.tasks|
      ensures w.tasks[i].id in RequeuedIds(w.tasks, name) <==>
        w.tasks[i].assignee == Some(name) && w.tasks[i].status != Completed
    {
      ListedExactly(w.tasks, name, i);
    }
  }

  /** Somebody called `name` is still there, at position `k` or later. */
  ghost predicate ActiveFrom(members: seq<Member>, k: nat, name: Name) {
    exists j | k <= j < |members| :: members[j].name == name && members[j].status != Removed
  }

  lemma ActiveNext(members: seq<Member>, k: nat, name: Name, m: Member)
    requires k < |members| && (members[k].name != name || members[k].status == Removed)
    ensures ActiveFrom(members, k, name) <==> ActiveFrom(members[k := m], k + 1, name)
  {
    if ActiveFrom(members, k, name) {
      var j :| k <= j < |members| && members[j].name == name && members[j].status != Removed;
      assert members[k := m][j] == members[j];
    }
  }

  lemma {:induction false} RetireKeeps(w: World, k: nat, i: nat)
    requires k <= |w.members| && i < |w.tasks| && (w.tasks[i].assignee.None? || w.tasks[i].status == Completed)
    ensures i < |RetireFrom(w, k).tasks| && RetireFrom(w, k).tasks[i] == w.tasks[i]
    decreases |w.members| - k
  {
    if k < |w.members| {
      RetireKeeps(if w.members[k].status == Removed then w else RetireOne(w, k), k + 1, i);
    }
  }

  /** One member retired. */
  function RetireOne(w: World, k: nat): World
    requires k < |w.members|
  {
    WithPresence(w, k, Removed).(tasks := Requeue(w.tasks, w.members[k].name, w.nextToken),
                                 nextToken := w.nextToken + |w.tasks|)
  }

  lemma {:induction false} RetireFrees(w: World, k: nat, i: nat)
    requires k <= |w.members| && i < |w.tasks| && w.tasks[i].assignee.Some? && w.tasks[i].status != Completed
    ensures i < |RetireFrom(w, k).tasks|
    ensures var (t, t') := (w.tasks[i], RetireFrom(w, k).tasks[i]);
      if ActiveFrom(w.members, k, t.assignee.value) then Freed(t, t', w.nextToken) else t' == t
    decreases |w.members| - k
  {
    if k < |w.members| {
      var name := w.tasks[i].assignee.value;
      if w.members[k].status == Removed {
        ActiveNext(w.members, k, name, w.members[k]);
        assert w.members[k := w.members[k]] == w.members;
        RetireFrees(w, k + 1, i);
      } else {
        var w1 := RetireOne(w, k);
        if w.members[k].name == name {
          assert ActiveFrom(w.members, k, name);
          RetireKeeps(w1, k + 1, i);
        } else {
          ActiveNext(w.members, k, name, w1.members[k]);
          RetireFrees(w1, k + 1, i);
        }
      }
    }
  }

  /** Retiring everybody frees exactly the unfinished tasks of those who were there, and nobody is left. */
  lemma RetireExactly(cfg: Config, w: World, caller: AgentId, i: nat)
    requires i < |w.tasks| && w.live && caller == w.captain
    ensures var w' := Step(cfg, w, RetireAll(caller)).0;
      i < |w'.tasks| && (forall m | m in w'.members :: m.status == Removed) &&
      if w.tasks[i].status != Completed && w.tasks[i].assignee.Some? && IsActive(w.members, w.tasks[i].assignee.value)
      then Freed(w.tasks[i], w'.tasks[i], w.nextToken) else w'.tasks[i] == w.tasks[i]
  {
    RetireCounts(w, 0);
    if w.tasks[i].status != Completed && w.tasks[i].assignee.Some? {
      RetireFrees(w, 0, i);
    } else {
      RetireKeeps(w, 0, i);
    }
  }

  // ---- Creating and reassigning ----------------------------------------------------------------------

  /** A task is created exactly by the captain, on known dependencies and for somebody who is there, if for anybody. */
  lemma CreateExactly(cfg: Config, w: World, caller: AgentId, dependencies: seq<TaskId>, owner: Option<Name>)
    requires BaseInv(cfg, w)
    ensures var (w', r) := Step(cfg, w, CreateTask(caller, dependencies, owner));
      (r.Created? <==>
        w.live && caller == w.captain && (forall d | d in dependencies :: 1 <= d <= |w.tasks|) &&
        (owner.Some? ==> IsActive(w.members, owner.value))) &&
      (r.Created? ==>
        r == Created(|w.tasks| + 1) && w' == w.(taskSeq := |w.tasks| + 1, tasks := w.tasks +
          [Task(|w.tasks| + 1, Pending, owner, dependencies, 0, None, None, false, None)])) &&
      (!r.Created? ==> w' == w && r.Refused?)
  {
    if owner.Some? {
      ActiveIsFound(w.members, owner.value);
    }
    var missing := MissingDependency(w.tasks, dependencies);
    forall d | d in dependencies ensures FindTask(w.tasks, d).Some? <==> 1 <= d <= |w.tasks| {
      TaskNumbered(w.tasks, d);
    }
    if missing.None? {
      forall d | d in dependencies ensures 1 <= d <= |w.tasks| {
        var k :| 0 <= k < |dependencies| && dependencies[k] == d;
      }
    } else {
      assert dependencies[missing.value] in dependencies;
    }
  }

  /** A reassignment begins exactly for a task that is not completed or reserved and a target that is there and free. */
  lemma ReassignExactly(cfg: Config, w: World, caller: AgentId, i: nat, assignee: Name)
    requires BaseInv(cfg, w) && i < |w.tasks|
    ensures var (t, target, h) := (w.tasks[i], cfg.trim(assignee), Handoff(i + 1, w.nextToken, cfg.trim(assignee)));
      var (w', r) := Step(cfg, w, ReassignBegin(caller, i + 1, assignee));
      (r.HandoffOpen? <==>
        w.live && caller == w.captain && target != "" && t.status != Completed && !t.reassigning &&
        (target == CAPTAIN_KEY || (IsActive(w.members, target) && FreeFor(w.tasks, target, i)))) &&
      (r.HandoffOpen? ==>
        r == HandoffOpen(h) && w' == w.(handoffs := w.handoffs + {h}, nextToken := w.nextToken + 1, tasks := w.tasks[i :=
          Task(i + 1, Pending, Some(target), t.dependencies, t.attempt, None, Some(w.nextToken), true, None)])) &&
      (!r.HandoffOpen? ==> w' == w && r.Refused?)
  {
    var target := cfg.trim(assignee);
    ActiveIsFound(w.members, target);
    TaskNumbered(w.tasks, i + 1);
    NotBusy(w.tasks, target, i);
    assert w.tasks[i].id == i + 1;
  }

  /** Phase two ends the reservation it opened, and takes the task into work for a captain once the old owner rests. */
  lemma CommitExactly(cfg: Config, w: World, h: Handoff, quiesced: bool, i: nat)
    requires BaseInv(cfg, w) && i < |w.tasks| && h.taskId == i + 1 && h in w.handoffs
    ensures var (w', r) := Step(cfg, w, ReassignCommit(h, quiesced));
      var t := w.tasks[i];
      var stands := w.live && t.handoffId == Some(h.handoffId) && t.assignee == Some(h.target) && t.reassigning;
      var rest := w.(handoffs := w.handoffs - {h});
      if !stands then w' == rest && r.Refused?
      else if quiesced && h.target == CAPTAIN_KEY then
        w' == rest.(tasks := w.tasks[i := Taken(t, CAPTAIN_KEY, w.nextToken)], nextToken := w.nextToken + 1) &&
        r == Holding(Claimed, CAPTAIN_KEY, t.attempt + 1, Some(w.nextToken))
      else
        w' == rest.(tasks := w.tasks[i := t.(reassigning := false)]) &&
        r == Holding(t.status, h.target, t.attempt, t.attemptId)
  {
    TaskNumbered(w.tasks, i + 1);
  }
}
