/**
 The team record as the plugin keeps it: one mutable object whose methods are the sections that
 run under the team lock. Each method is proved to take exactly the protocol step of TeamProtocol,
 so every run of these methods is a run of that state machine.
 */
module TeamStore {
  import opened Wrappers
  import opened TeamState
  import opened TeamProtocol
  import opened TeamInvariants

  /** Member and task ids are non-empty and unique, and no member key is the captain's (isTeamState). */
  ghost predicate ValidRecord(cfg: Config, members: seq<Member>, tasks: seq<Task>) {
    && (forall k | 0 <= k < |members| :: members[k].id != "" && cfg.key(members[k].name) != CAPTAIN_KEY)
    && (forall j, k | 0 <= j < k < |members| ::
          members[j].id != members[k].id && cfg.key(members[j].name) != cfg.key(members[k].name))
    && (forall i, j | 0 <= i < j < |tasks| :: tasks[i].id != tasks[j].id)
  }

  /** The uniqueness part of isTeamState: one pass over the members, one over the tasks. */
  method IsTeamState(cfg: Config, members: seq<Member>, tasks: seq<Task>) returns (ok: bool)
    ensures ok <==> ValidRecord(cfg, members, tasks)
  {
    var memberIds: set<AgentId> := {};
    var memberKeys: set<Name> := {};
    for k := 0 to |members|
      invariant memberIds == set j | 0 <= j < k :: members[j].id
      invariant memberKeys == set j | 0 <= j < k :: cfg.key(members[j].name)
      invariant ValidRecord(cfg, members[..k], [])
    {
      var key := cfg.key(members[k].name);
      if members[k].id == "" || key == CAPTAIN_KEY || members[k].id in memberIds || key in memberKeys {
        return false;
      }
      memberIds := memberIds + {members[k].id};
      memberKeys := memberKeys + {key};
    }
    var taskIds: set<TaskId> := {};
    for i := 0 to |tasks|
      invariant taskIds == set j | 0 <= j < i :: tasks[j].id
      invariant forall a, b | 0 <= a < b < i :: tasks[a].id != tasks[b].id
      invariant ValidRecord(cfg, members[..|members|], [])
    {
      if tasks[i].id in taskIds {
        return false;
      }
      taskIds := taskIds + {tasks[i].id};
    }
    return true;
  }

  /** Every record a section writes passes the check that the next read applies to it. */
  lemma WrittenRecordsAreReadable(cfg: Config, w: World)
    requires BaseInv(cfg, w)
    ensures ValidRecord(cfg, w.members, w.tasks)
  {
    forall i, j | 0 <= i < j < |w.tasks|
      ensures w.tasks[i].id != w.tasks[j].id
    {
      assert w.tasks[i].id == i + 1 && w.tasks[j].id == j + 1;
    }
  }

  class TeamRecord {
    const cfg: Config
    const captain: AgentId
    var live: bool
    var members: seq<Member>
    var tasks: seq<Task>
    var taskSeq: nat
    var parked: map<AgentId, Token>
    var nextToken: Token
    ghost var tickets: set<Ticket>
    ghost var handoffs: set<Handoff>

    ghost function State(): World
      reads this
    {
      World(captain, live, members, tasks, taskSeq, parked, tickets, handoffs, nextToken)
    }

    /** agent_teams_create. */
    constructor (cfg: Config, captain: AgentId)
      ensures State() == Initial(captain) && this.cfg == cfg
    {
      this.cfg, this.captain, this.live := cfg, captain, true;
      members, tasks, taskSeq := [], [], 0;
      parked, nextToken := map[], 0;
      tickets, handoffs := {}, {};
    }

    // ---- Attempts (state.ts) ------------------------------------------------------------------

    method ActivateTaskAttempt(i: nat, assignee: Name) returns (attemptId: Token)
      requires i < |tasks|
      modifies this`tasks, this`nextToken
      ensures attemptId == old(nextToken) && nextToken == old(nextToken) + 1
      ensures tasks == old(tasks)[i := ActivateAttempt(old(tasks)[i], assignee, attemptId)]
    {
      attemptId := nextToken;
      nextToken := nextToken + 1;
      tasks := tasks[i := tasks[i].(status := Claimed)];
      tasks := tasks[i := tasks[i].(assignee := Some(assignee))];
      tasks := tasks[i := tasks[i].(attemptId := Some(attemptId))];
      tasks := tasks[i := tasks[i].(handoffId := None)];
      tasks := tasks[i := tasks[i].(reassigning := false)];
      tasks := tasks[i := tasks[i].(output := None)];
    }

    method BeginTaskAttempt(i: nat, assignee: Name) returns (attemptId: Token)
      requires i < |tasks|
      modifies this`tasks, this`nextToken
      ensures attemptId == old(nextToken) && nextToken == old(nextToken) + 1
      ensures tasks == old(tasks)[i := BeginAttempt(old(tasks)[i], assignee, attemptId)]
    {
      tasks := tasks[i := tasks[i].(attempt := tasks[i].attempt + 1)];
      attemptId := ActivateTaskAttempt(i, assignee);
    }

    method InvalidateTaskAttempt(i: nat, next: Option<Name>, reassigning: bool, handoffId: Token)
      requires i < |tasks|
      modifies this`tasks
      ensures tasks == old(tasks)[i := InvalidateAttempt(old(tasks)[i], next, reassigning, handoffId)]
    {
      tasks := tasks[i := tasks[i].(attemptId := None)];
      tasks := tasks[i := tasks[i].(handoffId := Some(handoffId))];
      tasks := tasks[i := tasks[i].(status := Pending)];
      tasks := tasks[i := tasks[i].(assignee := next)];
      tasks := tasks[i := tasks[i].(reassigning := reassigning)];
      tasks := tasks[i := tasks[i].(output := None)];
    }

    // ---- Membership (tools.ts) ----------------------------------------------------------------

    /** `child` is what selecting a model and spawning the child came to. */
    method AddMember(caller: AgentId, givenName: Name, child: Option<AgentId>) returns (r: Reply)
      modifies this
      ensures (State(), r) == AddMemberStep(cfg, old(State()), caller, cfg.trim(givenName), child)
    {
      if !live { return Refused(TeamGone); }
      if caller != captain { return Refused(NotCaptain); }
      var name := cfg.trim(givenName);
      if name == "" { return Refused(EmptyName); }
      if cfg.key(name) == CAPTAIN_KEY { return Refused(ReservedName); }
      for k := 0 to |members|
        invariant forall j | 0 <= j < k :: cfg.key(members[j].name) != cfg.key(name)
      {
        if cfg.key(members[k].name) == cfg.key(name) { return Refused(DuplicateName); }
      }
      if ActiveMembers(members) >= cfg.maxMembers { return Refused(MemberCapReached); }
      if child.None? { return Refused(SpawnFailed); }
      members := members + [Member(child.value, name, Idle)];
      r := Added(child.value);
    }

    /** The requeue loop of member removal and of deletion; position i reserves the id `base + i`. */
    method RequeueTasksOf(name: Name) returns (requeued: seq<TaskId>)
      modifies this`tasks, this`nextToken
      ensures tasks == Requeue(old(tasks), name, old(nextToken))
      ensures nextToken == old(nextToken) + |old(tasks)|
      ensures requeued == RequeuedIds(old(tasks), name)
    {
      var base := nextToken;
      requeued := [];
      for i := 0 to |tasks|
        invariant |tasks| == |old(tasks)| && nextToken == base == old(nextToken)
        invariant forall j | 0 <= j < i :: tasks[j] == Requeue(old(tasks), name, base)[j]
        invariant forall j | i <= j < |tasks| :: tasks[j] == old(tasks)[j]
        invariant requeued == RequeuedIds(old(tasks)[..i], name)
      {
        assert old(tasks)[..i + 1][..i] == old(tasks)[..i];
        if tasks[i].assignee == Some(name) && tasks[i].status != Completed {
          requeued := requeued + [tasks[i].id];
          InvalidateTaskAttempt(i, None, false, base + i);
        }
      }
      assert old(tasks)[..|old(tasks)|] == old(tasks);
      nextToken := base + |tasks|;
    }

    method RemoveMember(caller: AgentId, name: Name) returns (r: Reply)
      modifies this
      ensures (State(), r) == RemoveMemberStep(old(State()), caller, name)
    {
      if !live { return Refused(TeamGone); }
      if caller != captain { return Refused(NotCaptain); }
      var found := FindActive(members, name);
      if found.None? { return Refused(NoSuchMember); }
      var requeued := RequeueTasksOf(name);
      members := members[found.value := members[found.value].(status := Removed)];
      r := Requeued(requeued);
    }

    /** First section of deletion: every member that is still there is retired. */
    method RetireAll(caller: AgentId) returns (r: Reply)
      modifies this
      ensures (State(), r) == RetireAllStep(old(State()), caller)
    {
      if !live { return Refused(TeamGone); }
      if caller != captain { return Refused(NotCaptain); }
      for k := 0 to |members|
        invariant |members| == |old(members)|
        invariant RetireFrom(State(), k) == RetireFrom(old(State()), 0)
      {
        if members[k].status != Removed {
          members := members[k := members[k].(status := Removed)];
          var _ := RequeueTasksOf(members[k].name);
        }
      }
      r := Quiet;
    }

    method Archive(caller: AgentId) returns (r: Reply)
      modifies this
      ensures (State(), r) == ArchiveStep(old(State()), caller)
    {
      if !live { return Refused(TeamGone); }
      if caller != captain { return Refused(NotCaptain); }
      live := false;
      r := Quiet;
    }

    // ---- Tasks (tools.ts) -----------------------------------------------------------------------

    method CreateTask(caller: AgentId, dependencies: seq<TaskId>, owner: Option<Name>) returns (r: Reply)
      modifies this
      ensures (State(), r) == CreateTaskStep(old(State()), caller, dependencies, owner)
    {
      if !live { return Refused(TeamGone); }
      if caller != captain { return Refused(NotCaptain); }
      for k := 0 to |dependencies|
        invariant forall j | 0 <= j < k :: FindTask(tasks, dependencies[j]).Some?
      {
        if FindTask(tasks, dependencies[k]).None? {
          assert MissingDependency(tasks, dependencies) == Some(k);
          return Refused(NoSuchDependency(dependencies[k]));
        }
      }
      assert MissingDependency(tasks, dependencies) == None;
      if owner.Some? && FindActive(members, owner.value).None? { return Refused(NoSuchMember); }
      var task := Task(taskSeq + 1, Pending, owner, dependencies, 0, None, None, false, None);
      taskSeq := taskSeq + 1;
      tasks := tasks + [task];
      r := Created(task.id);
    }

    method ReassignBegin(caller: AgentId, taskId: TaskId, assignee: Name) returns (r: Reply)
      modifies this
      ensures (State(), r) == ReassignBeginStep(old(State()), caller, taskId, cfg.trim(assignee))
    {
      var target := cfg.trim(assignee);
      if target == "" { return Refused(EmptyName); }
      if !live { return Refused(TeamGone); }
      if caller != captain { return Refused(NotCaptain); }
      var found := FindTask(tasks, taskId);
      if found.None? { return Refused(NoSuchTask); }
      var i := found.value;
      if tasks[i].status == Completed { return Refused(CompletedImmutable); }
      if tasks[i].reassigning { return Refused(AlreadyReassigning); }
      if target != CAPTAIN_KEY {
        if FindActive(members, target).None? { return Refused(NoSuchMember); }
        var busy := OpenTaskOf(tasks, target, Some(taskId));
        if busy.Some? { return Refused(MemberBusy(tasks[busy.value].id)); }
      }
      var h := Handoff(taskId, nextToken, target);
      nextToken := nextToken + 1;
      InvalidateTaskAttempt(i, Some(target), true, h.handoffId);
      handoffs := handoffs + {h};
      r := HandoffOpen(h);
    }

    method ReassignCommit(h: Handoff, quiesced: bool) returns (r: Reply)
      requires h in handoffs
      modifies this
      ensures (State(), r) == ReassignCommitStep(old(State()), h, quiesced)
    {
      handoffs := handoffs - {h};
      if !live { return Refused(TeamGone); }
      var found := FindTask(tasks, h.taskId);
      if found.None? { return Refused(NoSuchTask); }
      var i := found.value;
      if tasks[i].handoffId != Some(h.handoffId) || tasks[i].assignee != Some(h.target) || !tasks[i].reassigning {
        return Refused(ChangedDuringReassignment);
      }
      tasks := tasks[i := tasks[i].(reassigning := false)];
      if quiesced && h.target == CAPTAIN_KEY {
        var attemptId := BeginTaskAttempt(i, CAPTAIN_KEY);
        assert tasks == old(tasks)[i := BeginAttempt(old(tasks)[i], CAPTAIN_KEY, attemptId)];
      }
      r := Holding(tasks[i].status, h.target, tasks[i].attempt, tasks[i].attemptId);
    }

    method ClaimTask(caller: AgentId, taskId: TaskId, owner: Option<Name>) returns (r: Reply)
      modifies this
      ensures (State(), r) == ClaimStep(old(State()), caller, taskId, owner)
    {
      if !live { return Refused(TeamGone); }
      var identity := Identify(caller);
      if identity.None? { return Refused(NotParticipant); }
      var found := FindTask(tasks, taskId);
      if found.None? { return Refused(NoSuchTask); }
      var i := found.value;
      var task := tasks[i];
      if task.reassigning { return Refused(BeingReassigned); }
      var assignee := task.assignee;
      if identity.value.CaptainIdentity? {
        if owner.Some? {
          if FindActive(members, owner.value).None? { return Refused(NoSuchMember); }
          assignee := owner;
        }
      } else {
        if owner.Some? { return Refused(MemberNamedAssignee); }
        if assignee.Some? && assignee != Some(identity.value.name) { return Refused(AssignedElsewhere); }
        assignee := Some(identity.value.name);
      }
      if task.status == Claimed || task.status == InProgress {
        if assignee.None? || task.assignee != assignee { return Refused(AlreadyClaimed); }
        return Holding(task.status, assignee.value, task.attempt, task.attemptId);
      }
      var pending := Unsatisfied(tasks, task.dependencies);
      if pending != [] { return Refused(Blocked(pending)); }
      if !TransitionAllowed(task.status, Claimed) { return Refused(BadTransition); }
      if assignee.None? { return Refused(NeedsAssignee); }
      var busy := OpenTaskOf(tasks, assignee.value, Some(taskId));
      if busy.Some? { return Refused(MemberBusy(tasks[busy.value].id)); }
      var attemptId := BeginTaskAttempt(i, assignee.value);
      r := Holding(tasks[i].status, assignee.value, tasks[i].attempt, Some(attemptId));
    }

    /** participantIdentityOf. */
    method Identify(agent: AgentId) returns (who: Option<Identity>)
      ensures who == IdentityOf(State(), agent)
    {
      if captain == agent { return Some(CaptainIdentity); }
      var k := Find(members, (m: Member) => m.id == agent && m.status != Removed);
      who := if k.None? then None else Some(MemberIdentity(members[k.value].name));
    }

    method UpdateTask(caller: AgentId, taskId: TaskId, status: Option<Status>, output: Option<string>,
                      attemptId: Option<Token>) returns (r: Reply)
      modifies this
      ensures (State(), r) == UpdateStep(old(State()), caller, taskId, status, output, attemptId)
    {
      if status == Some(Pending) || status == Some(Claimed) { return Refused(NotAnUpdateStatus); }
      if !live { return Refused(TeamGone); }
      var identity := Identify(caller);
      if identity.None? { return Refused(NotParticipant); }
      var found := FindTask(tasks, taskId);
      if found.None? { return Refused(NoSuchTask); }
      var i := found.value;
      var task := tasks[i];
      if identity.value.CaptainIdentity? {
        if task.assignee.Some? && task.assignee != Some(CAPTAIN_KEY) { return Refused(OwnedByMember); }
      } else {
        if task.assignee != Some(identity.value.name) { return Refused(AssignedElsewhere); }
        if task.attemptId.Some? && attemptId != task.attemptId { return Refused(StaleAttempt); }
      }
      if task.status.Terminal() {
        var sameStatus := status.None? || status == Some(task.status);
        var sameOutput := output.None? || output == task.output;
        if !sameStatus || !sameOutput { return Refused(TerminalImmutable); }
        return Updated(task.status, task.attempt, task.attemptId, task.output);
      }
      if status.Some? {
        if !TransitionAllowed(task.status, status.value) { return Refused(BadTransition); }
        tasks := tasks[i := tasks[i].(status := status.value)];
      }
      if output.Some? {
        tasks := tasks[i := tasks[i].(output := output)];
      }
      assert tasks == old(tasks)[i := tasks[i]];
      r := Updated(tasks[i].status, tasks[i].attempt, tasks[i].attemptId, tasks[i].output);
    }

    // ---- Scheduler (scheduler.ts) ----------------------------------------------------------------

    method Dispatch(name: Name, available: bool) returns (r: Reply)
      modifies this
      ensures (State(), r) == DispatchStep(old(State()), name, available)
    {
      r := Quiet;
      if !live { return; }
      var found := FindActive(members, name);
      if found.None? { return; }
      var k := found.value;
      var member := members[k];
      if member.id == "" || !available { return; }
      var owned := OpenTaskOf(tasks, member.name, None);
      var chosen: Option<nat> := None;
      if owned.Some? {
        var attemptId := tasks[owned.value].attemptId;
        if attemptId.None? || member.id !in parked || attemptId.value != parked[member.id] {
          chosen := owned;
        }
      } else {
        chosen := NextReady(tasks, member.name);
      }
      if chosen.None? {
        if member.status != Idle {
          members := members[k := member.(status := Idle)];
        }
        return;
      }
      assert chosen.value < |tasks|;
      var i := chosen.value;
      var previousAssignee := tasks[i].assignee;
      var attemptId := BeginTaskAttempt(i, member.name);
      parked := parked - {member.id};
      members := members[k := member.(status := Working)];
      var ticket := Ticket(tasks[i].id, member.name, member.id, tasks[i].attempt, attemptId, previousAssignee);
      tickets := tickets + {ticket};
      r := Dispatched(ticket);
    }

    /** Undo exactly our own failed dispatch; a newer capability wins. */
    method DispatchRejected(ticket: Ticket)
      requires ticket in tickets
      modifies this
      ensures State() == RejectedStep(old(State()), ticket).0
    {
      tickets := tickets - {ticket};
      if !live { return; }
      var found := FindTask(tasks, ticket.taskId);
      if found.None? || tasks[found.value].attemptId != Some(ticket.attemptId) { return; }
      var i := found.value;
      tasks := tasks[i := tasks[i].(status := Pending)];
      tasks := tasks[i := tasks[i].(assignee := ticket.previousAssignee)];
      tasks := tasks[i := tasks[i].(attemptId := None)];
      tasks := tasks[i := tasks[i].(handoffId := None)];
      tasks := tasks[i := tasks[i].(reassigning := false)];
      var k := Find(members, (m: Member) => m.name == ticket.memberName);
      if k.Some? && members[k.value].status != Removed {
        members := members[k.value := members[k.value].(status := Idle)];
      }
    }

    method DispatchAccepted(ticket: Ticket)
      modifies this
      ensures State() == AcceptedStep(old(State()), ticket).0
    {
      tickets := tickets - {ticket};
    }

    /** syncMemberStatus before it takes the lock: whose session is it? */
    method MemberLookup(agentId: AgentId)
      modifies this
      ensures State() == LookupStep(old(State()), agentId).0
    {
      if !live {
        parked := parked - {agentId};
        return;
      }
      if captain == agentId { return; }
      if Find(members, (m: Member) => m.id == agentId && m.status != Removed).None? {
        parked := parked - {agentId};
      }
    }

    /** syncMemberStatus under the lock. */
    method MemberActivity(agentId: AgentId, running: bool)
      modifies this
      ensures State() == ActivityStep(old(State()), agentId, running).0
    {
      if !live { return; }
      var found := Find(members, (m: Member) => m.id == agentId && m.status != Removed);
      if found.None? { return; }
      var k := found.value;
      var next := if running then Working else Idle;
      if next == Idle {
        var owned := OpenTaskOf(tasks, members[k].name, None);
        if owned.None? || tasks[owned.value].attemptId.None? {
          parked := parked - {agentId};
        } else {
          parked := parked[agentId := tasks[owned.value].attemptId.value];
        }
      } else {
        parked := parked - {agentId};
      }
      if members[k].status != next {
        members := members[k := members[k].(status := next)];
      }
    }

    /** Everything that lived only in the process is gone. */
    method Restart()
      modifies this
      ensures State() == RestartStep(old(State())).0
    {
      parked := map[];
      tickets, handoffs := {}, {};
    }
  }
}
