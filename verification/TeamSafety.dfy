/**
 Safety over whole runs of the AgentTeams protocol.

 The one hypothesis that is not free is `Clean`: no failed delivery is rolled back after the
 task it dispatched has completed. `CompletedFrozenExactly` shows that it is exactly the
 condition under which completed tasks are immutable, and `LateRollbackBreaksSafety` is a run
 that violates it.
 */
module TeamSafety {
  import opened Wrappers
  import opened TeamState
  import opened TeamProtocol
  import opened TeamInvariants

  // ---- One section ----------------------------------------------------------------------------

  /** A failed delivery finds its task not yet completed. */
  ghost predicate Clean(w: World, ev: Event) {
    ev.DispatchRejected? && w.live && ev.ticket in w.tickets ==>
      forall i | 0 <= i < |w.tasks| && w.tasks[i].attemptId == Some(ev.ticket.attemptId) ::
        w.tasks[i].status != Completed
  }

  ghost predicate CompletedFrozen(w: World, w': World) {
    |w.tasks| <= |w'.tasks| &&
    forall i | 0 <= i < |w.tasks| && w.tasks[i].status == Completed :: w'.tasks[i] == w.tasks[i]
  }

  /** Work of a member was only ever started, or is done, on top of completed dependencies. */
  ghost predicate DepsSafe(tasks: seq<Task>) {
    forall i | 0 <= i < |tasks| && tasks[i].status.Worked() && tasks[i].assignee != Some(CAPTAIN_KEY) ::
      DepsDone(tasks, i)
  }

  /** Unfinished assigned work belongs to the captain or to a member who is still there. */
  ghost predicate NothingHeldByDeparted(w: World) {
    forall i | 0 <= i < |w.tasks| && w.tasks[i].status != Completed && w.tasks[i].assignee.Some? ::
      w.tasks[i].assignee == Some(CAPTAIN_KEY) || IsActive(w.members, w.tasks[i].assignee.value)
  }

  ghost predicate Safe(w: World) { DepsSafe(w.tasks) && NothingHeldByDeparted(w) }

  /** Completed tasks survive a section unchanged if and only if it is not a late rollback. */
  lemma CompletedFrozenExactly(cfg: Config, w: World, ev: Event)
    requires ConfigOk(cfg) && BaseInv(cfg, w)
    ensures CompletedFrozen(w, Step(cfg, w, ev).0) <==> Clean(w, ev)
  {
    var w' := Step(cfg, w, ev).0;
    StepNumbered(cfg, w, ev);
    if Clean(w, ev) {
      forall i | 0 <= i < |w.tasks| && w.tasks[i].status == Completed
        ensures w'.tasks[i] == w.tasks[i]
      {
        var m := StepMove(cfg, w, ev, i);
      }
    } else {
      var i :| 0 <= i < |w.tasks| && w.tasks[i].attemptId == Some(ev.ticket.attemptId)
               && w.tasks[i].status == Completed;
      RollbackTakesEffect(cfg, w, ev.ticket, i);
    }
  }

  lemma RollbackTakesEffect(cfg: Config, w: World, ticket: Ticket, i: nat)
    requires BaseInv(cfg, w) && w.live && ticket in w.tickets
    requires i < |w.tasks| && w.tasks[i].attemptId == Some(ticket.attemptId)
    ensures RejectedStep(w, ticket).0.tasks == w.tasks[i := RolledBack(w.tasks[i], ticket)]
  {
    assert TicketOk(w, ticket);
  }

  /** Removing one member requeues exactly that member's unfinished work. */
  lemma RemoveLeavesNothing(cfg: Config, w: World, caller: AgentId, name: Name)
    requires BaseInv(cfg, w) && NothingHeldByDeparted(w)
    ensures NothingHeldByDeparted(RemoveMemberStep(w, caller, name).0)
  {
    var w' := RemoveMemberStep(w, caller, name).0;
    if w' != w {
      var k := FindActive(w.members, name).value;
      forall i | 0 <= i < |w'.tasks| && w'.tasks[i].status != Completed && w'.tasks[i].assignee.Some?
        ensures w'.tasks[i].assignee == Some(CAPTAIN_KEY) || IsActive(w'.members, w'.tasks[i].assignee.value)
      {
        assert w'.tasks[i] == w.tasks[i];
        var owner := w.tasks[i].assignee.value;
        if owner != CAPTAIN_KEY {
          var j :| 0 <= j < |w.members| && w.members[j].name == owner && w.members[j].status != Removed;
          assert w'.members[j] == w.members[j];
        }
      }
    }
  }

  lemma {:induction false} RetireLeavesNothing(cfg: Config, w: World, k: nat)
    requires k <= |w.members| && NothingHeldByDeparted(w)
    requires forall j | 0 <= j < k :: w.members[j].status == Removed
    requires forall i, j | 0 <= i < j < |w.members| :: w.members[i].name != w.members[j].name
    ensures NothingHeldByDeparted(RetireFrom(w, k))
    decreases |w.members| - k
  {
    if k < |w.members| {
      if w.members[k].status == Removed {
        RetireLeavesNothing(cfg, w, k + 1);
      } else {
        var w1 := WithPresence(w, k, Removed).(tasks := Requeue(w.tasks, w.members[k].name, w.nextToken),
                                               nextToken := w.nextToken + |w.tasks|);
        forall i | 0 <= i < |w1.tasks| && w1.tasks[i].status != Completed && w1.tasks[i].assignee.Some?
          ensures w1.tasks[i].assignee == Some(CAPTAIN_KEY) || IsActive(w1.members, w1.tasks[i].assignee.value)
        {
          assert w1.tasks[i] == w.tasks[i];
          var owner := w.tasks[i].assignee.value;
          if owner != CAPTAIN_KEY {
            var j :| 0 <= j < |w.members| && w.members[j].name == owner && w.members[j].status != Removed;
            assert w1.members[j] == w.members[j];
          }
        }
        RetireLeavesNothing(cfg, w1, k + 1);
      }
    }
  }

  lemma StepHolds(cfg: Config, w: World, ev: Event)
    requires ConfigOk(cfg) && BaseInv(cfg, w) && NothingHeldByDeparted(w) && Clean(w, ev)
    ensures NothingHeldByDeparted(Step(cfg, w, ev).0)
  {
    if ev.RemoveMember? {
      RemoveLeavesNothing(cfg, w, ev.caller, ev.name);
      return;
    }
    if ev.RetireAll? {
      RetireLeavesNothing(cfg, w, 0);
      return;
    }
    var w' := Step(cfg, w, ev).0;
    StepNumbered(cfg, w, ev);
    assert NobodyRemoved(w.members, w'.members) by {
      if !ev.AddMember? {
        StepRoster(cfg, w, ev);
      }
    }
    forall i | 0 <= i < |w'.tasks| && w'.tasks[i].status != Completed && w'.tasks[i].assignee.Some?
      ensures w'.tasks[i].assignee == Some(CAPTAIN_KEY) || IsActive(w'.members, w'.tasks[i].assignee.value)
    {
      var owner := w'.tasks[i].assignee.value;
      if i < |w.tasks| {
        var m := StepMove(cfg, w, ev, i);
        assert m.Undone? ==> TicketOk(w, m.ticket);
      }
      if owner != CAPTAIN_KEY {
        ActiveKept(w.members, w'.members, owner);
      }
    }
  }

  lemma StepDeps(cfg: Config, w: World, ev: Event)
    requires ConfigOk(cfg) && BaseInv(cfg, w) && DepsSafe(w.tasks) && Clean(w, ev)
    ensures DepsSafe(Step(cfg, w, ev).0.tasks)
  {
    var w' := Step(cfg, w, ev).0;
    StepNumbered(cfg, w, ev);
    CompletedFrozenExactly(cfg, w, ev);
    forall i | 0 <= i < |w'.tasks| && w'.tasks[i].status.Worked() && w'.tasks[i].assignee != Some(CAPTAIN_KEY)
      ensures DepsDone(w'.tasks, i)
    {
      var m := StepMove(cfg, w, ev, i);
      assert DepsDone(w.tasks, i);
    }
  }

  /** Exactly when a rollback of a completed task does harm: its old owner has left, or work was built on it. */
  lemma LateRollbackHarms(cfg: Config, w: World, ticket: Ticket, i: nat)
    requires ConfigOk(cfg) && BaseInv(cfg, w) && Safe(w) && w.live && ticket in w.tickets
    requires i < |w.tasks| && w.tasks[i].status == Completed && w.tasks[i].attemptId == Some(ticket.attemptId)
    ensures var w' := RejectedStep(w, ticket).0;
      NothingHeldByDeparted(w') <==>
        ticket.previousAssignee.None? || ticket.previousAssignee == Some(CAPTAIN_KEY) ||
        IsActive(w.members, ticket.previousAssignee.value)
    ensures var w' := RejectedStep(w, ticket).0;
      DepsSafe(w'.tasks) <==>
        forall j | 0 <= j < |w.tasks| && w.tasks[j].status.Worked() && w.tasks[j].assignee != Some(CAPTAIN_KEY) && j != i ::
          i + 1 !in w.tasks[j].dependencies
  {
    var w' := RejectedStep(w, ticket).0;
    RollbackTakesEffect(cfg, w, ticket, i);
    RollbackKeepsRoster(w, ticket);
    RollbackUndoes(w.tasks, ticket, i);
    forall name ensures IsActive(w'.members, name) <==> IsActive(w.members, name) {
      if IsActive(w.members, name) {
        ActiveKept(w.members, w'.members, name);
      } else if IsActive(w'.members, name) {
        ActiveKept(w'.members, w.members, name);
      }
    }
    if ticket.previousAssignee.Some? {
      assert w'.tasks[i].assignee == ticket.previousAssignee && w'.tasks[i].status == Pending;
    }
  }

  lemma RollbackKeepsRoster(w: World, ticket: Ticket)
    ensures var w' := RejectedStep(w, ticket).0;
      NobodyRemoved(w.members, w'.members) && NobodyRemoved(w'.members, w.members)
  {
  }

  /** A rolled back task is no longer a completed dependency; every other one still is or is not as before. */
  lemma RollbackUndoes(tasks: seq<Task>, ticket: Ticket, i: nat)
    requires Numbered(tasks) && DepsSafe(tasks) && i < |tasks| && tasks[i].status == Completed
    ensures DepsSafe(tasks[i := RolledBack(tasks[i], ticket)]) <==>
      forall j | 0 <= j < |tasks| && tasks[j].status.Worked() && tasks[j].assignee != Some(CAPTAIN_KEY) && j != i ::
        i + 1 !in tasks[j].dependencies
  {
    var after := tasks[i := RolledBack(tasks[i], ticket)];
    forall j | 0 <= j < |tasks| && tasks[j].status.Worked() && tasks[j].assignee != Some(CAPTAIN_KEY) && j != i
      ensures DepsDone(after, j) <==> i + 1 !in tasks[j].dependencies
    {
      assert DepsDone(tasks, j) && after[j] == tasks[j];
    }
  }

  // ---- Runs -----------------------------------------------------------------------------------

  /** A history from a newly created team: `ws[k + 1]` is what section `evs[k]` leaves behind. */
  ghost predicate Run(cfg: Config, ws: seq<World>, evs: seq<Event>) {
    && ConfigOk(cfg)
    && |ws| == |evs| + 1
    && ws[0] == Initial(ws[0].captain)
    && forall k {:trigger evs[k]} | 0 <= k < |evs| :: GoodSpawn(ws[k], evs[k]) && ws[k + 1] == Step(cfg, ws[k], evs[k]).0
  }

  ghost predicate CleanRun(ws: seq<World>, evs: seq<Event>)
    requires |ws| == |evs| + 1
  {
    forall k {:trigger evs[k]} | 0 <= k < |evs| :: Clean(ws[k], evs[k])
  }

  lemma {:induction false} RunBase(cfg: Config, ws: seq<World>, evs: seq<Event>, k: nat)
    requires Run(cfg, ws, evs) && k < |ws|
    ensures BaseInv(cfg, ws[k])
  {
    if k > 0 {
      RunBase(cfg, ws, evs, k - 1);
      StepBase(cfg, ws[k - 1], evs[k - 1]);
    }
  }

  lemma {:induction false} RunGrows(cfg: Config, ws: seq<World>, evs: seq<Event>, j: nat, k: nat)
    requires Run(cfg, ws, evs) && j <= k < |ws|
    ensures |ws[j].tasks| <= |ws[k].tasks| && ws[j].nextToken <= ws[k].nextToken
    decreases k - j
  {
    if j < k {
      RunGrows(cfg, ws, evs, j, k - 1);
      RunBase(cfg, ws, evs, k - 1);
      StepCounts(cfg, ws[k - 1], evs[k - 1]);
    }
  }

  lemma {:induction false} RunMembers(cfg: Config, ws: seq<World>, evs: seq<Event>, j: nat, k: nat)
    requires Run(cfg, ws, evs) && j <= k < |ws|
    ensures MembersKept(ws[j], ws[k])
    decreases k - j
  {
    if j < k {
      RunMembers(cfg, ws, evs, j, k - 1);
      RunBase(cfg, ws, evs, k - 1);
      StepMembers(cfg, ws[k - 1], evs[k - 1]);
    }
  }

  /** What section `k` of a run does to task `i`. */
  lemma RunMove(cfg: Config, ws: seq<World>, evs: seq<Event>, k: nat, i: nat) returns (m: Move)
    requires Run(cfg, ws, evs) && k < |evs| && i < |ws[k].tasks|
    ensures |ws[k].tasks| <= |ws[k + 1].tasks| && ws[k].nextToken <= ws[k + 1].nextToken
    ensures MoveOk(ws[k], ws[k + 1], i, m) && MoveSource(ws[k], evs[k], m)
    ensures TaskShape(ws[k].tasks[i], ws[k].nextToken)
  {
    RunBase(cfg, ws, evs, k);
    m := StepMove(cfg, ws[k], evs[k], i);
  }

  lemma {:induction false} RunSafe(cfg: Config, ws: seq<World>, evs: seq<Event>, k: nat)
    requires Run(cfg, ws, evs) && CleanRun(ws, evs) && k < |ws|
    ensures Safe(ws[k])
  {
    if k > 0 {
      RunSafe(cfg, ws, evs, k - 1);
      RunBase(cfg, ws, evs, k - 1);
      StepDeps(cfg, ws[k - 1], evs[k - 1]);
      StepHolds(cfg, ws[k - 1], evs[k - 1]);
    }
  }

  // ---- Main results -----------------------------------------------------------------------------

  lemma {:induction false} CompletedForever(cfg: Config, ws: seq<World>, evs: seq<Event>, j: nat, k: nat, i: nat)
    requires Run(cfg, ws, evs) && CleanRun(ws, evs) && j <= k < |ws| && i < |ws[j].tasks|
    requires ws[j].tasks[i].status == Completed
    ensures i < |ws[k].tasks| && ws[k].tasks[i] == ws[j].tasks[i]
    decreases k - j
  {
    if j < k {
      CompletedForever(cfg, ws, evs, j, k - 1, i);
      RunBase(cfg, ws, evs, k - 1);
      CompletedFrozenExactly(cfg, ws[k - 1], evs[k - 1]);
      assert ws[k] == Step(cfg, ws[k - 1], evs[k - 1]).0 && Clean(ws[k - 1], evs[k - 1]);
    }
  }

  /** Dependency safety: in a clean run members only ever build on completed work, and it stays completed. */
  lemma DependencySafety(cfg: Config, ws: seq<World>, evs: seq<Event>, j: nat, k: nat, i: nat, d: TaskId)
    requires Run(cfg, ws, evs) && CleanRun(ws, evs) && j <= k < |ws| && i < |ws[j].tasks|
    requires ws[j].tasks[i].status.Worked() && ws[j].tasks[i].assignee != Some(CAPTAIN_KEY)
    requires d in ws[j].tasks[i].dependencies
    ensures 1 <= d <= i && ws[j].tasks[d - 1].status == Completed
    ensures d <= |ws[k].tasks| && ws[k].tasks[d - 1] == ws[j].tasks[d - 1]
  {
    RunBase(cfg, ws, evs, j);
    RunSafe(cfg, ws, evs, j);
    assert DepsDone(ws[j].tasks, i);
    CompletedForever(cfg, ws, evs, j, k, d - 1);
  }

  /** A run keeps every completed task exactly when it is clean. */
  lemma RunFrozenExactly(cfg: Config, ws: seq<World>, evs: seq<Event>)
    requires Run(cfg, ws, evs)
    ensures CleanRun(ws, evs) <==> forall k | 0 <= k < |evs| :: CompletedFrozen(ws[k], ws[k + 1])
  {
    forall k | 0 <= k < |evs|
      ensures Clean(ws[k], evs[k]) <==> CompletedFrozen(ws[k], ws[k + 1])
    {
      RunBase(cfg, ws, evs, k);
      CompletedFrozenExactly(cfg, ws[k], evs[k]);
    }
    if CleanRun(ws, evs) {
      assert forall k | 0 <= k < |evs| :: CompletedFrozen(ws[k], ws[k + 1]);
    } else {
      var k :| 0 <= k < |evs| && !Clean(ws[k], evs[k]);
      assert !CompletedFrozen(ws[k], ws[k + 1]);
    }
  }

  /** At most one open task per member, in every reachable state. */
  lemma OneOpenTaskPerMember(cfg: Config, ws: seq<World>, evs: seq<Event>, k: nat, i: nat, j: nat)
    requires Run(cfg, ws, evs) && k < |ws| && i < |ws[k].tasks| && j < |ws[k].tasks|
    requires ws[k].tasks[i].status.Open() && ws[k].tasks[j].status.Open()
    requires ws[k].tasks[i].assignee == ws[k].tasks[j].assignee != Some(CAPTAIN_KEY)
    ensures i == j && ws[k].tasks[i].attemptId.Some?
  {
    RunBase(cfg, ws, evs, k);
  }

  /** A removed member stays removed, and in a clean run holds no unfinished work ever after. */
  lemma NoWorkHeldByDeparted(cfg: Config, ws: seq<World>, evs: seq<Event>, j: nat, k: nat, p: nat, i: nat)
    requires Run(cfg, ws, evs) && CleanRun(ws, evs) && j <= k < |ws|
    requires p < |ws[j].members| && ws[j].members[p].status == Removed && i < |ws[k].tasks|
    ensures p < |ws[k].members| && ws[k].members[p].status == Removed
    ensures ws[k].tasks[i].assignee == Some(ws[j].members[p].name) ==> ws[k].tasks[i].status == Completed
  {
    RunMembers(cfg, ws, evs, j, k);
    RunBase(cfg, ws, evs, k);
    RunSafe(cfg, ws, evs, k);
    var name := ws[j].members[p].name;
    assert ws[k].members[p].name == name;
    assert !IsActive(ws[k].members, name);
  }

  /** No wait cycle between tasks: in every reachable state a chain of dependencies only goes to older tasks. */
  lemma {:induction false} DependenciesGoDown(cfg: Config, ws: seq<World>, evs: seq<Event>, k: nat, p: seq<TaskId>)
    requires Run(cfg, ws, evs) && k < |ws| && |p| >= 2
    requires forall m | 0 <= m < |p| :: 1 <= p[m] <= |ws[k].tasks|
    requires forall m | 0 <= m < |p| - 1 :: p[m + 1] in ws[k].tasks[p[m] - 1].dependencies
    ensures p[|p| - 1] <= p[0] - (|p| - 1)
    decreases |p|
  {
    RunBase(cfg, ws, evs, k);
    assert ws[k].tasks[p[0] - 1].id == p[0];
    if |p| > 2 {
      DependenciesGoDown(cfg, ws, evs, k, p[1..]);
    }
  }

  // ---- Capabilities ------------------------------------------------------------------------------

  /** Section `j` issued capability `a` for task `i` to `owner`. */
  ghost predicate Issued(ws: seq<World>, j: nat, i: nat, owner: Name, a: Token)
    requires j + 1 < |ws|
  {
    && i < |ws[j].tasks| <= |ws[j + 1].tasks|
    && a == ws[j].nextToken
    && ws[j + 1].tasks[i] == BeginAttempt(ws[j].tasks[i], owner, a)
  }

  /** Task `i` holds capability `a` for `owner` in every state from `j` to `k`, with one and the same number. */
  ghost predicate Held(ws: seq<World>, j: nat, k: nat, i: nat, owner: Name, a: Token)
    requires k < |ws|
  {
    i < |ws[k].tasks| &&
    forall l | j <= l <= k :: i < |ws[l].tasks| && ws[l].tasks[i].attemptId == Some(a)
                              && ws[l].tasks[i].assignee == Some(owner)
                              && ws[l].tasks[i].attempt == ws[k].tasks[i].attempt
  }

  /** Every capability was issued by some section to its present holder and has been current ever since. */
  lemma {:induction false} CapabilityOrigin(cfg: Config, ws: seq<World>, evs: seq<Event>, k: nat, i: nat) returns (j: nat)
    requires Run(cfg, ws, evs) && k < |ws| && i < |ws[k].tasks| && ws[k].tasks[i].attemptId.Some?
    ensures ws[k].tasks[i].assignee.Some? && j < k
    ensures Issued(ws, j, i, ws[k].tasks[i].assignee.value, ws[k].tasks[i].attemptId.value)
    ensures Held(ws, j + 1, k, i, ws[k].tasks[i].assignee.value, ws[k].tasks[i].attemptId.value)
  {
    RunBase(cfg, ws, evs, k);
    assert k > 0;
    RunBase(cfg, ws, evs, k - 1);
    StepNumbered(cfg, ws[k - 1], evs[k - 1]);
    assert i < |ws[k - 1].tasks|;
    var m := StepMove(cfg, ws[k - 1], evs[k - 1], i);
    TokenBack(ws[k - 1], ws[k], i, m);
    if m.Begun? {
      j := k - 1;
    } else {
      j := CapabilityOrigin(cfg, ws, evs, k - 1, i);
    }
  }

  /** A capability that was replaced or revoked never comes back. */
  lemma {:induction false} RetiredForever(cfg: Config, ws: seq<World>, evs: seq<Event>, j: nat, k: nat, i: nat, a: Token)
    requires Run(cfg, ws, evs) && j <= k < |ws| && i < |ws[j].tasks|
    requires a < ws[j].nextToken && ws[j].tasks[i].attemptId != Some(a)
    ensures i < |ws[k].tasks| && ws[k].tasks[i].attemptId != Some(a)
    decreases k - j
  {
    if j < k {
      RetiredForever(cfg, ws, evs, j, k - 1, i, a);
      RunGrows(cfg, ws, evs, j, k - 1);
      var m := RunMove(cfg, ws, evs, k - 1, i);
      if ws[k].tasks[i].attemptId == Some(a) {
        TokenBack(ws[k - 1], ws[k], i, m);
      }
    }
  }

  /** How many capabilities the first `k` sections issued for task `i`. */
  ghost function Issues(ws: seq<World>, k: nat, i: nat): nat
    requires k < |ws|
  {
    if k == 0 then 0
    else Issues(ws, k - 1, i) +
         if i < |ws[k].tasks| && ws[k].tasks[i].attemptId == Some(ws[k - 1].nextToken) then 1 else 0
  }

  /** The attempt number counts the capabilities ever issued for the task; no rollback takes one back. */
  lemma {:induction false} AttemptCountsIssues(cfg: Config, ws: seq<World>, evs: seq<Event>, k: nat, i: nat)
    requires Run(cfg, ws, evs) && k < |ws|
    ensures (if i < |ws[k].tasks| then ws[k].tasks[i].attempt else 0) == Issues(ws, k, i)
  {
    if k > 0 {
      AttemptCountsIssues(cfg, ws, evs, k - 1, i);
      RunBase(cfg, ws, evs, k - 1);
      StepNumbered(cfg, ws[k - 1], evs[k - 1]);
      if i < |ws[k - 1].tasks| {
        var m := StepMove(cfg, ws[k - 1], evs[k - 1], i);
      }
    }
  }

  /**
   Only the newest capability can advance a task: when a member's update moves a task, the
   capability it presented was issued to that member, and since then no section has issued
   another one, revoked it or rolled it back.
   */
  lemma NewestCapabilityAdvances(cfg: Config, ws: seq<World>, evs: seq<Event>, k: nat, i: nat, who: Name)
    returns (j: nat)
    requires Run(cfg, ws, evs) && k < |evs| && i < |ws[k].tasks| <= |ws[k + 1].tasks|
    requires evs[k].UpdateTask? && IdentityOf(ws[k], evs[k].caller) == Some(MemberIdentity(who))
    requires ws[k + 1].tasks[i] != ws[k].tasks[i] && ws[k + 1].tasks[i].status.Worked()
    ensures evs[k].attemptId.Some? && j < k
    ensures Issued(ws, j, i, who, evs[k].attemptId.value)
    ensures Held(ws, j + 1, k, i, who, evs[k].attemptId.value)
    ensures ws[k].tasks[i].status.Open()
  {
    RunBase(cfg, ws, evs, k);
    var ev := evs[k];
    var m := UpdateMove(cfg, ws[k], ev.caller, ev.taskId, ev.status, ev.output, ev.attemptId, i);
    j := CapabilityOrigin(cfg, ws, evs, k, i);
  }

  // ---- Handoffs ------------------------------------------------------------------------------------

  /** Task `i` is still in handoff `h`: no owner works on it and its place is reserved. */
  ghost predicate InHandoff(w: World, i: nat, h: Handoff) {
    && i < |w.tasks|
    && w.tasks[i].handoffId == Some(h.handoffId) && w.tasks[i].reassigning
    && w.tasks[i].attemptId == None && w.tasks[i].assignee == Some(h.target)
    && (w.tasks[i].status == Pending || w.tasks[i].status == Cancelled)
  }

  lemma PhaseOne(cfg: Config, w: World, caller: AgentId, h: Handoff)
    requires BaseInv(cfg, w) && ReassignBeginStep(w, caller, h.taskId, h.target).1 == HandoffOpen(h)
    ensures var w' := ReassignBeginStep(w, caller, h.taskId, h.target).0;
            1 <= h.taskId && InHandoff(w', h.taskId - 1, h) && h.handoffId < w'.nextToken
  {
  }

  /** One more section that leaves the handoff standing leaves owner and attempt alone. */
  lemma HandoffStep(cfg: Config, w: World, ev: Event, i: nat, h: Handoff)
    requires ConfigOk(cfg) && BaseInv(cfg, w) && i < |w.tasks| && h.handoffId < w.nextToken
    requires var w' := Step(cfg, w, ev).0;
             i < |w'.tasks| && w'.tasks[i].handoffId == Some(h.handoffId) && w'.tasks[i].reassigning
    ensures var w' := Step(cfg, w, ev).0;
            && w.tasks[i].handoffId == Some(h.handoffId) && w.tasks[i].reassigning
            && w'.tasks[i].attempt == w.tasks[i].attempt
            && (InHandoff(w, i, h) ==> InHandoff(w', i, h))
  {
    var w' := Step(cfg, w, ev).0;
    var m := StepMove(cfg, w, ev, i);
    HandoffBack(w, w', i, m);
    MoveShape(w, w', i, m);
  }

  lemma {:induction false} HandoffStands(cfg: Config, ws: seq<World>, evs: seq<Event>, j: nat, k: nat, i: nat, h: Handoff)
    requires Run(cfg, ws, evs) && j <= k < |ws| && InHandoff(ws[j], i, h) && h.handoffId < ws[j].nextToken
    requires i < |ws[k].tasks| && ws[k].tasks[i].handoffId == Some(h.handoffId) && ws[k].tasks[i].reassigning
    ensures forall l | j <= l <= k :: InHandoff(ws[l], i, h) && ws[l].tasks[i].attempt == ws[k].tasks[i].attempt
    decreases k
  {
    if j < k {
      RunBase(cfg, ws, evs, k - 1);
      RunGrows(cfg, ws, evs, j, k - 1);
      HandoffStep(cfg, ws[k - 1], evs[k - 1], i, h);
      HandoffStands(cfg, ws, evs, j, k - 1, i, h);
    }
  }

  /**
   Handoffs are linear: when phase two commits, every section since its own phase one has left
   owner, attempt and capability of the task alone, so no newer decision is overwritten.
   */
  lemma HandoffsAreLinear(cfg: Config, ws: seq<World>, evs: seq<Event>, j: nat, k: nat, h: Handoff,
                          caller: AgentId, assignee: Name, quiesced: bool)
    requires Run(cfg, ws, evs) && j < k < |evs|
    requires evs[j] == ReassignBegin(caller, h.taskId, assignee) && cfg.trim(assignee) == h.target
    requires ReassignBeginStep(ws[j], caller, h.taskId, h.target).1 == HandoffOpen(h)
    requires evs[k] == ReassignCommit(h, quiesced) && ReassignCommitStep(ws[k], h, quiesced).1.Holding?
    ensures 1 <= h.taskId <= |ws[k].tasks|
    ensures forall l | j < l <= k :: InHandoff(ws[l], h.taskId - 1, h)
                                     && ws[l].tasks[h.taskId - 1].attempt == ws[k].tasks[h.taskId - 1].attempt
  {
    RunBase(cfg, ws, evs, j);
    RunBase(cfg, ws, evs, k);
    CommitNeedsHandoff(ws[k], h, quiesced);
    PhaseOne(cfg, ws[j], caller, h);
    assert Step(cfg, ws[j], evs[j]) == ReassignBeginStep(ws[j], caller, h.taskId, h.target);
    HandoffStands(cfg, ws, evs, j + 1, k, h.taskId - 1, h);
  }

  /** A commit that is not refused finds its own handoff standing. */
  lemma CommitNeedsHandoff(w: World, h: Handoff, quiesced: bool)
    requires Numbered(w.tasks)
    ensures ReassignCommitStep(w, h, quiesced).1.Holding? <==>
              && h in w.handoffs && w.live
              && exists i | 0 <= i < |w.tasks| ::
                   w.tasks[i].id == h.taskId && w.tasks[i].handoffId == Some(h.handoffId)
                   && w.tasks[i].assignee == Some(h.target) && w.tasks[i].reassigning
  {
    var i := FindTask(w.tasks, h.taskId);
    if i.Some? {
      assert w.tasks[i.value].id == h.taskId;
    }
  }
}
