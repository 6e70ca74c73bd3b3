/**
 Reassignments that end badly. A reservation whose second phase is lost stays until the member it was made for leaves,
 and for good when it was made for the captain; a cancellation between the two phases of a captain takeover is undone.
 */
module TeamTakeovers {
  import opened Wrappers
  import opened TeamState
  import opened TeamProtocol
  import opened TeamInvariants
  import opened TeamRules
  import opened TeamSafety

  // ---- A lost second phase ------------------------------------------------------------------------

  /** Task `i` is reserved and no second phase that could end the reservation is under way. */
  ghost predicate Stranded(w: World, i: nat) {
    i < |w.tasks| && w.tasks[i].reassigning && forall h | h in w.handoffs :: w.tasks[i].handoffId != Some(h.handoffId)
  }

  /** The section removes a member who is there and for whom task `i` is reserved. */
  ghost predicate Releases(w: World, ev: Event, i: nat) {
    i < |w.tasks| && w.live && w.tasks[i].assignee.Some? && IsActive(w.members, w.tasks[i].assignee.value) &&
    ((ev.RemoveMember? && ev.caller == w.captain && w.tasks[i].assignee == Some(ev.name)) ||
     (ev.RetireAll? && ev.caller == w.captain))
  }

  /** Section `l` of a run does so. */
  ghost predicate ReleasedAt(ws: seq<World>, evs: seq<Event>, l: nat, i: nat) {
    l < |ws| && l < |evs| && Releases(ws[l], evs[l], i)
  }

  lemma StrandedRetire(w: World, caller: AgentId, i: nat)
    requires Stranded(w, i) && TaskShape(w.tasks[i], w.nextToken)
    ensures var w' := RetireAllStep(w, caller).0;
      i < |w'.tasks| && if Releases(w, RetireAll(caller), i) then !w'.tasks[i].reassigning else w'.tasks[i] == w.tasks[i]
  {
    RetireFrees(w, 0, i);
  }

  lemma StrandedRemove(w: World, caller: AgentId, name: Name, i: nat)
    requires Stranded(w, i) && TaskShape(w.tasks[i], w.nextToken)
    ensures var w' := RemoveMemberStep(w, caller, name).0;
      i < |w'.tasks| &&
      if Releases(w, RemoveMember(caller, name), i) then !w'.tasks[i].reassigning else w'.tasks[i] == w.tasks[i]
  {
  }

  lemma StrandedCommit(w: World, handoff: Handoff, quiesced: bool, i: nat)
    requires Numbered(w.tasks) && Stranded(w, i)
    ensures i < |ReassignCommitStep(w, handoff, quiesced).0.tasks|
    ensures ReassignCommitStep(w, handoff, quiesced).0.tasks[i] == w.tasks[i]
  {
  }

  lemma StrandedBegin(w: World, caller: AgentId, taskId: TaskId, target: Name, i: nat)
    requires Numbered(w.tasks) && Stranded(w, i)
    ensures i < |ReassignBeginStep(w, caller, taskId, target).0.tasks|
    ensures ReassignBeginStep(w, caller, taskId, target).0.tasks[i] == w.tasks[i]
  {
  }

  lemma StrandedClaim(w: World, caller: AgentId, taskId: TaskId, owner: Option<Name>, i: nat)
    requires Stranded(w, i)
    ensures i < |ClaimStep(w, caller, taskId, owner).0.tasks|
    ensures ClaimStep(w, caller, taskId, owner).0.tasks[i] == w.tasks[i]
  {
  }

  lemma StrandedDispatch(cfg: Config, w: World, name: Name, available: bool, i: nat)
    requires BaseInv(cfg, w) && Stranded(w, i)
    ensures i < |DispatchStep(w, name, available).0.tasks|
    ensures DispatchStep(w, name, available).0.tasks[i] == w.tasks[i]
  {
    assert TaskShape(w.tasks[i], w.nextToken);
  }

  /** The sections that could end a reservation. */
  lemma StrandedTools(cfg: Config, w: World, ev: Event, i: nat)
    requires ConfigOk(cfg) && BaseInv(cfg, w) && Stranded(w, i) && !ev.UpdateTask? && !LeavesTasks(ev)
    ensures var w' := Step(cfg, w, ev).0;
      i < |w'.tasks| && if Releases(w, ev, i) then !w'.tasks[i].reassigning else w'.tasks[i] == w.tasks[i]
  {
    assert TaskShape(w.tasks[i], w.nextToken);
    match ev
    case RemoveMember(caller, name) => StrandedRemove(w, caller, name, i);
    case RetireAll(caller) => StrandedRetire(w, caller, i);
    case ReassignBegin(caller, taskId, assignee) => StrandedBegin(w, caller, taskId, cfg.trim(assignee), i);
    case ReassignCommit(handoff, quiesced) => StrandedCommit(w, handoff, quiesced, i);
    case ClaimTask(caller, taskId, owner) => StrandedClaim(w, caller, taskId, owner, i);
    case Dispatch(name, available) => StrandedDispatch(cfg, w, name, available, i);
    case DispatchRejected(ticket) =>
  }

  /** One section ends a stranded reservation exactly when it removes the member it was made for. */
  lemma StrandedExactly(cfg: Config, w: World, ev: Event, i: nat)
    requires ConfigOk(cfg) && BaseInv(cfg, w) && Stranded(w, i)
    ensures var w' := Step(cfg, w, ev).0;
      i < |w'.tasks| && (w'.tasks[i].reassigning <==> !Releases(w, ev, i)) &&
      (!Releases(w, ev, i) ==>
        Stranded(w', i) && w'.tasks[i].handoffId == w.tasks[i].handoffId && w'.tasks[i].assignee == w.tasks[i].assignee &&
        w'.tasks[i].attemptId.None?)
  {
    var w' := Step(cfg, w, ev).0;
    assert TaskShape(w.tasks[i], w.nextToken);
    if ev.UpdateTask? || LeavesTasks(ev) {
      var m := StepMove(cfg, w, ev, i);
    } else {
      StrandedTools(cfg, w, ev, i);
    }
    if !Releases(w, ev, i) {
      StillUnserved(cfg, w, ev, i);
    }
  }

  lemma StillUnserved(cfg: Config, w: World, ev: Event, i: nat)
    requires BaseInv(cfg, w) && Stranded(w, i) && i < |Step(cfg, w, ev).0.tasks|
    requires Step(cfg, w, ev).0.tasks[i].handoffId == w.tasks[i].handoffId
    ensures forall h | h in Step(cfg, w, ev).0.handoffs :: Step(cfg, w, ev).0.tasks[i].handoffId != Some(h.handoffId)
  {
    assert TaskShape(w.tasks[i], w.nextToken);
    forall h | h in Step(cfg, w, ev).0.handoffs ensures w.tasks[i].handoffId != Some(h.handoffId) {
      HandoffSource(cfg, w, ev, h);
    }
  }

  /** The same reservation as in `w`. */
  ghost predicate StillReserved(w: World, w': World, i: nat)
    requires i < |w.tasks|
  {
    i < |w'.tasks| && w'.tasks[i].reassigning && w'.tasks[i].handoffId == w.tasks[i].handoffId &&
    w'.tasks[i].assignee == w.tasks[i].assignee
  }

  /** Section `k` of a run, on a stranded task. */
  lemma StrandedSection(cfg: Config, ws: seq<World>, evs: seq<Event>, k: nat, i: nat)
    requires Run(cfg, ws, evs) && k < |evs| && Stranded(ws[k], i)
    ensures i < |ws[k + 1].tasks| && (ws[k + 1].tasks[i].reassigning <==> !Releases(ws[k], evs[k], i))
    ensures !Releases(ws[k], evs[k], i) ==> Stranded(ws[k + 1], i) && StillReserved(ws[k], ws[k + 1], i)
  {
    RunBase(cfg, ws, evs, k);
    StrandedExactly(cfg, ws[k], evs[k], i);
    assert ws[k + 1] == Step(cfg, ws[k], evs[k]).0;
  }

  /** Once ended, it does not come back under its old handoff. */
  lemma {:induction false} ReservedBefore(cfg: Config, ws: seq<World>, evs: seq<Event>, j: nat, l: nat, k: nat, i: nat)
    requires Run(cfg, ws, evs) && j <= l <= k < |ws| && Stranded(ws[j], i) && StillReserved(ws[j], ws[k], i)
    ensures i < |ws[l].tasks| && ws[l].tasks[i].reassigning && ws[l].tasks[i].handoffId == ws[j].tasks[i].handoffId
    decreases k - l
  {
    RunGrows(cfg, ws, evs, j, l);
    if l < k {
      ReservedBefore(cfg, ws, evs, j, l + 1, k, i);
      RunBase(cfg, ws, evs, j);
      RunBase(cfg, ws, evs, l);
      var h := Handoff(0, ws[j].tasks[i].handoffId.value, "");
      HandoffStep(cfg, ws[l], evs[l], i, h);
    }
  }

  lemma {:induction false} StrandedStays(cfg: Config, ws: seq<World>, evs: seq<Event>, j: nat, k: nat, i: nat)
    requires Run(cfg, ws, evs) && j <= k < |ws| && Stranded(ws[j], i)
    requires forall l: nat | j <= l < k :: !ReleasedAt(ws, evs, l, i)
    ensures Stranded(ws[k], i) && StillReserved(ws[j], ws[k], i)
    decreases k
  {
    if j < k {
      StrandedStays(cfg, ws, evs, j, k - 1, i);
      assert !ReleasedAt(ws, evs, k - 1, i);
      StrandedSection(cfg, ws, evs, k - 1, i);
    }
  }

  /**
   Over any run a reservation whose second phase was lost stands exactly until the member it was made for is removed;
   nobody ever removes the captain, so a takeover lost half way blocks its task for good.
   */
  lemma StrandedUntilReleased(cfg: Config, ws: seq<World>, evs: seq<Event>, j: nat, k: nat, i: nat)
    requires Run(cfg, ws, evs) && j <= k < |ws| && Stranded(ws[j], i)
    ensures StillReserved(ws[j], ws[k], i) <==> forall l: nat | j <= l < k :: !ReleasedAt(ws, evs, l, i)
    ensures ws[j].tasks[i].assignee == Some(CAPTAIN_KEY) ==> StillReserved(ws[j], ws[k], i)
  {
    if StillReserved(ws[j], ws[k], i) {
      forall l: nat | j <= l < k ensures !ReleasedAt(ws, evs, l, i) {
        StandsSo(cfg, ws, evs, j, l, k, i);
      }
    } else if ws[j].tasks[i].assignee == Some(CAPTAIN_KEY) {
      CaptainStays(cfg, ws, evs, j, k, i);
    }
    if forall l: nat | j <= l < k :: !ReleasedAt(ws, evs, l, i) {
      StrandedStays(cfg, ws, evs, j, k, i);
    }
  }

  lemma {:induction false} StandsSo(cfg: Config, ws: seq<World>, evs: seq<Event>, j: nat, l: nat, k: nat, i: nat)
    requires Run(cfg, ws, evs) && j <= l < k < |ws| && Stranded(ws[j], i) && StillReserved(ws[j], ws[k], i)
    ensures Stranded(ws[l], i) && !Releases(ws[l], evs[l], i)
    decreases l
  {
    ReservedBefore(cfg, ws, evs, j, l + 1, k, i);
    if j < l {
      StandsSo(cfg, ws, evs, j, l - 1, k, i);
      StrandedSection(cfg, ws, evs, l - 1, i);
    }
    StrandedSection(cfg, ws, evs, l, i);
  }

  lemma {:induction false} CaptainStays(cfg: Config, ws: seq<World>, evs: seq<Event>, j: nat, k: nat, i: nat)
    requires Run(cfg, ws, evs) && j <= k < |ws| && Stranded(ws[j], i) && ws[j].tasks[i].assignee == Some(CAPTAIN_KEY)
    ensures Stranded(ws[k], i) && StillReserved(ws[j], ws[k], i)
    decreases k
  {
    if j < k {
      CaptainStays(cfg, ws, evs, j, k - 1, i);
      RunBase(cfg, ws, evs, k - 1);
      NoCaptainMember(cfg, ws[k - 1]);
      StrandedSection(cfg, ws, evs, k - 1, i);
    }
  }

  lemma NoCaptainMember(cfg: Config, w: World)
    requires ConfigOk(cfg) && RosterOk(cfg, w.captain, w.members)
    ensures !IsActive(w.members, CAPTAIN_KEY)
  {
  }

  // ---- A cancellation that is undone ------------------------------------------------------------------

  /** The second phase of a captain takeover that still finds task `i` reserved, its old owner quiesced. */
  ghost predicate TakesOver(w: World, ev: Event, i: nat)
    requires i < |w.tasks|
  {
    ev.ReassignCommit? && ev.quiesced && ev.handoff.target == CAPTAIN_KEY && w.live && ev.handoff in w.handoffs &&
    ev.handoff.taskId == w.tasks[i].id && w.tasks[i].handoffId == Some(ev.handoff.handoffId) &&
    w.tasks[i].assignee == Some(CAPTAIN_KEY) && w.tasks[i].reassigning
  }

  /** A cancelled task goes straight into work again exactly when such a second phase lands after the cancellation. */
  lemma CancellationUndoneExactly(cfg: Config, w: World, ev: Event, i: nat)
    requires ConfigOk(cfg) && BaseInv(cfg, w) && i < |w.tasks| && w.tasks[i].status == Cancelled
    ensures i < |Step(cfg, w, ev).0.tasks|
    ensures Step(cfg, w, ev).0.tasks[i].status.Worked() <==> TakesOver(w, ev, i)
  {
    var m := StepMove(cfg, w, ev, i);
    if ev.ReassignCommit? {
      CommitOnCancelled(w, ev.handoff, ev.quiesced, i);
    } else if ev.ClaimTask? {
      ClaimOnCancelled(w, ev.caller, ev.taskId, ev.owner, i);
    } else if ev.Dispatch? {
      DispatchOnCancelled(w, ev.name, ev.available, i);
    }
  }

  lemma CommitOnCancelled(w: World, h: Handoff, quiesced: bool, i: nat)
    requires Numbered(w.tasks) && i < |w.tasks| && w.tasks[i].status == Cancelled
    ensures i < |ReassignCommitStep(w, h, quiesced).0.tasks|
    ensures ReassignCommitStep(w, h, quiesced).0.tasks[i].status.Worked() <==>
      TakesOver(w, ReassignCommit(h, quiesced), i)
  {
    var found := FindTask(w.tasks, h.taskId);
    if found.Some? {
      assert w.tasks[found.value].id == h.taskId;
    }
  }

  lemma ClaimOnCancelled(w: World, caller: AgentId, taskId: TaskId, owner: Option<Name>, i: nat)
    requires i < |w.tasks| && w.tasks[i].status == Cancelled
    ensures i < |ClaimStep(w, caller, taskId, owner).0.tasks|
    ensures ClaimStep(w, caller, taskId, owner).0.tasks[i] == w.tasks[i]
  {
  }

  lemma DispatchOnCancelled(w: World, name: Name, available: bool, i: nat)
    requires i < |w.tasks| && w.tasks[i].status == Cancelled
    ensures i < |DispatchStep(w, name, available).0.tasks|
    ensures DispatchStep(w, name, available).0.tasks[i] == w.tasks[i]
  {
  }

  // ---- Both happen ----------------------------------------------------------------------------------

  const CONFIG := Config(8, (name: Name) => name, (name: Name) => name)

  const TAKEOVER := Handoff(1, 0, CAPTAIN_KEY)

  ghost function Reserved(status: Status): World {
    Initial("c").(tasks := [Task(1, status, Some(CAPTAIN_KEY), [], 0, None, Some(0), true, None)], taskSeq := 1,
                  handoffs := {TAKEOVER}, nextToken := 1)
  }

  ghost function Opened(): World {
    Initial("c").(tasks := [Task(1, Pending, None, [], 0, None, None, false, None)], taskSeq := 1)
  }

  lemma TakeoverBegins()
    ensures Step(CONFIG, Initial("c"), CreateTask("c", [], None)).0 == Opened()
    ensures Step(CONFIG, Opened(), ReassignBegin("c", 1, CAPTAIN_KEY)).0 == Reserved(Pending)
  {
  }

  /** The captain opens a task and starts to take it over; then the process is restarted. */
  lemma TakeoverIsLost(ws: seq<World>, evs: seq<Event>)
    requires evs == [CreateTask("c", [], None), ReassignBegin("c", 1, CAPTAIN_KEY), Restart]
    requires ws == [Initial("c"), Opened(), Reserved(Pending), Reserved(Pending).(handoffs := {})]
    ensures Run(CONFIG, ws, evs) && Stranded(ws[3], 0) && ws[3].tasks[0].assignee == Some(CAPTAIN_KEY)
  {
    TakeoverBegins();
    assert ws[3] == Step(CONFIG, ws[2], evs[2]).0;
  }

  lemma CancelThenCommit()
    ensures Step(CONFIG, Reserved(Pending), UpdateTask("c", 1, Some(Cancelled), None, None)).0 == Reserved(Cancelled)
    ensures var w := Step(CONFIG, Reserved(Cancelled), ReassignCommit(TAKEOVER, true)).0;
      |w.tasks| == 1 && w.tasks[0].status == Claimed
  {
  }

  /** The captain cancels the task between the two phases, and phase two takes it into work all the same. */
  lemma CancellationIsUndone(ws: seq<World>, evs: seq<Event>)
    requires evs == [CreateTask("c", [], None), ReassignBegin("c", 1, CAPTAIN_KEY),
                     UpdateTask("c", 1, Some(Cancelled), None, None), ReassignCommit(TAKEOVER, true)]
    requires ws == [Initial("c"), Opened(), Reserved(Pending), Reserved(Cancelled),
                    Step(CONFIG, Reserved(Cancelled), ReassignCommit(TAKEOVER, true)).0]
    ensures Run(CONFIG, ws, evs)
    ensures ws[3].tasks[0].status == Cancelled && |ws[4].tasks| == 1 && ws[4].tasks[0].status == Claimed
  {
    TakeoverBegins();
    CancelThenCommit();
    assert ws[3] == Step(CONFIG, ws[2], evs[2]).0;
  }
}
