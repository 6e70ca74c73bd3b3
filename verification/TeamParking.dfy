/**
 What the scheduler does with whom: which task a kick hands out, what a failed delivery takes back, and when an idle
 worker's attempt is parked so that no kick takes it away.
 */
module TeamParking {
  import opened Wrappers
  import opened TeamState
  import opened TeamProtocol
  import opened TeamInvariants
  import opened TeamRules
  import opened TeamSafety

  // ---- Which task a kick hands out ------------------------------------------------------------------

  ghost predicate Owns(w: World, m: Member, i: nat) {
    i < |w.tasks| && w.tasks[i].status.Open() && w.tasks[i].assignee == Some(m.name)
  }

  /** A task that can be started now, among those `assignee` says. */
  ghost predicate Waits(w: World, i: nat, assignee: Option<Name>) {
    i < |w.tasks| && w.tasks[i].status == Pending && !w.tasks[i].reassigning && DepsDone(w.tasks, i) &&
    w.tasks[i].assignee == assignee
  }

  ghost predicate FirstWaiting(w: World, i: nat, assignee: Option<Name>) {
    Waits(w, i, assignee) && forall j | 0 <= j < i :: !Waits(w, j, assignee)
  }

  /** `id` was idle with capability `a` when it was last seen. */
  ghost predicate ParkedAs(w: World, id: AgentId, a: Token) { id in w.parked && w.parked[id] == a }

  /** The member's own open task unless parked; else the oldest task waiting for it, else the oldest for anybody. */
  ghost predicate Due(w: World, m: Member, i: nat) {
    if exists j :: Owns(w, m, j) then
      Owns(w, m, i) && !(w.tasks[i].attemptId.Some? && ParkedAs(w, m.id, w.tasks[i].attemptId.value))
    else
      FirstWaiting(w, i, Some(m.name)) || (FirstWaiting(w, i, None) && forall j :: !Waits(w, j, Some(m.name)))
  }

  lemma ReadyIsWaiting(w: World, i: nat)
    requires Numbered(w.tasks) && i < |w.tasks|
    ensures Ready(w.tasks, w.tasks[i]) <==> Waits(w, i, w.tasks[i].assignee)
  {
    DepsCheck(w.tasks, i);
  }

  lemma NextIsWaiting(w: World, name: Name)
    requires Numbered(w.tasks)
    ensures forall i: nat | NextReady(w.tasks, name) == Some(i) ::
      FirstWaiting(w, i, Some(name)) || (FirstWaiting(w, i, None) && forall j :: !Waits(w, j, Some(name)))
    ensures NextReady(w.tasks, name).None? ==> forall j :: !Waits(w, j, Some(name)) && !Waits(w, j, None)
  {
    forall j: nat | j < |w.tasks| ensures Ready(w.tasks, w.tasks[j]) <==> Waits(w, j, w.tasks[j].assignee) {
      ReadyIsWaiting(w, j);
    }
  }

  lemma OnlyOneOpen(cfg: Config, w: World, k: nat, i: nat, j: nat)
    requires ConfigOk(cfg) && BaseInv(cfg, w) && k < |w.members| && Owns(w, w.members[k], i) && Owns(w, w.members[k], j)
    ensures i == j
  {
    assert w.members[k].name != CAPTAIN_KEY;
  }

  lemma OpenIsOwned(cfg: Config, w: World, k: nat)
    requires ConfigOk(cfg) && BaseInv(cfg, w) && k < |w.members|
    ensures var found := OpenTaskOf(w.tasks, w.members[k].name, None);
      if found.Some? then Owns(w, w.members[k], found.value) && forall j :: Owns(w, w.members[k], j) ==> j == found.value
      else forall j :: !Owns(w, w.members[k], j)
  {
    var found := OpenTaskOf(w.tasks, w.members[k].name, None);
    if found.Some? {
      forall j | Owns(w, w.members[k], j) ensures j == found.value {
        OnlyOneOpen(cfg, w, k, found.value, j);
      }
    }
  }

  lemma SelectedIsDue(cfg: Config, w: World, k: nat)
    requires ConfigOk(cfg) && BaseInv(cfg, w) && k < |w.members|
    ensures var chosen := SelectTask(w, w.members[k]);
      if chosen.Some? then Due(w, w.members[k], chosen.value) else forall i :: !Due(w, w.members[k], i)
  {
    OpenIsOwned(cfg, w, k);
    NextIsWaiting(w, w.members[k].name);
  }

  lemma DueIsOne(cfg: Config, w: World, k: nat, i: nat, j: nat)
    requires ConfigOk(cfg) && BaseInv(cfg, w) && k < |w.members| && Due(w, w.members[k], i) && Due(w, w.members[k], j)
    ensures i == j
  {
    if exists l :: Owns(w, w.members[k], l) {
      OnlyOneOpen(cfg, w, k, i, j);
    }
  }

  lemma MemberNamed(cfg: Config, w: World, k: nat)
    requires BaseInv(cfg, w) && k < |w.members| && w.members[k].status != Removed
    ensures FindActive(w.members, w.members[k].name) == Some(k)
  {
    var found := FindActive(w.members, w.members[k].name);
    assert found.Some?;
    NamesDiffer(cfg, w, found.value, k);
  }

  lemma NamesDiffer(cfg: Config, w: World, j: nat, k: nat)
    requires BaseInv(cfg, w) && j < |w.members| && k < |w.members| && w.members[j].name == w.members[k].name
    ensures j == k
  {
  }

  /** A kick of an available member hands out exactly the task that is due, under a fresh capability. */
  lemma DispatchExactly(cfg: Config, w: World, k: nat, i: nat)
    requires ConfigOk(cfg) && BaseInv(cfg, w) && w.live && k < |w.members| && w.members[k].status != Removed
    requires Due(w, w.members[k], i)
    ensures i < |w.tasks|
    ensures var (m, t) := (w.members[k], w.tasks[i]);
      var ticket := Ticket(t.id, m.name, m.id, t.attempt + 1, w.nextToken, t.assignee);
      Step(cfg, w, Dispatch(m.name, true)) ==
        (w.(tasks := w.tasks[i := Taken(t, m.name, w.nextToken)], members := w.members[k := m.(status := Working)],
            parked := w.parked - {m.id}, tickets := w.tickets + {ticket}, nextToken := w.nextToken + 1),
         Dispatched(ticket))
  {
    MemberNamed(cfg, w, k);
    SelectedIsDue(cfg, w, k);
    DueIsOne(cfg, w, k, i, SelectTask(w, w.members[k]).value);
  }

  /** With nothing due it only sets the member to idle. */
  lemma DispatchOfNothing(cfg: Config, w: World, k: nat)
    requires ConfigOk(cfg) && BaseInv(cfg, w) && w.live && k < |w.members| && w.members[k].status != Removed
    requires forall i :: !Due(w, w.members[k], i)
    ensures Step(cfg, w, Dispatch(w.members[k].name, true)) ==
      (w.(members := w.members[k := w.members[k].(status := Idle)]), Quiet)
  {
    MemberNamed(cfg, w, k);
    SelectedIsDue(cfg, w, k);
    assert w.members[k].status == Idle ==> w.members[k := w.members[k].(status := Idle)] == w.members;
  }

  /** Nobody who is away, unavailable or unknown is given anything. */
  lemma DispatchOfNobody(cfg: Config, w: World, name: Name, available: bool)
    requires !w.live || !available || !IsActive(w.members, name)
    ensures Step(cfg, w, Dispatch(name, available)) == (w, Quiet)
  {
    ActiveIsFound(w.members, name);
  }

  // ---- What a failed delivery takes back --------------------------------------------------------------

  /** A failed delivery returns the task that still holds its capability, and sets its member to idle. */
  lemma RejectExactly(cfg: Config, w: World, ticket: Ticket, i: nat, k: nat)
    requires BaseInv(cfg, w) && w.live && ticket in w.tickets && i < |w.tasks| && k < |w.members|
    requires w.tasks[i].attemptId == Some(ticket.attemptId) && w.members[k].name == ticket.memberName
    ensures var (t, m) := (w.tasks[i], w.members[k]);
      Step(cfg, w, DispatchRejected(ticket)).0 ==
        w.(tickets := w.tickets - {ticket},
           tasks := w.tasks[i := Task(t.id, Pending, ticket.previousAssignee, t.dependencies, t.attempt, None, None, false,
                                      t.output)],
           members := w.members[k := m.(status := if m.status == Removed then Removed else Idle)])
  {
    RollbackTakesEffect(cfg, w, ticket, i);
    var found := Find(w.members, (m: Member) => m.name == ticket.memberName);
    assert found.Some?;
    NamesDiffer(cfg, w, found.value, k);
    assert w.members[k := w.members[k]] == w.members;
    TaskNumbered(w.tasks, ticket.taskId);
    assert TicketOk(w, ticket);
  }

  /** Once the capability is gone there is nothing to take back. */
  lemma RejectTooLate(cfg: Config, w: World, ticket: Ticket)
    requires BaseInv(cfg, w)
    requires !w.live || forall i | 0 <= i < |w.tasks| :: w.tasks[i].attemptId != Some(ticket.attemptId)
    ensures Step(cfg, w, DispatchRejected(ticket)).0 == w.(tickets := w.tickets - {ticket})
  {
    assert ticket !in w.tickets ==> w.tickets - {ticket} == w.tickets;
  }

  // ---- Parking ------------------------------------------------------------------------------------------

  /** The member with session `id` holds open work under capability `a`. */
  ghost predicate Holds(w: World, id: AgentId, a: Token) {
    exists k: nat, i: nat | k < |w.members| && i < |w.tasks| ::
      w.members[k].id == id && w.members[k].status != Removed && Owns(w, w.members[k], i) &&
      w.tasks[i].attemptId == Some(a)
  }

  ghost predicate IsThere(w: World, id: AgentId) {
    exists k | 0 <= k < |w.members| :: w.members[k].id == id && w.members[k].status != Removed
  }

  lemma MemberById(cfg: Config, w: World, k: nat)
    requires BaseInv(cfg, w) && k < |w.members| && w.members[k].status != Removed
    ensures Find(w.members, (m: Member) => m.id == w.members[k].id && m.status != Removed) == Some(k)
  {
    var found := Find(w.members, (m: Member) => m.id == w.members[k].id && m.status != Removed);
    assert found.Some?;
  }

  lemma EdgePresence(cfg: Config, w: World, k: nat, running: bool)
    requires BaseInv(cfg, w) && w.live && k < |w.members| && w.members[k].status != Removed
    ensures var (m, w') := (w.members[k], ActivityStep(w, w.members[k].id, running).0);
      w' == w.(parked := w'.parked, members := w.members[k := m.(status := if running then Working else Idle)]) &&
      forall id, a :: id != m.id ==> (ParkedAs(w', id, a) <==> ParkedAs(w, id, a))
  {
    MemberById(cfg, w, k);
    var status := if running then Working else Idle;
    assert w.members[k].status == status ==> w.members[k := w.members[k].(status := status)] == w.members;
  }

  lemma EdgeParks(cfg: Config, w: World, k: nat, running: bool, a: Token)
    requires ConfigOk(cfg) && BaseInv(cfg, w) && w.live && k < |w.members| && w.members[k].status != Removed
    ensures ParkedAs(ActivityStep(w, w.members[k].id, running).0, w.members[k].id, a) <==>
      !running && exists i: nat | i < |w.tasks| :: Owns(w, w.members[k], i) && w.tasks[i].attemptId == Some(a)
  {
    MemberById(cfg, w, k);
    OpenIsOwned(cfg, w, k);
  }

  /** An edge of a member's session sets its presence, and parks what it holds when it goes idle, else nothing. */
  lemma EdgeExactly(cfg: Config, w: World, k: nat, running: bool)
    requires ConfigOk(cfg) && BaseInv(cfg, w) && w.live && k < |w.members| && w.members[k].status != Removed
    ensures var (m, w') := (w.members[k], Step(cfg, w, MemberActivity(w.members[k].id, running)).0);
      w' == w.(parked := w'.parked, members := w.members[k := m.(status := if running then Working else Idle)]) &&
      (forall a: Token :: ParkedAs(w', m.id, a) <==> !running && Holds(w, m.id, a)) &&
      (forall id, a :: id != m.id ==> (ParkedAs(w', id, a) <==> ParkedAs(w, id, a)))
  {
    var id := w.members[k].id;
    assert Step(cfg, w, MemberActivity(id, running)) == ActivityStep(w, id, running);
    EdgePresence(cfg, w, k, running);
    HeldIsOwned(cfg, w, k);
    forall a: Token ensures ParkedAs(ActivityStep(w, id, running).0, id, a) <==> !running && Holds(w, id, a) {
      EdgeParks(cfg, w, k, running, a);
    }
  }

  lemma HeldIsOwned(cfg: Config, w: World, k: nat)
    requires BaseInv(cfg, w) && k < |w.members| && w.members[k].status != Removed
    ensures forall a: Token :: Holds(w, w.members[k].id, a) <==>
      exists i: nat | i < |w.tasks| :: Owns(w, w.members[k], i) && w.tasks[i].attemptId == Some(a)
  {
    forall j: nat | j < |w.members| && w.members[j].id == w.members[k].id ensures j == k {
    }
  }

  /** An idle worker keeps its task: after its idle edge a kick changes no task at all. */
  lemma IdleWorkStays(cfg: Config, w: World, k: nat, a: Token, available: bool)
    requires ConfigOk(cfg) && BaseInv(cfg, w) && w.live && k < |w.members| && w.members[k].status != Removed
    requires Holds(w, w.members[k].id, a)
    ensures var w1 := Step(cfg, w, MemberActivity(w.members[k].id, false)).0;
      ParkedAs(w1, w.members[k].id, a) && Step(cfg, w1, Dispatch(w.members[k].name, available)).0.tasks == w.tasks
  {
    var w1 := Step(cfg, w, MemberActivity(w.members[k].id, false)).0;
    EdgeExactly(cfg, w, k, false);
    StepBase(cfg, w, MemberActivity(w.members[k].id, false));
    HeldIsOwned(cfg, w, k);
    var i: nat :| i < |w.tasks| && Owns(w, w.members[k], i) && w.tasks[i].attemptId == Some(a);
    assert Owns(w1, w1.members[k], i);
    forall j ensures !Due(w1, w1.members[k], j) {
      if Owns(w1, w1.members[k], j) {
        OnlyOneOpen(cfg, w1, k, i, j);
      }
    }
    if available {
      DispatchOfNothing(cfg, w1, k);
    } else {
      DispatchOfNobody(cfg, w1, w1.members[k].name, available);
    }
  }

  /** The idle edge of a member's session that finds it holding `a`. */
  ghost predicate Parks(w: World, ev: Event, id: AgentId, a: Token) {
    ev == MemberActivity(id, false) && w.live && Holds(w, id, a)
  }

  /** What makes the process forget what it parked for `id`. */
  ghost predicate Forgets(cfg: Config, w: World, ev: Event, id: AgentId) {
    match ev
    case MemberActivity(agentId, _) => agentId == id && w.live && IsThere(w, id)
    case MemberLookup(agentId) => agentId == id && !(w.live && (id == w.captain || IsThere(w, id)))
    case Dispatch(_, _) => var r := Step(cfg, w, ev).1; r.Dispatched? && r.ticket.memberId == id
    case Restart => true
    case _ => false
  }

  lemma ParkedByEdge(cfg: Config, w: World, id: AgentId, running: bool, a: Token)
    requires ConfigOk(cfg) && BaseInv(cfg, w)
    ensures var ev := MemberActivity(id, running);
      ParkedAs(Step(cfg, w, ev).0, id, a) <==> Parks(w, ev, id, a) || (ParkedAs(w, id, a) && !Forgets(cfg, w, ev, id))
  {
    if w.live && IsThere(w, id) {
      var k :| 0 <= k < |w.members| && w.members[k].id == id && w.members[k].status != Removed;
      EdgeExactly(cfg, w, k, running);
    }
  }

  lemma ToolsPark(cfg: Config, w: World, ev: Event)
    requires TaskTool(ev) || ev.CreateTask?
    ensures Step(cfg, w, ev).0.parked == w.parked
  {
  }

  lemma OthersParked(cfg: Config, w: World, ev: Event, id: AgentId)
    requires !TaskTool(ev) && !ev.CreateTask? && (!ev.MemberActivity? || ev.agentId != id)
    requires !ev.MemberLookup? && !ev.Dispatch? && !ev.Restart? && !ev.RetireAll?
    ensures forall a :: ParkedAs(Step(cfg, w, ev).0, id, a) <==> ParkedAs(w, id, a)
  {
  }

  /** Looking a session up forgets what was parked for one without a place in the team, and changes nothing else. */
  lemma LookupExactly(cfg: Config, w: World, id: AgentId)
    ensures Step(cfg, w, MemberLookup(id)).0 ==
      if w.live && (id == w.captain || IsThere(w, id)) then w else w.(parked := w.parked - {id})
  {
  }

  lemma {:induction false} RetireParks(w: World, k: nat)
    requires k <= |w.members|
    ensures RetireFrom(w, k).parked == w.parked
    decreases |w.members| - k
  {
    if k < |w.members| {
      RetireParks(if w.members[k].status == Removed then w else RetireOne(w, k), k + 1);
    }
  }

  lemma ParkedByDispatch(cfg: Config, w: World, name: Name, available: bool, id: AgentId, a: Token)
    ensures var ev := Dispatch(name, available);
      ParkedAs(Step(cfg, w, ev).0, id, a) <==> ParkedAs(w, id, a) && !Forgets(cfg, w, ev, id)
  {
  }

  lemma ParkedByLookup(cfg: Config, w: World, agentId: AgentId, id: AgentId, a: Token)
    ensures var ev := MemberLookup(agentId);
      ParkedAs(Step(cfg, w, ev).0, id, a) <==> ParkedAs(w, id, a) && !Forgets(cfg, w, ev, id)
  {
  }

  /** One section: parked afterwards is what it parks, and what was parked and it does not forget. */
  lemma ParkedExactly(cfg: Config, w: World, ev: Event, id: AgentId, a: Token)
    requires ConfigOk(cfg) && BaseInv(cfg, w)
    ensures ParkedAs(Step(cfg, w, ev).0, id, a) <==>
      Parks(w, ev, id, a) || (ParkedAs(w, id, a) && !Forgets(cfg, w, ev, id))
  {
    if ev.MemberActivity? && ev.agentId == id {
      ParkedByEdge(cfg, w, id, ev.running, a);
    } else if ev.Dispatch? {
      ParkedByDispatch(cfg, w, ev.name, ev.available, id, a);
    } else if ev.MemberLookup? {
      ParkedByLookup(cfg, w, ev.agentId, id, a);
    } else if ev.RetireAll? {
      RetireParks(w, 0);
    } else if TaskTool(ev) || ev.CreateTask? {
      ToolsPark(cfg, w, ev);
    } else if !ev.Restart? {
      OthersParked(cfg, w, ev, id);
    }
  }

  /** Section `l` of the run was the idle edge that parked `a` for `id`. */
  ghost predicate ParksAt(ws: seq<World>, evs: seq<Event>, l: nat, id: AgentId, a: Token) {
    l < |evs| && l < |ws| && Parks(ws[l], evs[l], id, a)
  }

  ghost predicate ForgetsAt(cfg: Config, ws: seq<World>, evs: seq<Event>, l: nat, id: AgentId) {
    l < |evs| && l < |ws| && Forgets(cfg, ws[l], evs[l], id)
  }

  /** In the run up to `k` an idle edge parked `a`, and nothing since made the process forget it. */
  ghost predicate ParkedSince(cfg: Config, ws: seq<World>, evs: seq<Event>, k: nat, id: AgentId, a: Token) {
    exists j: nat | j < k :: ParksAt(ws, evs, j, id, a) && forall l: nat | j < l < k :: !ForgetsAt(cfg, ws, evs, l, id)
  }

  /** In every run what is parked was found in force by an idle edge that nothing has made the process forget since. */
  lemma {:induction false} ParkedOrigin(cfg: Config, ws: seq<World>, evs: seq<Event>, k: nat, id: AgentId, a: Token)
    requires Run(cfg, ws, evs) && k < |ws|
    ensures ParkedAs(ws[k], id, a) <==> ParkedSince(cfg, ws, evs, k, id, a)
  {
    if k == 0 {
      NothingParkedYet(cfg, ws, evs, id, a);
    } else {
      ParkedOrigin(cfg, ws, evs, k - 1, id, a);
      ParkedNext(cfg, ws, evs, k - 1, id, a);
    }
  }

  lemma NothingParkedYet(cfg: Config, ws: seq<World>, evs: seq<Event>, id: AgentId, a: Token)
    requires Run(cfg, ws, evs)
    ensures !ParkedAs(ws[0], id, a) && !ParkedSince(cfg, ws, evs, 0, id, a)
  {
  }

  lemma ParkedNext(cfg: Config, ws: seq<World>, evs: seq<Event>, k: nat, id: AgentId, a: Token)
    requires Run(cfg, ws, evs) && k < |evs| && (ParkedAs(ws[k], id, a) <==> ParkedSince(cfg, ws, evs, k, id, a))
    ensures ParkedAs(ws[k + 1], id, a) <==> ParkedSince(cfg, ws, evs, k + 1, id, a)
  {
    ParkedSection(cfg, ws, evs, k, id, a);
    ParkedGrows(cfg, ws, evs, k, id, a);
  }

  lemma ParkedSection(cfg: Config, ws: seq<World>, evs: seq<Event>, k: nat, id: AgentId, a: Token)
    requires Run(cfg, ws, evs) && k < |evs|
    ensures ParkedAs(ws[k + 1], id, a) <==>
      ParksAt(ws, evs, k, id, a) || (ParkedAs(ws[k], id, a) && !ForgetsAt(cfg, ws, evs, k, id))
  {
    RunBase(cfg, ws, evs, k);
    ParkedExactly(cfg, ws[k], evs[k], id, a);
    assert ws[k + 1] == Step(cfg, ws[k], evs[k]).0;
  }

  lemma ParkedGrows(cfg: Config, ws: seq<World>, evs: seq<Event>, k: nat, id: AgentId, a: Token)
    requires k < |evs| && k < |ws|
    ensures ParkedSince(cfg, ws, evs, k + 1, id, a) <==>
      ParksAt(ws, evs, k, id, a) || (ParkedSince(cfg, ws, evs, k, id, a) && !ForgetsAt(cfg, ws, evs, k, id))
  {
    if ParksAt(ws, evs, k, id, a) {
      assert ParkedSince(cfg, ws, evs, k + 1, id, a);
    } else if ParkedSince(cfg, ws, evs, k, id, a) && !ForgetsAt(cfg, ws, evs, k, id) {
      var j: nat :| j < k && ParksAt(ws, evs, j, id, a) && forall l: nat | j < l < k :: !ForgetsAt(cfg, ws, evs, l, id);
      assert forall l: nat | j < l < k + 1 :: !ForgetsAt(cfg, ws, evs, l, id);
    }
  }
}
