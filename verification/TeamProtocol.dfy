/**
 The AgentTeams protocol as a state machine: one transition per section that runs under the
 team lock (plugin/src/tools.ts, plugin/src/scheduler.ts). Work that is in flight between two
 locked sections of one operation is carried by tickets and handoffs. Whether a member is
 available, whether a delivery is accepted and whether the old worker quiesces are free inputs.
 */
module TeamProtocol {
  import opened Wrappers
  import opened TeamState

  /** A dispatch whose delivery has not been accepted or refused yet. */
  datatype Ticket = Ticket(taskId: TaskId, memberName: Name, memberId: AgentId, attempt: nat,
                           attemptId: Token, previousAssignee: Option<Name>)

  /** A reassignment between its two locked phases. */
  datatype Handoff = Handoff(taskId: TaskId, handoffId: Token, target: Name)

  /** `key` normalises names for comparison, `trim` strips the blanks around what a tool was given. */
  datatype Config = Config(maxMembers: nat, key: Name -> Name, trim: Name -> Name)

  datatype World = World(
    captain: AgentId,
    live: bool,
    members: seq<Member>,
    tasks: seq<Task>,
    taskSeq: nat,
    parked: map<AgentId, Token>,
    tickets: set<Ticket>,
    handoffs: set<Handoff>,
    nextToken: Token)

  datatype Event =
    | AddMember(caller: AgentId, name: Name, child: Option<AgentId>) // None: selecting or spawning the child failed
    | RemoveMember(caller: AgentId, name: Name)
    | CreateTask(caller: AgentId, dependencies: seq<TaskId>, owner: Option<Name>)
    | ReassignBegin(caller: AgentId, taskId: TaskId, assignee: Name)
    | ReassignCommit(handoff: Handoff, quiesced: bool)
    | ClaimTask(caller: AgentId, taskId: TaskId, owner: Option<Name>)
    | UpdateTask(caller: AgentId, taskId: TaskId, status: Option<Status>, output: Option<string>,
                 attemptId: Option<Token>)
    | RetireAll(caller: AgentId)
    | Archive(caller: AgentId)
    | Dispatch(name: Name, available: bool)
    | DispatchAccepted(ticket: Ticket)
    | DispatchRejected(ticket: Ticket)
    | MemberLookup(agentId: AgentId)
    | MemberActivity(agentId: AgentId, running: bool)
    | Restart

  datatype Refusal =
    | TeamGone | NotCaptain | NotParticipant | EmptyName | ReservedName | DuplicateName | MemberCapReached
    | SpawnFailed
    | NoSuchMember | NoSuchTask | NoSuchDependency(id: TaskId) | CompletedImmutable | AlreadyReassigning
    | MemberBusy(id: TaskId) | ChangedDuringReassignment | BeingReassigned | MemberNamedAssignee
    | AssignedElsewhere | AlreadyClaimed | Blocked(ids: seq<TaskId>) | BadTransition | NeedsAssignee
    | OwnedByMember | StaleAttempt | TerminalImmutable | NotAnUpdateStatus

  datatype Reply =
    | Quiet
    | Refused(why: Refusal)
    | Added(memberId: AgentId)
    | Requeued(ids: seq<TaskId>)
    | Created(id: TaskId)
    | HandoffOpen(handoff: Handoff)
    | Holding(status: Status, owner: Name, attempt: nat, attemptId: Option<Token>)
    | Updated(newStatus: Status, number: nat, current: Option<Token>, text: Option<string>)
    | Dispatched(ticket: Ticket)

  datatype Identity = CaptainIdentity | MemberIdentity(name: Name)

  function Initial(captain: AgentId): World {
    World(captain, true, [], [], 0, map[], {}, {}, 0)
  }

  function IdentityOf(w: World, agent: AgentId): Option<Identity> {
    if w.captain == agent then Some(CaptainIdentity)
    else match Find(w.members, (m: Member) => m.id == agent && m.status != Removed)
      case None => None
      case Some(k) => Some(MemberIdentity(w.members[k].name))
  }

  function Refuse(w: World, why: Refusal): (World, Reply) { (w, Refused(why)) }

  function WithTask(w: World, i: nat, t: Task): World
    requires i < |w.tasks|
  {
    w.(tasks := w.tasks[i := t])
  }

  function WithPresence(w: World, k: nat, status: Presence): World
    requires k < |w.members|
  {
    w.(members := w.members[k := w.members[k].(status := status)])
  }

  function ActiveMembers(members: seq<Member>): nat {
    if members == [] then 0
    else ActiveMembers(members[..|members| - 1]) + if members[|members| - 1].status == Removed then 0 else 1
  }

  predicate KeyTaken(cfg: Config, members: seq<Member>, name: Name) {
    exists k | 0 <= k < |members| :: cfg.key(members[k].name) == cfg.key(name)
  }

  function AddMemberStep(cfg: Config, w: World, caller: AgentId, name: Name, child: Option<AgentId>): (World, Reply) {
    if !w.live then Refuse(w, TeamGone)
    else if caller != w.captain then Refuse(w, NotCaptain)
    else if name == "" then Refuse(w, EmptyName)
    else if cfg.key(name) == CAPTAIN_KEY then Refuse(w, ReservedName)
    else if KeyTaken(cfg, w.members, name) then Refuse(w, DuplicateName)
    else if ActiveMembers(w.members) >= cfg.maxMembers then Refuse(w, MemberCapReached)
    else if child.None? then Refuse(w, SpawnFailed)
    else (w.(members := w.members + [Member(child.value, name, Idle)]), Added(child.value))
  }

  /** Every unfinished task of `name` goes back to the shared pool. */
  function Requeue(tasks: seq<Task>, name: Name, base: Token): seq<Task> {
    seq(|tasks|, i requires 0 <= i < |tasks| =>
      if tasks[i].assignee == Some(name) && tasks[i].status != Completed
      then InvalidateAttempt(tasks[i], None, false, base + i) else tasks[i])
  }

  function RequeuedIds(tasks: seq<Task>, name: Name): seq<TaskId> {
    if tasks == [] then []
    else
      var t := tasks[|tasks| - 1];
      RequeuedIds(tasks[..|tasks| - 1], name) +
      if t.assignee == Some(name) && t.status != Completed then [t.id] else []
  }

  function RemoveMemberStep(w: World, caller: AgentId, name: Name): (World, Reply) {
    if !w.live then Refuse(w, TeamGone)
    else if caller != w.captain then Refuse(w, NotCaptain)
    else match FindActive(w.members, name)
      case None => Refuse(w, NoSuchMember)
      case Some(k) =>
        (WithPresence(w, k, Removed).(tasks := Requeue(w.tasks, name, w.nextToken),
                                      nextToken := w.nextToken + |w.tasks|),
         Requeued(RequeuedIds(w.tasks, name)))
  }

  function MissingDependency(tasks: seq<Task>, dependencies: seq<TaskId>): Option<nat> {
    Find(dependencies, (d: TaskId) => FindTask(tasks, d).None?)
  }

  function CreateTaskStep(w: World, caller: AgentId, dependencies: seq<TaskId>, owner: Option<Name>): (World, Reply) {
    if !w.live then Refuse(w, TeamGone)
    else if caller != w.captain then Refuse(w, NotCaptain)
    else match MissingDependency(w.tasks, dependencies)
      case Some(k) => Refuse(w, NoSuchDependency(dependencies[k]))
      case None =>
        if owner.Some? && FindActive(w.members, owner.value).None? then Refuse(w, NoSuchMember)
        else
          var t := Task(w.taskSeq + 1, Pending, owner, dependencies, 0, None, None, false, None);
          (w.(tasks := w.tasks + [t], taskSeq := w.taskSeq + 1), Created(t.id))
  }

  function ReassignBeginStep(w: World, caller: AgentId, taskId: TaskId, target: Name): (World, Reply) {
    if target == "" then Refuse(w, EmptyName)
    else if !w.live then Refuse(w, TeamGone)
    else if caller != w.captain then Refuse(w, NotCaptain)
    else match FindTask(w.tasks, taskId)
      case None => Refuse(w, NoSuchTask)
      case Some(i) =>
        if w.tasks[i].status == Completed then Refuse(w, CompletedImmutable)
        else if w.tasks[i].reassigning then Refuse(w, AlreadyReassigning)
        else if target != CAPTAIN_KEY && FindActive(w.members, target).None? then Refuse(w, NoSuchMember)
        else
          var busy := OpenTaskOf(w.tasks, target, Some(taskId));
          if target != CAPTAIN_KEY && busy.Some? then Refuse(w, MemberBusy(w.tasks[busy.value].id))
          else
            var h := Handoff(taskId, w.nextToken, target);
            (WithTask(w, i, InvalidateAttempt(w.tasks[i], Some(target), true, w.nextToken))
             .(handoffs := w.handoffs + {h}, nextToken := w.nextToken + 1),
             HandoffOpen(h))
  }

  /** Phase two of a reassignment; the handoff is spent whatever the outcome. */
  function ReassignCommitStep(w0: World, h: Handoff, quiesced: bool): (World, Reply) {
    if h !in w0.handoffs then (w0, Quiet)
    else
      var w := w0.(handoffs := w0.handoffs - {h});
      if !w.live then Refuse(w, TeamGone)
      else match FindTask(w.tasks, h.taskId)
        case None => Refuse(w, NoSuchTask)
        case Some(i) =>
          var t := w.tasks[i];
          if t.handoffId != Some(h.handoffId) || t.assignee != Some(h.target) || !t.reassigning
          then Refuse(w, ChangedDuringReassignment)
          else if quiesced && h.target == CAPTAIN_KEY then
            (WithTask(w, i, BeginAttempt(t, CAPTAIN_KEY, w.nextToken)).(nextToken := w.nextToken + 1),
             Holding(Claimed, CAPTAIN_KEY, t.attempt + 1, Some(w.nextToken)))
          else
            (WithTask(w, i, t.(reassigning := false)), Holding(t.status, h.target, t.attempt, t.attemptId))
  }

  /** For whom a claim is made, or why the caller may not make it. */
  function ClaimOwner(w: World, who: Identity, t: Task, owner: Option<Name>): (r: (Option<Name>, Option<Refusal>)) {
    if who.CaptainIdentity? then
      if owner.None? then (t.assignee, None)
      else if FindActive(w.members, owner.value).None? then (None, Some(NoSuchMember))
      else (owner, None)
    else if owner.Some? then (None, Some(MemberNamedAssignee))
    else if t.assignee.Some? && t.assignee != Some(who.name) then (None, Some(AssignedElsewhere))
    else (Some(who.name), None)
  }

  function ClaimStep(w: World, caller: AgentId, taskId: TaskId, owner: Option<Name>): (World, Reply) {
    if !w.live then Refuse(w, TeamGone)
    else match IdentityOf(w, caller)
      case None => Refuse(w, NotParticipant)
      case Some(who) =>
        match FindTask(w.tasks, taskId)
        case None => Refuse(w, NoSuchTask)
        case Some(i) =>
          var t := w.tasks[i];
          if t.reassigning then Refuse(w, BeingReassigned)
          else
            var (assignee, refusal) := ClaimOwner(w, who, t, owner);
            if refusal.Some? then Refuse(w, refusal.value)
            else if t.status.Open() then
              if assignee.None? || t.assignee != assignee then Refuse(w, AlreadyClaimed)
              else (w, Holding(t.status, assignee.value, t.attempt, t.attemptId))
            else if Unsatisfied(w.tasks, t.dependencies) != [] then
              Refuse(w, Blocked(Unsatisfied(w.tasks, t.dependencies)))
            else if !TransitionAllowed(t.status, Claimed) then Refuse(w, BadTransition)
            else if assignee.None? then Refuse(w, NeedsAssignee)
            else
              var busy := OpenTaskOf(w.tasks, assignee.value, Some(taskId));
              if busy.Some? then Refuse(w, MemberBusy(w.tasks[busy.value].id))
              else
                (WithTask(w, i, BeginAttempt(t, assignee.value, w.nextToken)).(nextToken := w.nextToken + 1),
                 Holding(Claimed, assignee.value, t.attempt + 1, Some(w.nextToken)))
  }

  function UpdateStep(w: World, caller: AgentId, taskId: TaskId, status: Option<Status>, output: Option<string>,
                      attemptId: Option<Token>): (World, Reply)
  {
    if status == Some(Pending) || status == Some(Claimed) then Refuse(w, NotAnUpdateStatus)
    else if !w.live then Refuse(w, TeamGone)
    else match IdentityOf(w, caller)
      case None => Refuse(w, NotParticipant)
      case Some(who) =>
        match FindTask(w.tasks, taskId)
        case None => Refuse(w, NoSuchTask)
        case Some(i) =>
          var t := w.tasks[i];
          if who.CaptainIdentity? && t.assignee.Some? && t.assignee != Some(CAPTAIN_KEY) then
            Refuse(w, OwnedByMember)
          else if who.MemberIdentity? && t.assignee != Some(who.name) then Refuse(w, AssignedElsewhere)
          else if who.MemberIdentity? && t.attemptId.Some? && attemptId != t.attemptId then
            Refuse(w, StaleAttempt)
          else if t.status.Terminal() then
            if (status.Some? && status != Some(t.status)) || (output.Some? && output != t.output) then
              Refuse(w, TerminalImmutable)
            else (w, Updated(t.status, t.attempt, t.attemptId, t.output))
          else if status.Some? && !TransitionAllowed(t.status, status.value) then Refuse(w, BadTransition)
          else
            var t' := t.(status := if status.Some? then status.value else t.status,
                         output := if output.Some? then output else t.output);
            (WithTask(w, i, t'), Updated(t'.status, t'.attempt, t'.attemptId, t'.output))
  }

  /** Deletion, first section: retire members `k..` one after the other. */
  function RetireFrom(w: World, k: nat): World
    requires k <= |w.members|
    decreases |w.members| - k
  {
    if k == |w.members| then w
    else if w.members[k].status == Removed then RetireFrom(w, k + 1)
    else
      RetireFrom(WithPresence(w, k, Removed).(
                   tasks := Requeue(w.tasks, w.members[k].name, w.nextToken),
                   nextToken := w.nextToken + |w.tasks|), k + 1)
  }

  function RetireAllStep(w: World, caller: AgentId): (World, Reply) {
    if !w.live then Refuse(w, TeamGone)
    else if caller != w.captain then Refuse(w, NotCaptain)
    else (RetireFrom(w, 0), Quiet)
  }

  function ArchiveStep(w: World, caller: AgentId): (World, Reply) {
    if !w.live then Refuse(w, TeamGone)
    else if caller != w.captain then Refuse(w, NotCaptain)
    else (w.(live := false), Quiet)
  }

  /** Which task the scheduler gives a member: a stranded one of its own, or the next ready one. */
  function SelectTask(w: World, m: Member): Option<nat> {
    var owned := OpenTaskOf(w.tasks, m.name, None);
    if owned.None? then NextReady(w.tasks, m.name)
    else
      var attemptId := w.tasks[owned.value].attemptId;
      if attemptId.Some? && m.id in w.parked && w.parked[m.id] == attemptId.value then None else owned
  }

  function DispatchStep(w: World, name: Name, available: bool): (World, Reply) {
    if !w.live then (w, Quiet)
    else match FindActive(w.members, name)
      case None => (w, Quiet)
      case Some(k) =>
        var m := w.members[k];
        if m.id == "" || !available then (w, Quiet)
        else match SelectTask(w, m)
          case None => (if m.status == Idle then w else WithPresence(w, k, Idle), Quiet)
          case Some(i) =>
            var t := BeginAttempt(w.tasks[i], m.name, w.nextToken);
            var ticket := Ticket(t.id, m.name, m.id, t.attempt, w.nextToken, w.tasks[i].assignee);
            (WithPresence(WithTask(w, i, t), k, Working).(
               parked := w.parked - {m.id}, tickets := w.tickets + {ticket}, nextToken := w.nextToken + 1),
             Dispatched(ticket))
  }

  function AcceptedStep(w: World, ticket: Ticket): (World, Reply) {
    (w.(tickets := w.tickets - {ticket}), Quiet)
  }

  function RolledBack(t: Task, ticket: Ticket): Task {
    t.(status := Pending, assignee := ticket.previousAssignee, attemptId := None, handoffId := None,
       reassigning := false)
  }

  /** A failed delivery undoes exactly its own dispatch. */
  function RejectedStep(w0: World, ticket: Ticket): (World, Reply) {
    if ticket !in w0.tickets then (w0, Quiet)
    else
      var w := w0.(tickets := w0.tickets - {ticket});
      if !w.live then (w, Quiet)
      else match FindTask(w.tasks, ticket.taskId)
        case None => (w, Quiet)
        case Some(i) =>
          if w.tasks[i].attemptId != Some(ticket.attemptId) then (w, Quiet)
          else
            var w1 := WithTask(w, i, RolledBack(w.tasks[i], ticket));
            match Find(w.members, (m: Member) => m.name == ticket.memberName)
            case None => (w1, Quiet)
            case Some(k) => (if w.members[k].status == Removed then w1 else WithPresence(w1, k, Idle), Quiet)
  }

  /** A status edge of a session without a place in the team forgets what was parked for it; no lock is held. */
  function LookupStep(w: World, agentId: AgentId): (World, Reply) {
    if w.live && IdentityOf(w, agentId).Some? then (w, Quiet) else (w.(parked := w.parked - {agentId}), Quiet)
  }

  /** Then, under the lock: an idle edge parks the member's open attempt, a running edge forgets it. */
  function ActivityStep(w: World, agentId: AgentId, running: bool): (World, Reply) {
    if !w.live then (w, Quiet)
    else match Find(w.members, (m: Member) => m.id == agentId && m.status != Removed)
      case None => (w, Quiet)
      case Some(k) =>
        var owned := OpenTaskOf(w.tasks, w.members[k].name, None);
        var w1 := if running || owned.None? || w.tasks[owned.value].attemptId.None? then w.(parked := w.parked - {agentId})
                  else w.(parked := w.parked[agentId := w.tasks[owned.value].attemptId.value]);
        var next := if running then Working else Idle;
        (if w.members[k].status == next then w1 else WithPresence(w1, k, next), Quiet)
  }

  /** A cold restart loses everything that lives only in the process. */
  function RestartStep(w: World): (World, Reply) {
    (w.(parked := map[], tickets := {}, handoffs := {}), Quiet)
  }

  function Step(cfg: Config, w: World, ev: Event): (World, Reply) {
    match ev
    case AddMember(caller, name, child) => AddMemberStep(cfg, w, caller, cfg.trim(name), child)
    case RemoveMember(caller, name) => RemoveMemberStep(w, caller, name)
    case CreateTask(caller, dependencies, owner) => CreateTaskStep(w, caller, dependencies, owner)
    case ReassignBegin(caller, taskId, assignee) => ReassignBeginStep(w, caller, taskId, cfg.trim(assignee))
    case ReassignCommit(handoff, quiesced) => ReassignCommitStep(w, handoff, quiesced)
    case ClaimTask(caller, taskId, owner) => ClaimStep(w, caller, taskId, owner)
    case UpdateTask(caller, taskId, status, output, attemptId) =>
      UpdateStep(w, caller, taskId, status, output, attemptId)
    case RetireAll(caller) => RetireAllStep(w, caller)
    case Archive(caller) => ArchiveStep(w, caller)
    case Dispatch(name, available) => DispatchStep(w, name, available)
    case DispatchAccepted(ticket) => AcceptedStep(w, ticket)
    case DispatchRejected(ticket) => RejectedStep(w, ticket)
    case MemberLookup(agentId) => LookupStep(w, agentId)
    case MemberActivity(agentId, running) => ActivityStep(w, agentId, running)
    case Restart => RestartStep(w)
  }
}
