/**
 The durable team record and the pure task rules of plugin/src/state.ts and plugin/src/types.ts.

 A task id "t<n>" is represented by n, and a random UUID by a token drawn from a counter.
 */
module TeamState {
  import opened Wrappers

  type Name = string
  type AgentId = string
  type TaskId = nat
  type Token = nat

  const CAPTAIN_KEY: Name := "captain"

  datatype Status = Pending | Claimed | InProgress | Completed | Failed | Cancelled {
    /** The two statuses in which somebody is working on the task. */
    predicate Open() { Claimed? || InProgress? }

    predicate Terminal() { Completed? || Failed? || Cancelled? }

    /** Statuses that are only reachable through an execution attempt. */
    predicate Worked() { Claimed? || InProgress? || Completed? || Failed? }
  }

  datatype Presence = Idle | Working | Removed

  datatype Member = Member(id: AgentId, name: Name, status: Presence)

  datatype Task = Task(
    id: TaskId,
    status: Status,
    assignee: Option<Name>,
    dependencies: seq<TaskId>,
    attempt: nat,
    attemptId: Option<Token>,
    handoffId: Option<Token>,
    reassigning: bool,
    output: Option<string>)

  /** TASK_TRANSITIONS together with the "no change" case of transitionError. */
  predicate TransitionAllowed(current: Status, next: Status) {
    || current == next
    || match current
       case Pending => next == Claimed || next == Cancelled
       case Claimed => next == InProgress || next == Failed || next == Cancelled
       case InProgress => next == Completed || next == Failed || next == Cancelled
       case _ => false
  }

  function ActivateAttempt(task: Task, assignee: Name, token: Token): Task {
    task.(status := Claimed, assignee := Some(assignee), attemptId := Some(token),
          handoffId := None, reassigning := false, output := None)
  }

  function BeginAttempt(task: Task, assignee: Name, token: Token): Task {
    ActivateAttempt(task.(attempt := task.attempt + 1), assignee, token)
  }

  function InvalidateAttempt(task: Task, next: Option<Name>, reassigning: bool, token: Token): Task {
    task.(status := Pending, assignee := next, attemptId := None,
          handoffId := Some(token), reassigning := reassigning, output := None)
  }

  function FindTask(tasks: seq<Task>, id: TaskId): Option<nat> {
    Find(tasks, (t: Task) => t.id == id)
  }

  function FindActive(members: seq<Member>, name: Name): Option<nat> {
    Find(members, (m: Member) => m.name == name && m.status != Removed)
  }

  /** The id -> task table that the dependency check builds (a later duplicate would win). */
  function ById(tasks: seq<Task>): (m: map<TaskId, Task>) {
    if tasks == [] then map[]
    else ById(tasks[..|tasks| - 1])[tasks[|tasks| - 1].id := tasks[|tasks| - 1]]
  }

  function Unsatisfied(tasks: seq<Task>, dependencies: seq<TaskId>): seq<TaskId> {
    if dependencies == [] then []
    else
      var rest := Unsatisfied(tasks, dependencies[1..]);
      var d := dependencies[0];
      if d in ById(tasks) && ById(tasks)[d].status == Completed then rest else [d] + rest
  }

  /** First task the member is working on, other than `except`. */
  function OpenTaskOf(tasks: seq<Task>, name: Name, except: Option<TaskId>): Option<nat> {
    Find(tasks, (t: Task) => Some(t.id) != except && t.assignee == Some(name) && t.status.Open())
  }

  predicate Ready(tasks: seq<Task>, t: Task) {
    t.status == Pending && !t.reassigning && Unsatisfied(tasks, t.dependencies) == []
  }

  /** A ready task assigned to the member, else the first ready unassigned one. */
  function NextReady(tasks: seq<Task>, name: Name): Option<nat> {
    var own := Find(tasks, (t: Task) => Ready(tasks, t) && t.assignee == Some(name));
    if own.Some? then own else Find(tasks, (t: Task) => Ready(tasks, t) && t.assignee == None)
  }

  /** Task ids are 1, 2, 3, ... in creation order, and dependencies name earlier tasks. */
  ghost predicate Numbered(tasks: seq<Task>) {
    forall i {:trigger tasks[i]} | 0 <= i < |tasks| ::
      tasks[i].id == i + 1 && forall d | d in tasks[i].dependencies :: 1 <= d <= i
  }

  /** Every dependency of task number `i` has completed. */
  ghost predicate DepsDone(tasks: seq<Task>, i: nat)
    requires i < |tasks|
  {
    forall d | d in tasks[i].dependencies :: 1 <= d <= |tasks| && tasks[d - 1].status == Completed
  }

  lemma {:induction false} ByIdNumbered(tasks: seq<Task>)
    requires forall i | 0 <= i < |tasks| :: tasks[i].id == i + 1
    ensures forall d: TaskId :: d in ById(tasks) <==> 1 <= d <= |tasks|
    ensures forall d: TaskId | 1 <= d <= |tasks| :: ById(tasks)[d] == tasks[d - 1]
  {
    if tasks != [] {
      ByIdNumbered(tasks[..|tasks| - 1]);
    }
  }

  /** The dependency check passes exactly when every named task exists and has completed. */
  lemma {:induction false} UnsatisfiedMeaning(tasks: seq<Task>, dependencies: seq<TaskId>)
    requires forall i | 0 <= i < |tasks| :: tasks[i].id == i + 1
    ensures forall d :: d in Unsatisfied(tasks, dependencies) <==>
              d in dependencies && !(1 <= d <= |tasks| && tasks[d - 1].status == Completed)
  {
    ByIdNumbered(tasks);
    if dependencies != [] {
      UnsatisfiedMeaning(tasks, dependencies[1..]);
    }
  }
}
