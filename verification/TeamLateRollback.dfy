/**
 A run of the AgentTeams protocol in which one delivery is reported as failed only after the
 member has already finished the task it was told about. The rollback guard compares nothing but
 the attempt id, and a completed task keeps its attempt id.
 */
module TeamLateRollback {
  import opened Wrappers
  import opened TeamState
  import opened TeamProtocol
  import opened TeamInvariants
  import opened TeamSafety

  const CONFIG := Config(8, (name: Name) => name, (name: Name) => name)

  const TICKET := Ticket(1, "w", "s1", 1, 0, Some("w"))

  /** Captain "c", members "w" and "v"; task 2 depends on task 1. */
  const EVENTS: seq<Event> := [
    AddMember("c", "w", Some("s1")),
    AddMember("c", "v", Some("s2")),
    CreateTask("c", [], Some("w")),
    CreateTask("c", [1], None),
    Dispatch("w", true),
    UpdateTask("s1", 1, Some(InProgress), None, Some(0)),
    UpdateTask("s1", 1, Some(Completed), Some("done"), Some(0)),
    Dispatch("v", true),
    RemoveMember("c", "w"),
    DispatchRejected(TICKET)]

  ghost function Roster(w: Presence, v: Presence): seq<Member> {
    [Member("s1", "w", w), Member("s2", "v", v)]
  }

  ghost function First(status: Status, attempt: nat, attemptId: Option<Token>, output: Option<string>): Task {
    Task(1, status, Some("w"), [], attempt, attemptId, None, false, output)
  }

  ghost function Second(status: Status, owner: Option<Name>, attempt: nat, attemptId: Option<Token>): Task {
    Task(2, status, owner, [1], attempt, attemptId, None, false, None)
  }

  ghost function AfterSetup(): World {
    World("c", true, Roster(Idle, Idle), [First(Pending, 0, None, None), Second(Pending, None, 0, None)], 2,
          map[], {}, {}, 0)
  }

  ghost function AfterFirstDispatch(): World {
    AfterSetup().(members := Roster(Working, Idle),
                  tasks := [First(Claimed, 1, Some(0), None), Second(Pending, None, 0, None)],
                  tickets := {TICKET}, nextToken := 1)
  }

  ghost function AfterCompletion(): World {
    AfterFirstDispatch().(tasks := [First(Completed, 1, Some(0), Some("done")), Second(Pending, None, 0, None)])
  }

  const OTHER := Ticket(2, "v", "s2", 1, 1, None)

  ghost function AfterSecondDispatch(): World {
    AfterCompletion().(members := Roster(Working, Working),
                       tasks := [First(Completed, 1, Some(0), Some("done")), Second(Claimed, Some("v"), 1, Some(1))],
                       tickets := {TICKET, OTHER}, nextToken := 2)
  }

  ghost function AfterRemoval(): World {
    AfterSecondDispatch().(members := Roster(Removed, Working), nextToken := 4)
  }

  ghost function AfterRollback(): World {
    AfterRemoval().(tasks := [First(Pending, 1, None, Some("done")), Second(Claimed, Some("v"), 1, Some(1))],
                    tickets := {OTHER})
  }

  ghost function States(): seq<World> {
    var w0 := Initial("c");
    var w1 := w0.(members := [Member("s1", "w", Idle)]);
    var w2 := w1.(members := Roster(Idle, Idle));
    var w3 := w2.(tasks := [First(Pending, 0, None, None)], taskSeq := 1);
    var w6 := AfterFirstDispatch().(tasks := [First(InProgress, 1, Some(0), None), Second(Pending, None, 0, None)]);
    [w0, w1, w2, w3, AfterSetup(), AfterFirstDispatch(), w6, AfterCompletion(), AfterSecondDispatch(),
     AfterRemoval(), AfterRollback()]
  }

  lemma MembersJoin()
    ensures States()[1] == Step(CONFIG, States()[0], EVENTS[0]).0
    ensures States()[2] == Step(CONFIG, States()[1], EVENTS[1]).0
  {
  }

  lemma TasksCreated()
    ensures States()[3] == Step(CONFIG, States()[2], EVENTS[2]).0
    ensures AfterSetup() == Step(CONFIG, States()[3], EVENTS[3]).0
  {
  }

  lemma FirstDispatch()
    ensures AfterFirstDispatch() == Step(CONFIG, AfterSetup(), EVENTS[4]).0
  {
  }

  lemma Completion()
    ensures States()[6] == Step(CONFIG, AfterFirstDispatch(), EVENTS[5]).0
    ensures AfterCompletion() == Step(CONFIG, States()[6], EVENTS[6]).0
  {
  }

  lemma SecondDispatch()
    ensures AfterSecondDispatch() == Step(CONFIG, AfterCompletion(), EVENTS[7]).0
  {
  }

  lemma RemovalAndRollback()
    ensures AfterRemoval() == Step(CONFIG, AfterSecondDispatch(), EVENTS[8]).0
    ensures AfterRollback() == Step(CONFIG, AfterRemoval(), EVENTS[9]).0
  {
  }

  ghost predicate StepIs(k: nat)
    requires k < |EVENTS|
  {
    GoodSpawn(States()[k], EVENTS[k]) && States()[k + 1] == Step(CONFIG, States()[k], EVENTS[k]).0
  }

  lemma FirstHalf(k: nat)
    requires k < 5
    ensures StepIs(k)
  {
    MembersJoin();
    TasksCreated();
    FirstDispatch();
  }

  lemma SecondHalf(k: nat)
    requires 5 <= k < |EVENTS|
    ensures StepIs(k)
  {
    Completion();
    SecondDispatch();
    RemovalAndRollback();
  }

  lemma EventsAreARun()
    ensures Run(CONFIG, States(), EVENTS)
  {
    forall k {:trigger EVENTS[k]} | 0 <= k < |EVENTS| ensures StepIs(k) {
      if k < 5 {
        FirstHalf(k);
      } else {
        SecondHalf(k);
      }
    }
  }

  /**
   Without the hypothesis `Clean`, a run reaches a state in which a completed task is pending
   again, is held by a removed member, and a task that depends on it is already being worked on.
   */
  lemma LateRollbackBreaksSafety()
    ensures Run(CONFIG, States(), EVENTS) && !Clean(AfterRemoval(), EVENTS[9])
    ensures States()[9] == AfterRemoval() && States()[10] == AfterRollback()
    ensures AfterRemoval().tasks[0].status == Completed && AfterRollback().tasks[0].status == Pending
    ensures !DepsSafe(AfterRollback().tasks) && !NothingHeldByDeparted(AfterRollback())
  {
    EventsAreARun();
    var before, after := AfterRemoval(), AfterRollback();
    assert before.tasks[0].attemptId == Some(TICKET.attemptId);
    assert 1 in after.tasks[1].dependencies && !DepsDone(after.tasks, 1);
    assert !IsActive(after.members, "w") && after.tasks[0].assignee == Some("w");
  }
}
