/**
 The gated retry ladder: NudgeState of dsh-lite-cpp/src/nudge.cpp and the loop of runGatedTask in
 dsh-lite-cpp/src/brain.cpp. Everything outside the ladder (binder, gate, sandbox, postcondition, planner,
 re-solicitation) is a hook that may answer differently in every iteration.
 */
module RetryLadder {
  import opened Wrappers

  const MAX_NUDGE_DEPTH: nat := 3
  const MAX_ROUNDS_PER_TASK: nat := 2

  type Payload = string
  type Argv = seq<string>

  /** NudgeState, of one task id. */
  datatype Nudge = Nudge(depth: nat, rounds: nat, stopped: bool)

  const FRESH := Nudge(0, 0, false)

  datatype Scope = FullScope | NarrowOrReroute
  datatype Verdict = Allow | MustNarrowOrReroute | StopAndReport

  datatype Gate = GateThrows | Refused | ProposeOnly | Approved
  datatype Spawn = SpawnThrows | Exited(exitCode: int, timedOut: bool)

  datatype Disposition =
    | Running | GateRefused | ProposedOnly | SpawnError | Verified | VerifiedExitOnly
    | VerifyFailedStop | StopReport | NudgeRefused

  /** One thing a run did, in order: bind an argv from a payload, pass a payload through the gate, spawn an argv. */
  datatype Action = Bound(payload: Payload, argv: Argv) | Gated(payload: Payload) | Spawned(argv: Argv)

  datatype Line = Deny | ReportLine | VerifyLine(pass: bool) | NudgeLine(depth: nat)

  datatype Report = Report(
    disposition: Disposition, spawns: nat, resolicits: nat, last: Spawn, postPass: bool,
    actions: seq<Action>, ledger: seq<Line>)

  const STARTED := Report(Running, 0, 0, SpawnThrows, false, [], [])

  /**
   The environment of one call, by iteration. An absent hook is None; a hook that throws answers None.
   `resolicit` answers Some(Some(p)) for a new payload, Some(None) for none.
   */
  datatype Hooks = Hooks(
    argv: Argv,
    bind: Option<(nat, Payload) -> Option<Argv>>,
    gate: Payload -> Gate,
    spawn: (nat, Argv) -> Spawn,
    post: Option<nat -> Option<bool>>,
    planner: Option<(nat, nat, Payload) -> (Scope, Payload)>,
    resolicit: Option<nat -> Option<Option<Payload>>>,
    maxResolicits: int)

  // ---- The counters -------------------------------------------------------------------------------

  predicate NudgeAllowed(s: Nudge) { !s.stopped && s.depth < MAX_NUDGE_DEPTH }

  /** recordNudge; None is the exception that names the cap. */
  function RecordNudge(s: Nudge): Option<Nudge> {
    if NudgeAllowed(s) then Some(s.(depth := s.depth + 1)) else None
  }

  function UserTurn(s: Nudge): Nudge { s.(depth := 0) }

  function RecordRetry(s: Nudge, scope: Scope): (Nudge, Verdict) {
    if s.stopped then (s, StopAndReport)
    else if s.rounds < MAX_ROUNDS_PER_TASK then (s.(rounds := s.rounds + 1), Allow)
    else if s.rounds == MAX_ROUNDS_PER_TASK then
      if scope == NarrowOrReroute then (s.(rounds := s.rounds + 1), Allow) else (s, MustNarrowOrReroute)
    else (s.(stopped := true), StopAndReport)
  }

  /** `n` nudges in a row; None once one of them is refused. */
  function NudgeTimes(s: Nudge, n: nat): Option<Nudge> {
    if n == 0 then Some(s)
    else
      var before := NudgeTimes(s, n - 1);
      if before.Some? then RecordNudge(before.value) else None
  }

  lemma {:induction false} NudgesLeft(s: Nudge, n: nat)
    ensures NudgeTimes(s, n).Some? <==> n == 0 || (!s.stopped && s.depth + n <= MAX_NUDGE_DEPTH)
    ensures NudgeTimes(s, n).Some? ==> NudgeTimes(s, n).value == s.(depth := s.depth + n)
  {
    if n > 0 {
      NudgesLeft(s, n - 1);
    }
  }

  /** A user turn gives a lineage that is not stopped three nudges again, and changes no retry verdict. */
  lemma TurnRenewsNudges(s: Nudge, n: nat, scope: Scope)
    ensures NudgeTimes(UserTurn(s), n).Some? <==> n == 0 || (!s.stopped && n <= MAX_NUDGE_DEPTH)
    ensures RecordRetry(UserTurn(s), scope).1 == RecordRetry(s, scope).1
  {
    NudgesLeft(UserTurn(s), n);
  }

  // ---- One iteration ------------------------------------------------------------------------------------

  datatype Outcome = Done(state: Nudge, report: Report) | Again(state: Nudge, payload: Payload, report: Report)

  predicate ExitPass(sr: Spawn) { sr.Exited? && !sr.timedOut && sr.exitCode == 0 }

  /** The postcondition's verdict; it is asked only when the exit code passed, and throwing is failing. */
  function PostPass(h: Hooks, i: nat, sr: Spawn): bool {
    h.post.Some? && ExitPass(sr) && h.post.value(i) == Some(true)
  }

  predicate BothPass(h: Hooks, i: nat, sr: Spawn) {
    ExitPass(sr) && (h.post.None? || PostPass(h, i, sr))
  }

  function Iterate(h: Hooks, st: Nudge, current: Payload, i: nat, rep: Report): Outcome {
    var bound := if h.bind.Some? then h.bind.value(i, current) else Some(h.argv);
    if bound.None? then Done(st, rep.(disposition := GateRefused, ledger := rep.ledger + [Deny]))
    else
      var rep1 := if h.bind.Some? then rep.(actions := rep.actions + [Bound(current, bound.value)]) else rep;
      Execute(h, st, current, bound.value, i, rep1)
  }

  /** Gate, spawn and verify the argv of this iteration. */
  function Execute(h: Hooks, st: Nudge, current: Payload, argv: Argv, i: nat, rep: Report): Outcome {
    var gate := h.gate(current);
    if gate == GateThrows || gate == Refused then
      Done(st, rep.(disposition := GateRefused, ledger := rep.ledger + [Deny]))
    else if gate == ProposeOnly then Done(st, rep.(disposition := ProposedOnly, ledger := rep.ledger + [ReportLine]))
    else
      var sr := h.spawn(i, argv);
      var tried := rep.(actions := rep.actions + [Gated(current), Spawned(argv)]);
      if sr.SpawnThrows? then Done(st, tried.(disposition := SpawnError, ledger := rep.ledger + [ReportLine]))
      else
        var ran := tried.(spawns := rep.spawns + 1, last := sr,
                          postPass := if h.post.Some? then PostPass(h, i, sr) else rep.postPass,
                          ledger := rep.ledger + [VerifyLine(BothPass(h, i, sr))]);
        if BothPass(h, i, sr) then Done(st, ran.(disposition := if h.post.Some? then Verified else VerifiedExitOnly))
        else Retry(h, st, current, i, ran)
  }

  /** A verification failure: spend a retry, count a nudge, choose the next payload. */
  function Retry(h: Hooks, st: Nudge, current: Payload, i: nat, rep: Report): Outcome {
    var (scope, planned) := if h.planner.Some? then h.planner.value(i, st.rounds, current) else (FullScope, current);
    var (st1, verdict) := RecordRetry(st, scope);
    match verdict
    case StopAndReport =>
      Done(st1.(stopped := true),
           rep.(disposition := if st1.rounds > MAX_ROUNDS_PER_TASK then VerifyFailedStop else StopReport,
                ledger := rep.ledger + [ReportLine]))
    case MustNarrowOrReroute =>
      Done(st1.(stopped := true), rep.(disposition := VerifyFailedStop, ledger := rep.ledger + [ReportLine]))
    case Allow =>
      var nudged := RecordNudge(st1);
      if nudged.None? then
        Done(st1, rep.(disposition := NudgeRefused, ledger := rep.ledger + [NudgeLine(st1.depth)]))
      else
        var asked := h.resolicit.Some? && rep.resolicits < h.maxResolicits;
        var answer := if asked then h.resolicit.value(i) else Some(None);
        var line := NudgeLine(nudged.value.depth);
        if answer.None? then Again(nudged.value, planned, rep.(ledger := rep.ledger + [line, line]))
        else if answer.value.Some? then
          Again(nudged.value, answer.value.value, rep.(resolicits := rep.resolicits + 1, ledger := rep.ledger + [line]))
        else Again(nudged.value, planned, rep.(ledger := rep.ledger + [line]))
  }

  /** The call from iteration `i` on. Every repetition consumed a retry round, and there are three. */
  function RunFrom(h: Hooks, st: Nudge, current: Payload, i: nat, rep: Report): (Nudge, Report)
    decreases if st.rounds < 3 then 3 - st.rounds else 0
  {
    var o := Iterate(h, st, current, i, rep);
    if o.Done? then (o.state, o.report) else RunFrom(h, o.state, o.payload, i + 1, o.report)
  }

  function RunGatedTask(h: Hooks, st: Nudge, payload: Payload): (Nudge, Report) {
    RunFrom(h, st, payload, 0, STARTED)
  }

  /** The outcome of an iteration ends the call or is where it goes on, one retry nearer to its end. */
  lemma RunNext(h: Hooks, st: Nudge, current: Payload, i: nat, rep: Report, o: Outcome)
    requires o == Iterate(h, st, current, i, rep)
    ensures RunFrom(h, st, current, i, rep) ==
      if o.Done? then (o.state, o.report) else RunFrom(h, o.state, o.payload, i + 1, o.report)
    ensures o.Again? ==> st.rounds < 3 && o.state.rounds == st.rounds + 1
  {
  }

  // ---- The ladder is bounded ------------------------------------------------------------------------------

  /** No lineage ever has more chained continuations than retries, nor more than three retries. */
  predicate Sound(s: Nudge) { s.depth <= s.rounds <= 3 }

  lemma IterateSpends(h: Hooks, st: Nudge, current: Payload, i: nat, rep: Report)
    requires Sound(st) && rep.disposition == Running
    ensures var o := Iterate(h, st, current, i, rep);
      Sound(o.state) && (st.stopped ==> o.Done? && o.state.stopped) &&
      (o.Again? ==> o.state.rounds == st.rounds + 1 && !o.state.stopped && o.report.spawns == rep.spawns + 1 &&
                    o.report.disposition == Running) &&
      (o.Done? ==> o.state.rounds == st.rounds && o.state.depth == st.depth && o.report.spawns <= rep.spawns + 1 &&
                   o.report.disposition !in {Running, NudgeRefused})
  {
  }

  /** A call spawns at most once more than the retries it consumes; the fourth nudge is never even asked for. */
  lemma {:induction false} RunSpends(h: Hooks, st: Nudge, current: Payload, i: nat, rep: Report)
    requires Sound(st) && rep.disposition == Running
    ensures var (st', r) := RunFrom(h, st, current, i, rep);
      Sound(st') && st.rounds <= st'.rounds && (st.stopped ==> st'.stopped && st'.rounds == st.rounds) &&
      r.spawns <= rep.spawns + 1 + (st'.rounds - st.rounds) && r.disposition !in {Running, NudgeRefused}
    decreases if st.rounds < 3 then 3 - st.rounds else 0
  {
    IterateSpends(h, st, current, i, rep);
    var o := Iterate(h, st, current, i, rep);
    if o.Again? {
      RunSpends(h, o.state, o.payload, i + 1, o.report);
    }
  }

  ghost predicate FullScopeOnly(h: Hooks) {
    h.planner.Some? ==> forall i, round, p :: h.planner.value(i, round, p).0 == FullScope
  }

  /** A planner that never narrows gets two retries; the third verification failure stops the lineage. */
  lemma {:induction false} FullScopeGetsTwoRetries(h: Hooks, st: Nudge, current: Payload, i: nat, rep: Report)
    requires FullScopeOnly(h) && Sound(st) && st.rounds <= 2 && rep.disposition == Running
    ensures var (st', r) := RunFrom(h, st, current, i, rep);
      st'.rounds <= 2 && r.spawns <= rep.spawns + 3 - st.rounds &&
      (r.disposition in {VerifyFailedStop, StopReport} ==> st'.stopped)
    decreases 3 - st.rounds
  {
    IterateSpends(h, st, current, i, rep);
    var o := Iterate(h, st, current, i, rep);
    if o.Again? {
      FullScopeGetsTwoRetries(h, o.state, o.payload, i + 1, o.report);
    }
  }

  // ---- What was spawned had just been gated ----------------------------------------------------------------

  /** The k-th action, if it spawns, follows the approval of a payload, and that payload's binding. */
  ghost predicate SpawnOk(h: Hooks, actions: seq<Action>, k: nat)
    requires k < |actions|
  {
    actions[k].Spawned? ==>
      k >= 1 && actions[k - 1].Gated? && h.gate(actions[k - 1].payload) == Approved &&
      (if h.bind.Some? then k >= 2 && actions[k - 2] == Bound(actions[k - 1].payload, actions[k].argv)
       else actions[k].argv == h.argv)
  }

  ghost predicate AllGated(h: Hooks, actions: seq<Action>) {
    forall k: nat | k < |actions| :: SpawnOk(h, actions, k)
  }

  lemma ExecuteActions(h: Hooks, st: Nudge, current: Payload, argv: Argv, i: nat, rep: Report)
    ensures Execute(h, st, current, argv, i, rep).report.actions ==
      rep.actions + (if h.gate(current) == Approved then [Gated(current), Spawned(argv)] else [])
  {
  }

  lemma GatedGrow(h: Hooks, actions: seq<Action>, payload: Payload, argv: Argv)
    requires AllGated(h, actions) && h.gate(payload) == Approved
    requires if h.bind.Some? then actions != [] && actions[|actions| - 1] == Bound(payload, argv) else argv == h.argv
    ensures AllGated(h, actions + [Gated(payload), Spawned(argv)])
  {
    var grown := actions + [Gated(payload), Spawned(argv)];
    forall k: nat | k < |grown| ensures SpawnOk(h, grown, k) {
      if k < |actions| {
        assert SpawnOk(h, actions, k);
      }
    }
  }

  lemma IterateGates(h: Hooks, st: Nudge, current: Payload, i: nat, rep: Report)
    requires AllGated(h, rep.actions)
    ensures AllGated(h, Iterate(h, st, current, i, rep).report.actions)
  {
    var bound := if h.bind.Some? then h.bind.value(i, current) else Some(h.argv);
    if bound.Some? {
      var actions := if h.bind.Some? then rep.actions + [Bound(current, bound.value)] else rep.actions;
      forall k: nat | k < |actions| ensures SpawnOk(h, actions, k) {
        if k < |rep.actions| {
          assert SpawnOk(h, rep.actions, k);
        }
      }
      ExecuteActions(h, st, current, bound.value, i, rep.(actions := actions));
      if h.gate(current) == Approved {
        GatedGrow(h, actions, current, bound.value);
      }
    }
  }

  lemma {:induction false} RunGates(h: Hooks, st: Nudge, current: Payload, i: nat, rep: Report)
    requires AllGated(h, rep.actions)
    ensures AllGated(h, RunFrom(h, st, current, i, rep).1.actions)
    decreases if st.rounds < 3 then 3 - st.rounds else 0
  {
    IterateGates(h, st, current, i, rep);
    var o := Iterate(h, st, current, i, rep);
    if o.Again? {
      RunGates(h, o.state, o.payload, i + 1, o.report);
    }
  }

  /** Whatever the hooks answer, each spawned argv was bound from the payload the gate approved just before. */
  lemma SpawnsAreGated(h: Hooks, st: Nudge, payload: Payload, k: nat)
    requires k < |RunGatedTask(h, st, payload).1.actions|
    ensures SpawnOk(h, RunGatedTask(h, st, payload).1.actions, k)
  {
    RunGates(h, st, payload, 0, STARTED);
  }

  // ---- What a verdict means -----------------------------------------------------------------------------------

  /** Iteration `i` ran `argv`, and the report's last result and postcondition are that iteration's. */
  ghost predicate LastRun(h: Hooks, r: Report, i: nat, argv: Argv) {
    r.actions != [] && r.actions[|r.actions| - 1] == Spawned(argv) && r.last == h.spawn(i, argv) && r.last.Exited? &&
    (h.post.Some? ==> (r.postPass <==> PostPass(h, i, r.last)))
  }

  ghost predicate VerdictMeans(h: Hooks, r: Report) {
    (r.disposition in {Verified, VerifiedExitOnly} ==>
       exists i, argv :: LastRun(h, r, i, argv) && BothPass(h, i, r.last) && (r.disposition == Verified <==> h.post.Some?)) &&
    (r.disposition in {VerifyFailedStop, StopReport} ==>
       exists i, argv :: LastRun(h, r, i, argv) && !BothPass(h, i, r.last))
  }

  lemma IterateMeans(h: Hooks, st: Nudge, current: Payload, i: nat, rep: Report)
    requires rep.disposition == Running
    ensures var o := Iterate(h, st, current, i, rep);
      (o.Done? ==> VerdictMeans(h, o.report)) && (o.Again? ==> o.report.disposition == Running)
  {
    var o := Iterate(h, st, current, i, rep);
    if o.Done? && o.report.disposition in {Verified, VerifiedExitOnly, VerifyFailedStop, StopReport} {
      var argv := if h.bind.Some? then h.bind.value(i, current).value else h.argv;
      assert LastRun(h, o.report, i, argv);
    }
  }

  lemma {:induction false} RunMeans(h: Hooks, st: Nudge, current: Payload, i: nat, rep: Report)
    requires rep.disposition == Running
    ensures VerdictMeans(h, RunFrom(h, st, current, i, rep).1)
    decreases if st.rounds < 3 then 3 - st.rounds else 0
  {
    IterateMeans(h, st, current, i, rep);
    var o := Iterate(h, st, current, i, rep);
    if o.Again? {
      RunMeans(h, o.state, o.payload, i + 1, o.report);
    }
  }

  /**
   "Verified" means the last argv run exited 0 in time and a declared postcondition passed on it; "verified exit
   only" the same with none declared; a verify-failed stop means one of the two layers failed on the last run.
   */
  lemma VerdictsAreEarned(h: Hooks, st: Nudge, payload: Payload)
    ensures VerdictMeans(h, RunGatedTask(h, st, payload).1)
  {
    RunMeans(h, st, payload, 0, STARTED);
  }

  // ---- Sessions: user turns and calls on many tasks -----------------------------------------------------------

  datatype Op = Turn | Call(task: string, h: Hooks, payload: Payload)

  function Lookup(states: map<string, Nudge>, task: string): Nudge {
    if task in states then states[task] else FRESH
  }

  function ApplyOp(states: map<string, Nudge>, op: Op): map<string, Nudge> {
    match op
    case Turn => map task | task in states :: UserTurn(states[task])
    case Call(task, h, payload) => states[task := RunGatedTask(h, Lookup(states, task), payload).0]
  }

  function Session(ops: seq<Op>): map<string, Nudge> {
    if ops == [] then map[] else ApplyOp(Session(ops[..|ops| - 1]), ops[|ops| - 1])
  }

  /** The report of the k-th operation, a call. */
  function ReportOf(ops: seq<Op>, k: nat): Report
    requires k < |ops| && ops[k].Call?
  {
    RunGatedTask(ops[k].h, Lookup(Session(ops[..k]), ops[k].task), ops[k].payload).1
  }

  function Calls(ops: seq<Op>, task: string): nat {
    if ops == [] then 0
    else
      var op := ops[|ops| - 1];
      Calls(ops[..|ops| - 1], task) + (if op.Call? && op.task == task then 1 else 0)
  }

  function Spawns(ops: seq<Op>, task: string): nat {
    if ops == [] then 0
    else
      var (front, op) := (ops[..|ops| - 1], ops[|ops| - 1]);
      Spawns(front, task) +
      (if op.Call? && op.task == task then RunGatedTask(op.h, Lookup(Session(front), task), op.payload).1.spawns else 0)
  }

  lemma {:induction false} SessionSound(ops: seq<Op>, task: string)
    ensures Sound(Lookup(Session(ops), task))
    ensures Spawns(ops, task) <= Calls(ops, task) + Lookup(Session(ops), task).rounds
  {
    if ops != [] {
      var (front, op) := (ops[..|ops| - 1], ops[|ops| - 1]);
      SessionSound(front, task);
      if op.Call? && op.task == task {
        RunSpends(op.h, Lookup(Session(front), task), op.payload, 0, STARTED);
      }
    }
  }

  /** However turns and calls interleave, a task id is run at most three times more than it is called. */
  lemma SpawnsAreBounded(ops: seq<Op>, task: string)
    ensures Spawns(ops, task) <= Calls(ops, task) + 3
    ensures Lookup(Session(ops), task).depth <= MAX_NUDGE_DEPTH
  {
    SessionSound(ops, task);
  }

  /** The branch that refuses a fourth nudge is dead: the retry budget runs out first. */
  lemma NudgeIsNeverRefused(ops: seq<Op>, k: nat)
    requires k < |ops| && ops[k].Call?
    ensures ReportOf(ops, k).disposition != NudgeRefused
  {
    SessionSound(ops[..k], ops[k].task);
    RunSpends(ops[k].h, Lookup(Session(ops[..k]), ops[k].task), ops[k].payload, 0, STARTED);
  }

  /** User turns give back no retry and reopen no stopped lineage. */
  lemma {:induction false} RetriesAreNotLaundered(ops: seq<Op>, i: nat, task: string)
    requires i <= |ops|
    ensures var (before, after) := (Lookup(Session(ops[..i]), task), Lookup(Session(ops), task));
      before.rounds <= after.rounds && (before.stopped ==> after.stopped && after.rounds == before.rounds)
    decreases |ops|
  {
    if i < |ops| {
      var (front, op) := (ops[..|ops| - 1], ops[|ops| - 1]);
      assert front[..i] == ops[..i];
      RetriesAreNotLaundered(front, i, task);
      if op.Call? && op.task == task {
        SessionSound(front, task);
        RunSpends(op.h, Lookup(Session(front), task), op.payload, 0, STARTED);
      }
    } else {
      assert ops[..i] == ops;
    }
  }

  /** The argv of the first attempt, if binding succeeds. */
  function FirstArgv(h: Hooks, payload: Payload): Option<Argv> {
    if h.bind.Some? then h.bind.value(0, payload) else Some(h.argv)
  }

  /**
   A stopped lineage is still run by every later call, exactly when the payload can be bound, the gate approves it
   and the sandbox runs it; but never twice in one call, and it stays stopped.
   */
  lemma StoppedLineageRunsExactly(h: Hooks, st: Nudge, payload: Payload)
    requires st.stopped
    ensures var (st', r) := RunGatedTask(h, st, payload);
      st' == st && r.spawns <= 1 &&
      (r.spawns == 1 <==>
        FirstArgv(h, payload).Some? && h.gate(payload) == Approved && h.spawn(0, FirstArgv(h, payload).value).Exited?)
  {
    StoppedIterate(h, st, payload);
  }

  lemma StoppedIterate(h: Hooks, st: Nudge, payload: Payload)
    requires st.stopped
    ensures var o := Iterate(h, st, payload, 0, STARTED);
      o.Done? && o.state == st && o.report.spawns ==
        if FirstArgv(h, payload).Some? && h.gate(payload) == Approved && h.spawn(0, FirstArgv(h, payload).value).Exited?
        then 1 else 0
  {
  }

  // ---- The lineage, updated in place -----------------------------------------------------------------------------

  class Lineage {
    var depth: nat
    var rounds: nat
    var stopped: bool

    ghost function State(): Nudge
      reads this
    {
      Nudge(depth, rounds, stopped)
    }

    constructor ()
      ensures State() == FRESH
    {
      depth, rounds, stopped := 0, 0, false;
    }

    method Retried(scope: Scope) returns (v: Verdict)
      modifies this
      ensures (State(), v) == RecordRetry(old(State()), scope)
    {
      if stopped {
        return StopAndReport;
      }
      if rounds < MAX_ROUNDS_PER_TASK {
        rounds := rounds + 1;
        return Allow;
      }
      if rounds == MAX_ROUNDS_PER_TASK {
        if scope == NarrowOrReroute {
          rounds := rounds + 1;
          return Allow;
        }
        return MustNarrowOrReroute;
      }
      stopped := true;
      return StopAndReport;
    }

    method Nudged() returns (ok: bool)
      modifies this
      ensures ok <==> RecordNudge(old(State())).Some?
      ensures State() == if ok then RecordNudge(old(State())).value else old(State())
    {
      if stopped || depth >= MAX_NUDGE_DEPTH {
        return false;
      }
      depth := depth + 1;
      return true;
    }

    /** Three nudges are allowed again unless the lineage is stopped; retries and the stop stay as they were. */
    method UserTurned()
      modifies this
      ensures State() == UserTurn(old(State()))
      ensures depth == 0 && rounds == old(rounds) && stopped == old(stopped)
      ensures forall n: nat :: NudgeTimes(State(), n).Some? <==> n == 0 || (!old(stopped) && n <= MAX_NUDGE_DEPTH)
      ensures forall scope :: RecordRetry(State(), scope).1 == RecordRetry(old(State()), scope).1
    {
      depth := 0;
      forall n: nat ensures NudgeTimes(State(), n).Some? <==> n == 0 || (!stopped && n <= MAX_NUDGE_DEPTH) {
        NudgesLeft(State(), n);
      }
    }

    /** runGatedTask: repeat until the gate, the sandbox, the verifier or the ladder ends it. */
    method RunTask(h: Hooks, payload: Payload) returns (rep: Report)
      modifies this
      ensures (State(), rep) == RunGatedTask(h, old(State()), payload)
    {
      rep := STARTED;
      var current := payload;
      var i := 0;
      var more := true;
      while more
        invariant more ==> RunFrom(h, State(), current, i, rep) == RunGatedTask(h, old(State()), payload)
        invariant !more ==> (State(), rep) == RunGatedTask(h, old(State()), payload)
        decreases more, if rounds < 3 then 3 - rounds else 0
      {
        ghost var (st, payload0, rep0) := (State(), current, rep);
        more, current, rep := Attempt(h, current, i, rep);
        RunNext(h, st, payload0, i, rep0, if more then Again(State(), current, rep) else Done(State(), rep));
        i := i + 1;
      }
    }

    /** Bind, gate, spawn and verify one attempt, and go on to the next only as the ladder allows. */
    method Attempt(h: Hooks, current: Payload, i: nat, rep: Report) returns (more: bool, next: Payload, rep': Report)
      modifies this
      ensures Iterate(h, old(State()), current, i, rep) ==
        if more then Again(State(), next, rep') else Done(State(), rep')
    {
      more, next, rep' := false, current, rep;
      var argv := h.argv;
      if h.bind.Some? {
        var bound := h.bind.value(i, current);
        if bound.None? {
          rep' := rep.(disposition := GateRefused, ledger := rep.ledger + [Deny]);
          return;
        }
        argv := bound.value;
        rep' := rep.(actions := rep.actions + [Bound(current, argv)]);
      }
      more, next, rep' := GateAndSpawn(h, current, argv, i, rep');
    }

    method GateAndSpawn(h: Hooks, current: Payload, argv: Argv, i: nat, rep: Report)
      returns (more: bool, next: Payload, rep': Report)
      modifies this
      ensures Execute(h, old(State()), current, argv, i, rep) ==
        if more then Again(State(), next, rep') else Done(State(), rep')
    {
      more, next, rep' := false, current, rep;
      var gate := h.gate(current);
      if gate == GateThrows || gate == Refused {
        rep' := rep.(disposition := GateRefused, ledger := rep.ledger + [Deny]);
        return;
      }
      if gate == ProposeOnly {
        rep' := rep.(disposition := ProposedOnly, ledger := rep.ledger + [ReportLine]);
        return;
      }
      var sr := h.spawn(i, argv);
      rep' := rep.(actions := rep.actions + [Gated(current), Spawned(argv)]);
      if sr.SpawnThrows? {
        rep' := rep'.(disposition := SpawnError, ledger := rep.ledger + [ReportLine]);
        return;
      }
      var exitPass := !sr.timedOut && sr.exitCode == 0;
      var bothPass := exitPass;
      if h.post.Some? {
        bothPass := exitPass && h.post.value(i) == Some(true);
        rep' := rep'.(postPass := bothPass);
      }
      rep' := rep'.(spawns := rep.spawns + 1, last := sr, ledger := rep.ledger + [VerifyLine(bothPass)]);
      if bothPass {
        rep' := rep'.(disposition := if h.post.Some? then Verified else VerifiedExitOnly);
        return;
      }
      more, next, rep' := AfterFailure(h, current, i, rep');
    }

    /** Spend a retry and a nudge, and choose the payload of the next attempt. */
    method AfterFailure(h: Hooks, current: Payload, i: nat, rep: Report) returns (more: bool, next: Payload, rep': Report)
      modifies this
      ensures Retry(h, old(State()), current, i, rep) ==
        if more then Again(State(), next, rep') else Done(State(), rep')
    {
      next, rep' := current, rep;
      var scope := FullScope;
      if h.planner.Some? {
        var plan := h.planner.value(i, rounds, current);
        scope, next := plan.0, plan.1;
      }
      var verdict := Retried(scope);
      if verdict == StopAndReport {
        stopped := true;
        rep' := rep.(disposition := if rounds > MAX_ROUNDS_PER_TASK then VerifyFailedStop else StopReport,
                     ledger := rep.ledger + [ReportLine]);
        return false, next, rep';
      }
      if verdict == MustNarrowOrReroute {
        stopped := true;
        rep' := rep.(disposition := VerifyFailedStop, ledger := rep.ledger + [ReportLine]);
        return false, next, rep';
      }
      var nudged := Nudged();
      if !nudged {
        rep' := rep.(disposition := NudgeRefused, ledger := rep.ledger + [NudgeLine(depth)]);
        return false, next, rep';
      }
      if h.resolicit.Some? && rep.resolicits < h.maxResolicits {
        var answer := h.resolicit.value(i);
        if answer.None? {
          rep' := rep'.(ledger := rep'.ledger + [NudgeLine(depth)]);
        } else if answer.value.Some? {
          rep' := rep.(resolicits := rep.resolicits + 1, ledger := rep.ledger + [NudgeLine(depth)]);
          return true, answer.value.value, rep';
        }
      }
      rep' := rep'.(ledger := rep'.ledger + [NudgeLine(depth)]);
      return true, next, rep';
    }
  }
}
