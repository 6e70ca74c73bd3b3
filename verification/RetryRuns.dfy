/**
 A gated call described by its hooks alone: which payload each attempt runs, when another attempt follows, and what
 state, report, actions and ledger lines the call comes to.
 */
module RetryRuns {
  import opened RetryLadder
  import opened Wrappers

  // ---- What an attempt runs --------------------------------------------------------------------------

  /** The answer of re-solicitation after attempt `j`, asked only while fewer than the allowed ones were used. */
  function Answer(h: Hooks, j: nat, used: nat): Option<Payload> {
    if h.resolicit.Some? && used < h.maxResolicits && h.resolicit.value(j).Some? then h.resolicit.value(j).value
    else None
  }

  /** How many re-solicitations gave a payload before attempt `j`. */
  function Used(h: Hooks, j: nat): nat {
    if j == 0 then 0 else Used(h, j - 1) + if Answer(h, j - 1, Used(h, j - 1)).Some? then 1 else 0
  }

  /** After a failed attempt `j` on `p`: the re-solicited payload, else the planner's, else the same again. */
  function NextPayload(h: Hooks, rounds: nat, j: nat, p: Payload, used: nat): Payload {
    var answer := Answer(h, j, used);
    if answer.Some? then answer.value else if h.planner.Some? then h.planner.value(j, rounds, p).1 else p
  }

  /** The payload of attempt `j` of a call that starts with `rounds` retries spent. */
  function PayloadAt(h: Hooks, rounds: nat, payload: Payload, j: nat): Payload {
    if j == 0 then payload
    else NextPayload(h, rounds + j - 1, j - 1, PayloadAt(h, rounds, payload, j - 1), Used(h, j - 1))
  }

  function ArgvAt(h: Hooks, j: nat, p: Payload): Option<Argv> {
    if h.bind.Some? then h.bind.value(j, p) else Some(h.argv)
  }

  /** Attempt `j` on `p` gets through the binder and the gate. */
  predicate Tried(h: Hooks, j: nat, p: Payload) { ArgvAt(h, j, p).Some? && h.gate(p) == Approved }

  predicate Ran(h: Hooks, j: nat, p: Payload) { Tried(h, j, p) && h.spawn(j, ArgvAt(h, j, p).value).Exited? }

  /** It exits 0 in time, and a declared postcondition holds. */
  predicate Passed(h: Hooks, j: nat, p: Payload) {
    Ran(h, j, p) && h.spawn(j, ArgvAt(h, j, p).value) == Exited(0, false) &&
    (h.post.Some? ==> h.post.value(j) == Some(true))
  }

  predicate Failed(h: Hooks, j: nat, p: Payload) { Ran(h, j, p) && !Passed(h, j, p) }

  /** Two retries are free, the third must be narrower, and there is no fourth; none in a stopped lineage. */
  predicate MayRetry(h: Hooks, now: Nudge, j: nat, p: Payload) {
    !now.stopped &&
    (now.rounds < 2 || (now.rounds == 2 && h.planner.Some? && h.planner.value(j, 2, p).0 == NarrowOrReroute))
  }

  /** How a call ends whose last attempt is `j`, made from `now`. */
  function Ending(h: Hooks, now: Nudge, j: nat, p: Payload): Disposition {
    if ArgvAt(h, j, p).None? || h.gate(p) in {GateThrows, Refused} then GateRefused
    else if h.gate(p) == ProposeOnly then ProposedOnly
    else if !Ran(h, j, p) then SpawnError
    else if Passed(h, j, p) then if h.post.Some? then Verified else VerifiedExitOnly
    else if now.stopped && now.rounds <= 2 then StopReport
    else VerifyFailedStop
  }

  /** What attempt `j` does: bind, pass the gate, spawn. */
  function Does(h: Hooks, j: nat, p: Payload): seq<Action> {
    (if h.bind.Some? && ArgvAt(h, j, p).Some? then [Bound(p, ArgvAt(h, j, p).value)] else []) +
    (if Tried(h, j, p) then [Gated(p), Spawned(ArgvAt(h, j, p).value)] else [])
  }

  /** Re-solicitation is asked after attempt `j` and throws. */
  predicate Throws(h: Hooks, j: nat, used: nat) {
    h.resolicit.Some? && used < h.maxResolicits && h.resolicit.value(j).None?
  }

  /** What attempt `j`, made from `now`, writes to the ledger. */
  function Lines(h: Hooks, now: Nudge, j: nat, p: Payload, used: nat): seq<Line> {
    if ArgvAt(h, j, p).None? || h.gate(p) in {GateThrows, Refused} then [Deny]
    else if !Ran(h, j, p) then [ReportLine]
    else if Passed(h, j, p) then [VerifyLine(true)]
    else if !MayRetry(h, now, j, p) then [VerifyLine(false), ReportLine]
    else
      var nudge := NudgeLine(now.depth + 1);
      [VerifyLine(false), nudge] + if Throws(h, j, used) then [nudge] else []
  }

  // ---- One attempt ------------------------------------------------------------------------------------------

  /** `after` is `before` with an attempt's run, if any, and actions added. */
  ghost predicate Adds(h: Hooks, j: nat, p: Payload, before: Report, after: Report) {
    after.spawns == before.spawns + (if Ran(h, j, p) then 1 else 0) && after.actions == before.actions + Does(h, j, p)
  }

  /** The report of attempt `j` on `p` once it has run and failed. */
  function RanReport(h: Hooks, j: nat, p: Payload, rep: Report): Report
    requires Failed(h, j, p)
  {
    var sr := h.spawn(j, ArgvAt(h, j, p).value);
    rep.(actions := rep.actions + Does(h, j, p), spawns := rep.spawns + 1, last := sr,
         postPass := if h.post.Some? then PostPass(h, j, sr) else rep.postPass,
         ledger := rep.ledger + [VerifyLine(false)])
  }

  lemma AttemptFails(h: Hooks, now: Nudge, j: nat, p: Payload, rep: Report)
    requires Failed(h, j, p)
    ensures Iterate(h, now, p, j, rep) == Retry(h, now, p, j, RanReport(h, j, p, rep))
  {
    var argv := ArgvAt(h, j, p).value;
    var bound := if h.bind.Some? then rep.(actions := rep.actions + [Bound(p, argv)]) else rep;
    assert bound.actions + [Gated(p), Spawned(argv)] == rep.actions + Does(h, j, p);
    ExecuteFails(h, now, j, p, argv, bound, RanReport(h, j, p, rep));
  }

  lemma ExecuteFails(h: Hooks, now: Nudge, j: nat, p: Payload, argv: Argv, rep: Report, ran: Report)
    requires Failed(h, j, p) && ArgvAt(h, j, p) == Some(argv)
    requires ran == rep.(actions := rep.actions + [Gated(p), Spawned(argv)], spawns := rep.spawns + 1,
                         last := h.spawn(j, argv), ledger := rep.ledger + [VerifyLine(false)],
                         postPass := if h.post.Some? then PostPass(h, j, h.spawn(j, argv)) else rep.postPass)
    ensures Execute(h, now, p, argv, j, rep) == Retry(h, now, p, j, ran)
  {
  }

  /** The attempt ended the call without a run. */
  ghost predicate EndsUnrun(h: Hooks, now: Nudge, j: nat, p: Payload, rep: Report, o: Outcome) {
    o.Done? && o.state == now && o.report.disposition == Ending(h, now, j, p) && o.report.spawns == rep.spawns &&
    o.report.resolicits == rep.resolicits && o.report.actions == rep.actions + Does(h, j, p) &&
    o.report.ledger == rep.ledger + Lines(h, now, j, p, rep.resolicits)
  }

  lemma Unbound(h: Hooks, now: Nudge, j: nat, p: Payload, rep: Report)
    requires ArgvAt(h, j, p).None?
    ensures EndsUnrun(h, now, j, p, rep, Iterate(h, now, p, j, rep))
  {
    assert Does(h, j, p) == [];
  }

  lemma Ungated(h: Hooks, now: Nudge, j: nat, p: Payload, rep: Report)
    requires ArgvAt(h, j, p).Some? && h.gate(p) != Approved
    ensures EndsUnrun(h, now, j, p, rep, Iterate(h, now, p, j, rep))
  {
    assert Does(h, j, p) == if h.bind.Some? then [Bound(p, ArgvAt(h, j, p).value)] else [];
  }

  lemma Unspawned(h: Hooks, now: Nudge, j: nat, p: Payload, rep: Report)
    requires Tried(h, j, p) && !Ran(h, j, p)
    ensures EndsUnrun(h, now, j, p, rep, Iterate(h, now, p, j, rep))
  {
    var argv := ArgvAt(h, j, p).value;
    var bound := if h.bind.Some? then [Bound(p, argv)] else [];
    assert rep.actions + Does(h, j, p) == rep.actions + bound + [Gated(p), Spawned(argv)];
  }

  lemma Refuses(h: Hooks, now: Nudge, j: nat, p: Payload, rep: Report)
    requires !Ran(h, j, p)
    ensures EndsUnrun(h, now, j, p, rep, Iterate(h, now, p, j, rep))
  {
    if ArgvAt(h, j, p).None? {
      Unbound(h, now, j, p, rep);
    } else if h.gate(p) != Approved {
      Ungated(h, now, j, p, rep);
    } else {
      Unspawned(h, now, j, p, rep);
    }
  }

  lemma Succeeds(h: Hooks, now: Nudge, j: nat, p: Payload, rep: Report)
    requires rep.disposition == Running && Passed(h, j, p)
    ensures var o := Iterate(h, now, p, j, rep);
      o.Done? && o.state == now && Adds(h, j, p, rep, o.report) && o.report.resolicits == rep.resolicits &&
      o.report.disposition == Ending(h, now, j, p) && o.report.ledger == rep.ledger + Lines(h, now, j, p, rep.resolicits)
  {
    var argv := ArgvAt(h, j, p).value;
    var bound := if h.bind.Some? then [Bound(p, argv)] else [];
    assert rep.actions + Does(h, j, p) == rep.actions + bound + [Gated(p), Spawned(argv)];
  }

  lemma LadderStops(h: Hooks, now: Nudge, j: nat, p: Payload, ran: Report)
    requires Sound(now) && Failed(h, j, p) && !MayRetry(h, now, j, p)
    ensures var o := Retry(h, now, p, j, ran);
      o.Done? && o.state == now.(stopped := true) && o.report.disposition == Ending(h, now, j, p) &&
      o.report == ran.(disposition := o.report.disposition, ledger := ran.ledger + [ReportLine])
  {
  }

  lemma LadderGoesOn(h: Hooks, now: Nudge, j: nat, p: Payload, ran: Report)
    requires Sound(now) && Failed(h, j, p) && MayRetry(h, now, j, p)
    ensures var o := Retry(h, now, p, j, ran);
      o.Again? && o.state == now.(rounds := now.rounds + 1, depth := now.depth + 1) &&
      o.payload == NextPayload(h, now.rounds, j, p, ran.resolicits) &&
      o.report.resolicits == ran.resolicits + (if Answer(h, j, ran.resolicits).Some? then 1 else 0) &&
      o.report == ran.(resolicits := o.report.resolicits, ledger := ran.ledger +
        if Throws(h, j, ran.resolicits) then [NudgeLine(now.depth + 1), NudgeLine(now.depth + 1)]
        else [NudgeLine(now.depth + 1)])
  {
  }

  // ---- The whole call ------------------------------------------------------------------------------------------

  function DoneBefore(h: Hooks, rounds: nat, payload: Payload, n: nat): seq<Action> {
    if n == 0 then []
    else DoneBefore(h, rounds, payload, n - 1) + Does(h, n - 1, PayloadAt(h, rounds, payload, n - 1))
  }

  /** The counters before attempt `n`. */
  function StateAt(st: Nudge, n: nat): Nudge { st.(rounds := st.rounds + n, depth := st.depth + n) }

  function LinesBefore(h: Hooks, st: Nudge, payload: Payload, n: nat): seq<Line> {
    if n == 0 then []
    else
      LinesBefore(h, st, payload, n - 1) +
      Lines(h, StateAt(st, n - 1), n - 1, PayloadAt(h, st.rounds, payload, n - 1), Used(h, n - 1))
  }

  /** Attempt `j` fails its verification and another one follows. */
  predicate GoesOn(h: Hooks, st: Nudge, payload: Payload, j: nat) {
    var p := PayloadAt(h, st.rounds, payload, j);
    Failed(h, j, p) && MayRetry(h, StateAt(st, j), j, p)
  }

  /** Where a call that began with `st` stands before attempt `n`, all earlier ones having failed. */
  ghost predicate Arrived(h: Hooks, st: Nudge, payload: Payload, n: nat, rep: Report) {
    rep.disposition == Running && rep.spawns == n && rep.resolicits == Used(h, n) &&
    rep.actions == DoneBefore(h, st.rounds, payload, n) && rep.ledger == LinesBefore(h, st, payload, n)
  }

  /** What a call comes to whose last attempt is `n`. */
  ghost predicate EndsAt(h: Hooks, st: Nudge, payload: Payload, n: nat, now: Nudge, rep: Report) {
    var p := PayloadAt(h, st.rounds, payload, n);
    now == StateAt(st, n).(stopped := st.stopped || Failed(h, n, p)) &&
    rep.disposition == Ending(h, StateAt(st, n), n, p) && rep.spawns == n + (if Ran(h, n, p) then 1 else 0) &&
    rep.resolicits == Used(h, n) && rep.actions == DoneBefore(h, st.rounds, payload, n) + Does(h, n, p) &&
    rep.ledger == LinesBefore(h, st, payload, n) + Lines(h, StateAt(st, n), n, p, Used(h, n))
  }

  lemma EndsHere(h: Hooks, st: Nudge, payload: Payload, n: nat, now: Nudge, p: Payload, rep: Report)
    returns (o: Outcome)
    requires now == StateAt(st, n) && p == PayloadAt(h, st.rounds, payload, n)
    requires Sound(now) && Arrived(h, st, payload, n, rep) && !GoesOn(h, st, payload, n)
    ensures o == Iterate(h, now, p, n, rep) && o.Done? && EndsAt(h, st, payload, n, o.state, o.report)
  {
    if !Ran(h, n, p) {
      Refuses(h, now, n, p, rep);
      o := Iterate(h, now, p, n, rep);
    } else if Passed(h, n, p) {
      Succeeds(h, now, n, p, rep);
      o := Iterate(h, now, p, n, rep);
    } else {
      o := FailsAndStops(h, now, n, p, rep);
    }
  }

  lemma FailsAndStops(h: Hooks, now: Nudge, j: nat, p: Payload, rep: Report) returns (o: Outcome)
    requires Sound(now) && rep.disposition == Running && Failed(h, j, p) && !MayRetry(h, now, j, p)
    ensures o == Iterate(h, now, p, j, rep) && o.Done? && o.state == now.(stopped := true)
    ensures o.report.disposition == Ending(h, now, j, p) && Adds(h, j, p, rep, o.report)
    ensures o.report.resolicits == rep.resolicits && o.report.ledger == rep.ledger + Lines(h, now, j, p, rep.resolicits)
  {
    AttemptFails(h, now, j, p, rep);
    var ran := RanReport(h, j, p, rep);
    LadderStops(h, now, j, p, ran);
    o := Retry(h, now, p, j, ran);
  }

  lemma FailsAndGoesOn(h: Hooks, now: Nudge, j: nat, p: Payload, rep: Report) returns (o: Outcome)
    requires Sound(now) && rep.disposition == Running && Failed(h, j, p) && MayRetry(h, now, j, p)
    ensures o == Iterate(h, now, p, j, rep) && o.Again?
    ensures o.state == now.(rounds := now.rounds + 1, depth := now.depth + 1)
    ensures o.payload == NextPayload(h, now.rounds, j, p, rep.resolicits)
    ensures o.report.disposition == Running && Adds(h, j, p, rep, o.report)
    ensures o.report.resolicits == rep.resolicits + (if Answer(h, j, rep.resolicits).Some? then 1 else 0)
    ensures o.report.ledger == rep.ledger + Lines(h, now, j, p, rep.resolicits)
  {
    AttemptFails(h, now, j, p, rep);
    var ran := RanReport(h, j, p, rep);
    LadderGoesOn(h, now, j, p, ran);
    o := Retry(h, now, p, j, ran);
  }

  lemma GoesOnFrom(h: Hooks, st: Nudge, payload: Payload, n: nat, now: Nudge, p: Payload, rep: Report)
    returns (o: Outcome)
    requires now == StateAt(st, n) && p == PayloadAt(h, st.rounds, payload, n)
    requires Sound(now) && Arrived(h, st, payload, n, rep) && GoesOn(h, st, payload, n)
    ensures o == Iterate(h, now, p, n, rep) && o.Again?
    ensures o.state == StateAt(st, n + 1) && Sound(o.state) && Arrived(h, st, payload, n + 1, o.report)
    ensures o.payload == PayloadAt(h, st.rounds, payload, n + 1)
  {
    o := FailsAndGoesOn(h, now, n, p, rep);
    NextArrived(h, st, payload, n, rep, o.report);
  }

  lemma NextArrived(h: Hooks, st: Nudge, payload: Payload, n: nat, rep: Report, rep': Report)
    requires Arrived(h, st, payload, n, rep) && Failed(h, n, PayloadAt(h, st.rounds, payload, n))
    requires Adds(h, n, PayloadAt(h, st.rounds, payload, n), rep, rep') && rep'.disposition == Running
    requires rep'.resolicits == rep.resolicits + (if Answer(h, n, rep.resolicits).Some? then 1 else 0)
    requires rep'.ledger ==
      rep.ledger + Lines(h, StateAt(st, n), n, PayloadAt(h, st.rounds, payload, n), rep.resolicits)
    ensures Arrived(h, st, payload, n + 1, rep')
  {
  }

  /** Every attempt before `n` is followed by another. */
  predicate AllGoOn(h: Hooks, st: Nudge, payload: Payload, n: nat) {
    n == 0 || (AllGoOn(h, st, payload, n - 1) && GoesOn(h, st, payload, n - 1))
  }

  lemma RunStops(h: Hooks, st: Nudge, payload: Payload, n: nat, now: Nudge, p: Payload, rep: Report)
    requires now == StateAt(st, n) && p == PayloadAt(h, st.rounds, payload, n)
    requires Sound(now) && Arrived(h, st, payload, n, rep) && !GoesOn(h, st, payload, n)
    ensures EndsAt(h, st, payload, n, RunFrom(h, now, p, n, rep).0, RunFrom(h, now, p, n, rep).1)
  {
    var o := EndsHere(h, st, payload, n, now, p, rep);
    RunNext(h, now, p, n, rep, o);
  }

  lemma RunGoesOn(h: Hooks, st: Nudge, payload: Payload, n: nat, now: Nudge, p: Payload, rep: Report)
    returns (now': Nudge, p': Payload, rep': Report)
    requires now == StateAt(st, n) && p == PayloadAt(h, st.rounds, payload, n)
    requires Sound(now) && Arrived(h, st, payload, n, rep) && GoesOn(h, st, payload, n)
    ensures now' == StateAt(st, n + 1) && p' == PayloadAt(h, st.rounds, payload, n + 1)
    ensures Sound(now') && Arrived(h, st, payload, n + 1, rep')
    ensures RunFrom(h, now, p, n, rep) == RunFrom(h, now', p', n + 1, rep')
  {
    var o := GoesOnFrom(h, st, payload, n, now, p, rep);
    RunNext(h, now, p, n, rep, o);
    now', p', rep' := o.state, o.payload, o.report;
  }

  lemma {:induction false} RunArrives(h: Hooks, st: Nudge, payload: Payload, n: nat, now: Nudge, p: Payload, rep: Report,
                                      end: (Nudge, Report)) returns (last: nat)
    requires now == StateAt(st, n) && p == PayloadAt(h, st.rounds, payload, n)
    requires Sound(now) && Arrived(h, st, payload, n, rep) && end == RunFrom(h, now, p, n, rep)
    requires AllGoOn(h, st, payload, n)
    ensures AllGoOn(h, st, payload, last) && !GoesOn(h, st, payload, last)
    ensures EndsAt(h, st, payload, last, end.0, end.1)
    decreases 3 - now.rounds
  {
    last := n;
    if GoesOn(h, st, payload, n) {
      var now', p', rep' := RunGoesOn(h, st, payload, n, now, p, rep);
      last := RunArrives(h, st, payload, n + 1, now', p', rep', end);
    } else {
      RunStops(h, st, payload, n, now, p, rep);
    }
  }

  /**
   A call makes attempts until the first that is not to go on, on the payloads that re-solicitation and the planner
   name; its counters, disposition, spawns, actions and ledger lines are what these attempts come to.
   */
  lemma RunsExactly(h: Hooks, st: Nudge, payload: Payload) returns (last: nat)
    requires Sound(st)
    ensures AllGoOn(h, st, payload, last) && !GoesOn(h, st, payload, last)
    ensures EndsAt(h, st, payload, last, RunGatedTask(h, st, payload).0, RunGatedTask(h, st, payload).1)
  {
    last := RunArrives(h, st, payload, 0, st, payload, STARTED, RunGatedTask(h, st, payload));
  }

  // ---- Which payloads are gated ------------------------------------------------------------------------------------

  function GatedPayloads(actions: seq<Action>): seq<Payload> {
    if actions == [] then []
    else
      var last := actions[|actions| - 1];
      GatedPayloads(actions[..|actions| - 1]) + (if last.Gated? then [last.payload] else [])
  }

  lemma GatedAppend(actions: seq<Action>, a: Action)
    ensures GatedPayloads(actions + [a]) == GatedPayloads(actions) + (if a.Gated? then [a.payload] else [])
  {
    assert (actions + [a])[..|actions|] == actions;
  }

  lemma GatedDoes(h: Hooks, actions: seq<Action>, j: nat, p: Payload)
    ensures GatedPayloads(actions + Does(h, j, p)) == GatedPayloads(actions) + (if Tried(h, j, p) then [p] else [])
  {
    var argv := ArgvAt(h, j, p);
    var bound := if h.bind.Some? && argv.Some? then actions + [Bound(p, argv.value)] else actions;
    if h.bind.Some? && argv.Some? {
      GatedAppend(actions, Bound(p, argv.value));
    }
    if Tried(h, j, p) {
      GatedAppend(bound, Gated(p));
      GatedAppend(bound + [Gated(p)], Spawned(argv.value));
      assert actions + Does(h, j, p) == bound + [Gated(p)] + [Spawned(argv.value)];
    } else {
      assert actions + Does(h, j, p) == bound;
    }
  }

  ghost predicate AllAt(h: Hooks, rounds: nat, payload: Payload, g: seq<Payload>) {
    forall j: nat | j < |g| :: g[j] == PayloadAt(h, rounds, payload, j)
  }

  lemma {:induction false} GatedInOrder(h: Hooks, st: Nudge, payload: Payload, n: nat)
    requires AllGoOn(h, st, payload, n)
    ensures var g := GatedPayloads(DoneBefore(h, st.rounds, payload, n)); |g| == n && AllAt(h, st.rounds, payload, g)
  {
    if n > 0 {
      GatedInOrder(h, st, payload, n - 1);
      assert GoesOn(h, st, payload, n - 1);
      GatedDoes(h, DoneBefore(h, st.rounds, payload, n - 1), n - 1, PayloadAt(h, st.rounds, payload, n - 1));
    }
  }

  lemma GatedOfCall(h: Hooks, st: Nudge, payload: Payload)
    requires Sound(st)
    ensures AllAt(h, st.rounds, payload, GatedPayloads(RunGatedTask(h, st, payload).1.actions))
  {
    var last := RunsExactly(h, st, payload);
    GatedInOrder(h, st, payload, last);
    GatedDoes(h, DoneBefore(h, st.rounds, payload, last), last, PayloadAt(h, st.rounds, payload, last));
  }

  /**
   The first payload gated is the one given. The next is what re-solicitation answered to the failure before, when
   it was asked and gave one, else what the planner made of the payload gated before, else that payload again.
   */
  lemma PayloadsFollow(h: Hooks, st: Nudge, payload: Payload)
    requires Sound(st)
    ensures var g := GatedPayloads(RunGatedTask(h, st, payload).1.actions);
      (g != [] ==> g[0] == payload) &&
      forall j: nat | j < |g| - 1 :: g[j + 1] == NextPayload(h, st.rounds + j, j, g[j], Used(h, j))
  {
    GatedOfCall(h, st, payload);
    var g := GatedPayloads(RunGatedTask(h, st, payload).1.actions);
    forall j: nat | j < |g| - 1 ensures g[j + 1] == NextPayload(h, st.rounds + j, j, g[j], Used(h, j)) {
      assert g[j + 1] == PayloadAt(h, st.rounds, payload, j + 1);
    }
  }
}
