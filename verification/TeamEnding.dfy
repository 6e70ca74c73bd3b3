/** How a team ends for good, and what a process takes with it when only the process ends. */
module TeamEnding {
  import opened TeamInvariants
  import opened TeamProtocol
  import opened TeamSafety
  import opened TeamState
  import opened Wrappers

  /** The record of a team: everything that is on disk. */
  ghost predicate SameRecord(w: World, w': World) {
    w'.captain == w.captain && w'.live == w.live && w'.members == w.members && w'.tasks == w.tasks &&
    w'.taskSeq == w.taskSeq
  }

  /** A call of one of the team's tools. */
  predicate IsTool(ev: Event) {
    ev.AddMember? || ev.RemoveMember? || ev.CreateTask? || ev.ReassignBegin? || ev.ClaimTask? || ev.UpdateTask? ||
    ev.RetireAll? || ev.Archive?
  }

  /** What a tool refuses before anything is looked up: a status updates cannot set, a blank assignee. */
  function Misuse(cfg: Config, ev: Event): Option<Refusal> {
    if ev.UpdateTask? && (ev.status == Some(Pending) || ev.status == Some(Claimed)) then Some(NotAnUpdateStatus)
    else if ev.ReassignBegin? && cfg.trim(ev.assignee) == "" then Some(EmptyName)
    else None
  }

  /** Once a team is over no section changes its record, and every tool answers that it is gone. */
  lemma OverStays(cfg: Config, w: World, ev: Event)
    requires !w.live
    ensures SameRecord(w, Step(cfg, w, ev).0)
    ensures IsTool(ev) ==>
      Step(cfg, w, ev) == (w, Refused(if Misuse(cfg, ev).Some? then Misuse(cfg, ev).value else TeamGone))
  {
  }

  /** Only the captain's archiving ends a team. */
  lemma EndsExactly(cfg: Config, w: World, ev: Event)
    requires w.live
    ensures !Step(cfg, w, ev).0.live <==> ev == Archive(w.captain)
    ensures Step(cfg, w, ev).0.captain == w.captain
  {
    if TaskTool(ev) {
      ToolsStayLive(cfg, w, ev);
    } else if ev.RetireAll? {
      RetireStaysLive(w, 0);
    } else if ev.Dispatch? || ev.DispatchRejected? || ev.MemberActivity? {
      DeliveriesStayLive(cfg, w, ev);
    }
  }

  lemma ToolsStayLive(cfg: Config, w: World, ev: Event)
    requires TaskTool(ev)
    ensures Step(cfg, w, ev).0.live == w.live && Step(cfg, w, ev).0.captain == w.captain
  {
  }

  lemma DeliveriesStayLive(cfg: Config, w: World, ev: Event)
    requires ev.Dispatch? || ev.DispatchRejected? || ev.MemberActivity?
    ensures Step(cfg, w, ev).0.live == w.live && Step(cfg, w, ev).0.captain == w.captain
  {
  }

  lemma {:induction false} RetireStaysLive(w: World, k: nat)
    requires k <= |w.members|
    ensures RetireFrom(w, k).live == w.live && RetireFrom(w, k).captain == w.captain
    decreases |w.members| - k
  {
    if k < |w.members| {
      var w1 := if w.members[k].status == Removed then w else
        WithPresence(w, k, Removed).(tasks := Requeue(w.tasks, w.members[k].name, w.nextToken),
                                     nextToken := w.nextToken + |w.tasks|);
      RetireStaysLive(w1, k + 1);
    }
  }

  /** In every run a team is over exactly when its captain has archived it. */
  lemma {:induction false} OverExactly(cfg: Config, ws: seq<World>, evs: seq<Event>, k: nat)
    requires Run(cfg, ws, evs) && k < |ws|
    ensures ws[k].captain == ws[0].captain
    ensures !ws[k].live <==> Archive(ws[0].captain) in evs[..k]
  {
    if k > 0 {
      OverExactly(cfg, ws, evs, k - 1);
      assert ws[k] == Step(cfg, ws[k - 1], evs[k - 1]).0;
      assert evs[..k] == evs[..k - 1] + [evs[k - 1]];
      if ws[k - 1].live {
        EndsExactly(cfg, ws[k - 1], evs[k - 1]);
      } else {
        OverStays(cfg, ws[k - 1], evs[k - 1]);
      }
    }
  }

  /** From then on its members and tasks are what they were, whatever still arrives. */
  lemma {:induction false} OverForever(cfg: Config, ws: seq<World>, evs: seq<Event>, i: nat, j: nat)
    requires Run(cfg, ws, evs) && i <= j < |ws| && !ws[i].live
    ensures SameRecord(ws[i], ws[j])
  {
    if i < j {
      OverForever(cfg, ws, evs, i, j - 1);
      assert ws[j] == Step(cfg, ws[j - 1], evs[j - 1]).0;
      OverStays(cfg, ws[j - 1], evs[j - 1]);
    }
  }

  /**
   A restart keeps the record. Nothing is parked any more, no delivery can be taken back and no reassignment
   completed, because nobody is left to do it.
   */
  lemma RestartExactly(cfg: Config, w: World, ticket: Ticket, handoff: Handoff, quiesced: bool)
    ensures var w' := Step(cfg, w, Restart).0;
      SameRecord(w, w') && w'.nextToken == w.nextToken && (forall id :: id !in w'.parked) &&
      Step(cfg, w', DispatchRejected(ticket)).0 == w' && Step(cfg, w', DispatchAccepted(ticket)).0 == w' &&
      Step(cfg, w', ReassignCommit(handoff, quiesced)).0 == w'
  {
  }
}
