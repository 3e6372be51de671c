/** What the moderation machine remembers over a run, crashes included: the user cycle, the blocker, and
    the message whose moderation ended last (workspace/moderator/src/fsm.ts). */
module FsmMemory {
  import opened Base
  import opened Fsm
  import opened FsmRuns

  /** The origin user that an accepted event names. */
  function NamedCycle(s: State, e: Event): Option<Id> {
    if e.NewUserCycle? || (e.ContextLoaded? && s.phase == Observing) then e.originUserID else None
  }

  /** The last origin user that was named. */
  function KnownCycle(run: Run): Option<Id> {
    if run == [] then None
    else
      var init, last := run[..|run| - 1], run[|run| - 1];
      if last.Crash? then KnownCycle(init)
      else NamedCycle(Exec(init), last.event).Or(KnownCycle(init))
  }

  /** A root handoff, or a verdict that the agent is blocked. */
  function RaisedBlocker(s: State, e: Event): Option<BlockerSource> {
    if e.ContextLoaded? && s.phase == Observing && Eligible(e.turn) && e.turn.rootBlocked then
      Some(OperatorHandoff)
    else if e.VerdictGiven? && s.phase == Classifying && e.verdict == Blocked then Some(AgentBlocked)
    else None
  }

  /** Work on another branch, a new cycle that does not discuss the blocker, or any other verdict. */
  predicate LiftsBlocker(s: State, e: Event) {
    || (e.NewUserCycle? && !e.sameBranch)
    || (e.ContextLoaded? && s.phase == Observing && e.turn.newCycle && !e.turn.blockerDiscussion)
    || (e.VerdictGiven? && s.phase == Classifying)
  }

  function StandingBlocker(run: Run): Option<Blocker> {
    if run == [] then None
    else
      var init, last := run[..|run| - 1], run[|run| - 1];
      if last.Crash? then StandingBlocker(init)
      else
        var raised := RaisedBlocker(Exec(init), last.event);
        if raised.Some? then Some(Blocker(raised.value, last.event.originUserID.Or(KnownCycle(run))))
        else if LiftsBlocker(Exec(init), last.event) then None
        else StandingBlocker(init)
  }

  /** A verdict after which the message is not moderated again; `stalls` were counted before it. */
  predicate Ends(s: State, e: Event, stalls: int, blocked: bool) {
    && e.VerdictGiven? && s.phase == Classifying
    && (e.verdict in {Complete, Blocked, Stopped} || blocked || stalls >= ESCALATION_LIMIT)
  }

  /** The message that the last ending verdict judged, forgotten when an error strikes while it is in
      flight again, or a crash while anything is being classified. */
  function LastEnded(run: Run): Option<Id> {
    if run == [] then None
    else
      var init, last := run[..|run| - 1], run[|run| - 1];
      var s := Exec(init);
      match last
      case Crash => if s.phase == Classifying then None else LastEnded(init)
      case Happened(e) =>
        if Ends(s, e, Stalls(init), StandingBlocker(init).Some?) then s.inflightAssistantID.Or(LastEnded(init))
        else if e.EffectError? && LastEnded(init) == s.inflightAssistantID then None
        else LastEnded(init)
  }

  /** How one event moves the cycle and the blocker. */
  lemma BlockerStep(s: State, e: Event)
    ensures var t := Next(s, e).state;
            && t.realUserCycleID == NamedCycle(s, e).Or(s.realUserCycleID)
            && t.blocker ==
               if RaisedBlocker(s, e).Some? then
                 Some(Blocker(RaisedBlocker(s, e).value, e.originUserID.Or(t.realUserCycleID)))
               else if LiftsBlocker(s, e) then None
               else s.blocker
  {
    match e case _ =>
  }

  /** How one event moves the message that ended last. */
  lemma EndedStep(s: State, e: Event)
    requires 0 <= s.consecutiveNoProgressCount
    ensures Next(s, e).state.lastTerminalAssistantID ==
            if Ends(s, e, s.consecutiveNoProgressCount, s.blocker.Some?) then
              s.inflightAssistantID.Or(s.lastTerminalAssistantID)
            else if e.EffectError? && s.lastTerminalAssistantID == s.inflightAssistantID then None
            else s.lastTerminalAssistantID
  {
    match e case _ =>
  }

  /** In every run the fields of the state are what the run says happened. */
  lemma {:induction false} MemoryIsExact(run: Run)
    ensures Exec(run).realUserCycleID == KnownCycle(run)
    ensures Exec(run).blocker == StandingBlocker(run)
    ensures Exec(run).lastTerminalAssistantID == LastEnded(run)
  {
    if run != [] {
      var init, last := run[..|run| - 1], run[|run| - 1];
      MemoryIsExact(init);
      StallCountIsExact(init);
      if last.Happened? {
        BlockerStep(Exec(init), last.event);
        EndedStep(Exec(init), last.event);
      }
    }
  }

  /** While a blocker stands nothing is continued, whatever the verdict; the verdict only ends it. */
  lemma BlockedMeansNoContinuation(run: Run, e: Event)
    requires StandingBlocker(run).Some?
    ensures !Sends(Exec(run), e)
    ensures e.VerdictGiven? && Exec(run).phase == Classifying && e.verdict != Blocked ==>
              StandingBlocker(run + [Happened(e)]) == None && Exec(run + [Happened(e)]).phase == Idle
  {
    MemoryIsExact(run);
    SendsExactly(Exec(run), e);
    assert (run + [Happened(e)])[..|run|] == run;
  }

  // ---------------------------------------------------------------- one decision for every event

  function DecisionPlace(s: State, e: Event): nat {
    if Accepts(e, s.phase) && (e.TurnEnded? || e.ContinuationPersisted?) then 1 else 0
  }

  /** Every event is recorded under exactly one decision; the decision says "outside the phase" exactly
      when the machine did not accept the event, and then nothing changed and nothing else is asked for. */
  lemma OneDecision(s: State, e: Event)
    ensures var r, k := Next(s, e), DecisionPlace(s, e);
            && k < |r.effects| && r.effects[k].WriteDecision?
            && (forall j :: 0 <= j < |r.effects| && r.effects[j].WriteDecision? ==> j == k)
            && (r.effects[k].decision == IgnoredOutsidePhase <==> !Accepts(e, s.phase))
            && (!Accepts(e, s.phase) ==> r.state == s && |r.effects| == 1)
  {
    match e case _ =>
  }

  /** What is traced or sent to the agent is the verdict of the event itself; a trace without a verdict is
      that of a root handoff. */
  lemma VerdictsAreTheEvents(s: State, e: Event, k: nat)
    requires k < |Next(s, e).effects|
    ensures match Next(s, e).effects[k]
            case WriteTrace(Some(v)) => e.VerdictGiven? && e.verdict == v && s.phase == Classifying
            case WriteTrace(None) => RaisedBlocker(s, e) == Some(OperatorHandoff)
            case SendContinuation(v) => e.VerdictGiven? && e.verdict == v && s.phase == Classifying
            case _ => true
  {
    match e case _ =>
  }
}
