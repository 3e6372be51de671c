/** What one event makes of each field of the state, and what it asks for, told field by field
    (workspace/moderator/src/fsm.ts). */
module FsmPhases {
  import opened Base
  import opened Fsm
  import opened FsmRuns
  import opened FsmMemory

  // ---------------------------------------------------------------- the phase

  /** A loaded context to be classified. */
  predicate ToClassify(turn: TurnFact) {
    Eligible(turn) && !turn.rootBlocked && !turn.blockerDiscussion
  }

  /** The verdict is answered by a continuation, with this many stalled verdicts before it. */
  predicate ToContinue(verdict: Verdict, blocked: bool, stalls: int) {
    !blocked && ((verdict == GoesOn && stalls < 3) || (verdict == Stalled && stalls < 2))
  }

  /** The state chart: from each phase the events that leave it, and where to. */
  function PhaseAfter(phase: Phase, e: Event, blocked: bool, stalls: int): Phase {
    if e.EffectError? then Errored
    else if e.StatusBusy? then Observing
    else
      match phase
      case Idle => if e.Replay? && Eligible(e.turn) && e.turn.assistantID.Some? then Classifying else Idle
      case Errored =>
        if !e.Replay? then Errored
        else if Eligible(e.turn) && e.turn.assistantID.Some? then Classifying
        else Idle
      case Observing => if !e.ContextLoaded? then Observing else if ToClassify(e.turn) then Classifying else Idle
      case Classifying =>
        if e.VerdictGiven? then (if ToContinue(e.verdict, blocked, stalls) then Continuing else Idle)
        else if e.Cancelled? || e.NewUserCycle? then Idle
        else Classifying
      case Continuing =>
        if e.ContinuationPersisted? then Observing
        else if e.Cancelled? || e.NewUserCycle? then Idle
        else Continuing
  }

  lemma PhaseAfterTurns(s: State, e: Event)
    requires e.TurnEnded? || e.ContextLoaded? || e.Replay?
    ensures Next(s, e).state.phase
            == PhaseAfter(s.phase, e, s.blocker.Some?, s.consecutiveNoProgressCount)
  {
  }

  lemma PhaseAfterVerdicts(s: State, e: Event)
    requires e.VerdictGiven?
    ensures Next(s, e).state.phase
            == PhaseAfter(s.phase, e, s.blocker.Some?, s.consecutiveNoProgressCount)
  {
  }

  /** Every event moves the phase along the chart. */
  lemma PhaseStep(s: State, e: Event)
    ensures Next(s, e).state.phase
            == PhaseAfter(s.phase, e, s.blocker.Some?, s.consecutiveNoProgressCount)
  {
    if e.TurnEnded? || e.ContextLoaded? || e.Replay? {
      PhaseAfterTurns(s, e);
    } else if e.VerdictGiven? {
      PhaseAfterVerdicts(s, e);
    } else {
      match e case _ =>
    }
  }

  /** The phase that the state chart reaches, from the standing blocker and the stalls of the run. */
  function PhaseOf(run: Run): Phase {
    if run == [] then Idle
    else
      var init, last := run[..|run| - 1], run[|run| - 1];
      match last
      case Crash => Idle
      case Happened(e) => PhaseAfter(PhaseOf(init), e, StandingBlocker(init).Some?, Stalls(init))
  }

  lemma {:induction false} PhaseIsExact(run: Run)
    ensures Exec(run).phase == PhaseOf(run)
  {
    if run != [] {
      var init, last := run[..|run| - 1], run[|run| - 1];
      PhaseIsExact(init);
      MemoryIsExact(init);
      StallCountIsExact(init);
      if last.Happened? {
        PhaseStep(Exec(init), last.event);
      }
    }
  }

  /** A new prompt in the observing phase: the turn that ends after the new cycle is loaded, whatever the
      cycle and the turn are. */
  lemma FirstTurnOfACycleIsLoaded(s: State, origin: Option<Id>, sameBranch: bool, turn: TurnFact)
    requires s.phase == Observing
    ensures var t := Next(s, NewUserCycle(origin, sameBranch)).state;
            var r := Next(t, TurnEnded(turn));
            && t.phase == Observing && LoadContext in r.effects && !r.ignored
            && r.state.phase == Observing && r.state.inflightAssistantID == turn.assistantID
  {
    assert Next(Next(s, NewUserCycle(origin, sameBranch)).state, TurnEnded(turn)).effects[0] == LoadContext;
  }

  /** The context is asked for exactly when a turn ends in the observing phase. */
  lemma LoadsExactly(s: State, e: Event)
    ensures LoadContext in Next(s, e).effects <==> e.TurnEnded? && s.phase == Observing
  {
    if e.TurnEnded? && s.phase == Observing {
      assert Next(s, e).effects[0] == LoadContext;
    }
  }

  /** The prompt is verified exactly when a continuation has been sent. */
  lemma VerifiesExactly(s: State, e: Event)
    ensures VerifyPrompt in Next(s, e).effects <==> e.ContinuationPersisted? && s.phase == Continuing
  {
    if e.ContinuationPersisted? && s.phase == Continuing {
      assert Next(s, e).effects[0] == VerifyPrompt;
    }
  }

  // ---------------------------------------------------------------- work in progress

  /** The turn that an accepted event puts in flight. */
  function PutsInFlight(s: State, e: Event): Option<TurnFact> {
    if e.TurnEnded? && s.phase == Observing then Some(e.turn)
    else if e.Replay? && s.phase in {Idle, Errored} && Eligible(e.turn) && e.turn.assistantID.Some? then Some(e.turn)
    else None
  }

  /** The events that leave nothing in flight. */
  predicate Drops(s: State, e: Event) {
    || e.NewUserCycle? || e.EffectError?
    || (e.Cancelled? && s.phase in {Classifying, Continuing})
    || (e.VerdictGiven? && s.phase == Classifying
        && !ToContinue(e.verdict, s.blocker.Some?, s.consecutiveNoProgressCount))
  }

  lemma InFlightStep(s: State, e: Event)
    ensures Next(s, e).state.inflightAssistantID ==
            if PutsInFlight(s, e).Some? then PutsInFlight(s, e).value.assistantID
            else if Drops(s, e) then None
            else if e.ContextLoaded? && s.phase == Observing && e.turn.assistantID.Some? then e.turn.assistantID
            else s.inflightAssistantID
  {
    match e case _ =>
  }

  /** The context that a turn leaves pending: it names the message, the prompt, the mode and the todos. */
  predicate IsContextOf(context: Option<ContextFact>, turn: TurnFact) {
    if turn.assistantID.None? then context.None?
    else
      && context.Some? && Some(context.value.assistantID) == turn.assistantID
      && context.value.userMessageID == turn.userMessageID
      && context.value.agentMode == turn.agentMode && context.value.todosOpen == turn.todosOpen
  }

  /** The events that clear the pending context. */
  predicate Clears(s: State, e: Event) {
    || e.NewUserCycle? || (e.ContextLoaded? && s.phase == Observing)
    || (e.Replay? && s.phase in {Idle, Errored})
    || Ends(s, e, s.consecutiveNoProgressCount, s.blocker.Some?)
  }

  lemma PendingStep(s: State, e: Event)
    requires 0 <= s.consecutiveNoProgressCount
    ensures var pending := Next(s, e).state.pendingContext;
            if PutsInFlight(s, e).Some? then IsContextOf(pending, PutsInFlight(s, e).value)
            else pending == if Clears(s, e) then None else s.pendingContext
  {
    match e case _ =>
  }

  /** A compaction is open between its two events, until a verdict ends the message or the session dies. */
  function CompactionOpen(run: Run): bool {
    if run == [] then false
    else
      var init, last := run[..|run| - 1], run[|run| - 1];
      match last
      case Crash => false
      case Happened(e) =>
        if e.CompactionStarted? then true
        else if e.CompactionCompleted? || Ends(Exec(init), e, Stalls(init), StandingBlocker(init).Some?) then false
        else CompactionOpen(init)
  }

  lemma CompactionStep(s: State, e: Event)
    requires 0 <= s.consecutiveNoProgressCount
    ensures Next(s, e).state.compactionActive <==>
            || e.CompactionStarted?
            || (s.compactionActive && !e.CompactionCompleted?
                && !Ends(s, e, s.consecutiveNoProgressCount, s.blocker.Some?))
  {
    match e case _ =>
  }

  lemma {:induction false} CompactionIsExact(run: Run)
    ensures Exec(run).compactionActive == CompactionOpen(run)
  {
    if run != [] {
      var init, last := run[..|run| - 1], run[|run| - 1];
      CompactionIsExact(init);
      MemoryIsExact(init);
      StallCountIsExact(init);
      if last.Happened? {
        CompactionStep(Exec(init), last.event);
      }
    }
  }

  // ---------------------------------------------------------------- decisions, toasts and traces

  /** The eligibility table: a flag of the turn and the decision that ignores it, in order. */
  function Table(turn: TurnFact): seq<(bool, DecisionType)> {
    [ (!turn.terminal, IgnoredNonterminal),
      (turn.assistantError, IgnoredAssistantError),
      (turn.planMode, IgnoredPlanMode),
      (turn.compaction, IgnoredCompaction),
      (turn.userNewer, IgnoredNewerUser),
      (turn.moderatorTrace, IgnoredModeratorTrace),
      (turn.duplicate, IgnoredDuplicate) ]
  }

  /** The row that decides is the first one that matches; an eligible turn matches none. */
  lemma SkipIsFirstRow(turn: TurnFact)
    ensures EligibilitySkip(turn).None? <==> Eligible(turn)
    ensures Eligible(turn) <==> forall row <- Table(turn) :: !row.0
    ensures EligibilitySkip(turn).Some? ==>
              exists k :: 0 <= k < 7 && Table(turn)[k] == (true, EligibilitySkip(turn).value)
                          && forall j :: 0 <= j < k ==> !Table(turn)[j].0
  {
    var table := Table(turn);
    var k := if table[0].0 then 0 else if table[1].0 then 1 else if table[2].0 then 2 else if table[3].0 then 3
             else if table[4].0 then 4 else if table[5].0 then 5 else if table[6].0 then 6 else 7;
    assert EligibilitySkip(turn).Some? ==> k < 7 && table[k] == (true, EligibilitySkip(turn).value);
  }

  /** The decision that is recorded, from the guards. */
  function DecisionFor(s: State, e: Event): DecisionType {
    if !Accepts(e, s.phase) then IgnoredOutsidePhase
    else
      match e
      case StatusBusy => StatusBusyNoted
      case TurnEnded(_) => StatusBusyNoted
      case ContextLoaded(turn, _) =>
        var passed := if turn.rootBlocked then RootHandoff else if turn.blockerDiscussion then BlockerDiscussed
                      else Checking;
        EligibilitySkip(turn).Or(Some(passed)).value
      case Replay(turn) =>
        EligibilitySkip(turn).Or(Some(if turn.assistantID.Some? then Checking else IgnoredNonterminal)).value
      case VerdictGiven(verdict, _) =>
        if ToContinue(verdict, s.blocker.Some?, s.consecutiveNoProgressCount) then ModerationContinue
        else if verdict == Blocked then ModerationAgentBlocked
        else if verdict == Stopped then ModerationUserStop
        else if verdict == Complete || s.blocker.Some? then ModerationComplete
        else ModerationEscalated
      case Cancelled => CancelledNoted
      case ContinuationPersisted => ContinuationNoted
      case NewUserCycle(_, _) => NewUserCycleNoted
      case CompactionStarted => CompactionStartNoted
      case CompactionCompleted => CompactionEndNoted
      case TracePersisted => TraceRecorded
      case EffectError => ModerationError
  }

  /** The toast that goes with a decision. */
  function ToastOf(decision: DecisionType): Option<ToastKind> {
    match decision
    case Checking => Some(CheckingToast)
    case ModerationComplete => Some(CompleteToast)
    case ModerationAgentBlocked => Some(BlockedToast)
    case ModerationUserStop => Some(UserStopToast)
    case RootHandoff => Some(HandoffToast)
    case ModerationContinue => Some(ContinuingToast)
    case ModerationEscalated => Some(EscalatedToast)
    case ModerationError => Some(ErrorToast)
    case _ => None
  }

  lemma DecisionIs(s: State, e: Event)
    ensures DecisionPlace(s, e) < |Next(s, e).effects|
    ensures Next(s, e).effects[DecisionPlace(s, e)] == WriteDecision(DecisionFor(s, e))
  {
    match e case _ =>
  }

  lemma ToastAtPlace(s: State, e: Event, k: nat)
    requires k < |Next(s, e).effects| && Next(s, e).effects[k].ShowToast?
    ensures ToastOf(DecisionFor(s, e)) == Some(Next(s, e).effects[k].kind)
  {
    match e case _ =>
  }

  lemma ToastHasPlace(s: State, e: Event) returns (k: nat)
    requires ToastOf(DecisionFor(s, e)).Some?
    ensures k < |Next(s, e).effects| && Next(s, e).effects[k].ShowToast?
  {
    k := if DecisionFor(s, e) in {ModerationComplete, ModerationAgentBlocked, RootHandoff, ModerationContinue} then 2
         else 1;
  }

  /** The operator sees the toast of the recorded decision and no other. */
  lemma ToastIsTheDecisions(s: State, e: Event, kind: ToastKind)
    ensures ShowToast(kind) in Next(s, e).effects <==> ToastOf(DecisionFor(s, e)) == Some(kind)
  {
    if ShowToast(kind) in Next(s, e).effects {
      var k :| 0 <= k < |Next(s, e).effects| && Next(s, e).effects[k] == ShowToast(kind);
      ToastAtPlace(s, e, k);
    } else if ToastOf(DecisionFor(s, e)) == Some(kind) {
      var k := ToastHasPlace(s, e);
      ToastAtPlace(s, e, k);
    }
  }

  /** A trace goes into the transcript exactly for a handoff and for the verdicts that complete, block or
      continue. */
  lemma TraceIsTheDecisions(s: State, e: Event)
    ensures (exists v :: WriteTrace(v) in Next(s, e).effects) <==>
            DecisionFor(s, e) in {RootHandoff, ModerationComplete, ModerationAgentBlocked, ModerationContinue}
  {
    if DecisionFor(s, e) in {RootHandoff, ModerationComplete, ModerationAgentBlocked, ModerationContinue} {
      assert Next(s, e).effects[1].WriteTrace?;
      assert WriteTrace(Next(s, e).effects[1].verdict) in Next(s, e).effects;
    }
  }

  /** What the record says of the transition itself: the phases before and after, and that it was ignored
      exactly when the phase did not accept the event or a turn was not eligible. */
  lemma RecordOfTheTransition(s: State, e: Event)
    ensures Next(s, e).previousPhase == s.phase && Next(s, e).nextPhase == Next(s, e).state.phase
    ensures Next(s, e).ignored <==>
            || !Accepts(e, s.phase)
            || ((e.ContextLoaded? || e.Replay?) && !Eligible(e.turn))
            || (e.Replay? && e.turn.assistantID.None?)
  {
    match e case _ =>
  }

  /** The phases that take an event. */
  lemma AcceptsExactly(e: Event, phase: Phase)
    ensures Accepts(e, phase) <==>
            match phase
            case Idle =>
              !(e.TurnEnded? || e.ContextLoaded? || e.VerdictGiven? || e.Cancelled? || e.ContinuationPersisted?)
            case Errored =>
              !(e.TurnEnded? || e.ContextLoaded? || e.VerdictGiven? || e.Cancelled? || e.ContinuationPersisted?)
            case Observing => !(e.VerdictGiven? || e.Cancelled? || e.ContinuationPersisted? || e.Replay?)
            case Classifying => !(e.TurnEnded? || e.ContextLoaded? || e.ContinuationPersisted? || e.Replay?)
            case Continuing => !(e.TurnEnded? || e.ContextLoaded? || e.VerdictGiven? || e.Replay?)
  {
  }
}
