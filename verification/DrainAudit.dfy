/** The decision log and the state file over whole runs with crashes
    (workspace/moderator/src/adapter.ts, workspace/moderator/src/audit.ts). */
module DrainAudit {
  import opened Base
  import opened Fsm
  import opened FsmRuns
  import opened Drain

  // ---------------------------------------------------------------- the audit chain

  /** What the state file holds after the writes recorded in the log, if it held `first` before. */
  function LastSaved(log: seq<Record>, first: Snapshot): Snapshot {
    if log == [] then first
    else if log[|log| - 1].saved then Stored(log[|log| - 1].snapshot)
    else LastSaved(log[..|log| - 1], first)
  }

  /** The state in which a new epoch starts over a state file. */
  function Resumed(disk: Snapshot): State {
    if disk.Stored? && IsValidState(disk.state) then NormalizeRestored(disk.state) else INITIAL
  }

  predicate FirstOfEpoch(log: seq<Record>, i: nat)
    requires i < |log|
  {
    i == 0 || log[i - 1].epoch != log[i].epoch
  }

  /** The record is one transition, taken from the snapshot of the record before it or, at the start of
      an epoch, from the restored state file. */
  predicate Linked(log: seq<Record>, first: Snapshot, i: nat)
    requires i < |log|
  {
    && log[i].previous ==
       (if FirstOfEpoch(log, i) then Resumed(LastSaved(log[..i], first)) else log[i - 1].snapshot)
    && Transition(log[i].previous, log[i].event) == Ok(Next(log[i].previous, log[i].event))
    && log[i].snapshot == Next(log[i].previous, log[i].event).state
  }

  predicate Chained(log: seq<Record>, first: Snapshot) {
    forall i :: 0 <= i < |log| ==> Linked(log, first, i)
  }

  /** Epochs only grow, and only the last record of an epoch can have missed its state write. */
  predicate SavedWithinEpochs(log: seq<Record>) {
    forall i {:trigger log[i]} :: 0 <= i < |log| - 1 ==>
                                    && log[i].epoch <= log[i + 1].epoch
                                    && (log[i].epoch == log[i + 1].epoch ==> log[i].saved)
  }

  /** No read or write of the files fails. */
  predicate Reliable(step: Step) {
    match step
    case Restore(_, readable) => readable
    case Append(_, written) => written
    case Persist(_, written) => written
    case _ => true
  }

  predicate LoggedNow(s: System) {
    s.log != [] && s.log[|s.log| - 1].epoch == s.epoch
  }

  /** The state that the next record will start from. */
  function LastState(s: System): State {
    if LoggedNow(s) then s.log[|s.log| - 1].snapshot else Resumed(s.disk)
  }

  predicate BodyAgrees(s: System) {
    if !s.restored || (s.bodies != [] && s.bodies[0].Restoring?) then
      !LoggedNow(s) && s.state == INITIAL
    else if s.bodies == [] || s.bodies[0].AtLoop? then
      s.state == LastState(s) && (LoggedNow(s) ==> s.log[|s.log| - 1].saved)
    else if s.bodies[0].Persisting? then
      LoggedNow(s) && s.state == LastState(s) && !s.log[|s.log| - 1].saved
    else
      var b := s.bodies[0];
      && b.previous == LastState(s)
      && IsValidState(b.previous)
      && b.result == Next(b.previous, b.entry.event)
      && s.state == b.result.state
      && (LoggedNow(s) ==> s.log[|s.log| - 1].saved)
  }

  predicate FilesAudited(log: seq<Record>, disk: Snapshot, epoch: nat, first: Snapshot) {
    && Chained(log, first)
    && SavedWithinEpochs(log)
    && disk == LastSaved(log, first)
    && (log != [] ==> log[|log| - 1].epoch <= epoch)
  }

  predicate Audited(s: System, first: Snapshot) {
    && SingleWorker(s)
    && FilesAudited(s.log, s.disk, s.epoch, first)
    && BodyAgrees(s)
  }

  lemma ChainedAppend(log: seq<Record>, first: Snapshot, r: Record)
    requires Chained(log, first) && Linked(log + [r], first, |log|)
    ensures Chained(log + [r], first)
  {
    var longer := log + [r];
    forall i | 0 <= i < |longer| ensures Linked(longer, first, i) {
      if i < |log| {
        assert Linked(log, first, i);
        assert longer[..i] == log[..i];
      }
    }
  }

  lemma ChainedMark(log: seq<Record>, first: Snapshot)
    requires Chained(log, first)
    ensures Chained(MarkSaved(log), first)
  {
    if log != [] {
      var marked := MarkSaved(log);
      forall i | 0 <= i < |marked| ensures Linked(marked, first, i) {
        assert Linked(log, first, i);
        assert marked[..i] == log[..i];
      }
    }
  }

  lemma SavedAppend(log: seq<Record>, r: Record)
    requires SavedWithinEpochs(log)
    requires log != [] ==> log[|log| - 1].epoch <= r.epoch && (log[|log| - 1].epoch == r.epoch ==> log[|log| - 1].saved)
    ensures SavedWithinEpochs(log + [r])
  {
  }

  lemma FilesAppend(log: seq<Record>, disk: Snapshot, epoch: nat, first: Snapshot, r: Record)
    requires FilesAudited(log, disk, epoch, first)
    requires r.epoch == epoch && !r.saved && Linked(log + [r], first, |log|)
    requires log != [] && log[|log| - 1].epoch == epoch ==> log[|log| - 1].saved
    ensures FilesAudited(log + [r], disk, epoch, first)
  {
    ChainedAppend(log, first, r);
    SavedAppend(log, r);
    LastSavedAppend(log, first, r);
  }

  lemma LastSavedAppend(log: seq<Record>, first: Snapshot, r: Record)
    requires !r.saved
    ensures LastSaved(log + [r], first) == LastSaved(log, first)
  {
    assert (log + [r])[..|log|] == log;
  }

  lemma FilesMark(log: seq<Record>, disk: Snapshot, epoch: nat, first: Snapshot)
    requires FilesAudited(log, disk, epoch, first) && log != []
    ensures FilesAudited(MarkSaved(log), Stored(log[|log| - 1].snapshot), epoch, first)
  {
    ChainedMark(log, first);
    var marked := MarkSaved(log);
    forall k | 0 <= k < |marked| - 1
      ensures marked[k].epoch <= marked[k + 1].epoch
              && (marked[k].epoch == marked[k + 1].epoch ==> marked[k].saved)
    {
      assert marked[k] == log[k] && marked[k + 1].epoch == log[k + 1].epoch;
    }
  }

  lemma AuditedAppend(s: System, first: Snapshot, i: nat)
    requires Audited(s, first) && Enabled(s, Append(i, true))
    ensures Audited(DoAppend(s, i, true), first)
  {
    var b := s.bodies[i];
    var r := Record(s.epoch, b.entry.event, b.previous, b.result.state, b.outcomes, false);
    var longer := s.log + [r];
    assert longer[..|s.log|] == s.log;
    assert Linked(longer, first, |s.log|);
    FilesAppend(s.log, s.disk, s.epoch, first, r);
  }

  lemma AuditedPersist(s: System, first: Snapshot, i: nat)
    requires Audited(s, first) && Enabled(s, Persist(i, true))
    ensures Audited(DoPersist(s, i, true), first)
  {
    FilesMark(s.log, s.disk, s.epoch, first);
  }

  lemma BodyAgreesLoop(s: System, i: nat)
    requires SingleWorker(s) && BodyAgrees(s) && Enabled(s, Loop(i))
    ensures BodyAgrees(DoLoop(s, i))
    ensures DoLoop(s, i).log == s.log && DoLoop(s, i).disk == s.disk && DoLoop(s, i).epoch == s.epoch
  {
  }

  lemma BodyAgreesAdvanced(s: System, t: System, ok: bool)
    requires BodyAgrees(s) && s.restored && s.bodies != [] && s.bodies[0].Performing?
    requires t == s.(queue := t.queue, context := t.context,
                     bodies := [Advanced(s.bodies[0], ok, t.context)])
    ensures BodyAgrees(t)
  {
  }

  lemma BodyAgreesPerform(s: System, i: nat, answer: Answer)
    requires SingleWorker(s) && BodyAgrees(s) && Enabled(s, Perform(i, answer))
    ensures var t := DoPerform(s, i, answer);
            BodyAgrees(t) && t.log == s.log && t.disk == s.disk && t.epoch == s.epoch
  {
    PerformShape(s, i, answer);
    BodyAgreesAdvanced(s, DoPerform(s, i, answer), answer != Fails);
  }

  lemma BodyAgreesArrive(s: System, e: Event)
    requires SingleWorker(s) && BodyAgrees(s)
    ensures var t := DoArrive(s, e);
            BodyAgrees(t) && t.log == s.log && t.disk == s.disk && t.epoch == s.epoch
  {
    var t := DoArrive(s, e);
    assert t.state == s.state;
    if s.bodies == [] {
      assert t.bodies == [if s.restored then AtLoop else Restoring];
    } else {
      assert t.bodies == s.bodies;
    }
  }

  lemma AuditedArrive(s: System, first: Snapshot, e: Event)
    requires Audited(s, first) && External(e)
    ensures Audited(DoArrive(s, e), first)
  {
    SingleWorkerStep(s, Arrive(e));
    BodyAgreesArrive(s, e);
  }

  lemma AuditedResumed(s: System, t: System, first: Snapshot)
    requires Audited(s, first) && s.bodies != [] && s.bodies[0].Restoring?
    requires SingleWorker(t) && t.restored && (t.bodies == [] || t.bodies == [AtLoop])
    requires t.log == s.log && t.disk == s.disk && t.epoch == s.epoch && t.state == Resumed(s.disk)
    ensures Audited(t, first)
  {
  }

  lemma AuditedRestore(s: System, first: Snapshot, i: nat)
    requires Audited(s, first) && Enabled(s, Restore(i, true))
    ensures Audited(DoRestore(s, i, true), first)
  {
    SingleWorkerStep(s, Restore(i, true));
    LeaveShape(s, i);
    AuditedResumed(s, DoRestore(s, i, true), first);
  }

  lemma AuditedStep(s: System, first: Snapshot, step: Step)
    requires Audited(s, first) && Enabled(s, step) && Reliable(step)
    ensures Audited(Apply(s, step), first)
  {
    match step
    case Append(i, _) => AuditedAppend(s, first, i);
    case Persist(i, _) => AuditedPersist(s, first, i);
    case Arrive(e) => AuditedArrive(s, first, e);
    case Restore(i, _) => AuditedRestore(s, first, i);
    case CrashNow => assert FilesAudited(s.log, s.disk, s.epoch + 1, first);
    case Loop(i) =>
      SingleWorkerStep(s, step);
      BodyAgreesLoop(s, i);
    case Perform(i, answer) =>
      SingleWorkerStep(s, step);
      BodyAgreesPerform(s, i, answer);
  }

  /** In every run whose file accesses succeed, crashes anywhere included: each record is one transition,
      each record starts where the one before it ended, the first one after a crash starts from the
      restored state file, and only a crash between the two writes leaves a record unsaved. */
  lemma {:induction false} AuditChain(s: System, first: Snapshot, steps: seq<Step>)
    requires Audited(s, first) && Possible(s, steps)
    requires forall step <- steps :: Reliable(step)
    ensures Audited(After(s, steps), first)
    decreases steps
  {
    if steps != [] {
      AuditedStep(s, first, steps[0]);
      AuditChain(Apply(s, steps[0]), first, steps[1..]);
    }
  }

  /** While no state write is pending, the file, the last record of the epoch and the live state agree
      (the live state runs ahead of them by the event in progress). */
  predicate FileIsCurrent(s: System) {
    LoggedNow(s) && !(s.bodies != [] && s.bodies[0].Persisting?) ==>
      && s.disk == Stored(s.log[|s.log| - 1].snapshot)
      && (s.bodies == [] ==> s.state == s.log[|s.log| - 1].snapshot)
  }

  lemma PersistedStateIsTheLastRecord(first: Snapshot, steps: seq<Step>)
    requires Possible(Fresh(first), steps)
    requires forall step <- steps :: Reliable(step)
    ensures FileIsCurrent(After(Fresh(first), steps))
  {
    AuditChain(Fresh(first), first, steps);
    AuditedIsCurrent(After(Fresh(first), steps), first);
  }

  lemma AuditedIsCurrent(s: System, first: Snapshot)
    requires Audited(s, first)
    ensures FileIsCurrent(s)
  {
  }

  // ---------------------------------------------------------------- every run is a run of the machine

  function EventsOf(entries: seq<Entry>): Run {
    seq(|entries|, i requires 0 <= i < |entries| => Happened(entries[i].event))
  }

  /** The live state is what the machine reaches on the recorded history, the history of this epoch is
      the processed events on top of what was saved, and the state file is what the machine reached on
      the saved history. Failing reads and writes are allowed. */
  predicate Historical(s: System) {
    && SingleWorker(s)
    && s.state == Exec(s.history)
    && (s.disk.Missing? || (s.disk.Stored? && s.disk.state == Exec(s.savedHistory)))
    && (!s.restored || (s.bodies != [] && s.bodies[0].Restoring?) ==> s.history == [] && s.processed == [])
    && EndsWith(s.history, s.processed)
  }

  lemma ExecSnoc(run: Run, last: Happening)
    ensures Exec(run + [last]) ==
            match last case Happened(e) => Next(Exec(run), e).state case Crash => NormalizeRestored(Exec(run))
  {
    assert (run + [last])[..|run|] == run;
  }

  /** The history ends with the processed events, and what comes before them is empty or a crash. */
  predicate EndsWith(history: Run, processed: seq<Entry>) {
    && |processed| <= |history|
    && history[|history| - |processed|..] == EventsOf(processed)
    && (|processed| < |history| ==> history[|history| - |processed| - 1] == Crash)
  }

  lemma EndsWithSnoc(history: Run, processed: seq<Entry>, entry: Entry)
    requires EndsWith(history, processed)
    ensures EndsWith(history + [Happened(entry.event)], processed + [entry])
  {
    var cut := |history| - |processed|;
    var happening := Happened(entry.event);
    assert (history + [happening])[cut..] == history[cut..] + [happening];
    assert EventsOf(processed + [entry]) == EventsOf(processed) + [happening];
  }

  lemma HistoricalTaken(s: System, t: System, entry: Entry)
    requires s.restored && !(s.bodies != [] && s.bodies[0].Restoring?)
    requires t.restored && !(t.bodies != [] && t.bodies[0].Restoring?)
    requires Historical(s) && SingleWorker(t)
    requires t.history == s.history + [Happened(entry.event)]
    requires t.processed == s.processed + [entry]
    requires t.state == Next(s.state, entry.event).state
    requires t.disk == s.disk && t.savedHistory == s.savedHistory
    ensures Historical(t)
  {
    ExecSnoc(s.history, Happened(entry.event));
    EndsWithSnoc(s.history, s.processed, entry);
  }

  lemma HistoricalLoop(s: System, i: nat)
    requires Historical(s) && Enabled(s, Loop(i))
    ensures Historical(DoLoop(s, i))
  {
    SingleWorkerStep(s, Loop(i));
    if s.queue != [] {
      HistoricalTaken(s, DoLoop(s, i), s.queue[0]);
    }
  }

  lemma HistoricalRestore(s: System, i: nat, readable: bool)
    requires Historical(s) && Enabled(s, Restore(i, readable))
    ensures Historical(DoRestore(s, i, readable))
  {
    SingleWorkerStep(s, Restore(i, readable));
    ExecSnoc(s.savedHistory, Crash);
  }

  /** The fields that the history speaks about. */
  predicate SameHistory(s: System, t: System) {
    && s.state == t.state && s.disk == t.disk
    && s.history == t.history && s.savedHistory == t.savedHistory && s.processed == t.processed
  }

  lemma HistoricalGoesOn(s: System, t: System)
    requires Historical(s) && SingleWorker(t) && SameHistory(s, t)
    requires s.restored && s.bodies != [] && !s.bodies[0].Restoring?
    requires t.restored && (t.bodies == [] || !t.bodies[0].Restoring?)
    ensures Historical(t)
  {
  }

  lemma HistoricalArrive(s: System, e: Event)
    requires Historical(s) && External(e)
    ensures Historical(DoArrive(s, e))
  {
    SingleWorkerStep(s, Arrive(e));
    var t := DoArrive(s, e);
    assert SameHistory(s, t);
    if s.bodies == [] {
      assert t.bodies == [if s.restored then AtLoop else Restoring];
    } else {
      assert t.bodies == s.bodies;
    }
  }

  lemma HistoricalPerform(s: System, i: nat, answer: Answer)
    requires Historical(s) && Enabled(s, Perform(i, answer))
    ensures Historical(DoPerform(s, i, answer))
  {
    SingleWorkerStep(s, Perform(i, answer));
    PerformShape(s, i, answer);
    HistoricalGoesOn(s, DoPerform(s, i, answer));
  }

  lemma HistoricalAppend(s: System, i: nat, written: bool)
    requires Historical(s) && Enabled(s, Append(i, written))
    ensures Historical(DoAppend(s, i, written))
  {
    SingleWorkerStep(s, Append(i, written));
    LeaveShape(s, i);
    HistoricalGoesOn(s, DoAppend(s, i, written));
  }

  lemma HistoricalPersist(s: System, i: nat, written: bool)
    requires Historical(s) && Enabled(s, Persist(i, written))
    ensures Historical(DoPersist(s, i, written))
  {
    SingleWorkerStep(s, Persist(i, written));
    LeaveShape(s, i);
    var t := DoPersist(s, i, written);
    if !written {
      HistoricalGoesOn(s, t);
    }
  }

  lemma HistoricalStep(s: System, step: Step)
    requires Historical(s) && Enabled(s, step)
    ensures Historical(Apply(s, step))
  {
    match step
    case Loop(i) => HistoricalLoop(s, i);
    case Restore(i, readable) => HistoricalRestore(s, i, readable);
    case Arrive(e) => HistoricalArrive(s, e);
    case Perform(i, answer) => HistoricalPerform(s, i, answer);
    case Append(i, written) => HistoricalAppend(s, i, written);
    case Persist(i, written) => HistoricalPersist(s, i, written);
    case CrashNow =>
  }

  lemma {:induction false} RunsRefineTheMachine(s: System, steps: seq<Step>)
    requires Historical(s) && Possible(s, steps)
    ensures Historical(After(s, steps))
    decreases steps
  {
    if steps != [] {
      HistoricalStep(s, steps[0]);
      RunsRefineTheMachine(Apply(s, steps[0]), steps[1..]);
    }
  }

  /** The stall count of a session is exact on its history, that is on what was saved and the events of
      this epoch. What a crash drops from the history is the subject of the module DrainLoss. */
  lemma SessionStallCountIsExact(steps: seq<Step>)
    requires Possible(Fresh(Missing), steps)
    ensures var s := After(Fresh(Missing), steps);
            && s.state.consecutiveNoProgressCount == Stalls(s.history) <= ESCALATION_LIMIT
            && StallContinuations(s.history) <= 2
  {
    RunsRefineTheMachine(Fresh(Missing), steps);
    StallCountIsExact(After(Fresh(Missing), steps).history);
    StalledContinuationsAreBounded(After(Fresh(Missing), steps).history);
  }

  // ---------------------------------------------------------------- no second classification

  predicate Quiet(f: Effect) {
    f.WriteDecision? || f.ShowToast?
  }

  /** The effects that the body has still to end put nothing in front of the queue. */
  predicate OnlyQuiet(b: Body)
    requires b.Performing?
  {
    forall k :: |b.outcomes| <= k < |b.result.effects| ==> Quiet(b.result.effects[k])
  }

  /** A loaded context is handled next, in the state it was read in. */
  ghost predicate ContextIsCurrent(s: System) {
    && SingleWorker(s)
    && (forall k :: 0 <= k < |s.queue| && s.queue[k].event.ContextLoaded? ==>
                      k == 0 && ReadIn(s.queue[0].event.turn, s.state))
    && (forall b <- s.bodies :: b.Restoring? && s.queue != [] ==> !s.queue[0].event.ContextLoaded?)
    && (forall b <- s.bodies :: b.Performing? ==>
                                  && (exists p, e :: b.result == Next(p, e))
                                  && (s.queue != [] && s.queue[0].event.ContextLoaded? ==> OnlyQuiet(b)))
  }

  lemma LoadContextComesFirst(s: State, e: Event, k: nat)
    requires k < |Next(s, e).effects| && Next(s, e).effects[k].LoadContext?
    ensures k == 0 && Next(s, e).effects == [LoadContext, WriteDecision(StatusBusyNoted)]
  {
    match e case _ =>
  }

  /** The body goes on and, unless the ended effect was quiet, may put one event in front. */
  lemma ContextIsCurrentFed(s: System, t: System, ok: bool, e: Option<Event>)
    requires ContextIsCurrent(s) && SingleWorker(t) && t.state == s.state
    requires s.bodies != [] && s.bodies[0].Performing?
    requires t.bodies == [Advanced(s.bodies[0], ok, t.context)]
    requires t.queue == (if e.Some? then [Entry(e.value, FollowUp)] else []) + s.queue
    requires var b := s.bodies[0];
             && |b.outcomes| < |b.result.effects|
             && (Quiet(b.result.effects[|b.outcomes|]) ==> e.None?)
             && (e.Some? && e.value.ContextLoaded? ==>
                   b.result.effects[|b.outcomes|].LoadContext? && ReadIn(e.value.turn, s.state))
    ensures ContextIsCurrent(t)
  {
    var b := s.bodies[0];
    assert b in s.bodies;
    if e.Some? {
      assert s.queue != [] ==> !s.queue[0].event.ContextLoaded?;
      forall k | 0 < k < |t.queue| ensures !t.queue[k].event.ContextLoaded? {
        assert t.queue[k] == s.queue[k - 1];
      }
      if e.value.ContextLoaded? {
        var p, q :| b.result == Next(p, q);
        LoadContextComesFirst(p, q, |b.outcomes|);
      }
    } else {
      assert t.queue == s.queue;
    }
  }

  lemma ContextIsCurrentPerform(s: System, i: nat, answer: Answer)
    requires ContextIsCurrent(s) && Enabled(s, Perform(i, answer))
    ensures ContextIsCurrent(DoPerform(s, i, answer))
  {
    SingleWorkerStep(s, Perform(i, answer));
    PerformShape(s, i, answer);
    var b := s.bodies[i];
    ContextIsCurrentFed(
      s, DoPerform(s, i, answer), answer != Fails,
      FollowUpOf(b.result.effects[|b.outcomes|], answer, b.captured));
  }

  lemma ContextIsCurrentLoop(s: System, i: nat)
    requires ContextIsCurrent(s) && Enabled(s, Loop(i))
    ensures ContextIsCurrent(DoLoop(s, i))
  {
    SingleWorkerStep(s, Loop(i));
    var t := DoLoop(s, i);
    if s.queue != [] {
      assert t.queue == s.queue[1..];
      forall k | 0 <= k < |t.queue| ensures !t.queue[k].event.ContextLoaded? {
        assert t.queue[k] == s.queue[k + 1];
      }
      assert t.bodies == [t.bodies[0]];
      assert t.bodies[0].result == Next(s.state, s.queue[0].event);
    }
  }

  lemma ContextIsCurrentArrive(s: System, e: Event)
    requires ContextIsCurrent(s) && External(e)
    ensures ContextIsCurrent(DoArrive(s, e))
  {
    SingleWorkerStep(s, Arrive(e));
    var t := DoArrive(s, e);
    assert t.queue == s.queue + [Entry(e, Outside(s.arrivals))];
    if s.bodies != [] {
      assert t.bodies == s.bodies;
    } else {
      assert t.bodies == [if s.restored then AtLoop else Restoring];
    }
  }

  /** The queue stays, and the body neither performs nor restores. */
  lemma ContextIsCurrentStays(s: System, t: System)
    requires ContextIsCurrent(s) && SingleWorker(t) && t.queue == s.queue
    requires t.state == s.state || (s.bodies != [] && s.bodies[0].Restoring?)
    requires t.bodies == [] || t.bodies == [AtLoop] || t.bodies == [Persisting]
    ensures ContextIsCurrent(t)
  {
    if s.bodies != [] {
      assert s.bodies[0] in s.bodies;
    }
  }

  lemma FilesShape(s: System, i: nat, done: bool)
    requires SingleWorker(s) && i < |s.bodies|
    ensures forall t ::
              (Enabled(s, Restore(i, done)) && t == DoRestore(s, i, done))
              || (Enabled(s, Append(i, done)) && t == DoAppend(s, i, done))
              || (Enabled(s, Persist(i, done)) && t == DoPersist(s, i, done)) ==>
                && t.queue == s.queue && (t.state == s.state || s.bodies[0].Restoring?)
                && (t.bodies == [] || t.bodies == [AtLoop] || t.bodies == [Persisting])
  {
    LeaveShape(s, i);
  }

  lemma ContextIsCurrentStep(s: System, step: Step)
    requires ContextIsCurrent(s) && Enabled(s, step)
    ensures ContextIsCurrent(Apply(s, step))
  {
    SingleWorkerStep(s, step);
    match step
    case Loop(i) => ContextIsCurrentLoop(s, i);
    case Perform(i, answer) => ContextIsCurrentPerform(s, i, answer);
    case Arrive(e) => ContextIsCurrentArrive(s, e);
    case CrashNow =>
    case Restore(i, readable) =>
      FilesShape(s, i, readable);
      ContextIsCurrentStays(s, DoRestore(s, i, readable));
    case Append(i, written) =>
      FilesShape(s, i, written);
      ContextIsCurrentStays(s, DoAppend(s, i, written));
    case Persist(i, written) =>
      FilesShape(s, i, written);
      ContextIsCurrentStays(s, DoPersist(s, i, written));
  }

  lemma {:induction false} ContextIsCurrentAlways(s: System, steps: seq<Step>)
    requires ContextIsCurrent(s) && Possible(s, steps)
    ensures ContextIsCurrent(After(s, steps))
    decreases steps
  {
    if steps != [] {
      ContextIsCurrentStep(s, steps[0]);
      ContextIsCurrentAlways(Apply(s, steps[0]), steps[1..]);
    }
  }

  /** A message whose moderation ended is not classified a second time on a later idle event: whenever a
      loaded context is handled, in any interleaving, a classification starts only for a message other
      than the last one that reached a terminal verdict. */
  lemma NoSecondClassification(disk: Snapshot, steps: seq<Step>, i: nat)
    requires Possible(Fresh(disk), steps)
    requires var s := After(Fresh(disk), steps);
             Enabled(s, Loop(i)) && s.queue != [] && s.queue[0].event.ContextLoaded?
    ensures var s := After(Fresh(disk), steps);
            var turn := s.queue[0].event.turn;
            Classify in Next(s.state, s.queue[0].event).effects ==>
              turn.assistantID.None? || turn.assistantID != s.state.lastTerminalAssistantID
  {
    ContextIsCurrentAlways(Fresh(disk), steps);
    var s := After(Fresh(disk), steps);
    ClassificationStarts(s.state, s.queue[0].event);
  }

  /** Whatever arrives in between, a loaded context is true of the state that handles it: it is a duplicate
      exactly of the message that ended last, a new cycle exactly for another user message than the known
      one, and a discussion of a blocker only while one stands. */
  lemma HandledContextIsTrue(disk: Snapshot, steps: seq<Step>, i: nat)
    requires Possible(Fresh(disk), steps)
    requires var s := After(Fresh(disk), steps);
             Enabled(s, Loop(i)) && s.queue != [] && s.queue[0].event.ContextLoaded?
    ensures var s := After(Fresh(disk), steps);
            var turn := s.queue[0].event.turn;
            && (turn.duplicate <==> turn.assistantID.Some? && turn.assistantID == s.state.lastTerminalAssistantID)
            && (turn.newCycle <==> turn.userMessageID.Some? && turn.userMessageID != s.state.realUserCycleID)
            && (turn.blockerDiscussion ==> s.state.blocker.Some?)
  {
    ContextIsCurrentAlways(Fresh(disk), steps);
  }
}
