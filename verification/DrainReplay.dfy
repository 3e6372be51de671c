/** What the decision log tells about a session: replaying its saved records through the machine gives the
    live state (workspace/moderator/src/adapter.ts, workspace/moderator/src/audit.ts). */
module DrainReplay {
  import opened Base
  import opened Text
  import opened Fsm
  import opened FsmRuns
  import opened Drain
  import opened DrainAudit
  import opened DrainLoss

  // ---------------------------------------------------------------- the run that the log records

  /** The epoch of the last record whose state was written. */
  function SavedEpoch(log: seq<Record>): Option<nat> {
    if log == [] then None
    else if log[|log| - 1].saved then Some(log[|log| - 1].epoch)
    else SavedEpoch(log[..|log| - 1])
  }

  /** The events of the saved records, with a restore between records of different epochs. */
  function SavedRun(log: seq<Record>): Run
    decreases |log|, 0
  {
    if log == [] then []
    else
      var init, r := log[..|log| - 1], log[|log| - 1];
      if r.saved then Opened(init, r.epoch) + [Happened(r.event)] else SavedRun(init)
  }

  /** The same, as an epoch finds it: after a restore if anything was saved in an epoch before. */
  function Opened(log: seq<Record>, epoch: nat): Run
    decreases |log|, 1
  {
    if SavedEpoch(log).Some? && SavedEpoch(log) != Some(epoch) then SavedRun(log) + [Crash] else SavedRun(log)
  }

  /** The saved records and then the event in progress. */
  function Replayed(s: System): Run {
    Opened(s.log, s.epoch) + if InProgress(s).Some? then [Happened(InProgress(s).value.1)] else []
  }

  lemma {:induction false} NothingSaved(log: seq<Record>)
    ensures LastSaved(log, Missing).Missing? <==> SavedEpoch(log).None?
    ensures SavedEpoch(log).None? ==> SavedRun(log) == []
  {
    if log != [] && !log[|log| - 1].saved {
      NothingSaved(log[..|log| - 1]);
    }
  }

  lemma UnsavedRecord(log: seq<Record>, r: Record, epoch: nat)
    requires !r.saved
    ensures SavedEpoch(log + [r]) == SavedEpoch(log) && SavedRun(log + [r]) == SavedRun(log)
    ensures Opened(log + [r], epoch) == Opened(log, epoch)
  {
    assert (log + [r])[..|log|] == log;
  }

  lemma RecordIsSaved(init: seq<Record>, r: Record)
    requires !r.saved
    ensures var log, marked := init + [r], MarkSaved(init + [r]);
            && SavedEpoch(marked) == Some(r.epoch)
            && SavedRun(marked) == Opened(log, r.epoch) + [Happened(r.event)]
  {
    UnsavedRecord(init, r, r.epoch);
    var marked := MarkSaved(init + [r]);
    assert marked == init + [r.(saved := true)];
    assert marked[..|init|] == init;
  }

  /** The histories are the runs of the log. */
  predicate Tied(s: System) {
    && s.savedHistory == SavedRun(s.log)
    && (SavedEpoch(s.log).Some? ==> SavedEpoch(s.log).value <= s.epoch)
    && (!Live(s) ==> SavedEpoch(s.log) != Some(s.epoch))
    && (Live(s) ==> s.history == Replayed(s))
  }

  predicate Recorded(s: System) {
    Audited(s, Missing) && Historical(s) && Tied(s)
  }

  lemma AppendShape(s: System, i: nat)
    requires SingleWorker(s) && Enabled(s, Append(i, true))
    ensures var b, t := s.bodies[i], DoAppend(s, i, true);
            var r := Record(s.epoch, b.entry.event, b.previous, b.result.state, b.outcomes, false);
            && t.log == s.log + [r] && t.epoch == s.epoch
            && t.savedHistory == s.savedHistory && t.history == s.history
            && Live(s) && Live(t) && InProgress(t) == InProgress(s) == Some((b.previous, b.entry.event))
  {
  }

  lemma TiedAppend(s: System, i: nat)
    requires SingleWorker(s) && Tied(s) && Enabled(s, Append(i, true))
    ensures Tied(DoAppend(s, i, true))
  {
    AppendShape(s, i);
    var b := s.bodies[i];
    UnsavedRecord(
      s.log, Record(s.epoch, b.entry.event, b.previous, b.result.state, b.outcomes, false), s.epoch);
  }

  lemma PersistShape(s: System, i: nat)
    requires SingleWorker(s) && Enabled(s, Persist(i, true)) && LoggedNow(s)
    ensures var t, last := DoPersist(s, i, true), s.log[|s.log| - 1];
            && t.log == MarkSaved(s.log) && t.savedHistory == s.history && t.history == s.history
            && t.epoch == s.epoch && Live(s) && Live(t) && InProgress(t).None?
            && InProgress(s) == Some((last.previous, last.event))
  {
  }

  lemma TiedPersist(s: System, i: nat)
    requires SingleWorker(s) && Tied(s) && Enabled(s, Persist(i, true))
    requires LoggedNow(s) && !s.log[|s.log| - 1].saved
    ensures Tied(DoPersist(s, i, true))
  {
    PersistShape(s, i);
    var init, r := s.log[..|s.log| - 1], s.log[|s.log| - 1];
    assert s.log == init + [r];
    RecordIsSaved(init, r);
    var written := SavedRun(DoPersist(s, i, true).log);
    assert written + [] == written;
  }

  lemma TiedRestore(s: System, i: nat)
    requires SingleWorker(s) && Tied(s) && Enabled(s, Restore(i, true))
    requires s.history == [] && s.disk == LastSaved(s.log, Missing)
    requires s.disk.Missing? || (s.disk.Stored? && IsValidState(s.disk.state))
    ensures Tied(DoRestore(s, i, true))
  {
    NothingSaved(s.log);
    var t := DoRestore(s, i, true);
    assert Live(t) && InProgress(t).None? && t.log == s.log && t.epoch == s.epoch;
    var before := Opened(s.log, s.epoch);
    assert before + [] == before;
  }

  lemma LoopTakes(s: System, i: nat)
    requires SingleWorker(s) && Enabled(s, Loop(i))
    ensures var t := DoLoop(s, i);
            && t.log == s.log && t.epoch == s.epoch && t.savedHistory == s.savedHistory
            && Live(s) && Live(t) && InProgress(s).None?
            && (s.queue == [] ==> InProgress(t).None? && t.history == s.history)
            && (s.queue != [] ==>
                  && InProgress(t) == Some((s.state, s.queue[0].event))
                  && t.history == s.history + [Happened(s.queue[0].event)])
  {
    LeaveShape(s, i);
  }

  lemma TiedLoop(s: System, i: nat)
    requires SingleWorker(s) && Tied(s) && Enabled(s, Loop(i))
    ensures Tied(DoLoop(s, i))
  {
    LoopTakes(s, i);
    var before := Opened(s.log, s.epoch);
    assert before + [] == before;
  }

  lemma TiedCrash(s: System)
    requires Tied(s)
    ensures Tied(DoCrash(s))
  {
  }

  /** Steps that touch neither the files nor the history. */
  lemma TiedGoesOn(s: System, t: System)
    requires Tied(s)
    requires t.log == s.log && t.epoch == s.epoch && t.savedHistory == s.savedHistory && t.history == s.history
    requires Live(t) == Live(s) && InProgress(t) == InProgress(s)
    ensures Tied(t)
  {
  }

  lemma ArriveKeeps(s: System, e: Event)
    requires SingleWorker(s)
    ensures var t := DoArrive(s, e);
            && t.log == s.log && t.epoch == s.epoch && t.savedHistory == s.savedHistory && t.history == s.history
            && Live(t) == Live(s) && InProgress(t) == InProgress(s)
  {
    if s.bodies != [] {
      assert DoArrive(s, e).bodies == s.bodies;
    }
  }

  lemma PerformKeeps(s: System, i: nat, answer: Answer)
    requires SingleWorker(s) && Enabled(s, Perform(i, answer))
    ensures var t := DoPerform(s, i, answer);
            && t.log == s.log && t.epoch == s.epoch && t.savedHistory == s.savedHistory && t.history == s.history
            && Live(t) == Live(s) && InProgress(t) == InProgress(s)
  {
    PerformShape(s, i, answer);
  }

  /** What the audit says about a body that restores or writes the state. */
  lemma FilesReady(s: System)
    requires Recorded(s) && s.bodies != []
    ensures s.disk == LastSaved(s.log, Missing) && (s.disk.Missing? || (s.disk.Stored? && IsValidState(s.disk.state)))
    ensures s.bodies[0].Restoring? ==> s.history == []
    ensures s.bodies[0].Persisting? ==> LoggedNow(s) && !s.log[|s.log| - 1].saved
  {
    StallCountIsExact(s.savedHistory);
  }

  lemma TiedFiles(s: System, i: nat)
    requires Recorded(s)
    ensures Enabled(s, Restore(i, true)) ==> Tied(DoRestore(s, i, true))
    ensures Enabled(s, Append(i, true)) ==> Tied(DoAppend(s, i, true))
    ensures Enabled(s, Persist(i, true)) ==> Tied(DoPersist(s, i, true))
  {
    if i < |s.bodies| {
      FilesReady(s);
      if s.bodies[i].Restoring? {
        TiedRestore(s, i);
      } else if s.bodies[i].Appending? {
        TiedAppend(s, i);
      } else if s.bodies[i].Persisting? {
        TiedPersist(s, i);
      }
    }
  }

  lemma TiedArrive(s: System, e: Event)
    requires SingleWorker(s) && Tied(s)
    ensures Tied(DoArrive(s, e))
  {
    ArriveKeeps(s, e);
    TiedGoesOn(s, DoArrive(s, e));
  }

  lemma TiedPerform(s: System, i: nat, answer: Answer)
    requires SingleWorker(s) && Tied(s) && Enabled(s, Perform(i, answer))
    ensures Tied(DoPerform(s, i, answer))
  {
    PerformKeeps(s, i, answer);
    TiedGoesOn(s, DoPerform(s, i, answer));
  }

  lemma TiedStep(s: System, step: Step)
    requires Recorded(s) && Enabled(s, step) && Reliable(step)
    ensures Tied(Apply(s, step))
  {
    match step
    case Append(i, _) => TiedFiles(s, i);
    case Persist(i, _) => TiedFiles(s, i);
    case Restore(i, _) => TiedFiles(s, i);
    case Loop(i) => TiedLoop(s, i);
    case CrashNow => TiedCrash(s);
    case Arrive(e) => TiedArrive(s, e);
    case Perform(i, answer) => TiedPerform(s, i, answer);
  }

  lemma RecordedStep(s: System, step: Step)
    requires Recorded(s) && Enabled(s, step) && Reliable(step)
    ensures Recorded(Apply(s, step))
  {
    AuditedStep(s, Missing, step);
    HistoricalStep(s, step);
    TiedStep(s, step);
  }

  lemma {:induction false} RecordedAlways(s: System, steps: seq<Step>)
    requires Recorded(s) && Possible(s, steps) && forall step <- steps :: Reliable(step)
    ensures Recorded(After(s, steps))
    decreases steps
  {
    if steps != [] {
      RecordedStep(s, steps[0]);
      RecordedAlways(Apply(s, steps[0]), steps[1..]);
    }
  }

  /** On working files the log explains the session: its live state is what the machine makes of the events
      of the saved records, with a restore between epochs, and of the event in progress. */
  lemma LogExplainsTheState(steps: seq<Step>)
    requires Possible(Fresh(Missing), steps) && forall step <- steps :: Reliable(step)
    ensures var s := After(Fresh(Missing), steps);
            && s.history == (if Live(s) then Replayed(s) else [])
            && (Live(s) ==> s.state == Exec(Replayed(s)))
            && (s.disk.Stored? ==> s.disk.state == Exec(SavedRun(s.log)))
  {
    RecordedAlways(Fresh(Missing), steps);
  }

  // ---------------------------------------------------------------- the events that survive

  /** What is taken now. */
  function TakenNow(s: System, step: Step): Run
    requires Enabled(s, step)
  {
    match step
    case Loop(_) => if s.queue == [] then [] else [Happened(s.queue[0].event)]
    case CrashNow => [Crash]
    case _ => []
  }

  /** Everything that was taken, in every epoch, with the crashes between. */
  function TakenRun(s: System, steps: seq<Step>): Run
    requires Possible(s, steps)
    decreases steps
  {
    if steps == [] then [] else TakenNow(s, steps[0]) + TakenRun(Apply(s, steps[0]), steps[1..])
  }

  /** The events of a run, without its crashes. */
  function EventsIn(run: Run): seq<Event> {
    if run == [] then []
    else EventsIn(run[..|run| - 1]) + if run[|run| - 1].Happened? then [run[|run| - 1].event] else []
  }

  /** How many crashes lost an event that was taken and not written. */
  function Losses(s: System, steps: seq<Step>): nat
    requires Possible(s, steps)
    decreases steps
  {
    if steps == [] then 0
    else (if steps[0].CrashNow? && InProgress(s).Some? then 1 else 0) + Losses(Apply(s, steps[0]), steps[1..])
  }

  lemma {:induction false} SavedEventsGrow(a: Run, b: Run)
    ensures EventsIn(a + b) == EventsIn(a) + EventsIn(b)
  {
    if b == [] {
      assert a + b == a;
    } else {
      var init, last := b[..|b| - 1], b[|b| - 1];
      SavedEventsGrow(a, init);
      assert (a + b)[..|a + b| - 1] == a + init;
      ConcatAssociates(EventsIn(a), EventsIn(init), if last.Happened? then [last.event] else []);
    }
  }

  lemma EventsOfOne(h: Happening)
    ensures EventsIn([h]) == if h.Happened? then [h.event] else []
  {
    assert [h][..0] == [];
  }

  /** What the log and the body still know of the events that were taken. */
  function Surviving(s: System): seq<Event> {
    EventsIn(SavedRun(s.log)) + if InProgress(s).Some? then [InProgress(s).value.1] else []
  }

  lemma SurvivingOpened(log: seq<Record>, epoch: nat)
    ensures EventsIn(Opened(log, epoch)) == EventsIn(SavedRun(log))
  {
    SavedEventsGrow(SavedRun(log), [Crash]);
    EventsOfOne(Crash);
    assert EventsIn(SavedRun(log)) + [] == EventsIn(SavedRun(log));
  }

  lemma SurvivingAppend(s: System, i: nat)
    requires SingleWorker(s) && Enabled(s, Append(i, true))
    ensures Surviving(DoAppend(s, i, true)) == Surviving(s)
  {
    AppendShape(s, i);
    var b := s.bodies[i];
    UnsavedRecord(
      s.log, Record(s.epoch, b.entry.event, b.previous, b.result.state, b.outcomes, false), s.epoch);
  }

  lemma SurvivingRestore(s: System, i: nat)
    requires SingleWorker(s) && Enabled(s, Restore(i, true))
    ensures Surviving(DoRestore(s, i, true)) == Surviving(s)
  {
    LeaveShape(s, i);
    var t := DoRestore(s, i, true);
    assert InProgress(s).None? && InProgress(t).None? && t.log == s.log;
  }

  lemma SurvivingLoop(s: System, i: nat)
    requires SingleWorker(s) && Enabled(s, Loop(i))
    ensures Surviving(DoLoop(s, i)) == Surviving(s) + EventsIn(TakenNow(s, Loop(i)))
  {
    LoopTakes(s, i);
    if s.queue != [] {
      EventsOfOne(Happened(s.queue[0].event));
    }
    var saved := EventsIn(SavedRun(s.log));
    assert saved + [] == saved;
  }

  lemma SurvivingCrash(s: System)
    ensures Surviving(s)
            == Surviving(DoCrash(s)) + if InProgress(s).Some? then [InProgress(s).value.1] else []
  {
    var saved := EventsIn(SavedRun(s.log));
    assert saved + [] == saved;
  }

  lemma SurvivingFiles(s: System, i: nat)
    requires Recorded(s)
    ensures Enabled(s, Restore(i, true)) ==> Surviving(DoRestore(s, i, true)) == Surviving(s)
    ensures Enabled(s, Append(i, true)) ==> Surviving(DoAppend(s, i, true)) == Surviving(s)
    ensures Enabled(s, Persist(i, true)) ==> Surviving(DoPersist(s, i, true)) == Surviving(s)
  {
    if i < |s.bodies| {
      FilesReady(s);
      if s.bodies[i].Restoring? {
        SurvivingRestore(s, i);
      } else if s.bodies[i].Appending? {
        SurvivingAppend(s, i);
      } else if s.bodies[i].Persisting? {
        SurvivingPersist(s, i);
      }
    }
  }

  /** One step takes its event into what survives, or is a crash that loses the event in progress. */
  lemma SurvivingStep(s: System, step: Step)
    requires Recorded(s) && Enabled(s, step) && Reliable(step)
    ensures if step.CrashNow? then
              Surviving(s)
              == Surviving(Apply(s, step)) + if InProgress(s).Some? then [InProgress(s).value.1] else []
            else Surviving(Apply(s, step)) == Surviving(s) + EventsIn(TakenNow(s, step))
  {
    assert Surviving(s) + [] == Surviving(s);
    match step
    case Append(i, _) => SurvivingFiles(s, i);
    case Persist(i, _) => SurvivingFiles(s, i);
    case Restore(i, _) => SurvivingFiles(s, i);
    case Loop(i) => SurvivingLoop(s, i);
    case CrashNow => SurvivingCrash(s);
    case Arrive(e) => ArriveKeeps(s, e);
    case Perform(i, answer) => PerformKeeps(s, i, answer);
  }

  lemma SurvivingPersist(s: System, i: nat)
    requires SingleWorker(s) && Enabled(s, Persist(i, true)) && LoggedNow(s) && !s.log[|s.log| - 1].saved
    ensures Surviving(DoPersist(s, i, true)) == Surviving(s)
  {
    PersistShape(s, i);
    var init, r := s.log[..|s.log| - 1], s.log[|s.log| - 1];
    assert s.log == init + [r];
    RecordIsSaved(init, r);
    SurvivingOpened(s.log, r.epoch);
    SavedEventsGrow(Opened(s.log, r.epoch), [Happened(r.event)]);
    EventsOfOne(Happened(r.event));
    var all := EventsIn(SavedRun(DoPersist(s, i, true).log));
    assert all + [] == all;
  }

  /** In a run with working files, with `taken` before it and `lost` events missing from what survives. */
  lemma {:induction false} SurvivorsAlways(s: System, steps: seq<Step>, taken: seq<Event>, lost: nat)
    requires Recorded(s) && Possible(s, steps) && forall step <- steps :: Reliable(step)
    requires |taken| == |Surviving(s)| + lost && (lost == 0 ==> taken == Surviving(s))
    ensures var all, missing := taken + EventsIn(TakenRun(s, steps)), lost + Losses(s, steps);
            && |all| == |Surviving(After(s, steps))| + missing
            && (missing == 0 ==> all == Surviving(After(s, steps)))
    decreases steps
  {
    if steps == [] {
      assert taken + [] == taken;
    } else {
      var step, t := steps[0], Apply(s, steps[0]);
      RecordedStep(s, step);
      SurvivingStep(s, step);
      EventsOfOne(Crash);
      SavedEventsGrow(TakenNow(s, step), TakenRun(t, steps[1..]));
      var now := EventsIn(TakenNow(s, step));
      ConcatAssociates(taken, now, EventsIn(TakenRun(t, steps[1..])));
      SurvivorsAlways(t, steps[1..], taken + now,
                      lost + if step.CrashNow? && InProgress(s).Some? then 1 else 0);
    }
  }

  /** On working files the saved records and the event in progress are all the events that were ever taken,
      in order, if and only if no crash came between taking an event and writing the state after it. */
  lemma NothingIsLostExactly(steps: seq<Step>)
    requires Possible(Fresh(Missing), steps) && forall step <- steps :: Reliable(step)
    ensures Surviving(After(Fresh(Missing), steps)) == EventsIn(TakenRun(Fresh(Missing), steps))
            <==> Losses(Fresh(Missing), steps) == 0
  {
    SurvivorsAlways(Fresh(Missing), steps, [], 0);
    var all := EventsIn(TakenRun(Fresh(Missing), steps));
    assert [] + all == all;
  }

  // ---------------------------------------------------------------- runs that lose nothing

  /** With no event in progress the state file restores to the live state, without work in progress. */
  lemma IdleFile(s: System)
    requires Audited(s, Missing) && Live(s) && InProgress(s).None?
    ensures Resumed(s.disk) == NormalizeRestored(s.state)
  {
    RestoreForgetsOnlyProgress(s.state);
    if s.disk.Stored? {
      RestoreForgetsOnlyProgress(s.disk.state);
    }
  }

  lemma ExecAppends(s: System, step: Step, run: Run)
    requires SingleWorker(s) && Enabled(s, step) && KnownState(s) == Exec(run)
    requires step.Loop? && s.queue != []
    ensures KnownState(Apply(s, step)) == Exec(run + TakenNow(s, step))
  {
    LoopTakes(s, step.body);
    ExecSnoc(run, Happened(s.queue[0].event));
  }

  lemma ExecCrashes(s: System, run: Run)
    requires Audited(s, Missing) && InProgress(s).None? && KnownState(s) == Exec(run)
    ensures KnownState(DoCrash(s)) == Exec(run + [Crash])
  {
    ExecSnoc(run, Crash);
    if Live(s) {
      IdleFile(s);
    } else if s.disk.Stored? {
      RestoreForgetsOnlyProgress(s.disk.state);
    }
  }

  lemma ExecStays(s: System, step: Step)
    requires Audited(s, Missing) && Enabled(s, step) && Reliable(step) && !step.CrashNow?
    requires step.Loop? ==> s.queue == []
    ensures KnownState(Apply(s, step)) == KnownState(s)
  {
    if step.Loop? {
      LeaveShape(s, step.body);
    } else {
      KnownStateStays(s, Missing, step);
    }
  }

  lemma {:induction false} LosslessAlways(s: System, steps: seq<Step>, run: Run)
    requires Recorded(s) && Possible(s, steps) && forall step <- steps :: Reliable(step)
    requires KnownState(s) == Exec(run) && Losses(s, steps) == 0
    ensures KnownState(After(s, steps)) == Exec(run + TakenRun(s, steps))
    decreases steps
  {
    if steps == [] {
      assert run + [] == run;
    } else {
      var step, t := steps[0], Apply(s, steps[0]);
      RecordedStep(s, step);
      if step.CrashNow? {
        ExecCrashes(s, run);
      } else if step.Loop? && s.queue != [] {
        ExecAppends(s, step, run);
      } else {
        ExecStays(s, step);
        assert run + [] == run;
      }
      LosslessAlways(t, steps[1..], run + TakenNow(s, step));
      ConcatAssociates(run, TakenNow(s, step), TakenRun(t, steps[1..]));
    }
  }

  /** A run that loses nothing is a run of the machine: the state is what all its events and crashes make
      it, and the stall count is theirs. */
  lemma LosslessRunsAreExact(steps: seq<Step>)
    requires Possible(Fresh(Missing), steps) && forall step <- steps :: Reliable(step)
    requires Losses(Fresh(Missing), steps) == 0
    ensures var s, run := After(Fresh(Missing), steps), TakenRun(Fresh(Missing), steps);
            KnownState(s) == Exec(run) && KnownCount(s) == Stalls(run)
  {
    LosslessAlways(Fresh(Missing), steps, []);
    var run := TakenRun(Fresh(Missing), steps);
    assert [] + run == run;
    StallCountIsExact(run);
  }
}
