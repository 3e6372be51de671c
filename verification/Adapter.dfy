/** The session object that the plugin hooks mutate (workspace/moderator/src/adapter.ts). Every method is
    the code that runs without suspension: from a hook or an await to the next await. */
module Adapter {
  import opened Base
  import opened Fsm
  import opened FsmRuns
  import opened Drain
  import opened DrainProgress

  /** What the outside world answers to the next suspension point. */
  datatype Reply = Reply(answer: Answer, fileOk: bool)

  class Session {
    var state: State
    var queue: seq<Entry>
    var draining: bool
    var restored: bool
    var bodies: seq<Body>
    var context: Option<TurnFact>
    var disk: Snapshot
    var log: seq<Record>
    var epoch: nat
    var firstArrival: nat
    var arrivals: nat
    ghost var processed: seq<Entry>
    ghost var history: Run
    ghost var savedHistory: Run

    ghost function View(): System
      reads this
    {
      System(state, queue, draining, restored, bodies, context, disk, log, epoch, firstArrival, arrivals,
             processed, history, savedHistory)
    }

    constructor (disk: Snapshot)
      ensures View() == Fresh(disk)
    {
      state, queue, draining, restored, bodies, context := INITIAL, [], false, false, [], None;
      this.disk, log, epoch, firstArrival, arrivals := disk, [], 0, 0, 0;
      processed, history, savedHistory := [], [], [];
    }

    /** The process died; the next one makes a fresh session object over the same files. */
    constructor AfterCrash(dead: Session)
      ensures View() == DoCrash(dead.View())
    {
      state, queue, draining, restored, bodies, context := INITIAL, [], false, false, [], None;
      disk, log, epoch := dead.disk, dead.log, dead.epoch + 1;
      firstArrival, arrivals := dead.arrivals, dead.arrivals;
      processed, history, savedHistory := [], [], dead.savedHistory;
    }

    /** The synchronous start of `drain`. */
    method StartDrain()
      modifies this
      ensures View() == Kick(old(View()))
    {
      if draining {
        return;
      }
      draining := true;
      if restored {
        bodies := bodies + [AtLoop];
      } else {
        restored := true;
        bodies := bodies + [Restoring];
      }
    }

    method Enqueue(e: Event, first: bool)
      modifies this
      ensures View() == if first then EnqueueFirst(old(View()), e) else EnqueueLast(old(View()), e)
    {
      if first {
        queue := [Entry(e, FollowUp)] + queue;
      } else {
        queue := queue + [Entry(e, Outside(arrivals))];
        arrivals := arrivals + 1;
      }
      StartDrain();
    }

    /** A hook or a replay request. */
    method OnOutside(e: Event)
      requires External(e)
      modifies this
      ensures View() == Apply(old(View()), Arrive(e))
    {
      if e.Replay? {
        context := Some(e.turn);
      }
      Enqueue(e, false);
    }

    /** The finally block of `drain`. */
    method FinishDrain(i: nat)
      requires i < |bodies|
      modifies this
      ensures View() == Leave(old(View()), i)
    {
      draining := false;
      bodies := bodies[..i] + bodies[i + 1..];
      if queue != [] {
        StartDrain();
      }
    }

    method OnRestored(i: nat, readable: bool)
      requires Enabled(View(), Restore(i, readable))
      modifies this
      ensures View() == Apply(old(View()), Restore(i, readable))
    {
      if !readable || disk.Malformed? {
        FinishDrain(i);
        return;
      }
      if disk.Stored? {
        if !IsValidState(disk.state) {
          FinishDrain(i);
          return;
        }
        state := NormalizeRestored(disk.state);
        history := savedHistory + [Crash];
      }
      bodies := bodies[i := AtLoop];
    }

    /** One turn of the while loop, up to its first await. */
    method OnLoop(i: nat)
      requires Enabled(View(), Loop(i))
      modifies this
      ensures View() == Apply(old(View()), Loop(i))
    {
      if queue == [] {
        FinishDrain(i);
        return;
      }
      var entry := queue[0];
      queue := queue[1..];
      processed := processed + [entry];
      var previous := state;
      var outcome := Transition(previous, entry.event);
      if outcome.Err? {
        FinishDrain(i);
        return;
      }
      state := outcome.value.state;
      history := history + [Happened(entry.event)];
      bodies := bodies[i := Performing(entry, previous, outcome.value, [], context)];
    }

    /** An effect ends; its follow-up goes in front of the queue. */
    method OnPerformed(i: nat, answer: Answer)
      requires Enabled(View(), Perform(i, answer))
      modifies this
      ensures View() == Apply(old(View()), Perform(i, answer))
    {
      var b := bodies[i];
      if answer.Loads? {
        context := Some(answer.turn);
      }
      var followup := FollowUpOf(b.result.effects[|b.outcomes|], answer, b.captured);
      if followup.Some? {
        Enqueue(followup.value, true);
      }
      bodies := bodies[i := Advanced(b, answer != Fails, context)];
    }

    method OnAppended(i: nat, written: bool)
      requires Enabled(View(), Append(i, written))
      modifies this
      ensures View() == Apply(old(View()), Append(i, written))
    {
      if !written {
        FinishDrain(i);
        return;
      }
      var b := bodies[i];
      log := log + [Record(epoch, b.entry.event, b.previous, b.result.state, b.outcomes, false)];
      bodies := bodies[i := Persisting];
    }

    method OnPersisted(i: nat, written: bool)
      requires Enabled(View(), Persist(i, written))
      modifies this
      ensures View() == Apply(old(View()), Persist(i, written))
    {
      if !written {
        FinishDrain(i);
        return;
      }
      disk := Stored(state);
      savedHistory := history;
      log := MarkSaved(log);
      bodies := bodies[i := AtLoop];
    }

    /** Whatever the running body waits for ends, one way or another. */
    method OneTurn(reply: Reply) returns (ghost step: Step)
      requires SingleWorker(View()) && EffectsLeft(View()) && bodies != []
      modifies this
      ensures Internal(step) && Enabled(old(View()), step)
      ensures View() == Apply(old(View()), step)
    {
      match bodies[0]
      case Restoring =>
        step := Restore(0, reply.fileOk);
        OnRestored(0, reply.fileOk);
      case AtLoop =>
        step := Loop(0);
        OnLoop(0);
      case Performing(_, _, result, outcomes, captured) =>
        assert bodies[0] in View().bodies;
        var f := result.effects[|outcomes|];
        var answer := if Fits(f, reply.answer, captured, state) then reply.answer
                      else if f.WriteDecision? || f.ShowToast? then Succeeds
                      else Fails;
        step := Perform(0, answer);
        OnPerformed(0, answer);
      case Appending(_, _, _, _) =>
        step := Append(0, reply.fileOk);
        OnAppended(0, reply.fileOk);
      case Persisting =>
        step := Persist(0, reply.fileOk);
        OnPersisted(0, reply.fileOk);
    }

    /** Drains the queue to the end while nothing arrives from outside. Whatever the world answers, the
        loop ends with an empty queue, and it took only steps of the drain. */
    method DrainAll(replies: nat -> Reply)
      requires SingleWorker(View()) && EffectsLeft(View())
      modifies this
      ensures queue == [] && bodies == [] && !draining
      ensures exists steps: seq<Step> ::
                && (forall step <- steps :: Internal(step))
                && Possible(old(View()), steps) && View() == After(old(View()), steps)
    {
      var turn := 0;
      ghost var start := View();
      ghost var taken: seq<Step> := [];
      while bodies != []
        invariant SingleWorker(View()) && EffectsLeft(View())
        invariant forall step <- taken :: Internal(step)
        invariant Possible(start, taken) && View() == After(start, taken)
        decreases Measure(View())
      {
        ghost var before := View();
        ghost var step := OneTurn(replies(turn));
        MeasureFalls(before, step);
        SingleWorkerStep(before, step);
        EffectsLeftStep(before, step);
        OneMoreStep(start, taken, step);
        taken := taken + [step];
        turn := turn + 1;
      }
    }
  }
}
