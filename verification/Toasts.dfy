/** The bounded toast queue and its worker, as the turns between two awaits
    (workspace/moderator/src/toast-queue.ts). */
module Toasts {

  /** A pushed toast; the serial number is its place in the push order. */
  datatype Toast = Toast(serial: nat, session: string)

  /** Where a run of the worker is suspended. `Finishing` is the gap between the end of the run and its
      finally callback. */
  datatype Stage = Showing(toast: Toast) | Pausing(toast: Toast) | Finishing

  datatype Queue = Queue(
    pending: seq<Toast>,
    active: bool,
    runs: seq<Stage>,
    pushed: seq<Toast>,
    shown: seq<Toast>,
    dropped: seq<Toast>,
    removed: seq<Toast>)

  /** How showing or pausing ends; the error callback may itself throw. */
  datatype Ending = Fine | Fails | FailsTwice

  datatype Step =
    | Push(session: string)
    | RemoveSession(session: string)
    | Shown(run: nat, ending: Ending)
    | Paused(run: nat, ending: Ending)
    | Settled(run: nat)

  const MAX_PENDING_TOASTS := 16

  const EMPTY := Queue([], false, [], [], [], [], [])

  /** The top of the loop of run `i`: shift the next toast and start showing it, or end. */
  function Take(q: Queue, i: nat): Queue
    requires i < |q.runs|
  {
    if q.pending == [] then
      q.(runs := q.runs[i := Finishing])
    else
      q.(pending := q.pending[1..], shown := q.shown + [q.pending[0]],
      runs := q.runs[i := Showing(q.pending[0])])
  }

  function Start(q: Queue): Queue {
    if q.active then q else Take(q.(active := true, runs := q.runs + [Finishing]), |q.runs|)
  }

  function Without(pending: seq<Toast>, session: string): seq<Toast> {
    if pending == [] then []
    else (if pending[0].session == session then [] else [pending[0]]) + Without(pending[1..], session)
  }

  function Only(pending: seq<Toast>, session: string): seq<Toast> {
    if pending == [] then []
    else (if pending[0].session == session then [pending[0]] else []) + Only(pending[1..], session)
  }

  predicate Enabled(q: Queue, step: Step) {
    match step
    case Push(_) => true
    case RemoveSession(_) => true
    case Shown(i, _) => i < |q.runs| && q.runs[i].Showing?
    case Paused(i, _) => i < |q.runs| && q.runs[i].Pausing?
    case Settled(i) => i < |q.runs| && q.runs[i].Finishing?
  }

  function DoPush(q: Queue, session: string): Queue {
    var toast := Toast(|q.pushed|, session);
    var longer := q.pending + [toast];
    var kept := q.(pushed := q.pushed + [toast], pending := longer);
    Start(
      if |longer| > MAX_PENDING_TOASTS then
        kept.(pending := longer[1..], dropped := q.dropped + [longer[0]])
      else kept)
  }

  function DoRemove(q: Queue, session: string): Queue {
    q.(pending := Without(q.pending, session), removed := q.removed + Only(q.pending, session))
  }

  function DoShown(q: Queue, i: nat, ending: Ending): Queue
    requires Enabled(q, Shown(i, ending))
  {
    match ending
    case Fine => q.(runs := q.runs[i := Pausing(q.runs[i].toast)])
    case Fails => Take(q, i)
    case FailsTwice => q.(runs := q.runs[i := Finishing])
  }

  function DoPaused(q: Queue, i: nat, ending: Ending): Queue
    requires Enabled(q, Paused(i, ending))
  {
    if ending == FailsTwice then q.(runs := q.runs[i := Finishing]) else Take(q, i)
  }

  /** The finally callback. */
  function DoSettled(q: Queue, i: nat): Queue
    requires Enabled(q, Settled(i))
  {
    var idle := q.(active := false, runs := q.runs[..i] + q.runs[i + 1..]);
    if idle.pending == [] then idle else Start(idle)
  }

  function Apply(q: Queue, step: Step): Queue
    requires Enabled(q, step)
  {
    match step
    case Push(session) => DoPush(q, session)
    case RemoveSession(session) => DoRemove(q, session)
    case Shown(i, ending) => DoShown(q, i, ending)
    case Paused(i, ending) => DoPaused(q, i, ending)
    case Settled(i) => DoSettled(q, i)
  }

  predicate Possible(q: Queue, steps: seq<Step>)
    decreases steps
  {
    steps == [] || (Enabled(q, steps[0]) && Possible(Apply(q, steps[0]), steps[1..]))
  }

  function After(q: Queue, steps: seq<Step>): Queue
    requires Possible(q, steps)
    decreases steps
  {
    if steps == [] then q else After(Apply(q, steps[0]), steps[1..])
  }

  // ---------------------------------------------------------------- one worker, bounded queue

  /** At most one run exists, so no two shows overlap; a waiting toast always has a run; and the queue
      is bounded. */
  predicate Served(q: Queue) {
    && |q.runs| <= 1
    && (q.active <==> |q.runs| == 1)
    && (q.pending != [] ==> q.active)
    && |q.pending| <= MAX_PENDING_TOASTS
  }

  lemma {:induction false} WithoutIsShorter(pending: seq<Toast>, session: string)
    ensures |Without(pending, session)| <= |pending|
  {
    if pending != [] {
      WithoutIsShorter(pending[1..], session);
    }
  }

  lemma ServedStep(q: Queue, step: Step)
    requires Served(q) && Enabled(q, step)
    ensures Served(Apply(q, step))
  {
    match step
    case RemoveSession(session) => WithoutIsShorter(q.pending, session);
    case _ =>
  }

  lemma {:induction false} ServedAlways(q: Queue, steps: seq<Step>)
    requires Served(q) && Possible(q, steps)
    ensures Served(After(q, steps))
    decreases steps
  {
    if steps != [] {
      ServedStep(q, steps[0]);
      ServedAlways(Apply(q, steps[0]), steps[1..]);
    }
  }

  // ---------------------------------------------------------------- conservation and order

  predicate Ascending(ts: seq<Toast>) {
    forall i, j :: 0 <= i < j < |ts| ==> ts[i].serial < ts[j].serial
  }

  predicate Below(ts: seq<Toast>, bound: nat) {
    forall t <- ts :: t.serial < bound
  }

  /** Every pushed toast is in exactly one place, and what was shown, followed by what still waits, is in
      push order. */
  predicate Conserved(q: Queue) {
    && (forall i :: 0 <= i < |q.pushed| ==> q.pushed[i].serial == i)
    && multiset(q.pushed)
       == multiset(q.shown) + multiset(q.dropped) + multiset(q.removed) + multiset(q.pending)
    && Ascending(q.shown + q.pending)
    && Below(q.shown + q.pending, |q.pushed|)
  }

  lemma {:induction false} FilterSplits(pending: seq<Toast>, session: string)
    ensures multiset(pending) == multiset(Without(pending, session)) + multiset(Only(pending, session))
    ensures forall t <- Only(pending, session) :: t.session == session
    ensures forall t <- Without(pending, session) :: t.session != session && t in pending
  {
    if pending != [] {
      FilterSplits(pending[1..], session);
      assert pending == [pending[0]] + pending[1..];
    }
  }

  lemma {:induction false} FilterKeepsOrder(shown: seq<Toast>, pending: seq<Toast>, session: string)
    requires Ascending(shown + pending)
    ensures Ascending(shown + Without(pending, session))
    decreases pending
  {
    if pending == [] {
      assert shown + Without(pending, session) == shown + pending;
    } else {
      var rest := pending[1..];
      if pending[0].session == session {
        AscendingSkip(shown, pending);
        FilterKeepsOrder(shown, rest, session);
        assert Without(pending, session) == Without(rest, session);
      } else {
        assert shown + pending == (shown + [pending[0]]) + rest;
        FilterKeepsOrder(shown + [pending[0]], rest, session);
        assert (shown + [pending[0]]) + Without(rest, session) == shown + Without(pending, session);
      }
    }
  }

  lemma AscendingSkip(shown: seq<Toast>, pending: seq<Toast>)
    requires pending != [] && Ascending(shown + pending)
    ensures Ascending(shown + pending[1..])
  {
    var all, fewer := shown + pending, shown + pending[1..];
    forall i, j | 0 <= i < j < |fewer| ensures fewer[i].serial < fewer[j].serial {
      var i' := if i < |shown| then i else i + 1;
      var j' := if j < |shown| then j else j + 1;
      assert fewer[i] == all[i'] && fewer[j] == all[j'];
    }
  }

  lemma ConservedRemove(q: Queue, session: string)
    requires Conserved(q)
    ensures Conserved(DoRemove(q, session))
  {
    FilterSplits(q.pending, session);
    FilterKeepsOrder(q.shown, q.pending, session);
    var t := DoRemove(q, session);
    forall x <- t.shown + t.pending ensures x.serial < |t.pushed| {
      assert x in q.shown + q.pending;
    }
  }

  /** The fields that say where each toast is. */
  predicate SamePlaces(q: Queue, t: Queue) {
    && q.pushed == t.pushed && q.shown == t.shown && q.dropped == t.dropped
    && q.removed == t.removed && q.pending == t.pending
  }

  lemma ConservedTake(q: Queue, i: nat)
    requires Conserved(q) && i < |q.runs|
    ensures Conserved(Take(q, i))
  {
    var t := Take(q, i);
    if q.pending != [] {
      assert q.pending == [q.pending[0]] + q.pending[1..];
      assert t.shown + t.pending == q.shown + q.pending;
    }
  }

  lemma ConservedStart(q: Queue)
    requires Conserved(q)
    ensures Conserved(Start(q))
  {
    if !q.active {
      var started := q.(active := true, runs := q.runs + [Finishing]);
      assert SamePlaces(q, started);
      ConservedTake(started, |q.runs|);
    }
  }

  lemma ConservedAdd(q: Queue, session: string)
    requires Conserved(q)
    ensures var toast := Toast(|q.pushed|, session);
            Conserved(q.(pushed := q.pushed + [toast], pending := q.pending + [toast]))
  {
    var toast := Toast(|q.pushed|, session);
    var longer := q.pending + [toast];
    assert q.shown + longer == (q.shown + q.pending) + [toast];
    var all := q.shown + q.pending;
    forall i, j | 0 <= i < j < |all + [toast]| ensures (all + [toast])[i].serial < (all + [toast])[j].serial {
      assert (all + [toast])[i] == all[i];
      assert all[i] in all;
    }
  }

  lemma ConservedDrop(q: Queue)
    requires Conserved(q) && q.pending != []
    ensures Conserved(q.(pending := q.pending[1..], dropped := q.dropped + [q.pending[0]]))
  {
    AscendingSkip(q.shown, q.pending);
    assert q.pending == [q.pending[0]] + q.pending[1..];
    forall x <- q.shown + q.pending[1..] ensures x.serial < |q.pushed| {
      assert x in q.shown + q.pending;
    }
  }

  lemma ConservedPush(q: Queue, session: string)
    requires Conserved(q)
    ensures Conserved(DoPush(q, session))
  {
    ConservedAdd(q, session);
    var toast := Toast(|q.pushed|, session);
    var longer := q.pending + [toast];
    var kept := q.(pushed := q.pushed + [toast], pending := longer);
    if |longer| > MAX_PENDING_TOASTS {
      ConservedDrop(kept);
      ConservedStart(kept.(pending := longer[1..], dropped := q.dropped + [longer[0]]));
    } else {
      ConservedStart(kept);
    }
  }

  lemma ConservedStep(q: Queue, step: Step)
    requires Conserved(q) && Enabled(q, step)
    ensures Conserved(Apply(q, step))
  {
    match step
    case Push(session) => ConservedPush(q, session);
    case RemoveSession(session) => ConservedRemove(q, session);
    case Shown(i, ending) =>
      if ending == Fails {
        ConservedTake(q, i);
      } else {
        assert SamePlaces(q, Apply(q, step));
      }
    case Paused(i, ending) =>
      if ending == FailsTwice {
        assert SamePlaces(q, Apply(q, step));
      } else {
        ConservedTake(q, i);
      }
    case Settled(i) =>
      var idle := q.(active := false, runs := q.runs[..i] + q.runs[i + 1..]);
      assert SamePlaces(q, idle);
      ConservedStart(idle);
  }

  lemma {:induction false} ConservedAlways(q: Queue, steps: seq<Step>)
    requires Conserved(q) && Possible(q, steps)
    ensures Conserved(After(q, steps))
    decreases steps
  {
    if steps != [] {
      ConservedStep(q, steps[0]);
      ConservedAlways(Apply(q, steps[0]), steps[1..]);
    }
  }

  lemma {:induction false} SerialsAreUnique(pushed: seq<Toast>, t: Toast)
    requires forall i :: 0 <= i < |pushed| ==> pushed[i].serial == i
    requires t in pushed
    ensures multiset(pushed)[t] == 1
  {
    var n := |pushed| - 1;
    assert pushed == pushed[..n] + [pushed[n]];
    if t == pushed[n] {
      assert t !in pushed[..n];
    } else {
      SerialsAreUnique(pushed[..n], t);
    }
  }

  /** From the empty queue, in any interleaving: every toast that was pushed was shown, dropped, removed
      with its session, or still waits, and only one of these. */
  lemma ToastsAreConserved(steps: seq<Step>, t: Toast)
    requires Possible(EMPTY, steps)
    ensures var q := After(EMPTY, steps);
            && (t in q.pushed <==> t in q.shown || t in q.dropped || t in q.removed || t in q.pending)
            && multiset(q.shown)[t] + multiset(q.dropped)[t] + multiset(q.removed)[t] + multiset(q.pending)[t] <= 1
  {
    ConservedAlways(EMPTY, steps);
    InOnePlace(After(EMPTY, steps), t);
  }

  lemma InOnePlace(q: Queue, t: Toast)
    requires Conserved(q)
    ensures t in q.pushed <==> t in q.shown || t in q.dropped || t in q.removed || t in q.pending
    ensures multiset(q.shown)[t] + multiset(q.dropped)[t] + multiset(q.removed)[t] + multiset(q.pending)[t] <= 1
  {
    assert multiset(q.pushed)[t] ==
      multiset(q.shown)[t] + multiset(q.dropped)[t] + multiset(q.removed)[t] + multiset(q.pending)[t];
    if t in q.pushed {
      SerialsAreUnique(q.pushed, t);
    }
  }

  /** Only a push onto a full queue drops, and it drops the toast that has waited longest. */
  lemma OnlyTheOldestIsDropped(q: Queue, step: Step)
    requires Served(q) && Enabled(q, step)
    ensures Apply(q, step).dropped ==
            q.dropped + if step.Push? && |q.pending| == 16 then [q.pending[0]] else []
  {
  }

  // ---------------------------------------------------------------- the worker finishes

  function StageWeight(stage: Stage): nat {
    match stage
    case Showing(_) => 3
    case Pausing(_) => 2
    case Finishing => 1
  }

  function Measure(q: Queue): nat {
    4 * |q.pending| + if q.runs == [] then 0 else StageWeight(q.runs[0])
  }

  predicate OfWorker(step: Step) {
    step.Shown? || step.Paused? || step.Settled?
  }

  lemma WorkerFalls(q: Queue, step: Step)
    requires Served(q) && Enabled(q, step) && OfWorker(step)
    ensures Measure(Apply(q, step)) < Measure(q)
  {
  }

  /** Without pushes the worker takes a bounded number of turns, and when no turn is left nothing waits,
      even when shows and error callbacks fail. */
  lemma {:induction false} WorkerEmptiesTheQueue(q: Queue, steps: seq<Step>)
    requires Served(q) && Possible(q, steps) && forall step <- steps :: OfWorker(step)
    ensures |steps| + Measure(After(q, steps)) <= Measure(q)
    ensures var t := After(q, steps);
            (forall step | OfWorker(step) :: !Enabled(t, step)) <==> t.pending == [] && !t.active
    decreases steps
  {
    if steps == [] {
      if q.runs != [] {
        match q.runs[0]
        case Showing(_) => assert Enabled(q, Shown(0, Fine));
        case Pausing(_) => assert Enabled(q, Paused(0, Fine));
        case Finishing => assert Enabled(q, Settled(0));
      }
    } else {
      WorkerFalls(q, steps[0]);
      ServedStep(q, steps[0]);
      WorkerEmptiesTheQueue(Apply(q, steps[0]), steps[1..]);
    }
  }

  /** What a run does next: a toast that was shown is paused for; after the pause, or when showing or pausing
      failed, the longest waiting toast is shown, or the run ends; and when the error callback fails too, the
      run ends and leaves the rest to its successor. */
  lemma WorkerMoves(q: Queue, i: nat, ending: Ending)
    requires Served(q)
    ensures Enabled(q, Shown(i, ending)) && ending.Fine? ==>
              Apply(q, Shown(i, ending)) == q.(runs := [Pausing(q.runs[i].toast)])
    ensures Enabled(q, Shown(i, ending)) && ending.FailsTwice? ==>
              Apply(q, Shown(i, ending)) == q.(runs := [Finishing])
    ensures Enabled(q, Paused(i, ending)) && ending.FailsTwice? ==>
              Apply(q, Paused(i, ending)) == q.(runs := [Finishing])
    ensures Enabled(q, Shown(i, ending)) && ending.Fails? ==> ShowsNext(q, Apply(q, Shown(i, ending)))
    ensures Enabled(q, Paused(i, ending)) && !ending.FailsTwice? ==> ShowsNext(q, Apply(q, Paused(i, ending)))
    ensures Enabled(q, Settled(i)) ==>
              if q.pending == [] then Apply(q, Settled(i)) == q.(active := false, runs := [])
              else ShowsNext(q, Apply(q, Settled(i)))
  {
    if i < |q.runs| {
      assert q.runs == [q.runs[i]] && q.runs[..i] + q.runs[i + 1..] == [];
    }
  }

  /** The longest waiting toast is being shown now. */
  predicate ShowsNext(q: Queue, t: Queue) {
    if q.pending == [] then t == q.(runs := [Finishing])
    else
      t == q.(pending := q.pending[1..], shown := q.shown + [q.pending[0]], runs := [Showing(q.pending[0])])
  }

  /** Removing a session takes its toasts out of those that wait, and no others. */
  lemma {:induction false} RemovedAreTheSessions(pending: seq<Toast>, session: string, t: Toast)
    ensures t in Without(pending, session) <==> t in pending && t.session != session
    ensures t in Only(pending, session) <==> t in pending && t.session == session
  {
    if pending != [] {
      RemovedAreTheSessions(pending[1..], session, t);
      assert pending == [pending[0]] + pending[1..];
    }
  }
}
