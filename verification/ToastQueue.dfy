/** The toast queue as the object that callers mutate (workspace/moderator/src/toast-queue.ts). Every
    method is the code that runs without suspension. */
module ToastQueue {
  import opened Toasts

  class ToastWorker {
    var pending: seq<Toast>
    var active: bool
    var runs: seq<Stage>
    ghost var pushed: seq<Toast>
    ghost var shown: seq<Toast>
    ghost var dropped: seq<Toast>
    ghost var removed: seq<Toast>
    var nextSerial: nat

    ghost predicate Numbered()
      reads this
    {
      nextSerial == |pushed|
    }

    ghost function View(): Queue
      reads this
    {
      Queue(pending, active, runs, pushed, shown, dropped, removed)
    }

    constructor ()
      ensures Numbered() && View() == EMPTY
    {
      pending, active, runs, nextSerial := [], false, [], 0;
      pushed, shown, dropped, removed := [], [], [], [];
    }

    /** The while loop of run `i`, from its top to the next await. */
    method RunOn(i: nat)
      requires i < |runs|
      modifies this`pending, this`runs, this`shown
      ensures View() == Take(old(View()), i)
    {
      if |pending| > 0 {
        var entry := pending[0];
        pending := pending[1..];
        shown := shown + [entry];
        runs := runs[i := Showing(entry)];
      } else {
        runs := runs[i := Finishing];
      }
    }

    method StartRun()
      modifies this`pending, this`runs, this`shown, this`active
      ensures View() == Start(old(View()))
    {
      if active {
        return;
      }
      active := true;
      runs := runs + [Finishing];
      RunOn(|runs| - 1);
    }

    method OnPush(session: string)
      requires Numbered()
      modifies this
      ensures Numbered()
      ensures View() == DoPush(old(View()), session)
    {
      var toast := Toast(nextSerial, session);
      nextSerial := nextSerial + 1;
      pushed := pushed + [toast];
      pending := pending + [toast];
      if |pending| > MAX_PENDING_TOASTS {
        dropped := dropped + [pending[0]];
        pending := pending[1..];
      }
      StartRun();
    }

    /** Splices the toasts of a session out, from the back of the array to its front. */
    method OnRemoveSession(session: string)
      modifies this`pending, this`removed
      ensures View() == DoRemove(old(View()), session)
    {
      ghost var before := pending;
      var index := |pending|;
      assert before[..index] == before;
      while index > 0
        invariant 0 <= index <= |before|
        invariant pending == before[..index] + Without(before[index..], session)
        modifies this`pending
      {
        index := index - 1;
        SplicedStep(before, pending, index, session);
        if pending[index].session == session {
          pending := pending[..index] + pending[index + 1..];
        }
      }
      removed := removed + Only(before, session);
    }

    method OnShown(i: nat, ending: Ending)
      requires Enabled(View(), Shown(i, ending))
      modifies this`pending, this`runs, this`shown
      ensures View() == DoShown(old(View()), i, ending)
    {
      match ending
      case Fine => runs := runs[i := Pausing(runs[i].toast)];
      case Fails => RunOn(i);
      case FailsTwice => runs := runs[i := Finishing];
    }

    method OnPaused(i: nat, ending: Ending)
      requires Enabled(View(), Paused(i, ending))
      modifies this`pending, this`runs, this`shown
      ensures View() == DoPaused(old(View()), i, ending)
    {
      if ending == FailsTwice {
        runs := runs[i := Finishing];
      } else {
        RunOn(i);
      }
    }

    method OnSettled(i: nat)
      requires Enabled(View(), Settled(i))
      modifies this`pending, this`runs, this`shown, this`active
      ensures View() == DoSettled(old(View()), i)
    {
      active := false;
      runs := runs[..i] + runs[i + 1..];
      if |pending| > 0 {
        StartRun();
      }
    }
  }

  /** One turn of the splicing loop. */
  lemma SplicedStep(before: seq<Toast>, pending: seq<Toast>, index: nat, session: string)
    requires index < |before|
    requires pending == before[..index + 1] + Without(before[index + 1..], session)
    ensures index < |pending| && pending[index] == before[index]
    ensures (if pending[index].session == session then pending[..index] + pending[index + 1..] else pending)
            == before[..index] + Without(before[index..], session)
  {
    assert before[index..] == [before[index]] + before[index + 1..];
    assert before[..index + 1] == before[..index] + [before[index]];
  }
}
