/** The life of one QEMU virtual machine (workspace/cli/hypervisor/qemu_backend.py,
    workspace/cli/hypervisor/qemu_state.py): its pid file, its state file, its control socket, and the
    process table of a host that reuses pids. */
module Qemu {
  import opened Base

  type Pid = nat

  /** A live process. `birth` tells processes apart even when a pid or a start time repeats; `ofVm` says
      that it was launched for this directory; `permitted` says that the caller may signal it. */
  datatype Process = Process(birth: nat, identity: string, ofVm: bool, permitted: bool)

  type Table = map<Pid, Process>

  datatype PidFile = NoPidFile | Unreadable | Holds(pid: Pid)

  datatype VmState = VmState(lastError: Option<string>, running: bool, pidStart: Option<string>)

  datatype StateFile = NoState | Corrupt | Saved(state: VmState)

  datatype Status = Unknown | Invalid | Halted | Running

  datatype Error =
    | BadPidFile | BadStateFile | NotConfigured | StalePid | LaunchFailed | MountsFailed
    | RebuildFailed | Mismatch | StillAlive

  datatype Outcome = Returned | Raised(error: Error)

  /** A signal that `stop` tried to send, KILL or else TERM, and the start identity recorded then. */
  datatype Signal = Signal(target: Process, recorded: Option<string>, kill: bool)

  /** Another program on the host, at the pid it asks for if that is free. */
  datatype Arrival = Arrival(pid: Pid, identity: string, permitted: bool)

  datatype Op = Start | Stop | Rebuild(newDisk: bool, provision: bool) | Idle(arrivals: seq<Arrival>)

  const FRESH_STATE := VmState(None, false, None)

  /** The pid file names every live process of the VM. */
  predicate Owned(procs: Table, pidFile: PidFile) {
    forall p :: p in procs && procs[p].ofVm ==> pidFile == Holds(p)
  }

  predicate NoneAlive(procs: Table) {
    forall p :: p in procs ==> !procs[p].ofVm
  }

  /** What was recorded about the VM's live process, if anything, is its own start identity. */
  predicate RecordedRight(procs: Table, stateFile: StateFile) {
    forall p :: p in procs && procs[p].ofVm && stateFile.Saved? && stateFile.state.pidStart.Some? ==>
                  procs[p].identity == stateFile.state.pidStart.value
  }

  /** As far as the host can tell, the pid file names a live process and it is the recorded one. */
  predicate Answers(procs: Table, pidFile: PidFile, stateFile: StateFile) {
    && pidFile.Holds? && pidFile.pid in procs
    && (procs[pidFile.pid].permitted && stateFile.Saved? && stateFile.state.pidStart.Some? ==>
          procs[pidFile.pid].identity == stateFile.state.pidStart.value)
  }

  /** The error is noted, and the rest of the state is as it was. */
  predicate Noted(before: StateFile, after: StateFile, message: string) {
    after == Saved((if before.Saved? then before.state else FRESH_STATE).(lastError := Some(message)))
  }

  /** What is recorded of a VM that was started: it runs, nothing went wrong, and the start identity is that
      of its live process. */
  predicate StartRecorded(procs: Table, stateFile: StateFile, psFailed: bool) {
    && stateFile.Saved? && stateFile.state.running && stateFile.state.lastError == None
    && (!psFailed ==>
          forall p :: p in procs && procs[p].ofVm ==> stateFile.state.pidStart == Some(procs[p].identity))
  }

  /** Some processes exited and nothing else happened to the table. */
  predicate Exited(before: Table, after: Table) {
    after.Keys <= before.Keys && forall p :: p in after ==> after[p] == before[p]
  }

  function VmPids(procs: Table): set<Pid> {
    set p | p in procs && procs[p].ofVm
  }

  /** Not even two of the VM's processes live in the table. */
  predicate AtMostOne(procs: Table) {
    |VmPids(procs)| <= 1
  }

  /** `process_matches` on a live process; `psFailed` says that `ps` gave no start time. */
  predicate Matches(p: Process, recorded: Option<string>, psFailed: bool) {
    !p.permitted || recorded.None? || (!psFailed && p.identity == recorded.value)
  }

  /** A process with another start time than the recorded one is taken for the VM's exactly when the caller
      may not signal it. */
  lemma WrongMatchesExactly(p: Process, recorded: string, psFailed: bool)
    requires p.identity != recorded
    ensures Matches(p, Some(recorded), psFailed) <==> !p.permitted
  {
  }

  function Recorded(stateFile: StateFile): Option<string> {
    if stateFile.Saved? then stateFile.state.pidStart else None
  }

  lemma AtMostOneAlive(procs: Table, pidFile: PidFile)
    requires Owned(procs, pidFile)
    ensures AtMostOne(procs)
  {
    var alive := VmPids(procs);
    if alive != {} {
      var p :| p in alive;
      assert alive == {p};
    }
  }

  class Vm {
    var procs: Table
    var births: nat
    var directory: bool
    var pidFile: PidFile
    var socket: bool
    var stateFile: StateFile
    ghost var signals: seq<Signal>
    ghost var launches: nat
    /** How many signals had been tried at each request to power down. */
    ghost var asked: seq<nat>
    /** Every process table so far, the present one last. */
    ghost var tables: seq<Table>

    ghost predicate Valid()
      reads this
    {
      && Owned(procs, pidFile)
      && (forall p :: p in procs ==> procs[p].birth < births)
      && (!directory ==> pidFile == NoPidFile)
      && Watched()
    }

    /** Every table so far held at most one process of the VM. */
    ghost predicate Watched()
      reads this`procs, this`tables
    {
      tables != [] && tables[|tables| - 1] == procs && forall t <- tables :: AtMostOne(t)
    }

    /** A directory that no process was launched for. */
    constructor (procs: Table, births: nat)
      requires NoneAlive(procs) && forall p :: p in procs ==> procs[p].birth < births
      ensures Valid() && RecordedRight(this.procs, stateFile)
    {
      this.procs, this.births := procs, births;
      directory, pidFile, socket, stateFile := true, NoPidFile, false, NoState;
      signals, launches, asked, tables := [], 0, [], [procs];
      AtMostOneAlive(procs, NoPidFile);
    }

    // -------------------------------------------------------------- the environment

    /** Only exits happened, and the pid file went at most with the VM's last process. */
    twostate predicate Lapsed()
      reads this
    {
      && Exited(old(procs), procs)
      && (pidFile == old(pidFile) || (pidFile == NoPidFile && NoneAlive(procs)))
      && (socket == old(socket) || (!socket && pidFile == NoPidFile))
      && old(tables) <= tables
    }

    /** Time passes inside a call: processes exit, and an exiting QEMU may take its files along. */
    method Elapse()
      requires Valid()
      modifies this`procs, this`tables, this`pidFile, this`socket
      ensures Valid()
      ensures Lapsed()
    {
      var gone: set<Pid> :| gone <= procs.Keys;
      procs := procs - gone;
      tables := tables + [procs];
      AtMostOneAlive(procs, pidFile);
      if pidFile.Holds? && pidFile.pid !in procs {
        if * {
          pidFile := NoPidFile;
          socket := false;
        }
      }
    }

    /** Time passes between calls: besides exits, other programs start, and they may get any free pid. */
    method Meanwhile(arrivals: seq<Arrival>)
      requires Valid()
      modifies this`procs, this`tables, this`births, this`pidFile, this`socket
      ensures Valid()
      ensures forall p :: p in procs && procs[p].ofVm ==> p in old(procs) && procs[p] == old(procs)[p]
      ensures old(tables) <= tables
    {
      Elapse();
      for i := 0 to |arrivals|
        invariant Valid() && old(tables) <= tables
        invariant forall p :: p in procs && procs[p].ofVm ==> p in old(procs) && procs[p] == old(procs)[p]
      {
        var a := arrivals[i];
        if a.pid !in procs {
          procs := procs[a.pid := Process(births, a.identity, false, a.permitted)];
          births := births + 1;
          tables := tables + [procs];
          AtMostOneAlive(procs, pidFile);
        }
      }
    }

    // -------------------------------------------------------------- reading processes and files

    method ProcessAlive(pid: Pid) returns (alive: bool)
      requires Valid()
      modifies this`procs, this`tables, this`pidFile, this`socket
      ensures Valid()
      ensures Lapsed()
      ensures alive <==> pid in procs
    {
      Elapse();
      alive := pid in procs;
    }

    /** The start time that `ps` prints; nothing when the process is gone or `ps` fails. */
    method ProcessIdentity(pid: Pid) returns (identity: Option<string>, ghost failed: bool)
      requires Valid()
      modifies this`procs, this`tables, this`pidFile, this`socket
      ensures Valid()
      ensures Lapsed()
      ensures identity.Some? ==> pid in procs && procs[pid].identity == identity.value
      ensures identity.None? && pid in procs ==> failed
      ensures identity.Some? ==> !failed
    {
      Elapse();
      identity, failed := None, false;
      if pid in procs {
        if * {
          failed := true;
        } else if procs[pid].identity == "" {
          failed := true;
        } else {
          identity := Some(procs[pid].identity);
        }
      }
    }

    method ProcessMatches(pid: Pid, identity: Option<string>) returns (matches: bool, ghost failed: bool)
      requires Valid()
      modifies this`procs, this`tables, this`pidFile, this`socket
      ensures Valid()
      ensures Lapsed()
      ensures matches ==> pid in procs
      ensures pid in procs ==> (matches <==> Matches(procs[pid], identity, failed))
    {
      Elapse();
      failed := false;
      if pid !in procs {
        return false, false;
      }
      if !procs[pid].permitted || identity.None? {
        return true, false;
      }
      var current: Option<string>;
      current, failed := ProcessIdentity(pid);
      matches := current == identity;
    }

    function PidFromFile(): Result<Option<Pid>, Error>
      reads this`pidFile
    {
      match pidFile
      case NoPidFile => Ok(None)
      case Unreadable => Err(BadPidFile)
      case Holds(pid) => Ok(Some(pid))
    }

    method ReadStatus() returns (r: Result<Status, Error>, ghost psFailed: bool)
      requires Valid()
      modifies this`procs, this`tables, this`pidFile, this`socket
      ensures Valid()
      ensures Lapsed()
      ensures r.Ok? <==> !stateFile.Corrupt?
      ensures r.Err? ==> r.error == BadStateFile
      ensures r == Ok(Running) ==> Answers(old(procs), old(pidFile), stateFile)
      ensures r.Ok? ==>
                match old(pidFile)
                case NoPidFile => r.value == Unknown
                case Unreadable => r.value == Invalid
                case Holds(pid) =>
                  && (pid in procs ==>
                        r.value == if Matches(procs[pid], Recorded(stateFile), psFailed) then Running else Invalid)
                  && (r.value == Halted ==> pid !in procs) && r.value != Unknown
    {
      psFailed := false;
      if stateFile.Corrupt? {
        return Err(BadStateFile), false;
      }
      match pidFile
      case NoPidFile => return Ok(Unknown), false;
      case Unreadable => return Ok(Invalid), false;
      case Holds(pid) =>
        var alive := ProcessAlive(pid);
        if !alive {
          return Ok(Halted), false;
        }
        if stateFile.Saved? && stateFile.state.pidStart.Some? {
          var matches: bool;
          matches, psFailed := ProcessMatches(pid, stateFile.state.pidStart);
          if !matches {
            return Ok(Invalid), psFailed;
          }
        }
        r := Ok(Running);
    }

    // -------------------------------------------------------------- the state file

    /** Rewrites the state file, which must be absent or readable. */
    method Mark(lastError: Option<string>, running: bool, pidStart: Option<string>) returns (o: Outcome)
      modifies this`stateFile
      ensures o == if old(stateFile).Corrupt? then Raised(BadStateFile) else Returned
      ensures stateFile == if old(stateFile).Corrupt? then Corrupt
                           else Saved(VmState(lastError, running, pidStart))
    {
      if stateFile.Corrupt? {
        return Raised(BadStateFile);
      }
      stateFile := Saved(VmState(lastError, running, pidStart));
      o := Returned;
    }

    /** Notes an error and keeps the rest of the state. */
    method MarkError(message: string) returns (o: Outcome)
      modifies this`stateFile
      ensures o == if old(stateFile).Corrupt? then Raised(BadStateFile) else Returned
      ensures stateFile == match old(stateFile)
                           case Corrupt => Corrupt
                           case NoState => Saved(FRESH_STATE.(lastError := Some(message)))
                           case Saved(s) => Saved(s.(lastError := Some(message)))
    {
      var current := if stateFile.Saved? then stateFile.state else FRESH_STATE;
      o := Mark(Some(message), current.running, current.pidStart);
    }

    // -------------------------------------------------------------- start

    /** Runs QEMU in the background; it takes a free pid and writes its pid file, or fails. */
    method Spawn() returns (spawned: bool)
      requires Valid() && pidFile == NoPidFile && NoneAlive(procs) && directory
      modifies this`procs, this`tables, this`births, this`pidFile, this`socket, this`launches
      ensures Valid()
      ensures launches == old(launches) + (if spawned then 1 else 0)
      ensures old(tables) <= tables && old(births) <= births
      ensures !spawned ==> NoneAlive(procs)
      ensures forall p :: p in procs && procs[p].ofVm ==> procs[p].birth >= old(births)
    {
      var pid: Pid := *;
      if pid in procs {
        return false;
      }
      var identity: string := *;
      var permitted: bool := *;
      procs := procs[pid := Process(births, identity, true, permitted)];
      births, launches := births + 1, launches + 1;
      pidFile, socket := Holds(pid), true;
      tables := tables + [procs];
      AtMostOneAlive(procs, pidFile);
      spawned := true;
    }

    /** Records the start identity of the process that the pid file names. */
    method RecordStart() returns (o: Outcome, ghost psFailed: bool)
      requires Valid()
      modifies this`procs, this`tables, this`pidFile, this`socket, this`stateFile
      ensures Valid() && RecordedRight(procs, stateFile)
      ensures Lapsed()
      ensures o.Raised? ==> o.error == BadStateFile
      ensures o == Returned ==> StartRecorded(procs, stateFile, psFailed)
    {
      Elapse();
      psFailed := false;
      var started: Option<string> := None;
      if pidFile.Holds? {
        started, psFailed := ProcessIdentity(pidFile.pid);
      }
      o := Mark(None, true, started);
    }

    /** Launches the VM, records it, and configures its mounts. */
    method Launch() returns (o: Outcome, ghost psFailed: bool)
      requires Valid() && pidFile == NoPidFile && NoneAlive(procs) && directory
      modifies this`procs, this`tables, this`births, this`pidFile, this`socket, this`stateFile, this`launches
      ensures Valid() && RecordedRight(procs, stateFile)
      ensures old(launches) <= launches <= old(launches) + 1
      ensures old(tables) <= tables && old(births) <= births
      ensures forall p :: p in procs && procs[p].ofVm ==> procs[p].birth >= old(births)
      ensures o == Returned ==> launches > old(launches) && StartRecorded(procs, stateFile, psFailed)
      ensures o == Raised(LaunchFailed) ==> NoneAlive(procs) && launches == old(launches)
      ensures o == Raised(LaunchFailed) ==> Noted(old(stateFile), stateFile, "qemu launch failed")
      ensures o == Raised(MountsFailed) ==>
                stateFile.Saved? && stateFile.state.lastError == Some("mount configuration failed")
                && StartRecorded(procs, Saved(stateFile.state.(lastError := None)), psFailed)
      ensures o.Raised? ==> o.error in {LaunchFailed, MountsFailed, BadStateFile}
    {
      psFailed := false;
      var spawned := Spawn();
      if !spawned {
        var noted := MarkError("qemu launch failed");
        return if noted.Raised? then noted else Raised(LaunchFailed), false;
      }
      o, psFailed := RecordStart();
      if o.Raised? {
        return;
      }
      Elapse();
      if * {
        o := MarkError("mount configuration failed");
        o := if o.Raised? then o else Raised(MountsFailed);
      }
    }

    /** The part of `start` that looks for a running VM; without a verdict, no process is alive. */
    method FindRunning() returns (verdict: Option<Outcome>, ghost psFailed: bool)
      requires Valid() && RecordedRight(procs, stateFile)
      modifies this`procs, this`tables, this`pidFile, this`socket, this`stateFile
      ensures Valid() && RecordedRight(procs, stateFile)
      ensures Lapsed()
      ensures verdict.None? ==> NoneAlive(procs) && stateFile.Saved?
      ensures verdict == Some(Returned) ==> Answers(old(procs), old(pidFile), old(stateFile))
      ensures verdict.Some? && verdict.value.Raised? ==>
                verdict.value.error in {BadStateFile, BadPidFile, StalePid}
      ensures old(pidFile).Holds? && old(pidFile).pid in procs && pidFile.Holds? && !old(stateFile).Corrupt? ==>
                verdict == Some(if Matches(procs[old(pidFile).pid], Recorded(old(stateFile)), psFailed) then Returned
                                else Raised(StalePid))
      ensures stateFile == if old(stateFile).NoState? && stateFile.Saved? then Saved(FRESH_STATE) else old(stateFile)
    {
      var status;
      status, psFailed := ReadStatus();
      if status.Err? {
        return Some(Raised(status.error)), psFailed;
      }
      if status.value == Running {
        return Some(Returned), psFailed;
      }
      if stateFile.NoState? {
        stateFile := Saved(FRESH_STATE);
      }
      var pid := PidFromFile();
      if pid.Err? {
        return Some(Raised(pid.error)), psFailed;
      }
      if pid.value.None? {
        return None, psFailed;
      }
      var alive := ProcessAlive(pid.value.value);
      if !alive {
        return None, psFailed;
      }
      if stateFile.state.pidStart.None? {
        return Some(Returned), psFailed;
      }
      var matches: bool;
      matches, psFailed := ProcessMatches(pid.value.value, stateFile.state.pidStart);
      verdict := Some(if matches then Returned else Raised(StalePid));
    }

    method DoStart() returns (o: Outcome, ghost psFailed: bool)
      requires Valid() && RecordedRight(procs, stateFile)
      modifies this`procs, this`tables, this`births, this`pidFile, this`socket, this`stateFile, this`launches
      ensures Valid() && RecordedRight(procs, stateFile)
      ensures old(launches) <= launches <= old(launches) + 1
      ensures old(tables) <= tables && old(births) <= births
      ensures o.Raised? ==> o.error !in {RebuildFailed, Mismatch, StillAlive}
      ensures o == Returned && launches == old(launches) ==>
                && Answers(old(procs), old(pidFile), old(stateFile))
                && (stateFile == old(stateFile) || (old(stateFile).NoState? && stateFile == Saved(FRESH_STATE)))
      ensures o == Returned && launches > old(launches) ==> StartRecorded(procs, stateFile, psFailed)
      ensures o == Raised(LaunchFailed) ==>
                stateFile.Saved? && stateFile.state.lastError == Some("qemu launch failed")
      ensures o == Raised(MountsFailed) ==>
                stateFile.Saved? && stateFile.state.lastError == Some("mount configuration failed")
                && StartRecorded(procs, Saved(stateFile.state.(lastError := None)), psFailed)
      ensures launches > old(launches) ==>
                forall p :: p in procs && procs[p].ofVm ==> procs[p].birth >= old(births)
    {
      if !directory {
        return Raised(NotConfigured), false;
      }
      if * {
        return Raised(NotConfigured), false;
      }
      var verdict, _ := FindRunning();
      if verdict.Some? {
        return verdict.value, false;
      }
      pidFile := NoPidFile;
      socket := false;
      if * {
        return Raised(NotConfigured), false;
      }
      o, psFailed := Launch();
    }

    // -------------------------------------------------------------- stop

    /** Polls until the process is gone or the time is up. */
    method WaitPidExit(pid: Pid, polls: nat) returns (gone: bool)
      requires Valid()
      modifies this`procs, this`tables, this`pidFile, this`socket
      ensures Valid()
      ensures Lapsed()
      ensures gone <==> pid !in procs
    {
      var left := polls;
      while left > 0
        invariant Valid() && Lapsed()
      {
        var alive := ProcessAlive(pid);
        if !alive {
          return true;
        }
        left := left - 1;
      }
      var alive := ProcessAlive(pid);
      gone := !alive;
    }

    /** Every signal sent since then went to a process with the recorded start identity, unless the
        host refused to deliver it or no identity was recorded. */
    twostate predicate SignalledRight()
      reads this`signals
    {
      && old(signals) <= signals
      && (forall i :: |old(signals)| <= i < |signals| && signals[i].recorded.Some? && signals[i].target.permitted ==>
                        signals[i].target.identity == signals[i].recorded.value)
    }

    /** How `stop` ends when the process outlives it, with the error noted. One that matches was asked through
        the socket, if there is one, and then TERM and KILL were tried on it; one that does not was left
        alone. */
    twostate predicate Survived(p: Process, recorded: Option<string>, psFailed: bool, o: Outcome)
      reads this
    {
      if Matches(p, recorded, psFailed) then
        && o == Raised(StillAlive) && Noted(old(stateFile), stateFile, "did not exit")
        && signals == old(signals) + [Signal(p, recorded, false), Signal(p, recorded, true)]
        && (pidFile.Holds? ==> asked == old(asked) + if old(socket) then [|old(signals)|] else [])
      else
        && o == Raised(Mismatch) && Noted(old(stateFile), stateFile, "pid does not match")
        && signals == old(signals) && asked == old(asked)
    }

    /** A signal to the pid can only reach a process with the recorded identity. */
    ghost predicate MayTarget(pid: Pid, recorded: Option<string>)
      reads this`procs, this`tables
    {
      pid in procs && procs[pid].permitted && recorded.Some? ==> procs[pid].identity == recorded.value
    }

    /** `kill` on a pid, and then a wait for the process to go. */
    method SignalAndWait(pid: Pid, recorded: Option<string>, kill: bool, polls: nat) returns (gone: bool)
      requires Valid() && MayTarget(pid, recorded)
      modifies this`procs, this`tables, this`pidFile, this`socket, this`signals
      ensures Valid() && MayTarget(pid, recorded)
      ensures Lapsed()
      ensures SignalledRight()
      ensures gone <==> pid !in procs
      ensures !gone ==> signals == old(signals) + [Signal(procs[pid], recorded, kill)]
    {
      Elapse();
      if pid in procs {
        signals := signals + [Signal(procs[pid], recorded, kill)];
      }
      gone := WaitPidExit(pid, polls);
    }

    method FinishStop() returns (o: Outcome)
      requires Valid() && NoneAlive(procs)
      modifies this`pidFile, this`socket, this`stateFile
      ensures Valid() && pidFile == NoPidFile && !socket
      ensures o == if old(stateFile).Corrupt? then Raised(BadStateFile) else Returned
      ensures stateFile == if old(stateFile).Corrupt? then Corrupt else Saved(VmState(None, false, None))
    {
      pidFile := NoPidFile;
      socket := false;
      o := Mark(None, false, None);
    }

    ghost predicate Gone()
      reads this
    {
      NoneAlive(procs) && pidFile == NoPidFile && stateFile == Saved(VmState(None, false, None))
    }

    /** Asks the control socket, then TERM, then KILL, waiting after each. */
    method TakeDown(pid: Pid, recorded: Option<string>) returns (gone: bool)
      requires Valid() && pidFile in {Holds(pid), NoPidFile} && MayTarget(pid, recorded)
      modifies this`procs, this`tables, this`pidFile, this`socket, this`signals, this`asked
      ensures Valid()
      ensures Lapsed()
      ensures SignalledRight()
      ensures gone <==> pid !in procs
      ensures gone ==> NoneAlive(procs)
      ensures !gone && pidFile.Holds? ==> asked == old(asked) + if old(socket) then [|old(signals)|] else []
      ensures !gone ==>
                signals == old(signals) + [Signal(procs[pid], recorded, false), Signal(procs[pid], recorded, true)]
    {
      if socket {
        asked := asked + [|signals|];
        gone := WaitPidExit(pid, 30);
        if gone {
          return;
        }
      }
      gone := SignalAndWait(pid, recorded, false, 5);
      if gone {
        return;
      }
      gone := SignalAndWait(pid, recorded, true, 5);
    }

    /** The part of `stop` that deals with a process found alive. */
    method StopProcess(pid: Pid, recorded: Option<string>) returns (o: Outcome, ghost psFailed: bool)
      requires Valid() && pidFile in {Holds(pid), NoPidFile} && recorded == Recorded(stateFile)
      requires !stateFile.Corrupt? && RecordedRight(procs, stateFile)
      modifies this`procs, this`tables, this`pidFile, this`socket, this`stateFile, this`signals, this`asked
      ensures Valid() && RecordedRight(procs, stateFile) && old(tables) <= tables
      ensures SignalledRight()
      ensures o == Returned ==> Gone() && pid !in procs
      ensures o == Raised(Mismatch) ==> signals == old(signals) && (pid !in procs || psFailed || NoneAlive(procs))
      ensures o == Raised(StillAlive) ==> pid in procs
      ensures pid in procs ==> Survived(procs[pid], recorded, psFailed, o)
      ensures pidFile == old(pidFile) || pidFile == NoPidFile
      ensures o.Raised? ==> o.error in {Mismatch, StillAlive}
    {
      psFailed := false;
      if recorded.Some? {
        var matches: bool;
        matches, psFailed := ProcessMatches(pid, recorded);
        if !matches {
          o := MarkError("pid does not match");
          return Raised(Mismatch), psFailed;
        }
      }
      var gone := TakeDown(pid, recorded);
      if gone {
        o := FinishStop();
      } else {
        o := MarkError("did not exit");
        o := Raised(StillAlive);
      }
    }

    method DoStop() returns (o: Outcome, ghost psFailed: bool)
      requires Valid() && RecordedRight(procs, stateFile)
      modifies this`procs, this`tables, this`pidFile, this`socket, this`stateFile, this`signals, this`asked
      ensures Valid() && RecordedRight(procs, stateFile) && old(tables) <= tables
      ensures SignalledRight()
      ensures o == Returned && directory ==> Gone()
      ensures !directory ==> o == Returned && stateFile == old(stateFile)
      ensures o == Raised(Mismatch) ==> signals == old(signals) && (NoneAlive(procs) || psFailed)
      ensures o == Raised(StillAlive) ==> old(pidFile).Holds? && old(pidFile).pid in procs
      ensures o.Raised? ==> o.error in {BadPidFile, BadStateFile, Mismatch, StillAlive}
      ensures old(pidFile).Holds? && old(pidFile).pid in procs && !old(stateFile).Corrupt? ==>
                Survived(procs[old(pidFile).pid], Recorded(old(stateFile)), psFailed, o)
    {
      psFailed := false;
      if !directory {
        return Returned, false;
      }
      var file := PidFromFile();
      if file.Err? {
        return Raised(file.error), false;
      }
      if file.value.None? {
        o := Mark(None, false, None);
        return o, false;
      }
      var pid := file.value.value;
      if stateFile.Corrupt? {
        return Raised(BadStateFile), false;
      }
      var alive := ProcessAlive(pid);
      if !alive {
        pidFile := NoPidFile;
        o := Mark(None, false, None);
        return o, false;
      }
      o, psFailed := StopProcess(pid, Recorded(stateFile));
    }

    // -------------------------------------------------------------- rebuild and whole runs

    /** The second round of `rebuild`: stop and start again. */
    method Restart() returns (o: Outcome, ghost psFailed: bool)
      requires Valid() && RecordedRight(procs, stateFile) && directory
      modifies this
      ensures Valid() && RecordedRight(procs, stateFile) && old(tables) <= tables && old(births) <= births
      ensures SignalledRight()
      ensures o == Returned ==>
                && launches == old(launches) + 1
                && (forall p :: p in procs && procs[p].ofVm ==> procs[p].birth >= old(births))
                && StartRecorded(procs, stateFile, psFailed)
      ensures o.Raised? ==> o.error != RebuildFailed
    {
      var stopped, _ := DoStop();
      if stopped.Raised? {
        return stopped, false;
      }
      o, psFailed := DoStart();
    }

    method DoRebuild(newDisk: bool, provision: bool) returns (o: Outcome, ghost psFailed: bool)
      requires Valid() && RecordedRight(procs, stateFile)
      modifies this
      ensures Valid() && RecordedRight(procs, stateFile) && old(tables) <= tables
      ensures SignalledRight()
      ensures o == Returned ==>
                && launches == old(launches) + (if newDisk && provision then 2 else 1)
                && (forall p :: p in procs && procs[p].ofVm ==> procs[p].birth >= old(births))
                && StartRecorded(procs, stateFile, psFailed)
      ensures o == Raised(RebuildFailed) ==>
                stateFile.Saved? && stateFile.state.lastError == Some("rebuild failed")
    {
      psFailed := false;
      if !directory {
        return Raised(NotConfigured), false;
      }
      var stopped, _ := DoStop();
      if stopped.Raised? {
        return stopped, false;
      }
      if newDisk {
        if * {
          return Raised(NotConfigured), false;
        }
      }
      o, psFailed := DoStart();
      if o.Raised? {
        return;
      }
      Elapse();
      if * {
        o := MarkError("rebuild failed");
        return if o.Raised? then o else Raised(RebuildFailed), psFailed;
      }
      if newDisk && provision {
        o, psFailed := Restart();
      }
    }

    /** Any sequence of calls, with exits at any moment and new programs between calls. At every call
        boundary, and in every table there was inside a call, at most one process of the VM is alive. */
    method Run(ops: seq<Op>) returns (outcomes: seq<Outcome>)
      requires Valid() && RecordedRight(procs, stateFile)
      modifies this
      ensures Valid() && RecordedRight(procs, stateFile)
      ensures old(tables) <= tables && tables[|tables| - 1] == procs && forall t <- tables :: |VmPids(t)| <= 1
      ensures SignalledRight() && |outcomes| == |ops|
    {
      outcomes := [];
      for i := 0 to |ops|
        invariant Valid() && RecordedRight(procs, stateFile) && old(tables) <= tables
        invariant SignalledRight() && |outcomes| == i
      {
        var o := Returned;
        match ops[i] {
          case Start =>
            var started, _ := DoStart();
            o := started;
          case Stop =>
            var stopped, _ := DoStop();
            o := stopped;
          case Rebuild(newDisk, provision) =>
            var rebuilt, _ := DoRebuild(newDisk, provision);
            o := rebuilt;
          case Idle(arrivals) => Meanwhile(arrivals);
        }
        outcomes := outcomes + [o];
      }
    }
  }
}
