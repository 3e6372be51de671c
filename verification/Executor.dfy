/** Running ordered features until the first failure (workspace/scripts/bootstrap_aux.py). */
module Executor {
  import opened Base
  import opened Installer
  import opened InstallOrder

  /** One command that was started for a feature, and whether it succeeded. */
  datatype Run = Run(id: string, step: nat, command: string, succeeded: bool)

  datatype AuxResult = AuxResult(id: string, success: bool)

  /** The commands of an action, by their targets. No handler, or an argument that the handler reads and the
      feature does not declare, raises. */
  function Commands(f: Feature): Option<seq<string>> {
    match f.action
    case "storage-configure" => if {"fast", "backup"} <= f.args then Some(["write-storage-locations"]) else None
    case "storage-mount-backup" => Some(["storage-mount"])
    case "storage-persist-backup" => Some(["storage-persist"])
    case "storage-provision-fast" => Some(["storage-provision DRY_RUN=1", "storage-provision"])
    case "storage-migrate" => Some(["storage-migrate"])
    case "install-diagnostics" => Some(["install-diagnostics"])
    case "install-agentci" => Some(["install-agentci", "verify-agentci", "install-moderator", "verify-moderator"])
    case "dataops-profiles" => if "profiles" in f.args then Some(["runtime-up"]) else None
    case _ => None
  }

  /** The registry knows exactly the actions that have a handler, and no handler is without commands. */
  lemma HandlersAreTheKnownActions(f: Feature)
    ensures Commands(f.(args := {"fast", "backup", "profiles"})).Some? <==> f.action in KNOWN_ACTIONS
    ensures Commands(f).Some? ==> f.action in KNOWN_ACTIONS && Commands(f).value != []
    ensures Commands(f).Some? <==>
            && f.action in KNOWN_ACTIONS
            && (f.action == "storage-configure" ==> "fast" in f.args && "backup" in f.args)
            && (f.action == "dataops-profiles" ==> "profiles" in f.args)
  {
  }

  // ---------------------------------------------------------------- what a run may look like

  /** The commands of `f` in order, up to the first that fails. */
  predicate Attempt(f: Feature, success: bool, runs: seq<Run>) {
    && Commands(f).Some?
    && |runs| <= |Commands(f).value|
    && (forall k :: 0 <= k < |runs| ==>
                      runs[k] == Run(f.id, k, Commands(f).value[k], success || k < |runs| - 1))
    && (success ==> |runs| == |Commands(f).value|)
  }

  /** Who may run what: a root feature outside root does nothing and fails; any other starts, and fails only
      by a command that failed. */
  predicate Fair(f: Feature, uid: int, success: bool, runs: seq<Run>) {
    if f.scope == RootScope && uid != 0 then !success && runs == []
    else runs != [] && (!success ==> !runs[|runs| - 1].succeeded)
  }

  /** `blocks[i]` holds the commands started for `list[i]`; only the last feature may have failed. */
  predicate Trace(list: seq<Feature>, results: seq<AuxResult>, blocks: seq<seq<Run>>) {
    && |blocks| == |results| <= |list|
    && (forall i :: 0 <= i < |results| ==> results[i].id == list[i].id)
    && (forall i :: 0 <= i < |results| ==> Attempt(list[i], results[i].success, blocks[i]))
    && (forall i :: 0 <= i < |results| - 1 ==> results[i].success)
  }

  function Flat(blocks: seq<seq<Run>>): seq<Run> {
    if blocks == [] then [] else Flat(blocks[..|blocks| - 1]) + blocks[|blocks| - 1]
  }

  lemma TraceGrows(
    list: seq<Feature>, results: seq<AuxResult>, blocks: seq<seq<Run>>, one: AuxResult, runs: seq<Run>)
    requires Trace(list, results, blocks) && |results| < |list| && forall x <- results :: x.success
    requires one.id == list[|results|].id && Attempt(list[|results|], one.success, runs)
    ensures Trace(list, results + [one], blocks + [runs])
    ensures Flat(blocks + [runs]) == Flat(blocks) + runs
  {
    assert (blocks + [runs])[..|blocks|] == blocks;
  }

  /** Every command of the feature has succeeded. */
  predicate Done(f: Feature, runs: seq<Run>) {
    && Commands(f).Some?
    && forall k :: 0 <= k < |Commands(f).value| ==> Run(f.id, k, Commands(f).value[k], true) in runs
  }

  predicate ReadyFor(f: Feature, features: seq<Feature>, selected: set<string>, runs: seq<Run>) {
    forall g <- features :: g.id in f.needs && g.id in selected ==> Done(g, runs)
  }

  /** No command starts before every command of every selected requirement has succeeded. */
  predicate Safe(runs: seq<Run>, features: seq<Feature>, selected: set<string>) {
    forall q :: 0 <= q < |runs| ==>
                  forall f <- features :: f.id == runs[q].id ==> ReadyFor(f, features, selected, runs[..q])
  }

  class Host {
    const uid: int
    const ownerKnown: bool
    var log: seq<Run>

    constructor (uid: int, ownerKnown: bool)
      ensures log == [] && this.uid == uid && this.ownerKnown == ownerKnown
    {
      this.uid, this.ownerKnown, log := uid, ownerKnown, [];
    }

    /** The commands cannot be built, or must run as an owner that cannot be found. */
    predicate Raises(f: Feature) {
      Commands(f).None? || (f.scope == AgentScope && uid == 0 && !ownerKnown)
    }

    method RunOne(f: Feature, step: nat, command: string) returns (ok: bool)
      modifies this
      ensures log == old(log) + [Run(f.id, step, command, ok)]
    {
      ok := *;
      log := log + [Run(f.id, step, command, ok)];
    }

    /** `run_feature`: no result means that it raised. A root action outside root fails without a command; any
        other runs its commands up to the first that fails, and fails only by one that did. */
    method RunFeature(f: Feature) returns (r: Option<AuxResult>, ghost runs: seq<Run>)
      modifies this
      ensures log == old(log) + runs
      ensures r.None? <==> Commands(f).None? || (f.scope == AgentScope && uid == 0 && !ownerKnown)
      ensures r.None? ==> runs == []
      ensures r.Some? ==> r.value.id == f.id && Attempt(f, r.value.success, runs)
      ensures r.Some? ==> Fair(f, uid, r.value.success, runs)
    {
      runs := [];
      var commands := Commands(f);
      if commands.None? {
        return None, runs;
      }
      if f.scope == RootScope && uid != 0 {
        return Some(AuxResult(f.id, false)), runs;
      }
      if f.scope == AgentScope && uid == 0 && !ownerKnown {
        return None, runs;
      }
      for k := 0 to |commands.value|
        invariant log == old(log) + runs
        invariant runs == seq(k, j requires 0 <= j < |commands.value| => Run(f.id, j, commands.value[j], true))
      {
        var ok := RunOne(f, k, commands.value[k]);
        runs := runs + [Run(f.id, k, commands.value[k], ok)];
        if !ok {
          return Some(AuxResult(f.id, false)), runs;
        }
      }
      HandlersAreTheKnownActions(f);
      r := Some(AuxResult(f.id, true));
    }

    /** `run_selected`: it stops at the first failure. A raise loses the results, not what has run. */
    method RunSelected(list: seq<Feature>)
      returns (results: seq<AuxResult>, raised: bool, ghost blocks: seq<seq<Run>>)
      modifies this
      ensures log == old(log) + Flat(blocks)
      ensures Trace(list, results, blocks)
      ensures forall i :: 0 <= i < |results| ==> Fair(list[i], uid, results[i].success, blocks[i])
      ensures forall i :: 0 <= i < |results| ==> !Raises(list[i])
      ensures raised ==> |results| < |list| && Raises(list[|results|]) && forall x <- results :: x.success
      ensures !raised && |results| < |list| ==> results != [] && !results[|results| - 1].success
    {
      results, blocks := [], [];
      for i := 0 to |list|
        invariant log == old(log) + Flat(blocks)
        invariant Trace(list, results, blocks) && |results| == i
        invariant forall x <- results :: x.success
        invariant forall k :: 0 <= k < i ==> Fair(list[k], uid, results[k].success, blocks[k])
        invariant forall k :: 0 <= k < i ==> !Raises(list[k])
      {
        var one, runs := RunFeature(list[i]);
        if one.None? {
          return results, true, blocks;
        }
        TraceGrows(list, results, blocks, one.value, runs);
        results, blocks := results + [one.value], blocks + [runs];
        if !one.value.success {
          return results, false, blocks;
        }
      }
      raised := false;
    }

    /** Orders the selected features and runs them. A circle of needs stops it before any command. */
    method Install(features: seq<Feature>, selected: set<string>) returns (r: Option<seq<AuxResult>>)
      requires ValidRegistry(features) && log == []
      modifies this
      ensures HasCycle(features, selected) ==> r.None? && log == []
      ensures Safe(log, features, selected)
      ensures r.Some? ==> exists list, blocks ::
                && IsSchedule(list, features, selected) && Trace(list, r.value, blocks) && log == Flat(blocks)
                && forall i :: 0 <= i < |r.value| ==> Fair(list[i], uid, r.value[i].success, blocks[i])
      ensures r.None? ==> HasCycle(features, selected) || exists f <- features :: f.id in selected && Raises(f)
      ensures r.Some? && (forall x <- r.value :: x.success) ==>
                forall f <- features :: f.id in selected ==> Done(f, log)
    {
      var list := OrderedFeatures(features, selected);
      if list.Err? {
        return None;
      }
      var results, raised, blocks := RunSelected(list.value);
      r := if raised then None else Some(results);
      assert log == Flat(blocks);
      if raised {
        assert list.value[|results|] in list.value;
      }
      RequirementsRunFirst(list.value, features, selected, results, blocks);
      if r.Some? && forall x <- r.value :: x.success {
        forall f <- features | f.id in selected ensures Done(f, log) {
          assert f in list.value;
          var i :| 0 <= i < |list.value| && list.value[i] == f;
          assert |results| > 0 ==> results[|results| - 1] in results;
          assert results[i] in results;
        }
      }
    }
  }

  // ---------------------------------------------------------------- the schedule at work

  lemma {:induction false} BlockInFlat(blocks: seq<seq<Run>>, i: nat)
    requires i < |blocks|
    ensures forall x <- blocks[i] :: x in Flat(blocks)
  {
    if i < |blocks| - 1 {
      assert blocks[..|blocks| - 1][i] == blocks[i];
      BlockInFlat(blocks[..|blocks| - 1], i);
    }
  }

  /** A feature that reported success has run all its commands. */
  lemma SuccessIsDone(list: seq<Feature>, results: seq<AuxResult>, blocks: seq<seq<Run>>, i: nat)
    requires Trace(list, results, blocks) && i < |results| && results[i].success
    ensures Done(list[i], Flat(blocks))
  {
    BlockInFlat(blocks, i);
    var f := list[i];
    forall k | 0 <= k < |Commands(f).value| ensures Run(f.id, k, Commands(f).value[k], true) in Flat(blocks) {
      assert blocks[i][k] == Run(f.id, k, Commands(f).value[k], true);
    }
  }

  /** In a schedule the selected requirements of the feature at `i` stand before it. */
  lemma RequirementStandsBefore(
    list: seq<Feature>, features: seq<Feature>, selected: set<string>, i: nat, g: Feature) returns (j: nat)
    requires DistinctIds(features) && IsSchedule(list, features, selected)
    requires i < |list| && g in features && g.id in list[i].needs && g.id in selected
    ensures j < i && list[j] == g
  {
    assert g.id in IdsOf(list[..i]);
    var h :| h in list[..i] && h.id == g.id;
    assert h in list;
    SameFeature(features, g, h);
    j :| 0 <= j < i && list[j] == h;
  }

  lemma ReadyBeforeBlock(
    list: seq<Feature>, features: seq<Feature>, selected: set<string>,
    results: seq<AuxResult>, blocks: seq<seq<Run>>, f: Feature)
    requires DistinctIds(features) && IsSchedule(list, features, selected)
    requires Trace(list, results, blocks) && |results| < |list|
    requires f in features && f.id == list[|results|].id
    requires forall r <- results :: r.success
    ensures ReadyFor(f, features, selected, Flat(blocks))
  {
    assert list[|results|] in list;
    SameFeature(features, f, list[|results|]);
    forall g <- features | g.id in f.needs && g.id in selected ensures Done(g, Flat(blocks)) {
      var j := RequirementStandsBefore(list, features, selected, |results|, g);
      assert results[j] in results;
      SuccessIsDone(list, results, blocks, j);
    }
  }

  /** Commands of one feature after runs that make it ready. */
  lemma SafeGrows(
    before: seq<Run>, block: seq<Run>, id: string, features: seq<Feature>, selected: set<string>)
    requires Safe(before, features, selected) && forall x <- block :: x.id == id
    requires forall f <- features :: f.id == id ==> ReadyFor(f, features, selected, before)
    ensures Safe(before + block, features, selected)
  {
    var runs := before + block;
    forall q | 0 <= q < |runs|
      ensures forall f <- features :: f.id == runs[q].id ==> ReadyFor(f, features, selected, runs[..q])
    {
      if q < |before| {
        assert runs[..q] == before[..q] && runs[q] == before[q];
      } else {
        assert runs[q] in block && runs[..q] == before + block[..q - |before|];
      }
    }
  }

  lemma TraceInit(list: seq<Feature>, results: seq<AuxResult>, blocks: seq<seq<Run>>)
    requires Trace(list, results, blocks) && blocks != []
    ensures var n := |blocks| - 1;
            && Trace(list, results[..n], blocks[..n]) && (forall r <- results[..n] :: r.success)
            && forall x <- blocks[n] :: x.id == list[n].id
  {
  }

  lemma LastBlockIsReady(
    list: seq<Feature>, features: seq<Feature>, selected: set<string>,
    results: seq<AuxResult>, blocks: seq<seq<Run>>)
    requires DistinctIds(features) && IsSchedule(list, features, selected)
    requires Trace(list, results, blocks) && |results| < |list| && forall r <- results :: r.success
    ensures forall f <- features :: f.id == list[|results|].id ==> ReadyFor(f, features, selected, Flat(blocks))
  {
    forall f <- features | f.id == list[|results|].id ensures ReadyFor(f, features, selected, Flat(blocks)) {
      ReadyBeforeBlock(list, features, selected, results, blocks, f);
    }
  }

  lemma {:induction false} RunsAreSafe(
    list: seq<Feature>, features: seq<Feature>, selected: set<string>,
    results: seq<AuxResult>, blocks: seq<seq<Run>>)
    requires DistinctIds(features) && IsSchedule(list, features, selected)
    requires Trace(list, results, blocks)
    ensures Safe(Flat(blocks), features, selected)
  {
    if blocks != [] {
      var n := |blocks| - 1;
      TraceInit(list, results, blocks);
      var some, before := results[..n], blocks[..n];
      RunsAreSafe(list, features, selected, some, before);
      LastBlockIsReady(list, features, selected, some, before);
      SafeGrows(Flat(before), blocks[n], list[n].id, features, selected);
    }
  }

  /** Running a schedule: a feature that reported success has run all its commands, and no command starts
      before every selected requirement of its feature is done. */
  lemma RequirementsRunFirst(
    list: seq<Feature>, features: seq<Feature>, selected: set<string>,
    results: seq<AuxResult>, blocks: seq<seq<Run>>)
    requires DistinctIds(features) && IsSchedule(list, features, selected)
    requires Trace(list, results, blocks)
    ensures Safe(Flat(blocks), features, selected)
    ensures forall i :: 0 <= i < |results| && results[i].success ==> Done(list[i], Flat(blocks))
  {
    RunsAreSafe(list, features, selected, results, blocks);
    forall i | 0 <= i < |results| && results[i].success ensures Done(list[i], Flat(blocks)) {
      SuccessIsDone(list, results, blocks, i);
    }
  }

  /** What a report proves: a result for a feature stands behind a success for each selected requirement. */
  lemma RequirementsReportFirst(
    list: seq<Feature>, features: seq<Feature>, selected: set<string>,
    results: seq<AuxResult>, blocks: seq<seq<Run>>, i: nat, g: Feature)
    requires DistinctIds(features) && IsSchedule(list, features, selected)
    requires Trace(list, results, blocks) && i < |results|
    requires g in features && g.id in list[i].needs && g.id in selected
    ensures exists j :: 0 <= j < i && results[j] == AuxResult(g.id, true)
  {
    var j := RequirementStandsBefore(list, features, selected, i, g);
    assert results[j] == AuxResult(g.id, true);
  }

  /** Nothing is provisioned before its dry run has succeeded, and nothing is verified before it has been
      installed. */
  predicate AfterItsGuard(runs: seq<Run>, q: nat)
    requires q < |runs|
  {
    && (runs[q].command == "storage-provision" ==> q > 0 && Guards(runs[q - 1], runs[q], "storage-provision DRY_RUN=1"))
    && (runs[q].command == "verify-agentci" ==> q > 0 && Guards(runs[q - 1], runs[q], "install-agentci"))
    && (runs[q].command == "verify-moderator" ==> q > 0 && Guards(runs[q - 1], runs[q], "install-moderator"))
  }

  predicate Guards(guard: Run, guarded: Run, command: string) {
    guard.id == guarded.id && guard.command == command && guard.succeeded
  }

  lemma GuardsInAttempt(f: Feature, success: bool, runs: seq<Run>, q: nat)
    requires Attempt(f, success, runs) && q < |runs|
    ensures AfterItsGuard(runs, q)
  {
    var commands := Commands(f).value;
    assert runs[q].command == commands[q];
    if q > 0 {
      assert runs[q - 1].command == commands[q - 1];
    }
  }

  /** Over a whole run of features. */
  lemma {:induction false} GuardsRunFirst(
    list: seq<Feature>, results: seq<AuxResult>, blocks: seq<seq<Run>>, q: nat)
    requires Trace(list, results, blocks) && q < |Flat(blocks)|
    ensures AfterItsGuard(Flat(blocks), q)
  {
    var n := |blocks| - 1;
    TraceInit(list, results, blocks);
    var before, block := Flat(blocks[..n]), blocks[n];
    if q < |before| {
      GuardsRunFirst(list, results[..n], blocks[..n], q);
    } else {
      GuardsInAttempt(list[n], results[n].success, block, q - |before|);
      assert Flat(blocks)[q] == block[q - |before|];
      if q > |before| {
        assert Flat(blocks)[q - 1] == block[q - 1 - |before|];
      }
    }
  }
}
