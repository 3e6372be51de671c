/** Dependency-safe order of auxiliary features (workspace/scripts/bootstrap_aux_defs.py). */
module Installer {
  import opened Base
  import opened Sorting

  datatype Scope = AgentScope | RootScope

  datatype Feature = Feature(
    id: string, group: string, scope: Scope, action: string, args: set<string>, order: int, needs: seq<string>)

  datatype RegistryError = DuplicateId(id: string) | UnknownAction(action: string) | UnknownDependency(id: string)

  const KNOWN_ACTIONS := {
    "storage-configure", "storage-mount-backup", "storage-persist-backup", "storage-provision-fast",
    "storage-migrate", "install-diagnostics", "install-agentci", "dataops-profiles"
  }

  // ---------------------------------------------------------------- the registry

  function IdsOf(features: seq<Feature>): set<string> {
    set f <- features :: f.id
  }

  predicate DistinctIds(features: seq<Feature>) {
    forall i, j :: 0 <= i < j < |features| ==> features[i].id != features[j].id
  }

  predicate ValidRegistry(features: seq<Feature>) {
    && DistinctIds(features)
    && (forall f <- features :: f.action in KNOWN_ACTIONS)
    && (forall f <- features :: forall d <- f.needs :: d in IdsOf(features))
  }

  /** The error names what is wrong with the registry. */
  predicate Justified(error: RegistryError, features: seq<Feature>) {
    match error
    case DuplicateId(id) => !DistinctIds(features) && id in IdsOf(features)
    case UnknownAction(action) => action !in KNOWN_ACTIONS && exists f <- features :: f.action == action
    case UnknownDependency(id) => id !in IdsOf(features) && exists f <- features :: id in f.needs
  }

  /** `_validate_registry`: accepts exactly the valid registries. */
  method ValidateRegistry(features: seq<Feature>) returns (error: Option<RegistryError>)
    ensures error.None? <==> ValidRegistry(features)
    ensures error.Some? ==> Justified(error.value, features)
  {
    var seen: set<string> := {};
    for i := 0 to |features|
      invariant seen == IdsOf(features[..i])
      invariant DistinctIds(features[..i])
      invariant forall f <- features[..i] :: f.action in KNOWN_ACTIONS
    {
      var f := features[i];
      if f.id in seen {
        ghost var g :| g in features[..i] && g.id == f.id;
        ghost var k :| 0 <= k < i && features[k] == g;
        assert f in features;
        return Some(DuplicateId(f.id));
      }
      assert features[..i + 1] == features[..i] + [f];
      IdsGrow(features[..i], f);
      seen := seen + {f.id};
      if f.action !in KNOWN_ACTIONS {
        assert f in features;
        return Some(UnknownAction(f.action));
      }
    }
    assert features[..|features|] == features;
    for i := 0 to |features|
      invariant forall k :: 0 <= k < i ==> forall d <- features[k].needs :: d in seen
    {
      var needs := features[i].needs;
      for k := 0 to |needs|
        invariant forall j :: 0 <= j < k ==> needs[j] in seen
      {
        if needs[k] !in seen {
          assert features[i] in features;
          return Some(UnknownDependency(needs[k]));
        }
      }
    }
    error := None;
  }

  lemma IdsGrow(features: seq<Feature>, f: Feature)
    ensures IdsOf(features + [f]) == IdsOf(features) + {f.id}
    ensures DistinctIds(features) && f.id !in IdsOf(features) ==> DistinctIds(features + [f])
  {
    var longer := features + [f];
    assert f in longer;
    forall id | id in IdsOf(features) ensures id in IdsOf(longer) {
      var g :| g in features && g.id == id;
      assert g in longer;
    }
    if DistinctIds(features) && f.id !in IdsOf(features) {
      forall i, j | 0 <= i < j < |longer| ensures longer[i].id != longer[j].id {
        assert longer[i] in features;
      }
    }
  }

  // ---------------------------------------------------------------- the order of the registry

  /** Code-point order of strings. */
  predicate TextLe(a: string, b: string) {
    a == "" || (b != "" && (a[0] < b[0] || (a[0] == b[0] && TextLe(a[1..], b[1..]))))
  }

  /** One text is a prefix of the other, or at the first difference its character comes first. */
  predicate ComesFirst(a: string, b: string, k: nat) {
    && k <= |a| && k <= |b| && a[..k] == b[..k]
    && (k == |a| || (k < |b| && a[k] < b[k]))
  }

  lemma {:induction false} TextLeIsLexicographic(a: string, b: string)
    ensures TextLe(a, b) <==> exists k: nat :: ComesFirst(a, b, k)
  {
    if a == "" {
      assert ComesFirst(a, b, 0);
    } else if b != "" {
      if a[0] < b[0] {
        assert ComesFirst(a, b, 0);
      } else if a[0] == b[0] {
        TextLeIsLexicographic(a[1..], b[1..]);
        if k: nat :| ComesFirst(a[1..], b[1..], k) {
          assert a[..k + 1] == [a[0]] + a[1..][..k] && b[..k + 1] == [b[0]] + b[1..][..k];
          assert ComesFirst(a, b, k + 1);
        }
        if k: nat :| ComesFirst(a, b, k) {
          assert k > 0;
          assert a[1..][..k - 1] == a[..k][1..] && b[1..][..k - 1] == b[..k][1..];
          assert ComesFirst(a[1..], b[1..], k - 1);
        }
      } else {
        forall k: nat ensures !ComesFirst(a, b, k) {
          if k > 0 && k <= |a| && k <= |b| {
            assert a[..k][0] != b[..k][0];
          }
        }
      }
    }
  }

  predicate FeatureLe(a: Feature, b: Feature) {
    a.order < b.order || (a.order == b.order && TextLe(a.id, b.id))
  }

  lemma {:induction false} TextLeIsTotal(a: string, b: string)
    ensures TextLe(a, b) || TextLe(b, a)
  {
    if a != "" && b != "" && a[0] == b[0] {
      TextLeIsTotal(a[1..], b[1..]);
    }
  }

  lemma {:induction false} TextLeIsTransitive(a: string, b: string, c: string)
    requires TextLe(a, b) && TextLe(b, c)
    ensures TextLe(a, c)
  {
    if a != "" && a[0] == b[0] == c[0] {
      TextLeIsTransitive(a[1..], b[1..], c[1..]);
    }
  }

  lemma FeatureLeIsTotalOrder()
    ensures TotalOrder(FeatureLe)
  {
    forall a: Feature, b: Feature ensures FeatureLe(a, b) || FeatureLe(b, a) {
      TextLeIsTotal(a.id, b.id);
    }
    forall a: Feature, b: Feature, c: Feature | FeatureLe(a, b) && FeatureLe(b, c)
      ensures FeatureLe(a, c)
    {
      if a.order == b.order == c.order {
        TextLeIsTransitive(a.id, b.id, c.id);
      }
    }
  }

  /** The selected features, sorted by order and then by id. */
  function Sorted(features: seq<Feature>, selected: set<string>): seq<Feature> {
    Chosen(StableSort(features, FeatureLe), selected)
  }

  function Chosen(features: seq<Feature>, selected: set<string>): seq<Feature> {
    if features == [] then []
    else (if features[0].id in selected then [features[0]] else []) + Chosen(features[1..], selected)
  }

  // ---------------------------------------------------------------- what the order must be

  /** Every requirement that is selected stands before the feature that needs it. */
  predicate Respects(list: seq<Feature>, selected: set<string>) {
    forall i :: 0 <= i < |list| ==>
                  forall d <- list[i].needs :: d in selected ==> d in IdsOf(list[..i])
  }

  /** The registry features with a selected id. */
  ghost predicate Covers(list: seq<Feature>, features: seq<Feature>, selected: set<string>) {
    && DistinctIds(list)
    && (forall f :: f in list <==> f in features && f.id in selected)
  }

  ghost predicate IsSchedule(list: seq<Feature>, features: seq<Feature>, selected: set<string>) {
    Covers(list, features, selected) && Respects(list, selected)
  }

  /** Each feature of the walk is selected and needs the next one. */
  ghost predicate NeedsWalk(walk: seq<Feature>, features: seq<Feature>, selected: set<string>) {
    && (forall f <- walk :: f in features && f.id in selected)
    && (forall i :: 0 <= i < |walk| - 1 ==> walk[i + 1].id in walk[i].needs)
  }

  /** The selected features need each other in a circle. */
  ghost predicate HasCycle(features: seq<Feature>, selected: set<string>) {
    exists walk: seq<Feature> ::
      NeedsWalk(walk, features, selected) && |walk| >= 2 && walk[0] == walk[|walk| - 1]
  }

  function IndexOf(list: seq<Feature>, f: Feature): (index: nat)
    requires f in list
    ensures index < |list| && list[index] == f
  {
    if list[0] == f then 0 else 1 + IndexOf(list[1..], f)
  }

  lemma NeedsComesEarlier(
    list: seq<Feature>, features: seq<Feature>, selected: set<string>, f: Feature, g: Feature)
    requires DistinctIds(features) && IsSchedule(list, features, selected)
    requires f in list && g in list && g.id in f.needs
    ensures IndexOf(list, g) < IndexOf(list, f)
  {
    var i := IndexOf(list, f);
    assert g.id in IdsOf(list[..i]);
    var h :| h in list[..i] && h.id == g.id;
    var k :| 0 <= k < i && list[k] == h;
    var j := IndexOf(list, g);
    assert list[j].id == list[k].id;
  }

  lemma WalkTail(walk: seq<Feature>, features: seq<Feature>, selected: set<string>)
    requires NeedsWalk(walk, features, selected) && |walk| >= 2
    ensures NeedsWalk(walk[1..], features, selected) && walk[1].id in walk[0].needs
  {
    var tail := walk[1..];
    forall i | 0 <= i < |tail| - 1 ensures tail[i + 1].id in tail[i].needs {
      assert tail[i] == walk[i + 1] && tail[i + 1] == walk[i + 2];
    }
  }

  lemma WalkIsListed(
    list: seq<Feature>, features: seq<Feature>, selected: set<string>, walk: seq<Feature>)
    requires Covers(list, features, selected) && NeedsWalk(walk, features, selected)
    ensures forall k :: 0 <= k < |walk| ==> walk[k] in list
  {
    forall k | 0 <= k < |walk| ensures walk[k] in list {
      assert walk[k] in walk;
    }
  }

  lemma {:induction false} WalkDescends(
    list: seq<Feature>, features: seq<Feature>, selected: set<string>, walk: seq<Feature>)
    requires DistinctIds(features) && IsSchedule(list, features, selected)
    requires NeedsWalk(walk, features, selected) && |walk| >= 2
    ensures walk[0] in list && walk[|walk| - 1] in list
    ensures IndexOf(list, walk[|walk| - 1]) < IndexOf(list, walk[0])
  {
    WalkIsListed(list, features, selected, walk);
    WalkTail(walk, features, selected);
    NeedsComesEarlier(list, features, selected, walk[0], walk[1]);
    if |walk| > 2 {
      WalkDescends(list, features, selected, walk[1..]);
    }
  }

  /** A schedule exists only without a cycle. */
  lemma ScheduleMeansNoCycle(list: seq<Feature>, features: seq<Feature>, selected: set<string>)
    requires DistinctIds(features) && IsSchedule(list, features, selected)
    ensures !HasCycle(features, selected)
  {
    forall walk: seq<Feature> | NeedsWalk(walk, features, selected) && |walk| >= 2
      ensures walk[0] != walk[|walk| - 1]
    {
      WalkDescends(list, features, selected, walk);
    }
  }
}
