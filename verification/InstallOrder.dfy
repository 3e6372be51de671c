/** The depth-first order of selected features: `ordered_features`
    (workspace/scripts/bootstrap_aux_defs.py). */
module InstallOrder {
  import opened Base
  import opened Sorting
  import opened Installer

  /** What the visits so far have placed, and that it only grows in order. */
  ghost predicate Placed(result: seq<Feature>, features: seq<Feature>, selected: set<string>) {
    && DistinctIds(result)
    && (forall f <- result :: f in features && f.id in selected)
    && Respects(result, selected)
  }

  /** An id names one feature of a registry. */
  lemma SameFeature(features: seq<Feature>, f: Feature, g: Feature)
    requires DistinctIds(features) && f in features && g in features && f.id == g.id
    ensures f == g
  {
    var a :| 0 <= a < |features| && features[a] == f;
    var b :| 0 <= b < |features| && features[b] == g;
    assert a == b;
  }

  /** Everything selected that `f` needs has been placed. */
  predicate Ready(f: Feature, selected: set<string>, result: seq<Feature>) {
    forall d <- f.needs :: d in selected ==> d in IdsOf(result)
  }

  /** Placing a feature whose requirements are placed keeps the order. */
  lemma PlacedGrows(result: seq<Feature>, features: seq<Feature>, selected: set<string>, f: Feature)
    requires Placed(result, features, selected) && f in features && f.id in selected
    requires f.id !in IdsOf(result) && Ready(f, selected, result)
    ensures Placed(result + [f], features, selected)
  {
    IdsGrow(result, f);
    var longer := result + [f];
    forall i | 0 <= i < |longer|
      ensures forall d <- longer[i].needs :: d in selected ==> d in IdsOf(longer[..i])
    {
      if i < |result| {
        assert longer[i] == result[i] && longer[..i] == result[..i];
      } else {
        assert longer[i] == f && longer[..i] == result;
      }
    }
  }

  lemma IdsExtend(result: seq<Feature>, longer: seq<Feature>)
    requires result <= longer
    ensures IdsOf(result) <= IdsOf(longer)
  {
    forall id | id in IdsOf(result) ensures id in IdsOf(longer) {
      var f :| f in result && f.id == id;
      assert f in longer;
    }
  }

  /** The features being visited form a walk of needs that ends at the one visited now. */
  ghost predicate OnStack(
    stack: seq<Feature>, visiting: set<string>, features: seq<Feature>, selected: set<string>)
  {
    NeedsWalk(stack, features, selected) && visiting == IdsOf(stack)
  }

  lemma StackGrows(
    stack: seq<Feature>, visiting: set<string>, features: seq<Feature>, selected: set<string>, f: Feature)
    requires OnStack(stack, visiting, features, selected) && f in features && f.id in selected
    requires stack != [] ==> f.id in stack[|stack| - 1].needs
    ensures OnStack(stack + [f], visiting + {f.id}, features, selected)
  {
    IdsGrow(stack, f);
  }

  /** Meeting a feature that is being visited closes a circle of needs. */
  lemma StackCloses(
    stack: seq<Feature>, visiting: set<string>, features: seq<Feature>, selected: set<string>, f: Feature)
    requires DistinctIds(features) && OnStack(stack, visiting, features, selected)
    requires f in features && f.id in selected && f.id in visiting
    requires stack != [] ==> f.id in stack[|stack| - 1].needs
    ensures HasCycle(features, selected)
  {
    var g :| g in stack && g.id == f.id;
    SameFeature(features, f, g);
    var i :| 0 <= i < |stack| && stack[i] == f;
    var walk := stack[i..] + [f];
    forall k | 0 <= k < |walk| - 1 ensures walk[k + 1].id in walk[k].needs {
      assert walk[k] == stack[i + k];
      if k + 1 < |stack| - i {
        assert walk[k + 1] == stack[i + k + 1];
      }
    }
    forall x <- walk ensures x in features && x.id in selected {
      assert x in stack || x == f;
    }
    assert NeedsWalk(walk, features, selected) && walk[0] == walk[|walk| - 1];
  }

  ghost predicate Indexes(byId: map<string, Feature>, features: seq<Feature>) {
    && byId.Keys == IdsOf(features)
    && (forall id <- byId :: byId[id] in features && byId[id].id == id)
  }

  class Sorter {
    const features: seq<Feature>
    const byId: map<string, Feature>
    const selected: set<string>
    var result: seq<Feature>
    var visiting: set<string>

    ghost predicate Valid()
      reads this
    {
      && ValidRegistry(features)
      && Indexes(byId, features)
      && Placed(result, features, selected)
      && IdsOf(result) !! visiting
      && visiting <= byId.Keys
    }

    constructor (features: seq<Feature>, selected: set<string>)
      requires ValidRegistry(features)
      ensures Valid() && result == [] && visiting == {}
      ensures this.features == features && this.selected == selected
    {
      this.features, this.selected := features, selected;
      byId := ById(features);
      result, visiting := [], {};
      new;
      ByIdFinds(features);
    }

    /** Places a feature after everything it needs; gives the id at which it met a circle. */
    method Visit(f: Feature, ghost stack: seq<Feature>) returns (cycle: Option<string>)
      requires Valid() && f in features && f.id in selected
      requires OnStack(stack, visiting, features, selected)
      requires stack != [] ==> f.id in stack[|stack| - 1].needs
      modifies this`result, this`visiting
      ensures cycle.Some? ==> HasCycle(features, selected)
      ensures cycle.None? ==>
                && Valid() && visiting == old(visiting)
                && old(result) <= result && f.id in IdsOf(result)
      ensures cycle.None? && f.id in IdsOf(old(result)) ==> result == old(result)
      ensures cycle.None? && f.id !in IdsOf(old(result)) && Ready(f, selected, old(result)) ==>
                result == old(result) + [f]
      decreases byId.Keys - visiting, 0
    {
      if f.id in visiting {
        StackCloses(stack, visiting, features, selected, f);
        return Some(f.id);
      }
      if exists item <- result :: item.id == f.id {
        return None;
      }
      assert f.id !in IdsOf(result);
      StackGrows(stack, visiting, features, selected, f);
      assert f.id in IdsOf(features);
      visiting := visiting + {f.id};
      cycle := VisitNeeds(f, stack + [f]);
      if cycle.Some? {
        return;
      }
      Place(f);
      cycle := None;
    }

    /** The loop of `Visit` over what `f` needs. */
    method VisitNeeds(f: Feature, ghost stack: seq<Feature>) returns (cycle: Option<string>)
      requires Valid() && f in features && f.id in selected
      requires OnStack(stack, visiting, features, selected) && stack != [] && stack[|stack| - 1] == f
      modifies this`result, this`visiting
      ensures cycle.Some? ==> HasCycle(features, selected)
      ensures cycle.None? ==>
                && Valid() && visiting == old(visiting)
                && old(result) <= result && Ready(f, selected, result)
      ensures cycle.None? && Ready(f, selected, old(result)) ==> result == old(result)
      decreases byId.Keys - visiting, 1
    {
      for k := 0 to |f.needs|
        invariant Valid() && visiting == old(visiting) && old(result) <= result
        invariant forall j :: 0 <= j < k && f.needs[j] in selected ==> f.needs[j] in IdsOf(result)
        invariant Ready(f, selected, old(result)) ==> result == old(result)
      {
        var dep := f.needs[k];
        if dep in selected {
          assert dep in IdsOf(features);
          ghost var before := result;
          cycle := Visit(byId[dep], stack);
          if cycle.Some? {
            return;
          }
          IdsExtend(before, result);
        }
      }
      cycle := None;
    }

    method Place(f: Feature)
      requires Valid() && f in features && f.id in selected && f.id in visiting
      requires Ready(f, selected, result)
      modifies this`result, this`visiting
      ensures Valid() && visiting == old(visiting) - {f.id} && result == old(result) + [f]
      ensures f.id in IdsOf(result)
    {
      PlacedGrows(result, features, selected, f);
      IdsGrow(result, f);
      visiting := visiting - {f.id};
      result := result + [f];
    }
  }

  function ById(features: seq<Feature>): map<string, Feature> {
    if features == [] then map[]
    else ById(features[..|features| - 1])[features[|features| - 1].id := features[|features| - 1]]
  }

  lemma {:induction false} ByIdFinds(features: seq<Feature>)
    ensures Indexes(ById(features), features)
  {
    if features != [] {
      var init, last := features[..|features| - 1], features[|features| - 1];
      ByIdFinds(init);
      assert features == init + [last];
      IdsGrow(init, last);
    }
  }

  lemma {:induction false} ChosenMembers(list: seq<Feature>, selected: set<string>)
    ensures forall f :: f in Chosen(list, selected) <==> f in list && f.id in selected
  {
    if list != [] {
      ChosenMembers(list[1..], selected);
      assert list == [list[0]] + list[1..];
    }
  }

  lemma {:induction false} ChosenConcat(a: seq<Feature>, b: seq<Feature>, selected: set<string>)
    ensures Chosen(a + b, selected) == Chosen(a, selected) + Chosen(b, selected)
  {
    if a == [] {
      assert a + b == b;
    } else {
      ChosenConcat(a[1..], b, selected);
      assert (a + b)[1..] == a[1..] + b;
      var first := if a[0].id in selected then [a[0]] else [];
      assert first + (Chosen(a[1..], selected) + Chosen(b, selected))
          == (first + Chosen(a[1..], selected)) + Chosen(b, selected);
    }
  }

  lemma ChosenStep(ranked: seq<Feature>, i: nat, selected: set<string>)
    requires i < |ranked|
    ensures Chosen(ranked[..i + 1], selected)
            == Chosen(ranked[..i], selected) + if ranked[i].id in selected then [ranked[i]] else []
    ensures Chosen(ranked[..i + 1], selected) <= Chosen(ranked, selected)
  {
    assert ranked[..i + 1] == ranked[..i] + [ranked[i]];
    ChosenConcat(ranked[..i], [ranked[i]], selected);
    assert [ranked[i]][1..] == [];
    assert Chosen([ranked[i]], selected)
        == (if ranked[i].id in selected then [ranked[i]] else []) + Chosen([], selected);
    assert ranked == ranked[..i + 1] + ranked[i + 1..];
    ChosenConcat(ranked[..i + 1], ranked[i + 1..], selected);
  }

  lemma {:induction false} OnceEach(features: seq<Feature>, f: Feature)
    requires DistinctIds(features)
    ensures multiset(features)[f] <= 1
  {
    if features != [] {
      var init, last := features[..|features| - 1], features[|features| - 1];
      assert features == init + [last];
      OnceEach(init, f);
      assert last !in init by {
        forall g <- init ensures g.id != last.id {
          var i :| 0 <= i < |init| && init[i] == g;
          assert features[i] == g;
        }
      }
    }
  }

  lemma TwoPlaces(s: seq<Feature>, i: nat, j: nat)
    requires i < j < |s| && s[i] == s[j]
    ensures multiset(s)[s[i]] >= 2
  {
    assert s == s[..j] + [s[j]] + s[j + 1..];
    assert s[i] in s[..j];
  }

  /** Sorting keeps ids apart. */
  lemma RankedIsDistinct(features: seq<Feature>, ranked: seq<Feature>)
    requires DistinctIds(features) && multiset(ranked) == multiset(features)
    ensures DistinctIds(ranked)
    ensures forall f :: f in ranked <==> f in features
  {
    forall f ensures f in ranked <==> f in features {
      assert f in multiset(ranked) <==> f in multiset(features);
    }
    forall i, j | 0 <= i < j < |ranked| ensures ranked[i].id != ranked[j].id {
      if ranked[i].id == ranked[j].id {
        assert ranked[i] in ranked && ranked[j] in ranked;
        SameFeature(features, ranked[i], ranked[j]);
        TwoPlaces(ranked, i, j);
        OnceEach(features, ranked[i]);
        assert false;
      }
    }
  }

  /** In a respectful list the next feature has everything it needs before it. */
  lemma NextIsReady(ranked: seq<Feature>, i: nat, selected: set<string>)
    requires i < |ranked| && ranked[i].id in selected
    requires DistinctIds(ranked) && Respects(Chosen(ranked, selected), selected)
    ensures var before := Chosen(ranked[..i], selected);
            && ranked[i].id !in IdsOf(before)
            && Ready(ranked[i], selected, before)
  {
    var before, all := Chosen(ranked[..i], selected), Chosen(ranked, selected);
    ChosenStep(ranked, i, selected);
    assert all[..|before|] == before && all[|before|] == ranked[i];
    ChosenMembers(ranked[..i], selected);
    forall f <- before ensures f.id != ranked[i].id {
      var k :| 0 <= k < i && ranked[k] == f;
    }
  }

  /** The first `i` features of the ranking are placed where they are selected, and in their order if that
      is safe. */
  ghost predicate PlacedUpTo(ranked: seq<Feature>, i: nat, result: seq<Feature>, selected: set<string>) {
    && i <= |ranked|
    && (forall k :: 0 <= k < i && ranked[k].id in selected ==> ranked[k].id in IdsOf(result))
    && (Respects(Chosen(ranked, selected), selected) ==> result == Chosen(ranked[..i], selected))
  }

  lemma UnselectedIsPassed(ranked: seq<Feature>, i: nat, result: seq<Feature>, selected: set<string>)
    requires i < |ranked| && PlacedUpTo(ranked, i, result, selected) && ranked[i].id !in selected
    ensures PlacedUpTo(ranked, i + 1, result, selected)
  {
    ChosenStep(ranked, i, selected);
    assert Chosen(ranked[..i], selected) + [] == Chosen(ranked[..i], selected);
  }

  lemma SelectedIsPlaced(
    ranked: seq<Feature>, i: nat, before: seq<Feature>, result: seq<Feature>, selected: set<string>)
    requires i < |ranked| && PlacedUpTo(ranked, i, before, selected) && ranked[i].id in selected
    requires before <= result && ranked[i].id in IdsOf(result)
    requires Respects(Chosen(ranked, selected), selected) ==> result == before + [ranked[i]]
    ensures PlacedUpTo(ranked, i + 1, result, selected)
  {
    IdsExtend(before, result);
    ChosenStep(ranked, i, selected);
  }

  /** In a safe ranking the next feature finds all it needs, and is not there yet. */
  lemma NextIsReadyNow(ranked: seq<Feature>, i: nat, result: seq<Feature>, selected: set<string>)
    requires i < |ranked| && PlacedUpTo(ranked, i, result, selected) && ranked[i].id in selected
    requires DistinctIds(ranked)
    ensures Respects(Chosen(ranked, selected), selected) ==>
              ranked[i].id !in IdsOf(result) && Ready(ranked[i], selected, result)
  {
    if Respects(Chosen(ranked, selected), selected) {
      NextIsReady(ranked, i, selected);
    }
  }

  /** The selected features in a dependency-safe order. It fails exactly when they need each other in a
      circle, and it leaves the sorted order alone whenever that is already safe. */
  method OrderedFeatures(features: seq<Feature>, selected: set<string>) returns (r: Result<seq<Feature>, string>)
    requires ValidRegistry(features)
    ensures r.Err? <==> HasCycle(features, selected)
    ensures r.Ok? ==> IsSchedule(r.value, features, selected)
    ensures Respects(Sorted(features, selected), selected) ==> r == Ok(Sorted(features, selected))
  {
    var sorter := new Sorter(features, selected);
    var ranked := StableSort(features, FeatureLe);
    RankingIsSound(features, ranked);
    for i := 0 to |ranked|
      invariant sorter.Valid() && sorter.visiting == {} && PlacedUpTo(ranked, i, sorter.result, selected)
    {
      if ranked[i].id in selected {
        NextIsReadyNow(ranked, i, sorter.result, selected);
        assert ranked[i] in ranked;
        ghost var before := sorter.result;
        var cycle := sorter.Visit(ranked[i], []);
        if cycle.Some? {
          r := Err(cycle.value);
          SortedCycle(features, selected, ranked);
          return;
        }
        SelectedIsPlaced(ranked, i, before, sorter.result, selected);
      } else {
        UnselectedIsPassed(ranked, i, sorter.result, selected);
      }
    }
    assert ranked[..|ranked|] == ranked;
    AllPlaced(features, selected, ranked, sorter.result);
    ScheduleMeansNoCycle(sorter.result, features, selected);
    r := Ok(sorter.result);
  }

  lemma RankingIsSound(features: seq<Feature>, ranked: seq<Feature>)
    requires DistinctIds(features) && ranked == StableSort(features, FeatureLe)
    ensures DistinctIds(ranked) && forall f :: f in ranked <==> f in features
  {
    FeatureLeIsTotalOrder();
    StableSortSorts(features, FeatureLe);
    RankedIsDistinct(features, ranked);
  }

  /** With a cycle the sorted list cannot be safe. */
  lemma SortedCycle(features: seq<Feature>, selected: set<string>, ranked: seq<Feature>)
    requires DistinctIds(features) && DistinctIds(ranked) && HasCycle(features, selected)
    requires forall f :: f in ranked <==> f in features
    ensures !Respects(Chosen(ranked, selected), selected)
  {
    if Respects(Chosen(ranked, selected), selected) {
      ChosenMembers(ranked, selected);
      ChosenDistinct(ranked, selected);
      ScheduleMeansNoCycle(Chosen(ranked, selected), features, selected);
      assert false;
    }
  }

  lemma {:induction false} ChosenDistinct(list: seq<Feature>, selected: set<string>)
    requires DistinctIds(list)
    ensures DistinctIds(Chosen(list, selected))
  {
    if list != [] {
      ChosenDistinct(list[1..], selected);
      ChosenMembers(list[1..], selected);
      var rest := Chosen(list[1..], selected);
      forall f <- rest ensures f.id != list[0].id {
        var k :| 0 <= k < |list[1..]| && list[1..][k] == f;
        assert list[k + 1] == f;
      }
    }
  }

  lemma AllPlaced(features: seq<Feature>, selected: set<string>, ranked: seq<Feature>, result: seq<Feature>)
    requires DistinctIds(features) && Placed(result, features, selected)
    requires forall f :: f in ranked <==> f in features
    requires forall k :: 0 <= k < |ranked| && ranked[k].id in selected ==> ranked[k].id in IdsOf(result)
    ensures IsSchedule(result, features, selected)
  {
    forall f | f in features && f.id in selected ensures f in result {
      var k :| 0 <= k < |ranked| && ranked[k] == f;
      var g :| g in result && g.id == f.id;
      SameFeature(features, f, g);
    }
  }

  lemma {:induction false} ChosenAscends(list: seq<Feature>, selected: set<string>)
    requires SortedBy(list, FeatureLe)
    ensures SortedBy(Chosen(list, selected), FeatureLe)
  {
    if list != [] {
      ChosenAscends(list[1..], selected);
      ChosenMembers(list[1..], selected);
      var rest := Chosen(list[1..], selected);
      forall f <- rest ensures FeatureLe(list[0], f) {
        var k :| 0 <= k < |list[1..]| && list[1..][k] == f;
        assert list[k + 1] == f;
      }
    }
  }

  /** The sorted list goes up by order, and by id where orders are equal, and holds the selected features. */
  lemma SortedAscends(features: seq<Feature>, selected: set<string>)
    ensures forall f :: f in Sorted(features, selected) <==> f in features && f.id in selected
    ensures var list := Sorted(features, selected);
            forall i, j :: 0 <= i < j < |list| ==>
                             || list[i].order < list[j].order
                             || (list[i].order == list[j].order && TextLe(list[i].id, list[j].id))
  {
    FeatureLeIsTotalOrder();
    StableSortSorts(features, FeatureLe);
    StableSortMembers(features, FeatureLe);
    ChosenMembers(StableSort(features, FeatureLe), selected);
    ChosenAscends(StableSort(features, FeatureLe), selected);
    assert forall a: Feature, b: Feature :: FeatureLe(a, b) ==>
      a.order < b.order || (a.order == b.order && TextLe(a.id, b.id));
  }
}
