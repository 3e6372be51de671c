/** Features by group: `features_by_group` (workspace/scripts/bootstrap_aux_defs.py). */
module Grouping {
  import opened Text
  import opened Installer

  /** The declared groups, then the undeclared ones as they are met. */
  function Order(groups: seq<string>, features: seq<Feature>): seq<string> {
    if features == [] then groups
    else
      var before, group := Order(groups, features[..|features| - 1]), features[|features| - 1].group;
      if group in before then before else before + [group]
  }

  function Members(group: string, features: seq<Feature>): seq<Feature> {
    if features == [] then []
    else
      var last := features[|features| - 1];
      Members(group, features[..|features| - 1]) + if last.group == group then [last] else []
  }

  /** The groups of an order that have members, each with its members. */
  function Report(order: seq<string>, features: seq<Feature>): seq<(string, seq<Feature>)> {
    if order == [] then []
    else
      var members := Members(order[0], features);
      (if members == [] then [] else [(order[0], members)]) + Report(order[1..], features)
  }

  function Listed(report: seq<(string, seq<Feature>)>): seq<Feature> {
    if report == [] then [] else report[0].1 + Listed(report[1..])
  }

  lemma {:induction false} OrderFacts(groups: seq<string>, features: seq<Feature>)
    ensures groups <= Order(groups, features)
    ensures forall f <- features :: f.group in Order(groups, features)
  {
    if features != [] {
      OrderFacts(groups, features[..|features| - 1]);
      assert features == features[..|features| - 1] + [features[|features| - 1]];
    }
  }

  /** The lists by group hold the members of every group that has any. */
  ghost predicate Collected(grouped: map<string, seq<Feature>>, groups: seq<string>, features: seq<Feature>) {
    && (forall group <- Order(groups, features) :: group in grouped)
    && (forall group <- grouped :: grouped[group] == Members(group, features))
    && (forall group :: group !in grouped ==> Members(group, features) == [])
  }

  lemma MembersSnoc(group: string, features: seq<Feature>, f: Feature)
    ensures Members(group, features + [f]) == Members(group, features) + if f.group == group then [f] else []
  {
    assert (features + [f])[..|features|] == features;
  }

  lemma OrderSnoc(groups: seq<string>, features: seq<Feature>, f: Feature)
    ensures Order(groups, features + [f])
            == Order(groups, features) + if f.group in Order(groups, features) then [] else [f.group]
  {
    assert (features + [f])[..|features|] == features;
  }

  lemma MembersGrow(features: seq<Feature>, f: Feature)
    ensures forall group: string ::
              Members(group, features + [f])
              == if group == f.group then Members(group, features) + [f] else Members(group, features)
  {
    forall group: string
      ensures Members(group, features + [f])
              == if group == f.group then Members(group, features) + [f] else Members(group, features)
    {
      MembersSnoc(group, features, f);
      assert Members(group, features) + [] == Members(group, features);
    }
  }

  lemma CollectOne(grouped: map<string, seq<Feature>>, groups: seq<string>, features: seq<Feature>, f: Feature)
    requires Collected(grouped, groups, features)
    ensures var others := if f.group in grouped then grouped[f.group] else [];
            Collected(grouped[f.group := others + [f]], groups, features + [f])
  {
    OrderSnoc(groups, features, f);
    MembersGrow(features, f);
    CollectedMembers(grouped, features, features + [f], f);
  }

  /** The lists by group, whatever the order is. */
  lemma CollectedMembers(
    grouped: map<string, seq<Feature>>, features: seq<Feature>, longer: seq<Feature>, f: Feature)
    requires forall group <- grouped :: grouped[group] == Members(group, features)
    requires forall group :: group !in grouped ==> Members(group, features) == []
    requires forall group: string ::
               Members(group, longer)
               == if group == f.group then Members(group, features) + [f] else Members(group, features)
    ensures var others := if f.group in grouped then grouped[f.group] else [];
            var updated := grouped[f.group := others + [f]];
            && (forall group <- updated :: updated[group] == Members(group, longer))
            && (forall group :: group !in updated ==> Members(group, longer) == [])
  {
  }

  method FeaturesByGroup(groups: seq<string>, features: seq<Feature>)
    returns (report: seq<(string, seq<Feature>)>)
    ensures report == Report(Order(groups, features), features)
  {
    var order, grouped := Collect(groups, features);
    report := NonEmpty(order, grouped, features);
  }

  /** The loop of `FeaturesByGroup`. */
  method Collect(groups: seq<string>, features: seq<Feature>)
    returns (order: seq<string>, grouped: map<string, seq<Feature>>)
    ensures order == Order(groups, features) && Collected(grouped, groups, features)
  {
    order := groups;
    grouped := map group | group in groups :: [];
    for i := 0 to |features|
      invariant order == Order(groups, features[..i]) && Collected(grouped, groups, features[..i])
    {
      var f := features[i];
      CollectOne(grouped, groups, features[..i], f);
      OrderSnoc(groups, features[..i], f);
      assert features[..i + 1] == features[..i] + [f];
      grouped := grouped[f.group := (if f.group in grouped then grouped[f.group] else []) + [f]];
      if f.group !in order {
        order := order + [f.group];
      }
    }
    assert features[..|features|] == features;
  }

  /** The last step of `FeaturesByGroup`: the groups with members, in order. */
  method NonEmpty(order: seq<string>, grouped: map<string, seq<Feature>>, features: seq<Feature>)
    returns (report: seq<(string, seq<Feature>)>)
    requires forall group <- order :: group in grouped && grouped[group] == Members(group, features)
    ensures report == Report(order, features)
  {
    report := [];
    assert order[0..] == order && [] + Report(order, features) == Report(order, features);
    for i := 0 to |order|
      invariant Report(order, features) == report + Report(order[i..], features)
    {
      assert order[i..][0] == order[i] && order[i..][1..] == order[i + 1..];
      if grouped[order[i]] != [] {
        ConcatAssociates(report, [(order[i], grouped[order[i]])], Report(order[i + 1..], features));
        report := report + [(order[i], grouped[order[i]])];
      } else {
        assert [] + Report(order[i + 1..], features) == Report(order[i + 1..], features);
      }
    }
    assert report + [] == report;
  }

  lemma {:induction false} MembersCount(group: string, features: seq<Feature>, f: Feature)
    ensures multiset(Members(group, features))[f] == if f.group == group then multiset(features)[f] else 0
  {
    if features != [] {
      var init, last := features[..|features| - 1], features[|features| - 1];
      MembersCount(group, init, f);
      assert features == init + [last];
    }
  }

  lemma ListedCons(group: string, members: seq<Feature>, rest: seq<(string, seq<Feature>)>)
    ensures Listed((if members == [] then [] else [(group, members)]) + rest) == members + Listed(rest)
  {
    if members == [] {
      assert [] + rest == rest;
    } else {
      assert ([(group, members)] + rest)[1..] == rest;
    }
  }

  lemma HeadCount(order: seq<string>, group: string)
    requires order != []
    ensures multiset(order)[group] == (if order[0] == group then 1 else 0) + multiset(order[1..])[group]
  {
    assert order == [order[0]] + order[1..];
  }

  /** The first group of an order lists its members. */
  lemma HeadListed(order: seq<string>, features: seq<Feature>, f: Feature)
    requires order != []
    ensures multiset(Listed(Report(order, features)))[f]
            == (if order[0] == f.group then multiset(features)[f] else 0)
               + multiset(Listed(Report(order[1..], features)))[f]
  {
    var members, rest := Members(order[0], features), Report(order[1..], features);
    ListedCons(order[0], members, rest);
    MembersCount(order[0], features, f);
    assert multiset(members + Listed(rest))[f] == multiset(members)[f] + multiset(Listed(rest))[f];
  }

  /** A feature is listed once for each place of its group in the order. */
  lemma {:induction false} ListedCount(order: seq<string>, features: seq<Feature>, f: Feature)
    ensures var places, count := multiset(order)[f.group], multiset(features)[f];
            var listed := multiset(Listed(Report(order, features)))[f];
            && (places == 0 ==> listed == 0)
            && (places == 1 ==> listed == count)
            && (places >= 2 ==> listed >= count + count)
  {
    if order != [] {
      ListedCount(order[1..], features, f);
      HeadCount(order, f.group);
      HeadListed(order, features, f);
    }
  }

  lemma {:induction false} OrderCount(groups: seq<string>, features: seq<Feature>, group: string)
    ensures multiset(Order(groups, features))[group]
            == if group in groups then multiset(groups)[group]
               else if exists f <- features :: f.group == group then 1 else 0
  {
    if features != [] {
      var init, last := features[..|features| - 1], features[|features| - 1];
      OrderCount(groups, init, group);
      OrderFacts(groups, init);
      assert features == init + [last];
      if last.group == group && group !in Order(groups, init) {
        assert group !in groups;
      }
    }
  }

  /** The report lists every feature exactly as often as the registry does, if and only if no group that has
      a feature is declared twice. */
  lemma GroupingConserves(groups: seq<string>, features: seq<Feature>)
    ensures multiset(Listed(Report(Order(groups, features), features))) == multiset(features)
            <==> forall f <- features :: multiset(groups)[f.group] <= 1
  {
    var order := Order(groups, features);
    var listed := multiset(Listed(Report(order, features)));
    forall f: Feature
      ensures listed[f] == multiset(features)[f] <==> (f in features ==> multiset(groups)[f.group] <= 1)
    {
      FeatureIsListed(groups, features, f);
    }
    if forall f <- features :: multiset(groups)[f.group] <= 1 {
      assert listed == multiset(features);
    } else {
      var f :| f in features && multiset(groups)[f.group] > 1;
      assert listed[f] != multiset(features)[f];
    }
  }

  lemma FeatureIsListed(groups: seq<string>, features: seq<Feature>, f: Feature)
    ensures multiset(Listed(Report(Order(groups, features), features)))[f] == multiset(features)[f]
            <==> (f in features ==> multiset(groups)[f.group] <= 1)
  {
    ListedCount(Order(groups, features), features, f);
    OrderCount(groups, features, f.group);
    if f in features {
      assert multiset(features)[f] >= 1;
    } else {
      MembersNone(Order(groups, features), features, f);
    }
  }

  lemma {:induction false} MembersNone(order: seq<string>, features: seq<Feature>, f: Feature)
    requires f !in features
    ensures multiset(Listed(Report(order, features)))[f] == 0
  {
    if order != [] {
      MembersNone(order[1..], features, f);
      MembersCount(order[0], features, f);
      ListedCons(order[0], Members(order[0], features), Report(order[1..], features));
    }
  }
}
