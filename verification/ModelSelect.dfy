/** Model selector lists: `parseSelectorList`, and the printed form that the command line writes back
    (workspace/moderator/src/model-select.ts, workspace/moderator/src/cli.ts). */
module ModelSelect {
  import opened Base
  import opened Text

  datatype Selector = Selector(providerID: string, modelID: string)

  datatype SelectorError = EmptyPart | NotProviderModel(part: string) | DuplicateSelector

  function KeyOf(model: Selector): string {
    model.providerID + "/" + model.modelID
  }

  function KeysOf(models: seq<Selector>): seq<string> {
    if models == [] then [] else [KeyOf(models[0])] + KeysOf(models[1..])
  }

  /** What `models show` and `models set` print. */
  function Print(models: seq<Selector>): string {
    Join(KeysOf(models), ",")
  }

  /** `value.split(",")`; the empty string splits into one empty part. */
  function Split(value: string): (parts: seq<string>)
    ensures |parts| > 0
  {
    if value == "" then [""]
    else if value[0] == ',' then [""] + Split(value[1..])
    else
      var rest := Split(value[1..]);
      [[value[0]] + rest[0]] + rest[1..]
  }

  function TrimAll(parts: seq<string>): seq<string> {
    if parts == [] then [] else [Trim(parts[0])] + TrimAll(parts[1..])
  }

  /** The index of the first slash at or after `from`, or -1. */
  function SlashAt(s: string, from: nat): (k: int)
    ensures -1 <= k < |s| && (k >= 0 ==> from <= k)
    decreases |s| - from
  {
    if from >= |s| then -1 else if s[from] == '/' then from else SlashAt(s, from + 1)
  }

  function ParsePart(part: string): Result<Selector, SelectorError> {
    var slash := SlashAt(part, 0);
    if slash <= 0 || slash == |part| - 1 || SlashAt(part, slash + 1) >= 0 then Err(NotProviderModel(part))
    else Ok(Selector(part[..slash], part[slash + 1..]))
  }

  function ParseParts(parts: seq<string>): Result<seq<Selector>, SelectorError> {
    if parts == [] then Ok([])
    else
      var first := ParsePart(parts[0]);
      if first.Err? then Err(first.error)
      else
        var rest := ParseParts(parts[1..]);
        if rest.Err? then Err(rest.error) else Ok([first.value] + rest.value)
  }

  predicate Distinct<T(==)>(s: seq<T>) {
    forall i, j :: 0 <= i < j < |s| ==> s[i] != s[j]
  }

  function Parse(value: string): Result<seq<Selector>, SelectorError> {
    var parts := TrimAll(Split(value));
    if exists part <- parts :: part == "" then Err(EmptyPart)
    else
      var models := ParseParts(parts);
      if models.Ok? && !Distinct(KeysOf(models.value)) then Err(DuplicateSelector) else models
  }

  lemma {:induction false} ParsePartsAppend(parts: seq<string>, part: string)
    ensures ParseParts(parts + [part]) ==
            if ParseParts(parts).Err? then ParseParts(parts)
            else if ParsePart(part).Err? then Err(ParsePart(part).error)
            else Ok(ParseParts(parts).value + [ParsePart(part).value])
  {
    if parts == [] {
      assert parts + [part] == [part] && [part][1..] == [];
      if ParsePart(part).Ok? {
        var model := ParsePart(part).value;
        assert [model] + [] == [] + [model];
      }
    } else {
      ParsePartsAppend(parts[1..], part);
      TailOfConcat(parts, [part]);
      if ParsePart(parts[0]).Ok? && ParseParts(parts[1..]).Ok? && ParsePart(part).Ok? {
        ConcatAssociates([ParsePart(parts[0]).value], ParseParts(parts[1..]).value, [ParsePart(part).value]);
      }
    }
  }

  lemma {:induction false} ParsePartsFails(parts: seq<string>, more: seq<string>)
    requires ParseParts(parts).Err?
    ensures ParseParts(parts + more) == ParseParts(parts)
  {
    TailOfConcat(parts, more);
    if ParsePart(parts[0]).Ok? {
      ParsePartsFails(parts[1..], more);
    }
  }

  lemma ParsePartsGoesOn(done: seq<string>, part: string, models: seq<Selector>)
    requires ParseParts(done) == Ok(models) && ParsePart(part).Ok?
    ensures ParseParts(done + [part]) == Ok(models + [ParsePart(part).value])
  {
    ParsePartsAppend(done, part);
  }

  lemma ParsePartsStops(done: seq<string>, part: string, more: seq<string>, models: seq<Selector>)
    requires ParseParts(done) == Ok(models) && ParsePart(part).Err?
    ensures ParseParts(done + [part] + more) == Err(ParsePart(part).error)
  {
    ParsePartsAppend(done, part);
    ParsePartsFails(done + [part], more);
  }

  lemma {:induction false} KeysAre(models: seq<Selector>)
    ensures |KeysOf(models)| == |models|
    ensures forall i :: 0 <= i < |models| ==> KeysOf(models)[i] == KeyOf(models[i])
  {
    if models != [] {
      KeysAre(models[1..]);
    }
  }

  function SetOf(keys: seq<string>): set<string> {
    set k | k in keys
  }

  lemma DistinctSnoc(init: seq<string>, last: string)
    ensures Distinct(init + [last]) <==> Distinct(init) && last !in init
  {
    var keys := init + [last];
    if Distinct(keys) {
      forall i, j | 0 <= i < j < |init| ensures init[i] != init[j] {
        assert keys[i] == init[i] && keys[j] == init[j];
      }
      forall k <- init ensures k != last {
        var i :| 0 <= i < |init| && init[i] == k;
        assert keys[i] != keys[|init|];
      }
    }
  }

  /** A list has as many different keys as entries exactly when it repeats none. */
  lemma {:induction false} DistinctBySize(keys: seq<string>)
    ensures |SetOf(keys)| <= |keys| && (|SetOf(keys)| == |keys| <==> Distinct(keys))
  {
    if keys != [] {
      var init, last := keys[..|keys| - 1], keys[|keys| - 1];
      DistinctBySize(init);
      assert keys == init + [last];
      DistinctSnoc(init, last);
      assert SetOf(keys) == SetOf(init) + {last};
    }
  }

  lemma KeyAmongKeys(models: seq<Selector>, key: string)
    ensures key in KeysOf(models) <==> exists model <- models :: KeyOf(model) == key
  {
    KeysAre(models);
    if exists model <- models :: KeyOf(model) == key {
      var model :| model in models && KeyOf(model) == key;
      var i :| 0 <= i < |models| && models[i] == model;
      assert KeysOf(models)[i] == key;
    }
  }

  /** The set of keys is as large as the list exactly when no key repeats. */
  lemma KeySetSize(models: seq<Selector>)
    ensures |set model <- models :: KeyOf(model)| == |models| <==> Distinct(KeysOf(models))
  {
    var keys := set model <- models :: KeyOf(model);
    forall key ensures key in keys <==> key in SetOf(KeysOf(models)) {
      KeyAmongKeys(models, key);
    }
    assert keys == SetOf(KeysOf(models));
    DistinctBySize(KeysOf(models));
    KeysAre(models);
  }

  method ParseSelectorList(value: string) returns (r: Result<seq<Selector>, SelectorError>)
    ensures r == Parse(value)
  {
    var parts := TrimAll(Split(value));
    TrimAllParts(Split(value));
    if |parts| == 0 || exists part <- parts :: part == "" {
      return Err(EmptyPart);
    }
    r := ParseEach(parts);
    if r.Err? {
      return;
    }
    var keys := set model <- r.value :: KeyOf(model);
    KeySetSize(r.value);
    if |keys| != |r.value| {
      r := Err(DuplicateSelector);
    }
  }

  /** The loop of `ParseSelectorList`. */
  method ParseEach(parts: seq<string>) returns (r: Result<seq<Selector>, SelectorError>)
    ensures r == ParseParts(parts)
  {
    var models: seq<Selector> := [];
    for i := 0 to |parts|
      invariant ParseParts(parts[..i]) == Ok(models)
    {
      var one := ParsePart(parts[i]);
      if one.Err? {
        ParsePartsStops(parts[..i], parts[i], parts[i + 1..], models);
        assert parts == parts[..i] + [parts[i]] + parts[i + 1..];
        return Err(one.error);
      }
      ParsePartsGoesOn(parts[..i], parts[i], models);
      assert parts[..i + 1] == parts[..i] + [parts[i]];
      models := models + [one.value];
    }
    assert parts[..|parts|] == parts;
    r := Ok(models);
  }

  // ---------------------------------------------------------------- round trips

  /** What a selector must be to survive printing and parsing. */
  predicate Clean(model: Selector) {
    && model.providerID != "" && model.modelID != ""
    && '/' !in model.providerID && ',' !in model.providerID && !IsSpace(model.providerID[0])
    && '/' !in model.modelID && ',' !in model.modelID && !IsSpace(model.modelID[|model.modelID| - 1])
  }

  lemma {:induction false} TrimAllParts(parts: seq<string>)
    ensures |TrimAll(parts)| == |parts|
    ensures forall i :: 0 <= i < |parts| ==> TrimAll(parts)[i] == Trim(parts[i])
  {
    if parts != [] {
      TrimAllParts(parts[1..]);
    }
  }

  lemma {:induction false} SlashAtFinds(s: string, from: nat)
    requires from <= |s|
    ensures var k := SlashAt(s, from);
            && -1 <= k < |s|
            && (k >= 0 ==> from <= k && s[k] == '/' && '/' !in s[from..k])
            && (k < 0 ==> '/' !in s[from..])
    decreases |s| - from
  {
    if from < |s| && s[from] != '/' {
      SlashAtFinds(s, from + 1);
      assert s[from..] == [s[from]] + s[from + 1..];
      var k := SlashAt(s, from + 1);
      if k >= 0 {
        assert s[from..k] == [s[from]] + s[from + 1..k];
      }
    }
  }

  lemma {:induction false} SlashAtIs(s: string, from: nat, k: nat)
    requires from <= k <= |s| && '/' !in s[from..k]
    ensures k < |s| && s[k] == '/' ==> SlashAt(s, from) == k
    ensures k == |s| ==> SlashAt(s, from) == -1
    decreases k - from
  {
    if from < k {
      assert s[from..k] == [s[from]] + s[from + 1..k];
      SlashAtIs(s, from + 1, k);
    }
  }

  lemma KeyParses(model: Selector)
    requires Clean(model)
    ensures ParsePart(KeyOf(model)) == Ok(model)
  {
    var key, k := KeyOf(model), |model.providerID|;
    assert key[0..k] == model.providerID && key[k] == '/' && key[k + 1..] == model.modelID;
    assert key[k + 1..|key|] == model.modelID;
    SlashAtIs(key, 0, k);
    SlashAtIs(key, k + 1, |key|);
  }

  lemma PartIsClean(part: string)
    requires Trimmed(part) && ',' !in part && ParsePart(part).Ok?
    ensures Clean(ParsePart(part).value) && KeyOf(ParsePart(part).value) == part
  {
    SlashAtFinds(part, 0);
    var slash := SlashAt(part, 0);
    SlashAtFinds(part, slash + 1);
    var model := ParsePart(part).value;
    assert part == part[..slash] + [part[slash]] + part[slash + 1..];
    assert model.providerID == part[0..slash];
    assert model.providerID[0] == part[0] && model.modelID[|model.modelID| - 1] == part[|part| - 1];
  }

  lemma {:induction false} PartsAreClean(parts: seq<string>)
    requires forall part <- parts :: Trimmed(part) && ',' !in part
    requires ParseParts(parts).Ok?
    ensures var models := ParseParts(parts).value;
            (forall model <- models :: Clean(model)) && KeysOf(models) == parts
  {
    if parts != [] {
      PartIsClean(parts[0]);
      PartsAreClean(parts[1..]);
      assert parts == [parts[0]] + parts[1..];
      var models := ParseParts(parts).value;
      assert models[1..] == ParseParts(parts[1..]).value;
    }
  }

  lemma {:induction false} SplitHasNoCommas(value: string)
    ensures forall part <- Split(value) :: ',' !in part
    ensures Join(Split(value), ",") == value
  {
    if value != "" {
      SplitHasNoCommas(value[1..]);
      var rest := Split(value[1..]);
      var parts := Split(value);
      if value[0] == ',' {
        assert parts[1..] == rest;
      } else {
        assert parts[1..] == rest[1..];
        forall part <- parts ensures ',' !in part {
          assert part == parts[0] || part in rest;
        }
        assert [value[0]] + Join(rest, ",") == Join(parts, ",") by {
          if |rest| > 1 {
            assert [value[0]] + (rest[0] + "," + Join(rest[1..], ","))
                == ([value[0]] + rest[0]) + "," + Join(rest[1..], ",");
          }
        }
      }
    }
  }

  lemma {:induction false} SplitAfter(part: string, rest: string)
    requires ',' !in part
    ensures Split(part + "," + rest) == [part] + Split(rest)
    ensures Split(part) == [part]
  {
    var s := part + "," + rest;
    if part == "" {
      assert s[1..] == rest;
    } else {
      assert s[1..] == part[1..] + "," + rest;
      assert part == [part[0]] + part[1..];
      SplitAfter(part[1..], rest);
    }
  }

  lemma {:induction false} SplitJoins(parts: seq<string>)
    requires parts != [] && forall part <- parts :: ',' !in part
    ensures Split(Join(parts, ",")) == parts
  {
    if |parts| == 1 {
      SplitAfter(parts[0], "");
    } else {
      SplitAfter(parts[0], Join(parts[1..], ","));
      SplitJoins(parts[1..]);
    }
  }

  lemma TrimHasNoNewCommas(s: string)
    requires ',' !in s
    ensures ',' !in Trim(s)
  {
    StripStartKeeps(s, ',');
    StripEndIsPrefix(StripStart(s, IsSpace), IsSpace);
  }

  lemma {:induction false} StripStartKeeps(s: string, c: char)
    requires c !in s
    ensures c !in StripStart(s, IsSpace)
  {
    if s != "" && IsSpace(s[0]) {
      StripStartKeeps(s[1..], c);
    }
  }

  /** What a successful parse says about its input: the models are clean and all different, and printing
      them gives the input back with its parts trimmed. */
  lemma ParsedIsTrimmedInput(value: string)
    requires Parse(value).Ok?
    ensures var models := Parse(value).value;
            && models != [] && (forall model <- models :: Clean(model)) && Distinct(models)
            && Print(models) == Join(TrimAll(Split(value)), ",")
  {
    var parts := TrimAll(Split(value));
    SplitHasNoCommas(value);
    TrimAllParts(Split(value));
    forall part <- parts ensures Trimmed(part) && ',' !in part {
      var i :| 0 <= i < |parts| && parts[i] == part;
      StripBaresEnds(Split(value)[i], IsSpace);
      TrimHasNoNewCommas(Split(value)[i]);
    }
    PartsAreClean(parts);
    KeysAre(Parse(value).value);
  }

  lemma {:induction false} CleanKeys(models: seq<Selector>)
    requires forall model <- models :: Clean(model)
    ensures forall key <- KeysOf(models) :: ',' !in key && key != ""
    ensures TrimAll(KeysOf(models)) == KeysOf(models)
    ensures ParseParts(KeysOf(models)) == Ok(models)
  {
    if models != [] {
      CleanKeys(models[1..]);
      assert models == [models[0]] + models[1..];
      var key := KeyOf(models[0]);
      KeyParses(models[0]);
      assert Trimmed(key) by {
        assert key[0] == models[0].providerID[0];
        assert key[|key| - 1] == models[0].modelID[|models[0].modelID| - 1];
      }
      StripBaresEnds(key, IsSpace);
      assert KeysOf(models)[1..] == KeysOf(models[1..]);
    }
  }

  /** Provider/model keys tell selectors apart whenever the providers have no slash. */
  lemma KeysTellApart(a: Selector, b: Selector)
    requires '/' !in a.providerID && '/' !in b.providerID
    ensures KeyOf(a) == KeyOf(b) <==> a == b
  {
    if KeyOf(a) == KeyOf(b) {
      var key := KeyOf(a);
      var i, j := |a.providerID|, |b.providerID|;
      assert key[0..i] == a.providerID && key[i] == '/' && key[i + 1..] == a.modelID;
      assert key[0..j] == b.providerID && key[j] == '/' && key[j + 1..] == b.modelID;
      SlashAtIs(key, 0, i);
      SlashAtIs(key, 0, j);
    }
  }

  /** With a slash in a provider two different selectors can share a key. */
  lemma KeysCanCollide()
    ensures KeyOf(Selector("a/b", "c")) == KeyOf(Selector("a", "b/c"))
  {
    assert KeyOf(Selector("a/b", "c")) == "a/b/c" == KeyOf(Selector("a", "b/c"));
  }

  /** A key belongs to one selector exactly when neither id of it has a slash. */
  lemma KeyIsUniqueExactly(a: Selector)
    ensures (forall b: Selector :: KeyOf(b) == KeyOf(a) ==> b == a) <==> '/' !in a.providerID && '/' !in a.modelID
  {
    var key, n := KeyOf(a), |a.providerID|;
    assert key[n] == '/' && key[..n] == a.providerID && key[n + 1..] == a.modelID;
    if '/' in a.providerID || '/' in a.modelID {
      var at := OtherSlash(a);
      var other := Selector(key[..at], key[at + 1..]);
      assert KeyOf(other) == key && |other.providerID| == at;
    } else {
      forall b: Selector | KeyOf(b) == key ensures b == a {
        var m := |b.providerID|;
        assert key[m] == '/' && key[..m] == b.providerID && key[m + 1..] == b.modelID;
        SlashIsAt(a, m);
      }
    }
  }

  lemma OtherSlash(a: Selector) returns (at: nat)
    requires '/' in a.providerID || '/' in a.modelID
    ensures at < |KeyOf(a)| && KeyOf(a)[at] == '/' && at != |a.providerID|
  {
    var key, n := KeyOf(a), |a.providerID|;
    if '/' in a.providerID {
      at :| at < n && a.providerID[at] == '/';
    } else {
      var i: nat :| i < |a.modelID| && a.modelID[i] == '/';
      at := n + 1 + i;
      assert key[n + 1..] == a.modelID;
    }
  }

  lemma SlashIsAt(a: Selector, m: nat)
    requires '/' !in a.providerID && '/' !in a.modelID && m < |KeyOf(a)| && KeyOf(a)[m] == '/'
    ensures m == |a.providerID|
  {
    var key, n := KeyOf(a), |a.providerID|;
    assert key[..n] == a.providerID && key[n + 1..] == a.modelID;
    forall k | 0 <= k < |key| && k != n ensures key[k] != '/' {
      assert key[k] == if k < n then a.providerID[k] else a.modelID[k - n - 1];
    }
  }

  lemma DistinctKeys(models: seq<Selector>)
    requires forall model <- models :: Clean(model)
    ensures Distinct(KeysOf(models)) <==> Distinct(models)
  {
    KeysAre(models);
    forall i, j | 0 <= i < j < |models|
      ensures KeysOf(models)[i] == KeysOf(models)[j] <==> models[i] == models[j]
    {
      assert models[i] in models && models[j] in models;
      KeysTellApart(models[i], models[j]);
    }
  }

  /** Parsing the printed form gives the list back exactly when the list is not empty, repeats nothing,
      and holds only clean selectors. */
  lemma PrintThenParse(models: seq<Selector>)
    ensures Parse(Print(models)) == Ok(models) <==>
            models != [] && (forall model <- models :: Clean(model)) && Distinct(models)
  {
    if Parse(Print(models)) == Ok(models) {
      ParsedIsTrimmedInput(Print(models));
    }
    if models != [] && (forall model <- models :: Clean(model)) && Distinct(models) {
      CleanKeys(models);
      KeysAre(models);
      DistinctKeys(models);
      SplitJoins(KeysOf(models));
    }
  }

  // ---------------------------------------------------------------- when parsing fails

  /** A part names a provider and a model: one slash, with something on both sides. */
  predicate NamesModel(part: string, k: nat) {
    0 < k < |part| - 1 && part[k] == '/' && forall j :: 0 <= j < |part| && part[j] == '/' ==> j == k
  }

  ghost predicate HasModel(part: string) {
    exists k: nat :: NamesModel(part, k)
  }

  lemma PartParsesExactly(part: string)
    ensures ParsePart(part).Ok? <==> HasModel(part)
    ensures ParsePart(part).Err? ==> ParsePart(part).error == NotProviderModel(part)
  {
    SlashAtFinds(part, 0);
    var slash := SlashAt(part, 0);
    if slash >= 0 {
      SlashAtFinds(part, slash + 1);
      forall j | 0 <= j < slash ensures part[j] != '/' {
        assert part[0..slash][j] == part[j];
      }
      if SlashAt(part, slash + 1) < 0 {
        forall j | slash < j < |part| ensures part[j] != '/' {
          assert part[slash + 1..][j - slash - 1] == part[j];
        }
      }
      if ParsePart(part).Ok? {
        assert NamesModel(part, slash);
      }
    } else {
      forall j | 0 <= j < |part| ensures part[j] != '/' {
        assert part[0..][j] == part[j];
      }
    }
  }

  lemma {:induction false} PartsFailAtTheFirst(parts: seq<string>)
    ensures ParseParts(parts).Ok? <==> forall i :: 0 <= i < |parts| ==> ParsePart(parts[i]).Ok?
    ensures ParseParts(parts).Err? ==>
              exists i :: 0 <= i < |parts| && ParsePart(parts[i]) == Err(ParseParts(parts).error)
                          && forall j :: 0 <= j < i ==> ParsePart(parts[j]).Ok?
  {
    if parts != [] && ParsePart(parts[0]).Ok? {
      PartsFailAtTheFirst(parts[1..]);
      if ParseParts(parts).Err? {
        var i :| 0 <= i < |parts[1..]| && ParsePart(parts[1..][i]) == Err(ParseParts(parts[1..]).error)
                 && forall j :: 0 <= j < i ==> ParsePart(parts[1..][j]).Ok?;
        assert parts[i + 1] == parts[1..][i];
        forall j | 0 <= j < i + 1 ensures ParsePart(parts[j]).Ok? {
          assert j > 0 ==> parts[j] == parts[1..][j - 1];
        }
      }
      forall i | 0 <= i < |parts| && ParseParts(parts).Ok? ensures ParsePart(parts[i]).Ok? {
        assert i > 0 ==> parts[i] == parts[1..][i - 1];
      }
      if forall i :: 0 <= i < |parts| ==> ParsePart(parts[i]).Ok? {
        forall i | 0 <= i < |parts[1..]| ensures ParsePart(parts[1..][i]).Ok? {
          assert parts[1..][i] == parts[i + 1];
        }
      }
    }
  }

  /** All parts parse exactly when each has a model. */
  lemma {:induction false} PartsNameModels(parts: seq<string>)
    ensures ParseParts(parts).Ok? <==> forall part <- parts :: HasModel(part)
    ensures ParseParts(parts).Err? ==> ParseParts(parts).error.NotProviderModel?
  {
    if parts != [] {
      PartParsesExactly(parts[0]);
      PartsNameModels(parts[1..]);
      assert parts == [parts[0]] + parts[1..];
    }
  }

  /** The three errors: an empty part anywhere, else parts that do not parse, else a repeated key. */
  lemma ParseFailsExactly(value: string)
    ensures var parts, r := TrimAll(Split(value)), Parse(value);
            && (r == Err(EmptyPart) <==> exists part <- parts :: part == "")
            && (r.Err? && r.error.NotProviderModel? <==>
                  (forall part <- parts :: part != "") && ParseParts(parts).Err?)
            && (r == Err(DuplicateSelector) <==>
                  && (forall part <- parts :: part != "") && ParseParts(parts).Ok?
                  && !Distinct(KeysOf(ParseParts(parts).value)))
  {
    PartsNameModels(TrimAll(Split(value)));
  }
}
