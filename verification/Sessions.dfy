/** Choosing the sessions of a benchmark (scripts/benchmark/llamafile_transcript_classifier/sessions.py). */
module Sessions {
  import opened Base
  import opened Sorting
  import opened Text
  import opened Transcripts

  datatype Session = Session(id: string, title: string, textChars: int, turns: seq<Turn>)

  datatype Selected = Selected(
    id: string, title: string, bucket: int, estimated: int, turnCount: nat, textChars: int)

  const THRESHOLD_LARGE := 65536
  const THRESHOLD_MEDIUM := 16384

  // ---------------------------------------------------------------- sizes and distances

  function EstimateTurns(turns: seq<Turn>, rate: Rate): (r: nat) {
    if turns == [] then 0
    else
      var last := turns[|turns| - 1];
      EstimateTurns(turns[..|turns| - 1], rate) + TokensOf(|last.user| + |last.assistant|, rate)
  }

  function Size(s: Session, rate: Rate): nat {
    EstimateTurns(s.turns, rate)
  }

  method EstimateSessionTokens(s: Session, rate: Rate) returns (total: nat)
    ensures total == Size(s, rate)
  {
    total := 0;
    for i := 0 to |s.turns|
      invariant total == EstimateTurns(s.turns[..i], rate)
    {
      assert s.turns[..i + 1][..i] == s.turns[..i];
      total := total + TokensOf(|s.turns[i].user| + |s.turns[i].assistant|, rate);
    }
    assert s.turns[..|s.turns|] == s.turns;
  }

  /** Sessions smaller than the bucket are farther than any that is at most twice as large. */
  function Distance(estimated: int, bucket: int): int {
    if estimated < bucket then bucket - estimated + bucket else estimated - bucket
  }

  function LeastSize(bucket: int): int {
    if bucket >= THRESHOLD_LARGE then bucket / 4
    else if bucket >= THRESHOLD_MEDIUM then bucket / 3
    else bucket / 2
  }

  /** Closeness in plain sizes: an exact fit beats everything; of two sizes that reach the bucket the smaller
      is closer, of two below it the larger; and one below it beats one above exactly when the one above
      exceeds twice the bucket by more than the other falls short. */
  lemma ClosenessInSizes(a: nat, b: nat, bucket: int)
    ensures a == bucket != b ==> Distance(a, bucket) < Distance(b, bucket)
    ensures a >= bucket && b >= bucket ==> (Distance(a, bucket) <= Distance(b, bucket) <==> a <= b)
    ensures a < bucket && b < bucket ==> (Distance(a, bucket) <= Distance(b, bucket) <==> a >= b)
    ensures a < bucket <= b ==>
              (Distance(a, bucket) < Distance(b, bucket) <==> b - 2 * bucket > bucket - a)
    ensures a < bucket <= b ==>
              (Distance(b, bucket) < Distance(a, bucket) <==> b - 2 * bucket < bucket - a)
  {
  }

  /** A session qualifies for a bucket from a half of it on, for a medium one from a third, for a large one
      from a quarter. */
  lemma LeastSizeInParts(size: nat, bucket: nat)
    ensures size >= LeastSize(bucket) <==>
            (if bucket < 16384 then 2 else if bucket < 65536 then 3 else 4) * (size + 1) > bucket
  {
  }

  predicate Closer(a: Session, b: Session, bucket: int, rate: Rate) {
    Distance(Size(a, rate), bucket) <= Distance(Size(b, rate), bucket)
  }

  function ByDistance(bucket: int, rate: Rate): (Session, Session) -> bool {
    (a, b) => Closer(a, b, bucket, rate)
  }

  function Largest(rate: Rate): (Session, Session) -> bool {
    (a, b) => Size(a, rate) >= Size(b, rate)
  }

  function Pick(s: Session, bucket: int, rate: Rate): Selected {
    Selected(s.id, s.title, bucket, Size(s, rate), |s.turns|, s.textChars)
  }

  function Picks(sessions: seq<Session>, bucket: int, rate: Rate): (r: seq<Selected>)
    ensures |r| == |sessions| && forall i :: 0 <= i < |r| ==> r[i] == Pick(sessions[i], bucket, rate)
    ensures forall i :: 0 <= i < |r| ==>
                          && r[i].id == sessions[i].id && r[i].title == sessions[i].title
                          && r[i].bucket == bucket && r[i].estimated == Size(sessions[i], rate)
                          && r[i].turnCount == |sessions[i].turns| && r[i].textChars == sessions[i].textChars
  {
    seq(|sessions|, i requires 0 <= i < |sessions| => Pick(sessions[i], bucket, rate))
  }

  function Ids(sessions: seq<Session>): set<string> {
    set s <- sessions :: s.id
  }

  predicate Distinct(sessions: seq<Session>) {
    forall i, j :: 0 <= i < j < |sessions| ==> sessions[i].id != sessions[j].id
  }

  // ---------------------------------------------------------------- taking from a ranking

  predicate Takes(s: Session, used: set<string>, least: int, rate: Rate) {
    s.id !in used && Size(s, rate) >= least
  }

  /** The first `limit` sessions of the ranking that are large enough and have unused ids. */
  function Taken(ranked: seq<Session>, used: set<string>, least: int, limit: nat, rate: Rate): seq<Session> {
    if ranked == [] || limit == 0 then []
    else if Takes(ranked[0], used, least, rate) then
      [ranked[0]] + Taken(ranked[1..], used + {ranked[0].id}, least, limit - 1, rate)
    else Taken(ranked[1..], used, least, limit, rate)
  }

  /** What is taken: at most `limit` sessions of the ranking, all large enough, with ids that are different
      and unused; a session that could have been taken is left only when `limit` are. */
  lemma {:induction false} TakenFacts(
    ranked: seq<Session>, used: set<string>, least: int, limit: nat, rate: Rate)
    ensures var taken := Taken(ranked, used, least, limit, rate);
            && |taken| <= limit && Distinct(taken) && Ids(taken) !! used
            && (forall s <- taken :: s in ranked && Size(s, rate) >= least)
            && (|taken| < limit ==> forall s <- ranked :: !Takes(s, used + Ids(taken), least, rate))
  {
    if ranked != [] && limit > 0 {
      var s := ranked[0];
      if Takes(s, used, least, rate) {
        var rest := Taken(ranked[1..], used + {s.id}, least, limit - 1, rate);
        TakenFacts(ranked[1..], used + {s.id}, least, limit - 1, rate);
        var taken := [s] + rest;
        assert taken == Taken(ranked, used, least, limit, rate);
        assert Ids(taken) == {s.id} + Ids(rest);
        assert used + Ids(taken) == used + {s.id} + Ids(rest);
        forall i, j | 0 <= i < j < |taken| ensures taken[i].id != taken[j].id {
          assert taken[j] == rest[j - 1];
          assert taken[j].id in Ids(rest);
        }
      } else {
        TakenFacts(ranked[1..], used, least, limit, rate);
      }
    }
  }

  /** A session that is large enough and unused is left only when the limit is reached. */
  lemma LeftWhenFull(ranked: seq<Session>, used: set<string>, least: int, limit: nat, rate: Rate, s: Session)
    requires s in ranked && Size(s, rate) >= least
    requires s.id !in used && s.id !in Ids(Taken(ranked, used, least, limit, rate))
    ensures |Taken(ranked, used, least, limit, rate)| == limit
  {
    TakenFacts(ranked, used, least, limit, rate);
    assert Takes(s, used + Ids(Taken(ranked, used, least, limit, rate)), least, rate);
  }

  /** No session that could still be taken comes before one that was. */
  ghost predicate First(
    taken: seq<Session>, ranked: seq<Session>, used: set<string>, least: int, rate: Rate,
    le: (Session, Session) -> bool)
  {
    forall t <- taken, s <- ranked :: Takes(s, used, least, rate) ==> le(t, s)
  }

  lemma FirstGrows(
    rest: seq<Session>, ranked: seq<Session>, used: set<string>, least: int, rate: Rate,
    le: (Session, Session) -> bool)
    requires ranked != [] && (forall s <- ranked :: le(ranked[0], s)) && ranked[0].id in used
    requires First(rest, ranked[1..], used, least, rate, le)
    requires SortedBy(rest, le) && forall s <- rest :: s in ranked
    ensures First([ranked[0]] + rest, ranked, used, least, rate, le) && SortedBy([ranked[0]] + rest, le)
  {
    var taken := [ranked[0]] + rest;
    forall t <- taken, s <- ranked | Takes(s, used, least, rate) ensures le(t, s) {
      assert t == ranked[0] || t in rest;
      assert s in ranked[1..];
    }
    forall i, j | 0 <= i < j < |taken| ensures le(taken[i], taken[j]) {
      assert taken[j] in rest;
    }
  }

  /** From a sorted ranking the best are taken, in order. */
  lemma {:induction false} TakenAreFirst(
    ranked: seq<Session>, used: set<string>, least: int, limit: nat, rate: Rate,
    le: (Session, Session) -> bool)
    requires SortedBy(ranked, le) && forall s <- ranked :: le(s, s)
    ensures var taken := Taken(ranked, used, least, limit, rate);
            SortedBy(taken, le) && First(taken, ranked, used + Ids(taken), least, rate, le)
  {
    if ranked != [] && limit > 0 {
      var first := ranked[0];
      if Takes(first, used, least, rate) {
        var rest := Taken(ranked[1..], used + {first.id}, least, limit - 1, rate);
        TakenAreFirst(ranked[1..], used + {first.id}, least, limit - 1, rate, le);
        TakenFacts(ranked[1..], used + {first.id}, least, limit - 1, rate);
        assert Ids([first] + rest) == {first.id} + Ids(rest);
        assert used + Ids([first] + rest) == used + {first.id} + Ids(rest);
        FirstGrows(rest, ranked, used + {first.id} + Ids(rest), least, rate, le);
      } else {
        TakenAreFirst(ranked[1..], used, least, limit, rate, le);
      }
    }
  }

  /** A picking loop has looked at the first `i` sessions of the ranking and taken `from`. */
  ghost predicate Taking(
    ranked: seq<Session>, i: nat, used: set<string>, least: int, limit: nat, rate: Rate,
    from: seq<Session>, usedNow: set<string>)
  {
    && i <= |ranked| && |from| <= limit && usedNow == used + Ids(from)
    && Taken(ranked, used, least, limit, rate)
       == from + Taken(ranked[i..], usedNow, least, limit - |from|, rate)
  }

  lemma TakingStarts(ranked: seq<Session>, used: set<string>, least: int, limit: nat, rate: Rate)
    ensures Taking(ranked, 0, used, least, limit, rate, [], used)
  {
    var taken := Taken(ranked, used, least, limit, rate);
    assert ranked[0..] == ranked && [] + taken == taken;
  }

  lemma TakingGoesOn(
    ranked: seq<Session>, i: nat, used: set<string>, least: int, limit: nat, rate: Rate,
    from: seq<Session>, usedNow: set<string>)
    requires Taking(ranked, i, used, least, limit, rate, from, usedNow) && i < |ranked| && |from| < limit
    ensures if Takes(ranked[i], usedNow, least, rate)
            then Taking(ranked, i + 1, used, least, limit, rate, from + [ranked[i]], usedNow + {ranked[i].id})
            else Taking(ranked, i + 1, used, least, limit, rate, from, usedNow)
  {
    var s := ranked[i];
    assert ranked[i..][0] == s && ranked[i..][1..] == ranked[i + 1..];
    if Takes(s, usedNow, least, rate) {
      DistinctSnoc(from, s);
      ConcatAssociates(
        from, [s], Taken(ranked[i + 1..], usedNow + {s.id}, least, limit - |from| - 1, rate));
    }
  }

  lemma TakingEnds(
    ranked: seq<Session>, i: nat, used: set<string>, least: int, limit: nat, rate: Rate,
    from: seq<Session>, usedNow: set<string>)
    requires Taking(ranked, i, used, least, limit, rate, from, usedNow)
    requires i == |ranked| || |from| == limit
    ensures Taken(ranked, used, least, limit, rate) == from
  {
    assert from + [] == from;
  }

  // ---------------------------------------------------------------- one bucket

  function AtLeastOne(n: int): nat {
    if n < 1 then 1 else n
  }

  function Ranked(catalog: seq<Session>, bucket: int, rate: Rate): seq<Session> {
    StableSort(catalog, ByDistance(bucket, rate))
  }

  /** The sessions picked for a bucket. When too few are large enough, the closest one may fill in. */
  function BucketPicks(
    bucket: int, catalog: seq<Session>, used: set<string>, perBucket: int, rate: Rate): seq<Session>
  {
    var ranked := Ranked(catalog, bucket, rate);
    var taken := Taken(ranked, used, LeastSize(bucket), AtLeastOne(perBucket), rate);
    if |taken| < AtLeastOne(perBucket) && ranked != [] && ranked[0].id !in used + Ids(taken)
    then taken + [ranked[0]]
    else taken
  }

  lemma PicksGrow(sessions: seq<Session>, s: Session, bucket: int, rate: Rate)
    ensures Picks(sessions + [s], bucket, rate) == Picks(sessions, bucket, rate) + [Pick(s, bucket, rate)]
  {
  }

  /** The picking loop that buckets and long replays have in common. */
  method TakeFrom(
    ranked: seq<Session>, bucket: int, rate: Rate, used: set<string>, least: int, count: int)
    returns (picked: seq<Selected>, usedNow: set<string>)
    ensures var from := Taken(ranked, used, least, AtLeastOne(count), rate);
            picked == Picks(from, bucket, rate) && usedNow == used + Ids(from)
  {
    ghost var limit := AtLeastOne(count);
    ghost var from: seq<Session> := [];
    picked, usedNow := [], used;
    TakingStarts(ranked, used, least, limit, rate);
    for i := 0 to |ranked|
      invariant picked == Picks(from, bucket, rate) && |from| < limit
      invariant Taking(ranked, i, used, least, limit, rate, from, usedNow)
    {
      var s := ranked[i];
      TakingGoesOn(ranked, i, used, least, limit, rate, from, usedNow);
      if s.id in usedNow {
        continue;
      }
      var estimated := EstimateSessionTokens(s, rate);
      if estimated < least {
        continue;
      }
      PicksGrow(from, s, bucket, rate);
      from := from + [s];
      picked := picked + [Pick(s, bucket, rate)];
      usedNow := usedNow + {s.id};
      assert Taking(ranked, i + 1, used, least, limit, rate, from, usedNow);
      if |picked| >= count {
        TakingEnds(ranked, i + 1, used, least, limit, rate, from, usedNow);
        return;
      }
    }
    TakingEnds(ranked, |ranked|, used, least, limit, rate, from, usedNow);
  }

  method PickBucketSessions(
    bucket: int, catalog: seq<Session>, rate: Rate, used: set<string>, perBucket: int)
    returns (picked: seq<Selected>, usedNow: set<string>)
    ensures var from := BucketPicks(bucket, catalog, used, perBucket, rate);
            picked == Picks(from, bucket, rate) && usedNow == used + Ids(from)
  {
    var ranked := Ranked(catalog, bucket, rate);
    ghost var from := Taken(ranked, used, LeastSize(bucket), AtLeastOne(perBucket), rate);
    picked, usedNow := TakeFrom(ranked, bucket, rate, used, LeastSize(bucket), perBucket);
    if |picked| >= AtLeastOne(perBucket) {
      return;
    }
    if |ranked| > 0 {
      var reserve := ranked[0];
      if reserve.id !in usedNow {
        DistinctSnoc(from, reserve);
        PicksGrow(from, reserve, bucket, rate);
        picked := picked + [Pick(reserve, bucket, rate)];
        usedNow := usedNow + {reserve.id};
      }
    }
  }

  lemma RankedFacts(catalog: seq<Session>, le: (Session, Session) -> bool)
    requires TotalOrder(le)
    ensures var ranked := StableSort(catalog, le);
            && SortedBy(ranked, le) && |ranked| == |catalog|
            && (forall s :: s in ranked <==> s in catalog)
            && (ranked != [] ==> ranked[0] in catalog && forall s <- catalog :: le(ranked[0], s))
  {
    StableSortSorts(catalog, le);
    StableSortMembers(catalog, le);
    var ranked := StableSort(catalog, le);
    if ranked != [] {
      assert ranked[0] in ranked;
      forall s <- catalog ensures le(ranked[0], s) {
        assert s in ranked;
        assert le(s, s);
      }
    }
  }

  lemma DistinctSnoc(sessions: seq<Session>, s: Session)
    ensures Ids(sessions + [s]) == Ids(sessions) + {s.id}
    ensures Distinct(sessions) && s.id !in Ids(sessions) ==> Distinct(sessions + [s])
  {
    var longer := sessions + [s];
    assert Ids(longer) == Ids(sessions) + {s.id} by {
      forall t <- longer ensures t.id in Ids(sessions) + {s.id} {}
      forall id | id in Ids(sessions) + {s.id} ensures id in Ids(longer) {
        var t :| t in longer && t.id == id;
      }
    }
  }

  lemma ByDistanceIsTotal(bucket: int, rate: Rate)
    ensures TotalOrder(ByDistance(bucket, rate))
  {
  }

  /** Whether the closest session fills in for those that are missing. */
  predicate FillsIn(ranked: seq<Session>, taken: seq<Session>, used: set<string>, limit: nat) {
    |taken| < limit && ranked != [] && ranked[0].id !in used + Ids(taken)
  }

  lemma PicksAre(bucket: int, catalog: seq<Session>, used: set<string>, perBucket: int, rate: Rate)
    ensures var ranked := Ranked(catalog, bucket, rate);
            var taken := Taken(ranked, used, LeastSize(bucket), AtLeastOne(perBucket), rate);
            var picks := BucketPicks(bucket, catalog, used, perBucket, rate);
            if FillsIn(ranked, taken, used, AtLeastOne(perBucket)) then
              picks == taken + [ranked[0]] && Ids(picks) == Ids(taken) + {ranked[0].id}
            else picks == taken
  {
    var ranked := Ranked(catalog, bucket, rate);
    var taken := Taken(ranked, used, LeastSize(bucket), AtLeastOne(perBucket), rate);
    if FillsIn(ranked, taken, used, AtLeastOne(perBucket)) {
      DistinctSnoc(taken, ranked[0]);
    }
  }

  /** A bucket gets at most its number of sessions, reserve pick included, and their ids are new. */
  lemma BucketPicksAreNew(bucket: int, catalog: seq<Session>, used: set<string>, perBucket: int, rate: Rate)
    ensures var picks := BucketPicks(bucket, catalog, used, perBucket, rate);
            && |picks| <= AtLeastOne(perBucket)
            && Distinct(picks) && Ids(picks) !! used && (forall p <- picks :: p in catalog)
            && (used == {} && catalog != [] ==> picks != [])
  {
    ByDistanceIsTotal(bucket, rate);
    RankedFacts(catalog, ByDistance(bucket, rate));
    var ranked := Ranked(catalog, bucket, rate);
    var taken := Taken(ranked, used, LeastSize(bucket), AtLeastOne(perBucket), rate);
    TakenFacts(ranked, used, LeastSize(bucket), AtLeastOne(perBucket), rate);
    if FillsIn(ranked, taken, used, AtLeastOne(perBucket)) {
      DistinctSnoc(taken, ranked[0]);
    }
  }

  predicate Closest(s: Session, catalog: seq<Session>, bucket: int, rate: Rate) {
    forall c <- catalog :: Closer(s, c, bucket, rate)
  }

  /** No session that could still be picked is closer than one that was, and while there is room none is
      left. */
  lemma BucketPicksAreClosest(bucket: int, catalog: seq<Session>, used: set<string>, perBucket: int, rate: Rate)
    ensures var picks := BucketPicks(bucket, catalog, used, perBucket, rate);
            && (forall p <- picks, s <- catalog ::
                  Takes(s, used + Ids(picks), LeastSize(bucket), rate) ==> Closer(p, s, bucket, rate))
            && (|picks| < AtLeastOne(perBucket) ==>
                  forall s <- catalog :: !Takes(s, used + Ids(picks), LeastSize(bucket), rate))
  {
    var le, least, limit := ByDistance(bucket, rate), LeastSize(bucket), AtLeastOne(perBucket);
    ByDistanceIsTotal(bucket, rate);
    RankedFacts(catalog, le);
    var ranked := Ranked(catalog, bucket, rate);
    TakenFacts(ranked, used, least, limit, rate);
    TakenAreFirst(ranked, used, least, limit, rate, le);
    PicksAre(bucket, catalog, used, perBucket, rate);
  }

  /** While there is room, the closest session of the catalog has been used. */
  lemma ClosestIsUsed(bucket: int, catalog: seq<Session>, used: set<string>, perBucket: int, rate: Rate)
    ensures var picks := BucketPicks(bucket, catalog, used, perBucket, rate);
            |picks| < AtLeastOne(perBucket) && catalog != [] ==>
              exists s <- catalog :: s.id in used + Ids(picks) && Closest(s, catalog, bucket, rate)
  {
    ByDistanceIsTotal(bucket, rate);
    RankedFacts(catalog, ByDistance(bucket, rate));
    PicksAre(bucket, catalog, used, perBucket, rate);
    var ranked := Ranked(catalog, bucket, rate);
    if ranked != [] {
      assert Closest(ranked[0], catalog, bucket, rate);
    }
  }

  /** Only the last pick may be too small, when nothing large enough is left, and then it is the closest of
      the catalog. */
  lemma OnlyTheReserveIsSmall(bucket: int, catalog: seq<Session>, used: set<string>, perBucket: int, rate: Rate)
    ensures var picks := BucketPicks(bucket, catalog, used, perBucket, rate);
            forall i :: 0 <= i < |picks| && Size(picks[i], rate) < LeastSize(bucket) ==>
                          && i == |picks| - 1 && Closest(picks[i], catalog, bucket, rate)
                          && (forall c <- catalog :: !Takes(c, used + Ids(picks), LeastSize(bucket), rate))
  {
    var le, least, limit := ByDistance(bucket, rate), LeastSize(bucket), AtLeastOne(perBucket);
    ByDistanceIsTotal(bucket, rate);
    RankedFacts(catalog, le);
    TakenFacts(Ranked(catalog, bucket, rate), used, least, limit, rate);
    PicksAre(bucket, catalog, used, perBucket, rate);
  }

  // ---------------------------------------------------------------- all buckets

  function PickAll(
    buckets: seq<int>, catalog: seq<Session>, used: set<string>, perBucket: int, rate: Rate): seq<seq<Session>>
  {
    if buckets == [] then []
    else
      var picks := BucketPicks(buckets[0], catalog, used, perBucket, rate);
      [picks] + PickAll(buckets[1..], catalog, used + Ids(picks), perBucket, rate)
  }

  function Flat(segments: seq<seq<Session>>): seq<Session> {
    if segments == [] then [] else segments[0] + Flat(segments[1..])
  }

  /** What is reported for all buckets. */
  function AllPicks(
    buckets: seq<int>, catalog: seq<Session>, used: set<string>, perBucket: int, rate: Rate): seq<Selected>
  {
    if buckets == [] then []
    else
      var picks := BucketPicks(buckets[0], catalog, used, perBucket, rate);
      Picks(picks, buckets[0], rate) + AllPicks(buckets[1..], catalog, used + Ids(picks), perBucket, rate)
  }

  lemma DistinctConcat(a: seq<Session>, b: seq<Session>)
    ensures Ids(a + b) == Ids(a) + Ids(b)
    ensures Distinct(a) && Distinct(b) && Ids(a) !! Ids(b) ==> Distinct(a + b)
  {
    var all := a + b;
    assert Ids(all) == Ids(a) + Ids(b) by {
      forall id | id in Ids(a) + Ids(b) ensures id in Ids(all) {
        var t :| t in all && t.id == id;
      }
    }
    if Distinct(a) && Distinct(b) && Ids(a) !! Ids(b) {
      forall i, j | 0 <= i < j < |all| ensures all[i].id != all[j].id {
        if i < |a| <= j {
          assert all[i].id in Ids(a) && all[j].id in Ids(b);
        }
      }
    }
  }

  lemma SegmentsGrow(
    picks: seq<Session>, rest: seq<seq<Session>>, catalog: seq<Session>, used: set<string>, limit: nat)
    requires Distinct(picks) && Ids(picks) !! used && |picks| <= limit && forall s <- picks :: s in catalog
    requires Distinct(Flat(rest)) && Ids(Flat(rest)) !! used + Ids(picks)
    requires (forall segment <- rest :: |segment| <= limit) && forall s <- Flat(rest) :: s in catalog
    ensures var segments := [picks] + rest;
            && Flat(segments) == picks + Flat(rest)
            && Distinct(Flat(segments)) && Ids(Flat(segments)) !! used
            && (forall segment <- segments :: |segment| <= limit)
            && (forall s <- Flat(segments) :: s in catalog)
            && (Flat(segments) == [] <==> picks == [] && Flat(rest) == [])
            && (catalog == [] ==> Flat(segments) == [])
  {
    assert ([picks] + rest)[1..] == rest;
    DistinctConcat(picks, Flat(rest));
    var all := picks + Flat(rest);
    assert all != [] ==> all[0] in all;
  }

  /** Across all buckets no id is picked twice, every bucket keeps its limit, and the first bucket finds
      something whenever the catalog has anything. */
  lemma {:induction false} PickAllFacts(
    buckets: seq<int>, catalog: seq<Session>, used: set<string>, perBucket: int, rate: Rate)
    ensures var segments := PickAll(buckets, catalog, used, perBucket, rate);
            && |segments| == |buckets|
            && Distinct(Flat(segments)) && Ids(Flat(segments)) !! used
            && (forall segment <- segments :: |segment| <= AtLeastOne(perBucket))
            && (forall s <- Flat(segments) :: s in catalog)
            && (used == {} ==> (Flat(segments) == [] <==> buckets == [] || catalog == []))
  {
    if buckets != [] {
      var picks := BucketPicks(buckets[0], catalog, used, perBucket, rate);
      BucketPicksAreNew(buckets[0], catalog, used, perBucket, rate);
      PickAllFacts(buckets[1..], catalog, used + Ids(picks), perBucket, rate);
      var rest := PickAll(buckets[1..], catalog, used + Ids(picks), perBucket, rate);
      SegmentsGrow(picks, rest, catalog, used, AtLeastOne(perBucket));
      assert PickAll(buckets, catalog, used, perBucket, rate) == [picks] + rest;
    }
  }

  datatype SelectError = NoneMatched | NoneSelected

  predicate NoneTwice(selected: seq<Selected>) {
    forall i, j :: 0 <= i < j < |selected| ==> selected[i].id != selected[j].id
  }

  function Wanted(catalog: seq<Session>, ids: seq<string>): seq<Session> {
    if catalog == [] then []
    else
      var last := catalog[|catalog| - 1];
      Wanted(catalog[..|catalog| - 1], ids) + if last.id in ids then [last] else []
  }

  lemma {:induction false} WantedFacts(catalog: seq<Session>, ids: seq<string>)
    ensures forall s :: s in Wanted(catalog, ids) <==> s in catalog && s.id in ids
    ensures Distinct(catalog) ==> Distinct(Wanted(catalog, ids))
  {
    if catalog != [] {
      var init, last := catalog[..|catalog| - 1], catalog[|catalog| - 1];
      assert catalog == init + [last];
      WantedFacts(init, ids);
      DistinctSnoc(Wanted(init, ids), last);
      if Distinct(catalog) {
        forall s <- init ensures s.id != last.id {
          var k :| 0 <= k < |init| && init[k] == s;
          assert catalog[k] == s;
        }
      }
    }
  }

  /** `_select_explicit_sessions`: each wanted session is its own bucket. */
  function SelectExplicit(catalog: seq<Session>, explicit: seq<string>, rate: Rate)
    : Result<seq<Selected>, SelectError>
  {
    var wanted := Wanted(catalog, explicit);
    if wanted == [] then Err(NoneMatched)
    else Ok(seq(|wanted|, i requires 0 <= i < |wanted| => Pick(wanted[i], Size(wanted[i], rate), rate)))
  }

  /** The explicit sessions are those of the catalog with a wanted id, once each when ids are distinct. */
  lemma ExplicitFacts(catalog: seq<Session>, explicit: seq<string>, rate: Rate)
    ensures var r := SelectExplicit(catalog, explicit, rate);
            && (r.Err? <==> forall s <- catalog :: s.id !in explicit)
            && (r.Ok? ==> forall s <- catalog :: s.id in explicit ==> Pick(s, Size(s, rate), rate) in r.value)
            && (r.Ok? ==> forall p <- r.value ::
                  exists s <- catalog :: s.id in explicit && p == Pick(s, Size(s, rate), rate))
            && (r.Ok? && Distinct(catalog) ==> NoneTwice(r.value))
  {
    WantedFacts(catalog, explicit);
    var wanted := Wanted(catalog, explicit);
    if wanted != [] {
      assert wanted[0] in wanted;
      var picked := SelectExplicit(catalog, explicit, rate).value;
      forall s <- catalog | s.id in explicit ensures Pick(s, Size(s, rate), rate) in picked {
        var k :| 0 <= k < |wanted| && wanted[k] == s;
        assert picked[k] == Pick(s, Size(s, rate), rate);
      }
      forall p <- picked ensures exists s <- catalog :: s.id in explicit && p == Pick(s, Size(s, rate), rate) {
        var k :| 0 <= k < |picked| && picked[k] == p;
        assert wanted[k] in wanted;
      }
    }
  }

  function Ascending(): (int, int) -> bool {
    (a, b) => a <= b
  }

  method SelectSessionsForBuckets(
    catalog: seq<Session>, buckets: seq<int>, rate: Rate, perBucket: int, explicit: seq<string>)
    returns (r: Result<seq<Selected>, SelectError>)
    ensures explicit != [] ==> r == SelectExplicit(catalog, explicit, rate)
    ensures explicit == [] ==>
              var all := AllPicks(StableSort(buckets, Ascending()), catalog, {}, perBucket, rate);
              r == if all == [] then Err(NoneSelected) else Ok(all)
  {
    if explicit != [] {
      return SelectExplicit(catalog, explicit, rate);
    }
    var sorted := StableSort(buckets, Ascending());
    var selected := PickForEach(sorted, catalog, rate, perBucket);
    r := if selected == [] then Err(NoneSelected) else Ok(selected);
  }

  method PickForEach(buckets: seq<int>, catalog: seq<Session>, rate: Rate, perBucket: int)
    returns (selected: seq<Selected>)
    ensures selected == AllPicks(buckets, catalog, {}, perBucket, rate)
  {
    selected := [];
    var used: set<string> := {};
    ghost var all := AllPicks(buckets, catalog, {}, perBucket, rate);
    assert buckets[0..] == buckets && [] + all == all;
    for i := 0 to |buckets|
      invariant all == selected + AllPicks(buckets[i..], catalog, used, perBucket, rate)
    {
      AllPicksStep(buckets, i, catalog, used, perBucket, rate, selected);
      var picked, usedNow := PickBucketSessions(buckets[i], catalog, rate, used, perBucket);
      selected, used := selected + picked, usedNow;
    }
    assert selected + [] == selected;
  }

  lemma AllPicksStep(
    buckets: seq<int>, i: nat, catalog: seq<Session>, used: set<string>, perBucket: int, rate: Rate,
    selected: seq<Selected>)
    requires i < |buckets|
    ensures var picks := BucketPicks(buckets[i], catalog, used, perBucket, rate);
            selected + AllPicks(buckets[i..], catalog, used, perBucket, rate)
            == (selected + Picks(picks, buckets[i], rate))
               + AllPicks(buckets[i + 1..], catalog, used + Ids(picks), perBucket, rate)
  {
    assert buckets[i..][0] == buckets[i] && buckets[i..][1..] == buckets[i + 1..];
    var picks := BucketPicks(buckets[i], catalog, used, perBucket, rate);
    ConcatAssociates(
      selected, Picks(picks, buckets[i], rate),
      AllPicks(buckets[i + 1..], catalog, used + Ids(picks), perBucket, rate));
  }

  predicate SameIds(picks: seq<Selected>, sessions: seq<Session>) {
    |picks| == |sessions| && forall i :: 0 <= i < |picks| ==> picks[i].id == sessions[i].id
  }

  lemma {:induction false} AllPicksMatch(
    buckets: seq<int>, catalog: seq<Session>, used: set<string>, perBucket: int, rate: Rate)
    ensures SameIds(AllPicks(buckets, catalog, used, perBucket, rate),
                    Flat(PickAll(buckets, catalog, used, perBucket, rate)))
  {
    if buckets != [] {
      var picks := BucketPicks(buckets[0], catalog, used, perBucket, rate);
      var rest := PickAll(buckets[1..], catalog, used + Ids(picks), perBucket, rate);
      AllPicksMatch(buckets[1..], catalog, used + Ids(picks), perBucket, rate);
      assert PickAll(buckets, catalog, used, perBucket, rate)[1..] == rest;
    }
  }

  // ---------------------------------------------------------------- long replays

  method SelectLongSessions(
    catalog: seq<Session>, count: int, maxContext: int, rate: Rate, used: set<string>, least: int)
    returns (selected: seq<Selected>)
    ensures selected
            == Picks(Taken(StableSort(catalog, Largest(rate)), used, least, AtLeastOne(count), rate), maxContext, rate)
  {
    var ranked := StableSort(catalog, Largest(rate));
    var picked, _ := TakeFrom(ranked, maxContext, rate, used, least, count);
    selected := picked;
  }

  /** Nothing that is large enough and unused is larger than what was taken. */
  lemma TakenAreLargest(ranked: seq<Session>, used: set<string>, least: int, limit: nat, rate: Rate, s: Session)
    requires SortedBy(ranked, Largest(rate)) && s in ranked && Size(s, rate) >= least
    requires s.id !in used && s.id !in Ids(Taken(ranked, used, least, limit, rate))
    ensures |Taken(ranked, used, least, limit, rate)| == limit
    ensures forall p <- Taken(ranked, used, least, limit, rate) :: Size(p, rate) >= Size(s, rate)
  {
    LeftWhenFull(ranked, used, least, limit, rate, s);
    TakenAreFirst(ranked, used, least, limit, rate, Largest(rate));
    assert Takes(s, used + Ids(Taken(ranked, used, least, limit, rate)), least, rate);
  }

  /** The long replays are the largest sessions that are large enough and unused, largest first. */
  lemma LongPicksAreLargest(catalog: seq<Session>, used: set<string>, least: int, limit: nat, rate: Rate)
    ensures var picks := Taken(StableSort(catalog, Largest(rate)), used, least, limit, rate);
            && |picks| <= limit && Distinct(picks) && Ids(picks) !! used
            && (forall p <- picks :: p in catalog && Size(p, rate) >= least)
            && (forall i, j :: 0 <= i < j < |picks| ==> Size(picks[i], rate) >= Size(picks[j], rate))
            && (forall s <- catalog :: s.id !in used + Ids(picks) && Size(s, rate) >= least ==>
                  |picks| == limit && forall p <- picks :: Size(p, rate) >= Size(s, rate))
  {
    var le := Largest(rate);
    assert TotalOrder(le);
    RankedFacts(catalog, le);
    var ranked := StableSort(catalog, le);
    TakenFacts(ranked, used, least, limit, rate);
    TakenAreFirst(ranked, used, least, limit, rate, le);
    var picks := Taken(ranked, used, least, limit, rate);
    forall s <- catalog | s.id !in used + Ids(picks) && Size(s, rate) >= least
      ensures |picks| == limit && forall p <- picks :: Size(p, rate) >= Size(s, rate)
    {
      TakenAreLargest(ranked, used, least, limit, rate, s);
    }
  }

  // ---------------------------------------------------------------- the benchmark

  datatype Config = Config(
    rate: Rate, buckets: seq<int>, perBucket: int, maxContext: int, longReplays: int, longLeast: int)

  /** The bucket picks and then the long replays. */
  function BucketSessions(catalog: seq<Session>, c: Config): seq<Session> {
    Flat(PickAll(StableSort(c.buckets, Ascending()), catalog, {}, c.perBucket, c.rate))
  }

  function LongSessions(catalog: seq<Session>, c: Config): seq<Session> {
    if c.longReplays <= 0 then []
    else
      Taken(StableSort(catalog, Largest(c.rate)), Ids(BucketSessions(catalog, c)), c.longLeast,
            AtLeastOne(c.longReplays), c.rate)
  }

  /** Long replays are only added when some are asked for, at most that many, and fewer only when no
      session that is large enough is left. */
  lemma LongReplaysAre(catalog: seq<Session>, c: Config, s: Session)
    requires s in catalog
    ensures var used := Ids(BucketSessions(catalog, c));
            && (c.longReplays <= 0 ==> LongSessions(catalog, c) == [])
            && (c.longReplays > 0 ==> |LongSessions(catalog, c)| <= c.longReplays)
            && (c.longReplays > 0 && Size(s, c.rate) >= c.longLeast && s.id !in used + Ids(LongSessions(catalog, c)) ==>
                  |LongSessions(catalog, c)| == c.longReplays)
  {
    if c.longReplays > 0 {
      LongPicksAreLargest(
        catalog, Ids(BucketSessions(catalog, c)), c.longLeast, AtLeastOne(c.longReplays), c.rate);
    }
  }

  lemma BucketFacts(catalog: seq<Session>, c: Config)
    ensures var sessions := BucketSessions(catalog, c);
            && Distinct(sessions) && (forall s <- sessions :: s in catalog)
            && (sessions == [] <==> catalog == [] || c.buckets == [])
  {
    PickAllFacts(StableSort(c.buckets, Ascending()), catalog, {}, c.perBucket, c.rate);
    StableSortMembers(c.buckets, Ascending());
  }

  lemma ChosenFacts(catalog: seq<Session>, c: Config)
    ensures var chosen := BucketSessions(catalog, c) + LongSessions(catalog, c);
            Distinct(chosen) && forall s <- chosen :: s in catalog
  {
    BucketFacts(catalog, c);
    if c.longReplays > 0 {
      LongPicksAreLargest(
        catalog, Ids(BucketSessions(catalog, c)), c.longLeast, AtLeastOne(c.longReplays), c.rate);
    }
    DistinctConcat(BucketSessions(catalog, c), LongSessions(catalog, c));
  }

  lemma IdsOfPicks(picks: seq<Selected>, sessions: seq<Session>)
    requires SameIds(picks, sessions)
    ensures (set item <- picks :: item.id) == Ids(sessions)
  {
    forall s <- sessions ensures exists item <- picks :: item.id == s.id {
      var i :| 0 <= i < |sessions| && sessions[i] == s;
      assert picks[i] in picks;
    }
    forall item <- picks ensures item.id in Ids(sessions) {
      var i :| 0 <= i < |picks| && picks[i] == item;
      assert sessions[i] in sessions;
    }
  }

  /** Without explicit ids: selecting fails only for an empty catalog or without buckets; otherwise it gives
      the bucket picks and then the long replays, and no session is picked twice. */
  method SelectBenchmarkSessions(catalog: seq<Session>, c: Config, explicit: seq<string>)
    returns (r: Result<seq<Selected>, SelectError>)
    ensures explicit != [] ==> r == SelectExplicit(catalog, explicit, c.rate)
    ensures explicit == [] ==> (r.Err? <==> catalog == [] || c.buckets == [])
    ensures explicit == [] && r.Ok? ==>
              && r.value == AllPicks(StableSort(c.buckets, Ascending()), catalog, {}, c.perBucket, c.rate)
                            + Picks(LongSessions(catalog, c), c.maxContext, c.rate)
              && SameIds(r.value, BucketSessions(catalog, c) + LongSessions(catalog, c))
              && NoneTwice(r.value) && forall p <- r.value :: p.id in Ids(catalog)
  {
    ghost var sorted := StableSort(c.buckets, Ascending());
    r := SelectSessionsForBuckets(catalog, c.buckets, c.rate, c.perBucket, explicit);
    if explicit != [] {
      return;
    }
    BucketFacts(catalog, c);
    ChosenFacts(catalog, c);
    AllPicksMatch(sorted, catalog, {}, c.perBucket, c.rate);
    if r.Ok? {
      IdsOfPicks(r.value, BucketSessions(catalog, c));
    }
    if r.Ok? && c.longReplays > 0 {
      var used := set item <- r.value :: item.id;
      var long := SelectLongSessions(catalog, c.longReplays, c.maxContext, c.rate, used, c.longLeast);
      r := Ok(r.value + long);
    }
    if r.Ok? {
      SameIdsTransfer(r.value, BucketSessions(catalog, c) + LongSessions(catalog, c), catalog);
    }
  }

  lemma SameIdsTransfer(picks: seq<Selected>, chosen: seq<Session>, catalog: seq<Session>)
    requires SameIds(picks, chosen) && Distinct(chosen) && forall s <- chosen :: s in catalog
    ensures NoneTwice(picks) && forall p <- picks :: p.id in Ids(catalog)
  {
    forall p <- picks ensures p.id in Ids(catalog) {
      var i :| 0 <= i < |picks| && picks[i] == p;
      assert chosen[i] in chosen;
    }
  }

  /** The buckets are served from the smallest to the largest, each as often as it is configured. */
  lemma BucketsAscend(buckets: seq<int>)
    ensures var sorted := StableSort(buckets, Ascending());
            && multiset(sorted) == multiset(buckets)
            && forall i, j :: 0 <= i < j < |sorted| ==> sorted[i] <= sorted[j]
  {
    StableSortSorts(buckets, Ascending());
  }

  /** A bucket always takes one session at least, whatever is configured. */
  lemma LimitIs(n: int)
    ensures AtLeastOne(n) >= 1 && (n >= 1 ==> AtLeastOne(n) == n) && (n < 1 ==> AtLeastOne(n) == 1)
  {
  }

  /** The size of a session counts prompt and answer of each turn together, turn by turn. */
  lemma SizeByTurns(s: Session, turns: seq<Turn>, turn: Turn, rate: Rate)
    requires s.turns == turns + [turn]
    ensures Size(s, rate) == Size(s.(turns := turns), rate) + TokensOf(|turn.user| + |turn.assistant|, rate)
    ensures Size(s.(turns := []), rate) == 0
  {
    assert s.turns[..|s.turns| - 1] == turns;
  }
}
