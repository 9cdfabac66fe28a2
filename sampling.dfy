/** The hard-negative sampler of the per-claim dataset builder
    (factcheck_relevance/build_data.py, lines 86-111): sort a claim's negatives by
    similarity, draw first from the most similar ones ("hard" negatives), then fill
    up with random draws from every negative not drawn yet. The draws of
    `random.sample` are nondeterministic choices. */
module NegativeSampling {
  import opened Common

  /** A retained evidence item `(docid, snippet, sim)`. */
  datatype Doc = Doc(docid: string, text: string, sim: real)

  /** `random.sample(pool, k)` raises ValueError when k is negative or exceeds the pool. */
  datatype SampleError = SampleLargerThanPopulationOrNegative

  predicate DistinctIds(docs: seq<Doc>) {
    forall i, j :: 0 <= i < j < |docs| ==> docs[i].docid != docs[j].docid
  }

  /** Appending a document whose id and text are new keeps ids and texts distinct. */
  lemma AppendFreshDoc(docs: seq<Doc>, x: Doc)
    requires DistinctIds(docs) && Distinct(Texts(docs))
    requires forall d :: d in docs ==> d.docid != x.docid && d.text != x.text
    ensures DistinctIds(docs + [x]) && Distinct(Texts(docs + [x]))
  {
    assert Texts(docs + [x]) == Texts(docs) + [x.text];
  }

  function DocIds(docs: seq<Doc>): (ids: seq<string>)
    ensures |ids| == |docs|
    ensures forall i :: 0 <= i < |docs| ==> ids[i] == docs[i].docid
  {
    seq(|docs|, i requires 0 <= i < |docs| => docs[i].docid)
  }

  function Texts(docs: seq<Doc>): (texts: seq<string>)
    ensures |texts| == |docs|
    ensures forall i :: 0 <= i < |docs| ==> texts[i] == docs[i].text
  {
    seq(|docs|, i requires 0 <= i < |docs| => docs[i].text)
  }

  // ---------------------------------------------------------------------------
  // `sorted(negatives, key=lambda x: x[2], reverse=True)`

  predicate SortedBySimDesc(s: seq<Doc>) {
    forall i, j :: 0 <= i < j < |s| ==> s[i].sim >= s[j].sim
  }

  /** Puts `x` in front of the first element that is not more similar than it,
      so that `x` stays ahead of the equally similar elements that followed it. */
  function InsertBySim(x: Doc, s: seq<Doc>): (r: seq<Doc>)
    requires SortedBySimDesc(s)
    ensures SortedBySimDesc(r)
    ensures multiset(r) == multiset(s) + multiset{x}
    ensures |r| == |s| + 1 && (r[0] == x || (|s| > 0 && r[0] == s[0]))
  {
    if s == [] || x.sim >= s[0].sim then [x] + s
    else
      var rest := InsertBySim(x, s[1..]);
      assert s == [s[0]] + s[1..];
      [s[0]] + rest
  }

  /** Stable sort by similarity, most similar first. */
  function SortBySimDesc(s: seq<Doc>): (r: seq<Doc>)
    ensures SortedBySimDesc(r)
    ensures multiset(r) == multiset(s)
    ensures |r| == |s|
  {
    if s == [] then []
    else
      assert s == [s[0]] + s[1..];
      InsertBySim(s[0], SortBySimDesc(s[1..]))
  }

  /** The elements of `s` whose similarity is `v`, in their order in `s`. */
  function WithSim(s: seq<Doc>, v: real): seq<Doc> {
    if s == [] then []
    else (if s[0].sim == v then [s[0]] else []) + WithSim(s[1..], v)
  }

  /** Inserting `x` keeps every group of equally similar elements in the order it
      would have with `x` in front: everything `x` is moved past is more similar. */
  lemma {:induction false} InsertKeepsTies(x: Doc, s: seq<Doc>, v: real)
    requires SortedBySimDesc(s)
    ensures WithSim(InsertBySim(x, s), v) == WithSim([x] + s, v)
  {
    if s == [] || x.sim >= s[0].sim {
    } else {
      assert s == [s[0]] + s[1..];
      InsertKeepsTies(x, s[1..], v);
      assert ([x] + s)[1..] == s;
      assert ([x] + s[1..])[1..] == s[1..];
      assert ([s[0]] + InsertBySim(x, s[1..]))[1..] == InsertBySim(x, s[1..]);
    }
  }

  /** The sort is stable: for every similarity, the negatives with that similarity
      come out in their input order, as Python's `sorted` guarantees. */
  lemma {:induction false} SortIsStable(s: seq<Doc>, v: real)
    ensures WithSim(SortBySimDesc(s), v) == WithSim(s, v)
  {
    if s != [] {
      SortIsStable(s[1..], v);
      InsertKeepsTies(s[0], SortBySimDesc(s[1..]), v);
      assert ([s[0]] + SortBySimDesc(s[1..]))[1..] == SortBySimDesc(s[1..]);
    }
  }

  // ---------------------------------------------------------------------------
  // The pools and the draw sizes

  /** `math.ceil(hard_frac * k_neg)` */
  function KHard(hardFrac: real, kNeg: int): (k: int)
    ensures k as real - 1.0 < hardFrac * kNeg as real <= k as real
  {
    Ceil(hardFrac * kNeg as real)
  }

  /** `sorted_negs[:hard_pool_size]` */
  function HardPool(negatives: seq<Doc>, hardPoolSize: int): (pool: seq<Doc>)
    ensures |pool| <= |negatives|
    ensures 0 <= hardPoolSize <= |negatives| ==> |pool| == hardPoolSize
  {
    PyTake(SortBySimDesc(negatives), hardPoolSize)
  }

  /** `[n for n in negatives if n[0] not in [s[0] for s in sampled_hard]]` */
  function RestPool(negatives: seq<Doc>, hard: seq<Doc>): (rest: seq<Doc>)
    ensures forall d :: d in rest <==> d in negatives && d.docid !in DocIds(hard)
    ensures |rest| <= |negatives|
  {
    if negatives == [] then []
    else
      var last := negatives[|negatives| - 1];
      var init := RestPool(negatives[..|negatives| - 1], hard);
      assert negatives == negatives[..|negatives| - 1] + [last];
      if last.docid in DocIds(hard) then init else init + [last]
  }

  /** Number of hard draws: `min(len(n_hard_pool), k_hard)`. */
  function HardCount(negatives: seq<Doc>, kNeg: int, hardPoolSize: int, hardFrac: real): (h: int)
    ensures h <= |HardPool(negatives, hardPoolSize)| && h <= KHard(hardFrac, kNeg)
    ensures h == |HardPool(negatives, hardPoolSize)| || h == KHard(hardFrac, kNeg)
  {
    Min(|HardPool(negatives, hardPoolSize)|, KHard(hardFrac, kNeg))
  }

  /** The sampler raises: a claim with enough negatives asks for a negative number of
      hard draws, or for more hard draws than `k_neg` (so `remaining_rand < 0`). */
  predicate DrawFails(negatives: seq<Doc>, kNeg: int, hardPoolSize: int, hardFrac: real) {
    var h := HardCount(negatives, kNeg, hardPoolSize, hardFrac);
    |negatives| >= kNeg && (h < 0 || kNeg - h < 0)
  }

  /** `s` is a possible result of `random.sample(pool, k)`: k draws without replacement. */
  predicate IsSample<T(==)>(pool: seq<T>, k: nat, s: seq<T>) {
    |s| == k && multiset(s) <= multiset(pool)
  }

  /** `drawn` is a possible value of `sampled_negs` (lines 88-111). */
  predicate IsDraw(negatives: seq<Doc>, kNeg: int, hardPoolSize: int, hardFrac: real, drawn: seq<Doc>) {
    IsDrawFrom(negatives, HardPool(negatives, hardPoolSize), HardCount(negatives, kNeg, hardPoolSize, hardFrac),
               kNeg, drawn)
  }

  /** A draw of h hard negatives from `pool`, then the rest at random from the negatives
      not drawn yet; a claim with fewer than `k_neg` negatives keeps them all. */
  predicate IsDrawFrom(negatives: seq<Doc>, pool: seq<Doc>, h: int, kNeg: int, drawn: seq<Doc>) {
    if |negatives| < kNeg then drawn == negatives
    else
      && 0 <= h <= |drawn|
      && IsSample(pool, h, drawn[..h])
      && var rest := RestPool(negatives, drawn[..h]);
         && kNeg - h >= 0
         && IsSample(rest, Min(|rest|, kNeg - h), drawn[h..])
  }

  // ---------------------------------------------------------------------------
  // The random draws

  /** `random.sample(pool, k)`: some k elements of `pool` at distinct positions, in any order. */
  method Sample<T(==)>(pool: seq<T>, k: int) returns (r: Result<seq<T>, SampleError>)
    ensures r.Failure? <==> k < 0 || k > |pool|
    ensures r.Success? ==> IsSample(pool, k, r.value)
  {
    if k < 0 || k > |pool| {
      return Failure(SampleLargerThanPopulationOrNegative);
    }
    assert pool == pool[..k] + pool[k..];
    assert IsSample(pool, k, pool[..k]);
    var s :| IsSample(pool, k, s);
    return Success(s);
  }

  /** Lines 87-111: the negatives of one training instance. */
  method SampleNegatives(negatives: seq<Doc>, kNeg: int, hardPoolSize: int, hardFrac: real)
    returns (r: Result<seq<Doc>, SampleError>)
    ensures r.Failure? <==> DrawFails(negatives, kNeg, hardPoolSize, hardFrac)
    ensures r.Success? ==> IsDraw(negatives, kNeg, hardPoolSize, hardFrac, r.value)
  {
    if |negatives| < kNeg {
      return Success(negatives);
    }
    var sortedNegs := SortBySimDesc(negatives);
    var hardPool := PyTake(sortedNegs, hardPoolSize);
    var kHard := KHard(hardFrac, kNeg);
    var hard := Sample(hardPool, Min(|hardPool|, kHard));
    if hard.Failure? {
      return Failure(hard.error);
    }
    var sampledHard := hard.value;
    var remainingRand := kNeg - |sampledHard|;
    var restPool := RestPool(negatives, sampledHard);
    var rand := Sample(restPool, Min(|restPool|, remainingRand));
    if rand.Failure? {
      return Failure(rand.error);
    }
    var drawn := sampledHard + rand.value;
    assert drawn[..|sampledHard|] == sampledHard && drawn[|sampledHard|..] == rand.value;
    return Success(drawn);
  }

  // ---------------------------------------------------------------------------
  // What a draw promises

  lemma SubMultisetMember<T>(s: seq<T>, pool: seq<T>, x: T)
    requires multiset(s) <= multiset(pool) && x in s
    ensures x in pool
  {
    assert x in multiset(s);
  }

  /** A selection without replacement from a pool of distinct ids has distinct ids. */
  lemma {:induction false} SampleKeepsDistinct(pool: seq<Doc>, s: seq<Doc>)
    requires DistinctIds(pool) && multiset(s) <= multiset(pool)
    ensures DistinctIds(s)
  {
    forall i, j | 0 <= i < j < |s| ensures s[i].docid != s[j].docid {
      if s[i].docid == s[j].docid {
        SubMultisetMember(s, pool, s[i]);
        SubMultisetMember(s, pool, s[j]);
        var a :| 0 <= a < |pool| && pool[a] == s[i];
        var b :| 0 <= b < |pool| && pool[b] == s[j];
        assert a == b;
        assert s[i] == s[j];
        CountTwice(s, i, j);
        assert multiset(s)[s[i]] >= 2;
        CountDistinct(pool, a);
        assert false;
      }
    }
  }

  lemma CountTwice<T>(s: seq<T>, i: nat, j: nat)
    requires i < j < |s| && s[i] == s[j]
    ensures multiset(s)[s[i]] >= 2
  {
    assert s == s[..i] + [s[i]] + s[i + 1..j] + [s[j]] + s[j + 1..];
  }

  lemma {:induction false} CountDistinct(pool: seq<Doc>, a: nat)
    requires DistinctIds(pool) && a < |pool|
    ensures multiset(pool)[pool[a]] == 1
  {
    assert pool == pool[..a] + [pool[a]] + pool[a + 1..];
    NotIn(pool[..a], pool[a]);
    NotIn(pool[a + 1..], pool[a]);
  }

  lemma NotIn(s: seq<Doc>, x: Doc)
    requires forall i :: 0 <= i < |s| ==> s[i].docid != x.docid
    ensures multiset(s)[x] == 0
  {
  }

  /** Removing the drawn hard negatives from a pool of distinct ids leaves the rest:
      together they are the whole pool. */
  lemma {:induction false} RestPoolComplement(negatives: seq<Doc>, hard: seq<Doc>)
    requires DistinctIds(negatives) && multiset(hard) <= multiset(negatives)
    ensures multiset(RestPool(negatives, hard)) + multiset(hard) == multiset(negatives)
  {
    var rest := RestPool(negatives, hard);
    forall x ensures multiset(rest)[x] + multiset(hard)[x] == multiset(negatives)[x] {
      RestPoolCountAt(negatives, hard, x);
    }
  }

  lemma RestPoolCountAt(negatives: seq<Doc>, hard: seq<Doc>, x: Doc)
    requires DistinctIds(negatives) && multiset(hard) <= multiset(negatives)
    ensures multiset(RestPool(negatives, hard))[x] + multiset(hard)[x] == multiset(negatives)[x]
  {
    RestCount(negatives, hard, x);
    if x in hard {
      SubMultisetMember(hard, negatives, x);
      var a :| 0 <= a < |negatives| && negatives[a] == x;
      CountDistinct(negatives, a);
      assert multiset(hard)[x] == 1;
      assert x.docid in DocIds(hard);
    } else if x.docid in DocIds(hard) {
      var i :| 0 <= i < |hard| && hard[i].docid == x.docid;
      SubMultisetMember(hard, negatives, hard[i]);
      var b :| 0 <= b < |negatives| && negatives[b] == hard[i];
      forall a | 0 <= a < |negatives| ensures negatives[a] != x {
        if negatives[a].docid == x.docid {
          assert negatives[a] == negatives[b];
        }
      }
      assert x !in negatives;
    }
  }

  lemma {:induction false} RestCount(negatives: seq<Doc>, hard: seq<Doc>, x: Doc)
    ensures multiset(RestPool(negatives, hard))[x] ==
            if x.docid in DocIds(hard) then 0 else multiset(negatives)[x]
    decreases |negatives|
  {
    if negatives != [] {
      var init := negatives[..|negatives| - 1];
      assert negatives == init + [negatives[|negatives| - 1]];
      RestCount(init, hard, x);
    }
  }

  /** A claim with at least `k_neg` negatives of distinct ids gets exactly `k_neg` of them. */
  lemma DrawSize(negatives: seq<Doc>, kNeg: int, hardPoolSize: int, hardFrac: real, drawn: seq<Doc>)
    requires DistinctIds(negatives) && |negatives| >= kNeg
    requires IsDraw(negatives, kNeg, hardPoolSize, hardFrac, drawn)
    ensures |drawn| == kNeg
  {
    HardPoolWithin(negatives, hardPoolSize);
    DrawFromSize(negatives, HardPool(negatives, hardPoolSize), HardCount(negatives, kNeg, hardPoolSize, hardFrac),
                 kNeg, drawn);
  }

  lemma DrawFromSize(negatives: seq<Doc>, pool: seq<Doc>, h: int, kNeg: int, drawn: seq<Doc>)
    requires DistinctIds(negatives) && |negatives| >= kNeg
    requires multiset(pool) <= multiset(negatives)
    requires IsDrawFrom(negatives, pool, h, kNeg, drawn)
    ensures |drawn| == kNeg
  {
    var hard := drawn[..h];
    assert multiset(hard) <= multiset(negatives);
    RestPoolComplement(negatives, hard);
    var rest := RestPool(negatives, hard);
    assert |multiset(rest)| + |multiset(hard)| == |multiset(negatives)|;
    assert |rest| == |negatives| - h;
    assert drawn == hard + drawn[h..];
  }

  lemma HardPoolWithin(negatives: seq<Doc>, hardPoolSize: int)
    ensures multiset(HardPool(negatives, hardPoolSize)) <= multiset(negatives)
  {
    var sorted := SortBySimDesc(negatives);
    var b := SliceBound(hardPoolSize, |sorted|);
    assert sorted == sorted[..b] + sorted[b..];
  }

  /** The drawn negatives are negatives of the claim, and no id is drawn twice. */
  lemma DrawDistinct(negatives: seq<Doc>, kNeg: int, hardPoolSize: int, hardFrac: real, drawn: seq<Doc>)
    requires DistinctIds(negatives)
    requires IsDraw(negatives, kNeg, hardPoolSize, hardFrac, drawn)
    ensures DistinctIds(drawn)
    ensures forall d :: d in drawn ==> d in negatives
  {
    HardPoolWithin(negatives, hardPoolSize);
    DrawFromDistinct(negatives, HardPool(negatives, hardPoolSize), HardCount(negatives, kNeg, hardPoolSize, hardFrac),
                     kNeg, drawn);
  }

  lemma DrawFromDistinct(negatives: seq<Doc>, pool: seq<Doc>, h: int, kNeg: int, drawn: seq<Doc>)
    requires DistinctIds(negatives)
    requires multiset(pool) <= multiset(negatives)
    requires IsDrawFrom(negatives, pool, h, kNeg, drawn)
    ensures DistinctIds(drawn)
    ensures forall d :: d in drawn ==> d in negatives
  {
    if |negatives| >= kNeg {
      var hard, rand := drawn[..h], drawn[h..];
      assert multiset(hard) <= multiset(negatives);
      RestPoolComplement(negatives, hard);
      TwoStageDraw(negatives, hard, RestPool(negatives, hard), rand);
      assert drawn == hard + rand;
    }
  }

  /** Drawing `hard` from a pool of distinct ids, then `rand` from what has another id,
      draws distinct ids from the pool. */
  lemma TwoStageDraw(negatives: seq<Doc>, hard: seq<Doc>, rest: seq<Doc>, rand: seq<Doc>)
    requires DistinctIds(negatives)
    requires multiset(hard) <= multiset(negatives)
    requires multiset(rest) + multiset(hard) == multiset(negatives)
    requires forall d :: d in rest ==> d.docid !in DocIds(hard)
    requires multiset(rand) <= multiset(rest)
    ensures DistinctIds(hard + rand)
    ensures forall d :: d in hard + rand ==> d in negatives
  {
    var drawn := hard + rand;
    var h := |hard|;
    SampleKeepsDistinct(negatives, hard);
    assert multiset(rand) <= multiset(negatives);
    SampleKeepsDistinct(negatives, rand);
    forall d | d in drawn ensures d in negatives {
      if d in hard { SubMultisetMember(hard, negatives, d); }
      else { SubMultisetMember(rand, negatives, d); }
    }
    forall i, j | 0 <= i < h <= j < |drawn| ensures drawn[i].docid != drawn[j].docid {
      assert drawn[j] == rand[j - h];
      SubMultisetMember(rand, rest, rand[j - h]);
      assert drawn[i].docid == DocIds(hard)[i];
    }
  }

  /** The hard draws come first, and each of them is at least as similar as every
      negative left outside the hard pool. */
  lemma HardDrawsComeFirst(negatives: seq<Doc>, kNeg: int, hardPoolSize: int, hardFrac: real, drawn: seq<Doc>)
    requires |negatives| >= kNeg
    requires IsDraw(negatives, kNeg, hardPoolSize, hardFrac, drawn)
    ensures var h := HardCount(negatives, kNeg, hardPoolSize, hardFrac);
            var sorted := SortBySimDesc(negatives);
            var b := SliceBound(hardPoolSize, |sorted|);
            forall i, j :: 0 <= i < h && b <= j < |sorted| ==> drawn[i].sim >= sorted[j].sim
  {
    var h := HardCount(negatives, kNeg, hardPoolSize, hardFrac);
    var sorted := SortBySimDesc(negatives);
    var b := SliceBound(hardPoolSize, |sorted|);
    var pool := sorted[..b];
    forall i, j | 0 <= i < h && b <= j < |sorted| ensures drawn[i].sim >= sorted[j].sim {
      assert drawn[i] == drawn[..h][i];
      SubMultisetMember(drawn[..h], pool, drawn[i]);
      var a :| 0 <= a < |pool| && pool[a] == drawn[i];
      assert sorted[a] == drawn[i];
    }
  }

  /** With a hard pool of one and at least one hard draw, the first negative drawn is
      a most similar negative of the claim. */
  lemma FirstDrawIsMostSimilar(negatives: seq<Doc>, kNeg: int, hardFrac: real, drawn: seq<Doc>)
    requires 1 <= kNeg <= |negatives| && KHard(hardFrac, kNeg) >= 1
    requires IsDraw(negatives, kNeg, 1, hardFrac, drawn)
    ensures |drawn| >= 1 && drawn[0] == SortBySimDesc(negatives)[0]
    ensures forall d :: d in negatives ==> drawn[0].sim >= d.sim
  {
    var sorted := SortBySimDesc(negatives);
    var pool := HardPool(negatives, 1);
    assert pool == [sorted[0]];
    assert HardCount(negatives, kNeg, 1, hardFrac) == 1;
    FirstOfSingletonPool(negatives, pool, kNeg, drawn);
    SortedHeadIsMostSimilar(negatives);
  }

  /** A draw whose one hard negative comes from a one-element pool starts with it. */
  lemma FirstOfSingletonPool(negatives: seq<Doc>, pool: seq<Doc>, kNeg: int, drawn: seq<Doc>)
    requires |negatives| >= kNeg && |pool| == 1
    requires IsDrawFrom(negatives, pool, 1, kNeg, drawn)
    ensures |drawn| >= 1 && drawn[0] == pool[0]
  {
    SingletonSample(pool, drawn[..1]);
    assert drawn[0] == drawn[..1][0];
  }

  /** The head of the descending order is at least as similar as every document. */
  lemma SortedHeadIsMostSimilar(docs: seq<Doc>)
    requires |docs| > 0
    ensures forall d :: d in docs ==> SortBySimDesc(docs)[0].sim >= d.sim
  {
    var sorted := SortBySimDesc(docs);
    forall d | d in docs ensures sorted[0].sim >= d.sim {
      assert d in multiset(sorted);
      var j :| 0 <= j < |sorted| && sorted[j] == d;
    }
  }

  lemma SingletonSample<T>(pool: seq<T>, s: seq<T>)
    requires |pool| == 1 && IsSample(pool, 1, s)
    ensures s == pool
  {
    assert s[0] in multiset(s);
    assert s == [s[0]];
    assert pool == [pool[0]];
  }
}
