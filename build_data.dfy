/** The per-claim dataset builder (factcheck_relevance/build_data.py): shuffle the
    claims, split them into dev and train, classify and deduplicate each claim's
    evidence, fill one corpus shared by both splits, build training instances for
    train claims and queries and qrels for dev claims. */
module BuildData {
  import opened Common
  import opened NegativeSampling

  datatype Split = Train | Dev

  function SplitName(split: Split): string {
    match split
    case Train => "train"
    case Dev => "dev"
  }

  /** `f"{split_name}_c{i:06d}"` */
  function ClaimId(split: Split, i: nat): string {
    SplitName(split) + "_c" + ZeroPad(i, 6)
  }

  /** `f"d_{claim_id}_{j:04d}"`, where j is the index of the evidence item in its claim. */
  function DocId(claimId: string, j: nat): string {
    "d_" + claimId + "_" + ZeroPad(j, 4)
  }

  /** Every document id of a split starts with this. */
  function DocPrefix(split: Split): string {
    "d_" + SplitName(split) + "_c"
  }

  /** The resolved configuration: `dev_ratio`, `k_neg`, `hard_pool_size`, `hard_frac`,
      `label_mapping`. */
  datatype Config = Config(devRatio: real, kNeg: int, hardPoolSize: int, hardFrac: real,
                           labelMapping: map<string, string>)

  /** `{"query": ..., "positives": [...], "negatives": [...]}` */
  datatype Instance = Instance(query: string, positives: seq<string>, negatives: seq<string>)

  /** `{"query_id": ..., "query": ...}` */
  datatype Query = Query(queryId: string, query: string)

  datatype SplitOutput = SplitOutput(instances: seq<Instance>, queries: seq<Query>,
                                     qrels: seq<QrelRow>, skippedNoPos: nat)

  datatype BuildOutput = BuildOutput(trainInstances: seq<Instance>, devInstances: seq<Instance>,
                                     corpus: seq<TextRecord>, devQueries: seq<TextRecord>,
                                     devQrels: seq<QrelRow>)

  // ---------------------------------------------------------------------------
  // Identifiers

  lemma DocIdInClaimInjective(cid: string, j1: nat, j2: nat)
    ensures DocId(cid, j1) == DocId(cid, j2) ==> j1 == j2
  {
    if DocId(cid, j1) == DocId(cid, j2) {
      var p := "d_" + cid + "_";
      assert DocId(cid, j1) == p + ZeroPad(j1, 4) && DocId(cid, j2) == p + ZeroPad(j2, 4);
      assert ZeroPad(j1, 4) == DocId(cid, j1)[|p|..];
      ZeroPadInjective(j1, j2, 4);
    }
  }

  lemma DocIdShape(split: Split, i: nat, j: nat)
    ensures DocId(ClaimId(split, i), j) == DocPrefix(split) + (ZeroPad(i, 6) + ['_'] + ZeroPad(j, 4))
  {
  }

  /** Document ids name their split, claim and evidence index: distinct triples give
      distinct ids. */
  lemma DocIdInjective(s1: Split, i1: nat, j1: nat, s2: Split, i2: nat, j2: nat)
    ensures DocId(ClaimId(s1, i1), j1) == DocId(ClaimId(s2, i2), j2) ==> s1 == s2 && i1 == i2 && j1 == j2
  {
    var d1, d2 := DocId(ClaimId(s1, i1), j1), DocId(ClaimId(s2, i2), j2);
    if d1 == d2 {
      DocIdShape(s1, i1, j1);
      DocIdShape(s2, i2, j2);
      assert d1[2] == SplitName(s1)[0] && d2[2] == SplitName(s2)[0];
      assert s1 == s2;
      var p := DocPrefix(s1);
      assert d1[|p|..] == ZeroPad(i1, 6) + ['_'] + ZeroPad(j1, 4);
      assert d2[|p|..] == ZeroPad(i2, 6) + ['_'] + ZeroPad(j2, 4);
      SplitAfterDigits(ZeroPad(i1, 6), ZeroPad(j1, 4), ZeroPad(i2, 6), ZeroPad(j2, 4), '_');
      ZeroPadInjective(i1, i2, 6);
      ZeroPadInjective(j1, j2, 4);
    }
  }

  lemma DocIdHasPrefix(split: Split, i: nat, j: nat)
    ensures IsPrefix(DocPrefix(split), DocId(ClaimId(split, i), j))
  {
    DocIdShape(split, i, j);
  }

  /** No string starts with both split prefixes. */
  lemma SplitPrefixesDisjoint(k: string)
    ensures !(IsPrefix(DocPrefix(Train), k) && IsPrefix(DocPrefix(Dev), k))
  {
    if IsPrefix(DocPrefix(Train), k) {
      assert k[2] == 't';
    }
  }

  // ---------------------------------------------------------------------------
  // One claim's evidence (lines 41-66)

  /** Evidence j is the first with its snippet: no earlier item was seen with it. */
  predicate IsFirst(ev: seq<Evidence>, j: nat)
    requires j < |ev|
  {
    forall k :: 0 <= k < j ==> ev[k].snippet != ev[j].snippet
  }

  function EvidenceDoc(cid: string, ev: seq<Evidence>, j: nat): Doc
    requires j < |ev|
  {
    Doc(DocId(cid, j), ev[j].snippet, ev[j].sim)
  }

  /** The documents of class `cls` kept from `ev[..n]`: first occurrences of a snippet
      whose label the table maps to `cls`, in evidence order. */
  function Kept(cid: string, ev: seq<Evidence>, m: map<string, string>, n: nat, cls: Class): seq<Doc>
    requires n <= |ev|
  {
    if n == 0 then []
    else
      Kept(cid, ev, m, n - 1, cls) +
      (if IsFirst(ev, n - 1) && Classify(m, ev[n - 1].relevanceLabel) == cls
       then [EvidenceDoc(cid, ev, n - 1)] else [])
  }

  function Positives(cid: string, ev: seq<Evidence>, m: map<string, string>): seq<Doc> {
    Kept(cid, ev, m, |ev|, Positive)
  }

  function Negatives(cid: string, ev: seq<Evidence>, m: map<string, string>): seq<Doc> {
    Kept(cid, ev, m, |ev|, Negative)
  }

  /** The corpus entries `ev[..n]` adds, in evidence order: every kept positive or negative. */
  function Retained(cid: string, ev: seq<Evidence>, m: map<string, string>, n: nat): seq<TextRecord>
    requires n <= |ev|
  {
    if n == 0 then []
    else
      Retained(cid, ev, m, n - 1) +
      (if IsFirst(ev, n - 1) && Classify(m, ev[n - 1].relevanceLabel) != Dropped
       then [TextRecord(DocId(cid, n - 1), ev[n - 1].snippet)] else [])
  }

  /** Every kept document is the first occurrence of its snippet, at an index below n,
      with the class it was kept for. */
  lemma {:induction false} KeptIndex(cid: string, ev: seq<Evidence>, m: map<string, string>, n: nat, cls: Class, d: Doc)
    requires n <= |ev| && d in Kept(cid, ev, m, n, cls)
    ensures exists j :: 0 <= j < n && d == EvidenceDoc(cid, ev, j) && IsFirst(ev, j)
                        && Classify(m, ev[j].relevanceLabel) == cls
  {
    if d !in Kept(cid, ev, m, n - 1, cls) {
      assert d == EvidenceDoc(cid, ev, n - 1);
    } else {
      KeptIndex(cid, ev, m, n - 1, cls, d);
    }
  }

  /** Evidence j yields a document of class `cls` exactly when it is the first with its
      snippet and its label maps to `cls`. */
  lemma {:induction false} KeptExactly(cid: string, ev: seq<Evidence>, m: map<string, string>, n: nat, cls: Class, j: nat)
    requires j < n <= |ev|
    ensures EvidenceDoc(cid, ev, j) in Kept(cid, ev, m, n, cls)
            <==> IsFirst(ev, j) && Classify(m, ev[j].relevanceLabel) == cls
  {
    var d := EvidenceDoc(cid, ev, j);
    if d in Kept(cid, ev, m, n, cls) {
      KeptIndex(cid, ev, m, n, cls, d);
      var j' :| 0 <= j' < n && d == EvidenceDoc(cid, ev, j') && IsFirst(ev, j')
                && Classify(m, ev[j'].relevanceLabel) == cls;
      DocIdInClaimInjective(cid, j, j');
    }
    if IsFirst(ev, j) && Classify(m, ev[j].relevanceLabel) == cls {
      KeptGrows(cid, ev, m, j + 1, n, cls);
    }
  }

  lemma {:induction false} KeptGrows(cid: string, ev: seq<Evidence>, m: map<string, string>, n1: nat, n2: nat, cls: Class)
    requires n1 <= n2 <= |ev|
    ensures forall d :: d in Kept(cid, ev, m, n1, cls) ==> d in Kept(cid, ev, m, n2, cls)
    decreases n2
  {
    if n1 < n2 {
      KeptGrows(cid, ev, m, n1, n2 - 1, cls);
    }
  }

  /** First occurrence wins, whatever its label: once a snippet's first occurrence is
      dropped, no later copy of it is kept as a positive or a negative. */
  lemma DroppedSnippetStaysOut(cid: string, ev: seq<Evidence>, m: map<string, string>, k: nat, j: nat)
    requires k < |ev| && j < |ev| && IsFirst(ev, k) && Classify(m, ev[k].relevanceLabel) == Dropped
    requires ev[j].snippet == ev[k].snippet
    ensures EvidenceDoc(cid, ev, j) !in Positives(cid, ev, m)
    ensures EvidenceDoc(cid, ev, j) !in Negatives(cid, ev, m)
  {
    KeptExactly(cid, ev, m, |ev|, Positive, j);
    KeptExactly(cid, ev, m, |ev|, Negative, j);
    if j > k {
      assert !IsFirst(ev, j);
    }
  }

  /** Within a claim, kept documents of either class never share a snippet, and all
      their ids differ. */
  lemma KeptUnique(cid: string, ev: seq<Evidence>, m: map<string, string>, c1: Class, c2: Class, a: Doc, b: Doc)
    requires a in Kept(cid, ev, m, |ev|, c1) && b in Kept(cid, ev, m, |ev|, c2)
    requires a.text == b.text || a.docid == b.docid
    ensures a == b && c1 == c2
  {
    KeptIndex(cid, ev, m, |ev|, c1, a);
    KeptIndex(cid, ev, m, |ev|, c2, b);
    var ja :| 0 <= ja < |ev| && a == EvidenceDoc(cid, ev, ja) && IsFirst(ev, ja)
              && Classify(m, ev[ja].relevanceLabel) == c1;
    var jb :| 0 <= jb < |ev| && b == EvidenceDoc(cid, ev, jb) && IsFirst(ev, jb)
              && Classify(m, ev[jb].relevanceLabel) == c2;
    DocIdInClaimInjective(cid, ja, jb);
    if a.text == b.text {
      FirstUnique(ev, ja, jb);
    }
  }

  /** Two first occurrences of the same snippet are the same evidence item. */
  lemma FirstUnique(ev: seq<Evidence>, j1: nat, j2: nat)
    requires j1 < |ev| && j2 < |ev| && IsFirst(ev, j1) && IsFirst(ev, j2)
    requires ev[j1].snippet == ev[j2].snippet
    ensures j1 == j2
  {
  }

  /** The kept documents of one class, read in order, have pairwise distinct ids and
      pairwise distinct snippets. */
  lemma {:induction false} KeptDistinct(cid: string, ev: seq<Evidence>, m: map<string, string>, n: nat, cls: Class)
    requires n <= |ev|
    ensures DistinctIds(Kept(cid, ev, m, n, cls))
    ensures Distinct(Texts(Kept(cid, ev, m, n, cls)))
  {
    if n > 0 {
      KeptDistinct(cid, ev, m, n - 1, cls);
      if IsFirst(ev, n - 1) && Classify(m, ev[n - 1].relevanceLabel) == cls {
        var prev := Kept(cid, ev, m, n - 1, cls);
        KeptFresh(cid, ev, m, n, cls);
        AppendFreshDoc(prev, EvidenceDoc(cid, ev, n - 1));
      }
    }
  }

  /** The first occurrence of a snippet differs, in id and snippet, from every
      document kept before it. */
  lemma KeptFresh(cid: string, ev: seq<Evidence>, m: map<string, string>, n: nat, cls: Class)
    requires 0 < n <= |ev| && IsFirst(ev, n - 1)
    ensures forall d :: d in Kept(cid, ev, m, n - 1, cls) ==>
              d.docid != DocId(cid, n - 1) && d.text != ev[n - 1].snippet
  {
    forall d | d in Kept(cid, ev, m, n - 1, cls)
      ensures d.docid != DocId(cid, n - 1) && d.text != ev[n - 1].snippet
    {
      KeptIndex(cid, ev, m, n - 1, cls, d);
      var j :| 0 <= j < n - 1 && d == EvidenceDoc(cid, ev, j) && IsFirst(ev, j)
               && Classify(m, ev[j].relevanceLabel) == cls;
      DocIdInClaimInjective(cid, j, n - 1);
    }
  }

  /** The corpus entries of a claim are exactly its kept positives and negatives. */
  lemma {:induction false} RetainedIsKept(cid: string, ev: seq<Evidence>, m: map<string, string>, n: nat)
    requires n <= |ev|
    ensures multiset(Retained(cid, ev, m, n))
            == multiset(Records(Kept(cid, ev, m, n, Positive))) + multiset(Records(Kept(cid, ev, m, n, Negative)))
  {
    if n > 0 {
      RetainedIsKept(cid, ev, m, n - 1);
      RetainedStep(cid, ev, m, n);
      KeptRecordsStep(cid, ev, m, n, Positive);
      KeptRecordsStep(cid, ev, m, n, Negative);
    }
  }

  lemma RetainedStep(cid: string, ev: seq<Evidence>, m: map<string, string>, n: nat)
    requires 0 < n <= |ev|
    ensures multiset(Retained(cid, ev, m, n)) == multiset(Retained(cid, ev, m, n - 1))
              + (if IsFirst(ev, n - 1) && Classify(m, ev[n - 1].relevanceLabel) != Dropped
                 then multiset{TextRecord(DocId(cid, n - 1), ev[n - 1].snippet)} else multiset{})
  {
  }

  lemma KeptRecordsStep(cid: string, ev: seq<Evidence>, m: map<string, string>, n: nat, cls: Class)
    requires 0 < n <= |ev|
    ensures multiset(Records(Kept(cid, ev, m, n, cls))) == multiset(Records(Kept(cid, ev, m, n - 1, cls)))
              + (if IsFirst(ev, n - 1) && Classify(m, ev[n - 1].relevanceLabel) == cls
                 then multiset{TextRecord(DocId(cid, n - 1), ev[n - 1].snippet)} else multiset{})
  {
    var prev := Kept(cid, ev, m, n - 1, cls);
    if IsFirst(ev, n - 1) && Classify(m, ev[n - 1].relevanceLabel) == cls {
      var d := EvidenceDoc(cid, ev, n - 1);
      assert Kept(cid, ev, m, n, cls) == prev + [d];
      assert Records(prev + [d]) == Records(prev) + [TextRecord(d.docid, d.text)];
    } else {
      assert Kept(cid, ev, m, n, cls) == prev;
    }
  }

  function Records(docs: seq<Doc>): (rs: seq<TextRecord>)
    ensures |rs| == |docs|
  {
    seq(|docs|, i requires 0 <= i < |docs| => TextRecord(docs[i].docid, docs[i].text))
  }

  lemma RecordsAppend(a: seq<Doc>, b: seq<Doc>)
    ensures Records(a + b) == Records(a) + Records(b)
  {
  }

  /** No id outside the claim's own ids is among the claim's corpus entries. */
  lemma {:induction false} RetainedIds(cid: string, ev: seq<Evidence>, m: map<string, string>, n: nat, x: string)
    requires n <= |ev|
    requires forall j :: 0 <= j < n ==> x != DocId(cid, j)
    ensures x !in Ids(Retained(cid, ev, m, n))
  {
    if n > 0 {
      RetainedIds(cid, ev, m, n - 1, x);
      IdsAppend(Retained(cid, ev, m, n - 1),
                if IsFirst(ev, n - 1) && Classify(m, ev[n - 1].relevanceLabel) != Dropped
                then [TextRecord(DocId(cid, n - 1), ev[n - 1].snippet)] else []);
    }
  }

  // ---------------------------------------------------------------------------
  // The shared corpus dict (line 26): `corpus[docid] = {"title": "", "text": snippet}`

  /** `[{"text_id": k, "text": texts[k]} for k in ids]` */
  function Entries(ids: seq<string>, texts: map<string, string>): (rs: seq<TextRecord>)
    ensures |rs| == |ids|
  {
    seq(|ids|, i requires 0 <= i < |ids| => TextRecord(ids[i], if ids[i] in texts then texts[ids[i]] else ""))
  }

  lemma EntriesIds(ids: seq<string>, texts: map<string, string>)
    ensures Ids(Entries(ids, texts)) == ids
  {
  }

  /** A Python dict in insertion order: `ids` lists the keys in the order they were first
      set, `texts` holds the current values. Titles are always empty and not kept. */
  class Corpus {
    var ids: seq<string>
    var texts: map<string, string>

    ghost predicate Valid()
      reads this
    {
      Distinct(ids) && forall k :: k in texts <==> k in ids
    }

    constructor ()
      ensures Valid() && ids == [] && texts == map[]
    {
      ids := [];
      texts := map[];
    }

    /** `corpus.items()` as the `{"text_id", "text"}` records of line 131. */
    function Items(): seq<TextRecord>
      reads this
    {
      Entries(ids, texts)
    }

    /** `corpus[docid] = text`: a new key goes to the end, an old key keeps its place. */
    method Put(docid: string, text: string)
      requires Valid()
      modifies this
      ensures Valid()
      ensures texts == old(texts)[docid := text]
      ensures ids == if docid in old(texts) then old(ids) else old(ids) + [docid]
      ensures docid !in old(texts) ==> Items() == old(Items()) + [TextRecord(docid, text)]
    {
      if docid !in texts {
        ids := ids + [docid];
      }
      texts := texts[docid := text];
    }
  }

  /** The snippets of `ev[..n]`: the `seen` set after n items. */
  function Snippets(ev: seq<Evidence>, n: nat): set<string>
    requires n <= |ev|
  {
    if n == 0 then {} else Snippets(ev, n - 1) + {ev[n - 1].snippet}
  }

  lemma {:induction false} SnippetsMember(ev: seq<Evidence>, n: nat, x: string)
    requires n <= |ev|
    ensures x in Snippets(ev, n) <==> exists k :: 0 <= k < n && ev[k].snippet == x
  {
    if n > 0 {
      SnippetsMember(ev, n - 1, x);
    }
  }

  /** An item's snippet was seen before it exactly when it is not a first occurrence. */
  lemma SnippetsBefore(ev: seq<Evidence>, n: nat)
    requires n < |ev|
    ensures ev[n].snippet in Snippets(ev, n) <==> !IsFirst(ev, n)
  {
    SnippetsMember(ev, n, ev[n].snippet);
  }

  /** The ids of the later evidence items of a claim differ from that of item j. */
  lemma LaterDocIdsDiffer(cid: string, j: nat, n: nat)
    ensures forall k :: j < k < n ==> DocId(cid, k) != DocId(cid, j)
  {
    forall k | j < k < n ensures DocId(cid, k) != DocId(cid, j) {
      DocIdInClaimInjective(cid, j, k);
    }
  }

  /** The corpus after item j is the corpus before it plus item j's retained entry. */
  lemma RetainedNext(cid: string, ev: seq<Evidence>, m: map<string, string>, j: nat,
                     initial: seq<TextRecord>, before: seq<TextRecord>, after: seq<TextRecord>)
    requires j < |ev| && before == initial + Retained(cid, ev, m, j)
    requires after == before + (if IsFirst(ev, j) && Classify(m, ev[j].relevanceLabel) != Dropped
                                then [TextRecord(DocId(cid, j), ev[j].snippet)] else [])
    ensures after == initial + Retained(cid, ev, m, j + 1)
  {
    var added := if IsFirst(ev, j) && Classify(m, ev[j].relevanceLabel) != Dropped
                 then [TextRecord(DocId(cid, j), ev[j].snippet)] else [];
    AppendAssoc(initial, Retained(cid, ev, m, j), added);
  }

  /** Lines 41-66: classify and deduplicate one claim's evidence, adding each kept
      positive and negative to the corpus. */
  method ClassifyEvidence(cid: string, ev: seq<Evidence>, m: map<string, string>, corpus: Corpus)
    returns (positives: seq<Doc>, negatives: seq<Doc>)
    requires corpus.Valid()
    requires forall j :: 0 <= j < |ev| ==> DocId(cid, j) !in corpus.texts
    modifies corpus
    ensures corpus.Valid()
    ensures positives == Positives(cid, ev, m) && negatives == Negatives(cid, ev, m)
    ensures corpus.Items() == old(corpus.Items()) + Retained(cid, ev, m, |ev|)
    ensures corpus.ids == old(corpus.ids) + Ids(Retained(cid, ev, m, |ev|))
  {
    positives, negatives := [], [];
    ghost var initial := corpus.Items();
    EntriesIds(corpus.ids, corpus.texts);
    var seen: set<string> := {};
    var j := 0;
    while j < |ev|
      invariant 0 <= j <= |ev|
      invariant seen == Snippets(ev, j)
      invariant positives == Kept(cid, ev, m, j, Positive)
      invariant negatives == Kept(cid, ev, m, j, Negative)
      invariant corpus.Valid()
      invariant corpus.Items() == initial + Retained(cid, ev, m, j)
      invariant forall k :: j <= k < |ev| ==> DocId(cid, k) !in corpus.texts
    {
      var snippet := ev[j].snippet;
      ghost var before := corpus.Items();
      SnippetsBefore(ev, j);
      LaterDocIdsDiffer(cid, j, |ev|);
      if snippet !in seen {
        seen := seen + {snippet};
        var docid := DocId(cid, j);
        var mapped := Classify(m, ev[j].relevanceLabel);
        if mapped == Positive {
          positives := positives + [Doc(docid, snippet, ev[j].sim)];
          corpus.Put(docid, snippet);
        } else if mapped == Negative {
          negatives := negatives + [Doc(docid, snippet, ev[j].sim)];
          corpus.Put(docid, snippet);
        }
      }
      RetainedNext(cid, ev, m, j, initial, before, corpus.Items());
      j := j + 1;
    }
    EntriesIds(corpus.ids, corpus.texts);
    IdsAppend(initial, Retained(cid, ev, m, |ev|));
  }

  // ---------------------------------------------------------------------------
  // Training instances of one claim (lines 78-117)

  /** `inst` is a possible instance for positive `pos`: the claim text, the positive's
      snippet, and the snippets of one draw of negatives. */
  ghost predicate IsInstance(claimText: string, pos: Doc, negatives: seq<Doc>, cfg: Config, inst: Instance) {
    && inst.query == claimText
    && inst.positives == [pos.text]
    && exists drawn :: IsDraw(negatives, cfg.kNeg, cfg.hardPoolSize, cfg.hardFrac, drawn)
                       && inst.negatives == Texts(drawn)
  }

  /** One instance per positive when the claim has at least `k_neg` negatives, none otherwise. */
  ghost predicate InstancesOf(claimText: string, positives: seq<Doc>, negatives: seq<Doc>, cfg: Config,
                              insts: seq<Instance>) {
    InstancesUpTo(claimText, positives, negatives, cfg, |positives|, insts)
  }

  /** The instances of the first `p` positives. */
  ghost predicate InstancesUpTo(claimText: string, positives: seq<Doc>, negatives: seq<Doc>, cfg: Config, p: nat,
                                insts: seq<Instance>)
    requires p <= |positives|
  {
    && |insts| == (if |negatives| < cfg.kNeg then 0 else p)
    && forall q :: 0 <= q < |insts| ==> IsInstance(claimText, positives[q], negatives, cfg, insts[q])
  }

  predicate ClaimDrawFails(positives: seq<Doc>, negatives: seq<Doc>, cfg: Config) {
    |positives| > 0 && DrawFails(negatives, cfg.kNeg, cfg.hardPoolSize, cfg.hardFrac)
  }

  /** The snippets of the sampled negatives, in draw order (lines 113-114). */
  method NegativeTexts(drawn: seq<Doc>) returns (texts: seq<string>)
    ensures texts == Texts(drawn)
  {
    texts := [];
    var t := 0;
    while t < |drawn|
      invariant 0 <= t <= |drawn|
      invariant texts == Texts(drawn[..t])
    {
      texts := texts + [drawn[t].text];
      t := t + 1;
    }
    assert drawn[..t] == drawn;
  }

  /** The instance built from a draw is one of the possible instances. */
  lemma DrawnInstance(claimText: string, pos: Doc, negatives: seq<Doc>, cfg: Config, drawn: seq<Doc>)
    requires IsDraw(negatives, cfg.kNeg, cfg.hardPoolSize, cfg.hardFrac, drawn)
    ensures IsInstance(claimText, pos, negatives, cfg, Instance(claimText, [pos.text], Texts(drawn)))
  {
  }

  /** The instance of one positive (lines 79-117): none when the claim has fewer than
      `k_neg` negatives, else one built from a draw; fails when the draw fails. */
  method PositiveInstance(claimText: string, pos: Doc, negatives: seq<Doc>, cfg: Config)
    returns (r: Result<seq<Instance>, SampleError>)
    requires DistinctIds(negatives)
    ensures r.Failure? <==> DrawFails(negatives, cfg.kNeg, cfg.hardPoolSize, cfg.hardFrac)
    ensures r.Success? ==> |r.value| == (if |negatives| < cfg.kNeg then 0 else 1)
    ensures r.Success? ==> forall inst :: inst in r.value ==> IsInstance(claimText, pos, negatives, cfg, inst)
  {
    var sampled := SampleNegatives(negatives, cfg.kNeg, cfg.hardPoolSize, cfg.hardFrac);
    if sampled.Failure? {
      return Failure(sampled.error);
    }
    var drawn := sampled.value;
    var negTexts := NegativeTexts(drawn);
    if |negatives| >= cfg.kNeg {
      DrawSize(negatives, cfg.kNeg, cfg.hardPoolSize, cfg.hardFrac, drawn);
    }
    if |negTexts| >= cfg.kNeg {
      DrawnInstance(claimText, pos, negatives, cfg, drawn);
      return Success([Instance(claimText, [pos.text], negTexts)]);
    }
    return Success([]);
  }

  method ClaimInstances(claimText: string, positives: seq<Doc>, negatives: seq<Doc>, cfg: Config)
    returns (r: Result<seq<Instance>, SampleError>)
    requires DistinctIds(negatives)
    ensures r.Failure? <==> ClaimDrawFails(positives, negatives, cfg)
    ensures r.Success? ==> InstancesOf(claimText, positives, negatives, cfg, r.value)
  {
    var instances: seq<Instance> := [];
    var p := 0;
    while p < |positives|
      invariant 0 <= p <= |positives|
      invariant p > 0 ==> !DrawFails(negatives, cfg.kNeg, cfg.hardPoolSize, cfg.hardFrac)
      invariant InstancesUpTo(claimText, positives, negatives, cfg, p, instances)
    {
      var one := PositiveInstance(claimText, positives[p], negatives, cfg);
      if one.Failure? {
        return Failure(one.error);
      }
      InstancesOfStep(claimText, positives, negatives, cfg, p, instances, one.value);
      instances := instances + one.value;
      p := p + 1;
    }
    return Success(instances);
  }

  lemma InstancesOfStep(claimText: string, positives: seq<Doc>, negatives: seq<Doc>, cfg: Config, p: nat,
                        insts: seq<Instance>, one: seq<Instance>)
    requires p < |positives| && InstancesUpTo(claimText, positives, negatives, cfg, p, insts)
    requires |one| == (if |negatives| < cfg.kNeg then 0 else 1)
    requires forall inst :: inst in one ==> IsInstance(claimText, positives[p], negatives, cfg, inst)
    ensures InstancesUpTo(claimText, positives, negatives, cfg, p + 1, insts + one)
  {
    var next := insts + one;
    forall q | 0 <= q < |next| ensures IsInstance(claimText, positives[q], negatives, cfg, next[q]) {
      if q < |insts| {
        assert next[q] == insts[q];
      } else {
        assert q == p && next[q] == one[0] && one[0] in one;
      }
    }
  }

  /** Every instance of a claim has one positive snippet and `k_neg` distinct negative
      snippets, all taken from the claim's negatives and none equal to the positive. */
  lemma InstanceShape(cid: string, ev: seq<Evidence>, cfg: Config, claimText: string, insts: seq<Instance>)
    requires InstancesOf(claimText, Positives(cid, ev, cfg.labelMapping), Negatives(cid, ev, cfg.labelMapping), cfg, insts)
    ensures forall inst :: inst in insts ==>
              && |inst.positives| == 1
              && |inst.negatives| == cfg.kNeg
              && Distinct(inst.negatives)
              && inst.positives[0] !in inst.negatives
              && forall t :: t in inst.negatives ==> t in Texts(Negatives(cid, ev, cfg.labelMapping))
  {
    var m := cfg.labelMapping;
    var pos, neg := Positives(cid, ev, m), Negatives(cid, ev, m);
    forall inst | inst in insts
      ensures && |inst.positives| == 1
              && |inst.negatives| == cfg.kNeg
              && Distinct(inst.negatives)
              && inst.positives[0] !in inst.negatives
              && forall t :: t in inst.negatives ==> t in Texts(neg)
    {
      var p :| 0 <= p < |insts| && insts[p] == inst;
      var drawn: seq<Doc> :| IsDraw(neg, cfg.kNeg, cfg.hardPoolSize, cfg.hardFrac, drawn) && inst.negatives == Texts(drawn);
      DrawShape(cid, ev, cfg, pos[p], drawn);
    }
  }

  /** One draw for a positive of the claim: `k_neg` distinct negative snippets, none
      equal to the positive's. */
  lemma DrawShape(cid: string, ev: seq<Evidence>, cfg: Config, pos: Doc, drawn: seq<Doc>)
    requires pos in Positives(cid, ev, cfg.labelMapping)
    requires |Negatives(cid, ev, cfg.labelMapping)| >= cfg.kNeg
    requires IsDraw(Negatives(cid, ev, cfg.labelMapping), cfg.kNeg, cfg.hardPoolSize, cfg.hardFrac, drawn)
    ensures |Texts(drawn)| == cfg.kNeg
    ensures Distinct(Texts(drawn))
    ensures pos.text !in Texts(drawn)
    ensures forall t :: t in Texts(drawn) ==> t in Texts(Negatives(cid, ev, cfg.labelMapping))
  {
    var m := cfg.labelMapping;
    var neg := Negatives(cid, ev, m);
    KeptDistinct(cid, ev, m, |ev|, Negative);
    DrawSize(neg, cfg.kNeg, cfg.hardPoolSize, cfg.hardFrac, drawn);
    DrawDistinct(neg, cfg.kNeg, cfg.hardPoolSize, cfg.hardFrac, drawn);
    forall d | d in neg ensures d.text != pos.text {
      if d.text == pos.text {
        KeptUnique(cid, ev, m, Positive, Negative, pos, d);
      }
    }
    DrawnTexts(neg, pos, drawn);
  }

  /** Drawing distinct documents from documents with distinct snippets gives distinct
      snippets, all of them snippets of the pool. */
  lemma DrawnTexts(neg: seq<Doc>, pos: Doc, drawn: seq<Doc>)
    requires Distinct(Texts(neg))
    requires forall d :: d in neg ==> d.text != pos.text
    requires DistinctIds(drawn)
    requires forall d :: d in drawn ==> d in neg
    ensures Distinct(Texts(drawn))
    ensures pos.text !in Texts(drawn)
    ensures forall t :: t in Texts(drawn) ==> t in Texts(neg)
  {
    var texts := Texts(drawn);
    forall a | 0 <= a < |drawn| ensures texts[a] in Texts(neg) && texts[a] != pos.text {
      assert drawn[a] in drawn;
      var x :| 0 <= x < |neg| && neg[x] == drawn[a];
      assert Texts(neg)[x] == texts[a];
    }
    forall a, b | 0 <= a < b < |drawn| ensures texts[a] != texts[b] {
      assert drawn[a] in drawn && drawn[b] in drawn;
      var x :| 0 <= x < |neg| && neg[x] == drawn[a];
      var y :| 0 <= y < |neg| && neg[y] == drawn[b];
      assert Texts(neg)[x] == texts[a] && Texts(neg)[y] == texts[b];
      assert x != y;
    }
  }

  // ---------------------------------------------------------------------------
  // One split (lines 28-120)

  function ClaimPositives(split: Split, claims: seq<Claim>, m: map<string, string>, i: nat): seq<Doc>
    requires i < |claims|
  {
    Positives(ClaimId(split, i), claims[i].evidence, m)
  }

  function ClaimNegatives(split: Split, claims: seq<Claim>, m: map<string, string>, i: nat): seq<Doc>
    requires i < |claims|
  {
    Negatives(ClaimId(split, i), claims[i].evidence, m)
  }

  /** The corpus entries the first n claims of a split add, in order. */
  function SplitCorpus(split: Split, claims: seq<Claim>, m: map<string, string>, n: nat): seq<TextRecord>
    requires n <= |claims|
  {
    if n == 0 then []
    else SplitCorpus(split, claims, m, n - 1)
         + Retained(ClaimId(split, n - 1), claims[n - 1].evidence, m, |claims[n - 1].evidence|)
  }

  /** One query per dev claim, whether or not it has positives. */
  function DevQueries(claims: seq<Claim>, n: nat): (qs: seq<Query>)
    requires n <= |claims|
  {
    seq(n, i requires 0 <= i < n => Query(ClaimId(Dev, i), claims[i].text))
  }

  /** `[claim_id, 0, pid, 1]` for each positive. */
  function PositiveQrels(cid: string, positives: seq<Doc>): seq<QrelRow> {
    seq(|positives|, k requires 0 <= k < |positives| => QrelRow(cid, 0, positives[k].docid, 1))
  }

  function DevQrels(claims: seq<Claim>, m: map<string, string>, n: nat): seq<QrelRow>
    requires n <= |claims|
  {
    if n == 0 then []
    else DevQrels(claims, m, n - 1) + PositiveQrels(ClaimId(Dev, n - 1), ClaimPositives(Dev, claims, m, n - 1))
  }

  function NoPositiveCount(split: Split, claims: seq<Claim>, m: map<string, string>, n: nat): nat
    requires n <= |claims|
  {
    if n == 0 then 0
    else NoPositiveCount(split, claims, m, n - 1) + (if ClaimPositives(split, claims, m, n - 1) == [] then 1 else 0)
  }

  /** The instances of the first n train claims, claim after claim. */
  ghost predicate InstancesFor(claims: seq<Claim>, cfg: Config, n: nat, insts: seq<Instance>)
    requires n <= |claims|
    decreases n
  {
    if n == 0 then insts == []
    else
      var pos := ClaimPositives(Train, claims, cfg.labelMapping, n - 1);
      var neg := ClaimNegatives(Train, claims, cfg.labelMapping, n - 1);
      var g := if |neg| < cfg.kNeg then 0 else |pos|;
      && g <= |insts|
      && InstancesFor(claims, cfg, n - 1, insts[..|insts| - g])
      && InstancesOf(claims[n - 1].text, pos, neg, cfg, insts[|insts| - g..])
  }

  /** Some train claim among the first n has a positive and a failing draw. */
  predicate TrainFails(claims: seq<Claim>, cfg: Config, n: nat)
    requires n <= |claims|
  {
    n > 0 && (TrainFails(claims, cfg, n - 1) || ClaimFails(claims[n - 1], n - 1, cfg))
  }

  /** Train claim i has a positive and its draw of negatives fails. */
  predicate ClaimFails(claim: Claim, i: nat, cfg: Config) {
    var cid := ClaimId(Train, i);
    ClaimDrawFails(Positives(cid, claim.evidence, cfg.labelMapping), Negatives(cid, claim.evidence, cfg.labelMapping), cfg)
  }

  /** What the first i claims of a split have produced. */
  ghost predicate Accumulated(split: Split, claims: seq<Claim>, cfg: Config, i: nat,
                              instances: seq<Instance>, queries: seq<Query>, qrels: seq<QrelRow>, skipped: nat)
    requires i <= |claims|
  {
    var m := cfg.labelMapping;
    && (split == Train ==> InstancesFor(claims, cfg, i, instances) && queries == [] && qrels == [])
    && (split == Dev ==> instances == [] && queries == DevQueries(claims, i) && qrels == DevQrels(claims, m, i))
    && skipped == NoPositiveCount(split, claims, m, i)
  }

  ghost predicate SplitOutputOk(split: Split, claims: seq<Claim>, cfg: Config, out: SplitOutput) {
    Accumulated(split, claims, cfg, |claims|, out.instances, out.queries, out.qrels, out.skippedNoPos)
  }

  /** No id of claim i is among the corpus entries of the claims before it. */
  lemma {:induction false} FreshClaimIds(split: Split, claims: seq<Claim>, m: map<string, string>, n: nat, i: nat, j: nat)
    requires n <= i && n <= |claims|
    ensures DocId(ClaimId(split, i), j) !in Ids(SplitCorpus(split, claims, m, n))
  {
    if n > 0 {
      FreshClaimIds(split, claims, m, n - 1, i, j);
      var ev := claims[n - 1].evidence;
      OtherClaimIds(split, n - 1, ev, m, i, j);
      NotInIdsAppend(SplitCorpus(split, claims, m, n - 1), Retained(ClaimId(split, n - 1), ev, m, |ev|),
                     DocId(ClaimId(split, i), j));
    }
  }

  lemma NotInIdsAppend(a: seq<TextRecord>, b: seq<TextRecord>, x: string)
    requires x !in Ids(a) && x !in Ids(b)
    ensures x !in Ids(a + b)
  {
    IdsAppend(a, b);
  }

  /** The entries of claim c never carry an id of another claim i of the same split. */
  lemma OtherClaimIds(split: Split, c: nat, ev: seq<Evidence>, m: map<string, string>, i: nat, j: nat)
    requires c != i
    ensures DocId(ClaimId(split, i), j) !in Ids(Retained(ClaimId(split, c), ev, m, |ev|))
  {
    forall j' | 0 <= j' < |ev| ensures DocId(ClaimId(split, i), j) != DocId(ClaimId(split, c), j') {
      DocIdInjective(split, i, j, split, c, j');
    }
    RetainedIds(ClaimId(split, c), ev, m, |ev|, DocId(ClaimId(split, i), j));
  }

  /** Every corpus entry of a split carries that split's prefix. */
  lemma {:induction false} SplitCorpusPrefix(split: Split, claims: seq<Claim>, m: map<string, string>, n: nat)
    requires n <= |claims|
    ensures forall k :: k in Ids(SplitCorpus(split, claims, m, n)) ==> IsPrefix(DocPrefix(split), k)
  {
    if n > 0 {
      SplitCorpusPrefix(split, claims, m, n - 1);
      var ev := claims[n - 1].evidence;
      IdsAppend(SplitCorpus(split, claims, m, n - 1), Retained(ClaimId(split, n - 1), ev, m, |ev|));
      RetainedPrefix(split, n - 1, ev, m, |ev|);
    }
  }

  lemma {:induction false} RetainedPrefix(split: Split, i: nat, ev: seq<Evidence>, m: map<string, string>, n: nat)
    requires n <= |ev|
    ensures forall k :: k in Ids(Retained(ClaimId(split, i), ev, m, n)) ==> IsPrefix(DocPrefix(split), k)
  {
    if n > 0 {
      var cid := ClaimId(split, i);
      RetainedPrefix(split, i, ev, m, n - 1);
      IdsAppend(Retained(cid, ev, m, n - 1),
                if IsFirst(ev, n - 1) && Classify(m, ev[n - 1].relevanceLabel) != Dropped
                then [TextRecord(DocId(cid, n - 1), ev[n - 1].snippet)] else []);
      DocIdHasPrefix(split, i, n - 1);
    }
  }

  lemma InstancesForStep(claims: seq<Claim>, cfg: Config, n: nat, before: seq<Instance>, group: seq<Instance>)
    requires n < |claims|
    requires InstancesFor(claims, cfg, n, before)
    requires InstancesOf(claims[n].text, ClaimPositives(Train, claims, cfg.labelMapping, n),
                         ClaimNegatives(Train, claims, cfg.labelMapping, n), cfg, group)
    ensures InstancesFor(claims, cfg, n + 1, before + group)
  {
    var all := before + group;
    assert all[..|all| - |group|] == before;
    assert all[|all| - |group|..] == group;
  }

  /** What one claim contributes to its split's outputs. */
  datatype ClaimOutput = ClaimOutput(instances: seq<Instance>, queries: seq<Query>, qrels: seq<QrelRow>,
                                     noPositives: bool)

  ghost predicate ClaimOutputOk(claim: Claim, i: nat, split: Split, cfg: Config, out: ClaimOutput) {
    var cid := ClaimId(split, i);
    var pos := Positives(cid, claim.evidence, cfg.labelMapping);
    var neg := Negatives(cid, claim.evidence, cfg.labelMapping);
    && out.noPositives == (pos == [])
    && (split == Train ==> InstancesOf(claim.text, pos, neg, cfg, out.instances) && out.queries == [] && out.qrels == [])
    && (split == Dev ==> out.instances == [] && out.queries == [Query(cid, claim.text)]
                         && out.qrels == PositiveQrels(cid, pos))
  }

  /** The body of the loop of `process_claims` (lines 35-117) for claim i of a split. */
  method ProcessClaim(claim: Claim, i: nat, split: Split, cfg: Config, corpus: Corpus)
    returns (r: Result<ClaimOutput, SampleError>)
    requires corpus.Valid()
    requires forall j :: 0 <= j < |claim.evidence| ==> DocId(ClaimId(split, i), j) !in corpus.texts
    modifies corpus
    ensures corpus.Valid()
    ensures corpus.Items() == old(corpus.Items()) + Retained(ClaimId(split, i), claim.evidence, cfg.labelMapping, |claim.evidence|)
    ensures corpus.ids == old(corpus.ids) + Ids(Retained(ClaimId(split, i), claim.evidence, cfg.labelMapping, |claim.evidence|))
    ensures r.Failure? <==> split == Train && ClaimFails(claim, i, cfg)
    ensures r.Success? ==> ClaimOutputOk(claim, i, split, cfg, r.value)
  {
    var m := cfg.labelMapping;
    var cid := ClaimId(split, i);
    var ev := claim.evidence;
    var positives, negatives := ClassifyEvidence(cid, ev, m, corpus);
    var queries: seq<Query> := [];
    var qrels: seq<QrelRow> := [];
    if split == Dev {
      queries := [Query(cid, claim.text)];
      var k := 0;
      while k < |positives|
        invariant 0 <= k <= |positives|
        invariant qrels == PositiveQrels(cid, positives[..k])
      {
        qrels := qrels + [QrelRow(cid, 0, positives[k].docid, 1)];
        k := k + 1;
      }
      assert positives[..k] == positives;
    }
    if positives == [] {
      return Success(ClaimOutput([], queries, qrels, true));
    }
    if split == Dev {
      return Success(ClaimOutput([], queries, qrels, false));
    }
    KeptDistinct(cid, ev, m, |ev|, Negative);
    var group := ClaimInstances(claim.text, positives, negatives, cfg);
    if group.Failure? {
      return Failure(group.error);
    }
    return Success(ClaimOutput(group.value, [], [], false));
  }

  /** Claim i's document ids are absent from a corpus holding only the earlier claims'
      entries and entries without the split's prefix. */
  lemma FreshInCorpus(split: Split, claims: seq<Claim>, m: map<string, string>, i: nat,
                      initialIds: seq<string>, ids: seq<string>, texts: map<string, string>)
    requires i <= |claims|
    requires forall k :: k in initialIds ==> !IsPrefix(DocPrefix(split), k)
    requires ids == initialIds + Ids(SplitCorpus(split, claims, m, i))
    requires forall k :: k in texts <==> k in ids
    ensures forall j :: DocId(ClaimId(split, i), j) !in texts
  {
    forall j: nat ensures DocId(ClaimId(split, i), j) !in ids {
      FreshClaimIds(split, claims, m, i, i, j);
      DocIdHasPrefix(split, i, j);
    }
  }

  lemma SplitOutputStep(split: Split, claims: seq<Claim>, cfg: Config, i: nat,
                        instances: seq<Instance>, queries: seq<Query>, qrels: seq<QrelRow>, skipped: nat,
                        out: ClaimOutput)
    requires i < |claims|
    requires Accumulated(split, claims, cfg, i, instances, queries, qrels, skipped)
    requires ClaimOutputOk(claims[i], i, split, cfg, out)
    ensures Accumulated(split, claims, cfg, i + 1, instances + out.instances, queries + out.queries,
                        qrels + out.qrels, skipped + if out.noPositives then 1 else 0)
  {
    var m := cfg.labelMapping;
    assert NoPositiveCount(split, claims, m, i + 1)
           == skipped + if ClaimPositives(split, claims, m, i) == [] then 1 else 0;
    if split == Train {
      InstancesForStep(claims, cfg, i, instances, out.instances);
    } else {
      DevQueriesStep(claims, i);
    }
  }

  lemma DevQueriesStep(claims: seq<Claim>, i: nat)
    requires i < |claims|
    ensures DevQueries(claims, i + 1) == DevQueries(claims, i) + [Query(ClaimId(Dev, i), claims[i].text)]
  {
  }

  /** The corpus holds what it held before the split plus the entries of the first i claims. */
  ghost predicate SplitCorpusHolds(items: seq<TextRecord>, ids: seq<string>, initial: seq<TextRecord>,
                                   initialIds: seq<string>, split: Split, claims: seq<Claim>, m: map<string, string>, i: nat)
    requires i <= |claims|
  {
    items == initial + SplitCorpus(split, claims, m, i) && ids == initialIds + Ids(SplitCorpus(split, claims, m, i))
  }

  lemma SplitCorpusStep(items: seq<TextRecord>, ids: seq<string>, initial: seq<TextRecord>,
                        initialIds: seq<string>, split: Split, claims: seq<Claim>, m: map<string, string>, i: nat,
                        items': seq<TextRecord>, ids': seq<string>)
    requires i < |claims|
    requires SplitCorpusHolds(items, ids, initial, initialIds, split, claims, m, i)
    requires items' == items + Retained(ClaimId(split, i), claims[i].evidence, m, |claims[i].evidence|)
    requires ids' == ids + Ids(Retained(ClaimId(split, i), claims[i].evidence, m, |claims[i].evidence|))
    ensures SplitCorpusHolds(items', ids', initial, initialIds, split, claims, m, i + 1)
  {
    var added := Retained(ClaimId(split, i), claims[i].evidence, m, |claims[i].evidence|);
    var prev := SplitCorpus(split, claims, m, i);
    assert SplitCorpus(split, claims, m, i + 1) == prev + added;
    AppendAssoc(initial, prev, added);
    IdsAppend(prev, added);
    AppendAssoc(initialIds, Ids(prev), Ids(added));
  }

  /** One turn of the loop of `process_claims`: outputs, corpus and the absence of a
      failure all extend from i claims to i + 1. */
  lemma ClaimStep(split: Split, claims: seq<Claim>, cfg: Config, i: nat,
                  instances: seq<Instance>, queries: seq<Query>, qrels: seq<QrelRow>, skipped: nat, out: ClaimOutput,
                  items: seq<TextRecord>, ids: seq<string>, initial: seq<TextRecord>, initialIds: seq<string>,
                  items': seq<TextRecord>, ids': seq<string>)
    requires i < |claims|
    requires Accumulated(split, claims, cfg, i, instances, queries, qrels, skipped)
    requires ClaimOutputOk(claims[i], i, split, cfg, out)
    requires SplitCorpusHolds(items, ids, initial, initialIds, split, claims, cfg.labelMapping, i)
    requires var ev := claims[i].evidence;
             var added := Retained(ClaimId(split, i), ev, cfg.labelMapping, |ev|);
             items' == items + added && ids' == ids + Ids(added)
    requires split == Train ==> !TrainFails(claims, cfg, i) && !ClaimFails(claims[i], i, cfg)
    ensures Accumulated(split, claims, cfg, i + 1, instances + out.instances, queries + out.queries,
                        qrels + out.qrels, skipped + if out.noPositives then 1 else 0)
    ensures SplitCorpusHolds(items', ids', initial, initialIds, split, claims, cfg.labelMapping, i + 1)
    ensures split == Train ==> !TrainFails(claims, cfg, i + 1)
  {
    SplitOutputStep(split, claims, cfg, i, instances, queries, qrels, skipped, out);
    SplitCorpusStep(items, ids, initial, initialIds, split, claims, cfg.labelMapping, i, items', ids');
  }

  lemma {:induction false} TrainFailsGrows(claims: seq<Claim>, cfg: Config, n1: nat, n2: nat)
    requires n1 <= n2 <= |claims|
    requires TrainFails(claims, cfg, n1)
    ensures TrainFails(claims, cfg, n2)
    decreases n2
  {
    if n1 < n2 {
      TrainFailsGrows(claims, cfg, n1, n2 - 1);
    }
  }

  /** `process_claims` (lines 28-120) for one split. The corpus receives the split's kept
      documents; a train split yields instances, a dev split queries and qrels. */
  method ProcessClaims(claims: seq<Claim>, split: Split, cfg: Config, corpus: Corpus)
    returns (r: Result<SplitOutput, SampleError>)
    requires corpus.Valid()
    requires forall k :: k in corpus.texts ==> !IsPrefix(DocPrefix(split), k)
    modifies corpus
    ensures corpus.Valid()
    ensures r.Failure? <==> split == Train && TrainFails(claims, cfg, |claims|)
    ensures r.Success? ==> corpus.Items() == old(corpus.Items()) + SplitCorpus(split, claims, cfg.labelMapping, |claims|)
    ensures r.Success? ==> corpus.ids == old(corpus.ids) + Ids(SplitCorpus(split, claims, cfg.labelMapping, |claims|))
    ensures r.Success? ==> SplitOutputOk(split, claims, cfg, r.value)
  {
    var m := cfg.labelMapping;
    ghost var initial := corpus.Items();
    ghost var initialIds := corpus.ids;
    var instances: seq<Instance> := [];
    var queries: seq<Query> := [];
    var qrels: seq<QrelRow> := [];
    var skippedNoPos := 0;
    var i := 0;
    while i < |claims|
      invariant 0 <= i <= |claims|
      invariant corpus.Valid()
      invariant SplitCorpusHolds(corpus.Items(), corpus.ids, initial, initialIds, split, claims, m, i)
      invariant split == Train ==> !TrainFails(claims, cfg, i)
      invariant Accumulated(split, claims, cfg, i, instances, queries, qrels, skippedNoPos)
    {
      FreshInCorpus(split, claims, m, i, initialIds, corpus.ids, corpus.texts);
      ghost var before, beforeIds := corpus.Items(), corpus.ids;
      var out := ProcessClaim(claims[i], i, split, cfg, corpus);
      if out.Failure? {
        TrainFailsGrows(claims, cfg, i + 1, |claims|);
        return Failure(out.error);
      }
      ClaimStep(split, claims, cfg, i, instances, queries, qrels, skippedNoPos, out.value,
                before, beforeIds, initial, initialIds, corpus.Items(), corpus.ids);
      instances := instances + out.value.instances;
      queries := queries + out.value.queries;
      qrels := qrels + out.value.qrels;
      skippedNoPos := skippedNoPos + if out.value.noPositives then 1 else 0;
      i := i + 1;
    }
    return Success(SplitOutput(instances, queries, qrels, skippedNoPos));
  }

  // ---------------------------------------------------------------------------
  // The whole build (lines 12-140)

  /** `int(num_claims * dev_ratio)`, as a slice bound of the shuffled list. */
  function DevCount(n: nat, devRatio: real): (d: nat)
    ensures d <= n
  {
    SliceBound(Trunc(n as real * devRatio), n)
  }

  /** For a ratio in [0, 1] the dev split is the first floor(n * dev_ratio) claims. */
  lemma DevCountIsFloor(n: nat, devRatio: real)
    requires 0.0 <= devRatio <= 1.0
    ensures DevCount(n, devRatio) == (n as real * devRatio).Floor
    ensures DevCount(n, devRatio) <= n
  {
    var x := n as real * devRatio;
    assert 0.0 <= x <= n as real by {
      assert n as real * devRatio <= n as real * 1.0;
    }
    assert Trunc(x) == x.Floor;
    assert 0 <= x.Floor <= n;
  }

  /** Lines 17-22: `random.shuffle`, then cut at `dev_size`. */
  method ShuffleAndSplit(raw: seq<Claim>, devRatio: real) returns (dev: seq<Claim>, train: seq<Claim>)
    ensures multiset(dev + train) == multiset(raw)
    ensures |dev| == DevCount(|raw|, devRatio)
  {
    var shuffled :| multiset(shuffled) == multiset(raw) && |shuffled| == |raw|;
    dev, train := CutAtDevSize(shuffled, devRatio);
  }

  /** Lines 19-22: the first `int(num_claims * dev_ratio)` claims are dev, the rest train. */
  method CutAtDevSize(shuffled: seq<Claim>, devRatio: real) returns (dev: seq<Claim>, train: seq<Claim>)
    ensures dev + train == shuffled
    ensures |dev| == DevCount(|shuffled|, devRatio)
  {
    var devSize := Trunc(|shuffled| as real * devRatio);
    dev := PyTake(shuffled, devSize);
    train := PyDrop(shuffled, devSize);
    TakeDropSplit(shuffled, devSize);
  }

  function QueryRecords(queries: seq<Query>): seq<TextRecord> {
    seq(|queries|, i requires 0 <= i < |queries| => TextRecord(queries[i].queryId, queries[i].query))
  }

  /** After the train split, no corpus key carries the dev id prefix. */
  lemma TrainCorpusHasNoDevIds(claims: seq<Claim>, m: map<string, string>, ids: seq<string>, texts: map<string, string>)
    requires ids == Ids(SplitCorpus(Train, claims, m, |claims|))
    requires forall k :: k in texts <==> k in ids
    ensures forall k :: k in texts ==> !IsPrefix(DocPrefix(Dev), k)
  {
    SplitCorpusPrefix(Train, claims, m, |claims|);
    forall k | k in texts ensures !IsPrefix(DocPrefix(Dev), k) {
      SplitPrefixesDisjoint(k);
    }
  }

  /** What the build leaves behind for a given train/dev partition of the claims. */
  ghost predicate BuildOutputOk(dev: seq<Claim>, train: seq<Claim>, cfg: Config, out: BuildOutput) {
    && InstancesFor(train, cfg, |train|, out.trainInstances)
    && out.devInstances == []
    && out.corpus == SplitCorpus(Train, train, cfg.labelMapping, |train|) + SplitCorpus(Dev, dev, cfg.labelMapping, |dev|)
    && Distinct(Ids(out.corpus))
    && out.devQueries == QueryRecords(DevQueries(dev, |dev|))
    && out.devQrels == DevQrels(dev, cfg.labelMapping, |dev|)
  }

  /** `build_data` (lines 12-140). The ghost results are the two halves of the shuffled
      input; the saved files are the fields of the output. */
  method BuildData(raw: seq<Claim>, cfg: Config)
    returns (r: Result<BuildOutput, SampleError>, ghost dev: seq<Claim>, ghost train: seq<Claim>)
    ensures multiset(dev + train) == multiset(raw) && |dev| == DevCount(|raw|, cfg.devRatio)
    ensures r.Failure? <==> TrainFails(train, cfg, |train|)
    ensures r.Success? ==> BuildOutputOk(dev, train, cfg, r.value)
  {
    var devClaims, trainClaims := ShuffleAndSplit(raw, cfg.devRatio);
    dev, train := devClaims, trainClaims;
    r := BuildSplits(devClaims, trainClaims, cfg);
  }

  /** Lines 122-140 on a fixed partition: the train split, then the dev split, into
      one shared corpus. */
  method BuildSplits(devClaims: seq<Claim>, trainClaims: seq<Claim>, cfg: Config)
    returns (r: Result<BuildOutput, SampleError>)
    ensures r.Failure? <==> TrainFails(trainClaims, cfg, |trainClaims|)
    ensures r.Success? ==> BuildOutputOk(devClaims, trainClaims, cfg, r.value)
  {
    var corpus := new Corpus();
    assert corpus.Items() == [];
    var trainOut := ProcessClaims(trainClaims, Train, cfg, corpus);
    if trainOut.Failure? {
      return Failure(trainOut.error);
    }
    TrainCorpusHasNoDevIds(trainClaims, cfg.labelMapping, corpus.ids, corpus.texts);
    ghost var trainItems := corpus.Items();
    var devOut := ProcessClaims(devClaims, Dev, cfg, corpus);
    var corpusList := corpus.Items();
    EntriesIds(corpus.ids, corpus.texts);
    var queryList := QueryRecords(devOut.value.queries);
    r := Success(BuildOutput(trainOut.value.instances, devOut.value.instances, corpusList,
                             queryList, devOut.value.qrels));
    BuildOutputFromSplits(devClaims, trainClaims, cfg, trainOut.value, devOut.value, trainItems, r.value);
  }

  lemma BuildOutputFromSplits(dev: seq<Claim>, train: seq<Claim>, cfg: Config, trainOut: SplitOutput,
                              devOut: SplitOutput, trainItems: seq<TextRecord>, out: BuildOutput)
    requires SplitOutputOk(Train, train, cfg, trainOut) && SplitOutputOk(Dev, dev, cfg, devOut)
    requires trainItems == [] + SplitCorpus(Train, train, cfg.labelMapping, |train|)
    requires out.corpus == trainItems + SplitCorpus(Dev, dev, cfg.labelMapping, |dev|)
    requires Distinct(Ids(out.corpus))
    requires out == BuildOutput(trainOut.instances, devOut.instances, out.corpus,
                                QueryRecords(devOut.queries), devOut.qrels)
    ensures BuildOutputOk(dev, train, cfg, out)
  {
    assert trainItems == SplitCorpus(Train, train, cfg.labelMapping, |train|);
  }
}
