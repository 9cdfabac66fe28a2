/** The global corpus builder (build_global.py): every evidence snippet of every
    input file, deduplicated across files by text, numbered in order of first
    occurrence; one query per claim; one qrel row per positive evidence item. */
module BuildGlobal {
  import opened Common

  /** One entry of `input_paths` together with the claims its JSON file holds. */
  datatype InputFile = InputFile(path: string, claims: seq<Claim>)

  // ---------------------------------------------------------------------------
  // File stems and identifiers (lines 27, 31, 44)

  /** `os.path.basename(path)`: what follows the last '/'. */
  function Basename(path: string): (b: string)
    ensures '/' !in b
  {
    if path == [] then []
    else if path[|path| - 1] == '/' then []
    else Basename(path[..|path| - 1]) + [path[|path| - 1]]
  }

  /** The base name is the longest suffix of the path without a '/'. */
  lemma {:induction false} BasenameIsLastComponent(path: string)
    ensures var b := Basename(path);
            && |b| <= |path| && b == path[|path| - |b|..]
            && (|b| < |path| ==> path[|path| - |b| - 1] == '/')
  {
    if path != [] && path[|path| - 1] != '/' {
      var init := path[..|path| - 1];
      BasenameIsLastComponent(init);
      var b := Basename(init);
      var k := |init| - |b|;
      assert init[k..] == path[k..|path| - 1];
      assert path[k..] == path[k..|path| - 1] + [path[|path| - 1]];
    }
  }

  /** `s.replace(pat, "")`: the occurrences of `pat` found scanning left to right,
      without overlap, are removed. */
  function RemoveAll(s: string, pat: string): (r: string)
    requires pat != []
    ensures |r| <= |s|
    ensures forall c :: c in r ==> c in s
    decreases |s|
  {
    if |s| < |pat| then s
    else if s[..|pat|] == pat then RemoveAll(s[|pat|..], pat)
    else [s[0]] + RemoveAll(s[1..], pat)
  }

  /** `os.path.basename(file_path).replace(".json", "")` */
  function FileStem(path: string): (stem: string)
    ensures '/' !in stem
  {
    RemoveAll(Basename(path), ".json")
  }

  /** `f"{file_basename}_c{i:06d}"` */
  function GlobalClaimId(stem: string, i: nat): string {
    stem + "_c" + ZeroPad(i, 6)
  }

  /** `f"g_doc_{doc_counter:08d}"` */
  function GlobalDocId(k: nat): string {
    "g_doc_" + ZeroPad(k, 8)
  }

  lemma {:induction false} BasenameAfterSlash(dir: string, tail: string)
    requires '/' !in tail
    ensures Basename(dir + "/" + tail) == tail
    decreases |tail|
  {
    var path := dir + "/" + tail;
    if tail != [] {
      var init := tail[..|tail| - 1];
      assert path[..|path| - 1] == dir + "/" + init;
      BasenameAfterSlash(dir, init);
      assert tail == init + [tail[|tail| - 1]];
    }
  }

  /** `pat` occurs in `s` at position i. */
  predicate MatchAt(s: string, pat: string, i: nat) {
    i + |pat| <= |s| && s[i..i + |pat|] == pat
  }

  /** No occurrence of `pat` in `x + pat` starts inside `x`: scanning left to right,
      the first match is the final `pat`. */
  predicate NoMatchBefore(x: string, pat: string) {
    forall i: nat :: i < |x| ==> !MatchAt(x + pat, pat, i)
  }

  lemma {:induction false} RemoveAllAtEnd(x: string, pat: string)
    requires pat != [] && NoMatchBefore(x, pat)
    ensures RemoveAll(x + pat, pat) == x
    decreases |x|
  {
    var s := x + pat;
    if x == [] {
      assert s[..|pat|] == pat && s[|pat|..] == [];
    } else {
      assert !MatchAt(s, pat, 0);
      assert s[..|pat|] != pat;
      assert s[1..] == x[1..] + pat;
      forall i: nat | i < |x[1..]|
        ensures !MatchAt(x[1..] + pat, pat, i)
      {
        assert !MatchAt(s, pat, i + 1);
        assert (x[1..] + pat)[i..i + |pat|] == s[i + 1..i + 1 + |pat|];
      }
      RemoveAllAtEnd(x[1..], pat);
    }
  }

  lemma BasenameWithoutSlash(name: string)
    requires '/' !in name
    ensures Basename(name) == name
  {
    BasenameIsLastComponent(name);
  }

  /** The stem of `<dir>/<name>.json`, or of a bare `<name>.json`, is `name` when the
      name holds no '/' and the final ".json" is the first one the scan finds; dots
      elsewhere in the name stay. */
  lemma FileStemOfJson(dir: string, name: string)
    requires '/' !in name && NoMatchBefore(name, ".json")
    ensures FileStem(name + ".json") == name
    ensures FileStem(dir + "/" + name + ".json") == name
  {
    assert '/' !in name + ".json";
    BasenameWithoutSlash(name + ".json");
    assert dir + "/" + name + ".json" == dir + "/" + (name + ".json");
    BasenameAfterSlash(dir, name + ".json");
    RemoveAllAtEnd(name, ".json");
  }

  /** A dotted file name keeps its inner dots: `data/claims.v2.json` has stem `claims.v2`. */
  lemma DottedFileStem()
    ensures FileStem("data/claims.v2.json") == "claims.v2"
  {
    var name := "claims.v2";
    forall i: nat | i < |name|
      ensures !MatchAt(name + ".json", ".json", i)
    {
      assert (name + ".json")[i] != '.' || (name + ".json")[i + 1] != 'j';
    }
    FileStemOfJson("data", name);
    assert "data" + "/" + name + ".json" == "data/claims.v2.json";
  }

  /** Doc ids name their counter value: distinct counters give distinct ids. */
  lemma GlobalDocIdInjective(a: nat, b: nat)
    ensures GlobalDocId(a) == GlobalDocId(b) ==> a == b
  {
    if GlobalDocId(a) == GlobalDocId(b) {
      assert ZeroPad(a, 8) == GlobalDocId(a)[6..];
      ZeroPadInjective(a, b, 8);
    }
  }

  /** Within one file the claim ids are pairwise distinct. */
  lemma GlobalClaimIdInjective(stem: string, a: nat, b: nat)
    ensures GlobalClaimId(stem, a) == GlobalClaimId(stem, b) ==> a == b
  {
    if GlobalClaimId(stem, a) == GlobalClaimId(stem, b) {
      assert ZeroPad(a, 6) == GlobalClaimId(stem, a)[|stem| + 2..];
      ZeroPadInjective(a, b, 6);
    }
  }

  // ---------------------------------------------------------------------------
  // The deduplicating index (lines 16-22, 42-49)

  /** `global_corpus` (snippet to doc id), `final_corpus` and `doc_counter`. */
  datatype Index = Index(docOf: map<string, string>, corpus: seq<TextRecord>, counter: nat)

  /** Lines 43-49: meeting snippet `t`. A snippet met before leaves the index as it
      was; a new one gets `g_doc_<counter>` and is appended to the corpus. */
  function Meet(x: Index, t: string): (y: Index)
    ensures t in y.docOf
  {
    if t in x.docOf then x
    else
      var id := GlobalDocId(x.counter);
      Index(x.docOf[t := id], x.corpus + [TextRecord(id, t)], x.counter + 1)
  }

  /** The index after meeting the snippets `ss` in order, starting from `x`. */
  function MeetAll(x: Index, ss: seq<string>): Index
    decreases |ss|
  {
    if ss == [] then x
    else Meet(MeetAll(x, ss[..|ss| - 1]), ss[|ss| - 1])
  }

  /** The index before any file is read (lines 16-22). */
  const Empty := Index(map[], [], 0)

  /** The index after meeting the snippets `ss` in order. */
  function Replay(ss: seq<string>): Index {
    MeetAll(Empty, ss)
  }

  /** `final_corpus` after the snippets `ss` */
  function CorpusOf(ss: seq<string>): seq<TextRecord> {
    Replay(ss).corpus
  }

  /** `global_corpus` after the snippets `ss` */
  function DocMap(ss: seq<string>): map<string, string> {
    Replay(ss).docOf
  }

  lemma MeetAllStep(x: Index, ss: seq<string>, t: string)
    ensures MeetAll(x, ss + [t]) == Meet(MeetAll(x, ss), t)
  {
    assert (ss + [t])[..|ss|] == ss;
  }

  /** Meeting `a` then `b` is meeting `a + b`. */
  lemma {:induction false} MeetAllAppend(x: Index, a: seq<string>, b: seq<string>)
    ensures MeetAll(x, a + b) == MeetAll(MeetAll(x, a), b)
    decreases |b|
  {
    if b == [] {
      assert a + b == a;
    } else {
      var init := b[..|b| - 1];
      var t := b[|b| - 1];
      assert a + b == (a + init) + [t];
      MeetAllAppend(x, a, init);
      MeetAllStep(x, a + init, t);
    }
  }

  /** Every id in the map names an entry of the corpus, and the counter is the size of
      the corpus. */
  ghost predicate Coherent(x: Index) {
    && x.counter == |x.corpus|
    && forall u :: u in x.docOf ==> x.docOf[u] in Ids(x.corpus)
  }

  /** Meeting a snippet keeps the index coherent, and the id it yields is in the corpus. */
  lemma MeetCoherent(x: Index, t: string)
    requires Coherent(x)
    ensures Coherent(Meet(x, t))
    ensures Meet(x, t).docOf[t] in Ids(Meet(x, t).corpus)
  {
    if t !in x.docOf {
      var e := TextRecord(GlobalDocId(x.counter), t);
      IdsAppend(x.corpus, [e]);
      assert Ids(x.corpus + [e]) == Ids(x.corpus) + [e.textId];
    }
  }

  /** Meeting a snippet changes the id of no snippet met before. */
  lemma MeetKeepsIds(x: Index, t: string, u: string)
    requires u in x.docOf
    ensures u in Meet(x, t).docOf && Meet(x, t).docOf[u] == x.docOf[u]
  {
  }

  /** A snippet met again leaves the index as it was: lookup is idempotent. */
  lemma MeetIdempotent(x: Index, t: string)
    ensures Meet(Meet(x, t), t) == Meet(x, t)
  {
  }

  // The reference definition: the distinct snippets in first-occurrence order

  /** The index of the first `t` in `r`. */
  function Position(r: seq<string>, t: string): (k: nat)
    requires t in r
    ensures k < |r| && r[k] == t && t !in r[..k]
  {
    if r[0] == t then 0
    else
      var k := Position(r[1..], t);
      assert r[..k + 1] == [r[0]] + r[1..][..k];
      k + 1
  }

  /** The corpus entries for the distinct snippets `r`: the k-th gets id `g_doc_k`. */
  function Numbered(r: seq<string>): (c: seq<TextRecord>)
    ensures |c| == |r|
  {
    seq(|r|, k requires 0 <= k < |r| => TextRecord(GlobalDocId(k), r[k]))
  }

  lemma PositionAppend(r: seq<string>, x: string, t: string)
    requires t in r
    ensures Position(r + [x], t) == Position(r, t)
  {
    var k := Position(r, t);
    var k' := Position(r + [x], t);
    assert (r + [x])[..k] == r[..k];
    assert (r + [x])[k] == t;
    assert forall i :: 0 <= i < k' ==> (r + [x])[i] != t;
  }

  lemma PositionLast(r: seq<string>, x: string)
    requires x !in r
    ensures Position(r + [x], x) == |r|
  {
  }

  lemma NumberedAppend(r: seq<string>, t: string)
    ensures Numbered(r + [t]) == Numbered(r) + [TextRecord(GlobalDocId(|r|), t)]
  {
  }

  /** The corpus built by meeting `ss` is the distinct snippets of `ss` in order of
      first occurrence, the k-th with id `g_doc_k`; the map holds exactly the snippets
      met; the counter is the number of distinct snippets. */
  lemma {:induction false} ReplayIsFirstOccurrences(ss: seq<string>)
    ensures CorpusOf(ss) == Numbered(FirstOccurrences(ss))
    ensures Replay(ss).counter == |FirstOccurrences(ss)|
    ensures forall t :: t in DocMap(ss) <==> t in ss
    decreases |ss|
  {
    if ss != [] {
      var init := ss[..|ss| - 1];
      var t := ss[|ss| - 1];
      assert ss == init + [t];
      ReplayIsFirstOccurrences(init);
      DedupAppend(init, t);
      if t !in init {
        NumberedAppend(FirstOccurrences(init), t);
      }
    }
  }

  /** The id of a snippet met is `g_doc_k`, `k` the place of the snippet among the
      distinct snippets in first-occurrence order. */
  lemma {:induction false} DocMapIsPosition(ss: seq<string>, t: string)
    requires t in ss
    ensures t in DocMap(ss) && DocMap(ss)[t] == GlobalDocId(Position(FirstOccurrences(ss), t))
    decreases |ss|
  {
    var init := ss[..|ss| - 1];
    var u := ss[|ss| - 1];
    assert ss == init + [u];
    DedupAppend(init, u);
    ReplayIsFirstOccurrences(init);
    if t in init {
      DocMapIsPosition(init, t);
      MeetKeepsIds(Replay(init), u, t);
      if u !in init {
        PositionAppend(FirstOccurrences(init), u, t);
      }
    } else {
      PositionLast(FirstOccurrences(init), u);
    }
  }

  /** `doc_counter == len(final_corpus) == len(global_corpus)` */
  lemma {:induction false} MapSizeIsCounter(ss: seq<string>)
    ensures |DocMap(ss).Keys| == |CorpusOf(ss)| == Replay(ss).counter
    decreases |ss|
  {
    if ss != [] {
      var init := ss[..|ss| - 1];
      var t := ss[|ss| - 1];
      MapSizeIsCounter(init);
      if t !in DocMap(init) {
        assert DocMap(ss).Keys == DocMap(init).Keys + {t};
      }
    }
  }

  /** The corpus has pairwise distinct ids and pairwise distinct texts, and holds every
      snippet seen and nothing else. */
  lemma CorpusEntriesUnique(ss: seq<string>)
    ensures Distinct(Ids(CorpusOf(ss)))
    ensures forall i, j :: 0 <= i < j < |CorpusOf(ss)| ==> CorpusOf(ss)[i].text != CorpusOf(ss)[j].text
    ensures forall t :: t in ss <==> exists k :: 0 <= k < |CorpusOf(ss)| && CorpusOf(ss)[k].text == t
  {
    ReplayIsFirstOccurrences(ss);
    var c := CorpusOf(ss);
    var r := FirstOccurrences(ss);
    forall i, j | 0 <= i < j < |c| ensures Ids(c)[i] != Ids(c)[j] {
      GlobalDocIdInjective(i, j);
    }
    forall t | t in ss ensures exists k :: 0 <= k < |c| && c[k].text == t {
      var k := Position(r, t);
      assert c[k].text == t;
    }
  }

  /** The id a snippet maps to names the corpus entry holding that snippet. */
  lemma DocMapPointsIntoCorpus(ss: seq<string>, t: string)
    requires t in ss
    ensures t in DocMap(ss)
    ensures exists k :: 0 <= k < |CorpusOf(ss)| && CorpusOf(ss)[k] == TextRecord(DocMap(ss)[t], t)
  {
    ReplayIsFirstOccurrences(ss);
    DocMapIsPosition(ss, t);
    var k := Position(FirstOccurrences(ss), t);
    assert CorpusOf(ss)[k] == TextRecord(DocMap(ss)[t], t);
  }

  /** First-occurrence order: of two corpus entries, the earlier one's snippet was met
      first in `ss`. */
  lemma {:induction false} CorpusInFirstOccurrenceOrder(ss: seq<string>, i: nat, j: nat)
    requires i < j < |FirstOccurrences(ss)|
    ensures Position(ss, FirstOccurrences(ss)[i]) < Position(ss, FirstOccurrences(ss)[j])
    decreases |ss|
  {
    var init := ss[..|ss| - 1];
    var t := ss[|ss| - 1];
    assert ss == init + [t];
    DedupAppend(init, t);
    var r := FirstOccurrences(init);
    var a, b := FirstOccurrences(ss)[i], FirstOccurrences(ss)[j];
    PositionAppend(init, t, a);
    if j < |r| {
      CorpusInFirstOccurrenceOrder(init, i, j);
      PositionAppend(init, t, b);
    } else {
      assert b == t && t !in init;
      PositionLast(init, t);
    }
  }

  /** Ids never change: a snippet already in the map keeps its id whatever is met
      after it. */
  lemma {:induction false} MeetAllKeepsIds(x: Index, ss: seq<string>, t: string)
    requires t in x.docOf
    ensures t in MeetAll(x, ss).docOf && MeetAll(x, ss).docOf[t] == x.docOf[t]
    decreases |ss|
  {
    if ss != [] {
      MeetAllKeepsIds(x, ss[..|ss| - 1], t);
      MeetKeepsIds(MeetAll(x, ss[..|ss| - 1]), ss[|ss| - 1], t);
    }
  }

  // ---------------------------------------------------------------------------
  // Outputs as functions of the input files (lines 24-53)

  function SnippetStream(ev: seq<Evidence>): (ss: seq<string>)
    ensures |ss| == |ev|
    ensures forall j :: 0 <= j < |ev| ==> ss[j] == ev[j].snippet
  {
    seq(|ev|, j requires 0 <= j < |ev| => ev[j].snippet)
  }

  /** Lines 37-49: the index after the first n evidence items of a claim. */
  function MeetEvidence(x: Index, ev: seq<Evidence>, n: nat): Index
    requires n <= |ev|
  {
    if n == 0 then x else Meet(MeetEvidence(x, ev, n - 1), ev[n - 1].snippet)
  }

  /** Lines 51-53: the qrel rows of the first n evidence items of a claim, one per
      positive item, with the id its snippet has once met. */
  function ClaimQrels(cid: string, ev: seq<Evidence>, m: map<string, string>, x: Index, n: nat): seq<QrelRow>
    requires n <= |ev|
  {
    if n == 0 then []
    else
      ClaimQrels(cid, ev, m, x, n - 1) +
      (if Classify(m, ev[n - 1].relevanceLabel) == Positive
       then [QrelRow(cid, 0, MeetEvidence(x, ev, n).docOf[ev[n - 1].snippet], 1)] else [])
  }

  /** How many of the first n evidence items are positive. */
  function PositiveCount(ev: seq<Evidence>, m: map<string, string>, n: nat): nat
    requires n <= |ev|
  {
    if n == 0 then 0
    else PositiveCount(ev, m, n - 1) + if Classify(m, ev[n - 1].relevanceLabel) == Positive then 1 else 0
  }

  /** Lines 29-53: the index after the first n claims of a file. */
  function MeetClaims(x: Index, claims: seq<Claim>, n: nat): Index
    requires n <= |claims|
  {
    if n == 0 then x
    else MeetEvidence(MeetClaims(x, claims, n - 1), claims[n - 1].evidence, |claims[n - 1].evidence|)
  }

  /** One query per claim of a file, numbered from 0 within the file (lines 29-34). */
  function FileQueries(stem: string, claims: seq<Claim>): (qs: seq<TextRecord>)
    ensures |qs| == |claims|
  {
    seq(|claims|, i requires 0 <= i < |claims| => TextRecord(GlobalClaimId(stem, i), claims[i].text))
  }

  /** The qrel rows of the first n claims of a file. */
  function FileQrels(stem: string, claims: seq<Claim>, m: map<string, string>, x: Index, n: nat): seq<QrelRow>
    requires n <= |claims|
  {
    if n == 0 then []
    else
      var ev := claims[n - 1].evidence;
      FileQrels(stem, claims, m, x, n - 1)
      + ClaimQrels(GlobalClaimId(stem, n - 1), ev, m, MeetClaims(x, claims, n - 1), |ev|)
  }

  /** Lines 24-53: the index after the first n files. */
  function MeetFiles(files: seq<InputFile>, n: nat): Index
    requires n <= |files|
  {
    if n == 0 then Empty
    else MeetClaims(MeetFiles(files, n - 1), files[n - 1].claims, |files[n - 1].claims|)
  }

  function AllQueries(files: seq<InputFile>, n: nat): seq<TextRecord>
    requires n <= |files|
  {
    if n == 0 then [] else AllQueries(files, n - 1) + FileQueries(FileStem(files[n - 1].path), files[n - 1].claims)
  }

  function AllQrels(files: seq<InputFile>, m: map<string, string>, n: nat): seq<QrelRow>
    requires n <= |files|
  {
    if n == 0 then []
    else
      var f := files[n - 1];
      AllQrels(files, m, n - 1) + FileQrels(FileStem(f.path), f.claims, m, MeetFiles(files, n - 1), |f.claims|)
  }

  /** The snippets of the first n claims of a file, in order. */
  function FileSnippets(claims: seq<Claim>, n: nat): seq<string>
    requires n <= |claims|
  {
    if n == 0 then [] else FileSnippets(claims, n - 1) + SnippetStream(claims[n - 1].evidence)
  }

  /** The snippets of the first n files, in order. */
  function AllSnippets(files: seq<InputFile>, n: nat): seq<string>
    requires n <= |files|
  {
    if n == 0 then [] else AllSnippets(files, n - 1) + FileSnippets(files[n - 1].claims, |files[n - 1].claims|)
  }

  lemma {:induction false} MeetEvidenceIsMeetAll(x: Index, ev: seq<Evidence>, n: nat)
    requires n <= |ev|
    ensures MeetEvidence(x, ev, n) == MeetAll(x, SnippetStream(ev[..n]))
  {
    if n > 0 {
      MeetEvidenceIsMeetAll(x, ev, n - 1);
      assert SnippetStream(ev[..n]) == SnippetStream(ev[..n - 1]) + [ev[n - 1].snippet];
      MeetAllStep(x, SnippetStream(ev[..n - 1]), ev[n - 1].snippet);
    } else {
      assert SnippetStream(ev[..n]) == [];
    }
  }

  lemma {:induction false} MeetClaimsIsMeetAll(x: Index, claims: seq<Claim>, n: nat)
    requires n <= |claims|
    ensures MeetClaims(x, claims, n) == MeetAll(x, FileSnippets(claims, n))
  {
    if n > 0 {
      var ev := claims[n - 1].evidence;
      MeetClaimsIsMeetAll(x, claims, n - 1);
      MeetEvidenceIsMeetAll(MeetClaims(x, claims, n - 1), ev, |ev|);
      assert ev[..|ev|] == ev;
      MeetAllAppend(x, FileSnippets(claims, n - 1), SnippetStream(ev));
    }
  }

  /** The nested loops meet the snippets of all files in order, one after another:
      the corpus and map they build are `Replay` of that stream. */
  lemma {:induction false} MeetFilesIsReplay(files: seq<InputFile>, n: nat)
    requires n <= |files|
    ensures MeetFiles(files, n) == Replay(AllSnippets(files, n))
  {
    if n > 0 {
      var claims := files[n - 1].claims;
      MeetFilesIsReplay(files, n - 1);
      MeetClaimsIsMeetAll(MeetFiles(files, n - 1), claims, |claims|);
      MeetAllAppend(Empty, AllSnippets(files, n - 1), FileSnippets(claims, |claims|));
    }
  }

  /** One qrel row per positive evidence item, repeats included: a positive snippet
      listed twice in a claim gives two rows. */
  lemma {:induction false} ClaimQrelsCount(cid: string, ev: seq<Evidence>, m: map<string, string>, x: Index, n: nat)
    requires n <= |ev|
    ensures |ClaimQrels(cid, ev, m, x, n)| == PositiveCount(ev, m, n)
  {
    if n > 0 {
      ClaimQrelsCount(cid, ev, m, x, n - 1);
    }
  }

  /** Every row of a claim is `[claim_id, 0, doc_id, 1]`, with `doc_id` the id that a
      positive item's snippet has after the claim. */
  lemma {:induction false} ClaimQrelsShape(cid: string, ev: seq<Evidence>, m: map<string, string>, x: Index, n: nat)
    requires n <= |ev|
    ensures forall r :: r in ClaimQrels(cid, ev, m, x, n) ==>
              && r.queryId == cid && r.iteration == 0 && r.relevance == 1
              && exists j :: 0 <= j < n && Classify(m, ev[j].relevanceLabel) == Positive
                             && ev[j].snippet in MeetEvidence(x, ev, n).docOf
                             && r.docId == MeetEvidence(x, ev, n).docOf[ev[j].snippet]
  {
    if n > 0 {
      var before := MeetEvidence(x, ev, n - 1);
      ClaimQrelsShape(cid, ev, m, x, n - 1);
      forall u | u in before.docOf
        ensures u in MeetEvidence(x, ev, n).docOf && MeetEvidence(x, ev, n).docOf[u] == before.docOf[u]
      {
        MeetKeepsIds(before, ev[n - 1].snippet, u);
      }
    }
  }

  lemma FileQueriesStep(stem: string, claims: seq<Claim>, i: nat)
    requires i < |claims|
    ensures FileQueries(stem, claims[..i + 1]) == FileQueries(stem, claims[..i]) + [TextRecord(GlobalClaimId(stem, i), claims[i].text)]
  {
  }

  /** Within a file, the queries have pairwise distinct ids. */
  lemma FileQueryIdsDistinct(stem: string, claims: seq<Claim>)
    ensures Distinct(Ids(FileQueries(stem, claims)))
  {
    var qs := FileQueries(stem, claims);
    forall i, j | 0 <= i < j < |qs| ensures Ids(qs)[i] != Ids(qs)[j] {
      GlobalClaimIdInjective(stem, i, j);
    }
  }

  /** One query per claim, over all files. */
  lemma {:induction false} AllQueriesCount(files: seq<InputFile>, n: nat)
    requires n <= |files|
    ensures |AllQueries(files, n)| == ClaimCount(files, n)
  {
    if n > 0 {
      AllQueriesCount(files, n - 1);
    }
  }

  function ClaimCount(files: seq<InputFile>, n: nat): nat
    requires n <= |files|
  {
    if n == 0 then 0 else ClaimCount(files, n - 1) + |files[n - 1].claims|
  }

  // Every qrel row names a document of the corpus

  /** Every row is `[_, 0, doc_id, 1]` with `doc_id` an id of the corpus. */
  predicate QrelsInto(qrels: seq<QrelRow>, corpus: seq<TextRecord>) {
    forall r :: r in qrels ==> r.iteration == 0 && r.relevance == 1 && r.docId in Ids(corpus)
  }

  /** `b` holds the corpus of `a` as a prefix: entries are only ever appended. */
  predicate Grows(a: Index, b: Index) {
    |a.corpus| <= |b.corpus| && b.corpus[..|a.corpus|] == a.corpus
  }

  lemma MeetGrows(x: Index, t: string)
    ensures Grows(x, Meet(x, t))
  {
  }

  lemma GrowsTrans(a: Index, b: Index, c: Index)
    requires Grows(a, b) && Grows(b, c)
    ensures Grows(a, c)
  {
    assert c.corpus[..|a.corpus|] == c.corpus[..|b.corpus|][..|a.corpus|];
  }

  lemma QrelsIntoGrows(qrels: seq<QrelRow>, a: Index, b: Index)
    requires QrelsInto(qrels, a.corpus) && Grows(a, b)
    ensures QrelsInto(qrels, b.corpus)
  {
    forall r | r in qrels ensures r.docId in Ids(b.corpus) {
      var k :| 0 <= k < |a.corpus| && Ids(a.corpus)[k] == r.docId;
      assert b.corpus[k] == a.corpus[k];
      assert Ids(b.corpus)[k] == r.docId;
    }
  }

  lemma QrelsIntoConcat(a: seq<QrelRow>, b: seq<QrelRow>, corpus: seq<TextRecord>)
    requires QrelsInto(a, corpus) && QrelsInto(b, corpus)
    ensures QrelsInto(a + b, corpus)
  {
  }

  /** A claim's rows point into the corpus as it stands after the claim, which extends
      the corpus before it; the index stays coherent. */
  lemma {:induction false} ClaimQrelsInto(cid: string, ev: seq<Evidence>, m: map<string, string>, x: Index, n: nat)
    requires n <= |ev| && Coherent(x)
    ensures Coherent(MeetEvidence(x, ev, n)) && Grows(x, MeetEvidence(x, ev, n))
    ensures QrelsInto(ClaimQrels(cid, ev, m, x, n), MeetEvidence(x, ev, n).corpus)
  {
    if n > 0 {
      var before := MeetEvidence(x, ev, n - 1);
      var after := MeetEvidence(x, ev, n);
      var t := ev[n - 1].snippet;
      ClaimQrelsInto(cid, ev, m, x, n - 1);
      MeetCoherent(before, t);
      MeetGrows(before, t);
      GrowsTrans(x, before, after);
      QrelsIntoGrows(ClaimQrels(cid, ev, m, x, n - 1), before, after);
      var last := if Classify(m, ev[n - 1].relevanceLabel) == Positive then [QrelRow(cid, 0, after.docOf[t], 1)] else [];
      QrelsIntoConcat(ClaimQrels(cid, ev, m, x, n - 1), last, after.corpus);
    }
  }

  lemma {:induction false} FileQrelsInto(stem: string, claims: seq<Claim>, m: map<string, string>, x: Index, n: nat)
    requires n <= |claims| && Coherent(x)
    ensures Coherent(MeetClaims(x, claims, n)) && Grows(x, MeetClaims(x, claims, n))
    ensures QrelsInto(FileQrels(stem, claims, m, x, n), MeetClaims(x, claims, n).corpus)
  {
    if n > 0 {
      var ev := claims[n - 1].evidence;
      var before := MeetClaims(x, claims, n - 1);
      var after := MeetClaims(x, claims, n);
      FileQrelsInto(stem, claims, m, x, n - 1);
      ClaimQrelsInto(GlobalClaimId(stem, n - 1), ev, m, before, |ev|);
      GrowsTrans(x, before, after);
      QrelsIntoGrows(FileQrels(stem, claims, m, x, n - 1), before, after);
      QrelsIntoConcat(FileQrels(stem, claims, m, x, n - 1), ClaimQrels(GlobalClaimId(stem, n - 1), ev, m, before, |ev|), after.corpus);
    }
  }

  /** Over all files: the index stays coherent and every qrel row is
      `[claim_id, 0, doc_id, 1]` with `doc_id` an id of the final corpus. */
  lemma {:induction false} AllQrelsInto(files: seq<InputFile>, m: map<string, string>, n: nat)
    requires n <= |files|
    ensures Coherent(MeetFiles(files, n))
    ensures QrelsInto(AllQrels(files, m, n), MeetFiles(files, n).corpus)
  {
    if n > 0 {
      var f := files[n - 1];
      var before := MeetFiles(files, n - 1);
      var after := MeetFiles(files, n);
      AllQrelsInto(files, m, n - 1);
      FileQrelsInto(FileStem(f.path), f.claims, m, before, |f.claims|);
      QrelsIntoGrows(AllQrels(files, m, n - 1), before, after);
      QrelsIntoConcat(AllQrels(files, m, n - 1), FileQrels(FileStem(f.path), f.claims, m, before, |f.claims|), after.corpus);
    }
  }

  // ---------------------------------------------------------------------------
  // The builder's state (lines 16-22) and its loops (lines 24-53)

  class GlobalBuilder {
    /** `global_corpus`: snippet to doc id */
    var docOf: map<string, string>
    /** `final_corpus` */
    var corpus: seq<TextRecord>
    /** `all_queries` */
    var queries: seq<TextRecord>
    /** `all_qrels` */
    var qrels: seq<QrelRow>
    /** `doc_counter` */
    var docCounter: nat

    /** The deduplicating part of the state */
    function State(): Index
      reads this
    {
      Index(docOf, corpus, docCounter)
    }

    /** Lines 16-22 */
    constructor()
      ensures State() == Empty && queries == [] && qrels == []
    {
      docOf := map[];
      corpus := [];
      queries := [];
      qrels := [];
      docCounter := 0;
    }

    /** Lines 43-49: the id of `snippet`, numbering it first if it is new. */
    method Lookup(snippet: string) returns (docId: string)
      modifies this
      ensures State() == Meet(old(State()), snippet)
      ensures docId == docOf[snippet]
      ensures queries == old(queries) && qrels == old(qrels)
    {
      if snippet !in docOf {
        var id := GlobalDocId(docCounter);
        docOf, corpus, docCounter := docOf[snippet := id], corpus + [TextRecord(id, snippet)], docCounter + 1;
      }
      docId := docOf[snippet];
    }

    /** Lines 30-53 for claim i of the file with stem `stem`. */
    method AddClaim(stem: string, i: nat, claim: Claim, m: map<string, string>)
      modifies this
      ensures State() == MeetEvidence(old(State()), claim.evidence, |claim.evidence|)
      ensures queries == old(queries) + [TextRecord(GlobalClaimId(stem, i), claim.text)]
      ensures qrels == old(qrels) + ClaimQrels(GlobalClaimId(stem, i), claim.evidence, m, old(State()), |claim.evidence|)
    {
      var claimId := GlobalClaimId(stem, i);
      queries := queries + [TextRecord(claimId, claim.text)];
      var ev := claim.evidence;
      ghost var x := State();
      ghost var qrels0 := qrels;
      var j := 0;
      while j < |ev|
        invariant 0 <= j <= |ev|
        invariant State() == MeetEvidence(x, ev, j)
        invariant queries == old(queries) + [TextRecord(claimId, claim.text)]
        invariant qrels == qrels0 + ClaimQrels(claimId, ev, m, x, j)
      {
        var docId := Lookup(ev[j].snippet);
        ghost var rows := ClaimQrels(claimId, ev, m, x, j);
        if Classify(m, ev[j].relevanceLabel) == Positive {
          var row := QrelRow(claimId, 0, docId, 1);
          assert ClaimQrels(claimId, ev, m, x, j + 1) == rows + [row];
          qrels := qrels + [row];
        } else {
          assert ClaimQrels(claimId, ev, m, x, j + 1) == rows + [];
          assert rows + [] == rows;
        }
        j := j + 1;
      }
    }

    /** Lines 24-53 for one input file: its claims numbered from 0. */
    method AddFile(file: InputFile, m: map<string, string>)
      modifies this
      ensures State() == MeetClaims(old(State()), file.claims, |file.claims|)
      ensures queries == old(queries) + FileQueries(FileStem(file.path), file.claims)
      ensures qrels == old(qrels) + FileQrels(FileStem(file.path), file.claims, m, old(State()), |file.claims|)
    {
      var stem := FileStem(file.path);
      var claims := file.claims;
      ghost var x := State();
      var i := 0;
      while i < |claims|
        invariant 0 <= i <= |claims|
        invariant State() == MeetClaims(x, claims, i)
        invariant queries == old(queries) + FileQueries(stem, claims[..i])
        invariant qrels == old(qrels) + FileQrels(stem, claims, m, x, i)
      {
        AddClaim(stem, i, claims[i], m);
        FileQueriesStep(stem, claims, i);
        AppendAssoc(old(queries), FileQueries(stem, claims[..i]), [TextRecord(GlobalClaimId(stem, i), claims[i].text)]);
        AppendAssoc(old(qrels), FileQrels(stem, claims, m, x, i),
                    ClaimQrels(GlobalClaimId(stem, i), claims[i].evidence, m, MeetClaims(x, claims, i), |claims[i].evidence|));
        i := i + 1;
      }
      assert claims[..i] == claims;
    }
  }

  /** `build_global` (lines 10-63): the corpus, queries and qrels it saves. The corpus
      is `Replay` of all snippets in order; every qrel row is `[claim_id, 0, doc_id, 1]`
      with `doc_id` an id of the corpus. */
  method BuildGlobal(files: seq<InputFile>, m: map<string, string>)
    returns (corpus: seq<TextRecord>, queries: seq<TextRecord>, qrels: seq<QrelRow>)
    ensures corpus == CorpusOf(AllSnippets(files, |files|))
    ensures queries == AllQueries(files, |files|)
    ensures qrels == AllQrels(files, m, |files|)
    ensures forall r :: r in qrels ==> r.iteration == 0 && r.relevance == 1 && r.docId in Ids(corpus)
  {
    var b := new GlobalBuilder();
    var n := 0;
    while n < |files|
      invariant 0 <= n <= |files|
      invariant b.State() == MeetFiles(files, n)
      invariant b.queries == AllQueries(files, n)
      invariant b.qrels == AllQrels(files, m, n)
    {
      b.AddFile(files[n], m);
      n := n + 1;
    }
    MeetFilesIsReplay(files, |files|);
    AllQrelsInto(files, m, |files|);
    corpus, queries, qrels := b.corpus, b.queries, b.qrels;
  }
}
