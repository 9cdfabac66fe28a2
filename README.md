# factcheck-embeddings data pipeline and metrics, in Dafny

This project models the data-preparation and scoring core of the
factcheck-embeddings repository and proves properties of it. It covers three
programs:

- **The per-claim dataset builder** (`build_data.py`). Module `BuildData`, with
  the negative sampler in module `NegativeSampling`.
  - It shuffles the raw claims and cuts them into a dev split and a train split.
  - It maps each evidence label through the label table and skips repeated
    snippets within a claim; the first occurrence wins.
  - It fills one corpus dictionary that both splits share.
  - Each positive of a train claim becomes one training instance, with
    negatives drawn by the hard-then-random rule.
  - A dev claim becomes one query and one qrel row per positive.
- **The global corpus builder** (`build_global.py`). Module `BuildGlobal`.
  - It numbers every distinct snippet of every input file `g_doc_<counter>`, in
    order of first occurrence.
  - It emits one query per claim and one qrel row per positive evidence item.
- **The metrics engine** (`eval.py`). Module `Eval`.
  - It reads a tab-separated qrels file and a run file into tables.
  - For every qrels query it computes Recall@{5,10,20,50}, reciprocal rank at 10
    and binary nDCG@10, then averages each metric over those queries.

Module `Common` holds what the three share: records, the label table lookup,
Python's zero-padded integer formatting and Python's slice bounds.

## How the model is built

Where the source changes state step by step, the model is imperative and each
method is proved against a function that specifies it.

- **`BuildData.Corpus`** is the `corpus` dict: a key sequence in insertion order
  and a text map. `ProcessClaims` and `ClassifyEvidence` fill it with loops.
- **`BuildGlobal.GlobalBuilder`** has the fields of the global builder's loop:
  `global_corpus`, `final_corpus`, `all_queries`, `all_qrels` and `doc_counter`.
  Its methods are specified by the pure fold `Meet`/`MeetAll` over the snippets
  met so far.
- **The eval loops** are methods with `for` loops: `LoadQrels`, `LoadRun`,
  `ReciprocalRank`, `Dcg`, `Idcg` and `ScoreQueries`. Each is proved equal to a
  function: `QrelsFrom`, `RunFrom`, `RR`, `DCG`, `IDCG` and `MetricsOf`.
  Recall and the means are pure functions, as in the source.

Randomness is nondeterministic choice. `random.shuffle` yields some permutation.
`random.sample(pool, k)` yields some k elements taken from distinct positions of
the pool, and fails when k is negative or larger than the pool.

The nDCG discount `1 / np.log2(i + 2)` is a parameter `disc`. The only facts
assumed about it are that it is positive and strictly decreasing (`ValidDiscount`).

Parse errors and sampling errors are `Result` failures, not preconditions:
- a line that does not split into four fields is `WrongFieldCount`;
- a qrels label that `int()` rejects is `NotAnInteger`;
- a sample size that `random.sample` rejects is `SampleLargerThanPopulationOrNegative`.

`tests/test_data_build.py` reads `train.jsonl` straight under the output
directory, with keys `positive_passages`, `negative_passages` and `docid`. The
code writes `train/train.jsonl` with keys `query`, `positives` and `negatives`,
and corpus key `text_id`. The model follows the code; the test's counts and
ordering are among the proved properties.

## Model

| member | source | states |
|---|---|---|
| Common.Classify | factcheck-embeddings/src/factcheck_relevance/build_data.py:57-66 | an item is positive exactly when the table maps its label to "positive", negative exactly when it maps it to "negative", and a label missing from the table is dropped |
| Common.FirstOccurrences | factcheck-embeddings/src/factcheck_relevance/build_global.py:43-47 | the deduplicated snippets have no repeats, hold exactly the input's elements and are no more than the input |
| Common.ZeroPad | factcheck-embeddings/src/factcheck_relevance/build_data.py:36 | `f"{n:0{width}d}"`: `str(n)` left-padded with zeros; the result is all digits and as long as the wider of `str(n)` and the width |
| Common.ZeroPadValue | factcheck-embeddings/src/factcheck_relevance/build_data.py:36 | reading a `{n:0Wd}` string back as digits gives n: padding loses nothing |
| Common.ZeroPadInjective | factcheck-embeddings/src/factcheck_relevance/build_data.py:56 | distinct numbers format to distinct zero-padded strings at any width |
| Common.SliceBound | factcheck-embeddings/src/factcheck_relevance/build_data.py:98 | a slice bound is clamped to the sequence; a negative bound counts from the end, as Python slicing does |
| Common.TakeDropSplit | factcheck-embeddings/src/factcheck_relevance/build_data.py:21-22 | `s[:n] + s[n:]` is `s` for every integer n, so dev and train together are the shuffled list |
| Common.Trunc | factcheck-embeddings/src/factcheck_relevance/build_data.py:20 | `int(x)` truncates toward zero: the greatest integer at or below x for x >= 0, the least at or above x for x < 0 |
| Common.Ceil | factcheck-embeddings/src/factcheck_relevance/build_data.py:101 | `math.ceil(x)` is the least integer at or above x |
| NegativeSampling.SortBySimDesc | factcheck-embeddings/src/factcheck_relevance/build_data.py:97 | the sorted negatives are in non-increasing similarity and are a permutation of the negatives; stability is stated by SortIsStable |
| NegativeSampling.InsertKeepsTies | factcheck-embeddings/src/factcheck_relevance/build_data.py:97 | inserting a negative into a sorted list moves it only past more similar negatives, so each group of equal similarity keeps its order |
| NegativeSampling.SortIsStable | factcheck-embeddings/src/factcheck_relevance/build_data.py:97 | the sort is stable: for every similarity, the negatives with that similarity come out in input order, so ties at the hard-pool cut keep the earlier evidence items |
| NegativeSampling.SortedHeadIsMostSimilar | factcheck-embeddings/src/factcheck_relevance/build_data.py:97 | the head of the sorted list is at least as similar as every negative |
| NegativeSampling.KHard | factcheck-embeddings/src/factcheck_relevance/build_data.py:101 | `k_hard = math.ceil(hard_frac * k_neg)`: the least integer at or above `hard_frac * k_neg` |
| NegativeSampling.HardPool | factcheck-embeddings/src/factcheck_relevance/build_data.py:97-98 | `n_hard_pool`, the first `hard_pool_size` negatives in descending similarity under Python slice rules: never longer than the negatives, and exactly that long when the size is within range |
| NegativeSampling.HardPoolWithin | factcheck-embeddings/src/factcheck_relevance/build_data.py:98 | the hard pool is drawn from the claim's negatives |
| NegativeSampling.RestPool | factcheck-embeddings/src/factcheck_relevance/build_data.py:108 | the rest pool holds exactly the negatives whose id is not among the hard draws |
| NegativeSampling.RestPoolComplement | factcheck-embeddings/src/factcheck_relevance/build_data.py:108 | for negatives with distinct ids, the rest pool and the hard draws together are the negatives |
| NegativeSampling.HardCount | factcheck-embeddings/src/factcheck_relevance/build_data.py:104 | the number of hard draws `min(len(n_hard_pool), k_hard)`: at most each of the two, and equal to one of them |
| NegativeSampling.DrawFails | factcheck-embeddings/src/factcheck_relevance/build_data.py:88-109 | the sampler raises exactly when a claim has at least `k_neg` negatives and asks for a negative number of hard draws or for more hard draws than `k_neg` (negative `remaining_rand`); DrawSize and SampleNegatives are stated with it |
| NegativeSampling.IsDraw | factcheck-embeddings/src/factcheck_relevance/build_data.py:87-111 | the possible values of `sampled_negs`: all negatives when there are fewer than `k_neg`, else the hard draws from the hard pool followed by draws from the rest pool; DrawSize, DrawDistinct and HardDrawsComeFirst state its consequences |
| NegativeSampling.Sample | factcheck-embeddings/src/factcheck_relevance/build_data.py:104 | `random.sample` fails exactly when k is negative or exceeds the pool, and otherwise yields k elements drawn without replacement |
| NegativeSampling.SampleNegatives | factcheck-embeddings/src/factcheck_relevance/build_data.py:87-111 | the sampler fails exactly when a claim with enough negatives asks for a negative number of hard draws or more than `k_neg`; otherwise its result is one of the draws the hard-then-random rule allows |
| NegativeSampling.SampleKeepsDistinct | factcheck-embeddings/src/factcheck_relevance/build_data.py:104 | a draw without replacement from documents with distinct ids has distinct ids |
| NegativeSampling.TwoStageDraw | factcheck-embeddings/src/factcheck_relevance/build_data.py:104-111 | hard draws followed by random draws from the rest pool repeat no id and come from the negatives |
| NegativeSampling.DrawSize | factcheck-embeddings/src/factcheck_relevance/build_data.py:88-111 | a claim with at least `k_neg` negatives of distinct ids gets exactly `k_neg` of them |
| NegativeSampling.DrawDistinct | factcheck-embeddings/src/factcheck_relevance/build_data.py:104-111 | every drawn negative is a negative of the claim, and no id is drawn twice |
| NegativeSampling.HardDrawsComeFirst | factcheck-embeddings/src/factcheck_relevance/build_data.py:97-111 | the hard draws come first, and each is at least as similar as every negative outside the hard pool |
| NegativeSampling.FirstDrawIsMostSimilar | factcheck-embeddings/src/factcheck_relevance/build_data.py:97-111 | with a hard pool of one and at least one hard draw, the first negative drawn is the head of the sorted negatives, a most similar one |
| BuildData.DocIdInClaimInjective | factcheck-embeddings/src/factcheck_relevance/build_data.py:56 | within a claim, distinct evidence indices give distinct doc ids |
| BuildData.DocIdInjective | factcheck-embeddings/src/factcheck_relevance/build_data.py:56 | a doc id determines its split, claim index and evidence index, so ids are unique across both splits |
| BuildData.DocIdHasPrefix | factcheck-embeddings/src/factcheck_relevance/build_data.py:56 | every doc id of a split starts with `d_<split>_c` |
| BuildData.SplitPrefixesDisjoint | factcheck-embeddings/src/factcheck_relevance/build_data.py:36 | no id carries both the train and the dev prefix |
| BuildData.Kept | factcheck-embeddings/src/factcheck_relevance/build_data.py:46-65 | `positives` and `negatives`: the first occurrence of each snippet whose label maps to the class, in evidence order, with doc id `d_{claim_id}_{j:04d}`; KeptExactly characterises membership |
| BuildData.Retained | factcheck-embeddings/src/factcheck_relevance/build_data.py:46-66 | the `corpus` entries one claim adds, in evidence order: every kept positive or negative; RetainedIsKept ties it to Kept |
| BuildData.KeptIndex | factcheck-embeddings/src/factcheck_relevance/build_data.py:52-66 | every kept document comes from an item that is the first with its snippet and whose label maps to the document's class |
| BuildData.KeptExactly | factcheck-embeddings/src/factcheck_relevance/build_data.py:52-66 | an evidence item yields a positive (negative) exactly when it is the first with its snippet and its label maps to positive (negative) |
| BuildData.DroppedSnippetStaysOut | factcheck-embeddings/src/factcheck_relevance/build_data.py:52-57 | once a snippet's first occurrence is dropped, no later copy of it is kept, whatever its label |
| BuildData.KeptUnique | factcheck-embeddings/src/factcheck_relevance/build_data.py:52-66 | within a claim, two kept documents that share a snippet or an id are the same document in the same class |
| BuildData.KeptDistinct | factcheck-embeddings/src/factcheck_relevance/build_data.py:52-66 | a claim's positives (negatives) have pairwise distinct ids and pairwise distinct snippets |
| BuildData.RetainedIsKept | factcheck-embeddings/src/factcheck_relevance/build_data.py:61-66 | the corpus entries a claim adds are exactly its kept positives and negatives |
| BuildData.RetainedIds | factcheck-embeddings/src/factcheck_relevance/build_data.py:56-66 | a claim adds no corpus entry whose id is not one of its own doc ids |
| BuildData.SnippetsBefore | factcheck-embeddings/src/factcheck_relevance/build_data.py:52-54 | an item's snippet is in `seen_snippets` exactly when an earlier item had it |
| BuildData.EntriesIds | factcheck-embeddings/src/factcheck_relevance/build_data.py:131 | the corpus list has one record per key, in the dict's insertion order |
| BuildData.Corpus.constructor | factcheck-embeddings/src/factcheck_relevance/build_data.py:26 | the corpus starts empty |
| BuildData.Corpus.Put | factcheck-embeddings/src/factcheck_relevance/build_data.py:63 | a new key is appended to the key order with its text, and an existing key keeps its place with the new text |
| BuildData.ClassifyEvidence | factcheck-embeddings/src/factcheck_relevance/build_data.py:41-66 | the loop yields the claim's kept positives and negatives and appends exactly the claim's retained entries to the corpus |
| BuildData.NegativeTexts | factcheck-embeddings/src/factcheck_relevance/build_data.py:113-114 | the instance's negatives are the snippets of the drawn negatives, in draw order |
| BuildData.PositiveInstance | factcheck-embeddings/src/factcheck_relevance/build_data.py:79-117 | one positive gives no instance when the claim has fewer than `k_neg` negatives and one instance otherwise; it fails exactly when the draw fails |
| BuildData.ClaimInstances | factcheck-embeddings/src/factcheck_relevance/build_data.py:78-117 | a train claim gives one instance per positive, in order, or none when it has fewer than `k_neg` negatives; it fails exactly when it has a positive and the draw fails |
| BuildData.InstanceShape | factcheck-embeddings/src/factcheck_relevance/build_data.py:79-117 | every instance has one positive snippet and `k_neg` distinct negative snippets, all from the claim's negatives and none equal to the positive |
| BuildData.DrawShape | factcheck-embeddings/src/factcheck_relevance/build_data.py:104-114 | one draw for a positive gives `k_neg` distinct negative snippets, none equal to the positive's snippet |
| BuildData.DrawnTexts | factcheck-embeddings/src/factcheck_relevance/build_data.py:113-114 | distinct documents drawn from documents with distinct snippets have distinct snippets, all from the pool |
| BuildData.ProcessClaim | factcheck-embeddings/src/factcheck_relevance/build_data.py:35-117 | one claim adds its retained entries to the corpus; a dev claim gives one query, whether or not it has positives, and one `[claim_id, 0, pid, 1]` row per positive; a train claim gives its instances |
| BuildData.FreshClaimIds | factcheck-embeddings/src/factcheck_relevance/build_data.py:36-66 | no doc id of a claim is among the entries of the claims before it |
| BuildData.OtherClaimIds | factcheck-embeddings/src/factcheck_relevance/build_data.py:56 | a claim's entries never carry the doc id of another claim of the same split |
| BuildData.SplitCorpusPrefix | factcheck-embeddings/src/factcheck_relevance/build_data.py:56-66 | every corpus entry of a split carries that split's id prefix |
| BuildData.TrainCorpusHasNoDevIds | factcheck-embeddings/src/factcheck_relevance/build_data.py:122-123 | after the train split, no corpus key has the dev prefix |
| BuildData.ProcessClaims | factcheck-embeddings/src/factcheck_relevance/build_data.py:28-120 | a split appends its claims' retained entries to the corpus; train gives the instances of its claims and no queries or qrels; dev gives one query per claim, the qrel rows of its positives and no instances; it counts the claims without positives; only train can fail, exactly when a claim's draw fails |
| BuildData.DevCount | factcheck-embeddings/src/factcheck_relevance/build_data.py:20-22 | `dev_size = int(num_claims * dev_ratio)` as a slice bound of the shuffled list, never above the number of claims |
| BuildData.DevCountIsFloor | factcheck-embeddings/src/factcheck_relevance/build_data.py:20 | for a ratio in [0, 1] the dev split is the first floor(n * dev_ratio) claims |
| BuildData.CutAtDevSize | factcheck-embeddings/src/factcheck_relevance/build_data.py:19-22 | dev followed by train is the shuffled list, and dev has `int(n * dev_ratio)` claims as a slice bound |
| BuildData.ShuffleAndSplit | factcheck-embeddings/src/factcheck_relevance/build_data.py:17-22 | dev and train together are a permutation of the input, and dev has the dev size |
| BuildData.BuildSplits | factcheck-embeddings/src/factcheck_relevance/build_data.py:122-140 | the outputs are the train instances, no dev instances, a corpus of the train and then dev entries with unique ids, one query per dev claim and the dev qrels; it fails exactly when a train claim's draw fails |
| BuildData.BuildData | factcheck-embeddings/src/factcheck_relevance/build_data.py:12-140 | the build partitions a permutation of the claims at the dev size and produces the outputs above for that partition |
| BuildGlobal.Basename | factcheck-embeddings/src/factcheck_relevance/build_global.py:27 | the base name holds no '/' |
| BuildGlobal.BasenameIsLastComponent | factcheck-embeddings/src/factcheck_relevance/build_global.py:27 | the base name is the path's suffix after its last '/' |
| BuildGlobal.RemoveAll | factcheck-embeddings/src/factcheck_relevance/build_global.py:27 | `str.replace(pat, "")`: removes the matches found scanning left to right without overlap; the result is no longer than the input and holds only its characters |
| BuildGlobal.FileStem | factcheck-embeddings/src/factcheck_relevance/build_global.py:27 | `os.path.basename(path).replace(".json", "")`: a stem with no `/` |
| BuildGlobal.FileStemOfJson | factcheck-embeddings/src/factcheck_relevance/build_global.py:27 | the stem of `<dir>/<name>.json` and of `<name>.json` is `<name>` whenever `<name>` holds no `/` and no ".json" starting inside it; dots are kept, so `data/claims.v2.json` gives `claims.v2` (DottedFileStem) |
| BuildGlobal.DottedFileStem | factcheck-embeddings/src/factcheck_relevance/build_global.py:27 | `data/claims.v2.json` has stem `claims.v2`: inner dots survive the replace |
| BuildGlobal.GlobalClaimIdInjective | factcheck-embeddings/src/factcheck_relevance/build_global.py:31 | within a file, distinct claim indices give distinct query ids |
| BuildGlobal.GlobalDocIdInjective | factcheck-embeddings/src/factcheck_relevance/build_global.py:44 | distinct counter values give distinct doc ids |
| BuildGlobal.Meet | factcheck-embeddings/src/factcheck_relevance/build_global.py:43-49 | one snippet lookup: a snippet met before leaves the index unchanged, a new one gets `g_doc_<counter>`, is appended to the corpus and bumps the counter; afterwards the snippet is always mapped |
| BuildGlobal.MeetAllAppend | factcheck-embeddings/src/factcheck_relevance/build_global.py:24-49 | meeting two runs of snippets one after the other is meeting their concatenation |
| BuildGlobal.MeetCoherent | factcheck-embeddings/src/factcheck_relevance/build_global.py:43-49 | looking up a snippet keeps the counter equal to the corpus length and every mapped id in the corpus |
| BuildGlobal.MeetKeepsIds | factcheck-embeddings/src/factcheck_relevance/build_global.py:43-49 | a lookup changes the id of no snippet met before |
| BuildGlobal.MeetIdempotent | factcheck-embeddings/src/factcheck_relevance/build_global.py:43-49 | looking a snippet up a second time changes nothing |
| BuildGlobal.MeetAllKeepsIds | factcheck-embeddings/src/factcheck_relevance/build_global.py:43-49 | a snippet's id never changes, whatever is met after it |
| BuildGlobal.ReplayIsFirstOccurrences | factcheck-embeddings/src/factcheck_relevance/build_global.py:42-47 | the corpus is the distinct snippets in order of first occurrence, the k-th with id `g_doc_k`; the counter is their number; the map's keys are exactly the snippets met |
| BuildGlobal.DocMapIsPosition | factcheck-embeddings/src/factcheck_relevance/build_global.py:43-49 | a snippet's id is `g_doc_k`, where k is the snippet's place among the distinct snippets |
| BuildGlobal.MapSizeIsCounter | factcheck-embeddings/src/factcheck_relevance/build_global.py:22-47 | the map size, the corpus length and the counter are equal |
| BuildGlobal.CorpusEntriesUnique | factcheck-embeddings/src/factcheck_relevance/build_global.py:43-46 | corpus ids and corpus texts are pairwise distinct, and the corpus holds a text exactly when it is a snippet met, whatever its label |
| BuildGlobal.DocMapPointsIntoCorpus | factcheck-embeddings/src/factcheck_relevance/build_global.py:45-49 | the id a snippet maps to names the corpus entry holding that snippet |
| BuildGlobal.CorpusInFirstOccurrenceOrder | factcheck-embeddings/src/factcheck_relevance/build_global.py:43-46 | of two corpus entries, the earlier one's snippet occurs first in the input |
| BuildGlobal.MeetEvidenceIsMeetAll | factcheck-embeddings/src/factcheck_relevance/build_global.py:37-49 | the evidence loop of a claim meets its snippets in order |
| BuildGlobal.MeetClaimsIsMeetAll | factcheck-embeddings/src/factcheck_relevance/build_global.py:29-49 | the claim loop of a file meets its claims' snippets in order |
| BuildGlobal.MeetFilesIsReplay | factcheck-embeddings/src/factcheck_relevance/build_global.py:24-49 | the file loop meets every snippet of every file in order, so the index depends only on that snippet stream |
| BuildGlobal.ClaimQrelsCount | factcheck-embeddings/src/factcheck_relevance/build_global.py:52-53 | a claim gives one qrel row per positive evidence item, repeats included |
| BuildGlobal.ClaimQrelsShape | factcheck-embeddings/src/factcheck_relevance/build_global.py:49-53 | every row of a claim is `[claim_id, 0, doc_id, 1]` with `doc_id` the id of a positive item's snippet |
| BuildGlobal.FileQueryIdsDistinct | factcheck-embeddings/src/factcheck_relevance/build_global.py:29-34 | the query ids of one file are pairwise distinct |
| BuildGlobal.AllQueriesCount | factcheck-embeddings/src/factcheck_relevance/build_global.py:24-34 | there is exactly one query per claim over all files |
| BuildGlobal.ClaimQrelsInto | factcheck-embeddings/src/factcheck_relevance/build_global.py:49-53 | a claim's rows name ids of the corpus as it stands after the claim, and the corpus only grows |
| BuildGlobal.FileQrelsInto | factcheck-embeddings/src/factcheck_relevance/build_global.py:29-53 | a file's rows name ids of the corpus as it stands after the file |
| BuildGlobal.AllQrelsInto | factcheck-embeddings/src/factcheck_relevance/build_global.py:24-53 | every qrel row of every file is `[_, 0, doc_id, 1]` with `doc_id` in the final corpus |
| BuildGlobal.GlobalBuilder.constructor | factcheck-embeddings/src/factcheck_relevance/build_global.py:16-22 | map, corpus, queries and qrels start empty and the counter at 0 |
| BuildGlobal.GlobalBuilder.Lookup | factcheck-embeddings/src/factcheck_relevance/build_global.py:43-49 | a lookup numbers a new snippet and appends it, leaves a known one alone, and returns the snippet's id |
| BuildGlobal.GlobalBuilder.AddClaim | factcheck-embeddings/src/factcheck_relevance/build_global.py:30-53 | a claim appends its query and the rows of its positive items, and meets its snippets |
| BuildGlobal.GlobalBuilder.AddFile | factcheck-embeddings/src/factcheck_relevance/build_global.py:24-53 | a file appends one query per claim, numbered from 0 within the file, and its claims' rows |
| BuildGlobal.BuildGlobal | factcheck-embeddings/src/factcheck_relevance/build_global.py:10-63 | the saved corpus is the first-occurrence numbering of all snippets, the queries are one per claim, and every qrel row is `[claim_id, 0, doc_id, 1]` with `doc_id` in the corpus |
| Eval.Strip | factcheck-embeddings/src/factcheck_relevance/eval.py:15 | `line.strip()`: no longer than the line, and neither starts nor ends with Python whitespace; StripTrims says it is the line with only whitespace cut from both ends |
| Eval.Split | factcheck-embeddings/src/factcheck_relevance/eval.py:15 | `s.split('\t')`: the pieces between tabs, empty ones included, so at least one; JoinSplit and SplitJoin make it the inverse of tab-joining |
| Eval.StripTrims | factcheck-embeddings/src/factcheck_relevance/eval.py:15 | `strip` keeps a stretch of the line with only whitespace around it, which neither starts nor ends with whitespace |
| Eval.StripUnchanged | factcheck-embeddings/src/factcheck_relevance/eval.py:15 | a string with no whitespace at either end is left as it is |
| Eval.StripIdempotent | factcheck-embeddings/src/factcheck_relevance/eval.py:15 | stripping twice is stripping once |
| Eval.SplitPiecesFree | factcheck-embeddings/src/factcheck_relevance/eval.py:15 | no field of a split holds a tab |
| Eval.JoinSplit | factcheck-embeddings/src/factcheck_relevance/eval.py:15 | joining the fields with tabs gives the line back |
| Eval.SplitJoin | factcheck-embeddings/src/factcheck_relevance/eval.py:15 | splitting tab-joined fields that hold no tab gives the fields back |
| Eval.ParseInt | factcheck-embeddings/src/factcheck_relevance/eval.py:16 | `int(label)`: accepts only a stripped text that is an optional sign followed by digits, and a negative value only after a `-`; ParseDecimal reads `str(n)` back as n |
| Eval.ParseDecimal | factcheck-embeddings/src/factcheck_relevance/eval.py:16 | `int(str(n))` is n |
| Eval.ParseQrelLine | factcheck-embeddings/src/factcheck_relevance/eval.py:15-16 | one qrels line: fails, naming its line number, exactly when it does not have four fields or its label is not an integer; otherwise gives query id, doc id and label, neither id holding a tab |
| Eval.WrittenQrelLineParses | factcheck-embeddings/src/factcheck_relevance/eval.py:15-16 | a qrels row written as tab-joined fields and a newline reads back as the same query id, doc id and label, provided neither id holds a tab and the query id does not start with whitespace; otherwise the source's own `strip().split('\t')` does not give the row back |
| Eval.ParsedQrelsAt | factcheck-embeddings/src/factcheck_relevance/eval.py:14-16 | the i-th parse result is line i parsed with line number i |
| Eval.CollectFailed | factcheck-embeddings/src/factcheck_relevance/eval.py:14-15 | once a line fails, later lines do not change the error |
| Eval.CollectError | factcheck-embeddings/src/factcheck_relevance/eval.py:14-15 | a failed read reports the error of its first failing line, and every line before it parses |
| Eval.CollectValues | factcheck-embeddings/src/factcheck_relevance/eval.py:14-15 | a successful read has one value per line, in order |
| Eval.PositiveQids | factcheck-embeddings/src/factcheck_relevance/eval.py:16-17 | a query id is listed exactly when some judgement for it has a label above 0 |
| Eval.QrelsOfDescribes | factcheck-embeddings/src/factcheck_relevance/eval.py:12-19 | the qrels table has as keys, in file order of first positive judgement, exactly the queries with a positive label, each mapped to exactly its doc ids with positive labels |
| Eval.QrelQueriesHaveRelevant | factcheck-embeddings/src/factcheck_relevance/eval.py:41 | every query of the table has a relevant doc, so the `else 0` of recall is never taken |
| Eval.QrelsFromStops | factcheck-embeddings/src/factcheck_relevance/eval.py:14-15 | the first line that does not parse ends the load with its error |
| Eval.QrelsFromIsCollect | factcheck-embeddings/src/factcheck_relevance/eval.py:12-19 | loading the table fails exactly when a line does not parse, with that error, and otherwise builds the table of the judgements |
| Eval.LoadedQrelsDescribe | factcheck-embeddings/src/factcheck_relevance/eval.py:12-19 | the loaded qrels table fails exactly as reading the lines does, and otherwise describes the file's judgements as above |
| Eval.AddToTable | factcheck-embeddings/src/factcheck_relevance/eval.py:16-19 | one judgement updates the table as the table's fold prescribes: labels at or below 0 change nothing, a new query is appended |
| Eval.ReadQrelLine | factcheck-embeddings/src/factcheck_relevance/eval.py:15-16 | reading line i gives that line's parse result |
| Eval.LoadQrels | factcheck-embeddings/src/factcheck_relevance/eval.py:12-19 | the loop builds the qrels table, or stops at the first line that does not parse |
| Eval.ParseRunLine | factcheck-embeddings/src/factcheck_relevance/eval.py:25 | one run line: fails with its line number and field count exactly when it does not have four fields; otherwise gives query id and doc id, neither holding a tab |
| Eval.ParsedRunAt | factcheck-embeddings/src/factcheck_relevance/eval.py:24-25 | the i-th parse result is run line i parsed with line number i |
| Eval.RunOfRetrieved | factcheck-embeddings/src/factcheck_relevance/eval.py:22-28 | the run table maps each query to exactly its listed doc ids in file order, rank and score ignored, and has a key exactly for the queries in the file |
| Eval.RunFromStops | factcheck-embeddings/src/factcheck_relevance/eval.py:24-25 | the first run line that does not have four fields ends the load with its error |
| Eval.RunFromIsCollect | factcheck-embeddings/src/factcheck_relevance/eval.py:22-28 | loading the run fails exactly when a line does not parse, with that error, and otherwise builds the table of the entries |
| Eval.LoadedRunRetrieves | factcheck-embeddings/src/factcheck_relevance/eval.py:22-28 | the loaded run gives each query its doc ids in file order, and fails exactly when a line does not have four fields |
| Eval.ReadRunLine | factcheck-embeddings/src/factcheck_relevance/eval.py:25 | reading run line i gives that line's parse result |
| Eval.AddToRun | factcheck-embeddings/src/factcheck_relevance/eval.py:26-28 | one entry is appended to its query's list, which a new query creates |
| Eval.LoadRun | factcheck-embeddings/src/factcheck_relevance/eval.py:22-28 | the loop builds the run table, or stops at the first line that does not parse |
| Eval.Top | factcheck-embeddings/src/factcheck_relevance/eval.py:40 | `retrieved[:k]` has at most k elements, and they are the first of the list |
| Eval.Recall | factcheck-embeddings/src/factcheck_relevance/eval.py:40-41 | Recall@k, the share of relevant doc ids among the first k retrieved, 0 with nothing relevant; always in [0, 1] |
| Eval.RecallBounds | factcheck-embeddings/src/factcheck_relevance/eval.py:39-42 | recall lies in [0, 1], and for a query with relevant docs it is 1 exactly when every relevant doc is among the first k |
| Eval.RecallMonotone | factcheck-embeddings/src/factcheck_relevance/eval.py:40-41 | a larger cut-off never lowers recall |
| Eval.RecallOfNothing | factcheck-embeddings/src/factcheck_relevance/eval.py:36-41 | recall of an empty list is 0 |
| Eval.FirstHit | factcheck-embeddings/src/factcheck_relevance/eval.py:46-49 | the first hit is a relevant doc with no relevant doc before it, and there is none only when no doc is relevant |
| Eval.RR | factcheck-embeddings/src/factcheck_relevance/eval.py:45-49 | the reciprocal rank of the first relevant doc id among the first ten, or 0; always in [0, 1] |
| Eval.RRBounds | factcheck-embeddings/src/factcheck_relevance/eval.py:45-50 | reciprocal rank lies in [0, 1], is 1 exactly when the first doc is relevant, and is positive exactly when one of the first ten is |
| Eval.ReciprocalRank | factcheck-embeddings/src/factcheck_relevance/eval.py:45-49 | the loop with `break` computes the reciprocal of the first relevant rank among the first ten, or 0 |
| Eval.Dcg | factcheck-embeddings/src/factcheck_relevance/eval.py:53-56 | the loop sums the discount of every rank among the first ten that holds a relevant doc |
| Eval.Idcg | factcheck-embeddings/src/factcheck_relevance/eval.py:58-60 | the loop sums the discounts of the first min(number of relevant docs, 10) ranks |
| Eval.DCG | factcheck-embeddings/src/factcheck_relevance/eval.py:53-56 | the discounted gain of the relevant doc ids among the first ten, repeats counted; bounds in HitSumNonNegative and DcgAtMostIdcg |
| Eval.IDCG | factcheck-embeddings/src/factcheck_relevance/eval.py:58-60 | the sum of the first min(|relevant|, 10) discounts; DiscSumGrows makes it positive when something is relevant |
| Eval.NDCG | factcheck-embeddings/src/factcheck_relevance/eval.py:62 | DCG over IDCG, or 0 when IDCG is 0; bounds in NdcgBounds, NdcgIdeal and NdcgOfRepeatExceedsOne |
| Eval.HitSumNonNegative | factcheck-embeddings/src/factcheck_relevance/eval.py:53-56 | DCG is never negative |
| Eval.DiscSumGrows | factcheck-embeddings/src/factcheck_relevance/eval.py:58-60 | the ideal DCG grows strictly with the number of ranks summed |
| Eval.HitSumBound | factcheck-embeddings/src/factcheck_relevance/eval.py:53-60 | c hits gain at most the discounts of the first c ranks |
| Eval.HitCountDistinct | factcheck-embeddings/src/factcheck_relevance/eval.py:53-56 | without repeats, the hits are that many different relevant docs |
| Eval.DcgAtMostIdcg | factcheck-embeddings/src/factcheck_relevance/eval.py:53-60 | when the first ten retrieved are distinct, DCG is at most IDCG |
| Eval.NdcgBounds | factcheck-embeddings/src/factcheck_relevance/eval.py:52-63 | nDCG is never negative, and at most 1 when the first ten retrieved are distinct |
| Eval.NdcgIdeal | factcheck-embeddings/src/factcheck_relevance/eval.py:52-63 | nDCG is 1 when the first min(number of relevant docs, 10) retrieved are relevant and the first ten are distinct |
| Eval.NdcgOfRepeatExceedsOne | factcheck-embeddings/src/factcheck_relevance/eval.py:54-56 | a relevant doc listed twice is counted twice: the run `d, d` against the single relevant doc d has nDCG above 1 |
| Eval.Mean | factcheck-embeddings/src/factcheck_relevance/eval.py:66-70 | `np.mean`: NaN exactly for the empty list, otherwise the sum over the count |
| Eval.MeanBounds | factcheck-embeddings/src/factcheck_relevance/eval.py:65-70 | the mean is NaN exactly for the empty list, and the mean of values in [lo, hi] lies in [lo, hi] |
| Eval.MeanMonotone | factcheck-embeddings/src/factcheck_relevance/eval.py:65-70 | averaging keeps an element-wise order between two lists of one length |
| Eval.ColumnAt | factcheck-embeddings/src/factcheck_relevance/eval.py:35-36 | the i-th score of a metric list is the metric of the i-th qrels query against `run.get(qid, [])` |
| Eval.ColumnAgree | factcheck-embeddings/src/factcheck_relevance/eval.py:35-36 | a metric list depends on the run only through the lists it holds for the qrels queries |
| Eval.RecallListBounds | factcheck-embeddings/src/factcheck_relevance/eval.py:39-42 | every per-query recall lies in [0, 1] |
| Eval.RRListBounds | factcheck-embeddings/src/factcheck_relevance/eval.py:45-50 | every per-query reciprocal rank lies in [0, 1] |
| Eval.NdcgListBounds | factcheck-embeddings/src/factcheck_relevance/eval.py:52-63 | every per-query nDCG lies in [0, 1] when no run list repeats a doc in its first ten |
| Eval.RecallListMonotone | factcheck-embeddings/src/factcheck_relevance/eval.py:39-42 | query by query, a larger cut-off never lowers recall |
| Eval.RecallMeanBounds | factcheck-embeddings/src/factcheck_relevance/eval.py:69-70 | each Recall@k is NaN exactly when the qrels have no query, and otherwise lies in [0, 1] |
| Eval.MrrBounds | factcheck-embeddings/src/factcheck_relevance/eval.py:66 | MRR@10 is NaN exactly when the qrels have no query, and otherwise lies in [0, 1] |
| Eval.NdcgMeanBounds | factcheck-embeddings/src/factcheck_relevance/eval.py:67 | nDCG@10 is NaN exactly when the qrels have no query, and otherwise lies in [0, 1] when no run list repeats a doc in its first ten |
| Eval.RecallCutoffsOrdered | factcheck-embeddings/src/factcheck_relevance/eval.py:69-70 | Recall@5 <= Recall@10 <= Recall@20 <= Recall@50 |
| Eval.UnretrievedScoresZero | factcheck-embeddings/src/factcheck_relevance/eval.py:36 | a qrels query absent from the run scores 0 on every metric |
| Eval.RecallListAgree | factcheck-embeddings/src/factcheck_relevance/eval.py:35-42 | two runs that agree on the qrels queries give the same recall lists |
| Eval.NdcgListAgree | factcheck-embeddings/src/factcheck_relevance/eval.py:35-63 | two runs that agree on the qrels queries give the same nDCG lists |
| Eval.RunOnlyQueriesIgnored | factcheck-embeddings/src/factcheck_relevance/eval.py:35-36 | only the qrels queries are scored: runs that agree on them give the same metrics, whatever else they hold |
| Eval.MetricsOf | factcheck-embeddings/src/factcheck_relevance/eval.py:31-70 | the `results` dict of a loaded qrels table and run: the means of the per-query MRR, nDCG and Recall@5/10/20/50 lists; each is NaN exactly when the qrels table has no query |
| Eval.Evaluation | factcheck-embeddings/src/factcheck_relevance/eval.py:10-72 | `compute_metrics` on the two files' lines: the qrels file's parse error, else the run file's, else MetricsOf the loaded tables; EvaluationOfFiles states it against the line-by-line parse |
| Eval.EvaluationOfFiles | factcheck-embeddings/src/factcheck_relevance/eval.py:10-72 | evaluation fails exactly when a line of either file does not parse, reporting the qrels file's error first; otherwise it scores the table of the qrels judgements against the table of the run entries |
| Eval.ScoreQuery | factcheck-embeddings/src/factcheck_relevance/eval.py:38-63 | one query's Recall@5/10/20/50, reciprocal rank and nDCG are the metric functions of its retrieved list and relevant set |
| Eval.ScoreQueries | factcheck-embeddings/src/factcheck_relevance/eval.py:31-70 | the loop over the qrels queries, in table order, yields the means of the six metric lists |
| Eval.ComputeMetrics | factcheck-embeddings/src/factcheck_relevance/eval.py:10-72 | `compute_metrics` loads both files and scores every qrels query, or reports the first parse error, qrels file first |

## Left out

- File and directory I/O (`load_json`, `save_jsonl`, `save_tsv`, `open`, `os.makedirs`), `argparse`, YAML config loading, logging and `tqdm`. The inputs are values: claims, input files with their claims, and the lines of the qrels and run files. The outputs are the lists the source would save.
- The output file names and the `if dev_queries:` / `if dev_qrels:` guards (build_data.py lines 135-140): an empty list stands for a file not written.
- Defaults read from the config (`seed`, `dev_ratio`, `k_neg`, `hard_pool_size`, `hard_frac`): the model takes their resolved values in `BuildData.Config`.
- The Mersenne Twister behind `random.seed`, `random.shuffle` and `random.sample`: draws are nondeterministic choices, so seeded reproducibility is not modelled.
- Floating point: similarities, `dev_ratio`, `hard_frac` and all metrics are exact reals. `1 / np.log2(i + 2)` is the parameter `disc`, assumed only positive and strictly decreasing.
- Eval.ParseInt: `int()` also accepts underscores between digits and non-ASCII decimal digits; the model accepts only an optional sign and ASCII digits, with surrounding whitespace.
- KeyError on a claim or evidence record without `claim`, `snippet` or `relevance_label`: records always carry those fields. A missing `evidence` list reads as empty, and a missing `cosine_similarity` as 0.0, as in the source.
- The `title` field of the build_data corpus dict: it is always empty and is not written out.
- The `None` that `process_claims` returns for train queries and qrels: the model returns empty lists, which the caller discards, as the source does.
- The loop over `recalls.keys()`: the four cut-offs are written out one by one. The `dict` keys 5, 10, 20, 50 keep that order.
- BuildData.PositiveInstance: requires the claim's negatives to have distinct ids. Every caller's negatives have them (`KeptDistinct`). For other input the rest pool could come up short and the source would drop the instance, which is not modelled.
- BuildData.ClaimInstances: the same distinct-ids requirement as `PositiveInstance`, for the same reason.
- Eval.ScoreQueries: requires every query of the table to be a key of its map. The loaded table always has this (`LoadedQrelsDescribe`); the source would raise KeyError otherwise.
- Eval.NdcgBounds: the upper bound 1 is stated only for a first ten without repeats, because with repeats nDCG exceeds 1 (`NdcgOfRepeatExceedsOne`).
- BuildData.DevCountIsFloor: states the floor only for `dev_ratio` in [0, 1]. Other ratios go through Python's slice rules, which `CutAtDevSize` models.
- `retrieve.py`, `encode.py`, `baseline_encode.py`, `train.py`, `scripts/compare_results.py` and `utils.py`: they drive FAISS, the Tevatron encoder and trainer, pickle, pandas and the filesystem. They are not part of this model. Only the row format of `save_tsv` (utils.py line 23) appears, as the format `WrittenQrelLineParses` reads back.
