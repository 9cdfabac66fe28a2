/** The retrieval metrics engine (eval.py, `compute_metrics`): a qrels file and a run
    file, both tab-separated, are read into tables; every query of the qrels is scored
    by Recall@{5,10,20,50}, reciprocal rank at 10 and binary nDCG@10; each metric is
    averaged over those queries. */
module Eval {
  import opened Common

  // ---------------------------------------------------------------------------
  // Reading one line: `line.strip().split('\t')` (lines 15, 25) and `int(label)` (line 16)

  /** `str.isspace()` for one character: the characters Python strips. */
  predicate IsSpace(c: char) {
    || c in {' ', '\t', '\n', '\r', '\U{b}', '\U{c}', '\U{1c}', '\U{1d}', '\U{1e}', '\U{1f}'}
    || c in {'\U{85}', '\U{a0}', '\U{1680}', '\U{2028}', '\U{2029}', '\U{202f}', '\U{205f}', '\U{3000}'}
    || '\U{2000}' <= c <= '\U{200a}'
  }

  /** The index of the first non-space character of `s` at or after `i`, or |s|. */
  function SkipLeft(s: string, i: nat): (j: nat)
    requires i <= |s|
    ensures i <= j <= |s|
    ensures forall k :: i <= k < j ==> IsSpace(s[k])
    ensures j < |s| ==> !IsSpace(s[j])
    decreases |s| - i
  {
    if i < |s| && IsSpace(s[i]) then SkipLeft(s, i + 1) else i
  }

  /** One past the last non-space character of `s` before `j`, and at least `lo`. */
  function SkipRight(s: string, lo: nat, j: nat): (e: nat)
    requires lo <= j <= |s|
    ensures lo <= e <= j
    ensures forall k :: e <= k < j ==> IsSpace(s[k])
    ensures e > lo ==> !IsSpace(s[e - 1])
    decreases j
  {
    if j > lo && IsSpace(s[j - 1]) then SkipRight(s, lo, j - 1) else j
  }

  /** `s.strip()` */
  function Strip(s: string): (r: string)
    ensures |r| <= |s|
    ensures r == [] || (!IsSpace(r[0]) && !IsSpace(r[|r| - 1]))
  {
    var i := SkipLeft(s, 0);
    s[i..SkipRight(s, i, |s|)]
  }

  /** What `strip` keeps is a stretch `s[i..e]` of `s` with only whitespace before
      and after it, and it neither starts nor ends with whitespace. */
  lemma StripTrims(s: string)
    ensures exists i, e :: 0 <= i <= e <= |s| && Strip(s) == s[i..e]
                           && (forall k :: 0 <= k < i ==> IsSpace(s[k]))
                           && (forall k :: e <= k < |s| ==> IsSpace(s[k]))
    ensures var r := Strip(s); r == [] || (!IsSpace(r[0]) && !IsSpace(r[|r| - 1]))
  {
    var i := SkipLeft(s, 0);
    var e := SkipRight(s, i, |s|);
    assert Strip(s) == s[i..e];
    if i < e {
      assert s[i..e][0] == s[i];
    }
  }

  /** A string with no whitespace at either end is left as it is. */
  lemma StripUnchanged(s: string)
    requires s == [] || (!IsSpace(s[0]) && !IsSpace(s[|s| - 1]))
    ensures Strip(s) == s
  {
    if s != [] {
      assert SkipLeft(s, 0) == 0;
      assert SkipRight(s, 0, |s|) == |s|;
    }
  }

  /** Stripping twice strips no more than stripping once. */
  lemma StripIdempotent(s: string)
    ensures Strip(Strip(s)) == Strip(s)
  {
    StripTrims(s);
    StripUnchanged(Strip(s));
  }

  /** `s.split(sep)` with an explicit separator: the pieces between the separators,
      empty ones included, so there is always at least one. */
  function Split(s: string, sep: char): (parts: seq<string>)
    ensures |parts| >= 1
    decreases |s|
  {
    if s == [] then [[]]
    else
      var init := Split(s[..|s| - 1], sep);
      var c := s[|s| - 1];
      if c == sep then init + [[]]
      else init[..|init| - 1] + [init[|init| - 1] + [c]]
  }

  /** `sep.join(parts)`, the row format the qrels and run files are written in. */
  function Join(parts: seq<string>, sep: char): string
    requires |parts| >= 1
  {
    if |parts| == 1 then parts[0] else Join(parts[..|parts| - 1], sep) + [sep] + parts[|parts| - 1]
  }

  /** No piece of a split holds the separator. */
  lemma {:induction false} SplitPiecesFree(s: string, sep: char)
    ensures forall k :: 0 <= k < |Split(s, sep)| ==> sep !in Split(s, sep)[k]
    decreases |s|
  {
    if s != [] {
      SplitPiecesFree(s[..|s| - 1], sep);
    }
  }

  /** Extending the last piece by c extends the join by c. */
  lemma JoinExtendLast(p: seq<string>, c: char, sep: char)
    requires |p| >= 1
    ensures Join(p[..|p| - 1] + [p[|p| - 1] + [c]], sep) == Join(p, sep) + [c]
  {
    var q := p[..|p| - 1] + [p[|p| - 1] + [c]];
    assert q[..|q| - 1] == p[..|p| - 1];
  }

  /** Joining the pieces of a split gives the string back. */
  lemma {:induction false} JoinSplit(s: string, sep: char)
    ensures Join(Split(s, sep), sep) == s
    decreases |s|
  {
    if s != [] {
      var init := s[..|s| - 1];
      var c := s[|s| - 1];
      var p := Split(init, sep);
      JoinSplit(init, sep);
      assert s == init + [c];
      if c == sep {
        assert (p + [[]])[..|p|] == p;
      } else {
        JoinExtendLast(p, c, sep);
      }
    }
  }

  /** A string without the separator splits into itself alone. */
  lemma {:induction false} SplitFree(s: string, sep: char)
    requires sep !in s
    ensures Split(s, sep) == [s]
    decreases |s|
  {
    if s != [] {
      SplitFree(s[..|s| - 1], sep);
      assert s[..|s| - 1] + [s[|s| - 1]] == s;
    }
  }

  /** Splitting after a separator: what follows a separator, if it holds no further
      separator, is the last piece. */
  lemma {:induction false} SplitAfterSep(a: string, b: string, sep: char)
    requires sep !in b
    ensures Split(a + [sep] + b, sep) == Split(a, sep) + [b]
    decreases |b|
  {
    if b == [] {
      assert (a + [sep] + b)[..|a|] == a;
    } else {
      var b' := b[..|b| - 1];
      var s := a + [sep] + b;
      assert s[..|s| - 1] == a + [sep] + b';
      SplitAfterSep(a, b', sep);
      assert b' + [b[|b| - 1]] == b;
    }
  }

  /** Splitting a join gives the pieces back when none holds the separator. */
  lemma {:induction false} SplitJoin(parts: seq<string>, sep: char)
    requires |parts| >= 1
    requires forall k :: 0 <= k < |parts| ==> sep !in parts[k]
    ensures Split(Join(parts, sep), sep) == parts
    decreases |parts|
  {
    if |parts| == 1 {
      SplitFree(parts[0], sep);
    } else {
      var init := parts[..|parts| - 1];
      SplitJoin(init, sep);
      SplitAfterSep(Join(init, sep), parts[|parts| - 1], sep);
      assert init + [parts[|parts| - 1]] == parts;
    }
  }

  /** `int(s)` for a string: whitespace around an optional sign and decimal digits. */
  function ParseInt(s: string): (r: Option<int>)
    ensures r.Some? ==> Strip(s) != [] && forall k :: 1 <= k < |Strip(s)| ==> IsDigit(Strip(s)[k])
    ensures r.Some? && r.value < 0 ==> Strip(s)[0] == '-'
  {
    var t := Strip(s);
    if t != [] && (t[0] == '+' || t[0] == '-') then
      var d := t[1..];
      if d != [] && AllDigits(d) then Some(if t[0] == '-' then -(ValueOf(d) as int) else ValueOf(d) as int)
      else None
    else if t != [] && AllDigits(t) then Some(ValueOf(t) as int)
    else None
  }

  /** `int(str(n))` is n. */
  lemma ParseDecimal(n: nat)
    ensures ParseInt(Decimal(n)) == Some(n)
  {
    var s := Decimal(n);
    assert !IsSpace(s[0]) && !IsSpace(s[|s| - 1]);
    StripUnchanged(s);
    DecimalValue(n);
  }

  /** The fields of one line of a TSV file. */
  function Fields(line: string): seq<string> {
    Split(Strip(line), '\t')
  }

  // ---------------------------------------------------------------------------
  // The qrels file (lines 11-19)

  /** Why reading a file stops, and at which line (counted from 0): a line without
      exactly four fields, or a qrels label that is not an integer. */
  datatype ParseError = WrongFieldCount(line: nat, fields: nat) | NotAnInteger(line: nat)

  /** One line of the qrels file: query id, doc id and label; the second field is read
      and thrown away. */
  datatype Judgement = Judgement(qid: string, docid: string, grade: int)

  /** Lines 15-16 for line number n */
  function ParseQrelLine(line: string, n: nat): (r: Result<Judgement, ParseError>)
    ensures r.Failure? ==> r.error.line == n
    ensures r.Success? <==> |Fields(line)| == 4 && ParseInt(Fields(line)[3]).Some?
    ensures r.Success? ==> '\t' !in r.value.qid && '\t' !in r.value.docid
  {
    SplitPiecesFree(Strip(line), '\t');
    var f := Fields(line);
    if |f| != 4 then Failure(WrongFieldCount(n, |f|))
    else match ParseInt(f[3])
      case None => Failure(NotAnInteger(n))
      case Some(v) => Success(Judgement(f[0], f[2], v))
  }

  /** A qrels row as written with `'\t'.join(map(str, row))` and a newline is read
      back as the same judgement, provided the ids hold no tab and the query id does
      not start with whitespace. */
  lemma WrittenQrelLineParses(qid: string, iteration: nat, docid: string, grade: nat, n: nat)
    requires '\t' !in qid && '\t' !in docid
    requires qid != [] && !IsSpace(qid[0])
    ensures ParseQrelLine(Join([qid, Decimal(iteration), docid, Decimal(grade)], '\t') + "\n", n)
            == Success(Judgement(qid, docid, grade))
  {
    WrittenRowFields(qid, Decimal(iteration), docid, Decimal(grade));
    ParseDecimal(grade);
  }

  /** The fields of a written row, numbers in the second and fourth place, are the
      values written. */
  lemma WrittenRowFields(a: string, b: string, c: string, d: string)
    requires '\t' !in a && '\t' !in c && AllDigits(b) && AllDigits(d)
    requires a != [] && !IsSpace(a[0]) && d != []
    ensures Fields(Join([a, b, c, d], '\t') + "\n") == [a, b, c, d]
  {
    var body := Join([a, b, c, d], '\t');
    JoinEnds(a, b, c, d);
    assert IsDigit(d[|d| - 1]);
    NoTabInDigits(b);
    NoTabInDigits(d);
    SplitJoin([a, b, c, d], '\t');
    StripNewline(body);
  }

  lemma JoinFour(a: string, b: string, c: string, d: string, sep: char)
    ensures Join([a, b, c, d], sep) == a + [sep] + b + [sep] + c + [sep] + d
  {
    assert [a, b, c, d][..3] == [a, b, c];
    assert [a, b, c][..2] == [a, b];
    assert [a, b][..1] == [a];
    assert Join([a, b], sep) == a + [sep] + b;
    assert Join([a, b, c], sep) == a + [sep] + b + [sep] + c;
  }

  /** A joined row starts as its first field does and ends as its last. */
  lemma JoinEnds(a: string, b: string, c: string, d: string)
    requires a != [] && d != []
    ensures var body := Join([a, b, c, d], '\t');
            body != [] && body[0] == a[0] && body[|body| - 1] == d[|d| - 1]
  {
    JoinFour(a, b, c, d, '\t');
  }

  lemma NoTabInDigits(s: string)
    requires AllDigits(s)
    ensures '\t' !in s
  {
    assert forall i :: 0 <= i < |s| ==> IsDigit(s[i]);
  }

  /** A trailing newline is stripped, and nothing else when the text has no whitespace
      at either end. */
  lemma StripNewline(body: string)
    requires body != [] && !IsSpace(body[0]) && !IsSpace(body[|body| - 1])
    ensures Strip(body + "\n") == body
  {
    var s := body + "\n";
    assert SkipLeft(s, 0) == 0;
    assert SkipRight(s, 0, |s| - 1) == |body|;
    assert s[..|body|] == body;
  }

  /** Lines 15-16 applied to every line of the qrels file, in order. */
  function ParsedQrels(lines: seq<string>): (ps: seq<Result<Judgement, ParseError>>)
    ensures |ps| == |lines|
  {
    if lines == [] then [] else ParsedQrels(lines[..|lines| - 1]) + [ParseQrelLine(lines[|lines| - 1], |lines| - 1)]
  }

  lemma {:induction false} ParsedQrelsAt(lines: seq<string>, i: nat)
    requires i < |lines|
    ensures ParsedQrels(lines)[i] == ParseQrelLine(lines[i], i)
  {
    if i < |lines| - 1 {
      ParsedQrelsAt(lines[..|lines| - 1], i);
    }
  }

  /** The values the first n lines parse to, or the error of the first line that
      does not parse: a `for line in f` loop that an exception ends. */
  function Collect<X>(ps: seq<Result<X, ParseError>>, n: nat): Result<seq<X>, ParseError>
    requires n <= |ps|
  {
    if n == 0 then Success([])
    else match Collect(ps, n - 1)
      case Failure(e) => Failure(e)
      case Success(xs) =>
        match ps[n - 1]
          case Failure(e) => Failure(e)
          case Success(x) => Success(xs + [x])
  }

  /** Once a line fails, the first error is the result however many lines follow. */
  lemma {:induction false} CollectFailed<X>(ps: seq<Result<X, ParseError>>, i: nat, n: nat)
    requires i <= n <= |ps| && Collect(ps, i).Failure?
    ensures Collect(ps, n) == Collect(ps, i)
    decreases n
  {
    if n > i {
      CollectFailed(ps, i, n - 1);
    }
  }

  /** The error is the one of the first line that does not parse, and every line
      before it parses. */
  lemma {:induction false} CollectError<X>(ps: seq<Result<X, ParseError>>, n: nat)
    requires n <= |ps| && Collect(ps, n).Failure?
    ensures exists k :: 0 <= k < n && ps[k] == Failure(Collect(ps, n).error) && Collect(ps, k).Success?
  {
    if Collect(ps, n - 1).Failure? {
      CollectError(ps, n - 1);
    } else {
      assert ps[n - 1] == Failure(Collect(ps, n).error);
    }
  }

  /** Without an error every line contributes its value, in order. */
  lemma {:induction false} CollectValues<X>(ps: seq<Result<X, ParseError>>, n: nat)
    requires n <= |ps| && Collect(ps, n).Success?
    ensures |Collect(ps, n).value| == n
    ensures forall k :: 0 <= k < n ==> ps[k] == Success(Collect(ps, n).value[k])
  {
    if n > 0 {
      CollectValues(ps, n - 1);
      var xs := Collect(ps, n - 1).value;
      assert Collect(ps, n).value == xs + [ps[n - 1].value];
    }
  }

  /** The judgements of the qrels file, or the first error. */
  function QrelLines(lines: seq<string>): Result<seq<Judgement>, ParseError> {
    Collect(ParsedQrels(lines), |lines|)
  }

  /** The query ids of the judgements with a positive label, in order. */
  function PositiveQids(js: seq<Judgement>): (qs: seq<string>)
    ensures forall q :: q in qs <==> exists i :: 0 <= i < |js| && js[i].qid == q && js[i].grade > 0
  {
    if js == [] then []
    else
      var init := js[..|js| - 1];
      var j := js[|js| - 1];
      assert forall i :: 0 <= i < |init| ==> init[i] == js[i];
      PositiveQids(init) + if j.grade > 0 then [j.qid] else []
  }

  /** The keys of `qrels`, in the order the dict keeps them: each query with a
      positive judgement, where its first one is. */
  function QrelQueries(js: seq<Judgement>): seq<string> {
    FirstOccurrences(PositiveQids(js))
  }

  /** `qrels[qid]`: the doc ids judged relevant to `q`. */
  function Relevant(js: seq<Judgement>, q: string): set<string> {
    set i | 0 <= i < |js| && js[i].qid == q && js[i].grade > 0 :: js[i].docid
  }

  /** The qrels table: the query ids in insertion order and the relevant doc ids of
      each. */
  datatype Qrels = Qrels(order: seq<string>, relevant: map<string, set<string>>)

  /** Lines 16-19 for one judgement. */
  function AddJudgement(t: Qrels, j: Judgement): Qrels {
    if j.grade <= 0 then t
    else
      var t1 := if j.qid in t.relevant then t else Qrels(t.order + [j.qid], t.relevant[j.qid := {}]);
      Qrels(t1.order, t1.relevant[j.qid := t1.relevant[j.qid] + {j.docid}])
  }

  /** The table lines 12-19 hold after reading the judgements `js`. */
  function QrelsOf(js: seq<Judgement>): Qrels {
    if js == [] then Qrels([], map[])
    else AddJudgement(QrelsOf(js[..|js| - 1]), js[|js| - 1])
  }

  ghost predicate OrderIs(t: Qrels, js: seq<Judgement>) {
    t.order == QrelQueries(js)
  }

  ghost predicate KeysAre(t: Qrels) {
    forall q :: q in t.relevant <==> q in t.order
  }

  ghost predicate ValuesAre(t: Qrels, js: seq<Judgement>) {
    forall q :: q in t.relevant ==> t.relevant[q] == Relevant(js, q)
  }

  /** `t` is the dict `qrels` for the judgements `js`: its keys in first-positive
      order, and for each the doc ids judged relevant to it. */
  ghost predicate Describes(t: Qrels, js: seq<Judgement>) {
    OrderIs(t, js) && KeysAre(t) && ValuesAre(t, js)
  }

  lemma RelevantAppend(js: seq<Judgement>, j: Judgement, q: string)
    ensures Relevant(js + [j], q) == Relevant(js, q) + if j.qid == q && j.grade > 0 then {j.docid} else {}
  {
    var js' := js + [j];
    forall d | d in Relevant(js', q) ensures d in Relevant(js, q) + if j.qid == q && j.grade > 0 then {j.docid} else {} {
      var i :| 0 <= i < |js'| && js'[i].qid == q && js'[i].grade > 0 && js'[i].docid == d;
      if i < |js| {
        assert js[i] == js'[i];
      }
    }
    forall d | d in Relevant(js, q) ensures d in Relevant(js', q) {
      var i :| 0 <= i < |js| && js[i].qid == q && js[i].grade > 0 && js[i].docid == d;
      assert js'[i] == js[i];
    }
    if j.qid == q && j.grade > 0 {
      assert js'[|js|] == j;
    }
  }

  lemma PositiveQidsAppend(js: seq<Judgement>, j: Judgement)
    ensures PositiveQids(js + [j]) == PositiveQids(js) + if j.grade > 0 then [j.qid] else []
  {
    assert (js + [j])[..|js|] == js;
  }

  /** A query that is not a key of the table has no relevant doc id. */
  lemma UnqueriedHasNoRelevant(js: seq<Judgement>, q: string)
    requires q !in QrelQueries(js)
    ensures Relevant(js, q) == {}
  {
  }

  lemma AddJudgementOrder(t: Qrels, js: seq<Judgement>, j: Judgement)
    requires OrderIs(t, js) && KeysAre(t)
    ensures OrderIs(AddJudgement(t, j), js + [j]) && KeysAre(AddJudgement(t, j))
  {
    if j.grade > 0 {
      PositiveQidsAppend(js, j);
      DedupAppend(PositiveQids(js), j.qid);
      assert j.qid in t.relevant <==> j.qid in PositiveQids(js);
    } else {
      PositiveQidsAppend(js, j);
      assert AddJudgement(t, j) == t;
      assert PositiveQids(js + [j]) == PositiveQids(js);
    }
  }

  lemma AddJudgementValues(t: Qrels, js: seq<Judgement>, j: Judgement)
    requires Describes(t, js)
    ensures ValuesAre(AddJudgement(t, j), js + [j])
  {
    var t' := AddJudgement(t, j);
    forall q | q in t'.relevant ensures t'.relevant[q] == Relevant(js + [j], q) {
      RelevantAppend(js, j, q);
      if j.grade > 0 && j.qid == q && q !in t.relevant {
        UnqueriedHasNoRelevant(js, q);
      }
    }
  }

  /** The table lines 12-19 build is the dict that the judgements describe. */
  lemma {:induction false} QrelsOfDescribes(js: seq<Judgement>)
    ensures Describes(QrelsOf(js), js)
    decreases |js|
  {
    if js != [] {
      var init := js[..|js| - 1];
      QrelsOfDescribes(init);
      assert js == init + [js[|js| - 1]];
      AddJudgementOrder(QrelsOf(init), init, js[|js| - 1]);
      AddJudgementValues(QrelsOf(init), init, js[|js| - 1]);
    }
  }

  /** Every query of the table has at least one relevant doc id, so the `if pos_docs`
      guard of line 41 never takes its `else`. */
  lemma QrelQueriesHaveRelevant(js: seq<Judgement>, q: string)
    requires q in QrelQueries(js)
    ensures |Relevant(js, q)| > 0
  {
    var i :| 0 <= i < |js| && js[i].qid == q && js[i].grade > 0;
    assert js[i].docid in Relevant(js, q);
  }

  /** Lines 12-19 over the first n parsed lines: the table, or the first line that
      does not parse. */
  function QrelsFrom(ps: seq<Result<Judgement, ParseError>>, n: nat): Result<Qrels, ParseError>
    requires n <= |ps|
  {
    if n == 0 then Success(Qrels([], map[]))
    else match QrelsFrom(ps, n - 1)
      case Failure(e) => Failure(e)
      case Success(t) =>
        match ps[n - 1]
          case Failure(e) => Failure(e)
          case Success(j) => Success(AddJudgement(t, j))
  }

  lemma {:induction false} QrelsFromFailed(ps: seq<Result<Judgement, ParseError>>, i: nat, n: nat)
    requires i <= n <= |ps| && QrelsFrom(ps, i).Failure?
    ensures QrelsFrom(ps, n) == QrelsFrom(ps, i)
    decreases n
  {
    if n > i {
      QrelsFromFailed(ps, i, n - 1);
    }
  }

  /** A line that does not parse after a table that loaded ends the load with its
      error. */
  lemma QrelsFromStops(ps: seq<Result<Judgement, ParseError>>, i: nat)
    requires i < |ps| && QrelsFrom(ps, i).Success? && ps[i].Failure?
    ensures QrelsFrom(ps, |ps|) == Failure(ps[i].error)
  {
    QrelsFromFailed(ps, i + 1, |ps|);
  }

  /** Loading the table fails exactly when collecting the judgements does, with the
      same error, and otherwise gives the table of the collected judgements. */
  lemma {:induction false} QrelsFromIsCollect(ps: seq<Result<Judgement, ParseError>>, n: nat)
    requires n <= |ps|
    ensures QrelsFrom(ps, n).Failure? <==> Collect(ps, n).Failure?
    ensures QrelsFrom(ps, n).Failure? ==> QrelsFrom(ps, n).error == Collect(ps, n).error
    ensures QrelsFrom(ps, n).Success? ==> QrelsFrom(ps, n).value == QrelsOf(Collect(ps, n).value)
  {
    if n > 0 {
      QrelsFromIsCollect(ps, n - 1);
      if Collect(ps, n - 1).Success? && ps[n - 1].Success? {
        var js := Collect(ps, n - 1).value;
        assert (js + [ps[n - 1].value])[..|js|] == js;
      }
    }
  }

  /** The loaded table holds, for each query with a positive judgement in the file,
      the doc ids judged relevant to it, keyed in file order; it fails exactly when a
      line does not parse, with that line's error. */
  lemma LoadedQrelsDescribe(lines: seq<string>)
    ensures QrelsFrom(ParsedQrels(lines), |lines|).Failure? <==> QrelLines(lines).Failure?
    ensures QrelsFrom(ParsedQrels(lines), |lines|).Failure? ==>
              QrelsFrom(ParsedQrels(lines), |lines|).error == QrelLines(lines).error
    ensures QrelsFrom(ParsedQrels(lines), |lines|).Success? ==>
              Describes(QrelsFrom(ParsedQrels(lines), |lines|).value, QrelLines(lines).value)
  {
    QrelsFromIsCollect(ParsedQrels(lines), |lines|);
    if QrelLines(lines).Success? {
      QrelsOfDescribes(QrelLines(lines).value);
    }
  }

  /** Lines 16-19: record one judgement in the table. */
  method AddToTable(order: seq<string>, relevant: map<string, set<string>>, j: Judgement)
    returns (order': seq<string>, relevant': map<string, set<string>>)
    ensures Qrels(order', relevant') == AddJudgement(Qrels(order, relevant), j)
  {
    order', relevant' := order, relevant;
    if j.grade > 0 {
      if j.qid !in relevant' {
        relevant' := relevant'[j.qid := {}];
        order' := order' + [j.qid];
      }
      relevant' := relevant'[j.qid := relevant'[j.qid] + {j.docid}];
    }
  }

  /** Lines 15-16 for line i of the qrels file. */
  method ReadQrelLine(lines: seq<string>, i: nat) returns (r: Result<Judgement, ParseError>)
    requires i < |lines|
    ensures r == ParsedQrels(lines)[i]
  {
    r := ParseQrelLine(lines[i], i);
    ParsedQrelsAt(lines, i);
  }

  /** Lines 12-19: the qrels table, or the first line that does not parse. */
  method LoadQrels(lines: seq<string>) returns (r: Result<Qrels, ParseError>)
    ensures r == QrelsFrom(ParsedQrels(lines), |lines|)
  {
    var order: seq<string> := [];
    var relevant: map<string, set<string>> := map[];
    for i := 0 to |lines|
      invariant QrelsFrom(ParsedQrels(lines), i) == Success(Qrels(order, relevant))
    {
      var parsed := ReadQrelLine(lines, i);
      if parsed.Failure? {
        QrelsFromStops(ParsedQrels(lines), i);
        return Failure(parsed.error);
      }
      order, relevant := AddToTable(order, relevant, parsed.value);
    }
    return Success(Qrels(order, relevant));
  }

  // ---------------------------------------------------------------------------
  // The run file (lines 21-28)

  /** One line of the run file: query id and doc id; rank and score are read and
      thrown away, so they need not be numbers. */
  datatype RunEntry = RunEntry(qid: string, docid: string)

  /** Line 25 for line number n. */
  function ParseRunLine(line: string, n: nat): (r: Result<RunEntry, ParseError>)
    ensures r.Failure? ==> r.error == WrongFieldCount(n, |Fields(line)|)
    ensures r.Success? <==> |Fields(line)| == 4
    ensures r.Success? ==> '\t' !in r.value.qid && '\t' !in r.value.docid
  {
    SplitPiecesFree(Strip(line), '\t');
    var f := Fields(line);
    if |f| != 4 then Failure(WrongFieldCount(n, |f|)) else Success(RunEntry(f[0], f[1]))
  }

  /** Line 25 applied to every line of the run file, in order. */
  function ParsedRun(lines: seq<string>): (ps: seq<Result<RunEntry, ParseError>>)
    ensures |ps| == |lines|
  {
    if lines == [] then [] else ParsedRun(lines[..|lines| - 1]) + [ParseRunLine(lines[|lines| - 1], |lines| - 1)]
  }

  lemma {:induction false} ParsedRunAt(lines: seq<string>, i: nat)
    requires i < |lines|
    ensures ParsedRun(lines)[i] == ParseRunLine(lines[i], i)
  {
    if i < |lines| - 1 {
      ParsedRunAt(lines[..|lines| - 1], i);
    }
  }

  /** The entries of the run file, or the first error. */
  function RunLines(lines: seq<string>): Result<seq<RunEntry>, ParseError> {
    Collect(ParsedRun(lines), |lines|)
  }

  /** The run table: for each query id, the doc ids retrieved for it. */
  type Run = map<string, seq<string>>

  /** Lines 26-28 for one entry. */
  function AddEntry(run: Run, e: RunEntry): Run {
    var r1 := if e.qid in run then run else run[e.qid := []];
    r1[e.qid := r1[e.qid] + [e.docid]]
  }

  /** The table lines 22-28 hold after reading the entries `es`. */
  function RunOf(es: seq<RunEntry>): Run {
    if es == [] then map[] else AddEntry(RunOf(es[..|es| - 1]), es[|es| - 1])
  }

  /** The doc ids of the entries for query `q`, in file order. */
  function Retrieved(es: seq<RunEntry>, q: string): (ds: seq<string>)
    ensures |ds| <= |es|
  {
    if es == [] then []
    else Retrieved(es[..|es| - 1], q) + if es[|es| - 1].qid == q then [es[|es| - 1].docid] else []
  }

  /** `run.get(qid, [])`, line 36. */
  function RunGet(run: Run, q: string): seq<string> {
    if q in run then run[q] else []
  }

  /** The run table maps each query to exactly the doc ids listed for it, in file
      order, and has a key for exactly the queries that occur in the file. */
  lemma {:induction false} RunOfRetrieved(es: seq<RunEntry>, q: string)
    ensures RunGet(RunOf(es), q) == Retrieved(es, q)
    ensures q in RunOf(es) <==> exists i :: 0 <= i < |es| && es[i].qid == q
  {
    if es != [] {
      var init := es[..|es| - 1];
      RunOfRetrieved(init, q);
      if q in RunOf(init) {
        var i :| 0 <= i < |init| && init[i].qid == q;
        assert es[i] == init[i];
      }
      if i :| 0 <= i < |es| && es[i].qid == q {
        if i < |init| {
          assert init[i] == es[i];
        }
      }
    }
  }

  /** Lines 22-28 over the first n parsed lines: the table, or the first line that
      does not parse. */
  function RunFrom(ps: seq<Result<RunEntry, ParseError>>, n: nat): Result<Run, ParseError>
    requires n <= |ps|
  {
    if n == 0 then Success(map[])
    else match RunFrom(ps, n - 1)
      case Failure(e) => Failure(e)
      case Success(run) =>
        match ps[n - 1]
          case Failure(e) => Failure(e)
          case Success(x) => Success(AddEntry(run, x))
  }

  lemma {:induction false} RunFromFailed(ps: seq<Result<RunEntry, ParseError>>, i: nat, n: nat)
    requires i <= n <= |ps| && RunFrom(ps, i).Failure?
    ensures RunFrom(ps, n) == RunFrom(ps, i)
    decreases n
  {
    if n > i {
      RunFromFailed(ps, i, n - 1);
    }
  }

  /** A line that does not parse after a table that loaded ends the load with its
      error. */
  lemma RunFromStops(ps: seq<Result<RunEntry, ParseError>>, i: nat)
    requires i < |ps| && RunFrom(ps, i).Success? && ps[i].Failure?
    ensures RunFrom(ps, |ps|) == Failure(ps[i].error)
  {
    RunFromFailed(ps, i + 1, |ps|);
  }

  /** Loading the run fails exactly when collecting its entries does, with the same
      error, and otherwise gives the table of the collected entries. */
  lemma {:induction false} RunFromIsCollect(ps: seq<Result<RunEntry, ParseError>>, n: nat)
    requires n <= |ps|
    ensures RunFrom(ps, n).Failure? <==> Collect(ps, n).Failure?
    ensures RunFrom(ps, n).Failure? ==> RunFrom(ps, n).error == Collect(ps, n).error
    ensures RunFrom(ps, n).Success? ==> RunFrom(ps, n).value == RunOf(Collect(ps, n).value)
  {
    if n > 0 {
      RunFromIsCollect(ps, n - 1);
      if Collect(ps, n - 1).Success? && ps[n - 1].Success? {
        var es := Collect(ps, n - 1).value;
        assert (es + [ps[n - 1].value])[..|es|] == es;
      }
    }
  }

  /** The loaded run gives each query the doc ids the file lists for it, in file
      order; it fails exactly when a line does not have four fields. */
  lemma LoadedRunRetrieves(lines: seq<string>, q: string)
    ensures RunFrom(ParsedRun(lines), |lines|).Failure? <==> RunLines(lines).Failure?
    ensures RunFrom(ParsedRun(lines), |lines|).Failure? ==>
              RunFrom(ParsedRun(lines), |lines|).error == RunLines(lines).error
    ensures RunFrom(ParsedRun(lines), |lines|).Success? ==>
              RunGet(RunFrom(ParsedRun(lines), |lines|).value, q) == Retrieved(RunLines(lines).value, q)
  {
    RunFromIsCollect(ParsedRun(lines), |lines|);
    if RunLines(lines).Success? {
      RunOfRetrieved(RunLines(lines).value, q);
    }
  }

  /** Line 25 for line i of the run file. */
  method ReadRunLine(lines: seq<string>, i: nat) returns (r: Result<RunEntry, ParseError>)
    requires i < |lines|
    ensures r == ParsedRun(lines)[i]
  {
    r := ParseRunLine(lines[i], i);
    ParsedRunAt(lines, i);
  }

  /** Lines 26-28: record one entry in the run table. */
  method AddToRun(run: Run, e: RunEntry) returns (run': Run)
    ensures run' == AddEntry(run, e)
  {
    run' := run;
    if e.qid !in run' {
      run' := run'[e.qid := []];
    }
    run' := run'[e.qid := run'[e.qid] + [e.docid]];
  }

  /** Lines 22-28: the run table, or the first line that does not parse. */
  method LoadRun(lines: seq<string>) returns (r: Result<Run, ParseError>)
    ensures r == RunFrom(ParsedRun(lines), |lines|)
  {
    var run: Run := map[];
    for i := 0 to |lines|
      invariant RunFrom(ParsedRun(lines), i) == Success(run)
    {
      var parsed := ReadRunLine(lines, i);
      if parsed.Failure? {
        RunFromStops(ParsedRun(lines), i);
        return Failure(parsed.error);
      }
      run := AddToRun(run, parsed.value);
    }
    return Success(run);
  }

  // ---------------------------------------------------------------------------
  // Per-query metrics (lines 35-60)

  /** `retrieved[:k]` for a cut-off k >= 0. */
  function Top(retrieved: seq<string>, k: nat): (t: seq<string>)
    ensures |t| <= k && |t| <= |retrieved|
    ensures forall i :: 0 <= i < |t| ==> t[i] == retrieved[i]
  {
    if k < |retrieved| then retrieved[..k] else retrieved
  }

  /** `set(s)`. */
  function Elems(s: seq<string>): set<string> {
    set x | x in s
  }

  /** A subset is no larger, and only as large when it is the whole set. */
  lemma SubsetCard(a: set<string>, b: set<string>)
    requires a <= b
    ensures |a| <= |b|
    ensures |a| == |b| ==> a == b
  {
    assert b == a + (b - a);
    if |a| == |b| {
      assert |b - a| == 0;
    }
  }

  lemma RatioBounds(x: int, y: int)
    requires 0 <= x <= y && 0 < y
    ensures 0.0 <= (x as real) / (y as real) <= 1.0
    ensures (x as real) / (y as real) == 1.0 <==> x == y
  {
  }

  /** Lines 40-41: the share of the relevant doc ids found among the first k
      retrieved; 0 when nothing is relevant. */
  function Recall(retrieved: seq<string>, pos: set<string>, k: nat): (r: real)
    ensures 0.0 <= r <= 1.0
  {
    if |pos| == 0 then 0.0
    else
      var hit := Elems(Top(retrieved, k)) * pos;
      SubsetCard(hit, pos);
      RatioBounds(|hit|, |pos|);
      (|hit| as real) / (|pos| as real)
  }

  /** Recall lies in [0, 1], and is 1 exactly when every relevant doc id is among
      the first k retrieved. */
  lemma RecallBounds(retrieved: seq<string>, pos: set<string>, k: nat)
    ensures 0.0 <= Recall(retrieved, pos, k) <= 1.0
    ensures |pos| > 0 ==> (Recall(retrieved, pos, k) == 1.0 <==> pos <= Elems(Top(retrieved, k)))
  {
    if |pos| > 0 {
      var hit := Elems(Top(retrieved, k)) * pos;
      SubsetCard(hit, pos);
      RatioBounds(|hit|, |pos|);
      assert hit == pos <==> pos <= Elems(Top(retrieved, k));
    }
  }

  /** A larger cut-off never lowers recall. */
  lemma RecallMonotone(retrieved: seq<string>, pos: set<string>, k1: nat, k2: nat)
    requires k1 <= k2
    ensures Recall(retrieved, pos, k1) <= Recall(retrieved, pos, k2)
  {
    if |pos| > 0 {
      var t1 := Top(retrieved, k1);
      var t2 := Top(retrieved, k2);
      assert Elems(t1) <= Elems(t2) by {
        forall x | x in Elems(t1) ensures x in Elems(t2) {
          var i :| 0 <= i < |t1| && t1[i] == x;
          assert t2[i] == x;
        }
      }
      SubsetCard(Elems(t1) * pos, Elems(t2) * pos);
      var a := |Elems(t1) * pos| as real;
      var b := |Elems(t2) * pos| as real;
      var p := |pos| as real;
      assert a / p <= b / p by {
        assert a / p * p == a && b / p * p == b;
      }
    }
  }

  /** With nothing retrieved the recall is 0. */
  lemma RecallOfNothing(pos: set<string>, k: nat)
    ensures Recall([], pos, k) == 0.0
  {
    assert Elems([]) == {};
  }

  /** The position of the first relevant doc id in `s`, if there is one. */
  function FirstHit(s: seq<string>, pos: set<string>): (r: Option<nat>)
    ensures r.Some? ==> r.value < |s| && s[r.value] in pos
    ensures r.Some? ==> forall j :: 0 <= j < r.value ==> s[j] !in pos
    ensures r.None? ==> forall j :: 0 <= j < |s| ==> s[j] !in pos
  {
    if s == [] then None
    else if s[0] in pos then Some(0)
    else match FirstHit(s[1..], pos)
      case None => None
      case Some(i) => Some(i + 1)
  }

  /** Lines 45-49: the reciprocal of the 1-based rank of the first relevant doc id
      among the first ten retrieved, or 0. */
  function RR(retrieved: seq<string>, pos: set<string>): (r: real)
    ensures 0.0 <= r <= 1.0
  {
    match FirstHit(Top(retrieved, 10), pos)
      case None => 0.0
      case Some(i) => RatioBounds(1, i + 1); 1.0 / ((i + 1) as real)
  }

  /** The reciprocal rank lies in [0, 1]; it is 1 exactly when the first doc id
      retrieved is relevant, and positive exactly when one of the first ten is. */
  lemma RRBounds(retrieved: seq<string>, pos: set<string>)
    ensures 0.0 <= RR(retrieved, pos) <= 1.0
    ensures RR(retrieved, pos) == 1.0 <==> |retrieved| > 0 && retrieved[0] in pos
    ensures RR(retrieved, pos) > 0.0 <==> exists i :: 0 <= i < |retrieved| && i < 10 && retrieved[i] in pos
  {
    var t := Top(retrieved, 10);
    match FirstHit(t, pos)
    case None =>
    case Some(i) =>
      assert t[i] == retrieved[i];
      RatioBounds(1, i + 1);
      if i > 0 {
        assert t[0] == retrieved[0];
      }
  }

  /** Lines 45-49. */
  method ReciprocalRank(retrieved: seq<string>, pos: set<string>) returns (mrr: real)
    ensures mrr == RR(retrieved, pos)
  {
    mrr := 0.0;
    var t := Top(retrieved, 10);
    for i := 0 to |t|
      invariant forall j :: 0 <= j < i ==> t[j] !in pos
    {
      if t[i] in pos {
        mrr := 1.0 / ((i + 1) as real);
        return;
      }
    }
  }

  /** The discount of rank i (counted from 0) in lines 56 and 60, `1 / np.log2(i + 2)`:
      positive and strictly decreasing. */
  ghost predicate ValidDiscount(disc: nat -> real) {
    && (forall i: nat :: 0.0 < disc(i))
    && (forall i: nat, j: nat :: i < j ==> disc(j) < disc(i))
  }

  /** The discounted gain of the relevant doc ids among the first n of `s`. */
  function HitSum(s: seq<string>, pos: set<string>, disc: nat -> real, n: nat): real
    requires n <= |s|
  {
    if n == 0 then 0.0
    else HitSum(s, pos, disc, n - 1) + if s[n - 1] in pos then disc(n - 1) else 0.0
  }

  /** How many of the first n of `s` are relevant. */
  function HitCount(s: seq<string>, pos: set<string>, n: nat): (c: nat)
    requires n <= |s|
    ensures c <= n
  {
    if n == 0 then 0 else HitCount(s, pos, n - 1) + if s[n - 1] in pos then 1 else 0
  }

  /** The discounts of the first n ranks. */
  function DiscSum(disc: nat -> real, n: nat): real {
    if n == 0 then 0.0 else DiscSum(disc, n - 1) + disc(n - 1)
  }

  /** Lines 53-56: the DCG of the first ten retrieved. */
  function DCG(retrieved: seq<string>, pos: set<string>, disc: nat -> real): real {
    var t := Top(retrieved, 10);
    HitSum(t, pos, disc, |t|)
  }

  /** Lines 58-60: the ideal DCG, with every one of the first min(|pos|, 10) ranks
      relevant. */
  function IDCG(pos: set<string>, disc: nat -> real): real {
    DiscSum(disc, if |pos| < 10 then |pos| else 10)
  }

  /** Line 62. */
  function NDCG(retrieved: seq<string>, pos: set<string>, disc: nat -> real): real {
    var idcg := IDCG(pos, disc);
    if idcg > 0.0 then DCG(retrieved, pos, disc) / idcg else 0.0
  }

  /** Lines 53-56. */
  method Dcg(retrieved: seq<string>, pos: set<string>, disc: nat -> real) returns (dcg: real)
    ensures dcg == DCG(retrieved, pos, disc)
  {
    dcg := 0.0;
    var t := Top(retrieved, 10);
    for i := 0 to |t|
      invariant dcg == HitSum(t, pos, disc, i)
    {
      if t[i] in pos {
        dcg := dcg + disc(i);
      }
    }
  }

  /** Lines 58-60. */
  method Idcg(pos: set<string>, disc: nat -> real) returns (idcg: real)
    ensures idcg == IDCG(pos, disc)
  {
    idcg := 0.0;
    var m := if |pos| < 10 then |pos| else 10;
    for i := 0 to m
      invariant idcg == DiscSum(disc, i)
    {
      idcg := idcg + disc(i);
    }
  }

  lemma {:induction false} HitSumNonNegative(s: seq<string>, pos: set<string>, disc: nat -> real, n: nat)
    requires ValidDiscount(disc) && n <= |s|
    ensures 0.0 <= HitSum(s, pos, disc, n)
  {
    if n > 0 {
      HitSumNonNegative(s, pos, disc, n - 1);
    }
  }

  lemma {:induction false} HitSumGrows(s: seq<string>, pos: set<string>, disc: nat -> real, m: nat, n: nat)
    requires ValidDiscount(disc) && m <= n <= |s|
    ensures HitSum(s, pos, disc, m) <= HitSum(s, pos, disc, n)
    decreases n
  {
    if m < n {
      HitSumGrows(s, pos, disc, m, n - 1);
    }
  }

  lemma {:induction false} DiscSumGrows(disc: nat -> real, m: nat, n: nat)
    requires ValidDiscount(disc) && m <= n
    ensures DiscSum(disc, m) <= DiscSum(disc, n)
    ensures m < n ==> DiscSum(disc, m) < DiscSum(disc, n)
    decreases n
  {
    if m < n {
      DiscSumGrows(disc, m, n - 1);
    }
  }

  /** c hits gain at most what the first c ranks do, since the discount falls with
      the rank. */
  lemma {:induction false} HitSumBound(s: seq<string>, pos: set<string>, disc: nat -> real, n: nat)
    requires ValidDiscount(disc) && n <= |s|
    ensures HitSum(s, pos, disc, n) <= DiscSum(disc, HitCount(s, pos, n))
  {
    if n > 0 {
      HitSumBound(s, pos, disc, n - 1);
      var c := HitCount(s, pos, n - 1);
      if s[n - 1] in pos && c < n - 1 {
        assert disc(n - 1) < disc(c);
      }
    }
  }

  /** The relevant doc ids among the first n of `s`. */
  function HitDocs(s: seq<string>, pos: set<string>, n: nat): set<string>
    requires n <= |s|
  {
    set i | 0 <= i < n && s[i] in pos :: s[i]
  }

  /** Without repeats, each hit is a different relevant doc id. */
  lemma {:induction false} HitCountDistinct(s: seq<string>, pos: set<string>, n: nat)
    requires Distinct(s) && n <= |s|
    ensures HitCount(s, pos, n) == |HitDocs(s, pos, n)|
    ensures HitDocs(s, pos, n) <= pos
  {
    if n > 0 {
      HitCountDistinct(s, pos, n - 1);
      var prev := HitDocs(s, pos, n - 1);
      if s[n - 1] in pos {
        assert s[n - 1] !in prev;
        assert HitDocs(s, pos, n) == prev + {s[n - 1]};
      } else {
        assert HitDocs(s, pos, n) == prev;
      }
    }
  }

  /** When the first ten retrieved are distinct, the DCG is at most the ideal DCG. */
  lemma DcgAtMostIdcg(retrieved: seq<string>, pos: set<string>, disc: nat -> real)
    requires ValidDiscount(disc) && Distinct(Top(retrieved, 10))
    ensures DCG(retrieved, pos, disc) <= IDCG(pos, disc)
  {
    var t := Top(retrieved, 10);
    HitSumBound(t, pos, disc, |t|);
    HitCountDistinct(t, pos, |t|);
    SubsetCard(HitDocs(t, pos, |t|), pos);
    DiscSumGrows(disc, HitCount(t, pos, |t|), if |pos| < 10 then |pos| else 10);
  }

  lemma DcgRatio(dcg: real, idcg: real)
    requires 0.0 <= dcg && 0.0 < idcg
    ensures 0.0 <= dcg / idcg
    ensures dcg <= idcg ==> dcg / idcg <= 1.0
    ensures dcg == idcg ==> dcg / idcg == 1.0
    ensures dcg > idcg ==> dcg / idcg > 1.0
  {
  }

  /** With binary gains nDCG never falls below 0; when the first ten retrieved are
      distinct it never exceeds 1 either. */
  lemma NdcgBounds(retrieved: seq<string>, pos: set<string>, disc: nat -> real)
    requires ValidDiscount(disc)
    ensures 0.0 <= NDCG(retrieved, pos, disc)
    ensures Distinct(Top(retrieved, 10)) ==> NDCG(retrieved, pos, disc) <= 1.0
  {
    var t := Top(retrieved, 10);
    HitSumNonNegative(t, pos, disc, |t|);
    if Distinct(t) {
      DcgAtMostIdcg(retrieved, pos, disc);
    }
    if IDCG(pos, disc) > 0.0 {
      DcgRatio(DCG(retrieved, pos, disc), IDCG(pos, disc));
    }
  }

  /** A ranking whose first min(|pos|, 10) doc ids are relevant, with no repeat among
      the first ten, scores nDCG 1. */
  lemma NdcgIdeal(retrieved: seq<string>, pos: set<string>, disc: nat -> real)
    requires ValidDiscount(disc) && |pos| > 0
    requires Distinct(Top(retrieved, 10))
    requires |retrieved| >= (if |pos| < 10 then |pos| else 10)
    requires forall i :: 0 <= i < |retrieved| && i < |pos| && i < 10 ==> retrieved[i] in pos
    ensures NDCG(retrieved, pos, disc) == 1.0
  {
    var t := Top(retrieved, 10);
    var m := if |pos| < 10 then |pos| else 10;
    IdealPrefix(t, pos, disc, m);
    HitSumGrows(t, pos, disc, m, |t|);
    DiscSumGrows(disc, 0, m);
    DcgAtMostIdcg(retrieved, pos, disc);
    DcgRatio(DCG(retrieved, pos, disc), IDCG(pos, disc));
  }

  lemma {:induction false} IdealPrefix(s: seq<string>, pos: set<string>, disc: nat -> real, m: nat)
    requires m <= |s| && forall i :: 0 <= i < m ==> s[i] in pos
    ensures HitSum(s, pos, disc, m) == DiscSum(disc, m)
  {
    if m > 0 {
      IdealPrefix(s, pos, disc, m - 1);
    }
  }

  /** A repeated relevant doc id is counted at every rank it appears at, so nDCG
      exceeds 1: the run `d, d` against the single relevant doc id d. */
  lemma NdcgOfRepeatExceedsOne(disc: nat -> real, d: string)
    requires ValidDiscount(disc)
    ensures NDCG([d, d], {d}, disc) > 1.0
  {
    var t := Top([d, d], 10);
    assert t == [d, d];
    assert HitSum(t, {d}, disc, 1) == disc(0);
    assert DCG([d, d], {d}, disc) == disc(0) + disc(1);
    assert IDCG({d}, disc) == disc(0);
    DcgRatio(disc(0) + disc(1), disc(0));
  }

  // ---------------------------------------------------------------------------
  // Averaging over the queries (lines 30-70)

  /** `np.mean` of a list: NaN for an empty list. */
  datatype Score = NaN | Value(x: real)

  function Sum(xs: seq<real>): real {
    if xs == [] then 0.0 else Sum(xs[..|xs| - 1]) + xs[|xs| - 1]
  }

  function Mean(xs: seq<real>): (r: Score)
    ensures r.NaN? <==> xs == []
  {
    if xs == [] then NaN else Value(Sum(xs) / (|xs| as real))
  }

  lemma {:induction false} SumBounds(xs: seq<real>, lo: real, hi: real)
    requires forall i :: 0 <= i < |xs| ==> lo <= xs[i] <= hi
    ensures (|xs| as real) * lo <= Sum(xs) <= (|xs| as real) * hi
  {
    if xs != [] {
      SumBounds(xs[..|xs| - 1], lo, hi);
    }
  }

  /** The mean of values in [lo, hi] lies in [lo, hi]; only the empty list has none. */
  lemma MeanBounds(xs: seq<real>, lo: real, hi: real)
    requires forall i :: 0 <= i < |xs| ==> lo <= xs[i] <= hi
    ensures Mean(xs).NaN? <==> xs == []
    ensures Mean(xs).Value? ==> lo <= Mean(xs).x <= hi
  {
    if xs != [] {
      SumBounds(xs, lo, hi);
      var n := |xs| as real;
      assert Sum(xs) / n * n == Sum(xs);
    }
  }

  lemma {:induction false} SumMonotone(xs: seq<real>, ys: seq<real>)
    requires |xs| == |ys| && forall i :: 0 <= i < |xs| ==> xs[i] <= ys[i]
    ensures Sum(xs) <= Sum(ys)
  {
    if xs != [] {
      SumMonotone(xs[..|xs| - 1], ys[..|ys| - 1]);
    }
  }

  /** Averaging keeps an element-wise order between two lists of one length. */
  lemma MeanMonotone(xs: seq<real>, ys: seq<real>)
    requires |xs| == |ys| && forall i :: 0 <= i < |xs| ==> xs[i] <= ys[i]
    ensures Mean(xs).NaN? <==> Mean(ys).NaN?
    ensures Mean(xs).Value? ==> Mean(xs).x <= Mean(ys).x
  {
    if xs != [] {
      SumMonotone(xs, ys);
      var n := |xs| as real;
      assert Sum(xs) / n * n == Sum(xs) && Sum(ys) / n * n == Sum(ys);
    }
  }

  /** `pos_docs` of query q. */
  function Pos(qt: Qrels, q: string): set<string> {
    if q in qt.relevant then qt.relevant[q] else {}
  }

  /** One score per query of the qrels table, for its first n queries, in table
      order: `score` is given the retrieved list and the relevant set. */
  function Column(qt: Qrels, run: Run, score: (seq<string>, set<string>) -> real, n: nat): (xs: seq<real>)
    requires n <= |qt.order|
    ensures |xs| == n
  {
    if n == 0 then []
    else
      var q := qt.order[n - 1];
      Column(qt, run, score, n - 1) + [score(RunGet(run, q), Pos(qt, q))]
  }

  lemma {:induction false} ColumnAt(qt: Qrels, run: Run, score: (seq<string>, set<string>) -> real, n: nat, i: nat)
    requires i < n <= |qt.order|
    ensures Column(qt, run, score, n)[i] == score(RunGet(run, qt.order[i]), Pos(qt, qt.order[i]))
  {
    if i < n - 1 {
      ColumnAt(qt, run, score, n - 1, i);
    }
  }

  /** A column depends on the run only through the lists it retrieves for the
      qrels queries. */
  lemma {:induction false} ColumnAgree(qt: Qrels, run1: Run, run2: Run, score: (seq<string>, set<string>) -> real, n: nat)
    requires n <= |qt.order|
    requires forall q :: q in qt.order ==> RunGet(run1, q) == RunGet(run2, q)
    ensures Column(qt, run1, score, n) == Column(qt, run2, score, n)
  {
    if n > 0 {
      ColumnAgree(qt, run1, run2, score, n - 1);
      assert RunGet(run1, qt.order[n - 1]) == RunGet(run2, qt.order[n - 1]);
    }
  }

  /** `recalls[k]` after the first n queries of the qrels table. */
  function RecallList(qt: Qrels, run: Run, k: nat, n: nat): seq<real>
    requires n <= |qt.order|
  {
    Column(qt, run, (retrieved, pos) => Recall(retrieved, pos, k), n)
  }

  /** `mrrs` after the first n queries of the qrels table. */
  function RRList(qt: Qrels, run: Run, n: nat): seq<real>
    requires n <= |qt.order|
  {
    Column(qt, run, RR, n)
  }

  /** `ndcgs` after the first n queries of the qrels table. */
  function NdcgList(qt: Qrels, run: Run, disc: nat -> real, n: nat): seq<real>
    requires n <= |qt.order|
  {
    Column(qt, run, (retrieved, pos) => NDCG(retrieved, pos, disc), n)
  }

  /** The six lists of lines 31-33 after the first n queries of the qrels table. */
  function ScoreLists(qt: Qrels, run: Run, disc: nat -> real, n: nat): (seq<real>, seq<real>, seq<real>, seq<real>, seq<real>, seq<real>)
    requires n <= |qt.order|
  {
    (RecallList(qt, run, 5, n), RecallList(qt, run, 10, n), RecallList(qt, run, 20, n), RecallList(qt, run, 50, n),
     RRList(qt, run, n), NdcgList(qt, run, disc, n))
  }

  /** The `results` dict of lines 65-70. */
  datatype Metrics = Metrics(mrr: Score, ndcg: Score, recall5: Score, recall10: Score, recall20: Score, recall50: Score)

  function MetricsOf(qt: Qrels, run: Run, disc: nat -> real): (r: Metrics)
    ensures r.mrr.NaN? <==> qt.order == []
    ensures r.ndcg.NaN? <==> qt.order == []
    ensures r.recall5.NaN? <==> qt.order == []
    ensures r.recall10.NaN? <==> qt.order == []
    ensures r.recall20.NaN? <==> qt.order == []
    ensures r.recall50.NaN? <==> qt.order == []
  {
    var n := |qt.order|;
    Metrics(Mean(RRList(qt, run, n)), Mean(NdcgList(qt, run, disc, n)),
            Mean(RecallList(qt, run, 5, n)), Mean(RecallList(qt, run, 10, n)),
            Mean(RecallList(qt, run, 20, n)), Mean(RecallList(qt, run, 50, n)))
  }

  /** `compute_metrics` on the lines of the two files: the qrels file is read
      first, so its error wins. */
  function Evaluation(qrelLines: seq<string>, runLines: seq<string>, disc: nat -> real): Result<Metrics, ParseError> {
    match QrelsFrom(ParsedQrels(qrelLines), |qrelLines|)
      case Failure(e) => Failure(e)
      case Success(qt) =>
        match RunFrom(ParsedRun(runLines), |runLines|)
          case Failure(e) => Failure(e)
          case Success(run) => Success(MetricsOf(qt, run, disc))
  }

  /** Evaluation fails exactly when a line of either file does not parse, reporting
      the qrels file's error first; otherwise it scores the table of the qrels
      judgements against the table of the run entries. */
  lemma EvaluationOfFiles(qrelLines: seq<string>, runLines: seq<string>, disc: nat -> real)
    ensures Evaluation(qrelLines, runLines, disc).Failure? <==>
              QrelLines(qrelLines).Failure? || RunLines(runLines).Failure?
    ensures QrelLines(qrelLines).Failure? ==>
              Evaluation(qrelLines, runLines, disc).error == QrelLines(qrelLines).error
    ensures QrelLines(qrelLines).Success? && RunLines(runLines).Failure? ==>
              Evaluation(qrelLines, runLines, disc).error == RunLines(runLines).error
    ensures Evaluation(qrelLines, runLines, disc).Success? ==>
              Evaluation(qrelLines, runLines, disc).value ==
                MetricsOf(QrelsOf(QrelLines(qrelLines).value), RunOf(RunLines(runLines).value), disc)
  {
    QrelsFromIsCollect(ParsedQrels(qrelLines), |qrelLines|);
    RunFromIsCollect(ParsedRun(runLines), |runLines|);
  }

  lemma RecallListBounds(qt: Qrels, run: Run, k: nat, n: nat)
    requires n <= |qt.order|
    ensures forall i :: 0 <= i < n ==> 0.0 <= RecallList(qt, run, k, n)[i] <= 1.0
  {
    forall i | 0 <= i < n ensures 0.0 <= RecallList(qt, run, k, n)[i] <= 1.0 {
      ColumnAt(qt, run, (retrieved, pos) => Recall(retrieved, pos, k), n, i);
      RecallBounds(RunGet(run, qt.order[i]), Pos(qt, qt.order[i]), k);
    }
  }


  lemma RRListBounds(qt: Qrels, run: Run, n: nat)
    requires n <= |qt.order|
    ensures forall i :: 0 <= i < n ==> 0.0 <= RRList(qt, run, n)[i] <= 1.0
  {
    forall i | 0 <= i < n ensures 0.0 <= RRList(qt, run, n)[i] <= 1.0 {
      ColumnAt(qt, run, RR, n, i);
      RRBounds(RunGet(run, qt.order[i]), Pos(qt, qt.order[i]));
    }
  }


  /** Every query whose first ten retrieved doc ids do not repeat scores an nDCG in
      [0, 1]. */
  lemma NdcgListBounds(qt: Qrels, run: Run, disc: nat -> real, n: nat)
    requires ValidDiscount(disc) && n <= |qt.order|
    requires forall i :: 0 <= i < n ==> Distinct(Top(RunGet(run, qt.order[i]), 10))
    ensures forall i :: 0 <= i < n ==> 0.0 <= NdcgList(qt, run, disc, n)[i] <= 1.0
  {
    forall i | 0 <= i < n ensures 0.0 <= NdcgList(qt, run, disc, n)[i] <= 1.0 {
      ColumnAt(qt, run, (retrieved, pos) => NDCG(retrieved, pos, disc), n, i);
      NdcgBounds(RunGet(run, qt.order[i]), Pos(qt, qt.order[i]), disc);
    }
  }


  /** Each averaged Recall@k is NaN exactly when the qrels table has no query, and
      otherwise lies in [0, 1]. */
  lemma RecallMeanBounds(qt: Qrels, run: Run, k: nat)
    ensures Mean(RecallList(qt, run, k, |qt.order|)).NaN? <==> qt.order == []
    ensures Mean(RecallList(qt, run, k, |qt.order|)).Value? ==> 0.0 <= Mean(RecallList(qt, run, k, |qt.order|)).x <= 1.0
  {
    RecallListBounds(qt, run, k, |qt.order|);
    MeanBounds(RecallList(qt, run, k, |qt.order|), 0.0, 1.0);
  }

  /** MRR@10 is NaN exactly when the qrels table has no query, and otherwise lies in
      [0, 1]. */
  lemma MrrBounds(qt: Qrels, run: Run, disc: nat -> real)
    ensures MetricsOf(qt, run, disc).mrr.NaN? <==> qt.order == []
    ensures MetricsOf(qt, run, disc).mrr.Value? ==> 0.0 <= MetricsOf(qt, run, disc).mrr.x <= 1.0
  {
    RRListBounds(qt, run, |qt.order|);
    MeanBounds(RRList(qt, run, |qt.order|), 0.0, 1.0);
  }

  /** nDCG@10 is NaN exactly when the qrels table has no query, and otherwise lies in
      [0, 1] when no run list repeats a doc id in its first ten. */
  lemma NdcgMeanBounds(qt: Qrels, run: Run, disc: nat -> real)
    requires ValidDiscount(disc)
    requires forall q :: q in qt.order ==> Distinct(Top(RunGet(run, q), 10))
    ensures MetricsOf(qt, run, disc).ndcg.NaN? <==> qt.order == []
    ensures MetricsOf(qt, run, disc).ndcg.Value? ==> 0.0 <= MetricsOf(qt, run, disc).ndcg.x <= 1.0
  {
    NdcgListBounds(qt, run, disc, |qt.order|);
    MeanBounds(NdcgList(qt, run, disc, |qt.order|), 0.0, 1.0);
  }

  lemma RecallListMonotone(qt: Qrels, run: Run, k1: nat, k2: nat, n: nat)
    requires k1 <= k2 && n <= |qt.order|
    ensures forall i :: 0 <= i < n ==> RecallList(qt, run, k1, n)[i] <= RecallList(qt, run, k2, n)[i]
  {
    forall i | 0 <= i < n ensures RecallList(qt, run, k1, n)[i] <= RecallList(qt, run, k2, n)[i] {
      ColumnAt(qt, run, (retrieved, pos) => Recall(retrieved, pos, k1), n, i);
      ColumnAt(qt, run, (retrieved, pos) => Recall(retrieved, pos, k2), n, i);
      RecallMonotone(RunGet(run, qt.order[i]), Pos(qt, qt.order[i]), k1, k2);
    }
  }


  /** Recall@5 <= Recall@10 <= Recall@20 <= Recall@50. */
  lemma RecallCutoffsOrdered(qt: Qrels, run: Run, disc: nat -> real)
    requires qt.order != []
    ensures var m := MetricsOf(qt, run, disc);
      m.recall5.x <= m.recall10.x <= m.recall20.x <= m.recall50.x
  {
    var n := |qt.order|;
    RecallListMonotone(qt, run, 5, 10, n);
    RecallListMonotone(qt, run, 10, 20, n);
    RecallListMonotone(qt, run, 20, 50, n);
    MeanMonotone(RecallList(qt, run, 5, n), RecallList(qt, run, 10, n));
    MeanMonotone(RecallList(qt, run, 10, n), RecallList(qt, run, 20, n));
    MeanMonotone(RecallList(qt, run, 20, n), RecallList(qt, run, 50, n));
  }

  /** A qrels query the run has no line for scores 0 on every metric. */
  lemma UnretrievedScoresZero(pos: set<string>, disc: nat -> real, k: nat)
    ensures Recall([], pos, k) == 0.0 && RR([], pos) == 0.0 && NDCG([], pos, disc) == 0.0
  {
    RecallOfNothing(pos, k);
  }

  lemma RecallListAgree(qt: Qrels, run1: Run, run2: Run, k: nat, n: nat)
    requires n <= |qt.order|
    requires forall q :: q in qt.order ==> RunGet(run1, q) == RunGet(run2, q)
    ensures RecallList(qt, run1, k, n) == RecallList(qt, run2, k, n)
  {
    ColumnAgree(qt, run1, run2, (retrieved, pos) => Recall(retrieved, pos, k), n);
  }

  lemma NdcgListAgree(qt: Qrels, run1: Run, run2: Run, disc: nat -> real, n: nat)
    requires n <= |qt.order|
    requires forall q :: q in qt.order ==> RunGet(run1, q) == RunGet(run2, q)
    ensures NdcgList(qt, run1, disc, n) == NdcgList(qt, run2, disc, n)
  {
    ColumnAgree(qt, run1, run2, (retrieved, pos) => NDCG(retrieved, pos, disc), n);
  }

  /** Only the qrels queries are scored: runs that retrieve the same lists for them
      give the same metrics, whatever else they hold. */
  lemma RunOnlyQueriesIgnored(qt: Qrels, run1: Run, run2: Run, disc: nat -> real)
    requires forall q :: q in qt.order ==> RunGet(run1, q) == RunGet(run2, q)
    ensures MetricsOf(qt, run1, disc) == MetricsOf(qt, run2, disc)
  {
    var n := |qt.order|;
    ColumnAgree(qt, run1, run2, RR, n);
    NdcgListAgree(qt, run1, run2, disc, n);
    RecallListAgree(qt, run1, run2, 5, n);
    RecallListAgree(qt, run1, run2, 10, n);
    RecallListAgree(qt, run1, run2, 20, n);
    RecallListAgree(qt, run1, run2, 50, n);
  }

  /** Lines 38-63 for one query: Recall@5, 10, 20 and 50, MRR@10 and nDCG@10. */
  method ScoreQuery(retrieved: seq<string>, posDocs: set<string>, disc: nat -> real)
    returns (r5: real, r10: real, r20: real, r50: real, mrr: real, ndcg: real)
    ensures r5 == Recall(retrieved, posDocs, 5) && r10 == Recall(retrieved, posDocs, 10)
    ensures r20 == Recall(retrieved, posDocs, 20) && r50 == Recall(retrieved, posDocs, 50)
    ensures mrr == RR(retrieved, posDocs)
    ensures ndcg == NDCG(retrieved, posDocs, disc)
  {
    r5, r10, r20, r50 := Recall(retrieved, posDocs, 5), Recall(retrieved, posDocs, 10),
                         Recall(retrieved, posDocs, 20), Recall(retrieved, posDocs, 50);
    mrr := ReciprocalRank(retrieved, posDocs);
    var dcg := Dcg(retrieved, posDocs, disc);
    var idcg := Idcg(posDocs, disc);
    ndcg := if idcg > 0.0 then dcg / idcg else 0.0;
  }

  /** Lines 31-63 for each query, then lines 65-70. */
  method ScoreQueries(qt: Qrels, run: Run, disc: nat -> real) returns (m: Metrics)
    requires forall q :: q in qt.order ==> q in qt.relevant
    ensures m == MetricsOf(qt, run, disc)
  {
    var recalls5: seq<real>, recalls10: seq<real>, recalls20: seq<real>, recalls50: seq<real> := [], [], [], [];
    var mrrs: seq<real> := [];
    var ndcgs: seq<real> := [];
    for i := 0 to |qt.order|
      invariant (recalls5, recalls10, recalls20, recalls50, mrrs, ndcgs) == ScoreLists(qt, run, disc, i)
    {
      var q := qt.order[i];
      var r5, r10, r20, r50, mrr, ndcg := ScoreQuery(RunGet(run, q), qt.relevant[q], disc);
      recalls5, recalls10, recalls20, recalls50 := recalls5 + [r5], recalls10 + [r10], recalls20 + [r20], recalls50 + [r50];
      mrrs, ndcgs := mrrs + [mrr], ndcgs + [ndcg];
    }
    m := Metrics(Mean(mrrs), Mean(ndcgs), Mean(recalls5), Mean(recalls10), Mean(recalls20), Mean(recalls50));
  }

  /** `compute_metrics` (lines 10-72): load both files, then score every qrels query. */
  method ComputeMetrics(qrelLines: seq<string>, runLines: seq<string>, disc: nat -> real)
    returns (r: Result<Metrics, ParseError>)
    ensures r == Evaluation(qrelLines, runLines, disc)
  {
    var qrels := LoadQrels(qrelLines);
    if qrels.Failure? {
      return Failure(qrels.error);
    }
    var run := LoadRun(runLines);
    if run.Failure? {
      return Failure(run.error);
    }
    LoadedQrelsDescribe(qrelLines);
    var m := ScoreQueries(qrels.value, run.value, disc);
    return Success(m);
  }
}
