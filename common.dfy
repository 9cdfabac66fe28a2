/** Values and helpers shared by the dataset builders and the metrics engine:
    the JSON/TSV records they emit, the evidence label table, Python's
    zero-padded integer formatting and Python's slice bounds. */
module Common {

  datatype Option<T> = None | Some(value: T)

  datatype Result<T, E> = Success(value: T) | Failure(error: E)

  /** One JSON line `{"text_id": ..., "text": ...}` of a corpus or query file. */
  datatype TextRecord = TextRecord(textId: string, text: string)

  /** One qrels row `[query_id, 0, doc_id, relevance]`. */
  datatype QrelRow = QrelRow(queryId: string, iteration: int, docId: string, relevance: int)

  /** One evidence item of a raw claim; a missing `cosine_similarity` reads as 0.0. */
  datatype Evidence = Evidence(snippet: string, relevanceLabel: string, sim: real)

  /** One raw claim record; a missing `evidence` list reads as the empty list. */
  datatype Claim = Claim(text: string, evidence: seq<Evidence>)

  /** What the label table makes of an evidence label. */
  datatype Class = Positive | Negative | Dropped

  /** `label_mapping.get(label, 'drop')`, then compared with 'positive' and 'negative':
      a label absent from the table, or mapped to any other string, is dropped. */
  function Classify(mapping: map<string, string>, rawLabel: string): (c: Class)
    ensures c == Positive <==> rawLabel in mapping && mapping[rawLabel] == "positive"
    ensures c == Negative <==> rawLabel in mapping && mapping[rawLabel] == "negative"
    ensures rawLabel !in mapping ==> c == Dropped
  {
    var mapped := if rawLabel in mapping then mapping[rawLabel] else "drop";
    if mapped == "positive" then Positive
    else if mapped == "negative" then Negative
    else Dropped
  }

  predicate Distinct<T(==)>(s: seq<T>) {
    forall i, j :: 0 <= i < j < |s| ==> s[i] != s[j]
  }

  function Ids(records: seq<TextRecord>): (ids: seq<string>)
    ensures |ids| == |records|
  {
    seq(|records|, i requires 0 <= i < |records| => records[i].textId)
  }

  lemma IdsAppend(a: seq<TextRecord>, b: seq<TextRecord>)
    ensures Ids(a + b) == Ids(a) + Ids(b)
  {
  }

  /** Regroups a three-way concatenation; stated as a lemma so that a loop over an
      accumulator can name the step without unfolding the pieces. */
  lemma AppendAssoc<T>(a: seq<T>, b: seq<T>, c: seq<T>)
    ensures a + (b + c) == (a + b) + c
  {
  }

  /** The distinct elements of `ss`, each where it first occurs. */
  function FirstOccurrences(ss: seq<string>): (r: seq<string>)
    ensures Distinct(r)
    ensures forall t :: t in r <==> t in ss
    ensures |r| <= |ss|
  {
    if ss == [] then []
    else
      var init := FirstOccurrences(ss[..|ss| - 1]);
      var t := ss[|ss| - 1];
      assert ss == ss[..|ss| - 1] + [t];
      if t in init then init else init + [t]
  }

  lemma DedupAppend(ss: seq<string>, t: string)
    ensures FirstOccurrences(ss + [t]) == if t in ss then FirstOccurrences(ss) else FirstOccurrences(ss) + [t]
  {
    assert (ss + [t])[..|ss|] == ss;
  }

  predicate IsPrefix(p: string, s: string) {
    |p| <= |s| && s[..|p|] == p
  }

  function Min(a: int, b: int): int { if a < b then a else b }

  // ---------------------------------------------------------------------------
  // Python slices: s[:n] and s[n:] for any integer n (negative n counts from the end)

  /** The index Python uses for the bound `n` of a slice of a sequence of length `len`. */
  function SliceBound(n: int, len: nat): (b: nat)
    ensures b <= len
    ensures 0 <= n <= len ==> b == n
    ensures n > len ==> b == len
    ensures n < 0 ==> b == if len + n < 0 then 0 else len + n
  {
    if n < 0 then (if len + n < 0 then 0 else len + n)
    else if n > len then len
    else n
  }

  /** `s[:n]` */
  function PyTake<T>(s: seq<T>, n: int): seq<T> {
    s[..SliceBound(n, |s|)]
  }

  /** `s[n:]` */
  function PyDrop<T>(s: seq<T>, n: int): seq<T> {
    s[SliceBound(n, |s|)..]
  }

  lemma TakeDropSplit<T>(s: seq<T>, n: int)
    ensures PyTake(s, n) + PyDrop(s, n) == s
  {
    var b := SliceBound(n, |s|);
    assert s[..b] + s[b..] == s;
  }

  /** `int(x)` for a float: truncation toward zero. */
  function Trunc(x: real): (t: int)
    ensures x >= 0.0 ==> t as real <= x < t as real + 1.0
    ensures x < 0.0 ==> t as real - 1.0 < x <= t as real
  {
    if x >= 0.0 then x.Floor else -((-x).Floor)
  }

  /** `math.ceil(x)` */
  function Ceil(x: real): (c: int)
    ensures c as real - 1.0 < x <= c as real
  {
    -((-x).Floor)
  }

  // ---------------------------------------------------------------------------
  // Decimal formatting `f"{n:0{width}d}"` for a non-negative integer n

  predicate IsDigit(c: char) { '0' <= c <= '9' }

  predicate AllDigits(s: string) {
    forall i :: 0 <= i < |s| ==> IsDigit(s[i])
  }

  function DigitChar(d: nat): (c: char)
    requires d < 10
    ensures IsDigit(c)
  {
    (48 + d) as char
  }

  function DigitValue(c: char): (d: nat)
    requires IsDigit(c)
    ensures d < 10
  {
    c as int - 48
  }

  /** `str(n)`: decimal digits without leading zeros. */
  function Decimal(n: nat): (s: string)
    ensures 1 <= |s| && AllDigits(s)
    decreases n
  {
    if n < 10 then [DigitChar(n)] else Decimal(n / 10) + [DigitChar(n % 10)]
  }

  function Zeros(k: nat): (s: string)
    ensures |s| == k && AllDigits(s)
  {
    seq(k, _ => '0')
  }

  /** `f"{n:0{width}d}"`: `str(n)` left-padded with '0' to at least `width` characters. */
  function ZeroPad(n: nat, width: nat): (s: string)
    ensures AllDigits(s)
    ensures |s| == if |Decimal(n)| < width then width else |Decimal(n)|
  {
    var d := Decimal(n);
    if |d| < width then Zeros(width - |d|) + d else d
  }

  /** The number a digit string denotes, as `int(s)` reads it. */
  function ValueOf(s: string): nat
    requires AllDigits(s)
  {
    if s == [] then 0 else ValueOf(s[..|s| - 1]) * 10 + DigitValue(s[|s| - 1])
  }

  lemma {:induction false} DecimalValue(n: nat)
    ensures ValueOf(Decimal(n)) == n
    decreases n
  {
    if n >= 10 {
      var s := Decimal(n);
      assert s[..|s| - 1] == Decimal(n / 10);
      DecimalValue(n / 10);
    }
  }

  lemma {:induction false} LeadingZerosValue(k: nat, s: string)
    requires AllDigits(s)
    ensures ValueOf(Zeros(k) + s) == ValueOf(s)
    decreases |s|
  {
    var z := Zeros(k) + s;
    if s == [] {
      assert z == Zeros(k);
      ZerosValue(k);
    } else {
      assert z[..|z| - 1] == Zeros(k) + s[..|s| - 1];
      LeadingZerosValue(k, s[..|s| - 1]);
    }
  }

  lemma {:induction false} ZerosValue(k: nat)
    ensures ValueOf(Zeros(k)) == 0
  {
    if k > 0 {
      assert Zeros(k)[..k - 1] == Zeros(k - 1);
      ZerosValue(k - 1);
    }
  }

  /** Reading back a zero-padded number gives the number: padding loses nothing. */
  lemma ZeroPadValue(n: nat, width: nat)
    ensures ValueOf(ZeroPad(n, width)) == n
  {
    DecimalValue(n);
    var d := Decimal(n);
    if |d| < width {
      LeadingZerosValue(width - |d|, d);
    }
  }

  /** Distinct numbers format to distinct strings at any width. */
  lemma ZeroPadInjective(a: nat, b: nat, width: nat)
    ensures ZeroPad(a, width) == ZeroPad(b, width) ==> a == b
  {
    ZeroPadValue(a, width);
    ZeroPadValue(b, width);
  }

  /** A digit string followed by a non-digit separator can be cut in one way only. */
  lemma SplitAfterDigits(a1: string, b1: string, a2: string, b2: string, sep: char)
    requires AllDigits(a1) && AllDigits(a2) && !IsDigit(sep)
    requires a1 + [sep] + b1 == a2 + [sep] + b2
    ensures a1 == a2 && b1 == b2
  {
    var s := a1 + [sep] + b1;
    assert s[|a1|] == sep;
    assert s == a2 + [sep] + b2 && s[|a2|] == sep;
    assert forall i :: 0 <= i < |a1| ==> IsDigit(s[i]);
    assert forall i :: 0 <= i < |a2| ==> IsDigit(s[i]);
    assert a1 == s[..|a1|] == a2;
    assert b1 == s[|a1| + 1..] == b2;
  }
}
