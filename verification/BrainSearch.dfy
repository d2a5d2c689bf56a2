/** Ranked search over the knowledge log: BM25 scores over the reals, and the best matches in order. */
module BrainSearch {
  import opened Wrappers
  import opened Collections
  import opened Text
  import opened BrainLog

  // ---------------------------------------------------------------------------
  // Tokens
  // ---------------------------------------------------------------------------

  predicate TokenChar(c: char) {
    'a' <= c <= 'z' || '0' <= c <= '9'
  }

  /** The maximal runs of letters and digits, lower-cased; `current` is the run being read. */
  function Split(s: string, current: string): seq<string> {
    var ended := if current == "" then [] else [current];
    if s == "" then ended
    else if TokenChar(Lower(s[0])) then Split(s[1..], current + [Lower(s[0])])
    else ended + Split(s[1..], "")
  }

  function Tokenise(text: string): seq<string> {
    Split(text, "")
  }

  function LowerAll(s: string): (r: string)
    ensures |r| == |s|
    ensures forall i :: 0 <= i < |s| ==>
              if 'A' <= s[i] <= 'Z' then r[i] as int == s[i] as int + 32 else r[i] == s[i]
  {
    if s == "" then "" else [Lower(s[0])] + LowerAll(s[1..])
  }

  /** Any other character separates: the tokens on its two sides are those of the two sides. */
  lemma {:induction false} SeparatorSplits(s: string, c: char, t: string, current: string)
    requires !('a' <= c <= 'z' || 'A' <= c <= 'Z' || '0' <= c <= '9')
    ensures Split(s + [c] + t, current) == Split(s, current) + Split(t, "")
    decreases |s|
  {
    var whole := s + [c] + t;
    if s == "" {
      assert whole[0] == c && whole[1..] == t;
    } else {
      assert whole[0] == s[0] && whole[1..] == s[1..] + [c] + t;
      if TokenChar(Lower(s[0])) {
        SeparatorSplits(s[1..], c, t, current + [Lower(s[0])]);
      } else {
        SeparatorSplits(s[1..], c, t, "");
        var ended := if current == "" then [] else [current];
        assert ended + (Split(s[1..], "") + Split(t, "")) == (ended + Split(s[1..], "")) + Split(t, "");
      }
    }
  }

  lemma LetterIsToken(c: char)
    ensures TokenChar(Lower(c)) <==> 'a' <= c <= 'z' || 'A' <= c <= 'Z' || '0' <= c <= '9'
  {
  }

  /** A run of letters and digits is one token, in lower case. */
  lemma {:induction false} RunIsOneToken(s: string, current: string)
    requires forall i :: 0 <= i < |s| ==> 'a' <= s[i] <= 'z' || 'A' <= s[i] <= 'Z' || '0' <= s[i] <= '9'
    requires s != "" || current != ""
    ensures Split(s, current) == [current + LowerAll(s)]
    decreases |s|
  {
    if s != "" {
      LetterIsToken(s[0]);
      RunIsOneToken(s[1..], current + [Lower(s[0])]);
      Associate(current, [Lower(s[0])], LowerAll(s[1..]));
    } else {
      assert current + "" == current;
    }
  }

  // ---------------------------------------------------------------------------
  // Scores
  // ---------------------------------------------------------------------------

  const K1: real := 1.5
  const B: real := 0.75

  function TotalLength(docs: seq<seq<string>>): nat {
    if docs == [] then 0 else TotalLength(docs[..|docs| - 1]) + |docs[|docs| - 1]|
  }

  /** In how many documents the term occurs. */
  function DocFreq(docs: seq<seq<string>>, t: string): (n: nat)
    ensures n <= |docs|
    ensures n > 0 <==> exists d :: d in docs && t in d
  {
    if docs == [] then 0
    else
      assert docs == docs[..|docs| - 1] + [docs[|docs| - 1]];
      DocFreq(docs[..|docs| - 1], t) + if t in docs[|docs| - 1] then 1 else 0
  }

  /** How often it occurs in one document. */
  function TermFreq(doc: seq<string>, t: string): (n: nat)
    ensures n > 0 <==> t in doc
  {
    if doc == [] then 0
    else
      assert doc == doc[..|doc| - 1] + [doc[|doc| - 1]];
      TermFreq(doc[..|doc| - 1], t) + if doc[|doc| - 1] == t then 1 else 0
  }

  lemma {:induction false} SomeTokens(docs: seq<seq<string>>, t: string)
    requires DocFreq(docs, t) > 0
    ensures TotalLength(docs) > 0
    decreases |docs|
  {
    if t !in docs[|docs| - 1] {
      SomeTokens(docs[..|docs| - 1], t);
    }
  }

  function AverageLength(docs: seq<seq<string>>): real {
    if docs == [] then 1.0 else TotalLength(docs) as real / |docs| as real
  }

  function Denominator(tf: nat, dl: nat, average: real): real
    requires average != 0.0
  {
    tf as real + K1 * (1.0 - B + B * dl as real / average)
  }

  /** The weight of a term that occurs in `df` of `n` documents and `tf` times in a document of `dl` tokens. */
  function Weight(log: real -> real, n: nat, df: nat, tf: nat, dl: nat, average: real): real
    requires average != 0.0
  {
    var idf := log((n as real - df as real + 0.5) / (df as real + 0.5) + 1.0);
    var numerator := tf as real * (K1 + 1.0);
    var denominator := Denominator(tf, dl, average);
    idf * numerator / (if denominator == 0.0 then 1.0 else denominator)
  }

  /** What one query term adds to the score of a document; `log` is the natural logarithm. */
  function TermScore(log: real -> real, docs: seq<seq<string>>, doc: seq<string>, q: string): real {
    var df := DocFreq(docs, q);
    if df == 0 then 0.0
    else
      ScoredTermsOccur(docs, q);
      Weight(log, |docs|, df, TermFreq(doc, q), |doc|, AverageLength(docs))
  }

  /** The average length is positive whenever a term is scored at all, so it is never divided by as zero. */
  lemma ScoredTermsOccur(docs: seq<seq<string>>, q: string)
    requires DocFreq(docs, q) > 0
    ensures AverageLength(docs) > 0.0
  {
    SomeTokens(docs, q);
    QuotientPositive(TotalLength(docs) as real, |docs| as real);
  }

  /** Nor is the denominator ever zero, so the fallback to 1 is never taken. */
  lemma DenominatorPositive(tf: nat, dl: nat, average: real)
    requires average > 0.0
    ensures Denominator(tf, dl, average) > 0.0
  {
    QuotientNonNegative(B * dl as real, average);
  }

  lemma QuotientPositive(x: real, y: real)
    requires x > 0.0 && y > 0.0
    ensures x / y > 0.0
  {
  }

  lemma QuotientNonNegative(x: real, y: real)
    requires x >= 0.0 && y > 0.0
    ensures x / y >= 0.0
  {
  }

  function Score(log: real -> real, docs: seq<seq<string>>, doc: seq<string>, qs: seq<string>): real {
    if qs == [] then 0.0
    else Score(log, docs, doc, qs[..|qs| - 1]) + TermScore(log, docs, doc, qs[|qs| - 1])
  }

  /** All that is assumed of the logarithm. */
  ghost predicate PositiveAboveOne(log: real -> real) {
    forall x :: x > 1.0 ==> log(x) > 0.0
  }

  predicate Shares(doc: seq<string>, qs: seq<string>) {
    exists q :: q in qs && q in doc
  }

  lemma TermScoreSign(log: real -> real, docs: seq<seq<string>>, doc: seq<string>, q: string)
    requires PositiveAboveOne(log) && doc in docs
    ensures TermScore(log, docs, doc, q) >= 0.0
    ensures TermScore(log, docs, doc, q) > 0.0 <==> q in doc
  {
    var df := DocFreq(docs, q);
    if df > 0 {
      ScoredTermsOccur(docs, q);
      WeightSign(log, |docs|, df, TermFreq(doc, q), |doc|, AverageLength(docs));
    }
  }

  lemma WeightSign(log: real -> real, n: nat, df: nat, tf: nat, dl: nat, average: real)
    requires PositiveAboveOne(log) && average > 0.0 && df <= n
    ensures Weight(log, n, df, tf, dl, average) >= 0.0
    ensures Weight(log, n, df, tf, dl, average) > 0.0 <==> tf > 0
  {
    DenominatorPositive(tf, dl, average);
    QuotientPositive(n as real - df as real + 0.5, df as real + 0.5);
    var idf := log((n as real - df as real + 0.5) / (df as real + 0.5) + 1.0);
    var top := idf * (tf as real * (K1 + 1.0));
    if tf > 0 {
      ProductPositive(idf, tf as real * (K1 + 1.0));
      QuotientPositive(top, Denominator(tf, dl, average));
    } else {
      assert top == 0.0;
    }
  }

  lemma ProductPositive(x: real, y: real)
    requires x > 0.0 && y > 0.0
    ensures x * y > 0.0
  {
  }

  /** A document's score is positive exactly when it shares a token with the query. */
  lemma {:induction false} ScorePositiveIffShares(log: real -> real, docs: seq<seq<string>>, doc: seq<string>,
                                                  qs: seq<string>)
    requires PositiveAboveOne(log) && doc in docs
    ensures Score(log, docs, doc, qs) >= 0.0
    ensures Score(log, docs, doc, qs) > 0.0 <==> Shares(doc, qs)
    decreases |qs|
  {
    if qs != [] {
      var init, q := qs[..|qs| - 1], qs[|qs| - 1];
      ScorePositiveIffShares(log, docs, doc, init);
      TermScoreSign(log, docs, doc, q);
      assert qs == init + [q];
    }
  }

  // ---------------------------------------------------------------------------
  // What a score depends on
  // ---------------------------------------------------------------------------

  /** The counts are those of positions. */
  lemma {:induction false} TermFreqCounts(doc: seq<string>, t: string)
    ensures TermFreq(doc, t) == multiset(doc)[t]
    decreases |doc|
  {
    if doc != [] {
      TermFreqCounts(doc[..|doc| - 1], t);
      assert doc == doc[..|doc| - 1] + [doc[|doc| - 1]];
    }
  }

  ghost function Holding(docs: seq<seq<string>>, t: string): set<nat> {
    set i | 0 <= i < |docs| && t in docs[i]
  }

  lemma {:induction false} DocFreqCounts(docs: seq<seq<string>>, t: string)
    ensures DocFreq(docs, t) == |Holding(docs, t)|
    decreases |docs|
  {
    if docs != [] {
      var init, n := docs[..|docs| - 1], |docs| - 1;
      DocFreqCounts(init, t);
      assert forall i :: 0 <= i < n ==> init[i] == docs[i];
      assert Holding(docs, t) == Holding(init, t) + if t in docs[n] then {n} else {};
    }
  }

  /** All the tokens, over all documents. */
  lemma {:induction false} TotalLengthAppend(a: seq<seq<string>>, b: seq<seq<string>>)
    ensures TotalLength(a + b) == TotalLength(a) + TotalLength(b)
    ensures forall doc :: TotalLength([doc]) == |doc|
    decreases |b|
  {
    if b != [] {
      var init, last := b[..|b| - 1], b[|b| - 1];
      TotalLengthAppend(a, init);
      assert (a + b)[..|a + b| - 1] == a + init && (a + b)[|a + b| - 1] == last;
    } else {
      assert a + b == a;
    }
    forall doc: seq<string>
      ensures TotalLength([doc]) == |doc|
    {
      assert [doc][..0] == [];
    }
  }

  /** A score is the sum of what the query terms add, repeated ones each time. */
  lemma {:induction false} ScoreAppend(log: real -> real, docs: seq<seq<string>>, doc: seq<string>, qs: seq<string>,
                                       rs: seq<string>)
    ensures Score(log, docs, doc, qs + rs) == Score(log, docs, doc, qs) + Score(log, docs, doc, rs)
    ensures forall q :: Score(log, docs, doc, [q]) == TermScore(log, docs, doc, q)
    decreases |rs|
  {
    if rs != [] {
      var init, last := rs[..|rs| - 1], rs[|rs| - 1];
      ScoreAppend(log, docs, doc, qs, init);
      assert (qs + rs)[..|qs + rs| - 1] == qs + init && (qs + rs)[|qs + rs| - 1] == last;
    } else {
      assert qs + rs == qs;
    }
    forall q: string
      ensures Score(log, docs, doc, [q]) == TermScore(log, docs, doc, q)
    {
      assert [q][..0] == [];
    }
  }

  /** The logarithm increases. */
  ghost predicate IncreasingAboveOne(log: real -> real) {
    forall x, y :: 1.0 < x < y ==> log(x) < log(y)
  }

  lemma QuotientIs(a: real, d: real, q: real)
    requires d > 0.0 && a == q * d
    ensures a / d == q
  {
    var r := a / d;
    assert r * d == a;
    if r < q {
      ProductGrows(d, r, q);
    } else if q < r {
      ProductGrows(d, q, r);
    }
  }

  lemma QuotientFalls(a: real, x: real, y: real)
    requires a > 0.0 && 0.0 < x < y
    ensures a / y < a / x
  {
    if a / y >= a / x {
      ProductGrows(a / x, x, y);
      ProductKeeps(a / x, a / y, y);
      assert false;
    }
  }

  lemma ProductGrows(k: real, x: real, y: real)
    requires k > 0.0 && x < y
    ensures k * x < k * y && x * k < y * k
  {
    ProductPositive(k, y - x);
  }

  lemma ProductKeeps(k: real, l: real, y: real)
    requires k <= l && y > 0.0
    ensures k * y <= l * y
  {
  }

  function Share(x: real, k: real, d: real): real
    requires d > 0.0
  {
    x * k / d
  }

  /** A weight without its nested fractions. */
  lemma WeightIs(log: real -> real, n: nat, df: nat, tf: nat, dl: nat, average: real)
    requires average > 0.0 && df <= n
    ensures (n as real + 1.0) / (df as real + 0.5) > 1.0
    ensures tf as real + 0.375 + 1.125 * dl as real / average > 0.0
    ensures Weight(log, n, df, tf, dl, average) ==
              Share(log((n as real + 1.0) / (df as real + 0.5)), 2.5 * tf as real,
                    tf as real + 0.375 + 1.125 * dl as real / average)
  {
    DenominatorPositive(tf, dl, average);
    FrequencyRatio(n, df);
    LengthNorm(dl, average);
  }

  lemma FrequencyRatio(n: nat, df: nat)
    requires df <= n
    ensures (n as real - df as real + 0.5) / (df as real + 0.5) + 1.0 == (n as real + 1.0) / (df as real + 0.5)
    ensures (n as real + 1.0) / (df as real + 0.5) > 1.0
  {
    var a, d := n as real - df as real + 0.5, df as real + 0.5;
    QuotientPositive(a, d);
    assert n as real + 1.0 == a + d;
    SumOverPart(a, d);
  }

  lemma SumOverPart(a: real, d: real)
    requires d > 0.0
    ensures (a + d) / d == a / d + 1.0
  {
    var q := a / d;
    assert q * d == a;
    QuotientIs(a + d, d, q + 1.0);
  }

  lemma LengthNorm(dl: nat, average: real)
    requires average > 0.0
    ensures K1 * (1.0 - B + B * dl as real / average) == 0.375 + 1.125 * dl as real / average
  {
    var x := dl as real / average;
    assert B * dl as real / average == B * x && 1.125 * dl as real / average == 1.125 * x;
  }

  /** The more documents have a term, the less it weighs. */
  lemma RarerTermWeighsMore(log: real -> real, n: nat, df: nat, df': nat, tf: nat, dl: nat, average: real)
    requires IncreasingAboveOne(log) && average > 0.0 && tf > 0 && df < df' <= n
    ensures Weight(log, n, df', tf, dl, average) < Weight(log, n, df, tf, dl, average)
  {
    WeightIs(log, n, df, tf, dl, average);
    WeightIs(log, n, df', tf, dl, average);
    QuotientFalls(n as real + 1.0, df as real + 0.5, df' as real + 0.5);
    var idf, idf' := log((n as real + 1.0) / (df as real + 0.5)), log((n as real + 1.0) / (df' as real + 0.5));
    var k, d := 2.5 * tf as real, tf as real + 0.375 + 1.125 * dl as real / average;
    LargerShare(idf', idf, k, d);
  }

  lemma LargerShare(x: real, y: real, k: real, d: real)
    requires x < y && k > 0.0 && d > 0.0
    ensures Share(x, k, d) < Share(y, k, d)
  {
    ProductGrows(k, x, y);
    QuotientGrows(x * k, y * k, d);
  }

  lemma QuotientGrows(a: real, b: real, d: real)
    requires a < b && d > 0.0
    ensures a / d < b / d
  {
    var p, q := a / d, b / d;
    assert p * d == a && q * d == b;
    if p >= q {
      ProductKeeps(q, p, d);
    }
  }

  /** The more often a document has a term, the more it weighs there. */
  lemma FrequentTermWeighsMore(log: real -> real, n: nat, df: nat, tf: nat, tf': nat, dl: nat, average: real)
    requires PositiveAboveOne(log) && average > 0.0 && tf < tf' && df <= n
    ensures Weight(log, n, df, tf, dl, average) < Weight(log, n, df, tf', dl, average)
  {
    WeightIs(log, n, df, tf, dl, average);
    WeightIs(log, n, df, tf', dl, average);
    QuotientNonNegative(1.125 * dl as real, average);
    MoreOfIt(log((n as real + 1.0) / (df as real + 0.5)), tf as real, tf' as real,
             0.375 + 1.125 * dl as real / average);
    assert tf as real + 0.375 + 1.125 * dl as real / average == tf as real + (0.375 + 1.125 * dl as real / average);
    assert tf' as real + 0.375 + 1.125 * dl as real / average == tf' as real + (0.375 + 1.125 * dl as real / average);
  }

  lemma MoreOfIt(x: real, t: real, t': real, c: real)
    requires x > 0.0 && 0.0 <= t < t' && c > 0.0
    ensures Share(x, 2.5 * t, t + c) < Share(x, 2.5 * t', t' + c)
  {
    var a, a' := x * (2.5 * t), x * (2.5 * t');
    ProductPositive(x * c, t' - t);
    assert a * (t' + c) == 2.5 * x * t * t' + 2.5 * x * t * c;
    assert a' * (t + c) == 2.5 * x * t * t' + 2.5 * x * t' * c;
    assert x * c * (t' - t) == x * t' * c - x * t * c;
    CrossLess(a, t + c, a', t' + c);
  }

  lemma CrossLess(a: real, d: real, a': real, d': real)
    requires d > 0.0 && d' > 0.0 && a * d' < a' * d
    ensures a / d < a' / d'
  {
    var p, p' := a / d, a' / d';
    assert p * d == a && p' * d' == a';
    ProductPositive(d, d');
    assert p * (d * d') == a * d' && p' * (d * d') == a' * d;
    if p >= p' {
      ProductKeeps(p', p, d * d');
    }
  }

  /** The longer the document, the less a term weighs in it. */
  lemma LongerDocumentWeighsLess(log: real -> real, n: nat, df: nat, tf: nat, dl: nat, dl': nat, average: real)
    requires PositiveAboveOne(log) && average > 0.0 && tf > 0 && dl < dl' && df <= n
    ensures Weight(log, n, df, tf, dl', average) < Weight(log, n, df, tf, dl, average)
  {
    WeightIs(log, n, df, tf, dl, average);
    WeightIs(log, n, df, tf, dl', average);
    QuotientGrows(1.125 * dl as real, 1.125 * dl' as real, average);
    SmallerShare(log((n as real + 1.0) / (df as real + 0.5)), 2.5 * tf as real,
                 tf as real + 0.375 + 1.125 * dl as real / average,
                 tf as real + 0.375 + 1.125 * dl' as real / average);
  }

  lemma SmallerShare(x: real, k: real, d: real, d': real)
    requires x > 0.0 && k > 0.0 && 0.0 < d < d'
    ensures Share(x, k, d') < Share(x, k, d)
  {
    ProductPositive(x, k);
    QuotientFalls(x * k, d, d');
  }

  /** Of the tokens of the query, `doc` has just `t`. */
  predicate SharesOnly(doc: seq<string>, qs: seq<string>, t: string) {
    t in qs && forall q :: q in qs && q in doc ==> q == t
  }

  /** Then its score is what that token adds, as often as the query has it. */
  lemma {:induction false} ScoreOfOneTerm(log: real -> real, docs: seq<seq<string>>, doc: seq<string>, qs: seq<string>,
                                          t: string)
    requires forall q :: q in qs && q in doc ==> q == t
    requires PositiveAboveOne(log) && doc in docs && t in doc
    ensures Score(log, docs, doc, qs) == Repeated(TermFreq(qs, t), TermScore(log, docs, doc, t))
    decreases |qs|
  {
    if qs != [] {
      var init, q := qs[..|qs| - 1], qs[|qs| - 1];
      assert qs == init + [q];
      ScoreOfOneTerm(log, docs, doc, init, t);
      if q != t {
        assert q in qs;
        AbsentTermAddsNothing(log, docs, doc, q);
      }
    }
  }

  function Repeated(m: nat, x: real): real {
    if m == 0 then 0.0 else Repeated(m - 1, x) + x
  }

  lemma {:induction false} RepeatedGrows(m: nat, x: real, y: real)
    requires m > 0 && x < y
    ensures Repeated(m, x) < Repeated(m, y)
  {
    if m > 1 {
      RepeatedGrows(m - 1, x, y);
    }
  }

  lemma AbsentTermAddsNothing(log: real -> real, docs: seq<seq<string>>, doc: seq<string>, q: string)
    requires PositiveAboveOne(log) && doc in docs && q !in doc
    ensures TermScore(log, docs, doc, q) == 0.0
  {
    TermScoreSign(log, docs, doc, q);
  }

  /** Of two terms that two equally long documents have equally often, the rarer one adds more. */
  lemma RarerTermScoresMore(log: real -> real, docs: seq<seq<string>>, doc: seq<string>, doc': seq<string>, t: string,
                            t': string)
    requires IncreasingAboveOne(log) && doc in docs && doc' in docs && |doc| == |doc'|
    requires TermFreq(doc, t) == TermFreq(doc', t') > 0 && DocFreq(docs, t) < DocFreq(docs, t')
    ensures TermScore(log, docs, doc', t') < TermScore(log, docs, doc, t)
  {
    assert t in doc && DocFreq(docs, t) > 0;
    ScoredTermsOccur(docs, t);
    RarerTermWeighsMore(log, |docs|, DocFreq(docs, t), DocFreq(docs, t'), TermFreq(doc, t), |doc|, AverageLength(docs));
  }

  lemma RarerDocumentScoresMore(log: real -> real, docs: seq<seq<string>>, doc: seq<string>, doc': seq<string>,
                                qs: seq<string>, t: string, t': string)
    requires PositiveAboveOne(log) && IncreasingAboveOne(log) && doc in docs && doc' in docs && |doc| == |doc'|
    requires SharesOnly(doc, qs, t) && SharesOnly(doc', qs, t') && TermFreq(qs, t) == TermFreq(qs, t')
    requires TermFreq(doc, t) == TermFreq(doc', t') > 0 && DocFreq(docs, t) < DocFreq(docs, t')
    ensures Score(log, docs, doc', qs) < Score(log, docs, doc, qs)
  {
    RarerTermScoresMore(log, docs, doc, doc', t, t');
    ScoreOfOneTerm(log, docs, doc, qs, t);
    ScoreOfOneTerm(log, docs, doc', qs, t');
    assert t in qs;
    RepeatedGrows(TermFreq(qs, t), TermScore(log, docs, doc', t'), TermScore(log, docs, doc, t));
  }

  // The scoring loops.

  /** The counts over the first `i` documents, and over the next one but for the tokens in `rest`. */
  ghost predicate Counting(docs: seq<seq<string>>, i: nat, rest: set<string>, df: map<string, nat>) {
    && i < |docs|
    && (forall t :: t in rest ==> t in docs[i])
    && (forall t :: t in df <==> DocFreq(docs[..i], t) > 0 || (t in docs[i] && t !in rest))
    && (forall t :: t in df ==> df[t] == DocFreq(docs[..i], t) + if t in docs[i] && t !in rest then 1 else 0)
  }

  ghost predicate CountedTo(docs: seq<seq<string>>, i: nat, df: map<string, nat>) {
    && i <= |docs|
    && (forall t :: t in df <==> DocFreq(docs[..i], t) > 0)
    && (forall t :: t in df ==> df[t] == DocFreq(docs[..i], t))
  }

  lemma CountOne(docs: seq<seq<string>>, i: nat, rest: set<string>, df: map<string, nat>, t: string)
    requires Counting(docs, i, rest, df) && t in rest
    ensures Counting(docs, i, rest - {t}, df[t := (if t in df then df[t] else 0) + 1])
  {
  }

  lemma DocumentCounted(docs: seq<seq<string>>, i: nat, df: map<string, nat>)
    requires Counting(docs, i, {}, df)
    ensures CountedTo(docs, i + 1, df)
  {
    assert docs[..i + 1][..i] == docs[..i];
  }

  method CountDocuments(docs: seq<seq<string>>) returns (df: map<string, nat>)
    ensures forall t :: t in df <==> DocFreq(docs, t) > 0
    ensures forall t :: t in df ==> df[t] == DocFreq(docs, t)
  {
    df := map[];
    for i := 0 to |docs|
      invariant CountedTo(docs, i, df)
    {
      var rest := set t | t in docs[i];
      while rest != {}
        invariant Counting(docs, i, rest, df)
        decreases rest
      {
        var t :| t in rest;
        CountOne(docs, i, rest, df, t);
        df := df[t := (if t in df then df[t] else 0) + 1];
        rest := rest - {t};
      }
      DocumentCounted(docs, i, df);
    }
    assert docs[..|docs|] == docs;
  }

  method CountTerms(doc: seq<string>) returns (tf: map<string, nat>)
    ensures forall t :: (if t in tf then tf[t] else 0) == TermFreq(doc, t)
  {
    tf := map[];
    for i := 0 to |doc|
      invariant forall t :: (if t in tf then tf[t] else 0) == TermFreq(doc[..i], t)
    {
      assert doc[..i + 1][..i] == doc[..i];
      tf := tf[doc[i] := (if doc[i] in tf then tf[doc[i]] else 0) + 1];
    }
    assert doc[..|doc|] == doc;
  }

  method ScoreDocument(log: real -> real, docs: seq<seq<string>>, doc: seq<string>, df: map<string, nat>,
                       average: real, qs: seq<string>)
    returns (score: real)
    requires forall t :: t in df <==> DocFreq(docs, t) > 0
    requires forall t :: t in df ==> df[t] == DocFreq(docs, t)
    requires average == AverageLength(docs)
    ensures score == Score(log, docs, doc, qs)
  {
    var tfs := CountTerms(doc);
    score := 0.0;
    for j := 0 to |qs|
      invariant score == Score(log, docs, doc, qs[..j])
    {
      assert qs[..j + 1][..j] == qs[..j];
      var q := qs[j];
      if q in df {
        ScoredTermsOccur(docs, q);
        score := score + Weight(log, |docs|, df[q], if q in tfs then tfs[q] else 0, |doc|, average);
      }
    }
    assert qs[..|qs|] == qs;
  }

  method Bm25Scores(log: real -> real, query: string, texts: seq<string>) returns (scores: seq<real>)
    ensures |scores| == |texts|
    ensures var docs := seq(|texts|, i requires 0 <= i < |texts| => Tokenise(texts[i]));
            forall i :: 0 <= i < |texts| ==> scores[i] == Score(log, docs, docs[i], Tokenise(query))
  {
    if texts == [] {
      return [];
    }
    var qs := Tokenise(query);
    var docs := seq(|texts|, i requires 0 <= i < |texts| => Tokenise(texts[i]));
    var average := TotalLength(docs) as real / |docs| as real;
    var df := CountDocuments(docs);
    scores := [];
    for i := 0 to |docs|
      invariant |scores| == i
      invariant forall k :: 0 <= k < i ==> scores[k] == Score(log, docs, docs[k], qs)
    {
      var score := ScoreDocument(log, docs, docs[i], df, average, qs);
      scores := scores + [score];
    }
  }

  // ---------------------------------------------------------------------------
  // Ranking
  // ---------------------------------------------------------------------------

  /** Document `i` is ranked before `j`: a higher score, or the same score and an earlier position. */
  predicate Before(scores: seq<real>, i: nat, j: nat) {
    && i < |scores| && j < |scores|
    && (scores[i] > scores[j] || (scores[i] == scores[j] && i < j))
  }

  predicate AllBelow(r: seq<nat>, n: nat) {
    forall a :: 0 <= a < |r| ==> r[a] < n
  }

  /** Insert `i`, a later position than any already ranked, after every document that scores at least as much. */
  function Insert(scores: seq<real>, ranked: seq<nat>, i: nat): (r: seq<nat>)
    requires i < |scores| && AllBelow(ranked, |scores|)
    ensures |r| == |ranked| + 1 && AllBelow(r, |scores|)
    ensures forall k: nat :: k in r <==> k in ranked || k == i
  {
    if ranked == [] then [i]
    else
      var last, init := ranked[|ranked| - 1], ranked[..|ranked| - 1];
      assert ranked == init + [last];
      if scores[last] >= scores[i] then ranked + [i] else Insert(scores, init, i) + [last]
  }

  /** The stable sort by descending score, as positions. */
  function Ranked(scores: seq<real>, n: nat): (r: seq<nat>)
    requires n <= |scores|
    ensures |r| == n && AllBelow(r, |scores|)
    ensures forall k: nat :: k in r <==> k < n
  {
    if n == 0 then [] else Insert(scores, Ranked(scores, n - 1), n - 1)
  }

  ghost predicate Sorted(scores: seq<real>, r: seq<nat>) {
    forall a, b :: 0 <= a < b < |r| ==> Before(scores, r[a], r[b])
  }

  lemma SortedSnoc(scores: seq<real>, init: seq<nat>, last: nat)
    requires Sorted(scores, init) && forall a :: 0 <= a < |init| ==> Before(scores, init[a], last)
    ensures Sorted(scores, init + [last])
  {
  }

  lemma {:induction false} InsertSorted(scores: seq<real>, ranked: seq<nat>, i: nat)
    requires i < |scores| && AllBelow(ranked, i) && Sorted(scores, ranked)
    ensures Sorted(scores, Insert(scores, ranked, i))
    decreases |ranked|
  {
    if ranked != [] {
      var last, init := ranked[|ranked| - 1], ranked[..|ranked| - 1];
      assert ranked == init + [last];
      if scores[last] >= scores[i] {
        forall a | 0 <= a < |ranked|
          ensures Before(scores, ranked[a], i)
        {
          assert a < |ranked| - 1 ==> Before(scores, ranked[a], ranked[|ranked| - 1]);
        }
        SortedSnoc(scores, ranked, i);
      } else {
        InsertSorted(scores, init, i);
        var r := Insert(scores, init, i);
        forall a | 0 <= a < |r|
          ensures Before(scores, r[a], last)
        {
          assert r[a] in r;
          if r[a] != i {
            var b :| 0 <= b < |init| && init[b] == r[a];
            assert Before(scores, ranked[b], ranked[|ranked| - 1]);
          }
        }
        SortedSnoc(scores, r, last);
      }
    }
  }

  lemma {:induction false} RankedSorted(scores: seq<real>, n: nat)
    requires n <= |scores|
    ensures Sorted(scores, Ranked(scores, n))
    decreases n
  {
    if n > 0 {
      RankedSorted(scores, n - 1);
      var r := Ranked(scores, n - 1);
      forall a | 0 <= a < |r|
        ensures r[a] < n - 1
      {
        assert r[a] in r;
      }
      InsertSorted(scores, r, n - 1);
    }
  }

  /** `[e for score, e in ranked if score > 0]`, as positions. */
  function Positive(scores: seq<real>, r: seq<nat>): (p: seq<nat>)
    requires AllBelow(r, |scores|)
    ensures forall a :: 0 <= a < |p| ==> p[a] < |scores| && scores[p[a]] > 0.0
  {
    if r == [] then []
    else
      var last, init := r[|r| - 1], r[..|r| - 1];
      Positive(scores, init) + if scores[last] > 0.0 then [last] else []
  }

  lemma {:induction false} PositiveKeeps(scores: seq<real>, r: seq<nat>, k: nat)
    requires AllBelow(r, |scores|) && k < |scores| && scores[k] > 0.0
    ensures k in Positive(scores, r) <==> k in r
    decreases |r|
  {
    if r != [] {
      var last, init := r[|r| - 1], r[..|r| - 1];
      assert r == init + [last];
      PositiveKeeps(scores, init, k);
    }
  }

  lemma {:induction false} PositiveComesFrom(scores: seq<real>, r: seq<nat>, a: nat) returns (b: nat)
    requires AllBelow(r, |scores|) && a < |Positive(scores, r)|
    ensures b < |r| && r[b] == Positive(scores, r)[a]
    decreases |r|
  {
    var init := r[..|r| - 1];
    if a < |Positive(scores, init)| {
      b := PositiveComesFrom(scores, init, a);
    } else {
      b := |r| - 1;
    }
  }

  lemma {:induction false} PositiveSorted(scores: seq<real>, r: seq<nat>)
    requires AllBelow(r, |scores|) && Sorted(scores, r)
    ensures Sorted(scores, Positive(scores, r))
    decreases |r|
  {
    if r != [] {
      var last, init := r[|r| - 1], r[..|r| - 1];
      PositiveSorted(scores, init);
      var p := Positive(scores, init);
      forall a | 0 <= a < |p|
        ensures Before(scores, p[a], last)
      {
        var b := PositiveComesFrom(scores, init, a);
        assert Before(scores, r[b], r[|r| - 1]);
      }
      SortedSnoc(scores, p, last);
      assert p + [] == p;
    }
  }

  /** `s[:n]`, where a negative bound counts from the end. */
  function Slice<T>(s: seq<T>, n: int): seq<T> {
    if n >= 0 then s[..if n < |s| then n else |s|] else s[..if |s| + n > 0 then |s| + n else 0]
  }

  /** How many elements a slice of `m` keeps. */
  function SliceLength(m: nat, n: int): nat {
    if n >= 0 then (if n < m then n else m) else (if m + n > 0 then m + n else 0)
  }

  ghost function Matching(scores: seq<real>): set<nat> {
    set k | 0 <= k < |scores| && scores[k] > 0.0
  }

  /** `best` lists the highest-ranked matches, in rank order, as many as the slice bound allows. */
  ghost predicate Best(scores: seq<real>, best: seq<nat>, topN: int) {
    && (forall a :: 0 <= a < |best| ==> best[a] < |scores| && scores[best[a]] > 0.0)
    && Sorted(scores, best)
    && (forall a, k :: 0 <= a < |best| && k in Matching(scores) && k !in best ==> Before(scores, best[a], k))
    && |best| == SliceLength(|Matching(scores)|, topN)
  }

  lemma {:induction false} SortedSize(scores: seq<real>, r: seq<nat>)
    requires Sorted(scores, r)
    ensures |Elements(r)| == |r|
    decreases |r|
  {
    if r != [] {
      var last, init := r[|r| - 1], r[..|r| - 1];
      SortedSize(scores, init);
      forall a | 0 <= a < |init|
        ensures init[a] != last
      {
        assert Before(scores, r[a], r[|r| - 1]);
      }
      assert r == init + [last];
      assert Elements(r) == Elements(init) + {last};
    }
  }

  lemma PositiveIsMatching(scores: seq<real>)
    ensures Elements(Positive(scores, Ranked(scores, |scores|))) == Matching(scores)
  {
    var r := Ranked(scores, |scores|);
    forall k | k in Matching(scores)
      ensures k in Positive(scores, r)
    {
      assert k in r;
      PositiveKeeps(scores, r, k);
    }
  }

  /** What a slice of a ranking leaves out is ranked after what it keeps. */
  lemma SliceIsBest(scores: seq<real>, p: seq<nat>, topN: int)
    requires Sorted(scores, p) && Elements(p) == Matching(scores)
    ensures Best(scores, Slice(p, topN), topN)
  {
    SortedSize(scores, p);
    var best := Slice(p, topN);
    forall a | 0 <= a < |best|
      ensures best[a] < |scores| && scores[best[a]] > 0.0
    {
      assert p[a] in Elements(p);
    }
    forall a, k | 0 <= a < |best| && k in Matching(scores) && k !in best
      ensures Before(scores, best[a], k)
    {
      assert k in Elements(p);
      var b :| 0 <= b < |p| && p[b] == k;
      assert forall c :: 0 <= c < |best| ==> best[c] == p[c] && best[c] in best;
      assert Before(scores, p[a], p[b]);
    }
  }

  lemma RankingIsBest(scores: seq<real>, topN: int)
    ensures Best(scores, Slice(Positive(scores, Ranked(scores, |scores|)), topN), topN)
  {
    RankedSorted(scores, |scores|);
    PositiveSorted(scores, Ranked(scores, |scores|));
    PositiveIsMatching(scores);
    SliceIsBest(scores, Positive(scores, Ranked(scores, |scores|)), topN);
  }

  function Pick(entries: seq<Entry>, ks: seq<nat>): (r: seq<Entry>)
    requires AllBelow(ks, |entries|)
    ensures |r| == |ks| && forall a :: 0 <= a < |ks| ==> r[a] == entries[ks[a]]
  {
    seq(|ks|, a requires 0 <= a < |ks| => entries[ks[a]])
  }

  /** `brain_list` */
  function Filter(entries: seq<Entry>, wave: Option<string>, gate: Option<string>, kind: Option<string>): seq<Entry> {
    if entries == [] then []
    else
      Filter(entries[..|entries| - 1], wave, gate, kind) + Kept(entries[|entries| - 1], wave, gate, kind)
  }

  function Kept(e: Entry, wave: Option<string>, gate: Option<string>, kind: Option<string>): seq<Entry> {
    if Passes(e, wave, gate, kind) then [e] else []
  }

  predicate Passes(e: Entry, wave: Option<string>, gate: Option<string>, kind: Option<string>) {
    && (wave.Some? ==> e.wave == wave.value)
    && (gate.Some? ==> e.gate == gate.value)
    && (kind.Some? ==> e.kind == kind.value)
  }

  /** It keeps exactly the entries that pass. */
  lemma {:induction false} FilterKeeps(entries: seq<Entry>, wave: Option<string>, gate: Option<string>,
                                       kind: Option<string>, e: Entry)
    ensures e in Filter(entries, wave, gate, kind) <==>
              && e in entries
              && (wave == None || wave == Some(e.wave))
              && (gate == None || gate == Some(e.gate))
              && (kind == None || kind == Some(e.kind))
    decreases |entries|
  {
    if entries != [] {
      FilterKeeps(entries[..|entries| - 1], wave, gate, kind, e);
      assert entries == entries[..|entries| - 1] + [entries[|entries| - 1]];
    }
  }

  /** One entry is kept once or not at all. */
  lemma FilterSingle(e: Entry, wave: Option<string>, gate: Option<string>, kind: Option<string>)
    ensures Filter([e], wave, gate, kind) == [e] || Filter([e], wave, gate, kind) == []
    ensures Filter([], wave, gate, kind) == []
  {
    assert [e][..0] == [];
  }

  /** Filtering goes entry by entry and keeps the order. */
  lemma {:induction false} FilterAppend(a: seq<Entry>, b: seq<Entry>, wave: Option<string>, gate: Option<string>,
                                        kind: Option<string>)
    ensures Filter(a + b, wave, gate, kind) == Filter(a, wave, gate, kind) + Filter(b, wave, gate, kind)
    decreases |b|
  {
    if b == [] {
      assert a + b == a;
    } else {
      var init, e := b[..|b| - 1], b[|b| - 1];
      assert b == init + [e];
      FilterAppend(a, init, wave, gate, kind);
      FilterRegroup(a, init, e, wave, gate, kind);
    }
  }

  lemma FilterRegroup(a: seq<Entry>, init: seq<Entry>, e: Entry, wave: Option<string>, gate: Option<string>,
                      kind: Option<string>)
    requires Filter(a + init, wave, gate, kind) == Filter(a, wave, gate, kind) + Filter(init, wave, gate, kind)
    ensures Filter(a + (init + [e]), wave, gate, kind)
         == Filter(a, wave, gate, kind) + Filter(init + [e], wave, gate, kind)
  {
    FilterLast(a, init, e, wave, gate, kind);
    FilterSnoc(init, e, wave, gate, kind);
    var fa, fi, k := Filter(a, wave, gate, kind), Filter(init, wave, gate, kind), Kept(e, wave, gate, kind);
    Associate(fa, fi, k);
  }

  lemma FilterLast(a: seq<Entry>, init: seq<Entry>, e: Entry, wave: Option<string>, gate: Option<string>,
                   kind: Option<string>)
    ensures Filter(a + (init + [e]), wave, gate, kind) == Filter(a + init, wave, gate, kind) + Kept(e, wave, gate, kind)
  {
    assert (a + init) + [e] == a + (init + [e]);
    FilterSnoc(a + init, e, wave, gate, kind);
  }

  lemma FilterSnoc(init: seq<Entry>, e: Entry, wave: Option<string>, gate: Option<string>, kind: Option<string>)
    ensures Filter(init + [e], wave, gate, kind) == Filter(init, wave, gate, kind) + Kept(e, wave, gate, kind)
  {
    var all := init + [e];
    assert all[..|all| - 1] == init && all[|all| - 1] == e;
  }

  function DocumentsOf(entries: seq<Entry>): seq<seq<string>> {
    seq(|entries|, i requires 0 <= i < |entries| => Tokenise(entries[i].content))
  }

  /** The score of one entry among those that are searched. */
  function EntryScore(log: real -> real, entries: seq<Entry>, e: Entry, query: string): real {
    Score(log, DocumentsOf(entries), Tokenise(e.content), Tokenise(query))
  }

  lemma EntryScoreSigns(log: real -> real, entries: seq<Entry>, query: string)
    requires PositiveAboveOne(log)
    ensures forall k :: 0 <= k < |entries| ==>
              (EntryScore(log, entries, entries[k], query) > 0.0 <==> Matches(entries[k], query))
  {
    var docs := DocumentsOf(entries);
    forall k | 0 <= k < |entries|
      ensures EntryScore(log, entries, entries[k], query) > 0.0 <==> Matches(entries[k], query)
    {
      assert docs[k] in docs;
      ScorePositiveIffShares(log, docs, docs[k], Tokenise(query));
    }
  }

  /** The entry shares at least one token with the query. */
  predicate Matches(e: Entry, query: string) {
    Shares(Tokenise(e.content), Tokenise(query))
  }

  function ScoresOf(log: real -> real, entries: seq<Entry>, query: string): seq<real> {
    seq(|entries|, k requires 0 <= k < |entries| => EntryScore(log, entries, entries[k], query))
  }

  /** `found` are the best `topN` of the entries with a positive score, best first, ties in list order. */
  ghost predicate Finds(log: real -> real, entries: seq<Entry>, query: string, topN: int, found: seq<Entry>) {
    exists best :: Best(ScoresOf(log, entries, query), best, topN) && found == Pick(entries, best)
  }

  /** What a search of a list returns: a prefix of it for a blank query, else the best matches. */
  ghost predicate Answers(log: real -> real, entries: seq<Entry>, query: string, topN: int, found: seq<Entry>) {
    if IsBlank(query) then found == Slice(entries, topN) else Finds(log, entries, query, topN, found)
  }

  lemma NothingToFind(log: real -> real, query: string, topN: int)
    ensures Answers(log, [], query, topN, [])
  {
    assert Matching(ScoresOf(log, [], query)) == {};
    assert Best(ScoresOf(log, [], query), [], topN);
  }

  /** The entries that share at least one token with the query. */
  ghost function Sharing(entries: seq<Entry>, query: string): set<nat> {
    set k | 0 <= k < |entries| && Matches(entries[k], query)
  }

  /**
    A search returns exactly the best `topN` of the entries that share a token
    with the query: `found` are at the positions `best`, best first and ties in
    list order, and every sharing entry that is left out ranks after all of them.
   */
  lemma FoundShare(log: real -> real, entries: seq<Entry>, query: string, topN: int, found: seq<Entry>)
    returns (best: seq<nat>)
    requires PositiveAboveOne(log) && Finds(log, entries, query, topN, found)
    ensures AllBelow(best, |entries|) && found == Pick(entries, best)
    ensures Elements(best) <= Sharing(entries, query)
    ensures |best| == SliceLength(|Sharing(entries, query)|, topN)
    ensures Sorted(ScoresOf(log, entries, query), best)
    ensures forall a, k :: 0 <= a < |best| && k in Sharing(entries, query) && k !in best ==>
              Before(ScoresOf(log, entries, query), best[a], k)
  {
    var scores := ScoresOf(log, entries, query);
    best :| Best(scores, best, topN) && found == Pick(entries, best);
    EntryScoreSigns(log, entries, query);
    assert Matching(scores) == Sharing(entries, query);
  }

  /** Entry `i` has of the query's tokens just `t`, and `j` just `t'`, which more entries have; else they are alike. */
  ghost predicate RarerMatch(entries: seq<Entry>, query: string, i: nat, j: nat, t: string, t': string)
    requires i < |entries| && j < |entries|
  {
    var docs, doc, doc', qs :=
      DocumentsOf(entries), Tokenise(entries[i].content), Tokenise(entries[j].content), Tokenise(query);
    && SharesOnly(doc, qs, t) && SharesOnly(doc', qs, t') && multiset(qs)[t] == multiset(qs)[t']
    && |doc| == |doc'| && multiset(doc)[t] == multiset(doc')[t'] > 0
    && |Holding(docs, t)| < |Holding(docs, t')|
  }

  lemma RarerMatchScoresMore(log: real -> real, entries: seq<Entry>, query: string, i: nat, j: nat, t: string,
                             t': string)
    requires PositiveAboveOne(log) && IncreasingAboveOne(log)
    requires i < |entries| && j < |entries| && RarerMatch(entries, query, i, j, t, t')
    ensures EntryScore(log, entries, entries[i], query) > EntryScore(log, entries, entries[j], query)
  {
    var docs, doc, doc', qs :=
      DocumentsOf(entries), Tokenise(entries[i].content), Tokenise(entries[j].content), Tokenise(query);
    assert docs[i] == doc && docs[j] == doc';
    TermFreqCounts(doc, t);
    TermFreqCounts(doc', t');
    TermFreqCounts(qs, t);
    TermFreqCounts(qs, t');
    DocFreqCounts(docs, t);
    DocFreqCounts(docs, t');
    RarerDocumentScoresMore(log, docs, doc, doc', qs, t, t');
  }

  /**
    Of two equally long entries that share one token each with the query, equally
    often, the one with the rarer token is found first: whenever the other one is
    found it is too, before it.
   */
  lemma RarerMatchFirst(log: real -> real, entries: seq<Entry>, query: string, topN: int, best: seq<nat>, i: nat,
                        j: nat, t: string, t': string)
    returns (a: nat)
    requires PositiveAboveOne(log) && IncreasingAboveOne(log)
    requires i < |entries| && j < |entries| && RarerMatch(entries, query, i, j, t, t')
    requires Best(ScoresOf(log, entries, query), best, topN) && j in best
    ensures a < |best| && best[a] == i && forall b :: 0 <= b < |best| && best[b] == j ==> a < b
  {
    var scores := ScoresOf(log, entries, query);
    RarerMatchScoresMore(log, entries, query, i, j, t, t');
    assert scores[i] > scores[j];
    var b: nat :| b < |best| && best[b] == j;
    assert scores[best[b]] > 0.0 && i in Matching(scores);
    if i !in best {
      assert false;
    }
    a :| a < |best| && best[a] == i;
    assert forall c :: 0 <= c < a ==> Before(scores, best[c], best[a]);
  }

  /** Scoring and ranking the entries that are left after filtering. */
  method SearchAmong(log: real -> real, entries: seq<Entry>, query: string, topN: int) returns (found: seq<Entry>)
    ensures Finds(log, entries, query, topN, found)
  {
    var texts := seq(|entries|, i requires 0 <= i < |entries| => entries[i].content);
    var scores := Bm25Scores(log, query, texts);
    ghost var docs := seq(|texts|, i requires 0 <= i < |texts| => Tokenise(texts[i]));
    assert docs == DocumentsOf(entries);
    assert scores == ScoresOf(log, entries, query);
    var kept := Slice(Positive(scores, Ranked(scores, |scores|)), topN);
    RankingIsBest(scores, topN);
    found := Pick(entries, kept);
  }

  method BrainList(lines: seq<Line>, wave: Option<string>, gate: Option<string>, kind: Option<string>)
    returns (entries: seq<Entry>)
    ensures entries == Filter(Load(lines), wave, gate, kind)
  {
    var loaded := LoadEntries(lines);
    entries := Filter(loaded, wave, gate, kind);
  }

  method BrainSearch(log: real -> real, lines: seq<Line>, query: string, topN: int,
                     wave: Option<string>, gate: Option<string>, kind: Option<string>)
    returns (found: seq<Entry>)
    ensures Answers(log, Filter(Load(lines), wave, gate, kind), query, topN, found)
  {
    var entries := BrainList(lines, wave, gate, kind);
    found := Search(log, entries, query, topN);
  }

  method Search(log: real -> real, entries: seq<Entry>, query: string, topN: int) returns (found: seq<Entry>)
    ensures Answers(log, entries, query, topN, found)
  {
    if entries == [] {
      NothingToFind(log, query, topN);
      return [];
    }
    if IsBlank(query) {
      return Slice(entries, topN);
    }
    found := SearchAmong(log, entries, query, topN);
  }
}
