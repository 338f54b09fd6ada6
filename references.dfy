/**
 * Extraction of cell references from formula text. The sources use the
 * regular expressions `\b[A-Z]+\d+\b` (evaluator) and `\b[A-Z]{1,3}\d{1,5}\b`
 * (accounting rewriter, server). Because both ends are anchored by `\b` and
 * the class `[A-Z]`/`\d` consists of word characters, a match is always a
 * whole maximal run of word characters: the matches are exactly the words of
 * the text that have the token's shape, in order of appearance.
 */
module References {
  import opened Text
  import opened CellAddress

  /** The length of the run of word characters at the start of `s`. */
  function WordLength(s: string): (n: nat)
    ensures n <= |s|
    ensures forall i :: 0 <= i < n ==> IsWordChar(s[i])
    ensures n < |s| ==> !IsWordChar(s[n])
  {
    if s == [] || !IsWordChar(s[0]) then 0 else 1 + WordLength(s[1..])
  }

  /** The maximal runs of word characters of `s`, from left to right. */
  function Words(s: string): (ws: seq<string>)
    ensures forall w :: w in ws ==> w != [] && AllWordChars(w)
    decreases |s|
  {
    if s == [] then []
    else if !IsWordChar(s[0]) then Words(s[1..])
    else
      var n := WordLength(s);
      assert forall i :: 0 <= i < n ==> s[..n][i] == s[i];
      [s[..n]] + Words(s[n..])
  }

  /** `w` occurs in `s` at `k` with a word boundary (`\b`) on both sides. */
  predicate IsWordAt(s: string, k: int, w: string) {
    && 0 <= k && k + |w| <= |s| && s[k..k + |w|] == w
    && (k == 0 || !IsWordChar(s[k - 1]))
    && (k + |w| == |s| || !IsWordChar(s[k + |w|]))
  }

  /** Every whole word of `s` is among its words. */
  lemma {:induction false} WordsComplete(s: string, k: int, w: string)
    requires w != [] && AllWordChars(w) && IsWordAt(s, k, w)
    ensures w in Words(s)
    decreases |s|
  {
    assert s[k] == w[0];
    if !IsWordChar(s[0]) {
      assert k >= 1;
      WordAtDrop(s, 1, k, w);
      WordsComplete(s[1..], k - 1, w);
    } else {
      var n := WordLength(s);
      if k == 0 {
        assert forall i :: 0 <= i < |w| ==> s[i] == w[i];
        assert n == |w|;
        assert s[..n] == w;
      } else {
        assert n <= k - 1;
        WordAtDrop(s, n, k, w);
        WordsComplete(s[n..], k - n, w);
      }
    }
  }

  /** A whole word of `s` at or after `d` is a whole word of the suffix from `d`. */
  lemma WordAtDrop(s: string, d: nat, k: int, w: string)
    requires IsWordAt(s, k, w) && d <= k
    ensures IsWordAt(s[d..], k - d, w)
  {
    var t := s[d..];
    assert t[k - d..k - d + |w|] == s[k..k + |w|];
    if k - d > 0 {
      assert t[k - d - 1] == s[k - 1];
    }
    if k + |w| < |s| {
      assert t[k - d + |w|] == s[k + |w|];
    }
  }

  /** A whole word of a suffix of `s` is a whole word of `s`, when its left boundary still holds. */
  lemma WordAtLift(s: string, d: nat, k: int, w: string)
    requires d <= |s| && IsWordAt(s[d..], k, w)
    requires k > 0 || d == 0 || !IsWordChar(s[d - 1])
    ensures IsWordAt(s, d + k, w)
  {
    var t := s[d..];
    assert s[d + k..d + k + |w|] == t[k..k + |w|];
    if k > 0 {
      assert s[d + k - 1] == t[k - 1];
    }
    if d + k + |w| < |s| {
      assert s[d + k + |w|] == t[k + |w|];
    }
  }

  /** A word never starts right after the end of the first word. */
  lemma NotAtBoundary(t: string, w: string)
    requires w != [] && AllWordChars(w)
    requires t != [] && !IsWordChar(t[0])
    ensures !IsWordAt(t, 0, w)
  {
  }

  /** Every word of `s` occurs in `s` with a word boundary on both sides. */
  lemma {:induction false} WordsSound(s: string, w: string)
    requires w in Words(s)
    ensures exists k :: IsWordAt(s, k, w)
    decreases |s|
  {
    if !IsWordChar(s[0]) {
      WordsSound(s[1..], w);
      var k :| IsWordAt(s[1..], k, w);
      WordAtLift(s, 1, k, w);
    } else {
      var n := WordLength(s);
      if w == s[..n] {
        assert IsWordAt(s, 0, w);
      } else {
        var t := s[n..];
        assert w in Words(t);
        WordsSound(t, w);
        var k :| IsWordAt(t, k, w);
        NotAtBoundary(t, w);
        WordAtLift(s, n, k, w);
      }
    }
  }

  /** `^[A-Z]+\d+$`: the tokens that `parseCellAddress` accepts. */
  predicate IsAddressToken(w: string) {
    ParseCellAddress(w).Ok?
  }

  /** `[A-Z]{1,3}\d{1,5}` as a whole token. */
  predicate IsBoundedRef(w: string) {
    IsAddressToken(w) && LetterRun(w) <= 3 && |w| - LetterRun(w) <= 5
  }

  /** An address token consists of word characters only. */
  lemma AddressTokenIsWord(w: string)
    requires IsAddressToken(w)
    ensures w != [] && AllWordChars(w)
  {
    var k :| SplitsAt(w, k);
  }

  /** The elements of `ws` that satisfy `p`, in order. */
  function Filter(ws: seq<string>, p: string -> bool): (r: seq<string>)
    ensures forall w :: w in r <==> w in ws && p(w)
    ensures |r| <= |ws|
  {
    if ws == [] then []
    else
      var rest := Filter(ws[..|ws| - 1], p);
      var w := ws[|ws| - 1];
      assert ws == ws[..|ws| - 1] + [w];
      if p(w) then rest + [w] else rest
  }

  /** One more element at the end is kept exactly when it meets the predicate. */
  lemma FilterSnoc(ws: seq<string>, w: string, p: string -> bool)
    ensures Filter(ws + [w], p) == Filter(ws, p) + (if p(w) then [w] else [])
  {
    assert (ws + [w])[..|ws|] == ws;
  }

  /** Filtering a concatenation filters each part and keeps them in order. */
  lemma {:induction false} FilterAppend(xs: seq<string>, ys: seq<string>, p: string -> bool)
    ensures Filter(xs + ys, p) == Filter(xs, p) + Filter(ys, p)
    decreases |ys|
  {
    if ys == [] {
      assert xs + ys == xs;
    } else {
      var init := ys[..|ys| - 1];
      var w := ys[|ys| - 1];
      assert ys == init + [w] && xs + ys == (xs + init) + [w];
      FilterAppend(xs, init, p);
      FilterSnoc(xs + init, w, p);
      FilterSnoc(init, w, p);
    }
  }

  /** `Array.from(new Set(xs))`: the first occurrence of each element, in order. */
  function Distinct(xs: seq<string>): (ys: seq<string>)
    ensures forall x :: x in ys <==> x in xs
    ensures forall i, j :: 0 <= i < j < |ys| ==> ys[i] != ys[j]
    ensures |ys| <= |xs|
  {
    if xs == [] then []
    else
      var init := Distinct(xs[..|xs| - 1]);
      var x := xs[|xs| - 1];
      assert xs == xs[..|xs| - 1] + [x];
      if x in init then init else init + [x]
  }

  /** A list without repetitions comes back unchanged, in its own order. */
  lemma {:induction false} DistinctOfDistinct(xs: seq<string>)
    requires forall i, j :: 0 <= i < j < |xs| ==> xs[i] != xs[j]
    ensures Distinct(xs) == xs
    decreases |xs|
  {
    if xs != [] {
      var init := xs[..|xs| - 1];
      DistinctOfDistinct(init);
      assert xs[|xs| - 1] !in init by {
        forall k | 0 <= k < |init| ensures init[k] != xs[|xs| - 1] {
          assert init[k] == xs[k];
        }
      }
      assert xs == init + [xs[|xs| - 1]];
    }
  }

  /** Later elements never reorder the earlier ones: the result for a prefix is a prefix of the result. */
  lemma {:induction false} DistinctPrefix(xs: seq<string>, ys: seq<string>)
    ensures Distinct(xs) <= Distinct(xs + ys)
    decreases |ys|
  {
    if ys == [] {
      assert xs + ys == xs;
    } else {
      var zs := xs + ys;
      var init := ys[..|ys| - 1];
      assert zs[..|zs| - 1] == xs + init;
      DistinctPrefix(xs, init);
    }
  }

  /** A run of word characters ended by the end of the text or a non-word character is the leading run. */
  lemma {:induction false} WordLengthIs(s: string, n: nat)
    requires n <= |s| && (forall i :: 0 <= i < n ==> IsWordChar(s[i]))
    requires n < |s| ==> !IsWordChar(s[n])
    ensures WordLength(s) == n
    decreases n
  {
    if n > 0 {
      WordLengthIs(s[1..], n - 1);
    }
  }

  /** The words of a text split at a non-word character are the words of both parts, in order. */
  lemma {:induction false} WordsAppend(a: string, c: char, b: string)
    requires !IsWordChar(c)
    ensures Words(a + [c] + b) == Words(a) + Words(b)
    decreases |a|
  {
    var t := a + [c] + b;
    if a == [] {
      assert t == [c] + b && t[1..] == b;
    } else if !IsWordChar(a[0]) {
      assert t[1..] == a[1..] + [c] + b;
      WordsAppend(a[1..], c, b);
    } else {
      var n := WordLength(a);
      assert t[n] == if n < |a| then a[n] else c;
      WordLengthIs(t, n);
      assert t[..n] == a[..n];
      assert t[n..] == a[n..] + [c] + b;
      WordsAppend(a[n..], c, b);
      assert Words(t) == [a[..n]] + Words(t[n..]);
      assert Words(a) == [a[..n]] + Words(a[n..]);
    }
  }

  /**
   * `expression.match(/\b[A-Z]+\d+\b/g) || []` of the evaluator: every
   * match, duplicates included. Each of them is accepted by `parseCellAddress`.
   */
  function ExtractAddresses(expression: string): (refs: seq<string>)
    ensures forall r :: r in refs ==> ParseCellAddress(r).Ok?
  {
    Filter(Words(expression), IsAddressToken)
  }

  /** The evaluator extracts exactly the address-shaped whole words of the expression. */
  lemma ExtractAddressesExact(expression: string, r: string)
    ensures r in ExtractAddresses(expression) <==>
      IsAddressToken(r) && exists k :: IsWordAt(expression, k, r)
  {
    if r in ExtractAddresses(expression) {
      WordsSound(expression, r);
    } else if IsAddressToken(r) && exists k :: IsWordAt(expression, k, r) {
      var k :| IsWordAt(expression, k, r);
      AddressTokenIsWord(r);
      WordsComplete(expression, k, r);
    }
  }

  /**
   * `extractCellReferences` of the accounting rewriter and of the server:
   * the distinct matches of `\b[A-Z]{1,3}\d{1,5}\b`, in order of first appearance.
   */
  function ExtractBoundedRefs(text: string): (refs: seq<string>)
    ensures forall i, j :: 0 <= i < j < |refs| ==> refs[i] != refs[j]
    ensures forall r :: r in refs ==>
      exists k :: SplitsAt(r, k) && k <= 3 && |r| - k <= 5
  {
    var refs := Distinct(Filter(Words(text), IsBoundedRef));
    assert forall r :: r in refs ==> SplitsAt(r, LetterRun(r)) by {
      forall r | r in refs ensures SplitsAt(r, LetterRun(r)) {
        var k :| SplitsAt(r, k);
        SplitIsLetterRun(r, k);
      }
    }
    refs
  }

  /** The rewriter extracts exactly the whole words of the bounded reference shape. */
  lemma ExtractBoundedRefsExact(text: string, r: string)
    ensures r in ExtractBoundedRefs(text) <==>
      IsBoundedRef(r) && exists k :: IsWordAt(text, k, r)
  {
    if r in ExtractBoundedRefs(text) {
      WordsSound(text, r);
    } else if IsBoundedRef(r) && exists k :: IsWordAt(text, k, r) {
      var k :| IsWordAt(text, k, r);
      AddressTokenIsWord(r);
      WordsComplete(text, k, r);
    }
  }
}
