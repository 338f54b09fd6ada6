/**
 * The accounting formula evaluator (`FormulaParser.evaluate`): references
 * defined in a context are substituted as text, the accounting calls
 * `VAT(...)` and `NETTO(...)` are rewritten into arithmetic, and what is
 * left is sanitised and evaluated. A failure becomes
 * `#ERROR: Unable to evaluate expression`.
 */
module FormulaParser {
  import opened Text
  import opened Wrappers
  import opened Cells
  import opened References
  import opened Arithmetic
  import opened CellAddress

  /** `Record<string, any>`: a key that is absent or maps to `Empty` is `undefined`. */
  type Context = map<string, CellValue>

  /** `context[ref] !== undefined`. */
  predicate Defined(ctx: Context, ref: string) {
    ref in ctx && !ctx[ref].Empty?
  }

  /** The replacement of a defined reference: a number's `toString()`, anything else quoted. */
  function ValueText(v: CellValue): string
    requires !v.Empty?
  {
    match v
    case Num(n) => NumberText(n)
    case Text(s) => "\"" + s + "\""
    case Bool(b) => if b then "\"true\"" else "\"false\""
  }

  predicate NonEmptyRefs(refs: seq<string>) {
    forall k :: 0 <= k < |refs| ==> refs[k] != []
  }

  /**
   * The text after the `forEach` over the references: each defined
   * reference, in order, has every occurrence replaced by its value's text.
   */
  function SubstitutedRefs(expression: string, refs: seq<string>, ctx: Context): string
    requires NonEmptyRefs(refs)
  {
    if refs == [] then expression
    else
      var init := refs[..|refs| - 1];
      var ref := refs[|refs| - 1];
      var prev := SubstitutedRefs(expression, init, ctx);
      if Defined(ctx, ref) then ReplaceAll(prev, ref, ValueText(ctx[ref])) else prev
  }

  /** References the context does not define leave the expression as it is. */
  lemma {:induction false} SubstitutedUndefined(expression: string, refs: seq<string>, ctx: Context)
    requires NonEmptyRefs(refs)
    requires forall r :: r in refs ==> !Defined(ctx, r)
    ensures SubstitutedRefs(expression, refs, ctx) == expression
  {
    if refs != [] {
      var init := refs[..|refs| - 1];
      SubstitutedUndefined(expression, init, ctx);
    }
  }

  /** Only the entries of the context for the references themselves matter. */
  lemma {:induction false} SubstitutedFrame(expression: string, refs: seq<string>, c1: Context, c2: Context)
    requires NonEmptyRefs(refs)
    requires forall r :: r in refs ==> Defined(c1, r) == Defined(c2, r) && (Defined(c1, r) ==> c1[r] == c2[r])
    ensures SubstitutedRefs(expression, refs, c1) == SubstitutedRefs(expression, refs, c2)
  {
    if refs != [] {
      var init := refs[..|refs| - 1];
      SubstitutedFrame(expression, init, c1, c2);
    }
  }

  /** The substitution `forEach`. */
  method SubstituteReferences(expression: string, refs: seq<string>, ctx: Context) returns (text: string)
    requires NonEmptyRefs(refs)
    ensures text == SubstitutedRefs(expression, refs, ctx)
  {
    text := expression;
    var i := 0;
    while i < |refs|
      invariant 0 <= i <= |refs|
      invariant NonEmptyRefs(refs[..i])
      invariant text == SubstitutedRefs(expression, refs[..i], ctx)
    {
      assert refs[..i + 1][..i] == refs[..i];
      var ref := refs[i];
      if ref in ctx && !ctx[ref].Empty? {
        text := ReplaceAll(text, ref, ValueText(ctx[ref]));
      }
      i := i + 1;
    }
    assert refs[..|refs|] == refs;
  }

  /** The two accounting calls. */
  datatype Call = Vat | Netto

  function CallName(call: Call): (name: string)
    ensures |name| >= 2 && name[|name| - 1] == '('
    ensures forall i :: 0 <= i < |name| - 1 ==> IsUpper(name[i])
  {
    match call
    case Vat => "VAT("
    case Netto => "NETTO("
  }

  /** A match at the start of the text: the first group, the second group if it took part, and the end. */
  datatype CallMatch = CallMatch(first: string, second: Option<string>, end: nat)

  /** `[^,]+` at its greediest: the length of the run before the first comma. */
  function AmountLength(tail: string): (k: nat)
    ensures k <= |tail| && ',' !in tail[..k]
    ensures k < |tail| ==> tail[k] == ','
  {
    if ',' in tail then IndexOfChar(tail, ',') else |tail|
  }

  /**
   * `\s*([^)]+)\)` after the comma: the second group and the length
   * consumed up to and including the `)`. The group is the non-empty run up
   * to the first `)` after the white space, or the last white-space
   * character when only white space precedes the `)`.
   */
  function RateMatch(after: string): (r: Option<(string, nat)>)
    ensures r.Some? ==> r.value.0 != [] && ')' !in r.value.0
    ensures r.Some? ==> 0 < r.value.1 <= |after| && after[r.value.1 - 1] == ')'
  {
    if ')' in after && IndexOfChar(after, ')') > 0 then
      var q := IndexOfChar(after, ')');
      var spaces := |after| - |TrimStart(after)|;
      var w := if spaces < q then spaces else q - 1;
      var rate := after[..q][w..];
      assert ')' !in after[..q];
      Some((rate, q + 1))
    else None
  }

  /**
   * The first match at the start of `s` of `NAME\(([^,]+)(?:,\s*([^)]+))?\)`,
   * with the backtracking of a JavaScript regular expression. The first
   * group takes everything up to the first comma. When a comma follows and
   * the rate matches after it, the match has a second group. Otherwise the
   * first group gives back characters until it ends just before its last
   * `)`.
   */
  function MatchCall(s: string, name: string): (r: Option<CallMatch>)
    requires name != []
    ensures r.Some? ==> StartsWith(s, name) && |name| < r.value.end <= |s| && s[r.value.end - 1] == ')'
    ensures r.Some? ==> r.value.first != [] && ',' !in r.value.first
    ensures r.Some? && r.value.second.Some? ==> r.value.second.value != [] && ')' !in r.value.second.value
  {
    if !StartsWith(s, name) then None
    else
      var tail := s[|name|..];
      var k := AmountLength(tail);
      if k == 0 then None
      else if k < |tail| && RateMatch(tail[k + 1..]).Some? then
        var rate := RateMatch(tail[k + 1..]).value;
        assert s[|name| + k + 1 + rate.1 - 1] == tail[k + 1..][rate.1 - 1];
        Some(CallMatch(tail[..k], Some(rate.0), |name| + k + 1 + rate.1))
      else if ')' in tail[1..k] then
        var p := 1 + LastIndexOfChar(tail[1..k], ')');
        assert tail[..p] == tail[..k][..p];
        assert s[|name| + p] == tail[1..k][p - 1];
        Some(CallMatch(tail[..p], None, |name| + p + 1))
      else None
  }

  /**
   * The callback's template: `(amount * rate)` or `(brutto / (1 + rate))`,
   * the rate defaulting to `0.2`. The replacement is parenthesised and opens
   * with the amount as matched.
   */
  function Render(call: Call, m: CallMatch): (r: string)
    ensures |r| > |m.first| + 1 && r[0] == '(' && r[|r| - 1] == ')'
    ensures r[1..|m.first| + 1] == m.first
  {
    var rate := if m.second.Some? then m.second.value else "0.2";
    match call
    case Vat => "(" + m.first + " * " + rate + ")"
    case Netto => "(" + m.first + " / (1 + " + rate + "))"
  }

  /**
   * `expression.replace(/NAME\(...\)/g, callback)`: matches from left to
   * right, not overlapping. Text without the call's name is not rewritten.
   */
  function Rewrite(s: string, call: Call): (r: string)
    ensures !HasSubstring(s, CallName(call)) ==> r == s
    decreases |s|
  {
    if s == [] then []
    else
      match MatchCall(s, CallName(call))
      case Some(m) => Render(call, m) + Rewrite(s[m.end..], call)
      case None =>
        assert s == [s[0]] + s[1..];
        [s[0]] + Rewrite(s[1..], call)
  }

  /** `if (text.includes('VAT(')) text = replaceVATFunction(text)`, and likewise for `NETTO(`. */
  function RewriteIfPresent(s: string, call: Call): (r: string)
    ensures r == Rewrite(s, call)
  {
    if HasSubstring(s, CallName(call)) then Rewrite(s, call) else s
  }

  /** The names of both calls are free of commas. */
  lemma CallNameChars(call: Call)
    ensures ',' !in CallName(call) && ')' !in CallName(call)
  {
  }

  /** A call with one argument and no comma or `)` after it matches up to its own `)`. */
  lemma MatchWithoutRate(name: string, a: string, rest: string)
    requires name != [] && a != [] && ',' !in a
    requires ',' !in rest && ')' !in rest
    ensures MatchCall(name + a + ")" + rest, name) == Some(CallMatch(a, None, |name| + |a| + 1))
  {
    var tail := a + ")" + rest;
    var s := name + a + ")" + rest;
    assert s == name + tail;
    TailWithoutRate(a, rest);
    MatchLastParenCase(s, name, tail, |a|);
  }

  /** The facts about `a)rest` that decide the match without a rate. */
  lemma TailWithoutRate(a: string, rest: string)
    requires a != [] && ',' !in a
    requires ',' !in rest && ')' !in rest
    ensures var tail := a + ")" + rest;
      AmountLength(tail) == |tail| && ')' in tail[1..]
      && 1 + LastIndexOfChar(tail[1..], ')') == |a| && tail[..|a|] == a
  {
    var tail := a + ")" + rest;
    assert ',' !in tail;
    var t1 := tail[1..];
    assert t1 == a[1..] + ")" + rest;
    assert t1[|a| - 1] == ')';
    assert t1[|a|..] == rest;
    LastIndexOfCharAt(t1, ')', |a| - 1);
    assert tail[..|a|] == a;
  }

  /** The case of `MatchCall` where no comma follows and the first group ends before its last `)`. */
  lemma MatchLastParenCase(s: string, name: string, tail: string, p: nat)
    requires name != [] && tail != [] && s == name + tail
    requires AmountLength(tail) == |tail|
    requires ')' in tail[1..] && 1 + LastIndexOfChar(tail[1..], ')') == p
    ensures MatchCall(s, name) == Some(CallMatch(tail[..p], None, |name| + p + 1))
  {
    assert s[..|name|] == name;
    assert s[|name|..] == tail;
    assert tail[1..] == tail[1..|tail|];
  }

  /** After the comma: white space, a rate without `)` that does not start with white space, then `)`. */
  lemma RateAfterSpaces(after: string, sp: string, r: string, rest: string)
    requires after == sp + r + ")" + rest && AllSpace(sp)
    requires r != [] && ')' !in r && !IsSpace(r[0])
    ensures RateMatch(after) == Some((r, |sp| + |r| + 1))
  {
    RateParen(sp, r, rest);
    RateSpaces(sp, r, rest);
    RateSlice(sp, r, rest);
    RateMatchAt(after, |sp| + |r|, |sp|);
  }

  /** The first `)` after the comma is the one closing the rate. */
  lemma RateParen(sp: string, r: string, rest: string)
    requires AllSpace(sp) && ')' !in r
    ensures var after := sp + r + ")" + rest;
      ')' in after && IndexOfChar(after, ')') == |sp| + |r|
  {
    var pre := sp + r;
    var after := sp + r + ")" + rest;
    assert after == pre + ([')'] + rest);
    assert ')' !in pre by {
      forall i | 0 <= i < |sp| ensures sp[i] != ')' { assert IsSpace(sp[i]); }
    }
    assert after[..|pre|] == pre && after[|pre|] == ')';
    IndexOfCharAt(after, ')', |pre|);
  }

  /** The white space skipped after the comma is `sp`. */
  lemma RateSpaces(sp: string, r: string, rest: string)
    requires AllSpace(sp) && r != [] && !IsSpace(r[0])
    ensures var after := sp + r + ")" + rest;
      |after| - |TrimStart(after)| == |sp|
  {
    var after := sp + r + ")" + rest;
    assert after == sp + (r + ")" + rest);
    SpacePrefix(sp, r + ")" + rest);
  }

  /** Between the white space and the `)` lies the rate. */
  lemma RateSlice(sp: string, r: string, rest: string)
    ensures var after := sp + r + ")" + rest;
      after[..|sp| + |r|][|sp|..] == r
  {
    var after := sp + r + ")" + rest;
    assert after[..|sp| + |r|] == sp + r;
  }

  /** The rate when the first `)` is at `q` and the white space before it is `spaces` long. */
  lemma RateMatchAt(after: string, q: nat, spaces: nat)
    requires ')' in after && IndexOfChar(after, ')') == q
    requires |after| - |TrimStart(after)| == spaces < q
    ensures RateMatch(after) == Some((after[..q][spaces..], q + 1))
  {
  }

  /** The case of `MatchCall` where a rate follows the first comma. */
  lemma MatchRateCase(s: string, name: string, k: nat, rate: string, len: nat)
    requires name != [] && StartsWith(s, name)
    requires 0 < k < |s| - |name| && AmountLength(s[|name|..]) == k
    requires RateMatch(s[|name|..][k + 1..]) == Some((rate, len))
    ensures MatchCall(s, name).Some?
    ensures MatchCall(s, name).value.first == s[|name|..][..k]
    ensures MatchCall(s, name).value.second == Some(rate)
    ensures MatchCall(s, name).value.end == |name| + k + 1 + len
  {
  }

  /** The amount of `a,after` is `a` when `a` has no comma. */
  lemma AmountBeforeComma(a: string, after: string)
    requires ',' !in a
    ensures AmountLength(a + ([','] + after)) == |a|
  {
    var tail := a + ([','] + after);
    assert tail[..|a|] == a;
    IndexOfCharAt(tail, ',', |a|);
  }

  /** A call with a rate matches up to the `)` after the rate. */
  lemma MatchWithRate(s: string, name: string, a: string, after: string, rate: string, len: nat)
    requires s == name + (a + ([','] + after))
    requires name != [] && a != [] && ',' !in a
    requires RateMatch(after) == Some((rate, len))
    ensures MatchCall(s, name) == Some(CallMatch(a, Some(rate), |name| + |a| + 1 + len))
  {
    var tail := a + ([','] + after);
    assert s[..|name|] == name;
    assert s[|name|..] == tail;
    AmountBeforeComma(a, after);
    assert tail[..|a|] == a;
    assert tail[|a| + 1..] == after;
    MatchRateCase(s, name, |a|, rate, len);
    var m := MatchCall(s, name).value;
    assert m == CallMatch(a, Some(rate), |name| + |a| + 1 + len);
  }

  /**
   * A call with one argument and no comma or `)` after it becomes the
   * argument times the default rate, `(a * 0.2)` or `(a / (1 + 0.2))`.
   */
  lemma CallWithDefaultRate(call: Call, a: string, rest: string)
    requires a != [] && ',' !in a
    requires ',' !in rest && ')' !in rest
    ensures Rewrite(CallName(call) + a + ")" + rest, call)
      == Render(call, CallMatch(a, None, 0)) + Rewrite(rest, call)
  {
    var s := CallName(call) + a + ")" + rest;
    MatchWithoutRate(CallName(call), a, rest);
    assert s[|CallName(call)| + |a| + 1..] == rest;
  }

  /** A text that starts with a match is rewritten from the end of the match on. */
  lemma RewriteMatched(s: string, call: Call, m: CallMatch)
    requires MatchCall(s, CallName(call)) == Some(m)
    ensures Rewrite(s, call) == Render(call, m) + Rewrite(s[m.end..], call)
  {
  }

  /**
   * A call with an explicit rate, `NAME(a, r)`, becomes `(a * r)` or
   * `(a / (1 + r))`; the white space after the comma is dropped.
   */
  lemma CallWithRate(call: Call, a: string, sp: string, r: string, rest: string)
    requires a != [] && ',' !in a
    requires AllSpace(sp)
    requires r != [] && ')' !in r && !IsSpace(r[0])
    ensures Rewrite(CallName(call) + a + "," + sp + r + ")" + rest, call)
      == Render(call, CallMatch(a, Some(r), 0)) + Rewrite(rest, call)
  {
    var name := CallName(call);
    var s := name + a + "," + sp + r + ")" + rest;
    var m := CallMatch(a, Some(r), |name| + |a| + |sp| + |r| + 2);
    SpacedRateText(s, name, a, sp, r, rest);
    MatchWithSpacedRate(s, name, a, sp, r, rest);
    RewriteAt(s, call, m, rest);
  }

  /** `NAME(a, r)` followed by `rest` matches up to the `)` after the rate. */
  lemma MatchWithSpacedRate(s: string, name: string, a: string, sp: string, r: string, rest: string)
    requires s == name + (a + ([','] + (sp + r + ")" + rest)))
    requires name != [] && a != [] && ',' !in a
    requires AllSpace(sp)
    requires r != [] && ')' !in r && !IsSpace(r[0])
    ensures MatchCall(s, name) == Some(CallMatch(a, Some(r), |name| + |a| + |sp| + |r| + 2))
  {
    var after := sp + r + ")" + rest;
    var len := |sp| + |r| + 1;
    assert |name| + |a| + 1 + len == |name| + |a| + |sp| + |r| + 2;
    RateAfterSpaces(after, sp, r, rest);
    MatchWithRate(s, name, a, after, r, len);
    var m := CallMatch(a, Some(r), |name| + |a| + 1 + len);
    assert MatchCall(s, name) == Some(m);
    assert m == CallMatch(a, Some(r), |name| + |a| + |sp| + |r| + 2);
  }

  /** The text of `NAME(a, r)rest` split at the comma, and what follows the call. */
  lemma SpacedRateText(s: string, name: string, a: string, sp: string, r: string, rest: string)
    requires s == name + a + "," + sp + r + ")" + rest
    ensures s == name + (a + ([','] + (sp + r + ")" + rest)))
    ensures s[|name| + |a| + |sp| + |r| + 2..] == rest
  {
  }

  /** A text that starts with a match and goes on with `rest` is the rendered match followed by the rewritten rest. */
  lemma RewriteAt(s: string, call: Call, m: CallMatch, rest: string)
    requires MatchCall(s, CallName(call)) == Some(m) && s[m.end..] == rest
    ensures Rewrite(s, call) == Render(call, CallMatch(m.first, m.second, 0)) + Rewrite(rest, call)
  {
    RewriteMatched(s, call, m);
  }

  /** White space followed by a non-space character: `TrimStart` removes exactly the white space. */
  lemma {:induction false} SpacePrefix(sp: string, t: string)
    requires AllSpace(sp) && t != [] && !IsSpace(t[0])
    ensures TrimStart(sp + t) == t
    decreases |sp|
  {
    var u := sp + t;
    if sp != [] {
      assert u[0] == sp[0] && IsSpace(sp[0]);
      assert TrimStart(u) == TrimStart(u[1..]);
      assert u[1..] == sp[1..] + t;
      assert AllSpace(sp[1..]) by {
        forall i | 0 <= i < |sp| - 1 ensures IsSpace(sp[1..][i]) { assert sp[1..][i] == sp[i + 1]; }
      }
      SpacePrefix(sp[1..], t);
    } else {
      assert u == t;
    }
  }

  /**
   * The first group of a call runs up to the first comma of the whole
   * text, so a call without a rate followed by one with a rate is taken as
   * a single call whose amount spans both: `VAT(a)bVAT(c, r)` does not become
   * `(a * 0.2)b(c * r)` but `(a)bVAT(c * r)`.
   */
  lemma CallSpansNextCall(call: Call, a: string, b: string, r: string)
    requires a != [] && ',' !in a && ',' !in b
    requires r != [] && ')' !in r && !IsSpace(r[0])
    ensures var name := CallName(call);
      Rewrite(name + a + ")" + b + name + "," + r + ")", call)
      == Render(call, CallMatch(a + ")" + b + name, Some(r), 0))
  {
    var name := CallName(call);
    var spanned := a + ")" + b + name;
    assert ',' !in name;
    assert ',' !in spanned;
    var empty: string := [];
    assert name + a + ")" + b + name + "," + r + ")" == name + spanned + "," + empty + r + ")" + empty;
    CallWithRate(call, spanned, empty, r, empty);
  }

  /** `.replace(/[^0-9+\-*\/().,%\s]/g, '')`: the characters the sanitiser keeps. */
  function KeepArith(s: string): (r: string)
    ensures forall i :: 0 <= i < |r| ==> IsArithChar(r[i])
    ensures (forall i :: 0 <= i < |s| ==> IsArithChar(s[i])) ==> r == s
  {
    if s == [] then []
    else
      var rest := KeepArith(s[1..]);
      assert s == [s[0]] + s[1..];
      if IsArithChar(s[0]) then [s[0]] + rest else rest
  }

  /** Trimming text of arithmetic characters leaves arithmetic characters. */
  lemma TrimArith(s: string)
    requires forall i :: 0 <= i < |s| ==> IsArithChar(s[i])
    ensures forall i :: 0 <= i < |Trim(s)| ==> IsArithChar(Trim(s)[i])
  {
    TrimSlice(s);
    var k := |s| - |TrimStart(s)|;
    var t := Trim(s);
    forall i | 0 <= i < |t| ensures IsArithChar(t[i]) {
      assert t[i] == s[k + i];
    }
  }

  /** The sanitiser of `safeEval`: drop every other character, then trim. */
  function Sanitize(s: string): (r: string)
    ensures forall i :: 0 <= i < |r| ==> IsArithChar(r[i])
    ensures r == [] || (!IsSpace(r[0]) && !IsSpace(r[|r| - 1]))
  {
    var kept := KeepArith(s);
    TrimArith(kept);
    TrimEnds(kept);
    Trim(kept)
  }

  /** Sanitising twice is sanitising once. */
  lemma SanitizeIdempotent(s: string)
    ensures Sanitize(Sanitize(s)) == Sanitize(s)
  {
    var t := Sanitize(s);
    assert KeepArith(t) == t;
    TrimmedIsFixed(t);
  }

  /** Text made of kept characters with no white space at its ends passes the sanitiser unchanged. */
  lemma SanitizeKeeps(s: string)
    requires forall i :: 0 <= i < |s| ==> IsArithChar(s[i])
    requires s == [] || (!IsSpace(s[0]) && !IsSpace(s[|s| - 1]))
    ensures Sanitize(s) == s
  {
    TrimmedIsFixed(s);
  }

  const EvaluationError: string := "#ERROR: Unable to evaluate expression"

  /**
   * `safeEval`: the sanitised text evaluated, `undefined` for an empty
   * text; when evaluation throws, `fallbackEval` throws
   * `Unable to evaluate expression` on the same text.
   */
  function SafeValue(expression: string): (v: CellValue)
    ensures v.Num? || v.Empty? || v == Text(EvaluationError)
  {
    match EvaluateArithmetic(Sanitize(expression))
    case Ok(Some(n)) => Num(n)
    case Ok(None) => Empty
    case Err(_) => Text(EvaluationError)
  }

  /** Every extracted reference has at least one letter. */
  lemma BoundedRefsNonEmpty(expression: string)
    ensures NonEmptyRefs(ExtractBoundedRefs(expression))
  {
    var refs := ExtractBoundedRefs(expression);
    forall k | 0 <= k < |refs| ensures refs[k] != [] {
      assert refs[k] in refs;
      var j :| SplitsAt(refs[k], j) && j <= 3 && |refs[k]| - j <= 5;
    }
  }

  /**
   * The expression once references are substituted and both calls
   * rewritten: with no reference defined in the context and neither call
   * present, it is the expression itself.
   */
  function RewrittenExpression(expression: string, ctx: Context): (r: string)
    ensures (forall x :: x in ExtractBoundedRefs(expression) ==> !Defined(ctx, x))
      && !HasSubstring(expression, CallName(Vat)) && !HasSubstring(expression, CallName(Netto))
      ==> r == expression
  {
    var refs := ExtractBoundedRefs(expression);
    BoundedRefsNonEmpty(expression);
    var substituted := SubstitutedRefs(expression, refs, ctx);
    var rewritten := RewriteIfPresent(RewriteIfPresent(substituted, Vat), Netto);
    if forall x :: x in refs ==> !Defined(ctx, x) then
      SubstitutedUndefined(expression, refs, ctx);
      rewritten
    else rewritten
  }

  /**
   * `FormulaParser.evaluate(formula, context)`: text not starting with `=`
   * is returned as it is; otherwise the result is a number, `undefined`
   * (nothing left to evaluate), or the error text.
   */
  function EvaluateValue(formula: string, ctx: Context): (v: CellValue)
    ensures !StartsWith(formula, "=") ==> v == Text(formula)
    ensures StartsWith(formula, "=") ==> v.Num? || v.Empty? || v == Text(EvaluationError)
  {
    if !StartsWith(formula, "=") then Text(formula)
    else SafeValue(RewrittenExpression(Trim(formula[1..]), ctx))
  }

  method Evaluate(formula: string, ctx: Context) returns (v: CellValue)
    ensures v == EvaluateValue(formula, ctx)
  {
    if !StartsWith(formula, "=") {
      return Text(formula);
    }
    var expression := Trim(formula[1..]);
    var refs := ExtractBoundedRefs(expression);
    BoundedRefsNonEmpty(expression);
    var text := SubstituteReferences(expression, refs, ctx);
    ghost var substituted := text;
    if HasSubstring(text, CallName(Vat)) {
      text := Rewrite(text, Vat);
    }
    ghost var vat := text;
    if HasSubstring(text, CallName(Netto)) {
      text := Rewrite(text, Netto);
    }
    assert text == Rewrite(vat, Netto) && vat == Rewrite(substituted, Vat);
    v := SafeValue(text);
  }

  /** `isFormula(value)`: a string that starts with `=`. */
  predicate IsFormula(value: CellValue) {
    value.Text? && StartsWith(value.s, "=")
  }

  /** The error text is not itself a formula. */
  lemma ErrorIsNotFormula()
    ensures !StartsWith(EvaluationError, "=")
  {
    assert EvaluationError[0] == '#';
  }

  /** Exactly the strings that are not formulas come back from `evaluate` unchanged. */
  lemma IsFormulaDecidesPassthrough(s: string, ctx: Context)
    ensures !IsFormula(Text(s)) <==> EvaluateValue(s, ctx) == Text(s)
  {
    ErrorIsNotFormula();
    assert StartsWith(s, "=") ==> s != EvaluationError;
  }

  /** Text without capital letters has no references to substitute. */
  lemma NoLettersNoBoundedRefs(t: string)
    requires forall i :: 0 <= i < |t| ==> !IsUpper(t[i])
    ensures ExtractBoundedRefs(t) == []
  {
    var refs := ExtractBoundedRefs(t);
    if refs != [] {
      ExtractBoundedRefsExact(t, refs[0]);
    }
  }

  /** Text without capital letters contains neither call. */
  lemma NoLettersNoCall(t: string, call: Call)
    requires forall i :: 0 <= i < |t| ==> !IsUpper(t[i])
    ensures !HasSubstring(t, CallName(call))
  {
    var c := CallName(call)[0];
    assert IsUpper(c);
    CharSubstring(t, c);
    if HasSubstring(t, CallName(call)) {
      SubstringPrefix(t, CallName(call), [c]);
      assert false;
    }
  }

  /** Text without capital letters is left as it is by the substitution and both rewrites. */
  lemma NoLettersRewritten(e: string, ctx: Context)
    requires forall i :: 0 <= i < |e| ==> !IsUpper(e[i])
    ensures RewrittenExpression(e, ctx) == e
  {
    NoLettersNoBoundedRefs(e);
    BoundedRefsNonEmpty(e);
    assert SubstitutedRefs(e, ExtractBoundedRefs(e), ctx) == e;
    NoLettersNoCall(e, Vat);
    NoLettersNoCall(e, Netto);
  }

  /** Trimming text of arithmetic characters leaves arithmetic characters and no capitals. */
  lemma TrimmedArithmetic(t: string)
    requires forall i :: 0 <= i < |t| ==> IsArithChar(t[i])
    ensures forall i :: 0 <= i < |Trim(t)| ==> IsArithChar(Trim(t)[i]) && !IsUpper(Trim(t)[i])
  {
    var e := Trim(t);
    TrimArith(t);
    forall i | 0 <= i < |e| ensures !IsUpper(e[i]) {
      assert IsArithChar(e[i]);
    }
  }

  /** Trimmed text of arithmetic characters passes the sanitiser unchanged. */
  lemma TrimmedSanitized(t: string)
    requires forall i :: 0 <= i < |t| ==> IsArithChar(t[i])
    ensures Sanitize(Trim(t)) == Trim(t)
  {
    var e := Trim(t);
    TrimArith(t);
    TrimEnds(t);
    SanitizeKeeps(e);
  }

  /**
   * A formula whose expression consists of arithmetic characters only is
   * evaluated on its trimmed text: its value, `undefined`, or the error
   * text. The context plays no part.
   */
  lemma LiteralArithmeticValue(t: string, ctx: Context)
    requires forall i :: 0 <= i < |t| ==> IsArithChar(t[i])
    ensures var outcome := EvaluateArithmetic(Trim(t));
      && (outcome.Ok? && outcome.value.Some? ==> EvaluateValue("=" + t, ctx) == Num(outcome.value.value))
      && (outcome.Ok? && outcome.value.None? ==> EvaluateValue("=" + t, ctx) == Empty)
      && (outcome.Err? ==> EvaluateValue("=" + t, ctx) == Text(EvaluationError))
  {
    var formula := "=" + t;
    assert StartsWith(formula, "=");
    assert formula[1..] == t;
    TrimmedArithmetic(t);
    TrimmedSanitized(t);
    NoLettersRewritten(Trim(t), ctx);
    assert EvaluateValue(formula, ctx) == SafeValue(Trim(t));
  }

  /** `=a<op>b` on two naturals gives the operator's value, or the error text when it throws. */
  lemma BinaryValue(a: nat, op: char, b: nat, ctx: Context)
    requires op == '+' || op == '-' || op == '*' || op == '/' || op == '%'
    ensures Apply(op, a as real, b as real).Ok? ==>
      EvaluateValue("=" + (DecimalText(a) + ([op] + DecimalText(b))), ctx) == Num(Apply(op, a as real, b as real).value)
    ensures Apply(op, a as real, b as real).Err? ==>
      EvaluateValue("=" + (DecimalText(a) + ([op] + DecimalText(b))), ctx) == Text(EvaluationError)
  {
    var da, db := DecimalText(a), DecimalText(b);
    var t := da + ([op] + db);
    forall i | 0 <= i < |t| ensures IsDigit(t[i]) || t[i] == op {
      if i < |da| {
        assert t[i] == da[i];
      } else if i > |da| {
        assert t[i] == db[i - |da| - 1];
      }
    }
    assert !IsSpace(t[0]) && !IsSpace(t[|t| - 1]);
    TrimmedIsFixed(t);
    LiteralArithmeticValue(t, ctx);
    BinaryTextEvaluates(a, op, b);
  }

  /** `=010+1` is nine, the leading zero making `010` octal; `=01.5` is the error text. */
  lemma OctalValues(ctx: Context)
    ensures EvaluateValue("=" + "010+1", ctx) == Num(9.0)
    ensures EvaluateValue("=" + "01.5", ctx) == Text(EvaluationError)
  {
    var t, u := "010+1", "01.5";
    assert forall i :: 0 <= i < |t| ==> IsArithChar(t[i]);
    assert forall i :: 0 <= i < |u| ==> IsArithChar(u[i]);
    TrimmedIsFixed(t);
    TrimmedIsFixed(u);
    LiteralArithmeticValue(t, ctx);
    LiteralArithmeticValue(u, ctx);
    OctalSumExample();
    OctalPointExample();
  }

  /**
   * `getFormulaDependencies(formula)`: the distinct references of the
   * bounded shape that occur as whole words, in order of first appearance.
   */
  function FormulaDependencies(formula: string): (deps: seq<string>)
    ensures forall i, j :: 0 <= i < j < |deps| ==> deps[i] != deps[j]
    ensures forall r :: r in deps <==> IsBoundedRef(r) && exists k :: IsWordAt(formula, k, r)
  {
    var deps := ExtractBoundedRefs(formula);
    forall r
      ensures r in deps <==> IsBoundedRef(r) && exists k :: IsWordAt(formula, k, r)
    {
      ExtractBoundedRefsExact(formula, r);
    }
    deps
  }
}
