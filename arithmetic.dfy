/**
 * The arithmetic evaluator that stands in for `new Function('return ' + text)()`
 * and `eval(text)`. Executing text as JavaScript is replaced by an explicit
 * evaluator over real numbers for this grammar:
 *
 *   sequence       ::= additive ("," additive)*            (comma operator: last value)
 *   additive       ::= multiplicative (("+" | "-") multiplicative)*
 *   multiplicative ::= unary (("*" | "/" | "%") unary)*
 *   unary          ::= ("+" | "-") unary | primary
 *   primary        ::= number | "(" sequence ")"
 *   number         ::= digits ["." digits?] | "." digits
 *
 * with white space between tokens. As in sloppy-mode JavaScript, a run of
 * two or more digits that starts with `0` and holds only the digits 0-7 is
 * a legacy octal literal (`010` is eight) and cannot take a fraction
 * (`01.5` is an error); a `0`-led run with an 8 or a 9 is decimal. A line
 * break in the white space before the first token ends the `return`
 * statement there, so the program returns `undefined`.
 * Everything else is an error, including
 * the JavaScript tokens `++`, `--`, `**`, and the comment openers `//` and slash-star that the
 * characters above could spell, identifiers and string literals. An empty
 * program returns `undefined` (None). Division or remainder by zero, which
 * JavaScript answers with Infinity or NaN, is an error here.
 */
module Arithmetic {
  import opened Text
  import opened Wrappers

  datatype Token = NumTok(v: real) | Op(c: char) | LParen | RParen | Comma

  datatype Parsed = Parsed(value: real, rest: seq<Token>)

  /** The characters the grammar is written in. */
  predicate IsArithChar(c: char) {
    IsDigit(c) || c == '.' || c == '+' || c == '-' || c == '*' || c == '/' || c == '%'
    || c == '(' || c == ')' || c == ',' || IsSpace(c)
  }

  function Pow10(n: nat): (p: real)
    ensures p >= 1.0
  {
    if n == 0 then 1.0 else 10.0 * Pow10(n - 1)
  }

  /** The length of the run of digits at the start of `s`. */
  function DigitRunLength(s: string): (n: nat)
    ensures n <= |s|
    ensures forall i :: 0 <= i < n ==> IsDigit(s[i])
    ensures n < |s| ==> !IsDigit(s[n])
  {
    if s == [] || !IsDigit(s[0]) then 0 else 1 + DigitRunLength(s[1..])
  }

  predicate StartsNumber(s: string) {
    s != [] && (IsDigit(s[0]) || (s[0] == '.' && |s| > 1 && IsDigit(s[1])))
  }

  predicate IsOctalDigit(c: char) { '0' <= c <= '7' }

  /** A legacy octal literal of sloppy mode: `0` followed by one or more octal digits. */
  predicate IsLegacyOctal(d: string) {
    |d| >= 2 && d[0] == '0' && forall i :: 0 <= i < |d| ==> IsOctalDigit(d[i])
  }

  /** The base-8 value of a run of octal digits. */
  function OctalValue(d: string): (n: nat)
    requires forall i :: 0 <= i < |d| ==> IsOctalDigit(d[i])
  {
    if d == [] then 0
    else
      assert IsOctalDigit(d[|d| - 1]);
      OctalValue(d[..|d| - 1]) * 8 + DigitValue(d[|d| - 1]) as nat
  }

  /** A legacy octal literal followed by `.`: the number after it is a syntax error. */
  predicate OctalThenPoint(s: string) {
    var n := DigitRunLength(s);
    IsLegacyOctal(s[..n]) && n < |s| && s[n] == '.'
  }

  /** A numeric literal at the start of `s`: its value and its length. */
  function LexNumber(s: string): (r: (real, nat))
    requires StartsNumber(s)
    ensures 0 < r.1 <= |s|
    ensures forall i :: 0 <= i < r.1 ==> IsDigit(s[i]) || s[i] == '.'
  {
    var intLen := DigitRunLength(s);
    var intPart := DigitsValue(s[..intLen]);
    if IsLegacyOctal(s[..intLen]) then
      (OctalValue(s[..intLen]) as real, intLen)
    else if intLen < |s| && s[intLen] == '.' then
      var tail := s[intLen + 1..];
      var fracLen := DigitRunLength(tail);
      assert forall i :: intLen + 1 <= i < intLen + 1 + fracLen ==> s[i] == tail[i - intLen - 1];
      (intPart as real + DigitsValue(tail[..fracLen]) as real / Pow10(fracLen), intLen + 1 + fracLen)
    else
      (intPart as real, intLen)
  }

  function Tokenize(s: string): (r: Result<seq<Token>>)
    decreases |s|
  {
    if s == [] then Ok([])
    else
      var c := s[0];
      if IsSpace(c) then Tokenize(s[1..])
      else if StartsNumber(s) && OctalThenPoint(s) then
        Err("SyntaxError: Unexpected number")
      else if StartsNumber(s) then
        var lexed := LexNumber(s);
        var rest :- Tokenize(s[lexed.1..]);
        Ok([NumTok(lexed.0)] + rest)
      else if (c == '+' || c == '-') && |s| > 1 && s[1] == c then
        Err("SyntaxError: Invalid left-hand side expression in prefix operation")
      else if c == '*' && |s| > 1 && s[1] == '*' then
        Err("SyntaxError: exponentiation is outside the grammar")
      else if c == '/' && |s| > 1 && (s[1] == '/' || s[1] == '*') then
        Err("SyntaxError: comments are outside the grammar")
      else if c == '+' || c == '-' || c == '*' || c == '/' || c == '%' then
        var rest :- Tokenize(s[1..]);
        Ok([Op(c)] + rest)
      else if c == '(' then
        var rest :- Tokenize(s[1..]);
        Ok([LParen] + rest)
      else if c == ')' then
        var rest :- Tokenize(s[1..]);
        Ok([RParen] + rest)
      else if c == ',' then
        var rest :- Tokenize(s[1..]);
        Ok([Comma] + rest)
      else
        Err("SyntaxError: Unexpected token")
  }

  /** A prefix and the suffix after it, both of grammar characters, make up such a string. */
  lemma AllowedJoin(s: string, n: nat)
    requires n <= |s|
    requires forall i :: 0 <= i < n ==> IsArithChar(s[i])
    requires forall i :: 0 <= i < |s| - n ==> IsArithChar(s[n..][i])
    ensures forall i :: 0 <= i < |s| ==> IsArithChar(s[i])
  {
    forall i | n <= i < |s| ensures IsArithChar(s[i]) {
      assert s[i] == s[n..][i - n];
    }
  }

  /** Whatever the tokenizer accepts is written in the characters of the grammar alone. */
  lemma {:induction false} TokenizeAllowed(s: string)
    requires Tokenize(s).Ok?
    ensures forall i :: 0 <= i < |s| ==> IsArithChar(s[i])
    decreases |s|
  {
    if s != [] {
      if IsSpace(s[0]) {
        TokenizeAllowed(s[1..]);
        AllowedJoin(s, 1);
      } else if StartsNumber(s) {
        var n := LexNumber(s).1;
        TokenizeAllowed(s[n..]);
        AllowedJoin(s, n);
      } else {
        TokenizeAllowed(s[1..]);
        AllowedJoin(s, 1);
      }
    }
  }

  /** Truncation toward zero, as `Math.trunc`. */
  function Trunc(q: real): (t: int)
    ensures q >= 0.0 ==> 0.0 <= q - t as real < 1.0
    ensures q < 0.0 ==> -1.0 < q - t as real <= 0.0
  {
    if q >= 0.0 then q.Floor else -((-q).Floor)
  }

  /** JavaScript's `%` on numbers: the remainder of the quotient truncated toward zero. */
  function Remainder(a: real, b: real): real
    requires b != 0.0
  {
    a - b * Trunc(a / b) as real
  }

  /** A binary operator of the grammar applied to two numbers, or the error it raises. */
  function Apply(op: char, x: real, y: real): Result<real>
    requires op == '+' || op == '-' || op == '*' || op == '/' || op == '%'
  {
    if op == '+' then Ok(x + y)
    else if op == '-' then Ok(x - y)
    else if op == '*' then Ok(x * y)
    else if y == 0.0 then Err("non-finite result: division by zero")
    else if op == '/' then Ok(x / y)
    else Ok(Remainder(x, y))
  }

  function ParseSequence(ts: seq<Token>): (r: Result<Parsed>)
    ensures r.Ok? ==> |r.value.rest| < |ts|
    decreases |ts|, 5
  {
    var first :- ParseAdditive(ts);
    SequenceRest(first.value, first.rest)
  }

  function SequenceRest(acc: real, ts: seq<Token>): (r: Result<Parsed>)
    ensures r.Ok? ==> |r.value.rest| <= |ts|
    decreases |ts|, 5
  {
    if ts != [] && ts[0] == Comma then
      var next :- ParseAdditive(ts[1..]);
      SequenceRest(next.value, next.rest)
    else
      Ok(Parsed(acc, ts))
  }

  function ParseAdditive(ts: seq<Token>): (r: Result<Parsed>)
    ensures r.Ok? ==> |r.value.rest| < |ts|
    decreases |ts|, 4
  {
    var first :- ParseMultiplicative(ts);
    AdditiveRest(first.value, first.rest)
  }

  function AdditiveRest(acc: real, ts: seq<Token>): (r: Result<Parsed>)
    ensures r.Ok? ==> |r.value.rest| <= |ts|
    decreases |ts|, 4
  {
    if ts != [] && (ts[0] == Op('+') || ts[0] == Op('-')) then
      var next :- ParseMultiplicative(ts[1..]);
      var v :- Apply(ts[0].c, acc, next.value);
      AdditiveRest(v, next.rest)
    else
      Ok(Parsed(acc, ts))
  }

  function ParseMultiplicative(ts: seq<Token>): (r: Result<Parsed>)
    ensures r.Ok? ==> |r.value.rest| < |ts|
    decreases |ts|, 3
  {
    var first :- ParseUnary(ts);
    MultiplicativeRest(first.value, first.rest)
  }

  function MultiplicativeRest(acc: real, ts: seq<Token>): (r: Result<Parsed>)
    ensures r.Ok? ==> |r.value.rest| <= |ts|
    decreases |ts|, 3
  {
    if ts != [] && (ts[0] == Op('*') || ts[0] == Op('/') || ts[0] == Op('%')) then
      var next :- ParseUnary(ts[1..]);
      var v :- Apply(ts[0].c, acc, next.value);
      MultiplicativeRest(v, next.rest)
    else
      Ok(Parsed(acc, ts))
  }

  function ParseUnary(ts: seq<Token>): (r: Result<Parsed>)
    ensures r.Ok? ==> |r.value.rest| < |ts|
    decreases |ts|, 2
  {
    if ts != [] && ts[0] == Op('+') then
      ParseUnary(ts[1..])
    else if ts != [] && ts[0] == Op('-') then
      var operand :- ParseUnary(ts[1..]);
      Ok(Parsed(-operand.value, operand.rest))
    else
      ParsePrimary(ts)
  }

  function ParsePrimary(ts: seq<Token>): (r: Result<Parsed>)
    ensures r.Ok? ==> |r.value.rest| < |ts|
    decreases |ts|, 1
  {
    if ts == [] then Err("SyntaxError: Unexpected end of input")
    else match ts[0]
      case NumTok(v) => Ok(Parsed(v, ts[1..]))
      case LParen =>
        var inner :- ParseSequence(ts[1..]);
        if inner.rest != [] && inner.rest[0] == RParen then Ok(Parsed(inner.value, inner.rest[1..]))
        else Err("SyntaxError: missing ) in parenthetical")
      case _ => Err("SyntaxError: Unexpected token")
  }

  /** The JavaScript line terminators: LF, CR, LS and PS. */
  predicate IsLineTerminator(c: char) {
    c == '\n' || c == '\r' || c == '\U{2028}' || c == '\U{2029}'
  }

  /** The white space at the start of `s` holds a line terminator. */
  predicate LeadingBreak(s: string)
    decreases |s|
  {
    s != [] && IsSpace(s[0]) && (IsLineTerminator(s[0]) || LeadingBreak(s[1..]))
  }

  /**
   * `new Function('return ' + text)()` over the grammar: the value of the
   * expression, None when the program is empty (`return;`) or when a line
   * break right after `return` ends the statement, or the error that would
   * have been thrown.
   */
  function EvaluateArithmetic(text: string): (r: Result<Option<real>>)
    ensures r.Ok? ==> forall i :: 0 <= i < |text| ==> IsArithChar(text[i])
  {
    var ts :- Tokenize(text);
    TokenizeAllowed(text);
    if ts == [] then Ok(None)
    else
      var p :- ParseSequence(ts);
      if p.rest != [] then Err("SyntaxError: Unexpected token")
      else if LeadingBreak(text) then Ok(None)
      else Ok(Some(p.value))
  }

  /** `number.toString()`: an optional minus sign, the integer digits and the fraction digits. */
  function NumberText(v: real): string {
    if v < 0.0 then "-" + MagnitudeText(-v) else MagnitudeText(v)
  }

  function MagnitudeText(v: real): string
    requires v >= 0.0
  {
    var whole := v.Floor;
    var frac := v - whole as real;
    DecimalText(whole) + (if frac == 0.0 then "" else "." + FractionText(frac, 20))
  }

  /** At most `k` decimal digits of a fraction in [0, 1), stopping when it is exhausted. */
  function FractionText(f: real, k: nat): string
    requires 0.0 <= f < 1.0
    decreases k
  {
    if k == 0 || f == 0.0 then ""
    else
      var d := (f * 10.0).Floor;
      [DigitChar(d)] + FractionText(f * 10.0 - d as real, k - 1)
  }

  /** A run of digits is read whole. */
  lemma {:induction false} DigitRunOfDigits(s: string)
    requires AllDigits(s)
    ensures DigitRunLength(s) == |s|
    decreases |s|
  {
    if s != [] {
      DigitRunOfDigits(s[1..]);
    }
  }

  /** Text without a line break before its first token, whose tokens parse completely as `x`, evaluates to `x`. */
  lemma EvaluatesTo(text: string, ts: seq<Token>, x: real)
    requires Tokenize(text) == Ok(ts) && ts != []
    requires !LeadingBreak(text)
    requires ParseSequence(ts) == Ok(Parsed(x, []))
    ensures EvaluateArithmetic(text) == Ok(Some(x))
  {
  }

  /** A lone number token parses as that number, consuming everything. */
  lemma SingleNumberParses(x: real)
    ensures ParseSequence([NumTok(x)]) == Ok(Parsed(x, []))
  {
    var ts := [NumTok(x)];
    assert ts[1..] == [];
    assert ParsePrimary(ts) == Ok(Parsed(x, []));
    assert ParseUnary(ts) == Ok(Parsed(x, []));
    assert ParseMultiplicative(ts) == Ok(Parsed(x, []));
    assert ParseAdditive(ts) == Ok(Parsed(x, []));
  }

  /** A natural number's numeral evaluates to the number. */
  lemma NaturalTextEvaluates(n: nat)
    ensures Tokenize(DecimalText(n)) == Ok([NumTok(n as real)])
    ensures EvaluateArithmetic(DecimalText(n)) == Ok(Some(n as real))
  {
    var s := DecimalText(n);
    var none: seq<Token> := [];
    assert s + [] == s;
    TokenizeNumeral(n, []);
    assert Tokenize([]) == Ok(none);
    assert [NumTok(n as real)] + none == [NumTok(n as real)];
    SingleNumberParses(n as real);
    assert !IsSpace(s[0]);
    EvaluatesTo(s, [NumTok(n as real)], n as real);
  }

  /** `toString()` of an integer: its decimal numeral, after a minus sign when negative. */
  lemma IntegerText(n: int)
    ensures NumberText(n as real) == if n < 0 then ['-'] + DecimalText(-n) else DecimalText(n)
  {
    if n >= 0 {
      assert (n as real).Floor == n;
    } else {
      assert ((-n) as real).Floor == -n;
      assert -(n as real) == (-n) as real;
    }
  }

  /** A minus sign before a numeral negates it. */
  lemma NegatedTextEvaluates(m: nat)
    ensures EvaluateArithmetic(['-'] + DecimalText(m)) == Ok(Some(-(m as real)))
  {
    var s := DecimalText(m);
    NaturalTextEvaluates(m);
    TokenizeSymbol('-', s);
    var ts := [Op('-'), NumTok(m as real)];
    assert [Op('-')] + [NumTok(m as real)] == ts;
    assert Tokenize(['-'] + s) == Ok(ts);
    var v := -(m as real);
    assert ts[1..] == [NumTok(m as real)];
    assert ParseUnary(ts[1..]) == Ok(Parsed(m as real, []));
    assert ParseUnary(ts) == Ok(Parsed(v, []));
    assert MultiplicativeRest(v, []) == Ok(Parsed(v, []));
    assert ParseMultiplicative(ts) == Ok(Parsed(v, []));
    assert AdditiveRest(v, []) == Ok(Parsed(v, []));
    assert ParseAdditive(ts) == Ok(Parsed(v, []));
    assert SequenceRest(v, []) == Ok(Parsed(v, []));
    assert ParseSequence(ts) == Ok(Parsed(v, []));
    assert !IsSpace((['-'] + s)[0]);
    EvaluatesTo(['-'] + s, ts, v);
  }

  /**
   * Substituting an integer's `toString()` into the expression and
   * evaluating it gives the integer back, negative numbers included.
   */
  lemma IntegerTextEvaluates(n: int)
    ensures EvaluateArithmetic(NumberText(n as real)) == Ok(Some(n as real))
  {
    IntegerText(n);
    if n >= 0 {
      NaturalTextEvaluates(n);
    } else {
      NegatedTextEvaluates(-n);
    }
  }

  /** A positive factor scales a fraction in [0, 1) into [0, factor). */
  lemma ScaleFraction(p: real, f: real, r: real)
    requires p > 0.0 && r == p * f
    ensures 0.0 <= f < 1.0 ==> 0.0 <= r < p
  {
    if 0.0 <= f < 1.0 {
      assert p * (1.0 - f) > 0.0;
      assert p * f >= 0.0;
    }
  }

  /** A positive factor scales a fraction in (-1, 0] into (-factor, 0]. */
  lemma ScaleNegativeFraction(p: real, f: real, r: real)
    requires p > 0.0 && r == p * f
    ensures -1.0 < f <= 0.0 ==> -p < r <= 0.0
  {
    assert -r == p * -f;
    ScaleFraction(p, -f, -r);
  }

  /** A positive factor keeps the sign. */
  lemma ScaleSign(p: real, x: real, y: real)
    requires p > 0.0 && y == p * x
    ensures x > 0.0 ==> y > 0.0
    ensures x < 0.0 ==> y < 0.0
    ensures x == 0.0 ==> y == 0.0
  {
  }

  /** With a positive divisor, `%` keeps the sign of the dividend and stays below the divisor. */
  lemma RemainderPositiveDivisor(a: real, b: real)
    requires b > 0.0
    ensures a >= 0.0 ==> 0.0 <= Remainder(a, b) < b
    ensures a <= 0.0 ==> -b < Remainder(a, b) <= 0.0
  {
    var q := a / b;
    var f := q - Trunc(q) as real;
    var r := Remainder(a, b);
    assert a == b * q;
    assert r == b * f;
    ScaleSign(b, q, a);
    ScaleFraction(b, f, r);
    ScaleNegativeFraction(b, f, r);
    if q == 0.0 {
      assert Trunc(q) == 0 && f == 0.0;
    }
  }

  /** `%` by a negative divisor is `%` by its magnitude. */
  lemma RemainderNegatedDivisor(a: real, b: real)
    requires b != 0.0
    ensures Remainder(a, -b) == Remainder(a, b)
  {
    assert a / -b == -(a / b);
    var q := a / b;
    if q != Trunc(q) as real {
      assert Trunc(-q) == -Trunc(q);
    } else {
      assert Trunc(-q) == -Trunc(q);
    }
  }

  /** `%` keeps the sign of the dividend and is smaller than the divisor in magnitude. */
  lemma RemainderTruncates(a: real, b: real)
    requires b != 0.0
    ensures a >= 0.0 ==> 0.0 <= Remainder(a, b) < (if b > 0.0 then b else -b)
    ensures a <= 0.0 ==> -(if b > 0.0 then b else -b) < Remainder(a, b) <= 0.0
  {
    if b > 0.0 {
      RemainderPositiveDivisor(a, b);
    } else {
      RemainderPositiveDivisor(a, -b);
      RemainderNegatedDivisor(a, -b);
    }
  }

  /** The token stream `r` with `t` in front, or the same error. */
  function Prepend(t: Token, r: Result<seq<Token>>): Result<seq<Token>> {
    if r.Ok? then Ok([t] + r.value) else r
  }

  /** A run of digits followed by a non-digit is read as far as that non-digit. */
  lemma {:induction false} DigitRunPrefix(d: string, rest: string)
    requires AllDigits(d)
    requires rest == [] || !IsDigit(rest[0])
    ensures DigitRunLength(d + rest) == |d|
    decreases |d|
  {
    if d != [] {
      DigitRunPrefix(d[1..], rest);
      assert (d + rest)[1..] == d[1..] + rest;
    } else {
      assert d + rest == rest;
    }
  }

  /**
   * A run of digits that is not a legacy octal literal, followed by something
   * that cannot continue it, is one number token with the decimal value.
   */
  lemma TokenizeDigits(d: string, rest: string)
    requires d != [] && AllDigits(d) && !IsLegacyOctal(d)
    requires rest == [] || !(IsDigit(rest[0]) || rest[0] == '.')
    ensures Tokenize(d + rest) == Prepend(NumTok(DigitsValue(d) as real), Tokenize(rest))
  {
    var s := d + rest;
    DigitRunPrefix(d, rest);
    assert s[..|d|] == d;
    assert s[|d|..] == rest;
    assert |d| < |s| ==> s[|d|] == rest[0];
    assert !OctalThenPoint(s);
    assert LexNumber(s) == (DigitsValue(d) as real, |d|);
    assert s[0] == d[0];
  }

  /** A natural numeral followed by something that cannot continue it is one number token. */
  lemma TokenizeNumeral(n: nat, rest: string)
    requires rest == [] || !(IsDigit(rest[0]) || rest[0] == '.')
    ensures Tokenize(DecimalText(n) + rest) == Prepend(NumTok(n as real), Tokenize(rest))
  {
    var d := DecimalText(n);
    DecimalTextValue(n);
    assert !IsLegacyOctal(d) by {
      assert |d| > 1 ==> d[0] != '0';
    }
    TokenizeDigits(d, rest);
  }

  /** A legacy octal literal followed by something that cannot continue it is one token with the base-8 value. */
  lemma TokenizeOctal(d: string, rest: string)
    requires IsLegacyOctal(d)
    requires rest == [] || !(IsDigit(rest[0]) || rest[0] == '.')
    ensures Tokenize(d + rest) == Prepend(NumTok(OctalValue(d) as real), Tokenize(rest))
  {
    var s := d + rest;
    assert AllDigits(d);
    DigitRunPrefix(d, rest);
    assert s[..|d|] == d;
    assert s[|d|..] == rest;
    assert !OctalThenPoint(s);
    assert LexNumber(s) == (OctalValue(d) as real, |d|);
    assert s[0] == d[0];
  }

  /** A legacy octal literal cannot take a fraction: the text is a syntax error. */
  lemma OctalPointFails(d: string, rest: string)
    requires IsLegacyOctal(d)
    ensures EvaluateArithmetic(d + (['.'] + rest)).Err?
  {
    var s := d + (['.'] + rest);
    assert AllDigits(d);
    DigitRunPrefix(d, ['.'] + rest);
    assert s[..|d|] == d && s[|d|] == '.';
    assert OctalThenPoint(s);
    assert s[0] == d[0] && StartsNumber(s);
    assert Tokenize(s).Err?;
  }

  /** A line break before the first token: the program is `return;` followed by the text. */
  lemma LineBreakAfterReturn(c: char, t: string)
    requires IsLineTerminator(c)
    ensures EvaluateArithmetic([c] + t) == if EvaluateArithmetic(t).Ok? then Ok(None) else EvaluateArithmetic(t)
  {
    var s := [c] + t;
    assert s[1..] == t;
    assert Tokenize(s) == Tokenize(t);
    assert LeadingBreak(s);
  }

  /** The one-character tokens. */
  predicate IsSymbol(c: char) {
    c == '+' || c == '-' || c == '*' || c == '/' || c == '%' || c == '(' || c == ')' || c == ','
  }

  function SymbolToken(c: char): Token
    requires IsSymbol(c)
  {
    if c == '(' then LParen else if c == ')' then RParen else if c == ',' then Comma else Op(c)
  }

  /** An operator or bracket followed by a character that does not double it is one token. */
  lemma TokenizeSymbol(c: char, rest: string)
    requires IsSymbol(c)
    requires rest == [] || !(rest[0] == c && (c == '+' || c == '-' || c == '*'))
    requires rest == [] || !(c == '/' && (rest[0] == '/' || rest[0] == '*'))
    ensures Tokenize([c] + rest) == Prepend(SymbolToken(c), Tokenize(rest))
  {
    assert ([c] + rest)[1..] == rest;
  }

  /** White space between tokens is skipped. */
  lemma TokenizeSpace(c: char, rest: string)
    requires IsSpace(c)
    ensures Tokenize([c] + rest) == Tokenize(rest)
  {
    assert ([c] + rest)[1..] == rest;
  }

  /** A number token is a unary operand by itself. */
  lemma NumberUnary(x: real, rest: seq<Token>)
    ensures ParseUnary([NumTok(x)] + rest) == Ok(Parsed(x, rest))
  {
    var ts := [NumTok(x)] + rest;
    assert ts[0] == NumTok(x) && ts[1..] == rest;
  }

  /** `x op y` for a multiplicative operator: the product level applies it, or fails with it. */
  lemma ProductParses(x: real, op: char, y: real)
    requires op == '*' || op == '/' || op == '%'
    ensures Apply(op, x, y).Ok? ==>
      ParseAdditive([NumTok(x), Op(op), NumTok(y)]) == Ok(Parsed(Apply(op, x, y).value, []))
    ensures Apply(op, x, y).Err? ==> ParseAdditive([NumTok(x), Op(op), NumTok(y)]).Err?
  {
    var ts := [NumTok(x), Op(op), NumTok(y)];
    var tail := [Op(op), NumTok(y)];
    var none: seq<Token> := [];
    assert ts == [NumTok(x)] + tail && tail[1..] == [NumTok(y)] + none;
    NumberUnary(x, tail);
    NumberUnary(y, none);
    if Apply(op, x, y).Ok? {
      var v := Apply(op, x, y).value;
      assert MultiplicativeRest(v, none) == Ok(Parsed(v, none));
      assert MultiplicativeRest(x, tail) == Ok(Parsed(v, none));
      assert ParseMultiplicative(ts) == Ok(Parsed(v, none));
      assert AdditiveRest(v, none) == Ok(Parsed(v, none));
    } else {
      assert MultiplicativeRest(x, tail).Err?;
    }
  }

  /** `x op y` for an additive operator: the sum level applies it. */
  lemma SumParses(x: real, op: char, y: real)
    requires op == '+' || op == '-'
    ensures ParseAdditive([NumTok(x), Op(op), NumTok(y)]) == Ok(Parsed(Apply(op, x, y).value, []))
  {
    var ts := [NumTok(x), Op(op), NumTok(y)];
    var tail := [Op(op), NumTok(y)];
    var none: seq<Token> := [];
    assert ts == [NumTok(x)] + tail && tail[1..] == [NumTok(y)] + none;
    NumberUnary(x, tail);
    NumberUnary(y, none);
    var v := Apply(op, x, y).value;
    assert MultiplicativeRest(x, tail) == Ok(Parsed(x, tail));
    assert ParseMultiplicative(ts) == Ok(Parsed(x, tail));
    assert MultiplicativeRest(y, none) == Ok(Parsed(y, none));
    assert ParseMultiplicative(tail[1..]) == Ok(Parsed(y, none));
    assert AdditiveRest(v, none) == Ok(Parsed(v, none));
    assert AdditiveRest(x, tail) == Ok(Parsed(v, none));
  }

  /** Two numbers joined by one operator parse as that operator applied to them. */
  lemma BinaryParses(x: real, op: char, y: real)
    requires op == '+' || op == '-' || op == '*' || op == '/' || op == '%'
    ensures Apply(op, x, y).Ok? ==>
      ParseSequence([NumTok(x), Op(op), NumTok(y)]) == Ok(Parsed(Apply(op, x, y).value, []))
    ensures Apply(op, x, y).Err? ==> ParseSequence([NumTok(x), Op(op), NumTok(y)]).Err?
  {
    var ts := [NumTok(x), Op(op), NumTok(y)];
    if op == '+' || op == '-' {
      SumParses(x, op, y);
    } else {
      ProductParses(x, op, y);
    }
    if Apply(op, x, y).Ok? {
      var none: seq<Token> := [];
      assert SequenceRest(Apply(op, x, y).value, none) == Ok(Parsed(Apply(op, x, y).value, none));
    }
  }

  /** The tokens of `a <op> b` for two natural numbers. */
  lemma BinaryTokens(a: nat, op: char, b: nat)
    requires op == '+' || op == '-' || op == '*' || op == '/' || op == '%'
    ensures Tokenize(DecimalText(a) + ([op] + DecimalText(b))) == Ok([NumTok(a as real), Op(op), NumTok(b as real)])
  {
    var db := DecimalText(b);
    var tail := [op] + db;
    NaturalTextEvaluates(b);
    assert Tokenize(db) == Ok([NumTok(b as real)]);
    assert IsDigit(db[0]);
    TokenizeSymbol(op, db);
    assert SymbolToken(op) == Op(op);
    assert Tokenize(tail) == Prepend(Op(op), Tokenize(db));
    assert [Op(op)] + [NumTok(b as real)] == [Op(op), NumTok(b as real)];
    assert Tokenize(tail) == Ok([Op(op), NumTok(b as real)]);
    TokenizeNumeral(a, tail);
    assert [NumTok(a as real)] + [Op(op), NumTok(b as real)] == [NumTok(a as real), Op(op), NumTok(b as real)];
  }

  /**
   * An expression `a <op> b` of two natural numbers, as the evaluator writes
   * it after substituting two cell values, evaluates to the operator applied
   * to them.
   */
  lemma BinaryTextEvaluates(a: nat, op: char, b: nat)
    requires op == '+' || op == '-' || op == '*' || op == '/' || op == '%'
    ensures Apply(op, a as real, b as real).Ok? ==>
      EvaluateArithmetic(DecimalText(a) + ([op] + DecimalText(b))) == Ok(Some(Apply(op, a as real, b as real).value))
    ensures Apply(op, a as real, b as real).Err? ==>
      EvaluateArithmetic(DecimalText(a) + ([op] + DecimalText(b))).Err?
  {
    BinaryTokens(a, op, b);
    BinaryParses(a as real, op, b as real);
    var text := DecimalText(a) + ([op] + DecimalText(b));
    var ts := [NumTok(a as real), Op(op), NumTok(b as real)];
    if Apply(op, a as real, b as real).Ok? {
      assert text[0] == DecimalText(a)[0] && !IsSpace(text[0]);
      EvaluatesTo(text, ts, Apply(op, a as real, b as real).value);
    }
  }

  /** The product level of `y * z`. */
  lemma ProductLevel(y: real, z: real)
    ensures ParseMultiplicative([NumTok(y), Op('*'), NumTok(z)]) == Ok(Parsed(y * z, []))
  {
    var product := [NumTok(y), Op('*'), NumTok(z)];
    var tail := [Op('*'), NumTok(z)];
    var none: seq<Token> := [];
    assert product == [NumTok(y)] + tail && tail[1..] == [NumTok(z)] + none;
    NumberUnary(y, tail);
    NumberUnary(z, none);
    assert Apply('*', y, z) == Ok(y * z);
    assert MultiplicativeRest(y * z, none) == Ok(Parsed(y * z, none));
    assert MultiplicativeRest(y, tail) == Ok(Parsed(y * z, none));
  }

  /** Multiplication binds tighter than addition: the tokens of `x + y * z` take the product first. */
  lemma PrecedenceParses(x: real, y: real, z: real)
    ensures ParseSequence([NumTok(x), Op('+'), NumTok(y), Op('*'), NumTok(z)]) == Ok(Parsed(x + y * z, []))
  {
    var product := [NumTok(y), Op('*'), NumTok(z)];
    var rest := [Op('+')] + product;
    var ts := [NumTok(x)] + rest;
    assert ts == [NumTok(x), Op('+'), NumTok(y), Op('*'), NumTok(z)];
    var v := y * z;
    assert rest[1..] == product;
    ProductLevel(y, z);
    NumberUnary(x, rest);
    assert AdditiveRest(x + v, []) == Ok(Parsed(x + v, []));
    assert AdditiveRest(x, rest) == Ok(Parsed(x + v, []));
    assert MultiplicativeRest(x, rest) == Ok(Parsed(x, rest));
    assert ParseMultiplicative(ts) == Ok(Parsed(x, rest));
    assert SequenceRest(x + v, []) == Ok(Parsed(x + v, []));
  }

  /** An empty program yields `undefined`. */
  lemma EmptyExample()
    ensures EvaluateArithmetic("") == Ok(None)
  {
  }

  /**
   * `2--5`, which substituting -5 after a minus sign writes, is a syntax
   * error, as it is in JavaScript; and `1/0` is an error.
   */
  lemma DoubleMinusExample()
    ensures EvaluateArithmetic("2--5").Err?
  {
    assert DecimalText(2) == "2";
    TokenizeNumeral(2, "--5");
    assert "2" + "--5" == "2--5";
    assert Tokenize("--5").Err?;
  }

  /** `010+1` is eight plus one: the leading zero makes `010` octal. */
  lemma OctalSumExample()
    ensures EvaluateArithmetic("010+1") == Ok(Some(9.0))
  {
    var d := "010";
    assert IsLegacyOctal(d);
    assert d[..2] == "01" && d[..2][..1] == "0" && d[..2][..1][..0] == [];
    assert OctalValue("0") == 0;
    assert OctalValue("01") == 1;
    assert OctalValue(d) == 8;
    assert DecimalText(1) == "1";
    NaturalTextEvaluates(1);
    assert Tokenize("1") == Ok([NumTok(1.0)]);
    TokenizeSymbol('+', "1");
    assert ['+'] + "1" == "+1";
    assert SymbolToken('+') == Op('+');
    assert [Op('+')] + [NumTok(1.0)] == [Op('+'), NumTok(1.0)];
    assert Tokenize("+1") == Ok([Op('+'), NumTok(1.0)]);
    TokenizeOctal(d, "+1");
    assert d + "+1" == "010+1";
    var ts := [NumTok(8.0), Op('+'), NumTok(1.0)];
    assert [NumTok(8.0)] + [Op('+'), NumTok(1.0)] == ts;
    BinaryParses(8.0, '+', 1.0);
    EvaluatesTo("010+1", ts, 9.0);
  }

  /** `01.5` is a syntax error, and `08` is decimal eight. */
  lemma OctalPointExample()
    ensures EvaluateArithmetic("01.5").Err?
  {
    assert IsLegacyOctal("01");
    OctalPointFails("01", "5");
    assert "01" + (['.'] + "5") == "01.5";
  }

  lemma NonOctalExample()
    ensures Tokenize("08") == Ok([NumTok(8.0)])
  {
    var d := "08";
    assert !IsOctalDigit(d[1]);
    assert d[..1] == "0" && d[..1][..0] == [];
    assert DigitsValue(d) == 8;
    TokenizeDigits(d, []);
    assert d + [] == d;
    var none: seq<Token> := [];
    assert Tokenize([]) == Ok(none);
    assert [NumTok(8.0)] + none == [NumTok(8.0)];
  }

  /** A line break right after `return`: `\n1+2` returns `undefined`. */
  lemma LineBreakExample()
    ensures EvaluateArithmetic("\n1+2") == Ok(None)
  {
    assert DecimalText(1) == "1" && DecimalText(2) == "2";
    BinaryTextEvaluates(1, '+', 2);
    assert "1" + (['+'] + "2") == "1+2";
    LineBreakAfterReturn('\n', "1+2");
    assert ['\n'] + "1+2" == "\n1+2";
  }

  lemma DivisionByZeroExample()
    ensures EvaluateArithmetic("1/0").Err?
  {
    assert DecimalText(1) == "1" && DecimalText(0) == "0";
    BinaryTextEvaluates(1, '/', 0);
    assert "1" + (['/'] + "0") == "1/0";
  }
}
