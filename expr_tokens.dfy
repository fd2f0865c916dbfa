/** The front end shared by the two "amount paid" calculators: the typed
    text loses every character that is not a digit, '+', '-', '*' or '.',
    and the rest is cut into numbers and operators the way the global match
    of `(\d+\.?\d*|[+\-*])` does. Numbers are exact reals here. */
module ExprTokens {
  import opened Base
  import opened Lists

  /** The characters the sanitising `replace` keeps. */
  predicate Kept(c: char) {
    IsDigit(c) || c == '+' || c == '-' || c == '*' || c == '.'
  }

  /** `expr.replace(/[^0-9+\-*.]/g, '')`. */
  function Sanitize(expr: string): (r: string)
    ensures forall i :: 0 <= i < |r| ==> Kept(r[i])
  {
    Filter(expr, Kept)
  }

  /** Sanitising keeps every copy of a kept character and none of the
      others, and text made only of kept characters is left as it is. */
  lemma SanitizeSpec(expr: string, c: char)
    ensures multiset(Sanitize(expr))[c] == if Kept(c) then multiset(expr)[c] else 0
    ensures (forall i :: 0 <= i < |expr| ==> Kept(expr[i])) ==> Sanitize(expr) == expr
  {
    FilterCount(expr, Kept, c);
    if forall i :: 0 <= i < |expr| ==> Kept(expr[i]) {
      FilterAll(expr, Kept);
    }
  }

  datatype Token = Number(text: string) | Operator(op: char)

  predicate IsOperatorChar(c: char) {
    c == '+' || c == '-' || c == '*'
  }

  /** The end of the run of digits starting at i. */
  function DigitsEnd(s: string, i: nat): (j: nat)
    requires i <= |s|
    ensures i <= j <= |s|
    ensures forall k :: i <= k < j ==> IsDigit(s[k])
    ensures j < |s| ==> !IsDigit(s[j])
    decreases |s| - i
  {
    if i < |s| && IsDigit(s[i]) then DigitsEnd(s, i + 1) else i
  }

  /** The end of the longest match of `\d+\.?\d*` starting at i, a digit. */
  function NumberEnd(s: string, i: nat): (j: nat)
    requires i < |s| && IsDigit(s[i])
    ensures i < j <= |s|
  {
    var w := DigitsEnd(s, i);
    if w < |s| && s[w] == '.' then DigitsEnd(s, w + 1) else w
  }

  /** The matches from position i on, left to right; a character that
      starts no match (a '.' not after a digit, or anything the sanitiser
      left out) is passed over. */
  function TokensFrom(s: string, i: nat): (ts: seq<Token>)
    requires i <= |s|
    ensures forall k :: 0 <= k < |ts| && ts[k].Operator? ==> IsOperatorChar(ts[k].op)
    decreases |s| - i
  {
    if i == |s| then []
    else if IsDigit(s[i]) then
      var j := NumberEnd(s, i);
      [Number(s[i..j])] + TokensFrom(s, j)
    else if IsOperatorChar(s[i]) then [Operator(s[i])] + TokensFrom(s, i + 1)
    else TokensFrom(s, i + 1)
  }

  /** `s.match(/(\d+\.?\d*|[+\-*])/g)`, an empty list standing for no match. */
  function Tokens(s: string): seq<Token> {
    TokensFrom(s, 0)
  }

  function Pow10(n: nat): (p: nat)
    ensures p >= 1
  {
    if n == 0 then 1 else 10 * Pow10(n - 1)
  }

  /** `parseFloat` of a number match: the whole part plus the fraction. */
  function NumberValue(text: string): (v: real)
    ensures v >= 0.0
  {
    var whole := DigitPrefix(text);
    var rest := text[|whole|..];
    var fraction := if rest != [] && rest[0] == '.' then DigitPrefix(rest[1..]) else "";
    DigitsValue(whole) as real + Fraction(DigitsValue(fraction), |fraction|)
  }

  /** The value of the digits after the point: `digits / 10^places`. */
  function Fraction(digits: nat, places: nat): (f: real)
    ensures f >= 0.0
  {
    digits as real / Pow10(places) as real
  }

  /** `parseFloat(token) || 0`: an operator does not parse and counts as 0. */
  function Operand(t: Token): (v: real)
    ensures v >= 0.0
  {
    if t.Number? then NumberValue(t.text) else 0.0
  }

  /** A stream `number (operator number)*`, what a well-typed sum looks
      like. */
  predicate WellFormed(ts: seq<Token>) {
    |ts| % 2 == 1
    && (forall k :: 0 <= k < |ts| && k % 2 == 0 ==> ts[k].Number?)
    && (forall k :: 0 <= k < |ts| && k % 2 == 1 ==> ts[k].Operator?)
  }

  /** No operator in the stream is '*'. */
  predicate NoProducts(ts: seq<Token>) {
    forall k :: 0 <= k < |ts| ==> ts[k] != Operator('*')
  }

  /** A one-digit number is worth its digit. */
  lemma DigitValueOfOne(d: char)
    requires IsDigit(d)
    ensures NumberValue([d]) == DigitValue(d) as real
  {
    assert DigitPrefix([d]) == [d] by {
      assert [d][1..] == [];
    }
    assert [d][1..] == [];
    assert DigitsValue([d]) == DigitsValue([]) * 10 + DigitValue(d) by {
      assert [d][..0] == [];
    }
  }

  /** A one-digit number followed by an operator or the end is one token. */
  lemma DigitStep(s: string, i: nat)
    requires i < |s| && IsDigit(s[i]) && (i + 1 == |s| || IsOperatorChar(s[i + 1]))
    ensures TokensFrom(s, i) == [Number(s[i..i + 1])] + TokensFrom(s, i + 1)
  {
    assert DigitsEnd(s, i + 1) == i + 1;
    assert DigitsEnd(s, i) == i + 1;
  }

  lemma OperatorStep(s: string, i: nat)
    requires i < |s| && IsOperatorChar(s[i])
    ensures TokensFrom(s, i) == [Operator(s[i])] + TokensFrom(s, i + 1)
  {
  }

  /** The tokens of "2+3*4". */
  lemma TokensOfSample(s: string)
    requires s == "2+3*4"
    ensures Tokens(Sanitize(s)) == [Number("2"), Operator('+'), Number("3"), Operator('*'), Number("4")]
  {
    SanitizeSpec(s, '2');
    SampleTokens(s);
  }

  lemma SampleTokens(s: string)
    requires s == "2+3*4"
    ensures Tokens(s) == [Number("2"), Operator('+'), Number("3"), Operator('*'), Number("4")]
  {
    DigitStep(s, 4);
    OperatorStep(s, 3);
    DigitStep(s, 2);
    OperatorStep(s, 1);
    DigitStep(s, 0);
    assert s[0..1] == "2" && s[2..3] == "3" && s[4..5] == "4";
  }
}
