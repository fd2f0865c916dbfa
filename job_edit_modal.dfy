/** The job edit modal: its "amount paid" calculator, which gives '*'
    precedence over '+' and '-', and the save step that tidies the edited
    fields into the job record. */
module JobEditModal {
  import opened Base
  import opened Model
  import opened Lists
  import opened ExprTokens

  // ---------------------------------------------------------------------
  // Number arithmetic, where a missing array element reads as NaN

  function NumAdd(a: Num, b: Num): (r: Num)
    ensures r.Finite? <==> a.Finite? && b.Finite?
  {
    if a.Finite? && b.Finite? then Finite(a.v + b.v) else NaN
  }

  function NumSub(a: Num, b: Num): (r: Num)
    ensures r.Finite? <==> a.Finite? && b.Finite?
  {
    if a.Finite? && b.Finite? then Finite(a.v - b.v) else NaN
  }

  function NumMul(a: Num, b: Num): (r: Num)
    ensures r.Finite? <==> a.Finite? && b.Finite?
  {
    if a.Finite? && b.Finite? then Finite(a.v * b.v) else NaN
  }

  /** `nums[k]`: past the end it is `undefined`, which every arithmetic
      operator turns into NaN. */
  function At(nums: seq<Num>, k: int): Num {
    if 0 <= k < |nums| then nums[k] else NaN
  }

  /** `Math.max(0, x)`: NaN stays NaN. */
  function Max0(x: Num): (r: Num)
    ensures r.Finite? <==> x.Finite?
    ensures r.Finite? ==> r.v >= 0.0 && r.v >= x.v && (r.v == 0.0 || r.v == x.v)
  {
    if x.NaN? then NaN else if x.v < 0.0 then Finite(0.0) else x
  }

  // ---------------------------------------------------------------------
  // Splitting the tokens into operands and operators

  /** The operands, `value(token)` for each token that is not an operator,
      in order; the evaluator reads them with `Operand`. */
  function NumsOf(ts: seq<Token>, value: Token -> real): (nums: seq<Num>)
    ensures forall k :: 0 <= k < |nums| ==> nums[k].Finite?
  {
    if ts == [] then []
    else
      var last := ts[|ts| - 1];
      NumsOf(ts[..|ts| - 1], value) + if last.Operator? then [] else [Finite(value(last))]
  }

  /** The operator characters, in order. */
  function OpsOf(ts: seq<Token>): seq<char> {
    if ts == [] then []
    else
      var last := ts[|ts| - 1];
      OpsOf(ts[..|ts| - 1]) + if last.Operator? then [last.op] else []
  }

  /** A stream without '*' tokens gives no '*' operator. */
  lemma {:induction false} OpsWithoutProducts(ts: seq<Token>)
    requires NoProducts(ts)
    ensures forall k :: 0 <= k < |OpsOf(ts)| ==> OpsOf(ts)[k] != '*'
  {
    if ts != [] {
      var init := ts[..|ts| - 1];
      assert forall k :: 0 <= k < |init| ==> init[k] == ts[k];
      OpsWithoutProducts(init);
    }
  }

  /** Numbers and operators alternate, numbers at the positions of parity
      `lead` (0: a number first, 1: an operator first). */
  predicate Alternates(ts: seq<Token>, lead: nat) {
    && (forall k :: 0 <= k < |ts| && (k + lead) % 2 == 0 ==> ts[k].Number?)
    && (forall k :: 0 <= k < |ts| && (k + lead) % 2 == 1 ==> ts[k].Operator?)
  }

  /** Every token is an operand or an operator. */
  lemma {:induction false} SplitLengths(ts: seq<Token>, value: Token -> real)
    ensures |NumsOf(ts, value)| + |OpsOf(ts)| == |ts|
  {
    if ts != [] {
      SplitLengths(ts[..|ts| - 1], value);
    }
  }

  /** In an alternating stream every prefix has the expected number of
      operands. */
  lemma {:induction false} AlternatingCounts(ts: seq<Token>, value: Token -> real, lead: nat, k: nat)
    requires lead <= 1 && Alternates(ts, lead) && k <= |ts|
    ensures |NumsOf(ts[..k], value)| == (k + 1 - lead) / 2
  {
    if k > 0 {
      AlternatingCounts(ts, value, lead, k - 1);
      var p := ts[..k];
      assert p[..k - 1] == ts[..k - 1];
      assert p[k - 1] == ts[k - 1];
      var m := |NumsOf(ts[..k - 1], value)|;
      if (k - 1 + lead) % 2 == 0 {
        assert ts[k - 1].Number?;
        assert |NumsOf(p, value)| == m + 1;
      } else {
        assert ts[k - 1].Operator?;
        assert |NumsOf(p, value)| == m;
      }
    }
  }

  lemma WellFormedAlternates(ts: seq<Token>, value: Token -> real)
    requires WellFormed(ts)
    ensures Alternates(ts, 0)
    ensures |NumsOf(ts, value)| == |OpsOf(ts)| + 1
  {
    AlternatingCounts(ts, value, 0, |ts|);
    assert ts[..|ts|] == ts;
    SplitLengths(ts, value);
  }

  /** An operator in front of a well-formed stream: as many operands as
      operators. */
  lemma LeadingOperatorCounts(ts: seq<Token>, value: Token -> real)
    requires ts != [] && ts[0].Operator? && WellFormed(ts[1..])
    ensures |NumsOf(ts, value)| == |OpsOf(ts)|
    ensures |ts| >= 2 && ts[|ts| - 1].Number? && ts[|ts| - 2].Operator?
  {
    forall k | 0 <= k < |ts| && (k + 1) % 2 == 0 ensures ts[k].Number? {
      assert ts[k] == ts[1..][k - 1];
    }
    forall k | 0 <= k < |ts| && (k + 1) % 2 == 1 ensures ts[k].Operator? {
      if k > 0 {
        assert ts[k] == ts[1..][k - 1];
      }
    }
    AlternatingCounts(ts, value, 1, |ts|);
    assert ts[..|ts|] == ts;
    SplitLengths(ts, value);
  }

  /** An operand at the end leaves the operator before it last. */
  lemma LastOperator(ts: seq<Token>)
    requires |ts| >= 2 && ts[|ts| - 1].Number? && ts[|ts| - 2].Operator?
    ensures |OpsOf(ts)| >= 1 && OpsOf(ts)[|OpsOf(ts)| - 1] == ts[|ts| - 2].op
  {
    var n := |ts|;
    assert ts[..n - 1][..n - 2] == ts[..n - 2];
    assert OpsOf(ts[..n - 1]) == OpsOf(ts[..n - 2]) + [ts[n - 2].op];
  }

  /** Appending one token extends exactly one of the two lists. */
  lemma SplitSnoc(ts: seq<Token>, value: Token -> real, t: Token)
    ensures NumsOf(ts + [t], value) == NumsOf(ts, value) + if t.Operator? then [] else [Finite(value(t))]
    ensures OpsOf(ts + [t]) == OpsOf(ts) + if t.Operator? then [t.op] else []
  {
    assert (ts + [t])[..|ts|] == ts;
  }

  // ---------------------------------------------------------------------
  // The reference meaning: '*' binds tighter than '+' and '-'

  /** The value of `n0 o1 n1 ... ok nk` under the usual grammar
      `sum := sum ('+'|'-') product | product`,
      `product := product '*' number | number`, read from the right: a
      trailing '*' joins the last two numbers into one, a trailing '+' or '-'
      applies to everything before it. Any other operator is skipped, as the
      second pass of the evaluator skips it. */
  function PrecValue(nums: seq<Num>, ops: seq<char>): Num
    requires |nums| == |ops| + 1
    decreases |ops|
  {
    if ops == [] then nums[0]
    else
      var n := |ops|;
      if ops[n - 1] == '*' then PrecValue(nums[..n - 1] + [NumMul(nums[n - 1], nums[n])], ops[..n - 1])
      else if ops[n - 1] == '+' then NumAdd(PrecValue(nums[..n], ops[..n - 1]), nums[n])
      else if ops[n - 1] == '-' then NumSub(PrecValue(nums[..n], ops[..n - 1]), nums[n])
      else PrecValue(nums[..n], ops[..n - 1])
  }

  /** With finite operands the value is finite. */
  lemma {:induction false} PrecValueFinite(nums: seq<Num>, ops: seq<char>)
    requires |nums| == |ops| + 1
    requires forall k :: 0 <= k < |nums| ==> nums[k].Finite?
    ensures PrecValue(nums, ops).Finite?
    decreases |ops|
  {
    if ops != [] {
      var n := |ops|;
      if ops[n - 1] == '*' {
        PrecValueFinite(nums[..n - 1] + [NumMul(nums[n - 1], nums[n])], ops[..n - 1]);
      } else {
        PrecValueFinite(nums[..n], ops[..n - 1]);
      }
    }
  }

  /** The precedence value of a well-formed token stream. */
  function Precedence(ts: seq<Token>): Num
    requires WellFormed(ts)
  {
    WellFormedAlternates(ts, Operand);
    PrecValue(NumsOf(ts, Operand), OpsOf(ts))
  }

  /** `nums[..i] + [x] + rest`, with rest the numbers after the pair i, i+1. */
  function Collapse(nums: seq<Num>, i: nat, x: Num): seq<Num>
    requires i + 2 <= |nums|
  {
    nums[..i] + [x] + nums[i + 2..]
  }

  /** Multiplying out any one '*' first leaves the value unchanged. */
  lemma {:induction false} CollapsePreserves(nums: seq<Num>, ops: seq<char>, i: nat)
    requires |nums| == |ops| + 1 && i < |ops| && ops[i] == '*'
    ensures PrecValue(Collapse(nums, i, NumMul(nums[i], nums[i + 1])), ops[..i] + ops[i + 1..]) == PrecValue(nums, ops)
    decreases |ops|
  {
    var n := |ops|;
    var nums' := Collapse(nums, i, NumMul(nums[i], nums[i + 1]));
    var ops' := ops[..i] + ops[i + 1..];
    if i == n - 1 {
      assert nums' == nums[..n - 1] + [NumMul(nums[n - 1], nums[n])];
      assert ops' == ops[..n - 1];
    } else {
      assert ops'[n - 2] == ops[n - 1];
      assert nums'[n - 1] == nums[n];
      if ops[n - 1] != '*' {
        // The trailing '+'/'-' (or skipped operator) is kept; collapse inside.
        CollapsePreserves(nums[..n], ops[..n - 1], i);
        assert nums'[..n - 1] == Collapse(nums[..n], i, NumMul(nums[..n][i], nums[..n][i + 1]));
        assert ops'[..n - 2] == ops[..n - 1][..i] + ops[..n - 1][i + 1..];
      } else if i < n - 2 {
        // Two products apart: collapse the earlier one inside the folded list.
        var a := nums[..n - 1] + [NumMul(nums[n - 1], nums[n])];
        CollapsePreserves(a, ops[..n - 1], i);
        assert nums'[n - 2] == nums[n - 1];
        assert nums'[..n - 2] + [NumMul(nums'[n - 2], nums'[n - 1])] == Collapse(a, i, NumMul(a[i], a[i + 1]));
        assert ops'[..n - 2] == ops[..n - 1][..i] + ops[..n - 1][i + 1..];
      } else {
        // Two adjacent products: multiplication is associative.
        assert i == n - 2;
        var a := nums[..n - 1] + [NumMul(nums[n - 1], nums[n])];
        var b := nums[..n - 2] + [NumMul(nums[n - 2], NumMul(nums[n - 1], nums[n]))];
        assert PrecValue(nums, ops) == PrecValue(a, ops[..n - 1]);
        assert ops[..n - 1][..n - 2] == ops[..n - 2];
        assert a[..n - 2] == nums[..n - 2];
        assert PrecValue(a, ops[..n - 1]) == PrecValue(b, ops[..n - 2]);
        assert ops' == ops[..n - 2] + [ops[n - 1]];
        assert nums'[..n - 2] == nums[..n - 2];
        assert NumMul(nums'[n - 2], nums'[n - 1]) == NumMul(nums[n - 2], NumMul(nums[n - 1], nums[n])) by {
          assert nums'[n - 2] == NumMul(nums[n - 2], nums[n - 1]);
        }
        assert ops'[..n - 2] == ops[..n - 2];
      }
    }
  }

  // ---------------------------------------------------------------------
  // The evaluator's two passes, as functions of the arrays

  /** `nums.splice(i, 2, x)`: start and deletion count clipped to the
      array. */
  function SpliceTwo(nums: seq<Num>, i: nat, x: Num): (r: seq<Num>)
    ensures i + 2 <= |nums| ==> r == Collapse(nums, i, x)
  {
    var start := if i <= |nums| then i else |nums|;
    var stop := if start + 2 <= |nums| then start + 2 else |nums|;
    nums[..start] + [x] + nums[stop..]
  }

  /** Pass 1 from position i: each '*' multiplies its two neighbours into
      one number and disappears; the result has no '*' left. */
  function MulPass(nums: seq<Num>, ops: seq<char>, i: nat): (r: (seq<Num>, seq<char>))
    ensures (forall k :: 0 <= k < i && k < |ops| ==> ops[k] != '*') ==>
      forall k :: 0 <= k < |r.1| ==> r.1[k] != '*'
    decreases |ops|, |ops| - i
  {
    if i >= |ops| then (nums, ops)
    else if ops[i] == '*' then
      var ops' := ops[..i] + ops[i + 1..];
      assert forall k :: 0 <= k < i ==> ops'[k] == ops[k];
      MulPass(SpliceTwo(nums, i, NumMul(At(nums, i), At(nums, i + 1))), ops', i)
    else MulPass(nums, ops, i + 1)
  }

  /** One step of pass 2; an operator other than '+' and '-' does nothing. */
  function AddStep(result: Num, op: char, x: Num): Num {
    if op == '+' then NumAdd(result, x)
    else if op == '-' then NumSub(result, x)
    else result
  }

  /** Pass 2 from operator j, reading `nums[j + 1]` for operator j. */
  function AddPass(result: Num, nums: seq<Num>, ops: seq<char>, j: nat): Num
    decreases |ops| - j
  {
    if j >= |ops| then result
    else AddPass(AddStep(result, ops[j], At(nums, j + 1)), nums, ops, j + 1)
  }

  /** The whole evaluator as a function of the typed text. */
  function Evaluate(expr: string): Num {
    var sanitized := Sanitize(expr);
    if sanitized == [] then Finite(0.0)
    else
      var ts := Tokens(sanitized);
      if ts == [] then Finite(0.0)
      else
        var passed := MulPass(NumsOf(ts, Operand), OpsOf(ts), 0);
        var first := if passed.0 == [] then Finite(0.0) else passed.0[0];
        Max0(AddPass(first, passed.0, passed.1, 0))
  }

  /** Pass 1 keeps the value of a balanced stream. */
  lemma {:induction false} MulPassPreserves(nums: seq<Num>, ops: seq<char>, i: nat)
    requires |nums| == |ops| + 1
    ensures |MulPass(nums, ops, i).0| == |MulPass(nums, ops, i).1| + 1
    ensures PrecValue(MulPass(nums, ops, i).0, MulPass(nums, ops, i).1) == PrecValue(nums, ops)
    decreases |ops|, |ops| - i
  {
    if i < |ops| {
      if ops[i] == '*' {
        var nums' := SpliceTwo(nums, i, NumMul(At(nums, i), At(nums, i + 1)));
        var ops' := ops[..i] + ops[i + 1..];
        CollapsePreserves(nums, ops, i);
        MulPassPreserves(nums', ops', i);
      } else {
        MulPassPreserves(nums, ops, i + 1);
      }
    }
  }

  /** Pass 1 does nothing once no '*' is left at or after i. */
  lemma {:induction false} MulPassWithoutProducts(nums: seq<Num>, ops: seq<char>, i: nat)
    requires forall k :: i <= k < |ops| ==> ops[k] != '*'
    ensures MulPass(nums, ops, i) == (nums, ops)
    decreases |ops| - i
  {
    if i < |ops| {
      MulPassWithoutProducts(nums, ops, i + 1);
    }
  }

  /** Without '*', pass 2 folds '+' and '-' left to right to the precedence
      value. */
  lemma {:induction false} AddPassFolds(nums: seq<Num>, ops: seq<char>, j: nat)
    requires |nums| == |ops| + 1 && j <= |ops|
    requires forall k :: 0 <= k < |ops| ==> ops[k] != '*'
    ensures AddPass(PrecValue(nums[..j + 1], ops[..j]), nums, ops, j) == PrecValue(nums, ops)
    decreases |ops| - j
  {
    if j == |ops| {
      assert nums[..j + 1] == nums && ops[..j] == ops;
    } else {
      var p := nums[..j + 2];
      var q := ops[..j + 1];
      assert p[..j + 1] == nums[..j + 1] && q[..j] == ops[..j];
      assert AddStep(PrecValue(nums[..j + 1], ops[..j]), ops[j], At(nums, j + 1)) == PrecValue(p, q);
      AddPassFolds(nums, ops, j + 1);
    }
  }

  /** When operands run out before operators and the last operator is '+'
      or '-', pass 2 reads past the end and ends in NaN. */
  lemma {:induction false} AddPassRunsOut(result: Num, nums: seq<Num>, ops: seq<char>, j: nat)
    requires |nums| <= |ops| && j < |ops|
    requires ops[|ops| - 1] == '+' || ops[|ops| - 1] == '-'
    ensures AddPass(result, nums, ops, j) == NaN
    decreases |ops| - j
  {
    if j < |ops| - 1 {
      AddPassRunsOut(AddStep(result, ops[j], At(nums, j + 1)), nums, ops, j + 1);
    }
  }

  // ---------------------------------------------------------------------
  // What the evaluator computes

  /** A well-formed stream evaluates to its precedence value clipped at 0,
      which is a number, never NaN. */
  lemma EvaluateWellFormed(expr: string)
    requires WellFormed(Tokens(Sanitize(expr)))
    ensures Evaluate(expr) == Max0(Precedence(Tokens(Sanitize(expr))))
    ensures Evaluate(expr).Finite? && Evaluate(expr).v >= 0.0
  {
    var ts := Tokens(Sanitize(expr));
    var nums, ops := NumsOf(ts, Operand), OpsOf(ts);
    WellFormedAlternates(ts, Operand);
    MulPassPreserves(nums, ops, 0);
    var passed := MulPass(nums, ops, 0);
    AddPassFolds(passed.0, passed.1, 0);
    assert passed.0[..1] == [passed.0[0]] && passed.1[..0] == [];
    PrecValueFinite(nums, ops);
  }

  /** A sign typed in front of a well-formed sum without products. */
  predicate LeadingSign(ts: seq<Token>) {
    ts != [] && (ts[0] == Operator('+') || ts[0] == Operator('-'))
    && WellFormed(ts[1..]) && NoProducts(ts)
  }

  /** A '+' or '-' in front of a well-formed product-free stream leaves one
      operator without a right operand, and the result is NaN. */
  lemma EvaluateLeadingSign(expr: string)
    requires LeadingSign(Tokens(Sanitize(expr)))
    ensures Evaluate(expr) == NaN
  {
    var ts := Tokens(Sanitize(expr));
    LeadingOperatorCounts(ts, Operand);
    var nums, ops := NumsOf(ts, Operand), OpsOf(ts);
    OpsWithoutProducts(ts);
    MulPassWithoutProducts(nums, ops, 0);
    LastOperator(ts);
    assert ts[|ts| - 2] != Operator('*') && IsOperatorChar(ts[|ts| - 2].op);
    var first := if nums == [] then Finite(0.0) else nums[0];
    AddPassRunsOut(first, nums, ops, 0);
  }

  /** `evaluateMathExpression`: sanitise, tokenise, split into operands and
      operators, multiply out every '*' in place, then fold '+' and '-' from
      the left, and clip at 0. */
  method EvaluateMathExpression(expr: string) returns (r: Num)
    ensures r == Evaluate(expr)
    ensures Sanitize(expr) == [] ==> r == Finite(0.0)
    ensures WellFormed(Tokens(Sanitize(expr))) ==>
      r.Finite? && r.v >= 0.0 && r == Max0(Precedence(Tokens(Sanitize(expr))))
    ensures LeadingSign(Tokens(Sanitize(expr))) ==> r == NaN
  {
    var sanitized := Sanitize(expr);
    if sanitized == [] {
      return Finite(0.0);
    }
    var tokens := Tokens(sanitized);
    if tokens == [] {
      return Finite(0.0);
    }
    var nums: seq<Num> := [];
    var ops: seq<char> := [];
    for k := 0 to |tokens|
      invariant nums == NumsOf(tokens[..k], Operand) && ops == OpsOf(tokens[..k])
    {
      assert tokens[..k + 1][..k] == tokens[..k];
      var token := tokens[k];
      if token.Operator? {
        ops := ops + [token.op];
      } else {
        nums := nums + [Finite(Operand(token))];
      }
    }
    assert tokens[..|tokens|] == tokens;
    // Pass 1: multiplication.
    ghost var passed := MulPass(nums, ops, 0);
    var i: nat := 0;
    while i < |ops|
      invariant MulPass(nums, ops, i) == passed
      decreases |ops|, |ops| - i
    {
      if ops[i] == '*' {
        nums := SpliceTwo(nums, i, NumMul(At(nums, i), At(nums, i + 1)));
        ops := ops[..i] + ops[i + 1..];
      } else {
        i := i + 1;
      }
    }
    // Pass 2: addition and subtraction.
    var result := if nums == [] then Finite(0.0) else nums[0];
    ghost var first := result;
    for j := 0 to |ops|
      invariant AddPass(result, nums, ops, j) == AddPass(first, nums, ops, 0)
    {
      if ops[j] == '+' {
        result := NumAdd(result, At(nums, j + 1));
      } else if ops[j] == '-' {
        result := NumSub(result, At(nums, j + 1));
      }
    }
    r := Max0(result);
    if WellFormed(tokens) {
      EvaluateWellFormed(expr);
    }
    if LeadingSign(tokens) {
      EvaluateLeadingSign(expr);
    }
  }

  /** The example the calculator is meant for: 2+3*4 is 14. */
  lemma PrecedenceSample()
    ensures PrecValue([Finite(2.0), Finite(3.0), Finite(4.0)], "+*") == Finite(14.0)
  {
    var nums := [Finite(2.0), Finite(3.0), Finite(4.0)];
    assert nums[..1] + [NumMul(nums[1], nums[2])] == [Finite(2.0), Finite(12.0)];
    assert "+*"[..1] == "+";
    assert [Finite(2.0), Finite(12.0)][..1] == [Finite(2.0)];
    assert "+"[..0] == "";
  }

  /** Typed "2+3*4" evaluates to 14. */
  lemma EvaluateSample(s: string)
    requires s == "2+3*4"
    ensures Evaluate(s) == Finite(14.0)
  {
    var ts := [Number("2"), Operator('+'), Number("3"), Operator('*'), Number("4")];
    TokensOfSample(s);
    assert WellFormed(ts);
    EvaluateWellFormed(s);
    SampleOperands(ts);
    PrecedenceSample();
  }

  lemma SampleOperands(ts: seq<Token>)
    requires ts == [Number("2"), Operator('+'), Number("3"), Operator('*'), Number("4")]
    ensures NumsOf(ts, Operand) == [Finite(2.0), Finite(3.0), Finite(4.0)]
    ensures OpsOf(ts) == "+*"
  {
    DigitValueOfOne('2');
    DigitValueOfOne('3');
    DigitValueOfOne('4');
    SplitFive(ts[0], ts[1], ts[2], ts[3], ts[4], Operand);
  }

  /** Splitting `n o n o n`. */
  lemma SplitFive(t0: Token, t1: Token, t2: Token, t3: Token, t4: Token, value: Token -> real)
    requires t0.Number? && t1.Operator? && t2.Number? && t3.Operator? && t4.Number?
    ensures NumsOf([t0, t1, t2, t3, t4], value) == [Finite(value(t0)), Finite(value(t2)), Finite(value(t4))]
    ensures OpsOf([t0, t1, t2, t3, t4]) == [t1.op, t3.op]
  {
    var s1 := [t0];
    var s2 := s1 + [t1];
    var s3 := s2 + [t2];
    var s4 := s3 + [t3];
    SplitSnoc([], value, t0);
    assert [] + [t0] == s1;
    SplitSnoc(s1, value, t1);
    SplitSnoc(s2, value, t2);
    SplitSnoc(s3, value, t3);
    SplitSnoc(s4, value, t4);
    assert s4 + [t4] == [t0, t1, t2, t3, t4];
  }

  // ---------------------------------------------------------------------
  // Saving the edited job

  /** The modal's editable state. The text fields hold '' where the job has
      no value; `totalPaid` is whatever the calculator last produced. */
  datatype EditForm = EditForm(
    customerName: string,
    phoneNumber: string,
    address: string,
    invoiceNumber: string,
    quoteNumber: string,
    description: string,
    date: string,
    estimatedDispatchDate: string,
    category: string,
    items: seq<JobItem>,
    measurements: seq<Measurement>,
    attachments: seq<Attachment>,
    totalPaid: Num)

  const EmptyItem := JobItem("", 0.0)
  const EmptyMeasurement := Measurement("", "", "")

  /** The item rows the modal opens with: one empty row for a job with no
      items. */
  function OpenItems(items: seq<JobItem>): (r: seq<JobItem>)
    ensures r != []
    ensures items != [] ==> r == items
  {
    if items != [] then items else [EmptyItem]
  }

  /** The measurement rows the modal opens with: the category effect, which
      also runs when the modal mounts, resets them to one empty row unless
      the job is a fabrication job; an absent or empty list gets one empty
      row. */
  function OpenMeasurements(category: string, rows: Option<seq<Measurement>>): (r: seq<Measurement>)
    ensures r != []
    ensures category == CategoryFabrication && rows.Some? && rows.value != [] ==> r == rows.value
  {
    if category != CategoryFabrication then [EmptyMeasurement]
    else if rows.Some? && rows.value != [] then rows.value
    else [EmptyMeasurement]
  }

  /** The state the modal opens with: missing values become '' or 0. */
  function OpenForm(job: Job): (form: EditForm)
    ensures form.items != [] && form.measurements != []
    ensures form.invoiceNumber == OrString(job.invoiceNumber, "")
    ensures form.quoteNumber == OrString(job.quoteNumber, "")
    ensures form.totalPaid == Finite(job.totalPaid.GetOr(0.0))
  {
    EditForm(
      job.customerName, job.phoneNumber, job.address,
      OrString(job.invoiceNumber, ""), OrString(job.quoteNumber, ""),
      job.description, job.date, OrString(job.estimatedDispatchDate, ""),
      job.category,
      OpenItems(job.items),
      OpenMeasurements(job.category, job.measurements),
      job.attachments.GetOr([]),
      Finite(job.totalPaid.GetOr(0.0)))
  }

  /** An item survives when its description is not blank or its price is
      positive. */
  predicate ItemKept(item: JobItem) {
    Trim(item.description) != "" || item.price > 0.0
  }

  /** A measurement row survives when any of its three cells is not blank. */
  predicate MeasurementKept(m: Measurement) {
    Trim(m.labelText) != "" || Trim(m.value) != "" || Trim(m.units) != ""
  }

  /** `s || undefined`. */
  function NonEmpty(s: string): (r: Option<string>)
    ensures r.None? <==> s == ""
    ensures r.Some? ==> r.value == s
  {
    if s == "" then None else Some(s)
  }

  /** `s.trim() || undefined`, for the invoice and quote numbers. */
  function TrimmedNumber(s: string): (r: Option<string>)
    ensures r.None? <==> Trim(s) == ""
    ensures r.Some? ==> r.value == Trim(s)
  {
    NonEmpty(Trim(s))
  }

  /** A saved number reopens as text that saves to the same number. */
  lemma TrimmedNumberStable(s: string)
    ensures TrimmedNumber(OrString(TrimmedNumber(s), "")) == TrimmedNumber(s)
  {
    TrimIdempotent(s);
  }

  /** The saved items: the kept ones, or all of them when none is kept. */
  function SavedItems(items: seq<JobItem>): (r: seq<JobItem>)
    ensures Filter(items, ItemKept) != [] ==> r == Filter(items, ItemKept)
    ensures Filter(items, ItemKept) == [] ==> r == items
  {
    var kept := Filter(items, ItemKept);
    if kept != [] then kept else items
  }

  /** The saved measurements: only for a fabrication job, the kept rows or
      all of them when none is kept. */
  function SavedMeasurements(category: string, rows: seq<Measurement>): (r: Option<seq<Measurement>>)
    ensures r.Some? <==> category == CategoryFabrication
    ensures r.Some? && Filter(rows, MeasurementKept) != [] ==> r.value == Filter(rows, MeasurementKept)
    ensures r.Some? && Filter(rows, MeasurementKept) == [] ==> r.value == rows
  {
    var kept := Filter(rows, MeasurementKept);
    if category == CategoryFabrication then Some(if kept != [] then kept else rows) else None
  }

  /** `attachments.length ? attachments : undefined`. */
  function SavedAttachments(attachments: seq<Attachment>): (r: Option<seq<Attachment>>)
    ensures r.None? <==> attachments == []
    ensures r.Some? ==> r.value == attachments
  {
    if attachments != [] then Some(attachments) else None
  }

  /** `totalPaid > 0 ? totalPaid : undefined`; NaN is not positive. */
  function SavedPayment(totalPaid: Num): (r: Option<real>)
    ensures r.Some? <==> totalPaid.Finite? && totalPaid.v > 0.0
    ensures r.Some? ==> r.value == totalPaid.v
  {
    if totalPaid.Finite? && totalPaid.v > 0.0 then Some(totalPaid.v) else None
  }

  /** The date the importance is computed from: the dispatch date, or the
      job date when there is none. */
  function DueDate(form: EditForm): string {
    if form.estimatedDispatchDate != "" then form.estimatedDispatchDate else form.date
  }

  /** `handleSave`: the job with the edited fields, the numbers trimmed, the
      importance recomputed from the due date, blank rows dropped, and empty
      collections and a non-positive payment left out. `urgency` is
      `getUrgencyFromDate` on the day of the save. */
  function SaveJob(job: Job, form: EditForm, urgency: string -> Importance): (r: Job)
    // The spread keeps every field the modal does not edit.
    ensures r.id == job.id && r.status == job.status && r.paymentHistory == job.paymentHistory
    ensures r.updatedAt == job.updatedAt && r.completedAt == job.completedAt
    ensures r.isDeleted == job.isDeleted && r.deletedAt == job.deletedAt
    ensures r.isArchived == job.isArchived && r.archivedAt == job.archivedAt
    ensures r.importance == urgency(DueDate(form)).Name()
    // The edited fields.
    ensures r.customerName == form.customerName && r.phoneNumber == form.phoneNumber
    ensures r.address == form.address && r.description == form.description
    ensures r.date == form.date && r.category == form.category
    ensures r.invoiceNumber.None? <==> Trim(form.invoiceNumber) == ""
    ensures r.quoteNumber.None? <==> Trim(form.quoteNumber) == ""
    ensures r.estimatedDispatchDate.None? <==> form.estimatedDispatchDate == ""
    ensures r.measurements.Some? <==> form.category == CategoryFabrication
    ensures r.attachments.None? <==> form.attachments == []
    ensures r.totalPaid.Some? <==> form.totalPaid.Finite? && form.totalPaid.v > 0.0
    // What the present ones hold.
    ensures r.invoiceNumber.Some? ==> r.invoiceNumber.value == Trim(form.invoiceNumber)
    ensures r.quoteNumber.Some? ==> r.quoteNumber.value == Trim(form.quoteNumber)
    ensures r.estimatedDispatchDate.Some? ==> r.estimatedDispatchDate.value == form.estimatedDispatchDate
    ensures r.attachments.Some? ==> r.attachments.value == form.attachments
    ensures r.totalPaid.Some? ==> r.totalPaid.value == form.totalPaid.v
    // The rows, as SavedItemsSpec and SavedMeasurements describe them.
    ensures r.items == SavedItems(form.items)
    ensures r.measurements == SavedMeasurements(form.category, form.measurements)
  {
    job.(
      customerName := form.customerName,
      phoneNumber := form.phoneNumber,
      address := form.address,
      invoiceNumber := TrimmedNumber(form.invoiceNumber),
      quoteNumber := TrimmedNumber(form.quoteNumber),
      importance := urgency(DueDate(form)).Name(),
      description := form.description,
      date := form.date,
      estimatedDispatchDate := NonEmpty(form.estimatedDispatchDate),
      category := form.category,
      items := SavedItems(form.items),
      measurements := SavedMeasurements(form.category, form.measurements),
      attachments := SavedAttachments(form.attachments),
      totalPaid := SavedPayment(form.totalPaid))
  }

  /** When any item is kept the saved items are exactly the kept ones, each
      as often as before; otherwise the rows are saved as they were. */
  lemma SavedItemsSpec(items: seq<JobItem>, item: JobItem)
    ensures (exists i :: 0 <= i < |items| && ItemKept(items[i])) ==>
      (forall i :: 0 <= i < |SavedItems(items)| ==> ItemKept(SavedItems(items)[i]))
      && multiset(SavedItems(items))[item] == if ItemKept(item) then multiset(items)[item] else 0
    ensures (forall i :: 0 <= i < |items| ==> !ItemKept(items[i])) ==> SavedItems(items) == items
  {
    FilterCount(items, ItemKept, item);
    FilterEmpty(items, ItemKept);
  }

  /** Reopening saved items and saving them again gives the same items. */
  lemma SavedItemsStable(items: seq<JobItem>)
    requires items != []
    ensures SavedItems(OpenItems(SavedItems(items))) == SavedItems(items)
  {
    var kept := Filter(items, ItemKept);
    if kept != [] {
      FilterAll(kept, ItemKept);
    }
  }

  /** Reopening saved measurements and saving them again gives the same
      measurements. */
  lemma SavedMeasurementsStable(category: string, rows: seq<Measurement>)
    requires rows != []
    ensures SavedMeasurements(category, OpenMeasurements(category, SavedMeasurements(category, rows)))
      == SavedMeasurements(category, rows)
  {
    var kept := Filter(rows, MeasurementKept);
    if kept != [] {
      FilterAll(kept, MeasurementKept);
    }
  }

  /** Saving, reopening and saving again on the same day gives the same job.
      The modal has no way to remove item or measurement rows, so its lists
      are never empty. */
  lemma SaveTwice(job: Job, form: EditForm, urgency: string -> Importance)
    requires form.items != [] && form.measurements != []
    ensures var saved := SaveJob(job, form, urgency);
      SaveJob(saved, OpenForm(saved), urgency) == saved
  {
    var saved := SaveJob(job, form, urgency);
    var again := OpenForm(saved);
    TrimmedNumberStable(form.invoiceNumber);
    TrimmedNumberStable(form.quoteNumber);
    SavedItemsStable(form.items);
    SavedMeasurementsStable(form.category, form.measurements);
    assert again.estimatedDispatchDate == form.estimatedDispatchDate;
    assert DueDate(again) == DueDate(form);
    assert SavedAttachments(again.attachments) == saved.attachments;
    assert SavedPayment(again.totalPaid) == saved.totalPaid;
    assert TrimmedNumber(again.invoiceNumber) == saved.invoiceNumber;
    assert TrimmedNumber(again.quoteNumber) == saved.quoteNumber;
    assert SavedItems(again.items) == saved.items;
    assert SavedMeasurements(again.category, again.measurements) == saved.measurements;
  }
}
