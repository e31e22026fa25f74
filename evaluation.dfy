/** The evaluator and entry point of calculable.go: `CalculateExpression` folds the parsed
    operands and operators strictly left to right through the `operations` table and hands
    the value to the caller's `SetResult`. */
module Evaluation {
  import opened Errors
  import opened Operand
  import opened Parsing
  import opened ParsingProperties

  /** Division as the model computes it: a divisor of zero yields 0.0 (see README). */
  function Quotient(a: real, b: real): (q: real)
    ensures b != 0.0 ==> q * b == a
    ensures b == 0.0 ==> q == 0.0
  {
    if b == 0.0 then 0.0 else a / b
  }

  /** The `operations` table: one binary operation per operator character. */
  const Operations: map<char, (real, real) -> real> :=
    map['+' := (a: real, b: real) => a + b,
        '-' := (a: real, b: real) => a - b,
        '*' := (a: real, b: real) => a * b,
        '/' := (a: real, b: real) => Quotient(a, b)]

  /** The table has an entry for exactly the operator characters the scan accepts, and
      each entry is the arithmetic its character names. */
  lemma OperationsCoverOperators(c: char)
    ensures c in Operations <==> IsOperator(c)
    ensures forall a: real, b: real :: Operations['+'](a, b) == a + b
    ensures forall a: real, b: real :: Operations['-'](a, b) == a - b
    ensures forall a: real, b: real :: Operations['*'](a, b) == a * b
    ensures forall a: real, b: real :: Operations['/'](a, b) == Quotient(a, b)
  {
  }

  /** The left fold ((o0 op0 o1) op1 o2) ...: the last operator is applied last, to the fold
      of everything before it. Any operator without a table entry gives UnknownOperator. */
  function Fold(operands: seq<real>, operators: seq<char>): (r: Result<real>)
    requires |operands| == |operators| + 1
    ensures r.Err? <==> exists k :: 0 <= k < |operators| && operators[k] !in Operations
    ensures r.Err? ==> r.error == UnknownOperator
    decreases |operators|
  {
    if operators == [] then Ok(operands[0])
    else
      var n := |operators| - 1;
      match Fold(operands[..n + 1], operators[..n])
      case Err(e) => Err(e)
      case Ok(acc) =>
        if operators[n] in Operations then Ok(Operations[operators[n]](acc, operands[n + 1]))
        else Err(UnknownOperator)
  }

  /** No precedence: applying the leftmost operator first and continuing with its value in
      place of the first two operands gives the same result. */
  lemma {:induction false} FoldLeftmostFirst(a: real, b: real, rest: seq<real>, op: char, ops: seq<char>)
    requires |rest| == |ops| && op in Operations
    ensures Fold([a, b] + rest, [op] + ops) == Fold([Operations[op](a, b)] + rest, ops)
    decreases |ops|
  {
    var v := Operations[op](a, b);
    if ops == [] {
      assert ([a, b] + rest)[..1] == [a];
      assert ([op] + ops)[..0] == [];
    } else {
      var n := |ops|;
      var xs, os := [a, b] + rest, [op] + ops;
      var ys := [v] + rest;
      FoldLeftmostFirst(a, b, rest[..n - 1], op, ops[..n - 1]);
      assert xs[..n + 1] == [a, b] + rest[..n - 1];
      assert os[..n] == [op] + ops[..n - 1];
      assert ys[..n] == [v] + rest[..n - 1];
      assert os[n] == ops[n - 1] && xs[n + 1] == ys[n];
    }
  }

  /** The loop of `CalculateExpression`: the accumulator starts at the first operand and each
      operator combines it with the next operand. */
  method Evaluate(e: Expression) returns (r: Result<real>)
    requires |e.operands| == |e.operators| + 1
    ensures r == Fold(e.operands, e.operators)
  {
    var result := e.operands[0];
    assert e.operands[..1] == [e.operands[0]];
    for i := 0 to |e.operators|
      invariant Fold(e.operands[..i + 1], e.operators[..i]) == Ok(result)
    {
      var op := e.operators[i];
      assert e.operands[..i + 2][..i + 1] == e.operands[..i + 1];
      assert e.operators[..i + 1][..i] == e.operators[..i];
      if op !in Operations {
        assert e.operators[i] !in Operations;
        return Err(UnknownOperator);
      }
      result := Operations[op](result, e.operands[i + 1]);
    }
    assert e.operands[..|e.operators| + 1] == e.operands;
    assert e.operators[..|e.operators|] == e.operators;
    r := Ok(result);
  }

  /** What `CalculateExpression` computes for an expression text. */
  function Calculated(s: string): (r: Result<real>)
    requires |s| > 0
    ensures Parsed(s).Err? ==> r == Err(Parsed(s).error)
    ensures Parsed(s).Ok? ==> r.Ok?
    ensures r != Err(UnknownOperator)
  {
    match Parsed(s)
    case Err(e) => Err(e)
    case Ok(x) => Fold(x.operands, x.operators)
  }

  /** End to end: evaluation succeeds exactly on WellFormed input, and the value is the
      left fold of the operand texts' values. */
  lemma CalculatedCharacterization(s: string)
    requires |s| > 0
    ensures Calculated(s).Ok? <==> WellFormed(s)
    ensures Calculated(s).Ok? ==>
      var S := Segments(RemoveSpaces(s));
      |S| == |OperatorsOf(s)| + 1 && Calculated(s) == Fold(Values(S), OperatorsOf(s))
  {
    ParsedCharacterization(s);
  }

  /** Interior spaces do not change the value. */
  lemma CalculatedIgnoresSpaces(s: string)
    requires |s| > 0 && IsDigit(s[0]) && IsDigit(s[|s| - 1])
    ensures |RemoveSpaces(s)| > 0 && Calculated(s) == Calculated(RemoveSpaces(s))
  {
    ParsedIgnoresSpaces(s);
  }

  /** The object `CalculateExpression` is given: it yields the expression text and receives the
      result. `results` records every value passed to SetResult, in order. */
  class Calculation {
    var expression: string
    var result: real
    ghost var results: seq<real>

    constructor (expression: string)
      ensures this.expression == expression && results == []
    {
      this.expression := expression;
      result := 0.0;
      results := [];
    }

    function GetExpression(): (e: string)
      reads this
      ensures e == expression
    {
      expression
    }

    method SetResult(value: real)
      modifies this
      ensures result == value && results == old(results) + [value]
      ensures expression == old(expression)
    {
      result := value;
      results := results + [value];
    }
  }

  datatype Outcome = Pass | Fail(error: Error)

  /** `CalculateExpression`: parse, fold, and on success call SetResult exactly once with the
      value; on any error return it and leave the object untouched. */
  method CalculateExpression(c: Calculation) returns (outcome: Outcome)
    requires |c.expression| > 0
    modifies c
    ensures c.expression == old(c.expression)
    ensures outcome.Pass? <==> Calculated(old(c.expression)).Ok?
    ensures outcome.Fail? ==>
      && Calculated(old(c.expression)) == Err(outcome.error)
      && c.result == old(c.result) && c.results == old(c.results)
    ensures outcome.Pass? ==>
      && c.result == Calculated(old(c.expression)).value
      && c.results == old(c.results) + [c.result]
  {
    var text := c.GetExpression();
    var parsed := Parse(text);
    if parsed.Err? {
      return Fail(parsed.error);
    }
    var value := Evaluate(parsed.value);
    if value.Err? {
      return Fail(value.error);
    }
    c.SetResult(value.value);
    outcome := Pass;
  }
}
