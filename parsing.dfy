/** The tokenizer/validator `parsing` of calculable.go: one left-to-right scan over the
    characters, keeping the current operand's text in a buffer and building the operand and
    operator slices, failing at the first illegal character. */
module Parsing {
  import opened Errors
  import opened Operand

  /** The `expression` record: operands and the operators between them. */
  datatype Expression = Expression(operands: seq<real>, operators: seq<char>)

  predicate IsOperator(c: char) {
    c == '+' || c == '-' || c == '*' || c == '/'
  }

  /** The characters the scan does not reject outright. Only ' ' counts as a space. */
  predicate Allowed(c: char) {
    c == ' ' || c == '.' || IsDigit(c) || IsOperator(c)
  }

  predicate AllAllowed(s: string) {
    forall i :: 0 <= i < |s| ==> Allowed(s[i])
  }

  predicate NoOperator(t: string) {
    forall j :: 0 <= j < |t| ==> !IsOperator(t[j])
  }

  function RemoveSpaces(s: string): (r: string)
    ensures forall i :: 0 <= i < |r| ==> r[i] != ' '
  {
    if s == [] then [] else (if s[0] == ' ' then [] else [s[0]]) + RemoveSpaces(s[1..])
  }

  /** The operator characters of `s`, in textual order. */
  function OperatorsOf(s: string): (r: seq<char>)
    ensures forall i :: 0 <= i < |r| ==> IsOperator(r[i])
  {
    if s == [] then [] else (if IsOperator(s[0]) then [s[0]] else []) + OperatorsOf(s[1..])
  }

  /** The texts between consecutive operators of `t` (and before the first, after the last). */
  function Segments(t: string): (segs: seq<string>)
    ensures |segs| == |OperatorsOf(t)| + 1
    ensures forall k :: 0 <= k < |segs| ==> NoOperator(segs[k])
  {
    if t == [] then [[]]
    else if IsOperator(t[0]) then [[]] + Segments(t[1..])
    else
      var rest := Segments(t[1..]);
      [[t[0]] + rest[0]] + rest[1..]
  }

  /** Puts the operators back between the segments. */
  function Joined(segs: seq<string>, ops: seq<char>): string
    requires |segs| == |ops| + 1
  {
    if ops == [] then segs[0] else segs[0] + [ops[0]] + Joined(segs[1..], ops[1..])
  }

  function Values(segs: seq<string>): (vs: seq<real>)
    ensures |vs| == |segs|
    ensures forall k :: 0 <= k < |segs| ==> vs[k] == Value(segs[k])
  {
    seq(|segs|, k requires 0 <= k < |segs| => Value(segs[k]))
  }

  /** The inputs that parse: a digit first and last, only allowed characters, and every
      operand text between operators (spaces removed) a decimal number. */
  predicate WellFormed(s: string) {
    && |s| > 0 && IsDigit(s[0]) && IsDigit(s[|s| - 1])
    && AllAllowed(s)
    && var segs := Segments(RemoveSpaces(s));
       forall k :: 0 <= k < |segs| ==> ValidNumber(segs[k])
  }

  // ---------------------------------------------------------------------------
  // The scan as a state machine

  /** Scan state: the current operand's text and the slices built so far. */
  datatype State = State(buf: string, operands: seq<real>, operators: seq<char>)

  const Start: State := State("", [], [])

  /** One character of the scan (the body of the `switch`). */
  function Step(st: State, c: char): (r: Result<State>)
    ensures r.Err? ==> r.error != UnknownOperator
    ensures r.Ok? ==> r.value.operators == st.operators + (if IsOperator(c) then [c] else [])
    ensures r.Ok? ==> |r.value.operands| + |st.operators| == |st.operands| + |r.value.operators|
  {
    if c == ' ' then Ok(st)
    else if c == '.' then
      if EndsWithDot(st.buf) then Err(DoubleDot) else Ok(st.(buf := st.buf + [c]))
    else if IsDigit(c) then Ok(st.(buf := st.buf + [c]))
    else if IsOperator(c) then
      if st.buf == "" || st.buf == "." then Err(ConsecutiveOperators)
      else if !ValidNumber(st.buf) then Err(NumberFormat(st.buf))
      else Ok(State("", st.operands + [Value(st.buf)], st.operators + [c]))
    else Err(InvalidCharacter)
  }

  /** Each error of Step and exactly when it happens: a character outside the alphabet, a
      second dot in a row, an operator with no operand text before it, and an operand text
      that does not convert when its operator arrives (the error carries that text). */
  lemma StepErrors(st: State, c: char)
    ensures Step(st, c) == Err(InvalidCharacter) <==> !Allowed(c)
    ensures Step(st, c) == Err(DoubleDot) <==> c == '.' && EndsWithDot(st.buf)
    ensures Step(st, c) == Err(ConsecutiveOperators) <==>
      IsOperator(c) && (st.buf == "" || st.buf == ".")
    ensures Step(st, c) == Err(NumberFormat(st.buf)) <==>
      IsOperator(c) && st.buf != "" && st.buf != "." && !ValidNumber(st.buf)
    ensures Step(st, c).Err? && Step(st, c).error.NumberFormat? ==>
      Step(st, c) == Err(NumberFormat(st.buf))
  {
  }

  /** Runs Step over `s`, stopping at the first error. */
  function ScanFrom(st: State, s: string): (r: Result<State>)
    ensures r.Err? ==> r.error != UnknownOperator
    ensures r.Ok? ==> r.value.operators == st.operators + OperatorsOf(s)
    ensures r.Ok? ==> |r.value.operands| + |st.operators| == |st.operands| + |r.value.operators|
    decreases |s|
  {
    if s == [] then Ok(st)
    else match Step(st, s[0])
      case Err(e) => Err(e)
      case Ok(next) =>
        assert OperatorsOf(s) == (if IsOperator(s[0]) then [s[0]] else []) + OperatorsOf(s[1..]);
        ScanFrom(next, s[1..])
  }

  /** What `parsing` returns: the start and end checks, the scan, then the conversion of
      the last operand. */
  function Parsed(s: string): (r: Result<Expression>)
    requires |s| > 0
    ensures r.Err? ==> r.error != UnknownOperator
    ensures r.Ok? ==> |r.value.operands| == |r.value.operators| + 1
    ensures r.Ok? ==> r.value.operators == OperatorsOf(s)
  {
    if !IsDigit(s[0]) then Err(StartsWithOperator)
    else if !IsDigit(s[|s| - 1]) then Err(EndsWithOperator)
    else match ScanFrom(Start, s)
      case Err(e) => Err(e)
      case Ok(st) =>
        if ValidNumber(st.buf) then Ok(Expression(st.operands + [Value(st.buf)], st.operators))
        else Err(NumberFormat(st.buf))
  }

  /** The scan loop of `parsing`, with a mutable buffer and growing slices. */
  method Parse(input: string) returns (r: Result<Expression>)
    requires |input| > 0
    ensures r == Parsed(input)
  {
    if !IsDigit(input[0]) {
      return Err(StartsWithOperator);
    }
    if !IsDigit(input[|input| - 1]) {
      return Err(EndsWithOperator);
    }
    var buf := "";
    var operands: seq<real> := [];
    var operators: seq<char> := [];
    for i := 0 to |input|
      invariant ScanFrom(Start, input) == ScanFrom(State(buf, operands, operators), input[i..])
    {
      var c := input[i];
      assert input[i..][0] == c && input[i..][1..] == input[i + 1..];
      if c == ' ' {
      } else if c == '.' || IsDigit(c) {
        if c == '.' && |buf| > 0 && buf[|buf| - 1] == '.' {
          return Err(DoubleDot);
        }
        buf := buf + [c];
      } else if IsOperator(c) {
        if buf == "" || buf == "." {
          return Err(ConsecutiveOperators);
        }
        if !ValidNumber(buf) {
          return Err(NumberFormat(buf));
        }
        operands := operands + [Value(buf)];
        operators := operators + [c];
        buf := "";
      } else {
        return Err(InvalidCharacter);
      }
    }
    assert input[|input|..] == [];
    if !ValidNumber(buf) {
      return Err(NumberFormat(buf));
    }
    r := Ok(Expression(operands + [Value(buf)], operators));
  }
}
