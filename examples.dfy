/** Concrete inputs, several of them from the service tests, worked through the model. */
module Examples {
  import opened Errors
  import opened Operand
  import opened Parsing
  import opened ParsingProperties
  import opened Evaluation

  /** The start and end checks win over everything the scan would find. */
  lemma BoundaryErrors()
    ensures Parsed("+2+3") == Err(StartsWithOperator)
    ensures Parsed(" 2+3") == Err(StartsWithOperator)
    ensures Parsed(".5+1") == Err(StartsWithOperator)
    ensures Parsed("2+3+") == Err(EndsWithOperator)
    ensures Parsed("2+3x") == Err(EndsWithOperator)
    ensures Parsed("2+3 ") == Err(EndsWithOperator)
  {
  }

  lemma SingleDigit(d: char)
    requires IsDigit(d)
    ensures ValidNumber([d]) && Value([d]) == DigitValue(d) as real
  {
    assert IsDigit([d][0]);
    assert DotIndex([d]) == 1;
    assert [d][..1] == [d];
    assert Whole([d]) == DigitValue(d) by {
      assert [d][..0] == [];
    }
  }

  // One step of the scan, for any state.

  lemma DigitStep(st: State, d: char)
    requires IsDigit(d)
    ensures Step(st, d) == Ok(st.(buf := st.buf + [d]))
  {
  }

  lemma DotStep(st: State)
    requires !EndsWithDot(st.buf)
    ensures Step(st, '.') == Ok(st.(buf := st.buf + ['.']))
  {
  }

  lemma OperatorAfterDigit(d: char, vs: seq<real>, os: seq<char>, c: char)
    requires IsDigit(d) && IsOperator(c)
    ensures Step(State([d], vs, os), c) == Ok(State("", vs + [DigitValue(d) as real], os + [c]))
  {
    SingleDigit(d);
    assert "." == ['.'];
  }

  lemma ScanCons(st: State, c: char, rest: string, next: State)
    requires Step(st, c) == Ok(next)
    ensures ScanFrom(st, [c] + rest) == ScanFrom(next, rest)
  {
    assert ([c] + rest)[0] == c && ([c] + rest)[1..] == rest;
  }

  lemma ScanConsErr(st: State, c: char, rest: string, e: Error)
    requires Step(st, c) == Err(e)
    ensures ScanFrom(st, [c] + rest) == Err(e)
  {
    assert ([c] + rest)[0] == c;
  }

  lemma ScanThree(st0: State, c0: char, st1: State, c1: char, st2: State, c2: char, st3: State)
    requires Step(st0, c0) == Ok(st1) && Step(st1, c1) == Ok(st2) && Step(st2, c2) == Ok(st3)
    ensures ScanFrom(st0, [c0, c1, c2]) == Ok(st3)
  {
    assert ScanFrom(st3, []) == Ok(st3);
    ScanCons(st2, c2, [], st3);
    ScanCons(st1, c1, [c2], st2);
    ScanCons(st0, c0, [c1, c2], st1);
    assert [c2] + [] == [c2] && [c1] + [c2] == [c1, c2] && [c0] + [c1, c2] == [c0, c1, c2];
  }

  lemma ScanOnePlusTwo()
    ensures ScanFrom(Start, "1+2") == Ok(State("2", [1.0], ['+']))
  {
    var st1, st2, st3 := State("1", [], []), State("", [1.0], ['+']), State("2", [1.0], ['+']);
    DigitStep(Start, '1');
    assert Start.buf + ['1'] == "1";
    OperatorAfterDigit('1', [], [], '+');
    assert DigitValue('1') as real == 1.0 && [] + [1.0] == [1.0] && [] + ['+'] == ['+'];
    DigitStep(st2, '2');
    assert st2.buf + ['2'] == "2";
    ScanThree(Start, '1', st1, '+', st2, '2', st3);
    assert "1+2" == ['1', '+', '2'];
  }

  lemma ParsedOnePlusTwo()
    ensures Parsed("1+2") == Ok(Expression([1.0, 2.0], ['+']))
  {
    var s := "1+2";
    ScanOnePlusTwo();
    SingleDigit('2');
    assert "2" == ['2'] && DigitValue('2') as real == 2.0;
    assert IsDigit(s[0]) && IsDigit(s[|s| - 1]);
    ParsedAfterScan(s, State("2", [1.0], ['+']));
    assert [1.0] + [2.0] == [1.0, 2.0];
  }

  /** Evaluation of a parsed expression, for any text. */
  lemma CalculatedFromParsed(s: string, x: Expression)
    requires |s| > 0 && Parsed(s) == Ok(x)
    ensures Calculated(s) == Fold(x.operands, x.operators)
  {
  }

  lemma FoldOne(a: real, op: char, b: real)
    requires op in Operations
    ensures Fold([a, b], [op]) == Ok(Operations[op](a, b))
  {
    assert [a, b][..1] == [a] && [op][..0] == [];
  }

  lemma FoldTwo(a: real, op: char, b: real, op': char, c: real)
    requires op in Operations && op' in Operations
    ensures Fold([a, b, c], [op, op']) == Ok(Operations[op'](Operations[op](a, b), c))
  {
    FoldOne(a, op, b);
    assert [a, b, c][..2] == [a, b] && [op, op'][..1] == [op];
  }

  lemma OnePlusTwo()
    ensures Calculated("1+2") == Ok(3.0)
  {
    ParsedOnePlusTwo();
    CalculatedFromParsed("1+2", Expression([1.0, 2.0], ['+']));
    OperationsCoverOperators('+');
    FoldOne(1.0, '+', 2.0);
  }

  lemma ParsedDoubleOperator()
    ensures Parsed("1++2") == Err(ConsecutiveOperators)
  {
    var s := "1++2";
    var st1, st2 := State("1", [], []), State("", [1.0], ['+']);
    DigitStep(Start, '1');
    assert Start.buf + ['1'] == "1";
    OperatorAfterDigit('1', [], [], '+');
    assert DigitValue('1') as real == 1.0 && [] + [1.0] == [1.0] && [] + ['+'] == ['+'];
    assert Step(st2, '+') == Err(ConsecutiveOperators);
    ScanConsErr(st2, '+', "2", ConsecutiveOperators);
    ScanCons(st1, '+', "+2", st2);
    ScanCons(Start, '1', "++2", st1);
    assert ['+'] + "2" == "+2" && ['+'] + "+2" == "++2" && ['1'] + "++2" == s;
    assert IsDigit(s[0]) && IsDigit(s[|s| - 1]);
  }

  lemma ParsedDoubleDot()
    ensures Parsed("2..5+3") == Err(DoubleDot)
  {
    var s := "2..5+3";
    var st1, st2 := State("2", [], []), State("2.", [], []);
    DigitStep(Start, '2');
    assert Start.buf + ['2'] == "2";
    DotStep(st1);
    assert "2" + ['.'] == "2.";
    assert Step(st2, '.') == Err(DoubleDot);
    ScanConsErr(st2, '.', "5+3", DoubleDot);
    ScanCons(st1, '.', ".5+3", st2);
    ScanCons(Start, '2', "..5+3", st1);
    assert ['.'] + "5+3" == ".5+3" && ['.'] + ".5+3" == "..5+3" && ['2'] + "..5+3" == s;
    assert IsDigit(s[0]) && IsDigit(s[|s| - 1]);
  }

  lemma ParsedTab()
    ensures Parsed("2\t+3") == Err(InvalidCharacter)
  {
    var s := "2\t+3";
    var st1 := State("2", [], []);
    DigitStep(Start, '2');
    assert Start.buf + ['2'] == "2";
    assert Step(st1, '\t') == Err(InvalidCharacter);
    ScanConsErr(st1, '\t', "+3", InvalidCharacter);
    ScanCons(Start, '2', "\t+3", st1);
    assert ['\t'] + "+3" == "\t+3" && ['2'] + "\t+3" == s;
    assert IsDigit(s[0]) && IsDigit(s[|s| - 1]);
  }

  lemma ScanFive(st0: State, c0: char, st1: State, c1: char, st2: State, c2: char,
                  st3: State, c3: char, st4: State, c4: char, st5: State)
    requires Step(st0, c0) == Ok(st1) && Step(st1, c1) == Ok(st2)
    requires Step(st2, c2) == Ok(st3) && Step(st3, c3) == Ok(st4) && Step(st4, c4) == Ok(st5)
    ensures ScanFrom(st0, [c0, c1, c2, c3, c4]) == Ok(st5)
  {
    ScanThree(st2, c2, st3, c3, st4, c4, st5);
    ScanCons(st1, c1, [c2, c3, c4], st2);
    ScanCons(st0, c0, [c1, c2, c3, c4], st1);
    assert [c1] + [c2, c3, c4] == [c1, c2, c3, c4];
    assert [c0] + [c1, c2, c3, c4] == [c0, c1, c2, c3, c4];
  }

  lemma ScanTwoDots()
    ensures ScanFrom(Start, "1.2.3") == Ok(State("1.2.3", [], []))
  {
    var st1, st2, st3, st4, st5 :=
      State("1", [], []), State("1.", [], []), State("1.2", [], []),
      State("1.2.", [], []), State("1.2.3", [], []);
    DigitStep(Start, '1');
    assert Start.buf + ['1'] == "1";
    DotStep(st1);
    assert "1" + ['.'] == "1.";
    DigitStep(st2, '2');
    assert "1." + ['2'] == "1.2";
    DotStep(st3);
    assert "1.2" + ['.'] == "1.2.";
    DigitStep(st4, '3');
    assert "1.2." + ['3'] == "1.2.3";
    ScanFive(Start, '1', st1, '.', st2, '2', st3, '.', st4, '3', st5);
    assert "1.2.3" == ['1', '.', '2', '.', '3'];
  }

  /** Dots separated by a digit pass the scan and fail only at conversion. */
  lemma ParsedTwoDots()
    ensures Parsed("1.2.3") == Err(NumberFormat("1.2.3"))
  {
    var s := "1.2.3";
    ScanTwoDots();
    assert !ValidNumber("1.2.3") by {
      assert "1.2.3" == ['1'] + ".2.3" && ".2.3" == ['.'] + "2.3";
      assert "2.3" == ['2'] + ".3" && ".3" == ['.'] + "3";
    }
    assert IsDigit(s[0]) && IsDigit(s[|s| - 1]);
    ParsedAfterScan(s, State("1.2.3", [], []));
  }

  lemma ScanTwoPlusThreeTimesFour()
    ensures ScanFrom(Start, "2+3*4") == Ok(State("4", [2.0, 3.0], ['+', '*']))
  {
    var st1, st2 := State("2", [], []), State("", [2.0], ['+']);
    var st3, st4 := State("3", [2.0], ['+']), State("", [2.0, 3.0], ['+', '*']);
    var st5 := State("4", [2.0, 3.0], ['+', '*']);
    DigitStep(Start, '2');
    assert Start.buf + ['2'] == "2";
    OperatorAfterDigit('2', [], [], '+');
    assert DigitValue('2') as real == 2.0 && [] + [2.0] == [2.0] && [] + ['+'] == ['+'];
    DigitStep(st2, '3');
    assert st2.buf + ['3'] == "3";
    OperatorAfterDigit('3', [2.0], ['+'], '*');
    assert DigitValue('3') as real == 3.0 && [2.0] + [3.0] == [2.0, 3.0];
    assert ['+'] + ['*'] == ['+', '*'];
    DigitStep(st4, '4');
    assert st4.buf + ['4'] == "4";
    ScanFive(Start, '2', st1, '+', st2, '3', st3, '*', st4, '4', st5);
    assert "2+3*4" == ['2', '+', '3', '*', '4'];
  }

  /** Left to right, no precedence: (2 + 3) * 4. */
  lemma ParsedTwoPlusThreeTimesFour()
    ensures Parsed("2+3*4") == Ok(Expression([2.0, 3.0, 4.0], ['+', '*']))
  {
    var s := "2+3*4";
    ScanTwoPlusThreeTimesFour();
    SingleDigit('4');
    assert "4" == ['4'] && DigitValue('4') as real == 4.0;
    assert IsDigit(s[0]) && IsDigit(s[|s| - 1]);
    ParsedAfterScan(s, State("4", [2.0, 3.0], ['+', '*']));
    assert [2.0, 3.0] + [4.0] == [2.0, 3.0, 4.0];
  }

  lemma TwoPlusThreeTimesFour()
    ensures Calculated("2+3*4") == Ok(20.0)
  {
    ParsedTwoPlusThreeTimesFour();
    CalculatedFromParsed("2+3*4", Expression([2.0, 3.0, 4.0], ['+', '*']));
    OperationsCoverOperators('+');
    FoldTwo(2.0, '+', 3.0, '*', 4.0);
  }

  lemma SpacesIgnored()
    ensures Calculated("2 + 3") == Calculated("2+3")
  {
    var s := "2 + 3";
    assert s[1..] == " + 3" && s[1..][1..] == "+ 3" && s[1..][1..][1..] == " 3";
    assert s[1..][1..][1..][1..] == "3" && s[1..][1..][1..][1..][1..] == "";
    assert RemoveSpaces("3") == "3" by { assert "3"[1..] == ""; }
    assert RemoveSpaces(" 3") == "3";
    assert RemoveSpaces("+ 3") == "+3";
    assert RemoveSpaces(" + 3") == "+3";
    assert RemoveSpaces(s) == "2+3";
    CalculatedIgnoresSpaces(s);
  }

  /** Operand texts with a dot: the parser accepts a dot at either end of the digits. */
  lemma DecimalOperands()
    ensures ValidNumber("2.5") && Value("2.5") == 2.5
    ensures ValidNumber(".5") && Value(".5") == 0.5
    ensures ValidNumber("5.") && Value("5.") == 5.0
    ensures !ValidNumber(".") && !ValidNumber("")
  {
    assert DigitValue('2') == 2 && DigitValue('5') == 5;
    assert "2.5"[0] == '2' && "2.5"[1] == '.' && "2.5"[2] == '5';
    assert DotIndex("2.5") == 1 by { assert "2.5"[1..] == ".5"; }
    assert "2.5"[..1] == "2" && "2.5"[2..] == "5";
    assert Whole("2") == 2 by { assert "2"[..0] == ""; }
    assert Whole("5") == 5 by { assert "5"[..0] == ""; }
    assert Pow10(1) == 10;
    assert DotIndex(".5") == 0 && ".5"[..0] == "" && ".5"[1..] == "5";
    assert DotIndex("5.") == 1 by { assert "5."[1..] == "."; }
    assert "5."[..1] == "5" && "5."[2..] == "";
    assert IsDigit("2.5"[0]) && IsDigit(".5"[1]) && IsDigit("5."[0]);
    assert "."[0] == '.';
  }
}
