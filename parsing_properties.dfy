/** What `parsing` guarantees, proved about its specification Parsing.Parsed. */
module ParsingProperties {
  import opened Errors
  import opened Operand
  import opened Parsing

  /** The segments still ahead of a scan whose buffer holds `b`: `b` continues the first one. */
  function Attach(b: string, segs: seq<string>): seq<string>
    requires |segs| > 0
  {
    [b + segs[0]] + segs[1..]
  }

  /** What the scan itself accepts of the segments: every closed one converts to a number,
      and the open last one has no two adjacent dots. */
  predicate ScanAccepts(segs: seq<string>)
    requires |segs| > 0
  {
    && (forall k :: 0 <= k < |segs| - 1 ==> ValidNumber(segs[k]))
    && NoDoubleDot(segs[|segs| - 1])
  }

  /** Joining the segments with the operators gives back the text: the segments are exactly
      the texts between consecutive operators. */
  lemma {:induction false} SegmentsJoin(t: string)
    ensures Joined(Segments(t), OperatorsOf(t)) == t
  {
    if t != [] {
      SegmentsJoin(t[1..]);
      var rest := Segments(t[1..]);
      var ops := OperatorsOf(t[1..]);
      if IsOperator(t[0]) {
        assert OperatorsOf(t) == [t[0]] + ops;
        assert Segments(t) == [[]] + rest;
        assert ([[]] + rest)[1..] == rest;
        assert ([t[0]] + ops)[1..] == ops;
        assert t == [] + [t[0]] + t[1..];
      } else {
        assert OperatorsOf(t) == ops;
        JoinedPrefix(t[0], rest, ops);
        assert t == [t[0]] + t[1..];
      }
    }
  }

  lemma JoinedPrefix(c: char, segs: seq<string>, ops: seq<char>)
    requires |segs| == |ops| + 1
    ensures Joined([[c] + segs[0]] + segs[1..], ops) == [c] + Joined(segs, ops)
  {
    var segs' := [[c] + segs[0]] + segs[1..];
    assert segs'[1..] == segs[1..];
  }

  /** What ScanFromSegments promises for one state and remaining input. */
  predicate ScanMatchesSegments(st: State, s: string) {
    var all := Attach(st.buf, Segments(RemoveSpaces(s)));
    && (ScanFrom(st, s).Ok? <==> AllAllowed(s) && ScanAccepts(all))
    && (ScanFrom(st, s).Ok? ==>
          ScanFrom(st, s).value
          == State(all[|all| - 1], st.operands + Values(all[..|all| - 1]), st.operators + OperatorsOf(s)))
  }

  lemma AllAllowedCons(s: string)
    requires s != []
    ensures AllAllowed(s) <==> Allowed(s[0]) && AllAllowed(s[1..])
  {
    assert forall i :: 0 < i < |s| ==> s[i] == s[1..][i - 1];
  }

  /** A dot on a buffer that ends in a dot: the scan fails, and so does ScanAccepts. */
  lemma ScanSegmentsDoubleDot(st: State, s: string)
    requires s != [] && s[0] == '.' && EndsWithDot(st.buf)
    ensures ScanMatchesSegments(st, s)
  {
    var t := RemoveSpaces(s[1..]);
    var S := Segments(t);
    assert RemoveSpaces(s) == ['.'] + t;
    var all := Attach(st.buf, Segments(RemoveSpaces(s)));
    assert all[0] == st.buf + (['.'] + S[0]);
    var p := |st.buf| - 1;
    assert all[0][p] == '.' && all[0][p + 1] == '.';
    assert !NoDoubleDot(all[0]);
    assert !ScanAccepts(all);
  }

  lemma TailOfCons<T>(x: T, xs: seq<T>)
    ensures ([x] + xs)[1..] == xs
  {
  }

  lemma SegmentsCons(c: char, t: string)
    requires !IsOperator(c)
    ensures Segments([c] + t) == [[c] + Segments(t)[0]] + Segments(t)[1..]
  {
    assert ([c] + t)[0] == c;
    TailOfCons(c, t);
  }

  /** A digit or dot in front of the input joins the buffer's segment. */
  lemma ExtendSegments(b: string, s: string)
    requires s != [] && (IsDigit(s[0]) || s[0] == '.')
    ensures Attach(b, Segments(RemoveSpaces(s))) == Attach(b + [s[0]], Segments(RemoveSpaces(s[1..])))
    ensures OperatorsOf(s) == OperatorsOf(s[1..])
  {
    var c := s[0];
    var t := RemoveSpaces(s[1..]);
    var S := Segments(t);
    assert RemoveSpaces(s) == [c] + t;
    SegmentsCons(c, t);
    TailOfCons([c] + S[0], S[1..]);
    AppendAssoc(b, [c], S[0]);
  }

  /** A digit, or a dot that is not a second dot, extends the buffer and the first segment. */
  lemma ScanSegmentsExtend(st: State, s: string)
    requires s != [] && (IsDigit(s[0]) || (s[0] == '.' && !EndsWithDot(st.buf)))
    requires NoDoubleDot(st.buf)
    requires ScanMatchesSegments(st.(buf := st.buf + [s[0]]), s[1..])
    ensures ScanMatchesSegments(st, s)
  {
    var st' := st.(buf := st.buf + [s[0]]);
    AllAllowedCons(s);
    assert Step(st, s[0]) == Ok(st');
    assert ScanFrom(st, s) == ScanFrom(st', s[1..]);
    ExtendSegments(st.buf, s);
  }

  lemma OperatorSegments(b: string, s: string)
    requires s != [] && IsOperator(s[0])
    ensures Attach(b, Segments(RemoveSpaces(s))) == [b] + Segments(RemoveSpaces(s[1..]))
    ensures OperatorsOf(s) == [s[0]] + OperatorsOf(s[1..])
  {
    var t := RemoveSpaces(s[1..]);
    assert RemoveSpaces(s) == [s[0]] + t;
    assert Segments(RemoveSpaces(s)) == [[]] + Segments(t);
    assert b + [] == b;
  }

  /** An operator on a buffer that does not convert: the scan fails, and so does ScanAccepts. */
  lemma ScanSegmentsOperatorReject(st: State, s: string)
    requires s != [] && IsOperator(s[0]) && !ValidNumber(st.buf)
    ensures ScanMatchesSegments(st, s)
  {
    OperatorSegments(st.buf, s);
    assert !ValidNumber("");
    assert !ValidNumber(".") by { assert "."[0] == '.'; }
    assert ScanFrom(st, s).Err?;
    var all := Attach(st.buf, Segments(RemoveSpaces(s)));
    assert |all| >= 2 && all[0] == st.buf;
    assert !ScanAccepts(all);
  }

  lemma ValuesCons(x: string, xs: seq<string>)
    ensures Values([x] + xs) == [Value(x)] + Values(xs)
  {
  }

  lemma ValuesSnoc(xs: seq<string>, x: string)
    ensures Values(xs + [x]) == Values(xs) + [Value(x)]
  {
  }

  lemma ScanAcceptsCons(b: string, S: seq<string>)
    requires |S| > 0
    ensures ScanAccepts([b] + S) <==> ValidNumber(b) && ScanAccepts(S)
  {
    var all := [b] + S;
    assert all[0] == b;
    assert all[|all| - 1] == S[|S| - 1];
    if ScanAccepts(all) {
      forall k | 0 <= k < |S| - 1
        ensures ValidNumber(S[k])
      {
        assert all[k + 1] == S[k];
      }
    }
    if ValidNumber(b) && ScanAccepts(S) {
      forall k | 0 <= k < |all| - 1
        ensures ValidNumber(all[k])
      {
        if k > 0 {
          assert all[k] == S[k - 1];
        }
      }
    }
  }

  /** An operator closes a buffer that converts as a segment of its own. */
  lemma ScanSegmentsOperatorAccept(st: State, s: string)
    requires s != [] && IsOperator(s[0]) && ValidNumber(st.buf)
    requires ScanMatchesSegments(State("", st.operands + [Value(st.buf)], st.operators + [s[0]]), s[1..])
    ensures ScanMatchesSegments(st, s)
  {
    var c, rest := s[0], s[1..];
    var S := Segments(RemoveSpaces(rest));
    var st' := State("", st.operands + [Value(st.buf)], st.operators + [c]);
    AllAllowedCons(s);
    OperatorSegments(st.buf, s);
    assert st.buf != "" && st.buf != "." by {
      assert !ValidNumber("");
      assert !ValidNumber(".") by { assert "."[0] == '.'; }
    }
    assert Step(st, c) == Ok(st');
    assert ScanFrom(st, s) == ScanFrom(st', rest);
    var all := [st.buf] + S;
    assert Attach("", S) == S by {
      assert "" + S[0] == S[0];
    }
    ScanAcceptsCons(st.buf, S);
    assert all[|all| - 1] == S[|S| - 1];
    DropLastCons(st.buf, S);
    var closed := all[..|all| - 1];
    assert closed == [st.buf] + S[..|S| - 1];
    ValuesCons(st.buf, S[..|S| - 1]);
    assert Values(closed) == [Value(st.buf)] + Values(S[..|S| - 1]);
    AppendAssoc(st.operands, [Value(st.buf)], Values(S[..|S| - 1]));
    AppendAssoc(st.operators, [c], OperatorsOf(rest));
  }

  lemma AppendAssoc<T>(a: seq<T>, b: seq<T>, c: seq<T>)
    ensures a + (b + c) == (a + b) + c
  {
  }

  lemma LastSplit<T>(xs: seq<T>)
    requires |xs| > 0
    ensures xs[..|xs| - 1] + [xs[|xs| - 1]] == xs
  {
  }

  lemma DropLastCons(x: string, xs: seq<string>)
    requires |xs| > 0
    ensures ([x] + xs)[..|xs|] == [x] + xs[..|xs| - 1]
  {
  }

  /** The scan, started from any state whose buffer has no adjacent dots, succeeds exactly
      when every character is allowed and the segments ahead pass ScanAccepts, and then it
      has appended the values of the closed segments and the operators of `s`. */
  lemma {:induction false} ScanFromSegments(st: State, s: string)
    requires NoDoubleDot(st.buf)
    ensures ScanMatchesSegments(st, s)
    decreases |s|
  {
    if s == [] {
      var all := Attach(st.buf, Segments(RemoveSpaces(s)));
      assert st.buf + [] == st.buf;
      assert all == [st.buf];
      assert Values(all[..0]) == [];
    } else {
      var c, rest := s[0], s[1..];
      if c == ' ' {
        ScanFromSegments(st, rest);
        AllAllowedCons(s);
        assert RemoveSpaces(s) == RemoveSpaces(rest);
        assert OperatorsOf(s) == OperatorsOf(rest);
      } else if c == '.' && EndsWithDot(st.buf) {
        ScanSegmentsDoubleDot(st, s);
      } else if c == '.' || IsDigit(c) {
        var st' := st.(buf := st.buf + [c]);
        assert NoDoubleDot(st'.buf);
        ScanFromSegments(st', rest);
        ScanSegmentsExtend(st, s);
      } else if IsOperator(c) {
        if ValidNumber(st.buf) {
          ScanFromSegments(State("", st.operands + [Value(st.buf)], st.operators + [c]), rest);
          ScanSegmentsOperatorAccept(st, s);
        } else {
          ScanSegmentsOperatorReject(st, s);
        }
      } else {
        AllAllowedCons(s);
      }
    }
  }

  lemma AllValidNumbers(S: seq<string>)
    requires |S| > 0
    ensures (forall k :: 0 <= k < |S| ==> ValidNumber(S[k]))
            <==> ScanAccepts(S) && ValidNumber(S[|S| - 1])
  {
  }

  /** ScanFromSegments for the initial state: the segments are those of the whole input. */
  lemma ScanFromStart(s: string)
    ensures var S := Segments(RemoveSpaces(s));
      && (ScanFrom(Start, s).Ok? <==> AllAllowed(s) && ScanAccepts(S))
      && (ScanFrom(Start, s).Ok? ==>
            ScanFrom(Start, s).value == State(S[|S| - 1], Values(S[..|S| - 1]), OperatorsOf(s)))
  {
    var S := Segments(RemoveSpaces(s));
    ScanFromSegments(Start, s);
    assert ScanMatchesSegments(Start, s);
    assert Attach("", S) == S by {
      assert "" + S[0] == S[0];
    }
    assert [] + Values(S[..|S| - 1]) == Values(S[..|S| - 1]);
    assert [] + OperatorsOf(s) == OperatorsOf(s);
  }

  /** ParsedCharacterization once the start and end checks have passed: when it succeeds. */
  lemma InteriorSuccess(s: string)
    requires |s| > 0 && IsDigit(s[0]) && IsDigit(s[|s| - 1])
    ensures Parsed(s).Ok? <==> WellFormed(s)
  {
    var S := Segments(RemoveSpaces(s));
    ScanFromStart(s);
    AllValidNumbers(S);
    if ScanFrom(Start, s).Ok? {
      assert ScanFrom(Start, s).value.buf == S[|S| - 1];
    }
  }

  lemma ScanFromStartValue(s: string)
    requires ScanFrom(Start, s).Ok?
    ensures var S := Segments(RemoveSpaces(s));
      ScanFrom(Start, s).value == State(S[|S| - 1], Values(S[..|S| - 1]), OperatorsOf(s))
  {
    ScanFromStart(s);
  }

  /** ParsedCharacterization once the start and end checks have passed: what it returns. */
  lemma InteriorResult(s: string)
    requires |s| > 0 && IsDigit(s[0]) && IsDigit(s[|s| - 1]) && Parsed(s).Ok?
    ensures Parsed(s).value == Expression(Values(Segments(RemoveSpaces(s))), OperatorsOf(s))
  {
    var S := Segments(RemoveSpaces(s));
    var n := |S| - 1;
    assert ScanFrom(Start, s).Ok?;
    ParsedAfterScan(s, ScanFrom(Start, s).value);
    ScanFromStartValue(s);
    LastSplit(S);
    ValuesSnoc(S[..n], S[n]);
  }

  /** Success of `parsing` is exactly WellFormed, and the result is then fixed: the values of
      the space-free texts between operators, and the operator characters in textual order. */
  lemma ParsedCharacterization(s: string)
    requires |s| > 0
    ensures Parsed(s).Ok? <==> WellFormed(s)
    ensures Parsed(s).Ok? ==>
      Parsed(s).value == Expression(Values(Segments(RemoveSpaces(s))), OperatorsOf(s))
  {
    if !IsDigit(s[0]) {
      assert Parsed(s) == Err(StartsWithOperator);
    } else if !IsDigit(s[|s| - 1]) {
      assert Parsed(s) == Err(EndsWithOperator);
    } else {
      InteriorSuccess(s);
      if Parsed(s).Ok? {
        InteriorResult(s);
      }
    }
  }

  /** The start and end checks look at the raw first and last character, before any scanning. */
  lemma BoundaryChecksFirst(s: string)
    requires |s| > 0
    ensures !IsDigit(s[0]) ==> Parsed(s) == Err(StartsWithOperator)
    ensures IsDigit(s[0]) && !IsDigit(s[|s| - 1]) ==> Parsed(s) == Err(EndsWithOperator)
  {
  }

  lemma {:induction false} ScanAppend(st: State, a: string, b: string)
    decreases |a|
    ensures ScanFrom(st, a + b) ==
      match ScanFrom(st, a)
      case Err(e) => Err(e)
      case Ok(mid) => ScanFrom(mid, b)
  {
    if a == [] {
      assert a + b == b;
    } else {
      assert (a + b)[0] == a[0] && (a + b)[1..] == a[1..] + b;
      match Step(st, a[0])
      case Err(e) =>
      case Ok(next) => ScanAppend(next, a[1..], b);
    }
  }

  /** The first character Step rejects decides the error: nothing after it is looked at. */
  lemma FirstRejectionDecides(s: string, i: nat, st: State, e: Error)
    requires |s| > 0 && IsDigit(s[0]) && IsDigit(s[|s| - 1])
    requires i < |s| && ScanFrom(Start, s[..i]) == Ok(st) && Step(st, s[i]) == Err(e)
    ensures Parsed(s) == Err(e)
  {
    assert s == s[..i] + s[i..];
    ScanAppend(Start, s[..i], s[i..]);
    assert s[i..][0] == s[i];
  }

  /** Conversely, every error of the scan is Step's error at some character whose prefix scanned. */
  lemma {:induction false} ScanErrorLocated(st: State, s: string)
    requires ScanFrom(st, s).Err?
    decreases |s|
    ensures exists i :: 0 <= i < |s| && ScanFrom(st, s[..i]).Ok?
                        && Step(ScanFrom(st, s[..i]).value, s[i]) == ScanFrom(st, s)
  {
    assert s != [];
    match Step(st, s[0])
    case Err(e) =>
      assert s[..0] == [];
      assert ScanFrom(st, s[..0]) == Ok(st);
    case Ok(next) =>
      ScanErrorLocated(next, s[1..]);
      var j :| 0 <= j < |s[1..]| && ScanFrom(next, s[1..][..j]).Ok?
               && Step(ScanFrom(next, s[1..][..j]).value, s[1..][j]) == ScanFrom(next, s[1..]);
      assert s[..j + 1] == [s[0]] + s[1..][..j];
      ScanAppend(st, [s[0]], s[1..][..j]);
      assert ScanFrom(st, [s[0]]) == Ok(next) by {
        assert [s[0]][1..] == [];
      }
      assert s[j + 1] == s[1..][j];
  }

  lemma {:induction false} ScanIgnoresSpaces(st: State, s: string)
    ensures ScanFrom(st, s) == ScanFrom(st, RemoveSpaces(s))
    decreases |s|
  {
    if s != [] {
      if s[0] == ' ' {
        ScanIgnoresSpaces(st, s[1..]);
        assert RemoveSpaces(s) == RemoveSpaces(s[1..]);
      } else {
        var r := RemoveSpaces(s);
        assert r == [s[0]] + RemoveSpaces(s[1..]);
        assert r[0] == s[0] && r[1..] == RemoveSpaces(s[1..]);
        match Step(st, s[0])
        case Err(e) =>
        case Ok(next) => ScanIgnoresSpaces(next, s[1..]);
      }
    }
  }

  lemma {:induction false} RemoveSpacesLast(s: string)
    requires |s| > 0 && s[|s| - 1] != ' '
    ensures |RemoveSpaces(s)| > 0
    ensures RemoveSpaces(s)[|RemoveSpaces(s)| - 1] == s[|s| - 1]
  {
    if |s| > 1 {
      RemoveSpacesLast(s[1..]);
    }
  }

  /** Interior spaces are ignored: with a digit first and last, removing every space
      does not change what `parsing` returns. */
  lemma ParsedIgnoresSpaces(s: string)
    requires |s| > 0 && IsDigit(s[0]) && IsDigit(s[|s| - 1])
    ensures |RemoveSpaces(s)| > 0 && Parsed(s) == Parsed(RemoveSpaces(s))
  {
    RemoveSpacesLast(s);
    var r := RemoveSpaces(s);
    assert r[0] == s[0];
    ScanIgnoresSpaces(Start, s);
    RemoveSpacesIdempotent(s);
    ScanIgnoresSpaces(Start, r);
  }

  lemma {:induction false} RemoveSpacesIdempotent(s: string)
    ensures RemoveSpaces(RemoveSpaces(s)) == RemoveSpaces(s)
  {
    if s != [] {
      RemoveSpacesIdempotent(s[1..]);
      var r := RemoveSpaces(s);
      if s[0] != ' ' {
        assert r == [s[0]] + RemoveSpaces(s[1..]);
        assert r[0] == s[0] && r[1..] == RemoveSpaces(s[1..]);
      } else {
        assert r == RemoveSpaces(s[1..]);
      }
    }
  }

  // ---------------------------------------------------------------------------
  // The conversion error

  /** After a clean scan, `parsing` converts the last operand text: its value is appended,
      or the conversion error carries that text. */
  lemma ParsedAfterScan(s: string, st: State)
    requires |s| > 0 && IsDigit(s[0]) && IsDigit(s[|s| - 1]) && ScanFrom(Start, s) == Ok(st)
    ensures ValidNumber(st.buf) ==>
      Parsed(s) == Ok(Expression(st.operands + [Value(st.buf)], st.operators))
    ensures !ValidNumber(st.buf) ==> Parsed(s) == Err(NumberFormat(st.buf))
  {
  }

  /** What the scan keeps true of its buffer: digits and dots, never two dots together. */
  predicate BufferShape(b: string) {
    DigitsAndDots(b) && NoDoubleDot(b)
  }

  predicate EndsWithDigit(b: string) {
    |b| > 0 && IsDigit(b[|b| - 1])
  }

  lemma StepBufferShape(st: State, c: char)
    requires BufferShape(st.buf)
    ensures Step(st, c).Ok? ==> BufferShape(Step(st, c).value.buf)
    ensures Step(st, c).Ok? && IsDigit(c) ==> EndsWithDigit(Step(st, c).value.buf)
    ensures Step(st, c).Err? && Step(st, c).error.NumberFormat? ==>
      Step(st, c).error.text == st.buf && st.buf != "" && st.buf != "." && !ValidNumber(st.buf)
  {
    if Step(st, c).Ok? && (c == '.' || IsDigit(c)) {
      DigitsAndDotsSnoc(st.buf, c);
      NoDoubleDotSnoc(st.buf, c);
    }
  }

  /** The buffer shape holds all along the scan, also for the text of a conversion error;
      an input ending in a digit leaves a buffer ending in that digit. */
  lemma {:induction false} ScanBufferShape(st: State, s: string)
    requires BufferShape(st.buf)
    decreases |s|
    ensures ScanFrom(st, s).Ok? ==> BufferShape(ScanFrom(st, s).value.buf)
    ensures ScanFrom(st, s).Ok? && s != [] && IsDigit(s[|s| - 1]) ==>
      EndsWithDigit(ScanFrom(st, s).value.buf)
    ensures ScanFrom(st, s).Err? && ScanFrom(st, s).error.NumberFormat? ==>
      var t := ScanFrom(st, s).error.text;
      BufferShape(t) && t != "" && t != "." && !ValidNumber(t)
  {
    if s != [] {
      StepBufferShape(st, s[0]);
      match Step(st, s[0])
      case Err(e) =>
      case Ok(next) =>
        ScanBufferShape(next, s[1..]);
        if |s| == 1 {
          assert s[1..] == [];
        } else {
          assert s[1..][|s[1..]| - 1] == s[|s| - 1];
        }
    }
  }

  /** The conversion error comes only from a second dot: its text is digits and dots with
      a digit, no two dots together, and at least two dots, as in "1.2.3". */
  lemma NumberFormatNeedsSecondDot(s: string)
    requires |s| > 0 && Parsed(s).Err? && Parsed(s).error.NumberFormat?
    ensures var t := Parsed(s).error.text;
      DigitsAndDots(t) && HasDigit(t) && NoDoubleDot(t) && DotCount(t) >= 2
  {
    ScanBufferShape(Start, s);
    var t := Parsed(s).error.text;
    if ScanFrom(Start, s).Ok? {
      assert t == ScanFrom(Start, s).value.buf;
      assert "." == ['.'];
    }
    HasDigitUnlessLoneDot(t);
  }
}
