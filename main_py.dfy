/** main.py: keep the daytime, dry, warm, calm hours with a list
    comprehension whose comparisons and `int` conversion may raise, then merge
    consecutively numbered hours into blocks. */
module MainPy {
  import opened Wrappers
  import opened Seqs
  import opened Text
  import opened Forecast
  import opened NumberedBlocks

  /** The exceptions the decision logic of `run` can raise. */
  datatype PyError =
    | TypeError   // `None < 25` on a null precipitation value
    | ValueError  // `int(...)` on a token that is not an integer literal, or has too many digits
    | IndexError  // `temperate[0]` on an empty list

  // ---------------------------------------------------------------------------
  // int() on the first wind token
  // ---------------------------------------------------------------------------

  /** The characters `int` skips as whitespace: the ASCII ones it skips
      itself, and the non-ASCII Unicode spaces it first turns into ' '. The
      separators U+001C to U+001F, which `str.isspace` accepts, are not among
      them. */
  predicate IsPySpace(c: char)
  {
    || '\t' <= c <= '\r'
    || c == ' ' || c == '\U{85}' || c == '\U{A0}' || c == '\U{1680}'
    || '\U{2000}' <= c <= '\U{200A}'
    || c == '\U{2028}' || c == '\U{2029}' || c == '\U{202F}' || c == '\U{205F}' || c == '\U{3000}'
  }

  /** Decimal digits with single underscores between them, as `int` accepts. */
  predicate IsDigitGroups(b: string)
  {
    && b != []
    && IsDigit(b[0])
    && IsDigit(Last(b))
    && (forall i :: 0 <= i < |b| ==> IsDigit(b[i]) || b[i] == '_')
    && (forall i :: 0 <= i < |b| - 1 ==> b[i] == '_' ==> IsDigit(b[i + 1]))
  }

  /** The token without the whitespace `int` skips on either side of it. */
  function PyStrip(token: string): string
  {
    TrimEnd(TrimStart(token, IsPySpace), IsPySpace)
  }

  /** The value of digit groups holding at most `MaxStrDigits` digits
      (underscores do not count). */
  function GroupsValue(body: string): Option<nat>
  {
    if IsDigitGroups(body) && |Filter(body, IsDigit)| <= MaxStrDigits then Some(Value(Filter(body, IsDigit), 10))
    else None
  }

  /** An optional sign, then digit groups. A value is negative only after a
      '-', and what is read always ends with a digit. */
  function SignedValue(s: string): (r: Option<int>)
    ensures r.Some? ==> s != [] && IsDigit(Last(s))
    ensures r.Some? && r.value < 0 ==> s[0] == '-'
  {
    var signed := |s| > 0 && (s[0] == '-' || s[0] == '+');
    var body := if signed then s[1..] else s;
    assert body != [] ==> Last(body) == Last(s);
    match GroupsValue(body)
    case None => None
    case Some(v) => Some(if s[0] == '-' then -(v as int) else v)
  }

  /** `int(token)`: surrounding whitespace, an optional sign, then digit
      groups; `None` stands for the `ValueError`. A value is negative only
      after a '-', and the stripped token always ends with a digit. */
  function PyInt(token: string): (r: Option<int>)
    ensures r.Some? ==> PyStrip(token) != [] && IsDigit(Last(PyStrip(token)))
    ensures r.Some? && r.value < 0 ==> PyStrip(token)[0] == '-'
  {
    SignedValue(PyStrip(token))
  }

  /** Decimal renderings read back as themselves, up to the digit limit. */
  lemma PyIntRoundTrip(n: nat)
    ensures PyInt(ToDecimal(n)) == if |ToDecimal(n)| <= MaxStrDigits then Some(n) else None
  {
    ToDecimalRoundTrip(n);
    PyIntOfDigits(ToDecimal(n));
  }

  /** A sign in front of a digit string applies to its decimal value; more
      than `MaxStrDigits` digits raise `ValueError`. */
  lemma PyIntOfSigned(token: string)
    requires |token| > 0 && (token[0] == '+' || token[0] == '-')
    requires IsDigits(token[1..])
    ensures PyInt(token) ==
              if |token| - 1 <= MaxStrDigits then
                Some(if token[0] == '-' then -(Value(token[1..], 10) as int) else Value(token[1..], 10))
              else None
  {
    assert Last(token) == Last(token[1..]);
    StripNothing(token);
    SignedValueOfSigned(token);
  }

  /** A digit string is read as its decimal value; more than `MaxStrDigits`
      digits raise `ValueError`. */
  lemma PyIntOfDigits(d: string)
    requires IsDigits(d)
    ensures PyInt(d) == if |d| <= MaxStrDigits then Some(Value(d, 10)) else None
  {
    StripNothing(d);
    SignedValueOfDigits(d);
  }

  lemma SignedValueOfDigits(d: string)
    requires IsDigits(d)
    ensures SignedValue(d) == if |d| <= MaxStrDigits then Some(Value(d, 10)) else None
  {
    assert IsDigit(d[0]);
    GroupsValueOfDigits(d);
  }

  lemma SignedValueOfSigned(s: string)
    requires |s| > 0 && (s[0] == '+' || s[0] == '-')
    requires IsDigits(s[1..])
    ensures SignedValue(s) ==
              if |s| - 1 <= MaxStrDigits then
                Some(if s[0] == '-' then -(Value(s[1..], 10) as int) else Value(s[1..], 10))
              else None
  {
    GroupsValueOfDigits(s[1..]);
  }

  lemma GroupsValueOfDigits(d: string)
    requires IsDigits(d)
    ensures GroupsValue(d) == if |d| <= MaxStrDigits then Some(Value(d, 10)) else None
  {
    FilterKeepsAll(d, IsDigit);
  }

  /** Stripping leaves alone a string that neither starts nor ends with whitespace. */
  lemma StripNothing(s: string)
    requires s != [] && !IsPySpace(s[0]) && !IsPySpace(Last(s))
    ensures PyStrip(s) == s
  {
  }

  /** A token holding a letter, or any character that is neither a digit, an
      underscore, a sign nor whitespace, raises `ValueError`. */
  lemma PyIntRejects(token: string, i: nat)
    requires i < |token|
    requires !IsDigit(token[i]) && token[i] != '_' && token[i] != '+' && token[i] != '-' && !IsPySpace(token[i])
    ensures PyInt(token) == None
  {
    var t := TrimStart(token, IsPySpace);
    var s := PyStrip(token);
    var j := i - (|token| - |t|);
    assert 0 <= j < |t| && t[j] == token[i];
    assert j < |s| && s[j] == token[i];
    var signed := |s| > 0 && (s[0] == '-' || s[0] == '+');
    var body := if signed then s[1..] else s;
    if signed {
      assert j > 0 && body[j - 1] == token[i];
    } else {
      assert body[j] == token[i];
    }
  }
  /** The information separators U+001C to U+001F are not whitespace to
      `int`, so a wind token led by one raises `ValueError`. */
  lemma SeparatorNotSkipped(d: string)
    requires IsDigits(d)
    ensures PyInt(['\U{1C}'] + d) == None
    ensures PyInt(d + ['\U{1F}']) == None
  {
    PyIntRejects(['\U{1C}'] + d, 0);
    PyIntRejects(d + ['\U{1F}'], |d|);
  }


  /** The first token of "N mph" or "N to M mph" is read as N, the low end of
      a range, unless N has more digits than `int` converts. */
  lemma WindTokenOf(d: string, rest: string)
    requires IsDigits(d)
    ensures PyInt(FirstToken(d + " " + rest)) == if |d| <= MaxStrDigits then Some(Value(d, 10)) else None
  {
    assert ' ' !in d by {
      forall i | 0 <= i < |d| ensures d[i] != ' ' { assert IsDigit(d[i]); }
    }
    FirstTokenOf(d, rest);
    PyIntOfDigits(d);
  }

  // ---------------------------------------------------------------------------
  // The temperate comprehension
  // ---------------------------------------------------------------------------

  /** The comprehension's condition on one hour, with `and` short-circuiting:
      daytime, precipitation below 25, warmer than 50, first wind token below 13. */
  function Condition(p: Period): Result<bool, PyError>
  {
    if !p.isDaytime then Success(false)
    else
      match p.precipitation
      case None => Failure(TypeError)
      case Some(v) =>
        if !(v < 25) || !(p.temperature > 50) then Success(false)
        else
          match PyInt(FirstToken(p.windSpeed))
          case None => Failure(ValueError)
          case Some(w) => Success(w < 13)
  }

  predicate Keeps(p: Period)
  {
    Condition(p) == Success(true)
  }

  /** A list comprehension whose condition may raise, evaluated left to
      right: the first element whose condition raises aborts it. */
  function Comprehension(ps: seq<Period>, cond: Period -> Result<bool, PyError>): Result<seq<Period>, PyError>
  {
    if ps == [] then Success([])
    else
      match Comprehension(ps[..|ps| - 1], cond)
      case Failure(e) => Failure(e)
      case Success(t) =>
        match cond(Last(ps))
        case Failure(e) => Failure(e)
        case Success(keep) => Success(if keep then t + [Last(ps)] else t)
  }

  /** A comprehension succeeds iff no element's condition raises; it then
      holds, in order, exactly the elements whose condition holds; otherwise
      it raises what the first raising element raises. */
  lemma {:induction false} ComprehensionMeaning(ps: seq<Period>, cond: Period -> Result<bool, PyError>, keep: Period -> bool)
    requires forall p :: keep(p) <==> cond(p) == Success(true)
    ensures Comprehension(ps, cond).Success? <==> forall i :: 0 <= i < |ps| ==> cond(ps[i]).Success?
    ensures Comprehension(ps, cond).Success? ==> Comprehension(ps, cond).value == Filter(ps, keep)
    ensures Comprehension(ps, cond).Failure? ==>
              exists i :: && 0 <= i < |ps|
                          && cond(ps[i]) == Failure(Comprehension(ps, cond).error)
                          && forall j :: 0 <= j < i ==> cond(ps[j]).Success?
  {
    if ps != [] {
      var front := ps[..|ps| - 1];
      ComprehensionMeaning(front, cond, keep);
      assert forall i :: 0 <= i < |front| ==> ps[i] == front[i];
      if Comprehension(front, cond).Failure? {
        var i :| && 0 <= i < |front|
                 && cond(front[i]) == Failure(Comprehension(front, cond).error)
                 && forall j :: 0 <= j < i ==> cond(front[j]).Success?;
        assert cond(ps[i]) == Failure(Comprehension(ps, cond).error);
      } else if cond(Last(ps)).Failure? {
        assert cond(ps[|ps| - 1]) == Failure(Comprehension(ps, cond).error);
      }
    }
  }

  /** The `temperate` comprehension of run. */
  function Temperate(ps: seq<Period>): Result<seq<Period>, PyError>
  {
    Comprehension(ps, Condition)
  }

  /** `temperate` is computed unless some hour's condition raises; it then
      holds, in order, exactly the hours the condition accepts; otherwise the
      first raising hour decides the exception, which is never an IndexError. */
  lemma TemperateMeaning(ps: seq<Period>)
    ensures Temperate(ps).Success? <==> forall i :: 0 <= i < |ps| ==> Condition(ps[i]).Success?
    ensures Temperate(ps).Success? ==> Temperate(ps).value == Filter(ps, Keeps)
    ensures Temperate(ps).Failure? ==>
              exists i :: && 0 <= i < |ps|
                          && Condition(ps[i]) == Failure(Temperate(ps).error)
                          && forall j :: 0 <= j < i ==> Condition(ps[j]).Success?
    ensures Temperate(ps) != Failure(IndexError)
  {
    ComprehensionMeaning(ps, Condition, Keeps);
    if Temperate(ps).Failure? {
      var i :| 0 <= i < |ps| && Condition(ps[i]) == Failure(Temperate(ps).error);
      ConditionNeverIndexError(ps[i]);
    }
  }

  lemma ConditionNeverIndexError(p: Period)
    ensures Condition(p) != Failure(IndexError)
  {
  }

  /** A night hour never raises and is never kept. A daytime hour raises
      `TypeError` exactly when its precipitation value is null. It raises
      `ValueError` exactly when it is dry and warm enough but its first wind
      token is no integer. It is kept exactly when it is dry, warm and calm. */
  lemma ConditionMeaning(p: Period)
    ensures !p.isDaytime ==> Condition(p) == Success(false)
    ensures Condition(p) == Failure(TypeError) <==> p.isDaytime && p.precipitation.None?
    ensures Condition(p) == Failure(ValueError) <==>
              && p.isDaytime && p.precipitation.Some? && p.precipitation.value < 25 && p.temperature > 50
              && PyInt(FirstToken(p.windSpeed)).None?
    ensures Condition(p) == Success(true) <==>
              && p.isDaytime && p.precipitation.Some? && p.precipitation.value < 25 && p.temperature > 50
              && PyInt(FirstToken(p.windSpeed)).Some? && PyInt(FirstToken(p.windSpeed)).value < 13
  {
  }

  /** A forecast with no daytime hour (a night, or no hours at all) has no
      temperate hour and raises nothing while filtering. */
  lemma {:induction false} NoDaytimeNoTemperate(ps: seq<Period>)
    requires forall i :: 0 <= i < |ps| ==> !ps[i].isDaytime
    ensures Temperate(ps) == Success([])
  {
    if ps != [] {
      NoDaytimeNoTemperate(ps[..|ps| - 1]);
      assert !Last(ps).isDaytime;
    }
  }

  // ---------------------------------------------------------------------------
  // run
  // ---------------------------------------------------------------------------

  /** The decision logic of run as written: the inverted test on line 45 reads
      `temperate[0]` exactly when `temperate` is empty. */
  method Run(periods: seq<Period>) returns (r: Result<seq<Period>, PyError>)
    ensures Temperate(periods).Failure? ==> r == Failure(Temperate(periods).error)
    ensures Temperate(periods) == Success([]) ==> r == Failure(IndexError)
    ensures Temperate(periods).Success? && Temperate(periods).value != [] ==>
              r == Success(Blocks(Temperate(periods).value))
  {
    match Temperate(periods)
    case Failure(e) =>
      return Failure(e);
    case Success(temperate) =>
      if |temperate| == 0 {
        return Failure(IndexError);
      }
      var num := 0;
      var blocks := Merge(temperate, num);
      return Success(blocks);
  }

  /** run with the test the way round it was evidently meant: start from the
      first temperate hour's number when there is one, else from 0. No hours
      give no blocks instead of an IndexError. */
  method RunIntended(periods: seq<Period>) returns (r: Result<seq<Period>, PyError>)
    ensures Temperate(periods).Failure? ==> r == Failure(Temperate(periods).error)
    ensures Temperate(periods).Success? ==> r == Success(Blocks(Temperate(periods).value))
    ensures r != Failure(IndexError)
  {
    TemperateMeaning(periods);
    match Temperate(periods)
    case Failure(e) =>
      return Failure(e);
    case Success(temperate) =>
      var num := if |temperate| > 0 then temperate[0].number else 0;
      var blocks := Merge(temperate, num);
      return Success(blocks);
  }
}
