/** main.js: keep the daytime, dry, warm, calm hours with `.filter` (where a
    wind token `parseInt` cannot read is NaN and simply fails the test), then
    merge consecutively numbered hours into blocks. */
module MainJs {
  import opened Wrappers
  import opened Seqs
  import opened Text
  import opened Forecast
  import opened NumberedBlocks

  /** The exception the decision logic of `run` can throw. */
  datatype JsError = TypeError  // reading `.number` of `temperate[0]` when it is undefined

  // ---------------------------------------------------------------------------
  // parseInt on the first wind token
  // ---------------------------------------------------------------------------

  /** WhiteSpace and LineTerminator characters, which `parseInt` skips first. */
  predicate IsJsSpace(c: char)
  {
    || '\t' <= c <= '\r'
    || c == ' ' || c == '\U{A0}' || c == '\U{1680}'
    || '\U{2000}' <= c <= '\U{200A}'
    || c == '\U{2028}' || c == '\U{2029}' || c == '\U{202F}' || c == '\U{205F}' || c == '\U{3000}'
    || c == '\U{FEFF}'
  }

  predicate IsHexDigit(c: char)
  {
    DigitValue(c) < 16
  }

  /** The digits after the sign: a "0x"/"0X" prefix selects base 16. */
  function Radix(u: string): nat
  {
    if |u| >= 2 && u[0] == '0' && (u[1] == 'x' || u[1] == 'X') then 16 else 10
  }

  /** The digits `parseInt` reads after the sign: the longest run of digits of
      the radix, after a hexadecimal prefix when there is one. */
  function RadixDigits(u: string): string
  {
    if Radix(u) == 16 then TakeWhile(u[2..], IsHexDigit) else TakeWhile(u, IsDigit)
  }

  /** The value of the digits `parseInt` reads after the sign; `None` when
      there are none. */
  function Magnitude(u: string): Option<nat>
  {
    var z := RadixDigits(u);
    if z == [] then None
    else if Radix(u) == 16 then Some(Value(z, 16))
    else Some(Value(z, 10))
  }

  /** The text after an optional leading sign. */
  function Unsigned(t: string): string
  {
    if |t| > 0 && (t[0] == '-' || t[0] == '+') then t[1..] else t
  }

  /** `parseInt(token)` with no radix argument: leading whitespace, an optional
      sign, an optional hexadecimal prefix, then the longest digit prefix;
      `None` stands for NaN (no digit at all). Anything after the digits is
      ignored. */
  function ParseInt(token: string): Option<int>
  {
    var t := TrimStart(token, IsJsSpace);
    match Magnitude(Unsigned(t))
    case None => None
    case Some(v) => Some(if t[0] == '-' then -(v as int) else v)
  }

  /** A blank token, empty or all whitespace, is NaN. */
  lemma ParseIntBlank(token: string)
    requires forall i :: 0 <= i < |token| ==> IsJsSpace(token[i])
    ensures ParseInt(token).None?
  {
    assert TrimStart(token, IsJsSpace) == [];
  }

  /** A number read is negative only after a '-' sign following the leading
      whitespace. */
  lemma ParseIntNegative(token: string)
    ensures ParseInt(token).Some? && ParseInt(token).value < 0 ==> TrimStart(token, IsJsSpace)[0] == '-'
  {
    var t := TrimStart(token, IsJsSpace);
    match Magnitude(Unsigned(t))
    case None =>
    case Some(v) =>
      assert ParseInt(token) == Some(if t[0] == '-' then -(v as int) else v);
  }

  /** A decimal digit run followed by anything that cannot continue it is
      read as the run's value: "12" is 12, and so are "12mph" and "12x" (an
      'x' or 'X' continues only a lone "0", as a hexadecimal prefix). */
  lemma ParseIntOfDigits(d: string, rest: string)
    requires IsDigits(d)
    requires rest != [] ==> !IsDigit(rest[0]) && (d == "0" ==> rest[0] != 'x' && rest[0] != 'X')
    ensures ParseInt(d + rest) == Some(Value(d, 10))
  {
    var s := d + rest;
    assert s[0] == d[0] && IsDigit(d[0]);
    assert TrimStart(s, IsJsSpace) == s;
    assert Unsigned(s) == s;
    MagnitudeOfDigits(d, rest);
  }

  lemma MagnitudeOfDigits(d: string, rest: string)
    requires IsDigits(d)
    requires rest != [] ==> !IsDigit(rest[0]) && (d == "0" ==> rest[0] != 'x' && rest[0] != 'X')
    ensures Magnitude(d + rest) == Some(Value(d, 10))
  {
    var s := d + rest;
    assert Radix(s) == 10 by {
      if |s| >= 2 {
        if |d| >= 2 {
          assert s[1] == d[1] && IsDigit(d[1]);
        } else {
          assert s[0] == d[0] && s[1] == rest[0];
          assert d[0] == '0' ==> d == "0";
        }
      }
    }
    TakeWhileOf(d, rest, IsDigit);
  }

  /** A token whose first non-space character is neither a sign nor a digit
      is NaN ("calm", "" and the like). */
  lemma ParseIntNaN(token: string)
    requires var t := TrimStart(token, IsJsSpace); t == [] || (!IsDigit(t[0]) && t[0] != '-' && t[0] != '+')
    ensures ParseInt(token) == None
  {
  }

  /** A hexadecimal prefix switches to base 16: "0x1F" is 31. */
  lemma ParseIntHex(h: string)
    requires h != [] && forall i :: 0 <= i < |h| ==> IsHexDigit(h[i])
    ensures ParseInt("0x" + h) == Some(Value(h, 16))
  {
    var s := "0x" + h;
    var t := TrimStart(s, IsJsSpace);
    assert s[0] == '0' && !IsJsSpace(s[0]);
    assert t == s;
    assert Unsigned(t) == s;
    MagnitudeHex(h);
    assert Magnitude(Unsigned(t)) == Some(Value(h, 16));
    assert t[0] != '-';
  }

  lemma MagnitudeHex(h: string)
    requires h != [] && forall i :: 0 <= i < |h| ==> IsHexDigit(h[i])
    ensures Magnitude("0x" + h) == Some(Value(h, 16))
  {
    HexDigits(h);
  }

  lemma HexDigits(h: string)
    requires h != [] && forall i :: 0 <= i < |h| ==> IsHexDigit(h[i])
    ensures Radix("0x" + h) == 16 && RadixDigits("0x" + h) == h
  {
    var s := "0x" + h;
    assert s[0] == '0' && s[1] == 'x' && s[2..] == h;
    TakeWhileOf(h, [], IsHexDigit);
    assert h + [] == h;
  }

  /** Decimal renderings read back as themselves. */
  lemma ParseIntRoundTrip(n: nat)
    ensures ParseInt(ToDecimal(n)) == Some(n)
  {
    ToDecimalRoundTrip(n);
    ParseIntOfDigits(ToDecimal(n), []);
    assert ToDecimal(n) + [] == ToDecimal(n);
  }

  /** The first token of "N mph" or "N to M mph" is read as N: the low end of a range. */
  lemma WindTokenOf(d: string, rest: string)
    requires IsDigits(d)
    ensures ParseInt(FirstToken(d + " " + rest)) == Some(Value(d, 10))
  {
    assert ' ' !in d by {
      forall i | 0 <= i < |d| ensures d[i] != ' ' { assert IsDigit(d[i]); }
    }
    FirstTokenOf(d, rest);
    ParseIntOfDigits(d, []);
    assert d + [] == d;
  }

  // ---------------------------------------------------------------------------
  // The temperate filter
  // ---------------------------------------------------------------------------

  /** The filter's predicate: `null < 25` holds (null is 0) and `NaN < 13` does not. */
  predicate Keeps(p: Period)
  {
    && p.isDaytime
    && JsNumber(p.precipitation) < 25
    && p.temperature > 50
    && match ParseInt(FirstToken(p.windSpeed))
       case None => false
       case Some(w) => w < 13
  }

  /** A kept hour is daytime, warmer than 50, dry (a null value counting as
      0) and calm: its first wind token reads as a number below 13. A null
      precipitation value decides as 0 would. */
  lemma KeepsMeaning(p: Period)
    ensures Keeps(p) ==> && p.isDaytime && p.temperature > 50
                         && (p.precipitation.None? || p.precipitation.value < 25)
    ensures Keeps(p) ==> ParseInt(FirstToken(p.windSpeed)).Some? && ParseInt(FirstToken(p.windSpeed)).value < 13
    ensures p.precipitation.None? ==> (Keeps(p) <==> Keeps(p.(precipitation := Some(0))))
  {
  }

  /** An hour whose wind token is NaN is dropped, whatever else it says. */
  lemma NaNWindDropped(p: Period)
    requires ParseInt(FirstToken(p.windSpeed)).None?
    ensures !Keeps(p)
  {
  }

  /** The filter keeps, in order, exactly the hours the predicate accepts:
      every kept hour is one of the input's, daytime, warmer than 50, and with
      a readable wind token below 13; no hour the predicate accepts is lost. */
  lemma TemperateMeaning(ps: seq<Period>)
    ensures |Filter(ps, Keeps)| <= |ps|
    ensures forall p :: p in Filter(ps, Keeps) <==> p in ps && Keeps(p)
    ensures forall p :: p in Filter(ps, Keeps) ==>
              p.isDaytime && p.temperature > 50 &&
              ParseInt(FirstToken(p.windSpeed)).Some? && ParseInt(FirstToken(p.windSpeed)).value < 13
  {
    forall p ensures p in Filter(ps, Keeps) <==> p in ps && Keeps(p) {
      FilterMembers(ps, Keeps, p);
    }
  }

  // ---------------------------------------------------------------------------
  // run
  // ---------------------------------------------------------------------------

  /** The decision logic of run as written: the inverted test on line 30 reads
      `temperate[0].number` exactly when `temperate` is empty. */
  method Run(periods: seq<Period>) returns (r: Result<seq<Period>, JsError>)
    ensures Filter(periods, Keeps) == [] ==> r == Failure(TypeError)
    ensures Filter(periods, Keeps) != [] ==> r == Success(Blocks(Filter(periods, Keeps)))
  {
    var temperate := Filter(periods, Keeps);
    if |temperate| == 0 {
      return Failure(TypeError);
    }
    var num := 0;
    var blocks := Merge(temperate, num);
    return Success(blocks);
  }

  /** run with the test the way round it was evidently meant: it never throws,
      and no temperate hour gives no blocks. */
  method RunIntended(periods: seq<Period>) returns (blocks: seq<Period>)
    ensures blocks == Blocks(Filter(periods, Keeps))
    ensures Filter(periods, Keeps) == [] ==> blocks == []
  {
    var temperate := Filter(periods, Keeps);
    var num := if |temperate| > 0 then temperate[0].number else 0;
    blocks := Merge(temperate, num);
    BlocksBounds(temperate);
  }

  /** A forecast with no daytime hour (a night, or no hours at all) leaves
      nothing after filtering, so run as written throws. */
  lemma {:induction false} NoDaytimeNoTemperate(ps: seq<Period>)
    requires forall i :: 0 <= i < |ps| ==> !ps[i].isDaytime
    ensures Filter(ps, Keeps) == []
  {
    if ps != [] {
      NoDaytimeNoTemperate(ps[..|ps| - 1]);
      assert !Keeps(Last(ps));
    }
  }
}
