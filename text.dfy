/** Digit strings, their values, decimal rendering, and the first
    space-delimited token of a string: the pieces every wind-speed parser uses. */
module Text {
  import opened Seqs

  predicate IsDigit(c: char)
  {
    '0' <= c <= '9'
  }

  /** A non-empty run of ASCII decimal digits (what `\d+` matches here). */
  predicate IsDigits(s: string)
  {
    |s| > 0 && forall i :: 0 <= i < |s| ==> IsDigit(s[i])
  }

  /** CPython's default limit on the number of digits `int` converts from a
      decimal string (`sys.int_info.default_max_str_digits`); a longer digit
      string raises `ValueError`. */
  const MaxStrDigits := 4300

  /** The value of a digit character in bases up to 16; 16 for anything else. */
  function DigitValue(c: char): nat
  {
    if '0' <= c <= '9' then c as int - '0' as int
    else if 'a' <= c <= 'f' then c as int - 'a' as int + 10
    else if 'A' <= c <= 'F' then c as int - 'A' as int + 10
    else 16
  }

  /** The number a string of base-`radix` digits denotes, most significant first. */
  function Value(s: string, radix: nat): nat
  {
    if s == [] then 0 else Value(s[..|s| - 1], radix) * radix + DigitValue(Last(s))
  }

  function DigitChar(d: nat): (c: char)
    requires d < 10
    ensures IsDigit(c) && DigitValue(c) == d
  {
    ['0', '1', '2', '3', '4', '5', '6', '7', '8', '9'][d]
  }

  /** The shortest decimal rendering of `n` (no sign, no leading zeros). */
  function ToDecimal(n: nat): string
  {
    if n < 10 then [DigitChar(n)] else ToDecimal(n / 10) + [DigitChar(n % 10)]
  }

  /** Rendering and reading back a number are inverse. */
  lemma {:induction false} ToDecimalRoundTrip(n: nat)
    ensures IsDigits(ToDecimal(n)) && Value(ToDecimal(n), 10) == n
  {
    if n >= 10 {
      ToDecimalRoundTrip(n / 10);
      var s := ToDecimal(n / 10);
      var c := DigitChar(n % 10);
      assert (s + [c])[..|s|] == s;
    }
  }

  /** The first element of `s.split(' ')`: everything before the first space
      (the whole string when it has none, "" when it starts with a space). */
  function FirstToken(s: string): (t: string)
    ensures t <= s && ' ' !in t
    ensures |t| < |s| ==> s[|t|] == ' '
  {
    if s == [] || s[0] == ' ' then [] else [s[0]] + FirstToken(s[1..])
  }

  /** A space-free word followed by a space and anything is split at that space. */
  lemma {:induction false} FirstTokenOf(w: string, rest: string)
    requires ' ' !in w
    ensures FirstToken(w + " " + rest) == w
    ensures FirstToken(w) == w
  {
    var s := w + " " + rest;
    assert s[|w|] == ' ';
  }
}
