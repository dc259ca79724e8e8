/** JavaScript's global `parseInt(s)` called without a radix, as the add-product
    form uses it on the quantity field: leading white space is skipped, one sign
    is read, a "0x"/"0X" prefix switches to base 16, and the longest run of
    digits that follows is the value; no digit at all gives NaN (here `None`).
    Values are mathematical integers: the rounding of long digit runs to a
    double is not modelled, and it never changes the sign of the result. */
module JsParseInt {
  import opened JsValues

  /** The white-space and line-terminator characters that `parseInt` skips
      (the ASCII ones, NBSP, BOM and the two Unicode line separators). */
  predicate IsWhitespace(c: char) {
    c == ' ' || c == '\t' || c == '\n' || c == '\r' || c == '\U{B}' || c == '\U{C}'
    || c == '\U{A0}' || c == '\U{FEFF}' || c == '\U{2028}' || c == '\U{2029}'
  }

  /** The string with its leading white space removed. */
  function TrimStart(s: string): (r: string)
    ensures |r| <= |s| && r == s[|s| - |r|..]
    ensures r == [] || !IsWhitespace(r[0])
    ensures s == [] || !IsWhitespace(s[0]) ==> r == s
  {
    if s != [] && IsWhitespace(s[0]) then TrimStart(s[1..]) else s
  }

  /** The value of a digit in bases up to 36 ("0"-"9", then letters in either
      case), or -1 for any other character. */
  function DigitValue(c: char): (d: int)
    ensures -1 <= d < 36
    ensures '0' <= c <= '9' ==> d == c as int - '0' as int
  {
    if '0' <= c <= '9' then c as int - '0' as int
    else if 'a' <= c <= 'z' then c as int - 'a' as int + 10
    else if 'A' <= c <= 'Z' then c as int - 'A' as int + 10
    else -1
  }

  predicate IsDigitIn(c: char, radix: nat) {
    0 <= DigitValue(c) < radix
  }

  predicate AllDigits(s: string, radix: nat) {
    forall i :: 0 <= i < |s| ==> IsDigitIn(s[i], radix)
  }

  /** The longest prefix of `s` made only of digits of the given base. */
  function DigitPrefix(s: string, radix: nat): (r: string)
    ensures |r| <= |s| && r == s[..|r|]
    ensures AllDigits(r, radix)
    ensures |r| < |s| ==> !IsDigitIn(s[|r|], radix)
  {
    if s != [] && IsDigitIn(s[0], radix) then [s[0]] + DigitPrefix(s[1..], radix) else []
  }

  /** The number a run of digits denotes, most significant digit first. */
  function ValueOf(ds: string, radix: nat): nat
    requires AllDigits(ds, radix)
  {
    if ds == [] then 0 else ValueOf(ds[..|ds| - 1], radix) * radix + DigitValue(ds[|ds| - 1])
  }

  /** `parseInt(s)` with no radix; `None` stands for NaN. */
  function ParseInt(s: string): (r: Option<int>)
    ensures r.Some? && r.value < 0 ==> TrimStart(s) != [] && TrimStart(s)[0] == '-'
  {
    ParseSigned(TrimStart(s))
  }

  /** The parse once white space is skipped: one sign, then the magnitude. */
  function ParseSigned(t: string): Option<int>
  {
    var magnitude := ParseMagnitude(Unsigned(t));
    if magnitude.None? then None
    else if t != [] && t[0] == '-' then Some(-(magnitude.value as int))
    else Some(magnitude.value as int)
  }

  /** The unsigned part: a "0x"/"0X" prefix selects base 16, and the longest
      run of digits in that base is the value. */
  function ParseMagnitude(u: string): Option<nat>
  {
    var radix := if HasHexPrefix(u) then 16 else 10;
    var ds := DigitPrefix(if HasHexPrefix(u) then u[2..] else u, radix);
    if ds == [] then None else Some(ValueOf(ds, radix))
  }

  /** The text after one leading sign character, if there is one. */
  function Unsigned(t: string): (u: string)
    ensures u == t || (t != [] && (t[0] == '-' || t[0] == '+') && u == t[1..])
  {
    if t != [] && (t[0] == '-' || t[0] == '+') then t[1..] else t
  }

  predicate HasHexPrefix(u: string) {
    |u| >= 2 && u[0] == '0' && (u[1] == 'x' || u[1] == 'X')
  }

  function DigitChar(d: nat): (c: char)
    requires d < 10
    ensures DigitValue(c) == d
  {
    ('0' as int + d) as char
  }

  /** The usual decimal spelling of a natural number (no sign, no leading zero). */
  function ToDecimal(n: nat): (s: string)
    ensures s != [] && AllDigits(s, 10)
    ensures |s| == 1 || s[0] != '0'
  {
    if n < 10 then [DigitChar(n)] else ToDecimal(n / 10) + [DigitChar(n % 10)]
  }

  /** Leading white space is skipped in full, however much of it there is. */
  lemma {:induction false} TrimStartAfterWhitespace(w: string, s: string)
    requires forall i :: 0 <= i < |w| ==> IsWhitespace(w[i])
    ensures TrimStart(w + s) == TrimStart(s)
  {
    if w == [] {
      assert w + s == s;
    } else {
      assert (w + s)[0] == w[0] && (w + s)[1..] == w[1..] + s;
      assert TrimStart(w + s) == TrimStart(w[1..] + s);
      TrimStartAfterWhitespace(w[1..], s);
    }
  }

  /** White space in front of the text never changes what it parses to. */
  lemma ParseIntSkipsWhitespace(w: string, s: string)
    requires forall i :: 0 <= i < |w| ==> IsWhitespace(w[i])
    ensures ParseInt(w + s) == ParseInt(s)
  {
    TrimStartAfterWhitespace(w, s);
  }

  /** Reading back the decimal spelling of `n` gives `n`. */
  lemma {:induction false} ValueOfToDecimal(n: nat)
    ensures ValueOf(ToDecimal(n), 10) == n
  {
    var s := ToDecimal(n);
    if n >= 10 {
      assert s[..|s| - 1] == ToDecimal(n / 10);
      ValueOfToDecimal(n / 10);
    }
  }

  /** The whole of an all-digit string is its own digit prefix, and a
      character that is not a digit ends the prefix. */
  lemma {:induction false} DigitPrefixStopsAt(s: string, t: string, radix: nat)
    requires AllDigits(s, radix)
    requires t == [] || !IsDigitIn(t[0], radix)
    ensures DigitPrefix(s + t, radix) == s
  {
    if s != [] {
      assert (s + t)[1..] == s[1..] + t;
      DigitPrefixStopsAt(s[1..], t, radix);
    }
  }

  /** The decimal spelling of `n`, followed by text that does not continue
      the number, has magnitude `n`. The one way trailing text does continue
      it: "0" followed by "x" or "X" is a hexadecimal prefix. */
  lemma MagnitudeOfDecimal(n: nat, t: string)
    requires t == [] || !IsDigitIn(t[0], 10)
    requires n == 0 ==> t == [] || (t[0] != 'x' && t[0] != 'X')
    ensures ParseMagnitude(ToDecimal(n) + t) == Some(n)
  {
    var s := ToDecimal(n) + t;
    assert s[0] == ToDecimal(n)[0];
    assert !HasHexPrefix(s);
    DigitPrefixStopsAt(ToDecimal(n), t, 10);
    ValueOfToDecimal(n);
  }

  /** Text that starts with a decimal digit has no white space or sign to skip. */
  lemma ParseIntUnsigned(s: string)
    requires s != [] && IsDigitIn(s[0], 10)
    ensures ParseInt(s) == if ParseMagnitude(s).None? then None else Some(ParseMagnitude(s).value as int)
  {
    assert TrimStart(s) == s;
    assert Unsigned(s) == s;
  }

  /** `parseInt` reads the decimal spelling of `n`, and any text after it
      that does not continue the number, back as `n`. */
  lemma ParseIntDecimal(n: nat, t: string)
    requires t == [] || !IsDigitIn(t[0], 10)
    requires n == 0 ==> t == [] || (t[0] != 'x' && t[0] != 'X')
    ensures ParseInt(ToDecimal(n) + t) == Some(n)
  {
    var s := ToDecimal(n) + t;
    assert s[0] == ToDecimal(n)[0];
    ParseIntUnsigned(s);
    MagnitudeOfDecimal(n, t);
  }

  /** A minus sign in front of a decimal spelling gives the negated value. */
  lemma ParseIntNegated(n: nat)
    ensures ParseInt("-" + ToDecimal(n)) == Some(-(n as int))
  {
    var d := ToDecimal(n);
    var s := "-" + d;
    assert TrimStart(s) == s && s[0] == '-' && Unsigned(s) == d by {
      assert s[0] == '-' && s[1..] == d;
    }
    assert ParseMagnitude(d) == Some(n) by {
      MagnitudeOfDecimal(n, []);
      assert d + [] == d;
    }
  }

  /** A string with no decimal digit anywhere in it parses to NaN. */
  lemma ParseIntNoDigits(s: string)
    requires forall i :: 0 <= i < |s| ==> !IsDigitIn(s[i], 10)
    ensures ParseInt(s) == None
  {
    var u := Unsigned(TrimStart(s));
    assert u == [] || u[0] == s[|s| - |u|];
    assert !HasHexPrefix(u);
  }
}
