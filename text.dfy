/**
 * The string operations the components use: `toLowerCase`, `includes`,
 * `parseInt` on form fields, and the decimal rendering of `toFixed(1)`.
 */
module Text {

  /** `toLowerCase` on one character (the ASCII letters only). */
  function LowerChar(c: char): char
  {
    if 'A' <= c <= 'Z' then (c as int + 32) as char else c
  }

  /** `String.prototype.toLowerCase`: every character lower-cased, length kept. */
  function ToLower(s: string): (r: string)
    ensures |r| == |s|
    ensures forall i :: 0 <= i < |s| ==> r[i] == LowerChar(s[i])
  {
    if s == [] then [] else [LowerChar(s[0])] + ToLower(s[1..])
  }

  /** Lower-casing twice is lower-casing once. */
  lemma ToLowerIdempotent(s: string)
    ensures ToLower(ToLower(s)) == ToLower(s)
  {
    var once := ToLower(s);
    assert forall i :: 0 <= i < |s| ==> LowerChar(once[i]) == once[i];
  }

  /** `String.prototype.includes`: `t` occurs in `s` as a contiguous substring. */
  function Includes(s: string, t: string): (r: bool)
    ensures t == [] ==> r
    ensures r ==> |t| <= |s|
  {
    if |t| > |s| then false
    else s[..|t|] == t || Includes(s[1..], t)
  }

  /** `t` occurs in `s` starting at position `i`. */
  predicate OccursAt(s: string, t: string, i: int)
  {
    0 <= i <= |s| - |t| && s[i..i + |t|] == t
  }

  /** Includes agrees with the definition by an occurrence position. */
  lemma {:induction false} IncludesIff(s: string, t: string)
    ensures Includes(s, t) <==> exists i :: OccursAt(s, t, i)
  {
    if |t| > |s| {
      assert forall i :: !OccursAt(s, t, i);
    } else if s[..|t|] == t {
      assert OccursAt(s, t, 0);
    } else {
      IncludesIff(s[1..], t);
      if Includes(s, t) {
        var i :| OccursAt(s[1..], t, i);
        assert s[i + 1..i + 1 + |t|] == s[1..][i..i + |t|];
        assert OccursAt(s, t, i + 1);
      } else {
        forall i | OccursAt(s, t, i)
          ensures false
        {
          assert i != 0;
          assert s[1..][i - 1..i - 1 + |t|] == s[i..i + |t|];
          assert OccursAt(s[1..], t, i - 1);
        }
      }
    }
  }

  /** A one-character term whose character never occurs in `s` is not included in it. */
  lemma {:induction false} AbsentCharNotIncluded(s: string, c: char)
    requires forall i :: 0 <= i < |s| ==> s[i] != c
    ensures !Includes(s, [c])
  {
    if s != [] {
      assert s[..1][0] == s[0];
      AbsentCharNotIncluded(s[1..], c);
    }
  }

  /** The components' case-insensitive search: `field.toLowerCase().includes(term.toLowerCase())`. */
  predicate MatchesSearch(field: string, term: string)
  {
    Includes(ToLower(field), ToLower(term))
  }

  /** The case of the search term does not matter. */
  lemma SearchIgnoresTermCase(field: string, term: string)
    ensures MatchesSearch(field, term) == MatchesSearch(field, ToLower(term))
  {
    ToLowerIdempotent(term);
  }

  predicate IsDigit(c: char)
  {
    '0' <= c <= '9'
  }

  predicate AllDigits(s: string)
  {
    forall i :: 0 <= i < |s| ==> IsDigit(s[i])
  }

  function DigitValue(c: char): nat
    requires IsDigit(c)
  {
    c as int - '0' as int
  }

  function DigitChar(d: nat): (c: char)
    requires d < 10
    ensures IsDigit(c) && DigitValue(c) == d
  {
    (d + '0' as int) as char
  }

  /** The value of a string of decimal digits, most significant first. */
  function DigitsValue(ds: string): nat
    requires AllDigits(ds)
  {
    if ds == [] then 0 else DigitsValue(ds[..|ds| - 1]) * 10 + DigitValue(ds[|ds| - 1])
  }

  /** The decimal rendering of a natural number, without leading zeros. */
  function NatToDecimal(n: nat): (r: string)
    ensures |r| >= 1 && AllDigits(r)
    ensures |r| > 1 ==> r[0] != '0'
  {
    if n < 10 then [DigitChar(n)] else NatToDecimal(n / 10) + [DigitChar(n % 10)]
  }

  /** Reading back a rendered number gives the number. */
  lemma {:induction false} DecimalRoundTrip(n: nat)
    ensures DigitsValue(NatToDecimal(n)) == n
  {
    if n >= 10 {
      var head := NatToDecimal(n / 10);
      var r := head + [DigitChar(n % 10)];
      assert r[..|r| - 1] == head;
      DecimalRoundTrip(n / 10);
    }
  }

  /** The longest prefix of `s` made of decimal digits. */
  function LeadingDigits(s: string): (r: string)
    ensures |r| <= |s| && r == s[..|r|] && AllDigits(r)
    ensures |r| == |s| || !IsDigit(s[|r|])
  {
    if s == [] || !IsDigit(s[0]) then [] else [s[0]] + LeadingDigits(s[1..])
  }

  /** The digit run of a string that is digits followed by a non-digit is those digits. */
  lemma {:induction false} LeadingDigitsOf(a: string, b: string)
    requires AllDigits(a)
    requires b == [] || !IsDigit(b[0])
    ensures LeadingDigits(a + b) == a
  {
    if a != [] {
      assert (a + b)[1..] == a[1..] + b;
      LeadingDigitsOf(a[1..], b);
    } else {
      assert a + b == b;
    }
  }

  /** A JavaScript number that is an integer or `NaN`. */
  datatype IntOrNaN = NaN | Int(value: int)

  /**
   * `parseInt(s)` with no radix: an optional sign, then the longest run of
   * decimal digits; `NaN` when there is no digit.
   */
  function ParseInt(s: string): (r: IntOrNaN)
    ensures s == [] ==> r == NaN
    ensures |s| > 0 && !IsDigit(s[0]) && s[0] != '-' && s[0] != '+' ==> r == NaN
  {
    var signed := |s| > 0 && (s[0] == '-' || s[0] == '+');
    var body := if signed then s[1..] else s;
    var ds := LeadingDigits(body);
    if ds == [] then NaN
    else if signed && s[0] == '-' then Int(-(DigitsValue(ds) as int))
    else Int(DigitsValue(ds))
  }

  /** Parsing the rendering of a natural number, or of it followed by a fraction, gives the number. */
  lemma ParseIntOfDecimal(n: nat, rest: string)
    requires rest == [] || !IsDigit(rest[0])
    ensures ParseInt(NatToDecimal(n) + rest) == Int(n)
  {
    var s := NatToDecimal(n) + rest;
    assert IsDigit(s[0]);
    LeadingDigitsOf(NatToDecimal(n), rest);
    DecimalRoundTrip(n);
  }

  /**
   * The rendering `toFixed(1)` gives to a number held in tenths: the integer
   * part, a point, and the tenths digit.
   */
  function RenderTenths(t: nat): (r: string)
    ensures |r| >= 3 && r[|r| - 2] == '.' && IsDigit(r[|r| - 1])
    ensures AllDigits(r[..|r| - 2]) && DigitsValue(r[..|r| - 2]) == t / 10
    ensures |r| > 3 ==> r[0] != '0'
    ensures ParseInt(r) == Int(t / 10) && DigitValue(r[|r| - 1]) == t % 10
  {
    var r := NatToDecimal(t / 10) + "." + [DigitChar(t % 10)];
    assert r == NatToDecimal(t / 10) + ("." + [DigitChar(t % 10)]);
    assert r[..|r| - 2] == NatToDecimal(t / 10);
    DecimalRoundTrip(t / 10);
    ParseIntOfDecimal(t / 10, "." + [DigitChar(t % 10)]);
    r
  }
}
