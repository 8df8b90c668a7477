/** Character classes, decimal digits and padded number formatting as the
    C/C++ runtime provides them (`isdigit`, `isupper`, `toupper`, `std::setw`
    with `std::setfill('0')`), plus the whitespace trim the program uses. */
module Text {
  import opened Wrappers

  predicate IsDigit(c: char) { '0' <= c <= '9' }
  predicate IsUpper(c: char) { 'A' <= c <= 'Z' }
  predicate IsLower(c: char) { 'a' <= c <= 'z' }
  predicate IsAlpha(c: char) { IsUpper(c) || IsLower(c) }
  predicate IsAlnum(c: char) { IsAlpha(c) || IsDigit(c) }
  /** `isspace` in the "C" locale. */
  predicate IsSpace(c: char) { c == ' ' || c == '\t' || c == '\n' || c == '\r' || c == '\U{000C}' || c == '\U{000B}' }

  predicate AllDigits(s: string) { forall i :: 0 <= i < |s| ==> IsDigit(s[i]) }
  predicate AllUpper(s: string) { forall i :: 0 <= i < |s| ==> IsUpper(s[i]) }

  /** C++ `c - '0'`: the character's code minus that of '0', whatever the character. */
  function DigitValue(c: char): int { c as int - '0' as int }

  function DigitChar(d: int): (c: char)
    requires 0 <= d <= 9
    ensures IsDigit(c) && DigitValue(c) == d
  {
    ('0' as int + d) as char
  }

  function ToUpperChar(c: char): (u: char)
    ensures IsLower(c) ==> IsUpper(u)
    ensures !IsLower(c) ==> u == c
  {
    if IsLower(c) then (c as int - 32) as char else c
  }

  function ToLowerChar(c: char): (l: char)
    ensures IsUpper(c) ==> IsLower(l)
    ensures !IsUpper(c) ==> l == c
  {
    if IsUpper(c) then (c as int + 32) as char else c
  }

  /** `ams::MakeUpper`: every lower-case letter replaced by its upper-case form. */
  function MakeUpper(s: string): (r: string)
    ensures |r| == |s|
    ensures forall i :: 0 <= i < |s| ==> r[i] == ToUpperChar(s[i])
  {
    if s == [] then [] else [ToUpperChar(s[0])] + MakeUpper(s[1..])
  }

  /** `ams::MakeLower`: every upper-case letter replaced by its lower-case form. */
  function MakeLower(s: string): (r: string)
    ensures |r| == |s|
    ensures forall i :: 0 <= i < |s| ==> r[i] == ToLowerChar(s[i])
  {
    if s == [] then [] else [ToLowerChar(s[0])] + MakeLower(s[1..])
  }

  /** The value the program's digit loops accumulate: `v = v * 10 + (c - '0')`
      from left to right, with no check that the characters are digits. */
  function DecimalValue(s: string): int
  {
    if s == [] then 0 else DecimalValue(s[..|s| - 1]) * 10 + DigitValue(s[|s| - 1])
  }

  function Pow10(n: nat): (p: nat)
    ensures p >= 1
  {
    if n == 0 then 1 else 10 * Pow10(n - 1)
  }

  /** The decimal digits of `n` with no leading zero (`"0"` for zero). */
  function NatDigits(n: nat): (s: string)
    ensures 1 <= |s| && AllDigits(s)
  {
    if n < 10 then [DigitChar(n)] else NatDigits(n / 10) + [DigitChar(n % 10)]
  }

  /** What `operator<<` writes for an integer: a minus sign for a negative value. */
  function FormatInt(n: int): string
  {
    if n < 0 then "-" + NatDigits(-n) else NatDigits(n)
  }

  function Repeat(c: char, n: nat): (s: string)
    ensures |s| == n && forall i :: 0 <= i < n ==> s[i] == c
  {
    if n == 0 then [] else [c] + Repeat(c, n - 1)
  }

  /** `std::setw(w)` with the default right alignment and the given fill:
      the fill goes in front of the whole text, sign included. */
  function PadLeft(s: string, w: nat, fill: char): (r: string)
    ensures |r| == if |s| < w then w else |s|
    ensures r[|r| - |s|..] == s
  {
    if |s| < w then Repeat(fill, w - |s|) + s else s
  }

  /** `std::setw(w) << n` under `std::setfill('0')`. */
  function ZeroPadded(n: int, w: nat): string
  {
    PadLeft(FormatInt(n), w, '0')
  }

  lemma {:induction false} DecimalValueAppend(s: string, c: char)
    ensures DecimalValue(s + [c]) == DecimalValue(s) * 10 + DigitValue(c)
  {
    assert (s + [c])[..|s|] == s;
  }

  lemma {:induction false} DecimalValueOfZeros(n: nat)
    ensures DecimalValue(Repeat('0', n)) == 0
  {
    if n > 0 {
      assert Repeat('0', n) == Repeat('0', n - 1) + ['0'] by {
        RepeatSnoc(n);
      }
      DecimalValueOfZeros(n - 1);
      DecimalValueAppend(Repeat('0', n - 1), '0');
    }
  }

  lemma {:induction false} RepeatSnoc(n: nat)
    requires n > 0
    ensures Repeat('0', n) == Repeat('0', n - 1) + ['0']
  {
    if n > 1 {
      RepeatSnoc(n - 1);
    }
  }

  /** Leading zeros do not change the accumulated value. */
  lemma {:induction false} DecimalValueLeadingZeros(z: nat, s: string)
    ensures DecimalValue(Repeat('0', z) + s) == DecimalValue(s)
  {
    if s == [] {
      assert Repeat('0', z) + s == Repeat('0', z);
      DecimalValueOfZeros(z);
    } else {
      var init, last := s[..|s| - 1], s[|s| - 1];
      assert s == init + [last];
      assert Repeat('0', z) + s == (Repeat('0', z) + init) + [last];
      DecimalValueAppend(Repeat('0', z) + init, last);
      DecimalValueAppend(init, last);
      DecimalValueLeadingZeros(z, init);
    }
  }

  /** Reading back the digits written for `n` yields `n`. */
  lemma {:induction false} DecimalValueOfNatDigits(n: nat)
    ensures DecimalValue(NatDigits(n)) == n
  {
    if n >= 10 {
      DecimalValueOfNatDigits(n / 10);
      DecimalValueAppend(NatDigits(n / 10), DigitChar(n % 10));
    }
  }

  lemma {:induction false} NatDigitsLength(n: nat, w: nat)
    requires 1 <= w && n < Pow10(w)
    ensures |NatDigits(n)| <= w
  {
    if n >= 10 {
      assert w >= 2;
      assert n / 10 < Pow10(w - 1);
      NatDigitsLength(n / 10, w - 1);
    }
  }

  /** A value below 10^w is written in exactly `w` digits by `setw(w)` under a
      zero fill, and those digits read back as the value. */
  lemma ZeroPaddedRoundTrip(n: nat, w: nat)
    requires 1 <= w && n < Pow10(w)
    ensures |ZeroPadded(n, w)| == w
    ensures AllDigits(ZeroPadded(n, w))
    ensures DecimalValue(ZeroPadded(n, w)) == n
  {
    var d := NatDigits(n);
    NatDigitsLength(n, w);
    DecimalValueOfNatDigits(n);
    assert ZeroPadded(n, w) == PadLeft(d, w, '0');
    PadLeftZeros(d, w);
  }

  /** Zero fill keeps a digit string's digits and value. */
  lemma PadLeftZeros(d: string, w: nat)
    requires AllDigits(d) && |d| <= w
    ensures |PadLeft(d, w, '0')| == w
    ensures AllDigits(PadLeft(d, w, '0'))
    ensures DecimalValue(PadLeft(d, w, '0')) == DecimalValue(d)
  {
    if |d| < w {
      var z := Repeat('0', w - |d|);
      assert PadLeft(d, w, '0') == z + d;
      DecimalValueLeadingZeros(w - |d|, d);
      assert forall i :: 0 <= i < |z + d| ==> IsDigit((z + d)[i]) by {
        forall i | 0 <= i < |z + d| ensures IsDigit((z + d)[i]) {
          if i < |z| { assert (z + d)[i] == z[i]; } else { assert (z + d)[i] == d[i - |z|]; }
        }
      }
    }
  }

  /** A single digit is written as one character. */
  lemma FormatSingleDigit(n: int)
    requires 0 <= n <= 9
    ensures FormatInt(n) == [DigitChar(n)]
  {
  }

  /** The first index at or after `from` holding `c`; `std::string::find(c, from)`. */
  function FindFrom(s: string, c: char, from: nat): (r: Option<nat>)
    decreases |s| - from
    ensures r.Some? ==> from <= r.value < |s| && s[r.value] == c
    ensures r.Some? ==> forall i :: from <= i < r.value ==> s[i] != c
    ensures r.None? ==> forall i :: from <= i < |s| ==> s[i] != c
  {
    if from >= |s| then None
    else if s[from] == c then Some(from)
    else FindFrom(s, c, from + 1)
  }

  /** The last index holding `c`; `std::string::rfind(c)`. */
  function FindLast(s: string, c: char): (r: Option<nat>)
    ensures r.Some? ==> r.value < |s| && s[r.value] == c
    ensures r.Some? ==> forall i :: r.value < i < |s| ==> s[i] != c
    ensures r.None? ==> forall i :: 0 <= i < |s| ==> s[i] != c
  {
    if s == [] then None
    else if s[|s| - 1] == c then Some(|s| - 1)
    else FindLast(s[..|s| - 1], c)
  }

  /** The first index at or after `from` whose character is (`want`) or is not
      (`!want`) a space or tab; `find_first_of`/`find_first_not_of` on "\t ". */
  function FindBlankOrNot(s: string, from: nat, want: bool): (r: Option<nat>)
    decreases |s| - from
    ensures r.Some? ==> from <= r.value < |s| && IsBlank(s[r.value]) == want
    ensures r.Some? ==> forall i :: from <= i < r.value ==> IsBlank(s[i]) != want
    ensures r.None? ==> forall i :: from <= i < |s| ==> IsBlank(s[i]) != want
  {
    if from >= |s| then None
    else if IsBlank(s[from]) == want then Some(from)
    else FindBlankOrNot(s, from + 1, want)
  }

  predicate IsBlank(c: char) { c == ' ' || c == '\t' }

  function TrimLeft(s: string): (r: string)
    ensures |r| <= |s| && r == s[|s| - |r|..]
    ensures r != [] ==> !IsSpace(r[0])
    ensures forall i :: 0 <= i < |s| - |r| ==> IsSpace(s[i])
  {
    if s != [] && IsSpace(s[0]) then TrimLeft(s[1..]) else s
  }

  function TrimRight(s: string): (r: string)
    ensures |r| <= |s| && r == s[..|r|]
    ensures r != [] ==> !IsSpace(r[|r| - 1])
    ensures forall i :: |r| <= i < |s| ==> IsSpace(s[i])
  {
    if s != [] && IsSpace(s[|s| - 1]) then TrimRight(s[..|s| - 1]) else s
  }

  /** `ams::Trim`: leading and trailing whitespace removed. */
  function Trim(s: string): (r: string)
    ensures r != [] ==> !IsSpace(r[0]) && !IsSpace(r[|r| - 1])
  {
    TrimRight(TrimLeft(s))
  }

  predicate IsTrimmed(s: string) { s != [] ==> !IsSpace(s[0]) && !IsSpace(s[|s| - 1]) }

  /** Text with no whitespace at either end is its own trim. */
  lemma TrimIdentity(s: string)
    requires s != [] && !IsSpace(s[0]) && !IsSpace(s[|s| - 1])
    ensures Trim(s) == s
  {
    assert TrimLeft(s) == s;
  }

  /** The items joined with the separator between consecutive items. */
  function Join(items: seq<string>, sep: string): string
  {
    if items == [] then ""
    else if |items| == 1 then items[0]
    else items[0] + sep + Join(items[1..], sep)
  }
}
