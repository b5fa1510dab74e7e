/**
 * The handful of Python `str` operations the manifest script relies on:
 * `upper()`, `capitalize()`, `replace(" ", "_")` and `str(n)` for a natural
 * number. `Lower` is the lower-casing that `capitalize()` applies after the
 * first character. Case mapping is restricted to ASCII letters.
 */
module PyText {

  predicate IsLowerChar(c: char) { 'a' <= c <= 'z' }

  predicate IsUpperChar(c: char) { 'A' <= c <= 'Z' }

  function UpperChar(c: char): char
  {
    if IsLowerChar(c) then (c as int - 32) as char else c
  }

  function LowerChar(c: char): char
  {
    if IsUpperChar(c) then (c as int + 32) as char else c
  }

  /** No lower-case letter occurs in `s`: what every upper-cased string satisfies. */
  predicate NoLower(s: string)
  {
    forall i :: 0 <= i < |s| ==> !IsLowerChar(s[i])
  }

  /** No upper-case letter occurs in `s`. */
  predicate NoUpper(s: string)
  {
    forall i :: 0 <= i < |s| ==> !IsUpperChar(s[i])
  }

  /** Python's `s.upper()`: every lower-case letter becomes its capital, all else stays. */
  function Upper(s: string): (r: string)
    ensures |r| == |s|
    ensures forall i :: 0 <= i < |s| ==> r[i] == UpperChar(s[i])
    ensures NoLower(r)
  {
    if s == [] then [] else [UpperChar(s[0])] + Upper(s[1..])
  }

  /** Python's lower-casing, as `capitalize()` applies it after the first character. */
  function Lower(s: string): (r: string)
    ensures |r| == |s|
    ensures forall i :: 0 <= i < |s| ==> r[i] == LowerChar(s[i])
    ensures NoUpper(r)
  {
    if s == [] then [] else [LowerChar(s[0])] + Lower(s[1..])
  }

  /** Python's `s.capitalize()`: the first character upper-cased, the rest lower-cased. */
  function Capitalize(s: string): (r: string)
    ensures |r| == |s|
    ensures r != [] ==> r[0] == UpperChar(s[0])
    ensures forall i :: 0 < i < |s| ==> r[i] == LowerChar(s[i])
    ensures r != [] ==> !IsLowerChar(r[0]) && NoUpper(r[1..])
  {
    if s == [] then [] else [UpperChar(s[0])] + Lower(s[1..])
  }

  /** A string already in the form `capitalize()` produces, such as "Technician". */
  predicate IsTitle(s: string)
  {
    s != [] && !IsLowerChar(s[0]) && NoUpper(s[1..])
  }

  /** Upper-casing a string without lower-case letters changes nothing. */
  lemma {:induction false} UpperOfNoLower(s: string)
    requires NoLower(s)
    ensures Upper(s) == s
  {
    if s != [] {
      assert NoLower(s[1..]) by {
        forall i | 0 <= i < |s[1..]| ensures !IsLowerChar(s[1..][i]) {
          assert s[1..][i] == s[i + 1];
        }
      }
      UpperOfNoLower(s[1..]);
    }
  }

  /** `upper()` is idempotent, so the script's repeated `.upper()` calls are harmless. */
  lemma UpperIdempotent(s: string)
    ensures Upper(Upper(s)) == Upper(s)
  {
    UpperOfNoLower(Upper(s));
  }

  /** Lower-casing the upper-case form of a string without capitals gives it back. */
  lemma {:induction false} LowerOfUpper(s: string)
    requires NoUpper(s)
    ensures Lower(Upper(s)) == s
  {
    if s != [] {
      assert NoUpper(s[1..]) by {
        forall i | 0 <= i < |s[1..]| ensures !IsUpperChar(s[1..][i]) {
          assert s[1..][i] == s[i + 1];
        }
      }
      LowerOfUpper(s[1..]);
      assert Upper(s) == [UpperChar(s[0])] + Upper(s[1..]);
    }
  }

  /** Capitalizing the upper-case form of a title-cased word gives the word back. */
  lemma CapitalizeOfUpper(s: string)
    requires IsTitle(s)
    ensures Capitalize(Upper(s)) == s
  {
    var u := Upper(s);
    assert u == [UpperChar(s[0])] + Upper(s[1..]);
    assert u[1..] == Upper(s[1..]);
    LowerOfUpper(s[1..]);
  }

  /** Python's `s.replace(" ", "_")`. */
  function ReplaceSpaces(s: string): (r: string)
    ensures |r| == |s|
    ensures ' ' !in r
    ensures forall i :: 0 <= i < |s| && s[i] != ' ' ==> r[i] == s[i]
    ensures forall i :: 0 <= i < |s| && s[i] == ' ' ==> r[i] == '_'
  {
    if s == [] then []
    else [if s[0] == ' ' then '_' else s[0]] + ReplaceSpaces(s[1..])
  }

  /** Replacing spaces works piece by piece across a concatenation. */
  lemma {:induction false} ReplaceSpacesAppend(a: string, b: string)
    ensures ReplaceSpaces(a + b) == ReplaceSpaces(a) + ReplaceSpaces(b)
  {
    if a != [] {
      assert (a + b)[1..] == a[1..] + b;
      ReplaceSpacesAppend(a[1..], b);
    } else {
      assert a + b == b;
    }
  }

  function DigitChar(d: nat): char
    requires d < 10
  {
    ('0' as int + d) as char
  }

  predicate IsDigit(c: char) { '0' <= c <= '9' }

  function DigitValue(c: char): nat
    requires IsDigit(c)
  {
    c as int - '0' as int
  }

  /** Python's `str(n)` for a natural number: its decimal digits, no leading zero. */
  function Decimal(n: nat): (r: string)
    ensures r != []
    ensures forall i :: 0 <= i < |r| ==> IsDigit(r[i])
    ensures r[0] == '0' ==> n == 0
  {
    if n < 10 then [DigitChar(n)] else Decimal(n / 10) + [DigitChar(n % 10)]
  }

  /** The number a string of decimal digits denotes, most significant digit first. */
  function DecimalValue(s: string): nat
    requires forall i :: 0 <= i < |s| ==> IsDigit(s[i])
  {
    if s == [] then 0 else 10 * DecimalValue(s[..|s| - 1]) + DigitValue(s[|s| - 1])
  }

  /** `str(n)` loses nothing: reading the digits back gives `n`. */
  lemma {:induction false} DecimalRoundTrip(n: nat)
    ensures DecimalValue(Decimal(n)) == n
  {
    if n >= 10 {
      var s := Decimal(n);
      assert s[..|s| - 1] == Decimal(n / 10);
      DecimalRoundTrip(n / 10);
    }
  }
}
