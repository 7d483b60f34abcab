/** The parts of Rust's standard library that the generator leans on for text:
    `str::parse::<u128>`, formatting an integer with `{}`, and the ordering of
    `String` values (which is also the iteration order of a `BTreeSet<String>`). */
module Strings {
  import opened Errors

  const U128_MAX: nat := 0xFFFF_FFFF_FFFF_FFFF_FFFF_FFFF_FFFF_FFFF

  predicate IsDigit(c: char) { '0' <= c <= '9' }

  predicate AllDigits(s: string) { forall i :: 0 <= i < |s| ==> IsDigit(s[i]) }

  function DigitValue(c: char): (d: nat)
    requires IsDigit(c)
    ensures d < 10
  {
    c as int - '0' as int
  }

  function DigitChar(d: nat): (c: char)
    requires d < 10
    ensures IsDigit(c) && DigitValue(c) == d
  {
    ('0' as int + d) as char
  }

  /** The value of a string of decimal digits, most significant digit first. */
  function DecimalValue(s: string): nat
    requires AllDigits(s)
  {
    if |s| == 0 then 0 else 10 * DecimalValue(s[..|s| - 1]) + DigitValue(s[|s| - 1])
  }

  /** `str::parse::<u128>`: an empty string, a lone sign, a `-` in front, a
      non-digit or a value above 2^128 - 1 is an error; one leading `+` is
      accepted. */
  function ParseU128(s: string): Option<nat>
  {
    if |s| == 0 || ((s[0] == '+' || s[0] == '-') && |s| == 1) then None
    else
      var digits := if s[0] == '+' then s[1..] else s;
      if AllDigits(digits) && DecimalValue(digits) <= U128_MAX then Some(DecimalValue(digits)) else None
  }

  /** A two-character string parses exactly when it is two digits or `+` and
      a digit, and its value is then at most 99. */
  lemma TwoCharParse(s: string)
    requires |s| == 2
    ensures ParseU128(s).Some? <==> (IsDigit(s[0]) && IsDigit(s[1])) || (s[0] == '+' && IsDigit(s[1]))
    ensures ParseU128(s).Some? ==>
      ParseU128(s).value == if s[0] == '+' then DigitValue(s[1]) else 10 * DigitValue(s[0]) + DigitValue(s[1])
    ensures ParseU128(s).Some? ==> ParseU128(s).value <= 99
  {
    if s[0] == '+' {
      var d := s[1..];
      if AllDigits(d) {
        assert d[..0] == [];
        assert DecimalValue(d) == DigitValue(s[1]);
      }
    } else if AllDigits(s) {
      assert s[..1][..0] == [];
      assert DecimalValue(s[..1]) == DigitValue(s[0]);
      assert DecimalValue(s) == 10 * DigitValue(s[0]) + DigitValue(s[1]);
    } else {
      assert !IsDigit(s[0]) || !IsDigit(s[1]);
    }
  }

  /** `format!("{}", n)`: decimal digits without leading zeros. */
  function NatToString(n: nat): (s: string)
    ensures |s| > 0 && AllDigits(s)
    ensures |s| > 1 ==> s[0] != '0'
  {
    if n < 10 then [DigitChar(n)] else NatToString(n / 10) + [DigitChar(n % 10)]
  }

  lemma {:induction false} DecimalValueOfNatToString(n: nat)
    ensures DecimalValue(NatToString(n)) == n
  {
    var s := NatToString(n);
    if n < 10 {
      assert s[..0] == [];
    } else {
      assert s[..|s| - 1] == NatToString(n / 10);
      DecimalValueOfNatToString(n / 10);
    }
  }

  /** Formatting and parsing are inverse on the `u128` range. */
  lemma ParseNatToString(n: nat)
    requires n <= U128_MAX
    ensures ParseU128(NatToString(n)) == Some(n)
  {
    DecimalValueOfNatToString(n);
    assert IsDigit(NatToString(n)[0]);
  }

  lemma NatToStringInjective(m: nat, n: nat)
    ensures NatToString(m) == NatToString(n) ==> m == n
  {
    DecimalValueOfNatToString(m);
    DecimalValueOfNatToString(n);
  }

  /** `Ord` on `String`: lexicographic on bytes, which for UTF-8 is
      lexicographic on code points; a proper prefix comes first. */
  predicate LexLe(a: string, b: string)
  {
    |a| == 0 || (|b| > 0 && (a[0] < b[0] || (a[0] == b[0] && LexLe(a[1..], b[1..]))))
  }

  predicate LexLt(a: string, b: string) { LexLe(a, b) && a != b }

  lemma {:induction false} LexLeTotal(a: string, b: string)
    ensures LexLe(a, b) || LexLe(b, a)
  {
    if |a| > 0 && |b| > 0 && a[0] == b[0] { LexLeTotal(a[1..], b[1..]); }
  }

  lemma {:induction false} LexLeTransitive(a: string, b: string, c: string)
    requires LexLe(a, b) && LexLe(b, c)
    ensures LexLe(a, c)
  {
    if |a| > 0 && a[0] == b[0] && b[0] == c[0] { LexLeTransitive(a[1..], b[1..], c[1..]); }
  }

  lemma {:induction false} LexLeAntisymmetric(a: string, b: string)
    requires LexLe(a, b) && LexLe(b, a)
    ensures a == b
  {
    if |a| > 0 {
      LexLeAntisymmetric(a[1..], b[1..]);
      assert a == [a[0]] + a[1..] && b == [b[0]] + b[1..];
    }
  }

  /** A `BTreeSet<String>` is modelled by the strictly ascending sequence of
      its elements, which is also the order in which it is iterated. */
  predicate StrictlyAscending(s: seq<string>)
  {
    forall i, j :: 0 <= i < j < |s| ==> LexLt(s[i], s[j])
  }

  /** `BTreeSet::insert`. */
  function SetInsert(s: seq<string>, x: string): (r: seq<string>)
    requires StrictlyAscending(s)
    ensures StrictlyAscending(r)
    ensures forall y :: y in r <==> y in s || y == x
  {
    if |s| == 0 then [x]
    else if x == s[0] then s
    else if LexLe(x, s[0]) then
      assert forall j :: 0 < j < |s| ==> LexLt(x, s[j]) by {
        forall j | 0 < j < |s| ensures LexLt(x, s[j]) {
          LexLeTransitive(x, s[0], s[j]);
          if x == s[j] { LexLeAntisymmetric(x, s[0]); }
        }
      }
      [x] + s
    else
      LexLeTotal(x, s[0]);
      var rest := SetInsert(s[1..], x);
      assert forall y :: y in rest ==> LexLt(s[0], y);
      [s[0]] + rest
  }

  /** A set of strings has exactly one strictly ascending listing. */
  lemma {:induction false} AscendingListingUnique(s: seq<string>, t: seq<string>)
    requires StrictlyAscending(s) && StrictlyAscending(t)
    requires forall y :: y in s <==> y in t
    ensures s == t
  {
    if |s| > 0 || |t| > 0 {
      assert |s| > 0 ==> s[0] in t;
      assert |t| > 0 ==> t[0] in s;
      var i :| 0 <= i < |s| && s[i] == t[0];
      var j :| 0 <= j < |t| && t[j] == s[0];
      if s[0] != t[0] {
        assert i > 0 && j > 0;
        assert LexLe(s[0], t[0]) && LexLe(t[0], s[0]);
        LexLeAntisymmetric(s[0], t[0]);
      }
      forall y ensures y in s[1..] <==> y in t[1..] {
        if y in s[1..] {
          var a :| 1 <= a < |s| && s[a] == y;
          assert y in t && y != t[0];
        }
        if y in t[1..] {
          var b :| 1 <= b < |t| && t[b] == y;
          assert y in s && y != s[0];
        }
      }
      AscendingListingUnique(s[1..], t[1..]);
      assert s == [s[0]] + s[1..] && t == [t[0]] + t[1..];
    }
  }
}
