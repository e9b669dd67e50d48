/**
 * String helpers shared by the wallet model: decimal rendering and parsing,
 * Python's `str.replace(x, "")`, the thousands grouping of `"{:,.0f}"` for
 * integral values, and the byte order SQLite uses to compare TEXT values.
 */
module Text {
  import opened Wrappers

  predicate IsDigit(c: char) { '0' <= c <= '9' }

  predicate AllDigits(s: string) { forall i :: 0 <= i < |s| ==> IsDigit(s[i]) }

  function DigitChar(d: nat): (c: char)
    requires d < 10
    ensures IsDigit(c)
  {
    ('0' as int + d) as char
  }

  function DigitValue(c: char): (d: nat)
    requires IsDigit(c)
    ensures d < 10 && DigitChar(d) == c
  {
    c as int - '0' as int
  }

  /** A canonical decimal numeral: digits only, no leading zero unless it is "0". */
  predicate Canonical(s: string)
  {
    |s| >= 1 && AllDigits(s) && (|s| == 1 || s[0] != '0')
  }

  /** Python's `str(n)` for a natural number. */
  function Decimal(n: nat): (s: string)
    ensures Canonical(s)
    ensures s[0] == '0' <==> n == 0
    decreases n
  {
    if n < 10 then [DigitChar(n)] else Decimal(n / 10) + [DigitChar(n % 10)]
  }

  /** The value of a string of decimal digits (Python's `int(s)` on ASCII digits). */
  function ParseDigits(s: string): nat
    requires AllDigits(s)
    decreases |s|
  {
    if s == [] then 0 else ParseDigits(s[..|s| - 1]) * 10 + DigitValue(s[|s| - 1])
  }

  lemma {:induction false} ParseDecimal(n: nat)
    ensures ParseDigits(Decimal(n)) == n
    decreases n
  {
    var s := Decimal(n);
    if n >= 10 {
      ParseDecimal(n / 10);
      assert s[..|s| - 1] == Decimal(n / 10);
    }
  }

  lemma {:induction false} LeadingDigitPositive(s: string)
    requires AllDigits(s) && |s| >= 1 && s[0] != '0'
    ensures ParseDigits(s) >= 1
    decreases |s|
  {
    if |s| > 1 {
      LeadingDigitPositive(s[..|s| - 1]);
    }
  }

  /** A canonical numeral is the rendering of its own value. */
  lemma {:induction false} DecimalParse(s: string)
    requires Canonical(s)
    ensures Decimal(ParseDigits(s)) == s
    decreases |s|
  {
    if |s| > 1 {
      var t := s[..|s| - 1];
      LeadingDigitPositive(t);
      DecimalParse(t);
      assert s == t + [s[|s| - 1]];
    }
  }

  lemma {:induction false} ParseZeroPrefix(t: string)
    requires AllDigits(t)
    ensures ParseDigits(['0'] + t) == ParseDigits(t)
    decreases |t|
  {
    if t != [] {
      var s := ['0'] + t;
      assert s[..|s| - 1] == ['0'] + t[..|t| - 1];
      ParseZeroPrefix(t[..|t| - 1]);
    } else {
      assert (['0'] + t)[..0] == [];
    }
  }

  /** Drops leading zeros but keeps one digit: "007" -> "7", "000" -> "0". */
  function StripLeadingZeros(s: string): string
    decreases |s|
  {
    if |s| > 1 && s[0] == '0' then StripLeadingZeros(s[1..]) else s
  }

  /** Reading a digit string as a number and printing it back drops exactly its leading zeros. */
  lemma {:induction false} CanonicalOfParse(s: string)
    requires AllDigits(s) && |s| >= 1
    ensures Decimal(ParseDigits(s)) == StripLeadingZeros(s)
    decreases |s|
  {
    if |s| > 1 && s[0] == '0' {
      assert s == ['0'] + s[1..];
      ParseZeroPrefix(s[1..]);
      CanonicalOfParse(s[1..]);
    } else {
      DecimalParse(s);
    }
  }

  /** Python's `str(n)` for an integer. */
  function IntToString(n: int): string
  {
    if n < 0 then "-" + Decimal(-n) else Decimal(n)
  }

  /**
   * The value of an optionally signed run of ASCII digits, or None. This is the
   * part of Python's `float(s)` that the model keeps.
   */
  function ParseInt(s: string): (r: Option<int>)
    ensures r.Some? ==> |s| >= 1
  {
    if |s| >= 2 && (s[0] == '-' || s[0] == '+') && AllDigits(s[1..]) then
      Some(if s[0] == '-' then -(ParseDigits(s[1..]) as int) else ParseDigits(s[1..]))
    else if |s| >= 1 && AllDigits(s) then Some(ParseDigits(s))
    else None
  }

  lemma ParseIntToString(n: int)
    ensures ParseInt(IntToString(n)) == Some(n)
  {
    var s := IntToString(n);
    if n < 0 {
      var d := Decimal(-n);
      assert s == "-" + d && s[1..] == d;
      ParseDecimal(-n);
    } else {
      assert s[0] != '-' && s[0] != '+';
      ParseDecimal(n);
    }
  }

  /** Python's `s.replace(c, "")` for a one-character pattern. */
  function RemoveChar(s: string, c: char): (r: string)
    ensures c !in r && |r| <= |s|
    ensures forall x :: x in r ==> x in s
  {
    if s == [] then [] else (if s[0] == c then [] else [s[0]]) + RemoveChar(s[1..], c)
  }

  lemma {:induction false} RemoveCharAppend(a: string, b: string, c: char)
    ensures RemoveChar(a + b, c) == RemoveChar(a, c) + RemoveChar(b, c)
    decreases |a|
  {
    if a != [] {
      assert (a + b)[1..] == a[1..] + b;
      RemoveCharAppend(a[1..], b, c);
    } else {
      assert a + b == b;
    }
  }

  lemma {:induction false} RemoveCharAbsent(s: string, c: char)
    requires c !in s
    ensures RemoveChar(s, c) == s
    decreases |s|
  {
    if s != [] {
      RemoveCharAbsent(s[1..], c);
    }
  }

  /** Python's `s.replace(c, d)` for single characters. */
  function ReplaceChar(s: string, c: char, d: char): (r: string)
    ensures |r| == |s|
    ensures forall i :: 0 <= i < |s| ==> r[i] == if s[i] == c then d else s[i]
  {
    if s == [] then [] else [if s[0] == c then d else s[0]] + ReplaceChar(s[1..], c, d)
  }

  /**
   * Python's `s.replace(pat, "")`: scans left to right and drops every
   * non-overlapping occurrence of `pat`.
   */
  function RemoveAll(s: string, pat: string): (r: string)
    requires |pat| > 0
    ensures |r| <= |s|
    ensures |pat| == 1 ==> pat[0] !in r
    decreases |s|
  {
    if s == [] then []
    else if |pat| <= |s| && s[..|pat|] == pat then RemoveAll(s[|pat|..], pat)
    else [s[0]] + RemoveAll(s[1..], pat)
  }

  lemma {:induction false} RemoveAllMissing(s: string, pat: string)
    requires |pat| > 0 && pat[0] !in s
    ensures RemoveAll(s, pat) == s
    decreases |s|
  {
    if s != [] {
      assert s[0] != pat[0];
      RemoveAllMissing(s[1..], pat);
    }
  }

  lemma {:induction false} RemoveAllSingle(s: string, c: char)
    ensures RemoveAll(s, [c]) == RemoveChar(s, c)
    decreases |s|
  {
    if s != [] {
      RemoveAllSingle(s[1..], c);
    }
  }

  /**
   * Inserts `sep` between groups of three digits counted from the right, as
   * `"{:,.0f}"` does with `,` for the magnitude of an integral value.
   */
  function Group(d: string, sep: char): (r: string)
    ensures forall x :: x in r ==> x in d || x == sep
    decreases |d|
  {
    if |d| <= 3 then d else Group(d[..|d| - 3], sep) + [sep] + d[|d| - 3..]
  }

  /**
   * The shape of a grouped numeral read from the right: the first group has
   * one to three digits and every later group exactly three, each preceded by `sep`.
   */
  predicate Grouped(s: string, sep: char)
    decreases |s|
  {
    if |s| <= 3 then 1 <= |s| && AllDigits(s)
    else |s| >= 5 && s[|s| - 4] == sep && AllDigits(s[|s| - 3..]) && Grouped(s[..|s| - 4], sep)
  }

  lemma {:induction false} GroupIsGrouped(d: string, sep: char)
    requires AllDigits(d) && |d| >= 1
    ensures Grouped(Group(d, sep), sep)
    decreases |d|
  {
    if |d| > 3 {
      var g := Group(d[..|d| - 3], sep);
      GroupIsGrouped(d[..|d| - 3], sep);
      var r := g + [sep] + d[|d| - 3..];
      assert r[..|r| - 4] == g;
      assert r[|r| - 3..] == d[|d| - 3..];
    }
  }

  /** Removing the separators from a grouped numeral gives back its digits. */
  lemma {:induction false} UngroupGroup(d: string, sep: char)
    requires AllDigits(d) && !IsDigit(sep)
    ensures RemoveChar(Group(d, sep), sep) == d
    decreases |d|
  {
    if |d| <= 3 {
      RemoveCharAbsent(d, sep);
    } else {
      var front, back := d[..|d| - 3], d[|d| - 3..];
      assert AllDigits(back) by {
        assert forall i :: 0 <= i < |back| ==> back[i] == d[|d| - 3 + i];
      }
      RemoveCharSandwich(Group(front, sep), sep, back);
      UngroupGroup(front, sep);
      assert d == front + back;
    }
  }

  /** Grouping is the only way to obtain a grouped numeral: regrouping its digits gives it back. */
  lemma {:induction false} GroupUngroup(s: string, sep: char)
    requires Grouped(s, sep) && !IsDigit(sep)
    ensures Group(RemoveChar(s, sep), sep) == s
    decreases |s|
  {
    if |s| <= 3 {
      RemoveCharAbsent(s, sep);
    } else {
      var front, back := s[..|s| - 4], s[|s| - 3..];
      assert s == front + [sep] + back;
      GroupUngroup(front, sep);
      RemoveCharSandwich(front, sep, back);
      var digits := RemoveChar(front, sep) + back;
      GroupedNonEmpty(front, sep);
      assert digits[..|digits| - 3] == RemoveChar(front, sep);
      assert digits[|digits| - 3..] == back;
    }
  }

  /** The separator between two groups disappears and the digit group after it stays. */
  lemma RemoveCharSandwich(front: string, sep: char, back: string)
    requires AllDigits(back) && !IsDigit(sep)
    ensures RemoveChar(front + [sep] + back, sep) == RemoveChar(front, sep) + back
  {
    var left := front + [sep];
    assert RemoveChar(left + back, sep) == RemoveChar(left, sep) + RemoveChar(back, sep) by {
      RemoveCharAppend(left, back, sep);
    }
    assert RemoveChar(left, sep) == RemoveChar(front, sep) by {
      RemoveCharAppend(front, [sep], sep);
      assert RemoveChar([sep], sep) == [];
    }
    assert RemoveChar(back, sep) == back by {
      RemoveCharAbsent(back, sep);
    }
  }

  lemma {:induction false} GroupedNonEmpty(s: string, sep: char)
    requires Grouped(s, sep) && !IsDigit(sep)
    ensures |RemoveChar(s, sep)| >= 1
    decreases |s|
  {
    if |s| <= 3 {
      RemoveCharAbsent(s, sep);
    } else {
      assert s == s[..|s| - 4] + s[|s| - 4..];
      RemoveCharAppend(s[..|s| - 4], s[|s| - 4..], sep);
      GroupedNonEmpty(s[..|s| - 4], sep);
    }
  }

  /** Replacing one separator by another regroups with the new separator. */
  lemma {:induction false} ReplaceGroupSeparator(d: string, sep: char, sep': char)
    requires AllDigits(d) && !IsDigit(sep)
    ensures ReplaceChar(Group(d, sep), sep, sep') == Group(d, sep')
    decreases |d|
  {
    if |d| > 3 {
      ReplaceGroupSeparator(d[..|d| - 3], sep, sep');
    }
  }

  /** `"{:,.0f}".format(n)` for an integral `n`, with `sep` in place of `,`. */
  function FormatInt(n: int, sep: char): string
  {
    if n < 0 then "-" + Group(Decimal(-n), sep) else Group(Decimal(n), sep)
  }

  lemma FormatIntChars(n: int, sep: char)
    ensures forall x :: x in FormatInt(n, sep) ==> x == '-' || x == sep || IsDigit(x)
  {
  }

  /** Dropping the separators of a formatted integer gives Python's `str(n)`. */
  lemma UngroupFormatInt(n: int, sep: char)
    requires !IsDigit(sep) && sep != '-'
    ensures RemoveChar(FormatInt(n, sep), sep) == IntToString(n)
  {
    if n < 0 {
      UngroupGroup(Decimal(-n), sep);
      RemoveCharAppend("-", Group(Decimal(-n), sep), sep);
    } else {
      UngroupGroup(Decimal(n), sep);
    }
  }

  /** SQLite's BINARY collation: `a <= b` in lexicographic order of code points. */
  predicate NotAfter(a: string, b: string)
    decreases |a|
  {
    |a| == 0 || (|b| > 0 && (a[0] < b[0] || (a[0] == b[0] && NotAfter(a[1..], b[1..]))))
  }

  lemma {:induction false} NotAfterTotal(a: string, b: string)
    ensures NotAfter(a, b) || NotAfter(b, a)
    decreases |a|
  {
    if |a| > 0 && |b| > 0 && a[0] == b[0] {
      NotAfterTotal(a[1..], b[1..]);
    }
  }

  lemma {:induction false} NotAfterTransitive(a: string, b: string, c: string)
    requires NotAfter(a, b) && NotAfter(b, c)
    ensures NotAfter(a, c)
    decreases |a|
  {
    if |a| > 0 && a[0] == b[0] && b[0] == c[0] {
      NotAfterTransitive(a[1..], b[1..], c[1..]);
    }
  }

  /** SQLite's text order is reflexive. */
  lemma {:induction false} NotAfterReflexive(a: string)
    ensures NotAfter(a, a)
    decreases |a|
  {
    if |a| > 0 {
      NotAfterReflexive(a[1..]);
    }
  }
}
