/**
  The JavaScript string operations the pages use, restricted to ASCII:
  `toLowerCase`, `includes`, `split` on one character, and the decimal
  conversions `Number(s)`, `parseInt(s)` and `${n}` for integers.
*/
module Strings {
  import opened Seqs

  // ---------------------------------------------------------------------------
  // toLowerCase (ASCII only)

  predicate IsUpper(c: char) { 'A' <= c <= 'Z' }

  function LowerChar(c: char): (r: char)
    ensures !IsUpper(r)
    ensures IsUpper(c) ==> r as int == c as int + 32
    ensures !IsUpper(c) ==> r == c
  {
    if IsUpper(c) then (c as int + 32) as char else c
  }

  /** `s.toLowerCase()` for ASCII text: every upper-case letter replaced by its lower-case form. */
  function Lower(s: string): (r: string)
    ensures |r| == |s|
    ensures forall i :: 0 <= i < |s| ==> r[i] == LowerChar(s[i])
  {
    seq(|s|, i requires 0 <= i < |s| => LowerChar(s[i]))
  }

  /** Two characters are the same letter up to ASCII case. */
  predicate SameIgnoringCase(a: char, b: char)
  {
    a == b || (IsUpper(a) && b as int == a as int + 32) || (IsUpper(b) && a as int == b as int + 32)
  }

  /** Lower-casing identifies exactly the strings that differ only in ASCII letter case. */
  lemma LowerIdentifiesCase(s: string, t: string)
    ensures Lower(s) == Lower(t) <==> |s| == |t| && forall i :: 0 <= i < |s| ==> SameIgnoringCase(s[i], t[i])
  {
    if |s| == |t| && forall i :: 0 <= i < |s| ==> SameIgnoringCase(s[i], t[i]) {
      forall i | 0 <= i < |s| ensures Lower(s)[i] == Lower(t)[i] {
        assert SameIgnoringCase(s[i], t[i]);
      }
    }
    if Lower(s) == Lower(t) {
      forall i | 0 <= i < |s| ensures SameIgnoringCase(s[i], t[i]) {
        assert LowerChar(s[i]) == LowerChar(t[i]);
      }
    }
  }

  lemma LowerIdempotent(s: string)
    ensures Lower(Lower(s)) == Lower(s)
  {
  }

  // ---------------------------------------------------------------------------
  // includes

  /** `needle` occurs in `hay` starting at position `i`. */
  predicate OccursAt(hay: string, needle: string, i: int)
  {
    0 <= i && i + |needle| <= |hay| && hay[i..i + |needle|] == needle
  }

  /** `hay.includes(needle)`, scanning the start positions left to right. */
  function Includes(hay: string, needle: string): (r: bool)
    ensures r ==> |needle| <= |hay|
    ensures needle <= hay ==> r
    decreases |hay|
  {
    if needle <= hay then true
    else if hay == [] then false
    else Includes(hay[1..], needle)
  }

  lemma {:induction false} IncludesIffOccurs(hay: string, needle: string)
    ensures Includes(hay, needle) <==> exists i :: OccursAt(hay, needle, i)
    decreases |hay|
  {
    if needle <= hay {
      assert OccursAt(hay, needle, 0);
    } else if hay == [] {
      assert forall i :: !OccursAt(hay, needle, i);
    } else {
      IncludesIffOccurs(hay[1..], needle);
      if i :| OccursAt(hay[1..], needle, i) {
        assert hay[1..][i..i + |needle|] == hay[i + 1..i + 1 + |needle|];
        assert OccursAt(hay, needle, i + 1);
      }
      if i :| OccursAt(hay, needle, i) {
        assert i != 0;
        assert hay[1..][i - 1..i - 1 + |needle|] == hay[i..i + |needle|];
        assert OccursAt(hay[1..], needle, i - 1);
      }
    }
  }

  /** Every string includes the empty string. */
  lemma IncludesEmpty(hay: string)
    ensures Includes(hay, "")
  {
  }

  // ---------------------------------------------------------------------------
  // split and join on one separator character

  /** `s.split(sep)` for a one-character separator: the pieces between separators, empty ones included. */
  function Split(s: string, sep: char): (r: seq<string>)
    ensures |r| >= 1
    ensures forall i :: 0 <= i < |r| ==> sep !in r[i]
  {
    if s == [] then [""]
    else
      var rest := Split(s[1..], sep);
      if s[0] == sep then [""] + rest else [[s[0]] + rest[0]] + rest[1..]
  }

  /** `parts.join(sep)`. */
  function Join(parts: seq<string>, sep: char): string
    requires |parts| >= 1
  {
    if |parts| == 1 then parts[0] else parts[0] + [sep] + Join(parts[1..], sep)
  }

  lemma {:induction false} JoinSplit(s: string, sep: char)
    ensures Join(Split(s, sep), sep) == s
  {
    if s != [] {
      var rest := Split(s[1..], sep);
      JoinSplit(s[1..], sep);
      var parts := Split(s, sep);
      if s[0] == sep {
        assert parts[1..] == rest;
      } else if |rest| == 1 {
        assert parts == [[s[0]] + rest[0]];
      } else {
        assert parts[1..] == rest[1..];
        assert Join(rest, sep) == rest[0] + [sep] + Join(rest[1..], sep);
      }
    }
  }

  lemma {:induction false} SplitWord(a: string, sep: char)
    requires sep !in a
    ensures Split(a, sep) == [a]
  {
    if a != [] {
      SplitWord(a[1..], sep);
      assert a[0] != sep && [a[0]] + a[1..] == a;
    }
  }

  lemma {:induction false} SplitWordThenSeparator(a: string, t: string, sep: char)
    requires sep !in a
    ensures Split(a + [sep] + t, sep) == [a] + Split(t, sep)
  {
    if a == [] {
      assert (a + [sep] + t)[1..] == t;
    } else {
      assert (a + [sep] + t)[1..] == a[1..] + [sep] + t;
      SplitWordThenSeparator(a[1..], t, sep);
      assert (a + [sep] + t)[0] == a[0] != sep && [a[0]] + a[1..] == a;
    }
  }

  lemma {:induction false} SplitJoin(parts: seq<string>, sep: char)
    requires |parts| >= 1
    requires forall i :: 0 <= i < |parts| ==> sep !in parts[i]
    ensures Split(Join(parts, sep), sep) == parts
  {
    if |parts| == 1 {
      SplitWord(parts[0], sep);
    } else {
      SplitJoin(parts[1..], sep);
      SplitWordThenSeparator(parts[0], Join(parts[1..], sep), sep);
    }
  }

  /** There is one more piece than there are separators. */
  lemma {:induction false} SplitCount(s: string, sep: char)
    ensures |Split(s, sep)| == multiset(s)[sep] + 1
  {
    if s != [] {
      SplitCount(s[1..], sep);
      assert s == [s[0]] + s[1..];
      assert multiset(s) == multiset([s[0]]) + multiset(s[1..]);
    }
  }

  // ---------------------------------------------------------------------------
  // decimal integers

  predicate IsDigit(c: char) { '0' <= c <= '9' }

  predicate AllDigits(s: string) { forall i :: 0 <= i < |s| ==> IsDigit(s[i]) }

  function DigitValue(c: char): nat
    requires IsDigit(c)
  {
    c as int - '0' as int
  }

  function DigitChar(d: nat): (c: char)
    requires d < 10
    ensures IsDigit(c) && DigitValue(c) == d
  {
    ('0' as int + d) as char
  }

  /** The value of a string of decimal digits, most significant first. */
  function DigitsValue(s: string): nat
    requires AllDigits(s)
  {
    if s == [] then 0 else DigitsValue(s[..|s| - 1]) * 10 + DigitValue(s[|s| - 1])
  }

  /** The shortest decimal spelling of `n`, as `${n}` prints it: no leading zero except for 0 itself. */
  function ShowNat(n: nat): (s: string)
    ensures |s| >= 1 && AllDigits(s)
    ensures n == 0 ==> s == "0"
    ensures n > 0 ==> s[0] != '0'
  {
    if n < 10 then [DigitChar(n)] else ShowNat(n / 10) + [DigitChar(n % 10)]
  }

  /** `${i}` for an integral number. */
  function ShowInt(i: int): (s: string)
    ensures |s| >= 1 && (s[0] == '-' <==> i < 0)
    ensures AllDigits(if i < 0 then s[1..] else s)
  {
    if i < 0 then
      var s := "-" + ShowNat(-i);
      assert s[1..] == ShowNat(-i);
      s
    else
      var s := ShowNat(i);
      assert IsDigit(s[0]);
      s
  }

  // ---------------------------------------------------------------------------
  // JavaScript string length

  /** JavaScript's `length`: UTF-16 code units, two for each character beyond the Basic Multilingual Plane. */
  function Utf16Length(s: string): (n: nat)
    ensures |s| <= n <= 2 * |s|
    ensures (forall i :: 0 <= i < |s| ==> s[i] as int < 0x1_0000) ==> n == |s|
  {
    if s == [] then 0 else (if s[0] as int < 0x1_0000 then 1 else 2) + Utf16Length(s[1..])
  }

  lemma {:induction false} DigitsValueShowNat(n: nat)
    ensures DigitsValue(ShowNat(n)) == n
  {
    if n >= 10 {
      DigitsValueShowNat(n / 10);
      var s := ShowNat(n);
      assert s[..|s| - 1] == ShowNat(n / 10);
    }
  }

  /** An optional sign: `+1`, `-1`, or no sign (`+1`) with nothing consumed. */
  function SignLength(s: string): nat
  {
    if |s| > 0 && (s[0] == '+' || s[0] == '-') then 1 else 0
  }

  function SignOf(s: string): int
  {
    if |s| > 0 && s[0] == '-' then -1 else 1
  }

  /**
    `Number(s)` for the strings this model admits: the empty string is 0, an
    optional sign followed by one or more decimal digits is that integer, and
    anything else is `NaN` (absent).
  */
  function JsNumber(s: string): (r: Option<int>)
    ensures s == [] ==> r == Some(0)
    ensures s != [] ==> (r.Some? <==> SignLength(s) < |s| && AllDigits(s[SignLength(s)..]))
  {
    if s == [] then Some(0)
    else
      var body := s[SignLength(s)..];
      if body != [] && AllDigits(body) then Some(SignOf(s) * DigitsValue(body)) else None
  }

  /** The longest run of decimal digits at the start of `s`. */
  function LeadingDigits(s: string): (d: string)
    ensures d <= s && AllDigits(d)
    ensures |d| < |s| ==> !IsDigit(s[|d|])
  {
    if s != [] && IsDigit(s[0]) then [s[0]] + LeadingDigits(s[1..]) else []
  }

  /**
    `parseInt(s)` without a radix: an optional sign, then as many decimal digits
    as follow it; `NaN` (absent) when there is not at least one digit.
  */
  function ParseInt(s: string): (r: Option<int>)
    ensures r.Some? <==> SignLength(s) < |s| && IsDigit(s[SignLength(s)])
  {
    var digits := LeadingDigits(s[SignLength(s)..]);
    if digits == [] then None else Some(SignOf(s) * DigitsValue(digits))
  }

  lemma {:induction false} LeadingDigitsOfDigits(d: string, rest: string)
    requires AllDigits(d)
    requires rest == [] || !IsDigit(rest[0])
    ensures LeadingDigits(d + rest) == d
  {
    if d != [] {
      assert (d + rest)[1..] == d[1..] + rest;
      LeadingDigitsOfDigits(d[1..], rest);
    }
  }

  lemma ShowIntSign(i: int)
    ensures SignLength(ShowInt(i)) == (if i < 0 then 1 else 0)
    ensures SignOf(ShowInt(i)) == (if i < 0 then -1 else 1)
    ensures ShowInt(i)[SignLength(ShowInt(i))..] == ShowNat(if i < 0 then -i else i)
  {
    var d := ShowNat(if i < 0 then -i else i);
    assert IsDigit(d[0]);
  }

  /** Printing an integer and reading it back with `Number` gives the integer. */
  lemma NumberShowInt(i: int)
    ensures JsNumber(ShowInt(i)) == Some(i)
  {
    ShowIntSign(i);
    DigitsValueShowNat(if i < 0 then -i else i);
  }

  /**
    Printing an integer and reading it back with `parseInt` gives the integer,
    also when something that does not start with a digit follows it.
  */
  lemma ParseIntShowInt(i: int, rest: string)
    requires rest == [] || !IsDigit(rest[0])
    ensures ParseInt(ShowInt(i) + rest) == Some(i)
  {
    var s := ShowInt(i) + rest;
    ShowIntSign(i);
    var d := ShowNat(if i < 0 then -i else i);
    assert SignLength(s) == SignLength(ShowInt(i)) && SignOf(s) == SignOf(ShowInt(i));
    assert s[SignLength(s)..] == d + rest;
    LeadingDigitsOfDigits(d, rest);
    DigitsValueShowNat(if i < 0 then -i else i);
  }
}
