/**
 * The JavaScript string built-ins the client relies on, restricted to ASCII:
 * `toLowerCase`, `toUpperCase`, `includes`, `trim`, `split(" ")`, `join`,
 * `replace` with a one-character pattern, `Number.parseInt` and the decimal
 * rendering of a natural number inside a template literal.
 */
module Text {
  import opened Wrappers

  predicate IsDigit(c: char) { '0' <= c <= '9' }

  /** The ASCII part of the white space that `String.prototype.trim` removes. */
  predicate IsSpace(c: char)
  {
    c == ' ' || c == '\t' || c == '\n' || c == '\r' || c as int == 0x0B || c as int == 0x0C
  }

  // ---------------------------------------------------------------- case

  function LowerChar(c: char): char
  {
    if 'A' <= c <= 'Z' then (c as int + 32) as char else c
  }

  function UpperChar(c: char): char
  {
    if 'a' <= c <= 'z' then (c as int - 32) as char else c
  }

  /** `s.toLowerCase()` on ASCII letters; every other character is kept. */
  function Lower(s: string): (r: string)
    ensures |r| == |s|
    ensures forall i :: 0 <= i < |s| ==> r[i] == LowerChar(s[i])
  {
    seq(|s|, i requires 0 <= i < |s| => LowerChar(s[i]))
  }

  /** `s.toUpperCase()` on ASCII letters; every other character is kept. */
  function Upper(s: string): (r: string)
    ensures |r| == |s|
    ensures forall i :: 0 <= i < |s| ==> r[i] == UpperChar(s[i])
  {
    seq(|s|, i requires 0 <= i < |s| => UpperChar(s[i]))
  }

  // ---------------------------------------------------------------- includes

  /** `s.includes(t)`: `t` occurs in `s` at some offset. */
  predicate Contains(s: string, t: string)
  {
    t <= s || (s != [] && Contains(s[1..], t))
  }


  // ---------------------------------------------------------------- trim

  /** The number of white-space characters at the front of `s`. */
  function LeadingSpaces(s: string): (n: nat)
    ensures n <= |s|
    ensures forall i :: 0 <= i < n ==> IsSpace(s[i])
    ensures n < |s| ==> !IsSpace(s[n])
  {
    if s != [] && IsSpace(s[0]) then 1 + LeadingSpaces(s[1..]) else 0
  }

  /** The number of white-space characters at the back of `s`. */
  function TrailingSpaces(s: string): (n: nat)
    ensures n <= |s|
    ensures forall i :: |s| - n <= i < |s| ==> IsSpace(s[i])
    ensures n < |s| ==> !IsSpace(s[|s| - 1 - n])
  {
    if s != [] && IsSpace(s[|s| - 1]) then 1 + TrailingSpaces(s[..|s| - 1]) else 0
  }

  /** `s.trim()`: `s` without its leading and trailing white space. */
  function Trim(s: string): string
  {
    var t := s[LeadingSpaces(s)..];
    t[..|t| - TrailingSpaces(t)]
  }

  /** No white space at either end, as `trim()` leaves a string. */
  predicate Trimmed(s: string)
  {
    s == [] || (!IsSpace(s[0]) && !IsSpace(s[|s| - 1]))
  }

  /** Trimming keeps a contiguous middle part of `s`, drops only white space, and leaves no white space at either end. */
  lemma TrimSpec(s: string)
    ensures var r, i := Trim(s), LeadingSpaces(s);
      && Trimmed(r)
      && i + |r| <= |s| && s[i..i + |r|] == r
      && (forall k :: 0 <= k < i ==> IsSpace(s[k]))
      && (forall k :: i + |r| <= k < |s| ==> IsSpace(s[k]))
  {
    var lead := LeadingSpaces(s);
    var t := s[lead..];
    var r := Trim(s);
    assert s[lead..lead + |r|] == r;
    forall k | lead + |r| <= k < |s| ensures IsSpace(s[k]) {
      assert s[k] == t[k - lead];
    }
  }

  /** `s.trim()` is the empty string exactly when `s` is blank. */
  lemma TrimEmptyIffBlank(s: string)
    ensures Trim(s) == [] <==> forall i :: 0 <= i < |s| ==> IsSpace(s[i])
  {
    var lead := LeadingSpaces(s);
    var t := s[lead..];
    if lead < |s| {
      assert !IsSpace(t[0]);
      assert TrailingSpaces(t) < |t|;
      assert Trim(s) != [];
    }
  }


  // ---------------------------------------------------------------- split / join

  /**
   * `s.split(sep)` for a one-character separator: the pieces between separators,
   * empty pieces included, so that a string with k separators has k + 1 pieces.
   */
  function Split(s: string, sep: char): (pieces: seq<string>)
    ensures |pieces| >= 1
    ensures forall i :: 0 <= i < |pieces| ==> sep !in pieces[i]
  {
    if s == [] then [""]
    else if s[0] == sep then [""] + Split(s[1..], sep)
    else
      var rest := Split(s[1..], sep);
      [[s[0]] + rest[0]] + rest[1..]
  }

  /** `pieces.join(sep)` for a one-character separator. */
  function Join(pieces: seq<string>, sep: char): string
    requires |pieces| >= 1
  {
    if |pieces| == 1 then pieces[0] else pieces[0] + [sep] + Join(pieces[1..], sep)
  }


  /** A string without the separator is a single piece. */
  lemma {:induction false} SplitNoSeparator(s: string, sep: char)
    requires sep !in s
    ensures Split(s, sep) == [s]
  {
    if s != [] {
      SplitNoSeparator(s[1..], sep);
      assert [s[0]] + s[1..] == s;
    }
  }

  /** A piece without the separator, followed by the separator, splits off as the first piece. */
  lemma {:induction false} SplitAfterPiece(a: string, b: string, sep: char)
    requires sep !in a
    ensures Split(a + [sep] + b, sep) == [a] + Split(b, sep)
  {
    if a == [] {
      assert [] + [sep] + b == [sep] + b;
      assert ([sep] + b)[1..] == b;
    } else {
      assert (a + [sep] + b)[1..] == a[1..] + [sep] + b;
      SplitAfterPiece(a[1..], b, sep);
      assert [a[0]] + a[1..] == a;
    }
  }

  /** Splitting a join of separator-free pieces gives the pieces back. */
  lemma {:induction false} JoinSplit(pieces: seq<string>, sep: char)
    requires |pieces| >= 1
    requires forall i :: 0 <= i < |pieces| ==> sep !in pieces[i]
    ensures Split(Join(pieces, sep), sep) == pieces
  {
    if |pieces| == 1 {
      SplitNoSeparator(pieces[0], sep);
    } else {
      JoinSplit(pieces[1..], sep);
      SplitAfterPiece(pieces[0], Join(pieces[1..], sep), sep);
    }
  }

  /** The number of occurrences of `c` in `s`. */
  function Occurrences(s: string, c: char): nat
  {
    if s == [] then 0 else (if s[0] == c then 1 else 0) + Occurrences(s[1..], c)
  }

  /** Joining the pieces of a split with the same separator gives the string back. */
  lemma {:induction false} SplitJoin(s: string, sep: char)
    ensures Join(Split(s, sep), sep) == s
  {
    if s != [] {
      SplitJoin(s[1..], sep);
      if s[0] != sep {
        var rest := Split(s[1..], sep);
        if |rest| == 1 {
          assert Join(rest, sep) == rest[0];
        } else {
          assert rest[1..][1..] == rest[2..];
          assert Join(rest, sep) == rest[0] + [sep] + Join(rest[1..], sep);
          assert ([[s[0]] + rest[0]] + rest[1..])[1..] == rest[1..];
        }
        assert [s[0]] + s[1..] == s;
      } else {
        assert ([""] + Split(s[1..], sep))[1..] == Split(s[1..], sep);
      }
    }
  }

  /** A string with k separators splits into k + 1 pieces. */
  lemma {:induction false} SplitCount(s: string, sep: char)
    ensures |Split(s, sep)| == Occurrences(s, sep) + 1
  {
    if s != [] {
      SplitCount(s[1..], sep);
    }
  }

  // ---------------------------------------------------------------- defaults

  /** `(value as string) || fallback`: a missing or empty string gives way to the fallback. */
  function OrDefault(value: Option<string>, fallback: string): (r: string)
    ensures value.None? || value.value == "" ==> r == fallback
    ensures value.Some? && value.value != "" ==> r == value.value
  {
    if value.Some? && value.value != "" then value.value else fallback
  }

  // ---------------------------------------------------------------- numbers

  function DigitChar(d: nat): (c: char)
    requires d < 10
    ensures IsDigit(c)
  {
    ('0' as int + d) as char
  }

  function DigitValue(c: char): (d: nat)
    requires IsDigit(c)
    ensures d < 10 && DigitChar(d) == c
  {
    c as int - '0' as int
  }

  /** The decimal rendering of `n` (as in the template literal `${n}`): digits only, no leading zero. */
  function NatToString(n: nat): (s: string)
    ensures |s| >= 1
    ensures forall i :: 0 <= i < |s| ==> IsDigit(s[i])
    ensures |s| > 1 ==> s[0] != '0'
  {
    if n < 10 then [DigitChar(n)] else NatToString(n / 10) + [DigitChar(n % 10)]
  }

  /** The value of a string of decimal digits. */
  function DigitsValue(s: string): nat
    requires forall i :: 0 <= i < |s| ==> IsDigit(s[i])
  {
    if s == [] then 0 else 10 * DigitsValue(s[..|s| - 1]) + DigitValue(s[|s| - 1])
  }

  /** The longest prefix of `s` made of decimal digits. */
  function DigitPrefix(s: string): (d: string)
    ensures d <= s
    ensures forall i :: 0 <= i < |d| ==> IsDigit(d[i])
    ensures |d| < |s| ==> !IsDigit(s[|d|])
  {
    if s != [] && IsDigit(s[0]) then [s[0]] + DigitPrefix(s[1..]) else ""
  }

  /**
   * `Number.parseInt(s)` in radix 10: leading white space is skipped, one sign is
   * accepted, then the longest run of digits is read and the rest ignored; `None`
   * stands for `NaN` (no digit at all).
   */
  function ParseInt(s: string): (r: Option<int>)
    ensures r.None? <==> DigitPrefix(SignFree(TrimStart(s))) == []
  {
    var t := TrimStart(s);
    var negative := t != [] && t[0] == '-';
    var digits := DigitPrefix(SignFree(t));
    if digits == [] then None
    else if negative then Some(-(DigitsValue(digits) as int))
    else Some(DigitsValue(digits))
  }

  function TrimStart(s: string): string { s[LeadingSpaces(s)..] }

  function SignFree(t: string): string
  {
    if t != [] && (t[0] == '-' || t[0] == '+') then t[1..] else t
  }

  /** `Number.parseInt(s) || 0`: `NaN` and zero both give 0. */
  function ParseIntOrZero(s: string): (n: int)
    ensures n == 0 <==> ParseInt(s).None? || ParseInt(s) == Some(0)
    ensures ParseInt(s).Some? ==> n == ParseInt(s).value
  {
    match ParseInt(s)
    case None => 0
    case Some(v) => v
  }

  /** Every digit string is read back as the number it renders. */
  lemma {:induction false} DigitsValueOfNatToString(n: nat)
    ensures DigitsValue(NatToString(n)) == n
  {
    if n >= 10 {
      DigitsValueOfNatToString(n / 10);
      var s := NatToString(n);
      assert s[..|s| - 1] == NatToString(n / 10);
    }
  }

  lemma {:induction false} DigitPrefixOfDigits(s: string)
    requires forall i :: 0 <= i < |s| ==> IsDigit(s[i])
    ensures DigitPrefix(s) == s
  {
    if s != [] {
      DigitPrefixOfDigits(s[1..]);
    }
  }

  /** `parseInt` inverts the decimal rendering of a natural number. */
  lemma ParseIntNatToString(n: nat)
    ensures ParseInt(NatToString(n)) == Some(n)
  {
    var s := NatToString(n);
    assert !IsSpace(s[0]);
    assert LeadingSpaces(s) == 0;
    assert TrimStart(s) == s;
    assert SignFree(s) == s;
    DigitPrefixOfDigits(s);
    DigitsValueOfNatToString(n);
  }

  /** An audience typed as a plain number is stored as that number. */
  lemma ParseIntOrZeroNatToString(n: nat)
    ensures ParseIntOrZero(NatToString(n)) == n
  {
    ParseIntNatToString(n);
  }

  /** Different numbers render differently. */
  lemma NatToStringInjective(m: nat, n: nat)
    requires NatToString(m) == NatToString(n)
    ensures m == n
  {
    ParseIntNatToString(m);
    ParseIntNatToString(n);
  }

  // ---------------------------------------------------------------- replace

  /** The index of the first `c` in `s`, if any. */
  function IndexOf(s: string, c: char): (r: Option<nat>)
    ensures r.None? <==> c !in s
    ensures r.Some? ==>
      && r.value < |s| && s[r.value] == c
      && forall j :: 0 <= j < r.value ==> s[j] != c
  {
    if s == [] then None
    else if s[0] == c then Some(0)
    else
      match IndexOf(s[1..], c)
      case None => None
      case Some(k) => Some(k + 1)
  }

  /** `s.replace(c, d)` with a one-character string pattern: only the first `c` is replaced. */
  function ReplaceFirst(s: string, c: char, d: char): string
  {
    match IndexOf(s, c)
    case None => s
    case Some(k) => s[k := d]
  }
}
