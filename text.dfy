/**
 * The few pieces of Python's string and POSIX path handling that the three
 * scripts rely on: `str.lower`, `str.endswith`, `str.split`, `int(...)` on a
 * decimal string, `os.path.join` and `os.path.splitext`.
 */
module Text {
  import opened Wrappers

  // ---------------------------------------------------------------------
  // Case mapping and suffixes
  // ---------------------------------------------------------------------

  /** `c.lower()` on the ASCII range; every other character is kept. */
  function LowerChar(c: char): char
  {
    if 'A' <= c <= 'Z' then (c as int + 32) as char else c
  }

  /** `s.lower()`: character-by-character case mapping, same length. */
  function Lower(s: string): (r: string)
    ensures |r| == |s|
    ensures forall i :: 0 <= i < |s| ==> r[i] == LowerChar(s[i])
  {
    if s == [] then [] else [LowerChar(s[0])] + Lower(s[1..])
  }

  /** `s.endswith(suffix)`. */
  predicate EndsWith(s: string, suffix: string)
  {
    |suffix| <= |s| && s[|s| - |suffix|..] == suffix
  }

  // ---------------------------------------------------------------------
  // str.split with an explicit one-character separator
  // ---------------------------------------------------------------------

  /**
   * `s.split(sep)`: the pieces between occurrences of `sep`; always at least
   * one piece (the empty string splits into `[""]`), and no piece holds `sep`.
   */
  function Split(s: string, sep: char): (r: seq<string>)
    ensures |r| >= 1
    ensures forall k :: 0 <= k < |r| ==> sep !in r[k]
  {
    if s == [] then [""]
    else
      var rest := Split(s[1..], sep);
      if s[0] == sep then [""] + rest
      else [[s[0]] + rest[0]] + rest[1..]
  }

  /** Gluing the pieces back with `sep` gives the original string. */
  function JoinWith(pieces: seq<string>, sep: char): string
    requires |pieces| >= 1
  {
    if |pieces| == 1 then pieces[0] else pieces[0] + [sep] + JoinWith(pieces[1..], sep)
  }

  lemma {:induction false} SplitJoin(s: string, sep: char)
    ensures JoinWith(Split(s, sep), sep) == s
  {
    if s != [] {
      SplitJoin(s[1..], sep);
      var rest := Split(s[1..], sep);
      if s[0] != sep {
        if |rest| == 1 {
        } else {
          calc {
            JoinWith(Split(s, sep), sep);
            [s[0]] + rest[0] + [sep] + JoinWith(rest[1..], sep);
            [s[0]] + JoinWith(rest, sep);
          }
        }
      }
    }
  }

  /** A string without the separator is one piece. */
  lemma {:induction false} SplitNoSeparator(s: string, sep: char)
    requires sep !in s
    ensures Split(s, sep) == [s]
  {
    if s != [] {
      SplitNoSeparator(s[1..], sep);
      assert [s[0]] + s[1..] == s;
    }
  }

  /** The first piece of `a + [sep] + b` is `a` when `a` holds no separator. */
  lemma {:induction false} SplitAtFirst(a: string, b: string, sep: char)
    requires sep !in a
    ensures Split(a + [sep] + b, sep) == [a] + Split(b, sep)
  {
    if a == [] {
      assert a + [sep] + b == [sep] + b;
      assert ([sep] + b)[1..] == b;
    } else {
      assert (a + [sep] + b)[1..] == a[1..] + [sep] + b;
      SplitAtFirst(a[1..], b, sep);
      assert (a + [sep] + b)[0] == a[0];
      assert [a[0]] + a[1..] == a;
    }
  }

  // ---------------------------------------------------------------------
  // Decimal numbers: `str(n)` / `%d` and `int(s)`
  // ---------------------------------------------------------------------

  predicate IsDigit(c: char)
  {
    '0' <= c <= '9'
  }

  predicate AllDigits(s: string)
  {
    forall i :: 0 <= i < |s| ==> IsDigit(s[i])
  }

  function DigitChar(d: int): (c: char)
    requires 0 <= d < 10
    ensures IsDigit(c)
  {
    ('0' as int + d) as char
  }

  /** The value of a string of decimal digits, most significant first. */
  function DigitsValue(s: string): nat
    requires AllDigits(s)
  {
    if s == [] then 0
    else DigitsValue(s[..|s| - 1]) * 10 + (s[|s| - 1] as int - '0' as int)
  }

  /** `str(n)` for a natural number: shortest decimal form. */
  function NatToDecimal(n: nat): (r: string)
    ensures |r| >= 1 && AllDigits(r)
    ensures '+' !in r && '-' !in r && 'x' !in r
  {
    if n < 10 then [DigitChar(n)] else NatToDecimal(n / 10) + [DigitChar(n % 10)]
  }

  /** `str(x)` / `"%d" % x` for any integer. */
  function IntToDecimal(x: int): (r: string)
    ensures '+' !in r && 'x' !in r
  {
    if x < 0 then "-" + NatToDecimal(-x) else NatToDecimal(x)
  }

  /**
   * `int(s)` for a string of the form `[+|-]digits`; `None` stands for the
   * `ValueError` raised on every other string.
   */
  function ParseInt(s: string): Option<int>
  {
    if |s| >= 1 && (s[0] == '-' || s[0] == '+') then
      var t := s[1..];
      if |t| >= 1 && AllDigits(t) then
        var v: int := DigitsValue(t);
        Some(if s[0] == '-' then -v else v)
      else None
    else if |s| >= 1 && AllDigits(s) then Some(DigitsValue(s))
    else None
  }

  lemma {:induction false} DigitsValueOfDecimal(n: nat)
    ensures DigitsValue(NatToDecimal(n)) == n
  {
    if n >= 10 {
      DigitsValueOfDecimal(n / 10);
      var s := NatToDecimal(n);
      assert s[..|s| - 1] == NatToDecimal(n / 10);
    }
  }

  /** `int(str(n)) == n`. */
  lemma ParseDecimalRoundTrip(n: nat)
    ensures ParseInt(NatToDecimal(n)) == Some(n)
  {
    DigitsValueOfDecimal(n);
  }

  // ---------------------------------------------------------------------
  // POSIX paths: os.path.join and os.path.splitext
  // ---------------------------------------------------------------------

  /** `os.path.join(a, b)` on POSIX. */
  function PathJoin(a: string, b: string): string
  {
    if |b| >= 1 && b[0] == '/' then b
    else if a == [] || a[|a| - 1] == '/' then a + b
    else a + "/" + b
  }

  /** `s.rfind(c)`: the last index holding `c`, or -1. */
  function RFind(s: string, c: char): (i: int)
    ensures -1 <= i < |s|
    ensures i >= 0 ==> s[i] == c
    ensures forall k :: i < k < |s| ==> s[k] != c
  {
    if s == [] then -1
    else if s[|s| - 1] == c then |s| - 1
    else RFind(s[..|s| - 1], c)
  }

  /** Some character of `p[lo..hi]` is not a dot. */
  predicate HasNonDot(p: string, lo: int, hi: int)
    requires 0 <= lo && hi <= |p|
  {
    exists k :: lo <= k < hi && p[k] != '.'
  }

  /**
   * `os.path.splitext(p)` on POSIX: the extension starts at the last dot of
   * the last path component, unless everything in that component before the
   * dot is a dot as well (a leading-dot name such as ".png" has no extension).
   */
  function SplitExt(p: string): (r: (string, string))
    ensures r.0 + r.1 == p
    ensures r.1 == [] || (r.1[0] == '.' && '.' !in r.1[1..] && '/' !in r.1)
    // an extension is split off only when its dot follows something other than dots
    ensures r.1 != [] ==> HasNonDot(p, RFind(p, '/') + 1, |r.0|)
    // no extension: every dot of the last component is preceded there by dots only
    ensures r.1 == [] ==>
              forall k :: RFind(p, '/') < k < |p| && p[k] == '.' ==> !HasNonDot(p, RFind(p, '/') + 1, k)
  {
    var sepIndex := RFind(p, '/');
    var dotIndex := RFind(p, '.');
    if dotIndex > sepIndex && HasNonDot(p, sepIndex + 1, dotIndex) then
      assert p[..dotIndex] + p[dotIndex..] == p;
      assert forall k :: 0 <= k < |p| - dotIndex - 1 ==> p[dotIndex..][1..][k] == p[dotIndex + 1 + k];
      assert |p[..dotIndex]| == dotIndex;
      (p[..dotIndex], p[dotIndex..])
    else
      NoExtensionDots(p, sepIndex, dotIndex);
      (p, [])
  }

  /** "a.txt" splits as ("a", ".txt"); a leading-dot name such as ".bashrc" keeps no extension. */
  lemma SplitExtExamples()
    ensures SplitExt("a.txt") == ("a", ".txt")
    ensures SplitExt(".bashrc") == (".bashrc", "")
  {
    var a := "a.txt";
    assert a[0] == 'a' && a[1] == '.' && a[2] == 't' && a[3] == 'x' && a[4] == 't';
    assert RFind(a, '/') == -1 && RFind(a, '.') == 1;
    assert HasNonDot(a, 0, 1);
    assert a[..1] == "a" && a[1..] == ".txt";
    var b := ".bashrc";
    assert b[0] == '.' && forall k :: 0 < k < |b| ==> b[k] != '.' && b[k] != '/';
    assert RFind(b, '/') == -1 && RFind(b, '.') == 0;
  }

  /** When `SplitExt` keeps the whole name, each dot after the last slash has only dots before it. */
  lemma NoExtensionDots(p: string, sepIndex: int, dotIndex: int)
    requires -1 <= sepIndex < |p| && -1 <= dotIndex < |p|
    requires forall k :: dotIndex < k < |p| ==> p[k] != '.'
    requires !(dotIndex > sepIndex && HasNonDot(p, sepIndex + 1, dotIndex))
    ensures forall k :: sepIndex < k < |p| && p[k] == '.' ==> !HasNonDot(p, sepIndex + 1, k)
  {
    forall k | sepIndex < k < |p| && p[k] == '.'
      ensures !HasNonDot(p, sepIndex + 1, k)
    {
      assert k <= dotIndex;
    }
  }

  // ---------------------------------------------------------------------
  // The ".png" name test shared by the overlay and the batch resizer
  // ---------------------------------------------------------------------

  /** `f.lower().endswith('.png')`. */
  predicate IsPngName(f: string)
  {
    EndsWith(Lower(f), ".png")
  }

  /** The case-insensitive ".png" test, character by character. */
  lemma IsPngNameChars(f: string)
    ensures IsPngName(f) <==>
            |f| >= 4 && f[|f| - 4] == '.' && f[|f| - 3] in "pP" && f[|f| - 2] in "nN" && f[|f| - 1] in "gG"
  {
    var l := Lower(f);
    if |f| >= 4 {
      assert l[|l| - 4..] == [l[|f| - 4], l[|f| - 3], l[|f| - 2], l[|f| - 1]];
    }
  }
}
