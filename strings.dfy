/** The character and string operations of Python's `str` that the model relies on, restricted
    to ASCII where Python would consult Unicode tables. */
module Strings {

  predicate IsAsciiUpper(c: char) { 'A' <= c <= 'Z' }

  function LowerChar(c: char): (r: char)
    ensures !IsAsciiUpper(r)
    ensures IsAsciiUpper(c) ==> r as int == c as int + 32
    ensures !IsAsciiUpper(c) ==> r == c
  {
    if IsAsciiUpper(c) then (c as int + 32) as char else c
  }

  /** `str.lower()`, for ASCII letters. */
  function Lower(s: string): (r: string)
    ensures |r| == |s|
    ensures forall i :: 0 <= i < |s| ==> r[i] == LowerChar(s[i])
  {
    seq(|s|, i requires 0 <= i < |s| => LowerChar(s[i]))
  }

  /** `str.lstrip(c)` for a one-character argument: drops every leading `c`. */
  function LStrip(s: string, c: char): (r: string)
    ensures |r| <= |s| && r == s[|s| - |r|..]
    ensures r == [] || r[0] != c
    ensures forall i :: 0 <= i < |s| - |r| ==> s[i] == c
  {
    if |s| > 0 && s[0] == c then LStrip(s[1..], c) else s
  }

  /** The characters `str.strip()` removes, restricted to ASCII. */
  predicate IsWhitespace(c: char) {
    c == ' ' || c == '\t' || c == '\n' || c == '\r' || c == '\U{B}' || c == '\U{C}'
  }

  /** `s.strip() == ""`. */
  predicate IsBlank(s: string) {
    forall i :: 0 <= i < |s| ==> IsWhitespace(s[i])
  }

  predicate IsDigit(c: char) { '0' <= c <= '9' }

  function DigitValue(c: char): (v: nat)
    requires IsDigit(c)
    ensures v <= 9
  {
    c as int - '0' as int
  }

  function DigitChar(v: nat): (c: char)
    requires v <= 9
    ensures IsDigit(c) && DigitValue(c) == v
  {
    ('0' as int + v) as char
  }

  /** A non-empty run of ASCII decimal digits: what the model accepts where Python calls `int()`. */
  predicate IsDecimal(s: string) {
    |s| > 0 && forall i :: 0 <= i < |s| ==> IsDigit(s[i])
  }

  /** The value of a run of decimal digits, read most significant digit first. */
  function DecimalValue(s: string): nat
    requires forall i :: 0 <= i < |s| ==> IsDigit(s[i])
  {
    if |s| == 0 then 0 else DecimalValue(s[..|s| - 1]) * 10 + DigitValue(s[|s| - 1])
  }

  function Pow10(w: nat): (p: nat)
    ensures p >= 1
  {
    if w == 0 then 1 else 10 * Pow10(w - 1)
  }

  /** The decimal digits of `n`, left-padded with zeros to at least `w` characters: the rendering
      of `strftime`'s `%Y` (w = 4) and of `%m`, `%d`, `%H`, `%M`, `%S` (w = 2). */
  function PadTo(n: nat, w: nat): string
    decreases n + w
  {
    if n == 0 && w == 0 then "" else PadTo(n / 10, if w > 0 then w - 1 else 0) + [DigitChar(n % 10)]
  }

  lemma {:induction false} PadToDigits(n: nat, w: nat)
    ensures forall i :: 0 <= i < |PadTo(n, w)| ==> IsDigit(PadTo(n, w)[i])
    decreases n + w
  {
    if !(n == 0 && w == 0) {
      PadToDigits(n / 10, if w > 0 then w - 1 else 0);
    }
  }

  /** Padding to `w` digits yields exactly `w` characters when `n` has at most `w` digits, and
      reading the characters back gives `n`. */
  lemma {:induction false} PadToValue(n: nat, w: nat)
    requires n < Pow10(w)
    ensures |PadTo(n, w)| == w
    ensures forall i :: 0 <= i < w ==> IsDigit(PadTo(n, w)[i])
    ensures DecimalValue(PadTo(n, w)) == n
  {
    PadToDigits(n, w);
    if w > 0 {
      PadToValue(n / 10, w - 1);
      var p := PadTo(n / 10, w - 1);
      assert PadTo(n, w) == p + [DigitChar(n % 10)];
      assert (p + [DigitChar(n % 10)])[..w - 1] == p;
    }
  }

  /** A run of `w` digits has a value below 10^w. */
  lemma {:induction false} DecimalBound(s: string)
    requires forall i :: 0 <= i < |s| ==> IsDigit(s[i])
    ensures DecimalValue(s) < Pow10(|s|)
  {
    if |s| > 0 {
      DecimalBound(s[..|s| - 1]);
    }
  }

  /** Equally long runs of digits with the same value are the same string. */
  lemma {:induction false} DecimalInjective(a: string, b: string)
    requires |a| == |b|
    requires forall i :: 0 <= i < |a| ==> IsDigit(a[i])
    requires forall i :: 0 <= i < |b| ==> IsDigit(b[i])
    requires DecimalValue(a) == DecimalValue(b)
    ensures a == b
  {
    if |a| > 0 {
      var n := |a| - 1;
      var a', b' := a[..n], b[..n];
      assert forall i :: 0 <= i < n ==> a'[i] == a[i] && b'[i] == b[i];
      assert DecimalValue(a) == DecimalValue(a') * 10 + DigitValue(a[n]);
      assert DecimalValue(b) == DecimalValue(b') * 10 + DigitValue(b[n]);
      TenDigit(DecimalValue(a'), DigitValue(a[n]), DecimalValue(b'), DigitValue(b[n]));
      DecimalInjective(a', b');
      assert a == a' + [a[n]] && b == b' + [b[n]];
    }
  }

  /** The last decimal digit and the rest are determined by the value. */
  lemma TenDigit(x: nat, d: nat, y: nat, e: nat)
    requires d <= 9 && e <= 9 && x * 10 + d == y * 10 + e
    ensures x == y && d == e
  {
  }

  /** Padding the value of a run of `w` digits to `w` characters gives the run back. */
  lemma PadToDecimal(s: string)
    requires forall i :: 0 <= i < |s| ==> IsDigit(s[i])
    ensures PadTo(DecimalValue(s), |s|) == s
  {
    DecimalBound(s);
    PadToValue(DecimalValue(s), |s|);
    DecimalInjective(PadTo(DecimalValue(s), |s|), s);
  }

  /** Python's `str.split(sep)` with a one-character separator: the pieces between separators,
      including empty ones, so that there is always one piece more than there are separators. */
  function Split(s: string, sep: char): (parts: seq<string>)
    ensures |parts| >= 1
    decreases |s|
  {
    if |s| == 0 then [""]
    else
      var rest := Split(s[1..], sep);
      if s[0] == sep then [""] + rest else [[s[0]] + rest[0]] + rest[1..]
  }

  /** The first piece of a split is everything before the first separator. */
  lemma {:induction false} SplitFirst(s: string, sep: char)
    ensures var p := Split(s, sep)[0];
      sep !in p && |p| <= |s| && p == s[..|p|] && (|p| == |s| || s[|p|] == sep)
    decreases |s|
  {
    if |s| > 0 && s[0] != sep {
      SplitFirst(s[1..], sep);
      var q := Split(s[1..], sep)[0];
      assert Split(s, sep)[0] == [s[0]] + q;
      assert s[..|q| + 1] == [s[0]] + s[1..][..|q|];
    }
  }

  /** A string without the separator is a single piece. */
  lemma {:induction false} SplitWhole(s: string, sep: char)
    ensures sep !in s ==> Split(s, sep) == [s]
    decreases |s|
  {
    if |s| > 0 && sep !in s {
      assert sep !in s[1..] by {
        assert forall x :: x in s[1..] ==> x in s;
      }
      SplitWhole(s[1..], sep);
      assert [s[0]] + s[1..] == s;
    }
  }

  /** A separator after a piece free of it ends that piece. */
  lemma {:induction false} SplitAt(a: string, b: string, sep: char)
    requires sep !in a
    ensures Split(a + [sep] + b, sep) == [a] + Split(b, sep)
    decreases |a|
  {
    var s := a + [sep] + b;
    if |a| == 0 {
      assert s[0] == sep && s[1..] == b;
    } else {
      assert sep !in a[1..] by {
        assert forall x :: x in a[1..] ==> x in a;
      }
      SplitAt(a[1..], b, sep);
      assert s[0] == a[0] && s[1..] == a[1..] + [sep] + b;
      assert [a[0]] + a[1..] == a;
    }
  }

  /** `sep.join(parts)`. */
  function Join(parts: seq<string>, sep: char): string
    requires |parts| >= 1
  {
    if |parts| == 1 then parts[0] else parts[0] + [sep] + Join(parts[1..], sep)
  }

  /** Joining the pieces of a split gives back the string, and no piece holds the separator. */
  lemma {:induction false} SplitJoin(s: string, sep: char)
    ensures Join(Split(s, sep), sep) == s
    ensures forall k :: 0 <= k < |Split(s, sep)| ==> sep !in Split(s, sep)[k]
    decreases |s|
  {
    if |s| > 0 {
      SplitJoin(s[1..], sep);
      var rest := Split(s[1..], sep);
      if s[0] == sep {
        assert Split(s, sep) == [""] + rest;
        assert ([""] + rest)[1..] == rest;
      } else {
        var parts := [[s[0]] + rest[0]] + rest[1..];
        assert Split(s, sep) == parts;
        if |rest| > 1 {
          assert parts[1..] == rest[1..];
          assert Join(rest, sep) == rest[0] + [sep] + Join(rest[1..], sep);
        }
        assert s == [s[0]] + s[1..];
      }
    }
  }

  /** Splitting a join of pieces free of the separator recovers the pieces. */
  lemma {:induction false} JoinSplit(parts: seq<string>, sep: char)
    requires |parts| >= 1
    requires forall k :: 0 <= k < |parts| ==> sep !in parts[k]
    ensures Split(Join(parts, sep), sep) == parts
    decreases |parts|, |parts[0]|
  {
    if |parts[0]| > 0 {
      var p := parts[0];
      var tail := [p[1..]] + parts[1..];
      assert forall k :: 0 <= k < |tail| ==> sep !in tail[k] by {
        assert forall k :: 0 < k < |tail| ==> tail[k] == parts[k];
        assert forall x :: x in p[1..] ==> x in p;
      }
      JoinSplit(tail, sep);
      JoinHead(parts, sep);
      SplitHead(p[0], Join(tail, sep), sep);
      assert [[p[0]] + tail[0]] + tail[1..] == parts by {
        assert [p[0]] + p[1..] == p;
      }
    } else if |parts| > 1 {
      JoinSplit(parts[1..], sep);
      var j := Join(parts, sep);
      assert j == [sep] + Join(parts[1..], sep);
      assert j[1..] == Join(parts[1..], sep);
      assert [""] + parts[1..] == parts;
    }
  }

  /** Joining pieces whose first one is not empty starts with its first character. */
  lemma JoinHead(parts: seq<string>, sep: char)
    requires |parts| >= 1 && |parts[0]| > 0
    ensures Join(parts, sep) == [parts[0][0]] + Join([parts[0][1..]] + parts[1..], sep)
  {
    var p := parts[0];
    var tail := [p[1..]] + parts[1..];
    assert p == [p[0]] + p[1..];
    if |parts| > 1 {
      assert tail[1..] == parts[1..];
    }
  }

  /** A string that starts with a character other than the separator splits like its rest, with
      that character in front of the first piece. */
  lemma SplitHead(c: char, s: string, sep: char)
    requires c != sep
    ensures var rest := Split(s, sep); Split([c] + s, sep) == [[c] + rest[0]] + rest[1..]
  {
    assert ([c] + s)[1..] == s;
  }

  /** `s.replace(a, b, count)` for one-character `a` and `b`: the first `count` occurrences of
      `a` become `b`. */
  function ReplaceFirst(s: string, a: char, b: char, count: nat): (r: string)
    ensures |r| == |s|
  {
    if |s| == 0 then ""
    else if s[0] == a && count > 0 then [b] + ReplaceFirst(s[1..], a, b, count - 1)
    else [s[0]] + ReplaceFirst(s[1..], a, b, count)
  }

  /** What `ReplaceFirst` does to a prefix does not depend on what follows it. */
  lemma {:induction false} ReplaceFirstPrefix(s: string, t: string, a: char, b: char, count: nat)
    ensures ReplaceFirst(s + t, a, b, count)[..|s|] == ReplaceFirst(s, a, b, count)
    decreases |s|
  {
    if |s| > 0 {
      assert (s + t)[1..] == s[1..] + t;
      assert (s + t)[0] == s[0];
      var k := if s[0] == a && count > 0 then count - 1 else count;
      ReplaceFirstPrefix(s[1..], t, a, b, k);
    }
  }

  /** Replacing inside a string free of `a` leaves it alone. */
  lemma {:induction false} ReplaceFirstSkip(s: string, t: string, a: char, b: char, count: nat)
    requires a !in s
    ensures ReplaceFirst(s + t, a, b, count) == s + ReplaceFirst(t, a, b, count)
    decreases |s|
  {
    if |s| > 0 {
      assert (s + t)[1..] == s[1..] + t;
      assert s[0] in s && (s + t)[0] == s[0];
      assert a !in s[1..] by {
        assert forall x :: x in s[1..] ==> x in s;
      }
      ReplaceFirstSkip(s[1..], t, a, b, count);
      assert ReplaceFirst(s + t, a, b, count) == [s[0]] + ReplaceFirst(s[1..] + t, a, b, count);
      var r := ReplaceFirst(t, a, b, count);
      assert [s[0]] + (s[1..] + r) == ([s[0]] + s[1..]) + r;
      assert s == [s[0]] + s[1..];
    } else {
      assert s + t == t;
    }
  }

  /** An occurrence of `a` while replacements remain is replaced and uses one of them up. */
  lemma ReplaceFirstHit(t: string, a: char, b: char, count: nat)
    requires count > 0
    ensures ReplaceFirst([a] + t, a, b, count) == [b] + ReplaceFirst(t, a, b, count - 1)
  {
    assert ([a] + t)[1..] == t;
  }

  /** With no replacements left the string is unchanged. */
  lemma {:induction false} ReplaceFirstNone(s: string, a: char, b: char)
    ensures ReplaceFirst(s, a, b, 0) == s
    decreases |s|
  {
    if |s| > 0 {
      ReplaceFirstNone(s[1..], a, b);
      assert s == [s[0]] + s[1..];
    }
  }
}
