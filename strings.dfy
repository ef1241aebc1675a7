/**
 * The string operations of Go's standard library (and Python's `str.split`/`str.join`)
 * that the tool relies on, written out over `string`.  Go strings are byte strings; here a
 * string is a sequence of code points, and because UTF-8 preserves code-point order, Go's
 * bytewise `<` on strings is `LexLess` below.
 */
module Strings {

  predicate IsDigit(c: char) { '0' <= c <= '9' }

  predicate AllDigits(s: string) { forall i :: 0 <= i < |s| ==> IsDigit(s[i]) }

  function DigitChar(d: nat): (c: char)
    requires d < 10
    ensures IsDigit(c) && c as int - '0' as int == d
  {
    ('0' as int + d) as char
  }

  function DigitValue(c: char): (d: nat)
    requires IsDigit(c)
    ensures d < 10 && DigitChar(d) == c
  {
    c as int - '0' as int
  }

  // ---------------------------------------------------------------------------
  // Decimal formatting: fmt's %d and %0<w>d

  /** Decimal digits of `n` without leading zeros (fmt's `%d` on a non-negative value). */
  function NatToString(n: nat): (r: string)
    ensures 1 <= |r| && AllDigits(r)
    ensures |r| > 1 ==> r[0] != '0'
    decreases n
  {
    if n < 10 then [DigitChar(n)] else NatToString(n / 10) + [DigitChar(n % 10)]
  }

  /** The value of a string of decimal digits; leading zeros are allowed. */
  function ParseNat(s: string): nat
    requires AllDigits(s)
  {
    if |s| == 0 then 0 else 10 * ParseNat(s[..|s| - 1]) + DigitValue(s[|s| - 1])
  }

  lemma {:induction false} ParseNatToString(n: nat)
    ensures ParseNat(NatToString(n)) == n
  {
    if n >= 10 {
      var s := NatToString(n);
      assert s[..|s| - 1] == NatToString(n / 10);
      ParseNatToString(n / 10);
    }
  }

  function Zeros(k: nat): (r: string)
    ensures |r| == k && AllDigits(r)
    ensures forall i :: 0 <= i < k ==> r[i] == '0'
  {
    seq(k, _ => '0')
  }

  lemma {:induction false} ParseNatLeadingZeros(k: nat, s: string)
    requires AllDigits(s)
    ensures AllDigits(Zeros(k) + s) && ParseNat(Zeros(k) + s) == ParseNat(s)
    decreases |s|, k
  {
    var t := Zeros(k) + s;
    if |s| == 0 {
      assert t == Zeros(k);
      if k > 0 {
        assert t[..|t| - 1] == Zeros(k - 1) + s;
        ParseNatLeadingZeros(k - 1, s);
      }
    } else {
      assert t[..|t| - 1] == Zeros(k) + s[..|s| - 1];
      ParseNatLeadingZeros(k, s[..|s| - 1]);
    }
  }

  /** fmt's `%0<width>d` on a non-negative value: the digits, left-padded with zeros to `width`. */
  function ZeroPad(n: nat, width: nat): string
  {
    var digits := NatToString(n);
    (if |digits| < width then Zeros(width - |digits|) else "") + digits
  }

  /** Zero padding reaches the width, keeps every digit and reads back as the same number. */
  lemma ZeroPadReadsBack(n: nat, width: nat)
    ensures var r := ZeroPad(n, width);
            && |r| == (if |NatToString(n)| < width then width else |NatToString(n)|)
            && AllDigits(r)
            && ParseNat(r) == n
  {
    var digits := NatToString(n);
    var pad := if |digits| < width then width - |digits| else 0;
    assert ZeroPad(n, width) == Zeros(pad) + digits;
    ParseNatLeadingZeros(pad, digits);
    ParseNatToString(n);
  }

  /** A value below 10^width fills exactly `width` digits. */
  lemma {:induction false} NatToStringLength(n: nat, width: nat)
    requires width >= 1
    requires n < Pow10(width)
    ensures |NatToString(n)| <= width
  {
    if n >= 10 {
      assert n / 10 < Pow10(width - 1);
      NatToStringLength(n / 10, width - 1);
    }
  }

  function Pow10(k: nat): (r: nat)
    ensures r >= 1
  {
    if k == 0 then 1 else 10 * Pow10(k - 1)
  }

  /** A string of k digits denotes a number below 10^k. */
  lemma {:induction false} ParseNatBound(s: string)
    requires AllDigits(s)
    ensures ParseNat(s) < Pow10(|s|)
  {
    if |s| > 0 {
      ParseNatBound(s[..|s| - 1]);
    }
  }

  /** fmt's `%d` on any integer. */
  function IntToString(i: int): string
  {
    if i < 0 then "-" + NatToString(-i) else NatToString(i)
  }

  // ---------------------------------------------------------------------------
  // strings.ReplaceAll with a one-character pattern

  /** Go's `strings.ReplaceAll(s, string(c), with)`. */
  function ReplaceAll(s: string, c: char, with: string): (r: string)
    ensures c !in with ==> c !in r
    ensures c !in s ==> r == s
    ensures forall x :: x in r ==> x in s || x in with
    ensures with == "" ==> |r| <= |s|
  {
    if |s| == 0 then ""
    else (if s[0] == c then with else [s[0]]) + ReplaceAll(s[1..], c, with)
  }

  lemma {:induction false} ReplaceAllConcat(a: string, b: string, c: char, with: string)
    ensures ReplaceAll(a + b, c, with) == ReplaceAll(a, c, with) + ReplaceAll(b, c, with)
  {
    if |a| > 0 {
      assert (a + b)[1..] == a[1..] + b;
      ReplaceAllConcat(a[1..], b, c, with);
    } else {
      assert a + b == b;
    }
  }

  /** Removing every occurrence of a character twice removes nothing more. */
  lemma RemoveAllIdempotent(s: string, c: char)
    ensures ReplaceAll(ReplaceAll(s, c, ""), c, "") == ReplaceAll(s, c, "")
  {
  }

  // ---------------------------------------------------------------------------
  // strings.ToUpper and strconv.Quote on the ASCII range

  function UpperChar(x: char): char
  {
    if 'a' <= x <= 'z' then (x as int - 32) as char else x
  }

  /** Go's `strings.ToUpper`, on the ASCII letters. */
  function ToUpper(s: string): (r: string)
    ensures |r| == |s|
    ensures forall i :: 0 <= i < |r| ==> !('a' <= r[i] <= 'z')
    ensures forall i :: 0 <= i < |s| && 'a' <= s[i] <= 'z' ==> r[i] as int == s[i] as int - ('a' as int - 'A' as int)
    ensures forall i :: 0 <= i < |s| && !('a' <= s[i] <= 'z') ==> r[i] == s[i]
  {
    seq(|s|, i requires 0 <= i < |s| => UpperChar(s[i]))
  }

  /** The body of `strconv.Quote`: a backslash before every '"' and '\'. */
  function Escape(s: string): (r: string)
    ensures |r| >= |s|
    ensures forall x :: x in r ==> x in s || x == '\\'
  {
    if |s| == 0 then ""
    else (if s[0] == '"' || s[0] == '\\' then ['\\', s[0]] else [s[0]]) + Escape(s[1..])
  }

  function Unescape(e: string): string
    decreases |e|
  {
    if |e| == 0 then ""
    else if e[0] == '\\' && |e| >= 2 then [e[1]] + Unescape(e[2..])
    else [e[0]] + Unescape(e[1..])
  }

  lemma {:induction false} UnescapeEscape(s: string)
    ensures Unescape(Escape(s)) == s
  {
    if |s| > 0 {
      var e := Escape(s);
      if s[0] == '"' || s[0] == '\\' {
        assert e == ['\\', s[0]] + Escape(s[1..]);
        assert e[2..] == Escape(s[1..]);
      } else {
        assert e == [s[0]] + Escape(s[1..]);
        assert e[1..] == Escape(s[1..]);
      }
      UnescapeEscape(s[1..]);
    }
  }

  /** Go's `strconv.Quote` for strings without control characters. */
  function Quote(s: string): (r: string)
    ensures |r| >= 2 && r[0] == '"' && r[|r| - 1] == '"'
  {
    "\"" + Escape(s) + "\""
  }

  function Unquote(q: string): string
    requires |q| >= 2
  {
    Unescape(q[1..|q| - 1])
  }

  /** Quoting loses nothing: the quoted text reads back as the original. */
  lemma QuoteRoundTrip(s: string)
    ensures Unquote(Quote(s)) == s
  {
    var q := Quote(s);
    assert q[1..|q| - 1] == Escape(s);
    UnescapeEscape(s);
  }

  // ---------------------------------------------------------------------------
  // Lexicographic order (Go's `<` on strings, sort.Strings)

  predicate LexLess(a: string, b: string)
    decreases |a|
  {
    |b| > 0 && (|a| == 0 || a[0] < b[0] || (a[0] == b[0] && LexLess(a[1..], b[1..])))
  }

  lemma {:induction false} LexLessIrreflexive(a: string)
    ensures !LexLess(a, a)
  {
    if |a| > 0 {
      LexLessIrreflexive(a[1..]);
    }
  }

  lemma {:induction false} LexLessTransitive(a: string, b: string, c: string)
    requires LexLess(a, b) && LexLess(b, c)
    ensures LexLess(a, c)
    decreases |a|
  {
    if |a| > 0 && a[0] == b[0] && b[0] == c[0] {
      LexLessTransitive(a[1..], b[1..], c[1..]);
    }
  }

  lemma {:induction false} LexLessTotal(a: string, b: string)
    requires a != b
    ensures LexLess(a, b) || LexLess(b, a)
    decreases |a|
  {
    if |a| > 0 && |b| > 0 && a[0] == b[0] {
      assert a == [a[0]] + a[1..] && b == [b[0]] + b[1..];
      LexLessTotal(a[1..], b[1..]);
    }
  }

  lemma LexLessAsymmetric(a: string, b: string)
    requires LexLess(a, b)
    ensures !LexLess(b, a)
  {
    if LexLess(b, a) {
      LexLessTransitive(a, b, a);
      LexLessIrreflexive(a);
    }
  }

  // ---------------------------------------------------------------------------
  // Splitting and joining at a one-character separator

  /**
   * The fields of `s` between occurrences of `c`: Python's `s.split(c)` and Go's
   * `strings.Split(s, string(c))` agree on a non-empty one-character separator.
   */
  function Split(s: string, c: char): (parts: seq<string>)
    ensures |parts| >= 1
  {
    if |s| == 0 then [""]
    else
      var rest := Split(s[1..], c);
      if s[0] == c then [""] + rest else [[s[0]] + rest[0]] + rest[1..]
  }

  /** `c.join(parts)` in Python, `strings.Join(parts, string(c))` in Go. */
  function Join(parts: seq<string>, c: char): string
    requires |parts| >= 1
  {
    if |parts| == 1 then parts[0] else parts[0] + [c] + Join(parts[1..], c)
  }

  /** Joining the fields back together gives the original string. */
  lemma {:induction false} JoinSplit(s: string, c: char)
    ensures Join(Split(s, c), c) == s
  {
    if |s| > 0 {
      var rest := Split(s[1..], c);
      JoinSplit(s[1..], c);
      if s[0] == c {
        assert Split(s, c)[1..] == rest;
      } else if |rest| == 1 {
        assert Split(s, c) == [[s[0]] + rest[0]];
      } else {
        var parts := Split(s, c);
        assert parts[1..] == rest[1..];
        assert Join(rest, c) == rest[0] + [c] + Join(rest[1..], c);
      }
    }
  }

  /** No field contains the separator. */
  lemma {:induction false} SplitFieldsFree(s: string, c: char)
    ensures forall i :: 0 <= i < |Split(s, c)| ==> c !in Split(s, c)[i]
  {
    if |s| > 0 {
      SplitFieldsFree(s[1..], c);
      var rest := Split(s[1..], c);
      if s[0] != c {
        assert c !in rest[0];
        var parts := Split(s, c);
        forall i | 1 <= i < |parts|
          ensures c !in parts[i]
        {
          assert parts[i] == rest[i];
        }
      }
    }
  }

  lemma SplitNoSeparator(s: string, c: char)
    requires c !in s
    ensures Split(s, c) == [s]
  {
    if |s| > 0 {
      assert s[0] != c && c !in s[1..];
      SplitNoSeparator(s[1..], c);
      assert [s[0]] + s[1..] == s;
    }
  }

  /** Splitting at one occurrence of the separator splits each side separately. */
  lemma {:induction false} SplitAround(a: string, b: string, c: char)
    ensures Split(a + [c] + b, c) == Split(a, c) + Split(b, c)
  {
    if |a| == 0 {
      assert a + [c] + b == [c] + b;
      assert ([c] + b)[1..] == b;
    } else {
      assert (a + [c] + b)[1..] == a[1..] + [c] + b;
      SplitAround(a[1..], b, c);
    }
  }

  /** The text before the first separator: `strings.Split(s, sep)[0]`. */
  lemma FirstFieldOf(a: string, b: string, c: char)
    requires c !in a
    ensures Split(a + [c] + b, c)[0] == a
  {
    SplitAround(a, b, c);
    SplitNoSeparator(a, c);
  }

  // ---------------------------------------------------------------------------
  // path/filepath on slash-separated paths

  function TrimTrailing(s: string, c: char): (r: string)
    ensures |r| <= |s| && r == s[..|r|]
    ensures |r| > 0 ==> r[|r| - 1] != c
  {
    if |s| > 0 && s[|s| - 1] == c then TrimTrailing(s[..|s| - 1], c) else s
  }

  lemma {:induction false} LastFieldNonEmpty(s: string, c: char)
    requires |s| > 0 && s[|s| - 1] != c
    ensures var parts := Split(s, c); parts[|parts| - 1] != ""
  {
    if |s| > 1 {
      LastFieldNonEmpty(s[1..], c);
    }
  }

  /**
   * Go's `filepath.Base`: the last element of the path, after trailing slashes are removed;
   * "." for the empty path and "/" for a path of slashes only.
   */
  function Base(path: string): (r: string)
    ensures r != ""
  {
    if path == "" then "."
    else
      var t := TrimTrailing(path, '/');
      if t == "" then "/"
      else
        var parts := Split(t, '/');
        LastFieldNonEmpty(t, '/');
        parts[|parts| - 1]
  }

  /** A base name holds no slash, except the base "/" of a path made of slashes. */
  lemma BaseHasNoSlash(path: string)
    ensures Base(path) == "/" || '/' !in Base(path)
  {
    if path != "" {
      var t := TrimTrailing(path, '/');
      if t != "" {
        SplitFieldsFree(t, '/');
      }
    }
  }

  /** The base of "<dir>/<name>" is the name, for a name that is not itself a path. */
  lemma BaseOfJoined(dir: string, name: string)
    requires name != "" && '/' !in name
    ensures Base(dir + "/" + name) == name
  {
    var p := dir + "/" + name;
    assert p == dir + ['/'] + name;
    assert p[|p| - 1] == name[|name| - 1];
    assert TrimTrailing(p, '/') == p;
    SplitAround(dir, name, '/');
    SplitNoSeparator(name, '/');
  }

  lemma BaseOfName(name: string)
    requires name != "" && '/' !in name
    ensures Base(name) == name
  {
    assert TrimTrailing(name, '/') == name;
    SplitNoSeparator(name, '/');
  }

  /**
   * Go's `filepath.Join(dir, name)` for a clean directory and a plain file name; the
   * cleaning of "." and ".." elements and repeated slashes is not modelled.
   */
  function PathJoin(dir: string, name: string): string
  {
    if dir == "" then name else if name == "" then dir else dir + "/" + name
  }
}
