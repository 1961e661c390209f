/** The string operations of Python the modelled code relies on: `str.split()`
    with and without a separator, the `in` substring test, `os.path.join`,
    `os.path.basename` and fixed-width decimal rendering. */
module Text {
  import opened Seqs

  /** The characters Python's `str.split()` and `str.strip()` treat as
      whitespace (`str.isspace`). */
  predicate IsSpace(c: char) {
    || c == ' ' || c == '\t' || c == '\n' || c == '\r'
    || c == '\U{0B}' || c == '\U{0C}'
    || ('\U{1C}' <= c <= '\U{1F}')
    || c == '\U{85}' || c == '\U{A0}' || c == '\U{1680}'
    || ('\U{2000}' <= c <= '\U{200A}')
    || c == '\U{2028}' || c == '\U{2029}' || c == '\U{202F}'
    || c == '\U{205F}' || c == '\U{3000}'
  }

  /** A non-empty run of non-whitespace characters. */
  predicate IsWord(w: string) {
    |w| > 0 && forall i :: 0 <= i < |w| ==> !IsSpace(w[i])
  }

  /** The longest prefix of `s` without whitespace. */
  function TakeWord(s: string): (w: string)
    ensures w <= s
    ensures forall i :: 0 <= i < |w| ==> !IsSpace(w[i])
    ensures |w| < |s| ==> IsSpace(s[|w|])
    ensures |s| > 0 && !IsSpace(s[0]) ==> |w| > 0
  {
    if |s| == 0 || IsSpace(s[0]) then "" else [s[0]] + TakeWord(s[1..])
  }

  /** `s.split()`: the maximal runs of non-whitespace characters, in order. */
  function Words(s: string): (ws: seq<string>)
    ensures forall i :: 0 <= i < |ws| ==> IsWord(ws[i])
    decreases |s|
  {
    if |s| == 0 then []
    else if IsSpace(s[0]) then Words(s[1..])
    else
      var w := TakeWord(s);
      [w] + Words(s[|w|..])
  }

  /** The words written one per line, each line ending in a newline. */
  function Lines(ws: seq<string>): string {
    if ws == [] then "" else ws[0] + "\n" + Lines(ws[1..])
  }

  lemma {:induction false} TakeWordBeforeSpace(w: string, c: char, rest: string)
    requires forall i :: 0 <= i < |w| ==> !IsSpace(w[i])
    requires IsSpace(c)
    ensures TakeWord(w + [c] + rest) == w
    decreases |w|
  {
    if |w| == 0 {
      assert (w + [c] + rest)[0] == c;
    } else {
      assert (w + [c] + rest)[1..] == w[1..] + [c] + rest;
      TakeWordBeforeSpace(w[1..], c, rest);
    }
  }

  /** Splitting a listing written one word per line gives back the words. */
  lemma {:induction false} WordsOfLines(ws: seq<string>)
    requires forall i :: 0 <= i < |ws| ==> IsWord(ws[i])
    ensures Words(Lines(ws)) == ws
    decreases |ws|
  {
    if ws != [] {
      var w, rest := ws[0], Lines(ws[1..]);
      var s := w + "\n" + rest;
      assert Lines(ws) == s;
      assert s[0] == w[0];
      TakeWordBeforeSpace(w, '\n', rest);
      assert s[|w|..] == "\n" + rest;
      assert ("\n" + rest)[1..] == rest;
      assert Words("\n" + rest) == Words(rest);
      WordsOfLines(ws[1..]);
    }
  }

  /** `s.split(c)`: the pieces between the occurrences of `c`; there is
      always one more piece than there are separators. */
  function Split(s: string, c: char): (parts: seq<string>)
    ensures |parts| >= 1
    ensures forall i :: 0 <= i < |parts| ==> c !in parts[i]
  {
    if |s| == 0 then [""]
    else
      var rest := Split(s[1..], c);
      if s[0] == c then [""] + rest else [[s[0]] + rest[0]] + rest[1..]
  }

  /** `c.join(parts)`. */
  function JoinWith(parts: seq<string>, c: char): string
    requires |parts| >= 1
  {
    if |parts| == 1 then parts[0] else parts[0] + [c] + JoinWith(parts[1..], c)
  }

  /** Joining the pieces of a split gives back the string. */
  lemma {:induction false} JoinOfSplit(s: string, c: char)
    ensures JoinWith(Split(s, c), c) == s
    decreases |s|
  {
    if |s| > 0 {
      var rest := Split(s[1..], c);
      JoinOfSplit(s[1..], c);
      if s[0] == c {
        assert Split(s, c)[1..] == rest;
      } else {
        var p := Split(s, c);
        assert p[0] == [s[0]] + rest[0];
        if |rest| == 1 {
          assert s == [s[0]] + s[1..];
        } else {
          assert p[1..] == rest[1..];
          assert s == [s[0]] + s[1..];
        }
      }
    }
  }

  lemma {:induction false} SplitFree(p: string, c: char)
    requires c !in p
    ensures Split(p, c) == [p]
    decreases |p|
  {
    if |p| > 0 {
      SplitFree(p[1..], c);
      assert [p[0]] + p[1..] == p;
    }
  }

  lemma {:induction false} SplitAtFirst(p: string, c: char, t: string)
    requires c !in p
    ensures Split(p + [c] + t, c) == [p] + Split(t, c)
    decreases |p|
  {
    var s := p + [c] + t;
    if |p| == 0 {
      assert s[0] == c && s[1..] == t;
    } else {
      assert s[0] == p[0] && s[1..] == p[1..] + [c] + t;
      SplitAtFirst(p[1..], c, t);
      assert [p[0]] + p[1..] == p;
    }
  }

  /** Splitting pieces that were joined with a separator they do not contain
      gives back the pieces. */
  lemma {:induction false} SplitOfJoin(parts: seq<string>, c: char)
    requires |parts| >= 1
    requires forall i :: 0 <= i < |parts| ==> c !in parts[i]
    ensures Split(JoinWith(parts, c), c) == parts
    decreases |parts|
  {
    if |parts| == 1 {
      SplitFree(parts[0], c);
    } else {
      SplitOfJoin(parts[1..], c);
      SplitAtFirst(parts[0], c, JoinWith(parts[1..], c));
    }
  }

  /** Python's `needle in hay` on strings, scanning `hay` from the left. */
  predicate Contains(hay: string, needle: string)
    decreases |hay|
  {
    needle <= hay || (|hay| > 0 && Contains(hay[1..], needle))
  }

  /** `needle` occurs in `hay` starting at index `i`. */
  ghost predicate OccursAt(hay: string, needle: string, i: int) {
    0 <= i && i + |needle| <= |hay| && hay[i..i + |needle|] == needle
  }

  /** The scan finds exactly the contiguous occurrences. */
  lemma {:induction false} ContainsIffOccurs(hay: string, needle: string)
    ensures Contains(hay, needle) <==> exists i :: OccursAt(hay, needle, i)
    decreases |hay|
  {
    if needle <= hay {
      assert OccursAt(hay, needle, 0);
    } else if |hay| == 0 {
    } else {
      ContainsIffOccurs(hay[1..], needle);
      if exists i :: OccursAt(hay[1..], needle, i) {
        var i :| OccursAt(hay[1..], needle, i);
        assert hay[1..][i..i + |needle|] == hay[i + 1..i + 1 + |needle|];
        assert OccursAt(hay, needle, i + 1);
      }
      if exists i :: OccursAt(hay, needle, i) {
        var i :| OccursAt(hay, needle, i);
        if i > 0 {
          assert hay[1..][i - 1..i - 1 + |needle|] == hay[i..i + |needle|];
          assert OccursAt(hay[1..], needle, i - 1);
        }
      }
    }
  }

  /** `os.path.join(a, b)` on POSIX: an absolute `b` replaces `a`; otherwise a
      slash is inserted unless `a` is empty or already ends in one. */
  function PathJoin(a: string, b: string): (p: string)
    ensures |b| <= |p| && p[|p| - |b|..] == b
    ensures |b| == 0 || b[0] != '/' ==> a <= p && |p| >= |a| + |b|
  {
    if |b| > 0 && b[0] == '/' then b
    else if a == "" || a[|a| - 1] == '/' then a + b
    else a + "/" + b
  }

  /** Appending a relative suffix to the second part appends it to the
      joined path. */
  lemma PathJoinAppend(a: string, b: string, x: string)
    requires |x| > 0 && x[0] != '/'
    ensures PathJoin(a, b + x) == PathJoin(a, b) + x
  {
    if |b| > 0 {
      assert (b + x)[0] == b[0];
    } else {
      assert b + x == x;
    }
  }

  /** `os.path.basename(p)`: everything after the last slash. */
  function Basename(p: string): (b: string)
    ensures '/' !in b
    ensures |b| <= |p| && p[|p| - |b|..] == b
    ensures |b| < |p| ==> p[|p| - |b| - 1] == '/'
  {
    if |p| == 0 || p[|p| - 1] == '/' then ""
    else Basename(p[..|p| - 1]) + [p[|p| - 1]]
  }

  predicate AllSlashes(s: string) {
    forall i :: 0 <= i < |s| ==> s[i] == '/'
  }

  /** `s.rstrip('/')`. */
  function StripTrailingSlashes(s: string): (r: string)
    ensures r <= s
    ensures |r| > 0 ==> r[|r| - 1] != '/'
    ensures AllSlashes(s[|r|..])
  {
    if |s| > 0 && s[|s| - 1] == '/' then
      var r := StripTrailingSlashes(s[..|s| - 1]);
      assert s[|r|..] == s[..|s| - 1][|r|..] + "/";
      r
    else s
  }

  /** `os.path.dirname(p)` on POSIX: everything before the last slash, with
      trailing slashes removed unless it consists of slashes only. */
  function Dirname(p: string): (h: string)
    ensures h <= p
    ensures |h| + |Basename(p)| <= |p|
  {
    var head := p[..|p| - |Basename(p)|];
    if head == "" || AllSlashes(head) then head else StripTrailingSlashes(head)
  }

  /** The directory of `a/b` is `a` when `b` has no slash and `a` is a
      non-empty path not ending in a slash. */
  lemma DirnameAfterSlash(a: string, b: string)
    requires '/' !in b
    requires |a| > 0 && a[|a| - 1] != '/'
    ensures Dirname(a + "/" + b) == a
  {
    var p := a + "/" + b;
    BasenameAfterSlash(a, b);
    assert p[..|p| - |b|] == a + "/";
    assert !AllSlashes(a + "/") by {
      assert (a + "/")[|a| - 1] == a[|a| - 1];
    }
    assert (a + "/")[..|a|] == a;
  }

  /** The basename of `a/b` is `b` when `b` has no slash. */
  lemma {:induction false} BasenameAfterSlash(a: string, b: string)
    requires '/' !in b
    ensures Basename(a + "/" + b) == b
    decreases |b|
  {
    var p := a + "/" + b;
    if |b| > 0 {
      var b' := b[..|b| - 1];
      assert p[..|p| - 1] == a + "/" + b';
      BasenameAfterSlash(a, b');
      assert b' + [b[|b| - 1]] == b;
    }
  }

  predicate IsDigit(c: char) {
    '0' <= c <= '9'
  }

  predicate AllDigits(s: string) {
    forall i :: 0 <= i < |s| ==> IsDigit(s[i])
  }

  /** The number a string of decimal digits denotes. */
  function DigitsValue(s: string): nat
    requires AllDigits(s)
  {
    if |s| == 0 then 0
    else DigitsValue(s[..|s| - 1]) * 10 + (s[|s| - 1] as int - '0' as int)
  }

  function DigitChar(d: nat): (c: char)
    requires d < 10
    ensures IsDigit(c) && c as int - '0' as int == d
  {
    ('0' as int + d) as char
  }

  /** `n` written with exactly `width` digits, zero-padded on the left. */
  function Pad(n: nat, width: nat): (s: string)
    requires n < Pow10(width)
    ensures |s| == width && AllDigits(s)
    ensures DigitsValue(s) == n
  {
    if width == 0 then ""
    else
      var s := Pad(n / 10, width - 1) + [DigitChar(n % 10)];
      assert s[..|s| - 1] == Pad(n / 10, width - 1);
      s
  }

  function Pow10(k: nat): (p: nat)
    ensures p >= 1
  {
    if k == 0 then 1 else 10 * Pow10(k - 1)
  }

  /** The number of leading characters of `s` in the class `inClass`. */
  function Span(s: string, inClass: char -> bool): (n: nat)
    ensures n <= |s|
    ensures forall i :: 0 <= i < n ==> inClass(s[i])
    ensures n < |s| ==> !inClass(s[n])
  {
    if |s| == 0 || !inClass(s[0]) then 0 else 1 + Span(s[1..], inClass)
  }

  /** Reference definition of `re.match("^C+$", v)` for a character class
      C: one or more characters of C, optionally followed by the single
      newline Python's `$` lets through. */
  predicate WholeRun(v: string, inClass: char -> bool) {
    || (|v| > 0 && forall i :: 0 <= i < |v| ==> inClass(v[i]))
    || (|v| > 1 && v[|v| - 1] == '\n' && forall i :: 0 <= i < |v| - 1 ==> inClass(v[i]))
  }

  /** The matcher: scan the run of class characters from the start, then
      require the end of the string or a final newline. */
  function MatchesRun(v: string, inClass: char -> bool): (b: bool)
    requires !inClass('\n')
    ensures b <==> WholeRun(v, inClass)
  {
    var n := Span(v, inClass);
    n > 0 && (n == |v| || (n == |v| - 1 && v[n] == '\n'))
  }

  /** `s.strip()`: without leading and trailing whitespace. */
  function Strip(s: string): (r: string)
    ensures |r| == 0 <==> forall i :: 0 <= i < |s| ==> IsSpace(s[i])
    decreases |s|
  {
    if |s| == 0 then s
    else if IsSpace(s[0]) then
      var r := Strip(s[1..]);
      assert forall i :: 1 <= i < |s| ==> s[i] == s[1..][i - 1];
      r
    else if IsSpace(s[|s| - 1]) then
      var r := Strip(s[..|s| - 1]);
      assert forall i :: 0 <= i < |s| - 1 ==> s[i] == s[..|s| - 1][i];
      r
    else s
  }

  /** `str(n)`: decimal digits without leading zeros. */
  function Decimal(n: nat): (s: string)
    ensures |s| > 0 && AllDigits(s) && DigitsValue(s) == n
    ensures |s| > 1 ==> s[0] != '0'
  {
    if n < 10 then [DigitChar(n)]
    else
      var s := Decimal(n / 10) + [DigitChar(n % 10)];
      assert s[..|s| - 1] == Decimal(n / 10);
      s
  }
}
