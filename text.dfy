/**
 * The handful of string operations the catalog's entry format is written
 * with: whitespace stripping, case mapping, prefix/suffix/substring tests,
 * splitting on one separator character and joining with a separator string.
 * Each one behaves like the string method of the same purpose in the
 * original program (strip, lower, upper, startswith, split, join, ljust),
 * restricted to what the entry format needs.
 */
module Text {

  /** A value or its absence. */
  datatype Option<T> = None | Some(value: T)

  /** The characters that count as whitespace for strip() and for the
      row pattern's \s: the ASCII controls, space and the Unicode spaces. */
  predicate IsSpace(c: char) {
    c == ' ' || c == '\t' || c == '\n' || c == '\r' || c == '\U{000B}' || c == '\U{000C}'
    || ('\U{001C}' <= c <= '\U{001F}') || c == '\U{0085}' || c == '\U{00A0}'
    || c == '\U{1680}' || ('\U{2000}' <= c <= '\U{200A}') || c == '\U{2028}'
    || c == '\U{2029}' || c == '\U{202F}' || c == '\U{205F}' || c == '\U{3000}'
  }

  predicate AllSpace(s: string) {
    forall i :: 0 <= i < |s| ==> IsSpace(s[i])
  }

  /** A string with no whitespace at either end, i.e. a fixed point of Strip. */
  predicate Stripped(s: string) {
    s == [] || (!IsSpace(s[0]) && !IsSpace(s[|s| - 1]))
  }

  /** Leading whitespace removed: the result is the suffix that starts at the
      first non-space character. */
  function LStrip(s: string): (r: string)
    ensures |r| <= |s|
    ensures r == [] || !IsSpace(r[0])
  {
    if |s| > 0 && IsSpace(s[0]) then LStrip(s[1..]) else s
  }

  /** Trailing whitespace removed: the result is the prefix that ends at the
      last non-space character. */
  function RStrip(s: string): (r: string)
    ensures |r| <= |s|
    ensures r == [] || !IsSpace(r[|r| - 1])
  {
    if |s| > 0 && IsSpace(s[|s| - 1]) then RStrip(s[..|s| - 1]) else s
  }

  /** Whitespace removed at both ends. */
  function Strip(s: string): (r: string)
    ensures Stripped(r)
    ensures forall c :: c in r ==> c in s
  {
    var l := LStrip(s);
    var r := RStrip(l);
    LStripSuffix(s);
    RStripPrefix(l);
    assert r == [] || !IsSpace(r[0]) by {
      if r != [] { assert r[0] == l[0]; }
    }
    assert forall c :: c in r ==> c in l;
    assert forall c :: c in l ==> c in s;
    r
  }

  /** A line counts as blank when nothing is left after stripping it. */
  predicate IsBlank(s: string) {
    Strip(s) == []
  }

  function LowerChar(c: char): char {
    if 'A' <= c <= 'Z' then (c as int + 32) as char else c
  }

  function UpperChar(c: char): char {
    if 'a' <= c <= 'z' then (c as int - 32) as char else c
  }

  /** ASCII lower-casing. */
  function Lower(s: string): (r: string)
    ensures |r| == |s|
    ensures forall i :: 0 <= i < |s| ==> r[i] == LowerChar(s[i])
  {
    seq(|s|, i requires 0 <= i < |s| => LowerChar(s[i]))
  }

  /** ASCII upper-casing. */
  function Upper(s: string): (r: string)
    ensures |r| == |s|
    ensures forall i :: 0 <= i < |s| ==> r[i] == UpperChar(s[i])
  {
    seq(|s|, i requires 0 <= i < |s| => UpperChar(s[i]))
  }

  /** Upper-casing twice is upper-casing once. */
  lemma UpperIdempotent(s: string)
    ensures Upper(Upper(s)) == Upper(s)
  {
  }

  predicate HasNoLowerCase(s: string) {
    forall i :: 0 <= i < |s| ==> !('a' <= s[i] <= 'z')
  }

  predicate StartsWith(s: string, prefix: string) {
    |prefix| <= |s| && s[..|prefix|] == prefix
  }

  predicate EndsWith(s: string, suffix: string) {
    |suffix| <= |s| && s[|s| - |suffix|..] == suffix
  }

  predicate Contains(s: string, t: string) {
    exists i | 0 <= i <= |s| :: StartsWith(s[i..], t)
  }

  /** n copies of one character. */
  function Repeat(c: char, n: nat): (r: string)
    ensures |r| == n && forall i :: 0 <= i < n ==> r[i] == c
  {
    seq(n, _ => c)
  }

  /** Left-justify in a field of the given width (the "{:<w}" format). */
  function PadRight(s: string, width: nat): (r: string)
    ensures |r| == if |s| < width then width else |s|
    ensures r[..|s|] == s && AllSpace(r[|s|..])
  {
    if |s| < width then s + Repeat(' ', width - |s|) else s
  }

  /** The pieces between the occurrences of the separator, left to right;
      an empty string gives one empty piece. */
  function Split(s: string, sep: char): (r: seq<string>)
    ensures |r| >= 1
    ensures forall p :: p in r ==> sep !in p
    decreases |s|
  {
    if |s| == 0 then [""]
    else
      var rest := Split(s[1..], sep);
      if s[0] == sep then [""] + rest else [[s[0]] + rest[0]] + rest[1..]
  }

  /** The strings with the separator between consecutive ones. */
  function Join(xs: seq<string>, sep: string): string {
    if |xs| == 0 then ""
    else if |xs| == 1 then xs[0]
    else xs[0] + sep + Join(xs[1..], sep)
  }

  /** Every leading and trailing occurrence of one character removed
      (strip with an explicit character argument). */
  function TrimChar(s: string, c: char): (r: string)
    ensures |r| <= |s|
  {
    TrimCharRight(TrimCharLeft(s, c), c)
  }

  function TrimCharLeft(s: string, c: char): (r: string)
    ensures |r| <= |s|
  {
    if |s| > 0 && s[0] == c then TrimCharLeft(s[1..], c) else s
  }

  function TrimCharRight(s: string, c: char): (r: string)
    ensures |r| <= |s|
  {
    if |s| > 0 && s[|s| - 1] == c then TrimCharRight(s[..|s| - 1], c) else s
  }

  // ---------------------------------------------------------------------
  // Lemmas about stripping
  // ---------------------------------------------------------------------

  /** LStrip removes a run of whitespace from the front and nothing else. */
  lemma {:induction false} LStripSuffix(s: string)
    ensures LStrip(s) == s[|s| - |LStrip(s)|..]
    ensures AllSpace(s[..|s| - |LStrip(s)|])
    decreases |s|
  {
    if |s| > 0 && IsSpace(s[0]) {
      LStripSuffix(s[1..]);
      assert forall i :: 1 <= i < |s| - |LStrip(s)| ==> s[i] == s[1..][i - 1];
    }
  }

  /** RStrip removes a run of whitespace from the back and nothing else. */
  lemma {:induction false} RStripPrefix(s: string)
    ensures RStrip(s) == s[..|RStrip(s)|]
    ensures AllSpace(s[|RStrip(s)|..])
    ensures RStrip(s) == [] ==> AllSpace(s)
    decreases |s|
  {
    if |s| > 0 && IsSpace(s[|s| - 1]) {
      RStripPrefix(s[..|s| - 1]);
      assert forall i :: |RStrip(s)| <= i < |s| - 1 ==> s[i] == s[..|s| - 1][i];
    }
  }

  lemma {:induction false} LStripAppend(x: string, y: string)
    ensures LStrip(x + y) == if AllSpace(x) then LStrip(y) else LStrip(x) + y
  {
    if |x| > 0 {
      assert (x + y)[0] == x[0];
      if IsSpace(x[0]) {
        assert (x + y)[1..] == x[1..] + y;
        LStripAppend(x[1..], y);
        assert AllSpace(x) <==> AllSpace(x[1..]) by {
          if AllSpace(x[1..]) {
            forall i | 0 <= i < |x| ensures IsSpace(x[i]) {
              if i > 0 { assert x[i] == x[1..][i - 1]; }
            }
          }
        }
      }
    } else {
      assert x + y == y;
    }
  }

  lemma {:induction false} RStripAppend(x: string, y: string)
    ensures RStrip(x + y) == if AllSpace(y) then RStrip(x) else x + RStrip(y)
  {
    if |y| > 0 {
      var n := |x + y|;
      assert (x + y)[n - 1] == y[|y| - 1];
      if IsSpace(y[|y| - 1]) {
        var y' := y[..|y| - 1];
        assert (x + y)[..n - 1] == x + y';
        RStripAppend(x, y');
        assert AllSpace(y) <==> AllSpace(y') by {
          if AllSpace(y') {
            forall i | 0 <= i < |y| ensures IsSpace(y[i]) {
              if i < |y| - 1 { assert y[i] == y'[i]; }
            }
          }
        }
      }
    } else {
      assert x + y == x;
    }
  }

  lemma AllSpaceStripsAway(s: string)
    requires AllSpace(s)
    ensures LStrip(s) == [] && Strip(s) == []
    decreases |s|
  {
    if |s| > 0 {
      AllSpaceStripsAway(s[1..]);
    }
  }

  lemma StrippedFixed(s: string)
    requires Stripped(s)
    ensures LStrip(s) == s && RStrip(s) == s && Strip(s) == s
  {
  }

  /** Strip is idempotent. */
  lemma StripIdempotent(s: string)
    ensures Strip(Strip(s)) == Strip(s)
  {
    StrippedFixed(Strip(s));
  }

  /** Whitespace added around a string does not change what Strip returns. */
  lemma StripPadded(w1: string, x: string, w2: string)
    requires AllSpace(w1) && AllSpace(w2)
    ensures Strip(w1 + x + w2) == Strip(x)
  {
    assert w1 + x + w2 == w1 + (x + w2);
    LStripAppend(w1, x + w2);
    LStripAppend(x, w2);
    if AllSpace(x) {
      AllSpaceStripsAway(x);
      AllSpaceStripsAway(x + w2);
    } else {
      RStripAppend(LStrip(x), w2);
    }
  }

  /** A string whose first character is not a space keeps that character
      at the front after stripping. */
  lemma StripKeepsFirst(s: string)
    requires |s| > 0 && !IsSpace(s[0])
    ensures |Strip(s)| > 0 && Strip(s)[0] == s[0]
  {
    assert LStrip(s) == s;
    RStripPrefix(s);

  }

  /** A string that begins and ends with a non-space character is its own
      strip. */
  lemma StripNonSpaceEnds(s: string)
    requires |s| > 0 && !IsSpace(s[0]) && !IsSpace(s[|s| - 1])
    ensures Strip(s) == s
  {
    StrippedFixed(s);
  }

  lemma LowerStartsWith(s: string, p: string)
    requires forall i :: 0 <= i < |p| ==> LowerChar(p[i]) == p[i]
    requires StartsWith(s, p)
    ensures StartsWith(Lower(s), p)
  {
    assert Lower(s)[..|p|] == p;
  }

  lemma LowerNotStartsWith(s: string, p: string)
    requires forall i :: 0 <= i < |p| ==> !('A' <= p[i] <= 'Z') && !('a' <= p[i] <= 'z')
    requires !StartsWith(s, p)
    ensures !StartsWith(Lower(s), p)
  {
  }

  // ---------------------------------------------------------------------
  // Lemmas about splitting and joining
  // ---------------------------------------------------------------------

  lemma SplitNoSeparator(s: string, sep: char)
    requires sep !in s
    ensures Split(s, sep) == [s]
    decreases |s|
  {
    if |s| > 0 {
      SplitNoSeparator(s[1..], sep);
      assert [s[0]] + s[1..] == s;
    }
  }

  /** Splitting at a separator placed between two strings splits each of
      them separately. */
  lemma {:induction false} SplitConcat(x: string, y: string, sep: char)
    ensures Split(x + [sep] + y, sep) == Split(x, sep) + Split(y, sep)
    decreases |x|
  {
    if |x| == 0 {
      assert x + [sep] + y == [sep] + y;
      assert ([sep] + y)[1..] == y;
    } else {
      assert (x + [sep] + y)[0] == x[0];
      assert (x + [sep] + y)[1..] == x[1..] + [sep] + y;
      SplitConcat(x[1..], y, sep);
    }
  }

  /** Joining the pieces of a split with the separator gives the string back. */
  lemma {:induction false} JoinSplit(s: string, sep: char)
    ensures Join(Split(s, sep), [sep]) == s
    decreases |s|
  {
    if |s| > 0 {
      var rest := Split(s[1..], sep);
      JoinSplit(s[1..], sep);
      if s[0] == sep {
        assert Split(s, sep) == [""] + rest;
        assert ([""] + rest)[1..] == rest;
        assert [s[0]] + s[1..] == s;
      } else {
        var pieces := [[s[0]] + rest[0]] + rest[1..];
        assert Split(s, sep) == pieces;
        if |rest| == 1 {
          assert [s[0]] + s[1..] == s;
        } else {
          assert pieces[1..] == rest[1..];
          assert Join(rest, [sep]) == rest[0] + [sep] + Join(rest[1..], [sep]);
          assert [s[0]] + s[1..] == s;
        }
      }
    }
  }

  /** Splitting a join of separator-free pieces gives the pieces back. */
  lemma {:induction false} SplitJoin(xs: seq<string>, sep: char)
    requires |xs| >= 1
    requires forall x :: x in xs ==> sep !in x
    ensures Split(Join(xs, [sep]), sep) == xs
    decreases |xs|
  {
    if |xs| == 1 {
      SplitNoSeparator(xs[0], sep);
    } else {
      SplitJoin(xs[1..], sep);
      SplitConcat(xs[0], Join(xs[1..], [sep]), sep);
      SplitNoSeparator(xs[0], sep);
      assert [xs[0]] + xs[1..] == xs;
    }
  }

  /** A non-empty sequence is its head in front of its tail. */
  lemma ConsTail<T>(s: seq<T>)
    requires |s| > 0
    ensures [s[0]] + s[1..] == s
  {
  }
}
