/**
 * The handful of Python `str` operations the document module relies on:
 * `sub in s`, `s.split(sep)` (with `[0]` and `[-1]`) and `s.lower()`.
 */
module Strings {

  /** Python's `sub in s`: `sub` occurs as a contiguous block of `s` (the empty string occurs everywhere). */
  predicate Contains(s: string, sub: string)
    decreases |s|
  {
    sub <= s || (|s| > 0 && Contains(s[1..], sub))
  }

  /** For a one-character needle, `sub in s` is plain membership. */
  lemma {:induction false} ContainsChar(s: string, c: char)
    ensures Contains(s, [c]) <==> c in s
    decreases |s|
  {
    if |s| > 0 {
      ContainsChar(s[1..], c);
      assert s == [s[0]] + s[1..];
    }
  }

  /** Python's `s.split(sep)` for a one-character separator: never an empty list, and no part holds `sep`. */
  function Split(s: string, sep: char): (parts: seq<string>)
    ensures |parts| >= 1
    ensures forall i :: 0 <= i < |parts| ==> sep !in parts[i]
    decreases |s|
  {
    if |s| == 0 then [""]
    else
      var rest := Split(s[1..], sep);
      if s[0] == sep then [""] + rest
      else rest[0 := [s[0]] + rest[0]]
  }

  /** Python's `sep.join(parts)`. */
  function Join(parts: seq<string>, sep: char): string
    requires |parts| >= 1
    decreases |parts|
  {
    if |parts| == 1 then parts[0] else parts[0] + [sep] + Join(parts[1..], sep)
  }

  /** Splitting and joining again gives back the original text. */
  lemma {:induction false} JoinSplit(s: string, sep: char)
    ensures Join(Split(s, sep), sep) == s
    decreases |s|
  {
    if |s| > 0 {
      var rest := Split(s[1..], sep);
      JoinSplit(s[1..], sep);
      if s[0] == sep {
        assert Split(s, sep)[1..] == rest;
      } else if |rest| == 1 {
        assert rest[0] == s[1..];
      } else {
        var parts := Split(s, sep);
        assert parts[1..] == rest[1..];
        assert Join(rest, sep) == rest[0] + [sep] + Join(rest[1..], sep);
      }
    }
  }

  /** Text without the separator splits into exactly itself. */
  lemma {:induction false} SplitNoSep(s: string, sep: char)
    ensures sep !in s ==> Split(s, sep) == [s]
    decreases |s|
  {
    if |s| > 0 && sep !in s {
      SplitNoSep(s[1..], sep);
      assert [s[0]] + s[1..] == s;
    }
  }

  /** A separator between `x` and `y` splits them apart: the parts of `x`, then the parts of `y`. */
  lemma {:induction false} SplitAround(x: string, sep: char, y: string)
    ensures Split(x + [sep] + y, sep) == Split(x, sep) + Split(y, sep)
    decreases |x|
  {
    var s := x + [sep] + y;
    if |x| == 0 {
      assert s == [sep] + y;
      assert s[1..] == y;
    } else {
      assert s[0] == x[0];
      assert s[1..] == x[1..] + [sep] + y;
      SplitAround(x[1..], sep, y);
      if x[0] != sep {
        var px', py := Split(x[1..], sep), Split(y, sep);
        var v := [x[0]] + px'[0];
        assert (px' + py)[0 := v] == px'[0 := v] + py;
      }
    }
  }

  /** Appending text without a separator only lengthens the last part. */
  lemma {:induction false} SplitAppend(x: string, y: string, sep: char)
    requires sep !in y
    ensures var px := Split(x, sep);
            Split(x + y, sep) == px[|px| - 1 := px[|px| - 1] + y]
    decreases |x|
  {
    if |x| == 0 {
      assert x + y == y;
      SplitNoSep(y, sep);
    } else {
      assert (x + y)[1..] == x[1..] + y;
      SplitAppend(x[1..], y, sep);
      var px' := Split(x[1..], sep);
      var n := |px'|;
      if x[0] != sep {
        if n == 1 {
          assert [x[0]] + (px'[0] + y) == ([x[0]] + px'[0]) + y;
        } else {
          var v := [x[0]] + px'[0];
          var w := px'[n - 1] + y;
          assert px'[n - 1 := w][0 := v] == px'[0 := v][n - 1 := w];
        }
      }
    }
  }

  /** Splitting a join of separator-free parts gives back the parts. */
  lemma {:induction false} SplitJoin(parts: seq<string>, sep: char)
    requires |parts| >= 1
    requires forall i :: 0 <= i < |parts| ==> sep !in parts[i]
    ensures Split(Join(parts, sep), sep) == parts
    decreases |parts|
  {
    SplitNoSep(parts[0], sep);
    if |parts| > 1 {
      SplitJoin(parts[1..], sep);
      SplitAround(parts[0], sep, Join(parts[1..], sep));
      assert [parts[0]] + parts[1..] == parts;
    }
  }

  /** Python's `s.split(sep)[-1]`: the text after the last separator. */
  function LastSegment(s: string, sep: char): string
  {
    var parts := Split(s, sep);
    parts[|parts| - 1]
  }

  /** Python's `s.split(sep)[0]`: the text before the first separator. */
  function FirstSegment(s: string, sep: char): string
  {
    Split(s, sep)[0]
  }

  /**
   * The last segment is the longest separator-free suffix: it ends the text,
   * holds no separator, and is either all of the text or preceded by a separator.
   */
  lemma {:induction false} LastSegmentShape(s: string, sep: char)
    ensures var r := LastSegment(s, sep);
            && sep !in r
            && |r| <= |s| && s[|s| - |r|..] == r
            && (|r| < |s| ==> s[|s| - |r| - 1] == sep)
    decreases |s|
  {
    if |s| > 0 {
      var rest := Split(s[1..], sep);
      LastSegmentShape(s[1..], sep);
      if s[0] != sep && |rest| == 1 {
        JoinSplit(s[1..], sep);
        assert LastSegment(s, sep) == [s[0]] + s[1..] == s;
      } else {
        var parts := Split(s, sep);
        assert parts[|parts| - 1] == rest[|rest| - 1];
        var r := LastSegment(s, sep);
        SplitNoSep(s[1..], sep);
        assert s[1..][|s| - 1 - |r|..] == r;
        assert s[|s| - |r|..] == s[1..][|s| - 1 - |r|..];
      }
    }
  }

  /**
   * The first segment is the longest separator-free prefix: it starts the text,
   * holds no separator, and is either all of the text or followed by a separator.
   */
  lemma {:induction false} FirstSegmentShape(s: string, sep: char)
    ensures var r := FirstSegment(s, sep);
            && sep !in r && r <= s
            && (|r| < |s| ==> s[|r|] == sep)
    decreases |s|
  {
    if |s| > 0 && s[0] != sep {
      FirstSegmentShape(s[1..], sep);
      assert s == [s[0]] + s[1..];
    }
  }

  /** A separator-free text before a separator is the whole first segment. */
  lemma FirstSegmentBeforeSep(x: string, sep: char, y: string)
    requires sep !in x
    ensures FirstSegment(x + [sep] + y, sep) == x
  {
    SplitAround(x, sep, y);
    SplitNoSep(x, sep);
  }

  /** Everything up to a separator is hidden from the last segment. */
  lemma LastSegmentAfterSep(x: string, sep: char, y: string)
    ensures LastSegment(x + [sep] + y, sep) == LastSegment(y, sep)
  {
    SplitAround(x, sep, y);
  }

  /** A separator in `y` hides everything before `y` from the last segment. */
  lemma LastSegmentOfSuffix(x: string, y: string, sep: char)
    requires sep in y
    ensures LastSegment(x + y, sep) == LastSegment(y, sep)
  {
    var k :| 0 <= k < |y| && y[k] == sep;
    var a, b := y[..k], y[k + 1..];
    assert y == a + [sep] + b;
    assert x + y == (x + a) + [sep] + b;
    SplitAround(x + a, sep, b);
    SplitAround(a, sep, b);
  }

  /** Without a separator in `y`, the last segment of `x + y` is the last segment of `x` followed by `y`. */
  lemma LastSegmentAppend(x: string, y: string, sep: char)
    requires sep !in y
    ensures LastSegment(x + y, sep) == LastSegment(x, sep) + y
  {
    SplitAppend(x, y, sep);
  }

  /** Text without a separator is its own last segment. */
  lemma LastSegmentNoSep(s: string, sep: char)
    requires sep !in s
    ensures LastSegment(s, sep) == s
  {
    SplitNoSep(s, sep);
  }

  /** ASCII lower-casing of one character. */
  function LowerChar(c: char): char
  {
    if 'A' <= c <= 'Z' then (c as int - 'A' as int + 'a' as int) as char else c
  }

  /** Python's `s.lower()` on the ASCII range. */
  function Lower(s: string): string
  {
    seq(|s|, i requires 0 <= i < |s| => LowerChar(s[i]))
  }
}
