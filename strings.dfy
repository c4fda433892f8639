/** The string operations the adapters rely on: prefix test, ASCII lower-casing
    and `String.prototype.split` on a one-character separator. */
module Strings {

  predicate StartsWith(s: string, prefix: string)
  {
    |prefix| <= |s| && s[..|prefix|] == prefix
  }

  function LowerChar(c: char): char
  {
    if 'A' <= c <= 'Z' then (c as int + 32) as char else c
  }

  /** `toLowerCase()`, restricted to the ASCII letters. */
  function Lower(s: string): (r: string)
    ensures |r| == |s|
    ensures forall k :: 0 <= k < |s| ==> r[k] == LowerChar(s[k])
  {
    seq(|s|, k requires 0 <= k < |s| => LowerChar(s[k]))
  }

  /** The position of the first `sep` in `s`. */
  function IndexOf(s: string, sep: char): (i: nat)
    requires sep in s
    ensures i < |s| && s[i] == sep && sep !in s[..i]
  {
    if s[0] == sep then 0
    else
      var i := IndexOf(s[1..], sep) + 1;
      assert s[..i] == [s[0]] + s[1..][..i - 1];
      i
  }

  /** `s.split(sep)`: the maximal separator-free segments of `s`, in order. */
  function Split(s: string, sep: char): (parts: seq<string>)
    ensures |parts| >= 1
    ensures forall k :: 0 <= k < |parts| ==> sep !in parts[k]
    decreases |s|
  {
    if sep !in s then [s]
    else
      var i := IndexOf(s, sep);
      [s[..i]] + Split(s[i + 1..], sep)
  }

  /** `parts.join(sep)`. */
  function Join(parts: seq<string>, sep: char): string
    requires |parts| >= 1
  {
    if |parts| == 1 then parts[0] else parts[0] + [sep] + Join(parts[1..], sep)
  }

  /** Splitting loses nothing: joining the segments gives the string back. */
  lemma {:induction false} JoinSplit(s: string, sep: char)
    ensures Join(Split(s, sep), sep) == s
    decreases |s|
  {
    if sep in s {
      var i := IndexOf(s, sep);
      JoinSplit(s[i + 1..], sep);
      assert s == s[..i] + [sep] + s[i + 1..];
    }
  }

  /** The first i + 1 + k characters of `s` are those before position i, the
      character at i, and k characters after it. */
  lemma PrefixAround(s: string, i: nat, k: nat)
    requires i + 1 + k <= |s|
    ensures s[..i + 1 + k] == s[..i] + [s[i]] + s[i + 1..][..k]
  {
    assert s[..i + 1 + k] == s[..i] + [s[i]] + s[i + 1..i + 1 + k];
  }

  /** The first two segments of a split, as a destructuring `[a, b] = s.split(sep)`
      sees them: `s` is `a` when there is no separator, and otherwise starts with
      `a`, the separator and `b`, followed by nothing or by another separator. */
  lemma FirstTwoSegments(s: string, sep: char)
    ensures |Split(s, sep)| == 1 <==> sep !in s
    ensures sep !in s ==> Split(s, sep)[0] == s
    ensures sep in s ==> SecondSegmentFollows(s, sep, Split(s, sep)[0], Split(s, sep)[1])
  {
    if sep in s {
      SecondSegment(s, sep);
    }
  }

  /** `s` begins with `a`, `sep`, `b`, followed by its end or another `sep`. */
  predicate SecondSegmentFollows(s: string, sep: char, a: string, b: string)
  {
    var n := |a| + 1 + |b|;
    n <= |s| && s[..n] == a + [sep] + b && (n == |s| || s[n] == sep)
  }

  lemma SecondSegment(s: string, sep: char)
    requires sep in s
    ensures |Split(s, sep)| > 1
    ensures SecondSegmentFollows(s, sep, Split(s, sep)[0], Split(s, sep)[1])
  {
    var i := IndexOf(s, sep);
    var t := s[i + 1..];
    assert Split(s, sep) == [s[..i]] + Split(t, sep);
    if sep in t {
      SecondSegmentBeforeAnother(s, sep, i);
    } else {
      assert s == s[..i] + [sep] + t;
    }
  }

  /** The separator at i is followed by a segment that ends at another separator. */
  lemma SecondSegmentBeforeAnother(s: string, sep: char, i: nat)
    requires i < |s| && s[i] == sep && sep in s[i + 1..]
    ensures SecondSegmentFollows(s, sep, s[..i], Split(s[i + 1..], sep)[0])
  {
    var t := s[i + 1..];
    var i2 := IndexOf(t, sep);
    assert Split(t, sep)[0] == t[..i2];
    PrefixAround(s, i, i2);
    assert s[i + 1 + i2] == t[i2];
  }
}
