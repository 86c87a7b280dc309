/**
 * The two string primitives the breadcrumb derivation and the prescription
 * query rely on, with JavaScript's meaning: `s.split(c)` on a one-character
 * separator and `parts.join(c)`.
 */
module Strings {

  /** Number of occurrences of `c` in `s`. */
  function Count(s: string, c: char): nat
  {
    if s == [] then 0 else (if s[0] == c then 1 else 0) + Count(s[1..], c)
  }

  /**
   * `s.split(sep)`: the maximal pieces between separators. Like JavaScript,
   * it always yields at least one piece and keeps empty pieces, so "" gives
   * [""] and "/a/" gives ["", "a", ""].
   */
  function Split(s: string, sep: char): (parts: seq<string>)
    ensures |parts| >= 1
    decreases |s|
  {
    if s == [] then [[]]
    else if s[0] == sep then [[]] + Split(s[1..], sep)
    else
      var rest := Split(s[1..], sep);
      [[s[0]] + rest[0]] + rest[1..]
  }

  /** `parts.join(sep)`; the empty list joins to the empty string. */
  function Join(parts: seq<string>, sep: char): string
  {
    if parts == [] then []
    else if |parts| == 1 then parts[0]
    else parts[0] + [sep] + Join(parts[1..], sep)
  }

  /** `xs.slice(0, n)` for n >= 0: at most the first n elements. */
  function Take<T>(xs: seq<T>, n: nat): (r: seq<T>)
    ensures |r| == if n <= |xs| then n else |xs|
    ensures r <= xs
  {
    if n <= |xs| then xs[..n] else xs
  }

  /** `s.slice(1)`: everything after the first character, "" for "". */
  function Drop1(s: string): (r: string)
    ensures |s| > 0 ==> [s[0]] + r == s
    ensures |s| == 0 ==> r == []
  {
    if |s| == 0 then [] else s[1..]
  }

  /** A string without the separator contains no occurrence of it. */
  lemma {:induction false} NoSeparatorNoCount(s: string, c: char)
    requires forall k :: 0 <= k < |s| ==> s[k] != c
    ensures Count(s, c) == 0
    decreases |s|
  {
    if s != [] {
      NoSeparatorNoCount(s[1..], c);
    }
  }

  /** A string without the separator splits into itself alone. */
  lemma SplitWithoutSeparator(s: string, sep: char)
    requires forall k :: 0 <= k < |s| ==> s[k] != sep
    ensures Split(s, sep) == [s]
  {
    NoSeparatorNoCount(s, sep);
    SplitCount(s, sep);
    JoinSplit(s, sep);
  }

  /** A separator after a separator-free head splits off exactly that head. */
  lemma {:induction false} SplitAtSeparator(a: string, b: string, sep: char)
    requires sep !in a
    ensures Split(a + [sep] + b, sep) == [a] + Split(b, sep)
    decreases |a|
  {
    var s := a + [sep] + b;
    if a == [] {
      assert s[1..] == b;
    } else {
      assert s[1..] == a[1..] + [sep] + b;
      SplitAtSeparator(a[1..], b, sep);
      assert [a[0]] + a[1..] == a;
    }
  }

  /** Splitting yields one more piece than there are separators. */
  lemma {:induction false} SplitCount(s: string, sep: char)
    ensures |Split(s, sep)| == Count(s, sep) + 1
    decreases |s|
  {
    if s != [] {
      SplitCount(s[1..], sep);
    }
  }

  /** Prepending one character to the first part prepends it to the join. */
  lemma JoinConsFirst(x: char, w: string, rest: seq<string>, sep: char)
    ensures Join([[x] + w] + rest, sep) == [x] + Join([w] + rest, sep)
  {
    var a := [[x] + w] + rest;
    var b := [w] + rest;
    assert a[1..] == rest && b[1..] == rest;
  }

  /** Joining the pieces of a split gives back the original string. */
  lemma {:induction false} JoinSplit(s: string, sep: char)
    ensures Join(Split(s, sep), sep) == s
    decreases |s|
  {
    if s == [] {
    } else if s[0] == sep {
      var rest := Split(s[1..], sep);
      JoinSplit(s[1..], sep);
      assert ([[]] + rest)[1..] == rest;
      assert Join([[]] + rest, sep) == [] + [sep] + Join(rest, sep);
      assert [s[0]] + s[1..] == s;
    } else {
      var rest := Split(s[1..], sep);
      JoinSplit(s[1..], sep);
      assert [rest[0]] + rest[1..] == rest;
      JoinConsFirst(s[0], rest[0], rest[1..], sep);
      assert [s[0]] + s[1..] == s;
    }
  }

  /** Appending a part to a non-empty list adds the separator and the part. */
  lemma {:induction false} JoinSnoc(xs: seq<string>, w: string, sep: char)
    requires |xs| >= 1
    ensures Join(xs + [w], sep) == Join(xs, sep) + [sep] + w
    decreases |xs|
  {
    if |xs| == 1 {
      assert (xs + [w])[1..] == [w];
    } else {
      assert (xs + [w])[1..] == xs[1..] + [w];
      JoinSnoc(xs[1..], w, sep);
    }
  }

  /**
   * Joining the first k parts gives a prefix of the whole join, and each
   * further part makes it strictly longer.
   */
  lemma {:induction false} JoinPrefix(xs: seq<string>, k: nat, sep: char)
    requires 1 <= k <= |xs|
    ensures Join(xs[..k], sep) <= Join(xs, sep)
    ensures k < |xs| ==> Join(xs[..k + 1], sep) == Join(xs[..k], sep) + [sep] + xs[k]
    ensures k < |xs| ==> |Join(xs[..k], sep)| < |Join(xs[..k + 1], sep)|
    decreases |xs| - k
  {
    if k == |xs| {
      assert xs[..k] == xs;
    } else {
      assert xs[..k + 1] == xs[..k] + [xs[k]];
      JoinSnoc(xs[..k], xs[k], sep);
      JoinPrefix(xs, k + 1, sep);
    }
  }
}
