/** Joining lines with a separator, as Python's `sep.join(parts)` does, and the
    splitting that undoes it. */
module Text {

  /** `sep.join(parts)`: the parts in order with `sep` between neighbours and
      nothing before the first part or after the last. */
  function Join(sep: string, parts: seq<string>): (r: string)
    ensures |parts| == 0 ==> r == ""
    ensures |parts| > 0 ==> |parts[0]| <= |r| && r[..|parts[0]|] == parts[0]
    ensures |parts| > 0 ==> |parts[|parts| - 1]| <= |r| && r[|r| - |parts[|parts| - 1]|..] == parts[|parts| - 1]
    decreases |parts|
  {
    if |parts| == 0 then ""
    else if |parts| == 1 then parts[0]
    else
      var rest := Join(sep, parts[1..]);
      assert parts[1..][|parts| - 2] == parts[|parts| - 1];
      parts[0] + sep + rest
  }

  /** Joining from the other end: a join of two or more parts is the join of
      all but the last, the separator, and the last part. */
  lemma {:induction false} JoinSnoc(sep: string, parts: seq<string>)
    requires |parts| >= 2
    ensures Join(sep, parts) == Join(sep, parts[..|parts| - 1]) + sep + parts[|parts| - 1]
    decreases |parts|
  {
    var n := |parts|;
    if n == 2 {
      assert parts[..1] == [parts[0]];
      assert parts[1..] == [parts[1]];
    } else {
      var init, last := parts[..n - 1], parts[n - 1];
      var tail, middle := Join(sep, parts[1..]), Join(sep, init[1..]);
      assert tail == middle + sep + last by {
        JoinSnoc(sep, parts[1..]);
        assert parts[1..][..n - 2] == init[1..];
      }
      assert Join(sep, init) == parts[0] + sep + middle by {
        assert init[0] == parts[0];
      }
      Regroup(parts[0], sep, middle, last);
    }
  }

  /** Three parts get a separator between each neighbouring pair and none at the ends. */
  lemma JoinThree(sep: string, a: string, b: string, c: string)
    ensures Join(sep, [a, b, c]) == a + sep + b + sep + c
  {
    var bc := Join(sep, [b, c]);
    assert bc == b + sep + c by {
      assert [b, c][1..] == [c];
      assert Join(sep, [c]) == c;
    }
    assert Join(sep, [a, b, c]) == a + sep + bc by {
      assert [a, b, c][1..] == [b, c];
    }
    Regroup(a, sep, b, c);
  }

  lemma Regroup(a: string, sep: string, m: string, z: string)
    ensures a + sep + (m + sep + z) == (a + sep + m) + sep + z
  {
  }

  /** `s.split(c)`: the maximal runs of `s` between occurrences of `c`; the
      empty string splits into one empty piece. */
  function Split(s: string, c: char): (r: seq<string>)
    ensures |r| >= 1
    ensures NoneContains(r, c)
    decreases |s|
  {
    if s == [] then [[]]
    else
      var rest := Split(s[1..], c);
      if s[0] == c then [[]] + rest else [[s[0]] + rest[0]] + rest[1..]
  }

  /** No part holds the character `c`. */
  predicate NoneContains(parts: seq<string>, c: char) {
    forall k :: 0 <= k < |parts| ==> c !in parts[k]
  }

  lemma {:induction false} SplitNoSeparator(s: string, c: char)
    requires c !in s
    ensures Split(s, c) == [s]
    decreases |s|
  {
    if s != [] {
      SplitNoSeparator(s[1..], c);
      assert [s[0]] + s[1..] == s;
    }
  }

  lemma {:induction false} SplitAfterPiece(a: string, c: char, b: string)
    requires c !in a
    ensures Split(a + [c] + b, c) == [a] + Split(b, c)
    decreases |a|
  {
    if a == [] {
      assert (a + [c] + b)[1..] == b;
    } else {
      SplitAfterPiece(a[1..], c, b);
      assert (a + [c] + b)[1..] == a[1..] + [c] + b;
      assert [a[0]] + a[1..] == a;
    }
  }

  /** Splitting a join on its one-character separator gives the parts back,
      provided there is at least one part and no part holds the separator. */
  lemma {:induction false} SplitJoin(parts: seq<string>, c: char)
    requires |parts| >= 1
    requires NoneContains(parts, c)
    ensures Split(Join([c], parts), c) == parts
    decreases |parts|
  {
    if |parts| == 1 {
      SplitNoSeparator(parts[0], c);
    } else {
      SplitJoin(parts[1..], c);
      SplitAfterPiece(parts[0], c, Join([c], parts[1..]));
      assert [parts[0]] + parts[1..] == parts;
    }
  }
}
