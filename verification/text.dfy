/**
 String helpers shared by the command builders: single-quote wrapping,
 JavaScript's `Array.prototype.join` and `String.prototype.split` on a
 one-character separator, and a last-occurrence search.
 */
module Text {

  /** An optional value; `None` stands for JavaScript's `undefined`. */
  datatype Option<T> = None | Some(value: T)

  /** `sub` sits in `s` starting at offset `k`. */
  ghost predicate OccursAt(s: string, sub: string, k: int) {
    0 <= k && k + |sub| <= |s| && s[k..k + |sub|] == sub
  }

  /** Wraps an argument in single quotes; nothing inside is escaped. */
  function Quote(arg: string): (r: string)
    ensures |r| == |arg| + 2
    ensures r[0] == '\'' && r[|r| - 1] == '\''
    ensures r[1..|r| - 1] == arg
  {
    "'" + arg + "'"
  }

  /** `parts.join(sep)`: the parts in order with `sep` between neighbours. */
  function Join(parts: seq<string>, sep: string): string
  {
    if |parts| == 0 then ""
    else if |parts| == 1 then parts[0]
    else parts[0] + sep + Join(parts[1..], sep)
  }

  /** Four parts joined: each separator between neighbours, nothing else. */
  lemma JoinFour(a: string, b: string, c: string, d: string, sep: string)
    ensures Join([a, b, c, d], sep) == a + sep + b + sep + c + sep + d
  {
    var parts := [a, b, c, d];
    assert parts[1..] == [b, c, d] && parts[1..][1..] == [c, d] && parts[1..][1..][1..] == [d];
    assert Join([c, d], sep) == c + sep + d;
    assert Join([b, c, d], sep) == b + sep + (c + sep + d);
  }

  /** Where part `i` starts inside `Join(parts, sep)`. */
  function JoinOffset(parts: seq<string>, sep: string, i: nat): nat
    requires i <= |parts|
  {
    if i == 0 then 0 else JoinOffset(parts, sep, i - 1) + |parts[i - 1]| + |sep|
  }

  lemma OccursAtShift(a: string, b: string, sub: string, k: int)
    requires OccursAt(b, sub, k)
    ensures OccursAt(a + b, sub, |a| + k)
  {
    assert (a + b)[|a| + k..|a| + k + |sub|] == b[k..k + |sub|];
  }

  /** An occurrence stays where it is when text is appended. */
  lemma OccursInPrefix(a: string, b: string, sub: string, k: int)
    requires OccursAt(a, sub, k)
    ensures OccursAt(a + b, sub, k)
  {
    assert (a + b)[k..k + |sub|] == a[k..k + |sub|];
  }

  /** An occurrence in `mid` is found in `pre + mid + post`, shifted by `|pre|`. */
  lemma OccursWithin(pre: string, mid: string, post: string, sub: string, k: int)
    requires OccursAt(mid, sub, k)
    ensures OccursAt(pre + mid + post, sub, |pre| + k)
  {
    OccursInPrefix(mid, post, sub, k);
    OccursAtShift(pre, mid + post, sub, k);
    assert pre + (mid + post) == pre + mid + post;
  }

  lemma {:induction false} JoinOffsetTail(parts: seq<string>, sep: string, i: nat)
    requires 1 <= i <= |parts|
    ensures JoinOffset(parts, sep, i) == |parts[0]| + |sep| + JoinOffset(parts[1..], sep, i - 1)
    decreases i
  {
    if i > 1 {
      JoinOffsetTail(parts, sep, i - 1);
    }
  }

  lemma {:induction false} JoinLength(parts: seq<string>, sep: string)
    requires |parts| > 0
    ensures |Join(parts, sep)| == JoinOffset(parts, sep, |parts| - 1) + |parts[|parts| - 1]|
  {
    if |parts| >= 2 {
      JoinLength(parts[1..], sep);
      JoinOffsetTail(parts, sep, |parts| - 1);
    }
  }

  /** Part `i` of a join sits at its offset, followed by a separator unless it is the last. */
  lemma {:induction false} JoinPartAt(parts: seq<string>, sep: string, i: nat)
    requires i < |parts|
    ensures OccursAt(Join(parts, sep), parts[i], JoinOffset(parts, sep, i))
    ensures i < |parts| - 1 ==> OccursAt(Join(parts, sep), sep, JoinOffset(parts, sep, i) + |parts[i]|)
    decreases i
  {
    var whole := Join(parts, sep);
    if |parts| == 1 {
      assert whole[..|parts[0]|] == parts[0];
    } else if i == 0 {
      assert whole == parts[0] + sep + Join(parts[1..], sep);
      assert whole[..|parts[0]|] == parts[0];
      assert whole[|parts[0]|..|parts[0]| + |sep|] == sep;
    } else {
      var head := parts[0] + sep;
      var tail := parts[1..];
      assert whole == head + Join(tail, sep);
      JoinPartAt(tail, sep, i - 1);
      JoinOffsetTail(parts, sep, i);
      assert parts[i] == tail[i - 1];
      OccursAtShift(head, Join(tail, sep), parts[i], JoinOffset(tail, sep, i - 1));
      if i < |parts| - 1 {
        OccursAtShift(head, Join(tail, sep), sep, JoinOffset(tail, sep, i - 1) + |tail[i - 1]|);
      }
    }
  }

  /**
   The layout of a joined string: every part sits at its offset, a separator
   sits right after every part but the last, and the string ends with the
   last part.
   */
  lemma JoinLayout(parts: seq<string>, sep: string)
    ensures |parts| == 0 ==> Join(parts, sep) == ""
    ensures |parts| > 0 ==>
      |Join(parts, sep)| == JoinOffset(parts, sep, |parts| - 1) + |parts[|parts| - 1]|
    ensures forall i :: 0 <= i < |parts| ==>
      OccursAt(Join(parts, sep), parts[i], JoinOffset(parts, sep, i))
    ensures forall i :: 0 <= i < |parts| - 1 ==>
      OccursAt(Join(parts, sep), sep, JoinOffset(parts, sep, i) + |parts[i]|)
  {
    if |parts| > 0 {
      JoinLength(parts, sep);
    }
    JoinPartsAt(parts, sep);
    JoinSeparatorsAt(parts, sep);
  }

  lemma JoinPartsAt(parts: seq<string>, sep: string)
    ensures forall i :: 0 <= i < |parts| ==>
      OccursAt(Join(parts, sep), parts[i], JoinOffset(parts, sep, i))
  {
    forall i | 0 <= i < |parts|
      ensures OccursAt(Join(parts, sep), parts[i], JoinOffset(parts, sep, i))
    {
      JoinPartAt(parts, sep, i);
    }
  }

  lemma JoinSeparatorsAt(parts: seq<string>, sep: string)
    ensures forall i :: 0 <= i < |parts| - 1 ==>
      OccursAt(Join(parts, sep), sep, JoinOffset(parts, sep, i) + |parts[i]|)
  {
    forall i | 0 <= i < |parts| - 1
      ensures OccursAt(Join(parts, sep), sep, JoinOffset(parts, sep, i) + |parts[i]|)
    {
      JoinPartAt(parts, sep, i);
    }
  }

  /** Parts are laid out left to right: part `i` ends before part `j` starts. */
  lemma {:induction false} JoinOffsetMonotone(parts: seq<string>, sep: string, i: nat, j: nat)
    requires i < j <= |parts|
    ensures JoinOffset(parts, sep, i) + |parts[i]| + |sep| <= JoinOffset(parts, sep, j)
    decreases j - i
  {
    if j > i + 1 {
      JoinOffsetMonotone(parts, sep, i, j - 1);
    }
  }

  /**
   `s.split([c])`: the pieces of `s` between occurrences of `c`; there is
   always at least one piece, and the first piece is the text before the
   first `c`.
   */
  function Split(s: string, c: char): (r: seq<string>)
    ensures |r| >= 1
    ensures |r| > 1 <==> c in s
    ensures c !in r[0]
    ensures |r[0]| <= |s| && r[0] == s[..|r[0]|]
    ensures |r| > 1 ==> |r[0]| < |s| && s[|r[0]|] == c
    ensures c !in s ==> r == [s]
  {
    if |s| == 0 then [""]
    else
      var rest := Split(s[1..], c);
      assert s == [s[0]] + s[1..];
      if s[0] == c then [""] + rest
      else [[s[0]] + rest[0]] + rest[1..]
  }

  lemma {:induction false} SplitAfterSeparator(a: string, c: char, b: string)
    requires c !in a
    ensures Split(a + [c] + b, c) == [a] + Split(b, c)
    decreases |a|
  {
    var s := a + [c] + b;
    if |a| == 0 {
      assert s[1..] == b;
    } else {
      assert s[1..] == a[1..] + [c] + b;
      SplitAfterSeparator(a[1..], c, b);
      assert [s[0]] + a[1..] == a;
    }
  }

  /** Splitting on `c` undoes joining with `c` when no part contains `c`. */
  lemma {:induction false} SplitJoin(parts: seq<string>, c: char)
    requires |parts| >= 1
    requires forall i :: 0 <= i < |parts| ==> c !in parts[i]
    ensures Split(Join(parts, [c]), c) == parts
  {
    if |parts| == 1 {
      assert Split(parts[0], c) == [parts[0]];
    } else {
      SplitJoin(parts[1..], c);
      SplitAfterSeparator(parts[0], c, Join(parts[1..], [c]));
      assert [parts[0]] + parts[1..] == parts;
    }
  }

  /** Index of the last occurrence of `c` in `s`. */
  function LastIndexOf(s: string, c: char): (r: Option<nat>)
    ensures r.Some? ==> r.value < |s| && s[r.value] == c && c !in s[r.value + 1..]
    ensures r.None? <==> c !in s
  {
    if |s| == 0 then None
    else if s[|s| - 1] == c then Some(|s| - 1)
    else
      var r := LastIndexOf(s[..|s| - 1], c);
      assert r.Some? ==> s[r.value + 1..] == s[..|s| - 1][r.value + 1..] + [s[|s| - 1]];
      assert r.None? ==> s == s[..|s| - 1] + [s[|s| - 1]];
      r
  }

  /** The last `c` of `a + [c] + b` is the one between `a` and `b` when `b` has none. */
  lemma LastIndexOfJoined(a: string, c: char, b: string)
    requires c !in b
    ensures LastIndexOf(a + [c] + b, c) == Some(|a|)
  {
    var s := a + [c] + b;
    var r := LastIndexOf(s, c);
    assert s[|a|] == c;
  }
}
