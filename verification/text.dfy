/** Small string helpers shared by the modules below: JavaScript's `startsWith`,
    splitting at the first occurrence of a character, and an optional value. */
module Text {

  datatype Option<+T> = None | Some(value: T)

  /** `f` applied to each element, in order. */
  function Map<A, B>(f: A -> B, xs: seq<A>): (r: seq<B>)
    ensures |r| == |xs|
    ensures forall i :: 0 <= i < |xs| ==> r[i] == f(xs[i])
  {
    seq(|xs|, i requires 0 <= i < |xs| => f(xs[i]))
  }

  lemma {:induction false} MapConcat<A, B>(f: A -> B, a: seq<A>, b: seq<A>)
    ensures Map(f, a + b) == Map(f, a) + Map(f, b)
  {
    var l, r := Map(f, a + b), Map(f, a) + Map(f, b);
    forall i | 0 <= i < |l| ensures l[i] == r[i] {
      if i < |a| {
        assert (a + b)[i] == a[i];
      } else {
        assert (a + b)[i] == b[i - |a|];
      }
    }
  }

  /** Whether `s` begins with `p`. */
  predicate StartsWith(s: string, p: string) {
    |p| <= |s| && s[..|p|] == p
  }

  /** The text before the first `c` (all of `s` when there is none). */
  function UpTo(s: string, c: char): (r: string)
    ensures |r| <= |s| && r == s[..|r|]
    ensures c !in r
    ensures |r| < |s| ==> s[|r|] == c
  {
    if s == [] then []
    else if s[0] == c then []
    else [s[0]] + UpTo(s[1..], c)
  }

  /** The text after the first `c` (empty when there is none). */
  function After(s: string, c: char): (r: string)
    ensures c in s ==> |UpTo(s, c)| < |s| && r == s[|UpTo(s, c)| + 1..]
    ensures c !in s ==> r == []
  {
    if s == [] then []
    else if s[0] == c then s[1..]
    else After(s[1..], c)
  }

  /** The parts of `s` between occurrences of `c`, as JavaScript's string
      split gives them for a one-character separator. */
  function SplitAt(s: string, c: char): (r: seq<string>)
    ensures |r| >= 1
    ensures forall k :: 0 <= k < |r| ==> c !in r[k]
    decreases |s|
  {
    if c in s then [UpTo(s, c)] + SplitAt(After(s, c), c) else [s]
  }

  lemma {:induction false} UpToConcat(a: string, b: string, c: char)
    ensures UpTo(a + b, c) == if c in a then UpTo(a, c) else a + UpTo(b, c)
  {
    if a == [] {
      assert a + b == b;
    } else if a[0] == c {
      assert (a + b)[0] == c;
    } else {
      var t := a[1..];
      assert (a + b)[0] == a[0] && (a + b)[1..] == t + b;
      assert c in a <==> c in t;
      UpToConcat(t, b, c);
      assert a == [a[0]] + t;
    }
  }

  lemma {:induction false} AfterConcat(a: string, b: string, c: char)
    ensures After(a + b, c) == if c in a then After(a, c) + b else After(b, c)
  {
    if a == [] {
      assert a + b == b;
    } else {
      assert (a + b)[0] == a[0];
      assert (a + b)[1..] == a[1..] + b;
      if a[0] != c {
        AfterConcat(a[1..], b, c);
        assert c in a <==> c in a[1..];
      }
    }
  }

  /** One step of `SplitAt` when the separator occurs. */
  lemma {:induction false} SplitAtStep(s: string, c: char)
    requires c in s
    ensures |After(s, c)| < |s|
    ensures SplitAt(s, c) == [UpTo(s, c)] + SplitAt(After(s, c), c)
  {
  }

  lemma {:induction false} SplitAtConcat(x: string, y: string, c: char)
    ensures SplitAt(x + [c] + y, c) == SplitAt(x, c) + SplitAt(y, c)
    decreases |x|
  {
    if c in x {
      var rest := After(x, c);
      SplitAtStep(x, c);
      SplitAtConcat(rest, y, c);
      SplitAtShift(x, y, c);
    } else {
      SplitAtFirst(x, y, c);
    }
  }

  /** The first part of `x + [c] + y` is `x` when `x` has no `c`. */
  lemma {:induction false} SplitAtFirst(x: string, y: string, c: char)
    requires c !in x
    ensures SplitAt(x + [c] + y, c) == [x] + SplitAt(y, c)
  {
    var s := x + [c] + y;
    assert s[|x|] == c;
    SplitAtStep(s, c);
    SplitFirst(x, y, c);
  }

  /** With a `c` in `x`, the first part of `x + [c] + y` is that of `x`. */
  lemma {:induction false} SplitAtShift(x: string, y: string, c: char)
    requires c in x
    ensures SplitAt(x + [c] + y, c) == [UpTo(x, c)] + SplitAt(After(x, c) + [c] + y, c)
  {
    PartsOfConcat(x, y, c);
    SplitAtStep(x + [c] + y, c);
  }

  /** Where `x` has a `c`, the parts of `x + [c] + y` come from `x`. */
  lemma {:induction false} PartsOfConcat(x: string, y: string, c: char)
    requires c in x
    ensures c in x + [c] + y
    ensures UpTo(x + [c] + y, c) == UpTo(x, c)
    ensures After(x + [c] + y, c) == After(x, c) + [c] + y
  {
    var tail := [c] + y;
    assert x + [c] + y == x + tail;
    assert After(x, c) + [c] + y == After(x, c) + tail;
    assert (x + [c] + y)[|x|] == c;
    UpToConcat(x, tail, c);
    AfterConcat(x, tail, c);
  }

  /** Splitting at the first `c` when `a` has none. */
  lemma {:induction false} SplitFirst(a: string, b: string, c: char)
    requires c !in a
    ensures UpTo(a + [c] + b, c) == a && After(a + [c] + b, c) == b
  {
    var s := a + [c] + b;
    assert s == a + ([c] + b);
    UpToConcat(a, [c] + b, c);
    assert s[|a|] == c;
    assert s[|a| + 1..] == b;
  }

  /** A text with no separator is one part. */
  lemma {:induction false} SplitNone(s: string, c: char)
    requires c !in s
    ensures SplitAt(s, c) == [s]
  {
  }

  lemma {:induction false} SplitTwo(a: string, b: string, c: char)
    requires c !in a && c !in b
    ensures SplitAt(a + [c] + b, c) == [a, b]
  {
    SplitAtConcat(a, b, c);
    SplitNone(a, c);
    SplitNone(b, c);
  }

  lemma {:induction false} SplitThree(a: string, b: string, d: string, c: char)
    requires c !in a && c !in b && c !in d
    ensures SplitAt(a + [c] + b + [c] + d, c) == [a, b, d]
  {
    var rest := b + [c] + d;
    assert a + [c] + b + [c] + d == a + [c] + rest;
    SplitAtFirst(a, rest, c);
    SplitTwo(b, d, c);
  }

}
