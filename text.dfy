/**
 * The string operations of Go's `strings` package that the formatting code
 * relies on: `strings.Split` with a one-character separator, `strings.Join`,
 * and the concatenation a `strings.Builder` performs. Strings are sequences
 * of runes.
 */
module Text {

  /** Index of the first `c` in `s`, or `|s|` when there is none. */
  function IndexOf(s: string, c: char): (k: nat)
    ensures k <= |s|
    ensures forall i :: 0 <= i < k ==> s[i] != c
    ensures k < |s| ==> s[k] == c
  {
    if s == [] then 0
    else if s[0] == c then 0
    else 1 + IndexOf(s[1..], c)
  }

  /** Number of occurrences of `c` in `s`. */
  function Count(s: string, c: char): nat
  {
    if s == [] then 0
    else (if s[0] == c then 1 else 0) + Count(s[1..], c)
  }

  lemma CountAppend(a: string, b: string, c: char)
    ensures Count(a + b, c) == Count(a, c) + Count(b, c)
  {
    if a == [] {
      assert a + b == b;
    } else {
      assert (a + b)[0] == a[0];
      assert (a + b)[1..] == a[1..] + b;
      CountAppend(a[1..], b, c);
    }
  }

  lemma CountAbsent(s: string, c: char)
    requires forall i :: 0 <= i < |s| ==> s[i] != c
    ensures Count(s, c) == 0
  {
    if s != [] {
      CountAbsent(s[1..], c);
    }
  }

  /**
   * `strings.Split(s, sep)` for a one-rune separator: the pieces of `s`
   * between occurrences of `sep`. The empty string splits into one empty
   * piece, as in Go.
   */
  function Split(s: string, sep: char): (ps: seq<string>)
    ensures |ps| >= 1
    ensures s == [] ==> ps == [""]
    ensures Free(s, sep) ==> ps == [s]
    decreases |s|
  {
    var k := IndexOf(s, sep);
    if k == |s| then [s] else [s[..k]] + Split(s[k + 1..], sep)
  }

  /** `strings.Join(ps, sep)`: the pieces with `sep` between neighbours. */
  function Join(ps: seq<string>, sep: string): string
  {
    if ps == [] then ""
    else if |ps| == 1 then ps[0]
    else ps[0] + sep + Join(ps[1..], sep)
  }

  /** Concatenation of a sequence of strings, as successive builder writes produce it. */
  function Concat(ss: seq<string>): string
  {
    if ss == [] then "" else ss[0] + Concat(ss[1..])
  }

  predicate Free(s: string, c: char)
  {
    forall i :: 0 <= i < |s| ==> s[i] != c
  }

  /** No piece that `Split` returns contains the separator. */
  lemma {:induction false} SplitPiecesFree(s: string, sep: char)
    ensures forall p :: p in Split(s, sep) ==> Free(p, sep)
    decreases |s|
  {
    var k := IndexOf(s, sep);
    if k < |s| {
      SplitPiecesFree(s[k + 1..], sep);
    }
  }

  /** `Join` undoes `Split`: the pieces with the separator put back give the input. */
  lemma {:induction false} JoinSplit(s: string, sep: char)
    ensures Join(Split(s, sep), [sep]) == s
    decreases |s|
  {
    var k := IndexOf(s, sep);
    if k < |s| {
      var rest := s[k + 1..];
      JoinSplit(rest, sep);
      JoinCons(s[..k], Split(rest, sep), [sep]);
      CutAt(s, k);
    }
  }

  lemma JoinCons(p: string, ps: seq<string>, sep: string)
    requires |ps| >= 1
    ensures Join([p] + ps, sep) == p + sep + Join(ps, sep)
  {
    assert ([p] + ps)[1..] == ps;
  }

  /** `Split` undoes `Join` when no piece holds the separator. */
  lemma {:induction false} SplitJoin(ps: seq<string>, sep: char)
    requires |ps| >= 1
    requires forall p :: p in ps ==> Free(p, sep)
    ensures Split(Join(ps, [sep]), sep) == ps
    decreases |ps|
  {
    var s := Join(ps, [sep]);
    assert Free(ps[0], sep);
    if |ps| == 1 {
      assert IndexOf(s, sep) == |s|;
    } else {
      var tail := Join(ps[1..], [sep]);
      assert s == ps[0] + [sep] + tail;
      assert s[|ps[0]|] == sep;
      var k := IndexOf(s, sep);
      assert k == |ps[0]|;
      assert s[..k] == ps[0];
      assert s[k + 1..] == tail;
      SplitJoin(ps[1..], sep);
      assert ps == [ps[0]] + ps[1..];
    }
  }

  /** Splitting on a separator that occurs `k` times gives `k + 1` pieces. */
  lemma {:induction false} SplitCount(s: string, sep: char)
    ensures |Split(s, sep)| == Count(s, sep) + 1
    decreases |s|
  {
    var k := IndexOf(s, sep);
    assert s == s[..k] + s[k..];
    CountAppend(s[..k], s[k..], sep);
    CountAbsent(s[..k], sep);
    if k == |s| {
      assert s[k..] == [];
    } else {
      assert s[k..] == [sep] + s[k + 1..];
      CountAppend([sep], s[k + 1..], sep);
      SplitCount(s[k + 1..], sep);
    }
  }

  /** Concatenation distributes over sequence concatenation. */
  lemma {:induction false} ConcatAppend(a: seq<string>, b: seq<string>)
    ensures Concat(a + b) == Concat(a) + Concat(b)
    decreases |a|
  {
    if a == [] {
      assert a + b == b;
    } else {
      assert (a + b)[0] == a[0];
      assert (a + b)[1..] == a[1..] + b;
      ConcatAppend(a[1..], b);
    }
  }

  /** Writing one more piece extends the concatenation by that piece. */
  lemma ConcatSnoc(a: seq<string>, x: string)
    ensures Concat(a + [x]) == Concat(a) + x
  {
    ConcatAppend(a, [x]);
    assert Concat([x]) == x + Concat([]);
  }

  /** The first `c` in `x + t` is at `|x|` when `x` has none and `t` starts with one. */
  lemma IndexOfAfter(x: string, t: string, c: char)
    requires Free(x, c)
    requires |t| > 0 && t[0] == c
    ensures IndexOf(x + t, c) == |x|
  {
    assert (x + t)[|x|] == c;
    assert forall i :: 0 <= i < |x| ==> (x + t)[i] == x[i];
  }

  /** The pieces of a string that lacks `d` lack it too. */
  lemma {:induction false} SplitKeepsFree(s: string, sep: char, d: char)
    requires Free(s, d)
    ensures forall p :: p in Split(s, sep) ==> Free(p, d)
    decreases |s|
  {
    var k := IndexOf(s, sep);
    if k < |s| {
      SplitKeepsFree(s[k + 1..], sep, d);
    }
  }

  /** Regrouping appended sequences; stated once so that callers need no extensionality. */
  lemma Assoc<T>(a: seq<T>, b: seq<T>, c: seq<T>)
    ensures a + b + c == a + (b + c)
  {
  }

  lemma Assoc4<T>(a: seq<T>, b: seq<T>, c: seq<T>, d: seq<T>)
    ensures a + b + c + d == a + (b + c + d)
  {
  }

  lemma Assoc5<T>(a: seq<T>, b: seq<T>, c: seq<T>, d: seq<T>, e: seq<T>)
    ensures a + b + c + d + e == a + (b + c + d + e)
  {
  }

  /** The three parts of `a + b + c` can be sliced back out. */
  lemma Framed<T>(a: seq<T>, b: seq<T>, c: seq<T>)
    ensures |a + b + c| == |a| + |b| + |c|
    ensures (a + b + c)[..|a|] == a
    ensures (a + b + c)[|a|..|a| + |b|] == b
    ensures (a + b + c)[|a| + |b|..] == c
  {
  }

  /** One more element of `xs` taken after `head`. */
  lemma PrefixSnoc<T>(head: seq<T>, xs: seq<T>, i: nat)
    requires i < |xs|
    ensures head + xs[..i + 1] == head + xs[..i] + [xs[i]]
  {
    assert xs[..i + 1] == xs[..i] + [xs[i]];
    Assoc(head, xs[..i], [xs[i]]);
  }

  /** A sequence is the part before index `k`, the element at `k` and the part after. */
  lemma CutAt<T>(s: seq<T>, k: nat)
    requires k < |s|
    ensures s == s[..k] + [s[k]] + s[k + 1..]
  {
  }
}
