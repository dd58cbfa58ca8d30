/**
 The JavaScript string and array primitives the generator is built from:
 `startsWith`, `endsWith`, `indexOf`/`includes`, `replace` with a string
 pattern (first occurrence only), `split` on single characters or a
 character class, `join`, `pop` and `at` with a negative index, and the
 rendering of `undefined` inside a template literal.
 */
module Text {
  import opened Wrappers

  /** `s.startsWith(prefix)` */
  predicate StartsWith(s: string, prefix: string) {
    |prefix| <= |s| && s[..|prefix|] == prefix
  }

  /** `s.endsWith(suffix)` */
  predicate EndsWith(s: string, suffix: string) {
    |suffix| <= |s| && s[|s| - |suffix|..] == suffix
  }

  /** `pat` occurs in `s` starting at position `i`. */
  predicate OccursAt(s: string, pat: string, i: nat) {
    i + |pat| <= |s| && s[i..i + |pat|] == pat
  }

  /** `s.indexOf(pat, from)`, with `None` for JavaScript's -1. */
  function IndexFrom(s: string, pat: string, from: nat): (r: Option<nat>)
    ensures r.Some? ==> from <= r.value && OccursAt(s, pat, r.value)
    ensures r.Some? ==> forall j: nat :: from <= j < r.value ==> !OccursAt(s, pat, j)
    ensures r.None? ==> forall j: nat :: from <= j ==> !OccursAt(s, pat, j)
    decreases |s| - from
  {
    if from + |pat| > |s| then None
    else if OccursAt(s, pat, from) then Some(from)
    else IndexFrom(s, pat, from + 1)
  }

  /** `s.includes(pat)` */
  predicate Contains(s: string, pat: string) {
    IndexFrom(s, pat, 0).Some?
  }

  lemma OccurrenceIsContained(s: string, pat: string, i: nat)
    requires OccursAt(s, pat, i)
    ensures Contains(s, pat)
  {
  }

  /** `s.replace(pat, rep)` with a string pattern: only the first occurrence is replaced. */
  function ReplaceFirst(s: string, pat: string, rep: string): (r: string)
    ensures (forall j: nat :: !OccursAt(s, pat, j)) ==> r == s
    ensures StartsWith(s, pat) ==> r == rep + s[|pat|..]
    ensures forall i: nat :: OccursAt(s, pat, i) && (forall j: nat :: j < i ==> !OccursAt(s, pat, j))
              ==> r == s[..i] + rep + s[i + |pat|..]
  {
    match IndexFrom(s, pat, 0)
    case None => s
    case Some(i) => s[..i] + rep + s[i + |pat|..]
  }

  /** Number of characters of `s` that belong to `delims`. */
  function CountIn(s: string, delims: set<char>): nat {
    if |s| == 0 then 0
    else (if s[0] in delims then 1 else 0) + CountIn(s[1..], delims)
  }

  /** `s` has no character of `delims`. */
  predicate Free(s: string, delims: set<char>) {
    forall k :: 0 <= k < |s| ==> s[k] !in delims
  }

  /**
   `s.split(/[...]/)` for the character class `delims` (and `s.split(c)` for
   `delims == {c}`): the maximal delimiter-free pieces, empty ones included.
   */
  function Split(s: string, delims: set<char>): (r: seq<string>)
    ensures |r| == 1 + CountIn(s, delims)
    decreases |s|
  {
    if |s| == 0 then [""]
    else if s[0] in delims then [""] + Split(s[1..], delims)
    else
      var rest := Split(s[1..], delims);
      [[s[0]] + rest[0]] + rest[1..]
  }

  /** `xs.pop()` on a non-empty array: the last element. */
  function Last<T>(xs: seq<T>): T
    requires |xs| > 0
  {
    xs[|xs| - 1]
  }

  /** `xs.at(-k)`: the `k`-th element from the end, `None` when the array is too short. */
  function AtFromEnd<T>(xs: seq<T>, k: nat): (r: Option<T>)
    requires k >= 1
    ensures r.Some? <==> k <= |xs|
    ensures r.Some? ==> r.value == xs[|xs| - k]
  {
    if k <= |xs| then Some(xs[|xs| - k]) else None
  }

  /** `xs[i]`: `None` when the index is out of range. */
  function ElementAt<T>(xs: seq<T>, i: nat): (r: Option<T>)
    ensures r.Some? <==> i < |xs|
    ensures r.Some? ==> r.value == xs[i]
  {
    if i < |xs| then Some(xs[i]) else None
  }

  /** `${v}` inside a template literal: an undefined value renders as "undefined". */
  function Interpolate(v: Option<string>): string {
    match v
    case Some(s) => s
    case None => "undefined"
  }

  /** `parts.join(sep)` */
  function Join(parts: seq<string>, sep: string): (r: string)
  {
    if |parts| == 0 then ""
    else if |parts| == 1 then parts[0]
    else parts[0] + sep + Join(parts[1..], sep)
  }

  /** Sum of the lengths of `parts`. */
  function TotalLength(parts: seq<string>): nat {
    if |parts| == 0 then 0 else |parts[0]| + TotalLength(parts[1..])
  }

  /** `xs.map(f)` */
  function Image<A>(f: A -> string, xs: seq<A>): (r: seq<string>)
    ensures |r| == |xs|
    ensures forall i :: 0 <= i < |xs| ==> r[i] == f(xs[i])
  {
    seq(|xs|, i requires 0 <= i < |xs| => f(xs[i]))
  }

  /** Mapping distributes over concatenation. */
  lemma ImageAppend<A>(f: A -> string, xs: seq<A>, ys: seq<A>)
    ensures Image(f, xs + ys) == Image(f, xs) + Image(f, ys)
  {
    var l, r := Image(f, xs + ys), Image(f, xs) + Image(f, ys);
    forall i | 0 <= i < |l| ensures l[i] == r[i] {
      if i < |xs| {
        assert (xs + ys)[i] == xs[i];
      } else {
        assert (xs + ys)[i] == ys[i - |xs|];
      }
    }
  }

  /** Splitting across a delimiter splits the two sides independently. */
  lemma SplitAcross(a: string, c: char, b: string, delims: set<char>)
    requires c in delims
    ensures Split(a + [c] + b, delims) == Split(a, delims) + Split(b, delims)
  {
    var s := a + [c] + b;
    assert s[..|a|] == a;
    assert s[|a| + 1..] == b;
    SplitAt(s, |a|, delims);
  }

  /** Splitting at a delimiter in position `k` splits the two sides independently. */
  lemma {:induction false} SplitAt(s: string, k: nat, delims: set<char>)
    requires k < |s| && s[k] in delims
    ensures Split(s, delims) == Split(s[..k], delims) + Split(s[k + 1..], delims)
    decreases k
  {
    if k > 0 {
      var t, p := s[1..], s[..k];
      SplitAt(t, k - 1, delims);
      assert t[..k - 1] == p[1..];
      assert t[k..] == s[k + 1..];
      SplitStep(s, delims);
      SplitStep(p, delims);
      SplitStepAppend(s[0], delims, Split(p[1..], delims), Split(s[k + 1..], delims));
    }
  }

  /** One step of `Split`: the first character either ends the first piece or joins it. */
  lemma SplitStep(s: string, delims: set<char>)
    requires |s| > 0
    ensures Split(s, delims) == PushFront(s[0], delims, Split(s[1..], delims))
  {
  }

  /** Puts `c` in front of the pieces `r`: as a piece boundary when it is a delimiter. */
  function PushFront(c: char, delims: set<char>, r: seq<string>): seq<string>
    requires |r| > 0
  {
    if c in delims then [""] + r else [[c] + r[0]] + r[1..]
  }

  lemma SplitStepAppend(c: char, delims: set<char>, ra: seq<string>, rb: seq<string>)
    requires |ra| > 0
    ensures PushFront(c, delims, ra + rb) == PushFront(c, delims, ra) + rb
  {
    if c !in delims {
      assert (ra + rb)[1..] == ra[1..] + rb;
    }
  }

  /** No piece of a split holds a delimiter. */
  lemma {:induction false} SplitPiecesFree(s: string, delims: set<char>)
    ensures forall i :: 0 <= i < |Split(s, delims)| ==> Free(Split(s, delims)[i], delims)
    decreases |s|
  {
    if |s| > 0 {
      SplitPiecesFree(s[1..], delims);
      if s[0] !in delims {
        var rest := Split(s[1..], delims);
        var head := [s[0]] + rest[0];
        assert Free(rest[0], delims);
        assert forall k :: 0 < k < |head| ==> head[k] == rest[0][k - 1];
      }
    }
  }

  /** A delimiter-free string splits into itself. */
  lemma {:induction false} SplitFree(s: string, delims: set<char>)
    requires Free(s, delims)
    ensures Split(s, delims) == [s]
    decreases |s|
  {
    if |s| > 0 {
      SplitFree(s[1..], delims);
      assert [s[0]] + s[1..] == s;
    }
  }

  /** Joining two non-empty lists puts exactly one separator between them. */
  lemma {:induction false} JoinAppend(xs: seq<string>, ys: seq<string>, sep: string)
    requires |xs| >= 1 && |ys| >= 1
    ensures Join(xs + ys, sep) == Join(xs, sep) + sep + Join(ys, sep)
    decreases |xs|
  {
    if |xs| == 1 {
      assert (xs + ys)[1..] == ys;
    } else {
      JoinAppend(xs[1..], ys, sep);
      assert (xs + ys)[1..] == xs[1..] + ys;
    }
  }

  /** The length of a join: every part once, plus one separator between neighbours. */
  lemma {:induction false} JoinLength(parts: seq<string>, sep: string)
    requires |parts| >= 1
    ensures |Join(parts, sep)| == TotalLength(parts) + (|parts| - 1) * |sep|
    decreases |parts|
  {
    if |parts| > 1 {
      JoinLength(parts[1..], sep);
    }
  }

  /** Joining with the empty separator keeps every part, in order, at its offset. */
  lemma {:induction false} ConcatAppend(xs: seq<string>, ys: seq<string>)
    ensures Join(xs + ys, "") == Join(xs, "") + Join(ys, "")
    decreases |xs|
  {
    if |xs| == 0 {
      assert xs + ys == ys;
    } else if |ys| == 0 {
      assert xs + ys == xs;
    } else {
      JoinAppend(xs, ys, "");
    }
  }

  /** The last two pieces of `prefix c a d b` are `a` and `b` when neither holds a delimiter. */
  lemma SplitLastTwo(prefix: string, c: char, a: string, d: char, b: string, delims: set<char>)
    requires c in delims && d in delims
    requires Free(a, delims) && Free(b, delims)
    ensures Split(prefix + [c] + a + [d] + b, delims) == Split(prefix, delims) + [a, b]
  {
    SplitAcross(prefix + [c] + a, d, b, delims);
    SplitAcross(prefix, c, a, delims);
    SplitFree(a, delims);
    SplitFree(b, delims);
  }

  lemma PrefixOfAppend(a: string, b: string, p: string)
    requires StartsWith(a, p)
    ensures StartsWith(a + b, p)
  {
    assert (a + b)[..|p|] == a[..|p|];
  }

  lemma SuffixOfAppend(a: string, b: string, q: string)
    requires EndsWith(b, q)
    ensures EndsWith(a + b, q)
  {
    assert (a + b)[|a + b| - |q|..] == b[|b| - |q|..];
  }

  lemma SuffixExtend(a: string, q: string, b: string)
    requires EndsWith(a, q)
    ensures EndsWith(a + b, q + b)
  {
    assert (a + b)[|a + b| - |q + b|..] == a[|a| - |q|..] + b;
  }

  /** An occurrence in `b` is an occurrence in `a + b`, shifted by `|a|`. */
  lemma OccursShift(a: string, b: string, pat: string, j: nat)
    requires OccursAt(b, pat, j)
    ensures OccursAt(a + b, pat, |a| + j)
  {
    assert (a + b)[|a| + j..|a| + j + |pat|] == b[j..j + |pat|];
  }

  /** In `parts.join(sep)`, part `i` stands after the parts before it and `i` separators. */
  lemma {:induction false} JoinOffset(parts: seq<string>, sep: string, i: nat)
    requires i < |parts|
    ensures OccursAt(Join(parts, sep), parts[i], TotalLength(parts[..i]) + i * |sep|)
    decreases |parts|
  {
    var j := Join(parts, sep);
    if i == 0 {
      if |parts| > 1 {
        assert j[..|parts[0]|] == parts[0];
      }
    } else {
      var rest := parts[1..];
      JoinOffset(rest, sep, i - 1);
      OccursShift(parts[0] + sep, Join(rest, sep), parts[i], TotalLength(rest[..i - 1]) + (i - 1) * |sep|);
      assert parts[..i][1..] == rest[..i - 1];
      assert TotalLength(parts[..i]) == |parts[0]| + TotalLength(rest[..i - 1]);
    }
  }
}
