/** Order-preserving list transformations shared by every handler: the
    `Array.prototype.filter`, `map` and `slice` calls the views make. */
module Seqs {

  /** `a` is obtained from `b` by deleting elements, keeping the order of the rest. */
  predicate IsSubsequence<T(==)>(a: seq<T>, b: seq<T>)
    decreases |b|
  {
    || |a| == 0
    || (&& |b| > 0
        && (|| (a[0] == b[0] && IsSubsequence(a[1..], b[1..]))
            || IsSubsequence(a, b[1..])))
  }

  lemma {:induction false} SubsequenceReflexive<T>(a: seq<T>)
    ensures IsSubsequence(a, a)
    decreases |a|
  {
    if |a| > 0 {
      SubsequenceReflexive(a[1..]);
    }
  }

  lemma {:induction false} SubsequenceTransitive<T>(a: seq<T>, b: seq<T>, c: seq<T>)
    requires IsSubsequence(a, b) && IsSubsequence(b, c)
    ensures IsSubsequence(a, c)
    decreases |c|
  {
    if |a| > 0 {
      if b[0] == c[0] && IsSubsequence(b[1..], c[1..]) {
        if a[0] == b[0] && IsSubsequence(a[1..], b[1..]) {
          SubsequenceTransitive(a[1..], b[1..], c[1..]);
        } else {
          SubsequenceTransitive(a, b[1..], c[1..]);
        }
      } else {
        SubsequenceTransitive(a, b, c[1..]);
      }
    }
  }

  /** `xs.filter(keep)`: the elements satisfying `keep`, in their original order. */
  function Filter<T(==,!new)>(xs: seq<T>, keep: T -> bool): (r: seq<T>)
    ensures |r| <= |xs|
    ensures forall i :: 0 <= i < |r| ==> r[i] in xs && keep(r[i])
    ensures forall i :: 0 <= i < |xs| && keep(xs[i]) ==> xs[i] in r
    ensures IsSubsequence(r, xs)
    ensures (forall i :: 0 <= i < |xs| ==> keep(xs[i])) ==> r == xs
    ensures forall x :: multiset(r)[x] == if keep(x) then multiset(xs)[x] else 0
    decreases |xs|
  {
    if |xs| == 0 then []
    else
      var rest := Filter(xs[1..], keep);
      var r := if keep(xs[0]) then [xs[0]] + rest else rest;
      FilterStep(xs, keep, rest, r);
      r
  }

  /** One step of `Filter`: what the filtered tail satisfies carries over to
      the whole sequence once its head is kept or dropped. */
  lemma FilterStep<T(!new)>(xs: seq<T>, keep: T -> bool, rest: seq<T>, r: seq<T>)
    requires |xs| > 0
    requires |rest| <= |xs[1..]|
    requires forall i :: 0 <= i < |rest| ==> rest[i] in xs[1..] && keep(rest[i])
    requires forall i :: 0 <= i < |xs[1..]| && keep(xs[1..][i]) ==> xs[1..][i] in rest
    requires IsSubsequence(rest, xs[1..])
    requires (forall i :: 0 <= i < |xs[1..]| ==> keep(xs[1..][i])) ==> rest == xs[1..]
    requires forall x :: multiset(rest)[x] == if keep(x) then multiset(xs[1..])[x] else 0
    requires r == if keep(xs[0]) then [xs[0]] + rest else rest
    ensures |r| <= |xs|
    ensures forall i :: 0 <= i < |r| ==> r[i] in xs && keep(r[i])
    ensures forall i :: 0 <= i < |xs| && keep(xs[i]) ==> xs[i] in r
    ensures IsSubsequence(r, xs)
    ensures (forall i :: 0 <= i < |xs| ==> keep(xs[i])) ==> r == xs
    ensures forall x :: multiset(r)[x] == if keep(x) then multiset(xs)[x] else 0
  {
    FilterStepMembers(xs, keep, rest, r);
    FilterStepOrder(xs, keep, rest, r);
    FilterStepCount(xs, keep, rest, r);
  }

  lemma FilterStepMembers<T>(xs: seq<T>, keep: T -> bool, rest: seq<T>, r: seq<T>)
    requires |xs| > 0
    requires forall i :: 0 <= i < |rest| ==> rest[i] in xs[1..] && keep(rest[i])
    requires forall i :: 0 <= i < |xs[1..]| && keep(xs[1..][i]) ==> xs[1..][i] in rest
    requires r == if keep(xs[0]) then [xs[0]] + rest else rest
    ensures forall i :: 0 <= i < |r| ==> r[i] in xs && keep(r[i])
    ensures forall i :: 0 <= i < |xs| && keep(xs[i]) ==> xs[i] in r
  {
    var tail := xs[1..];
    assert xs == [xs[0]] + tail;
    forall i | 0 <= i < |xs| && keep(xs[i])
      ensures xs[i] in r
    {
      if i > 0 {
        assert xs[i] == tail[i - 1];
      }
    }
    forall i | 0 <= i < |r|
      ensures r[i] in xs && keep(r[i])
    {
      if keep(xs[0]) && i > 0 {
        assert r[i] == rest[i - 1];
      }
    }
  }

  lemma FilterStepOrder<T>(xs: seq<T>, keep: T -> bool, rest: seq<T>, r: seq<T>)
    requires |xs| > 0
    requires IsSubsequence(rest, xs[1..])
    requires (forall i :: 0 <= i < |xs[1..]| ==> keep(xs[1..][i])) ==> rest == xs[1..]
    requires r == if keep(xs[0]) then [xs[0]] + rest else rest
    ensures IsSubsequence(r, xs)
    ensures (forall i :: 0 <= i < |xs| ==> keep(xs[i])) ==> r == xs
  {
    assert xs == [xs[0]] + xs[1..];
    if keep(xs[0]) {
      assert r[0] == xs[0] && r[1..] == rest;
    } else {
      assert !(forall i :: 0 <= i < |xs| ==> keep(xs[i])) by {
        assert !keep(xs[0]);
      }
    }
  }

  lemma FilterStepCount<T(!new)>(xs: seq<T>, keep: T -> bool, rest: seq<T>, r: seq<T>)
    requires |xs| > 0
    requires forall x :: multiset(rest)[x] == if keep(x) then multiset(xs[1..])[x] else 0
    requires r == if keep(xs[0]) then [xs[0]] + rest else rest
    ensures forall x :: multiset(r)[x] == if keep(x) then multiset(xs)[x] else 0
  {
    assert xs == [xs[0]] + xs[1..];
    assert multiset(xs) == multiset{xs[0]} + multiset(xs[1..]);
    if keep(xs[0]) {
      assert multiset(r) == multiset{xs[0]} + multiset(rest);
    }
  }

  /** A reordering of a filtered list keeps what the filter promised about
      which elements are present and how often. */
  lemma PermutedFilter<T(!new)>(xs: seq<T>, keep: T -> bool, kept: seq<T>, r: seq<T>)
    requires forall x :: multiset(kept)[x] == if keep(x) then multiset(xs)[x] else 0
    requires multiset(r) == multiset(kept)
    ensures forall x :: multiset(r)[x] == if keep(x) then multiset(xs)[x] else 0
    ensures forall i :: 0 <= i < |r| ==> r[i] in xs && keep(r[i])
    ensures forall i :: 0 <= i < |xs| && keep(xs[i]) ==> xs[i] in r
  {
    forall i | 0 <= i < |r|
      ensures r[i] in xs && keep(r[i])
    {
      assert multiset(r)[r[i]] > 0;
    }
    forall i | 0 <= i < |xs| && keep(xs[i])
      ensures xs[i] in r
    {
      assert multiset(xs)[xs[i]] > 0;
    }
  }

  /** `Filter` keeps a passing head in front of the filtered rest. */
  lemma FilterKeepsHead<T(!new)>(y: T, ys: seq<T>, keep: T -> bool)
    requires keep(y)
    ensures Filter([y] + ys, keep) == [y] + Filter(ys, keep)
  {
    assert ([y] + ys)[1..] == ys;
  }

  /** Filtering away one appended element that fails the test, when every
      earlier element passes, gives back the earlier elements. */
  lemma {:induction false} FilterDropsLast<T(!new)>(xs: seq<T>, x: T, keep: T -> bool)
    requires forall i :: 0 <= i < |xs| ==> keep(xs[i])
    requires !keep(x)
    ensures Filter(xs + [x], keep) == xs
    decreases |xs|
  {
    if |xs| == 0 {
      assert (xs + [x])[1..] == [];
    } else {
      var y, ys := xs[0], xs[1..];
      assert [y] + ys == xs;
      assert [y] + (ys + [x]) == xs + [x];
      FilterDropsLast(ys, x, keep);
      FilterKeepsHead(y, ys + [x], keep);
    }
  }

  /** `xs.map(x => selected(x) ? update(x) : x)`: the update applied to the
      selected elements only, positions unchanged. */
  function MapWhere<T>(xs: seq<T>, selected: T -> bool, update: T -> T): (r: seq<T>)
    ensures |r| == |xs|
    ensures forall i :: 0 <= i < |xs| && selected(xs[i]) ==> r[i] == update(xs[i])
    ensures forall i :: 0 <= i < |xs| && !selected(xs[i]) ==> r[i] == xs[i]
  {
    seq(|xs|, i requires 0 <= i < |xs| => if selected(xs[i]) then update(xs[i]) else xs[i])
  }

  /** Resolves one `Array.prototype.slice` bound: a negative bound counts from
      the end, and the result is clamped to `[0, len]`. */
  function SliceBound(len: nat, bound: int): (k: nat)
    ensures k <= len
    ensures 0 <= bound <= len ==> k == bound
    ensures bound > len ==> k == len
    ensures bound < 0 ==> k == if len + bound < 0 then 0 else len + bound
  {
    if bound < 0 then (if len + bound < 0 then 0 else len + bound)
    else if bound > len then len
    else bound
  }

  /** `xs.slice(start, end)` with the JavaScript treatment of out-of-range bounds. */
  function Slice<T>(xs: seq<T>, start: int, end: int): (r: seq<T>)
    ensures 0 <= start <= end <= |xs| ==> r == xs[start..end]
    ensures 0 <= start <= |xs| < end ==> r == xs[start..]
    ensures start >= |xs| ==> r == []
    ensures 0 <= end <= start ==> r == []
    ensures -|xs| <= start < 0 && end >= |xs| ==> r == xs[|xs| + start..]
    ensures -|xs| <= end < 0 && 0 <= start <= |xs| + end ==> r == xs[start..|xs| + end]
    ensures var from, to := SliceBound(|xs|, start), SliceBound(|xs|, end);
      r == if from < to then xs[from..to] else []
    ensures |r| <= |xs|
  {
    var from := SliceBound(|xs|, start);
    var to := SliceBound(|xs|, end);
    if from >= to then [] else xs[from..to]
  }
}
