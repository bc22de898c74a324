/** Sequence searches and filters: the store's collections are kept in their
    natural (insertion) order, and `findOne` returns the first match. */
module Seqs {
  import opened Js

  /** Index of the first element satisfying `p`, if any. */
  function FirstMatch<T>(xs: seq<T>, p: T -> bool): (r: Option<nat>)
    ensures r.Some? ==> r.value < |xs| && p(xs[r.value])
    ensures r.Some? ==> forall j | 0 <= j < r.value :: !p(xs[j])
    ensures r.None? ==> forall j | 0 <= j < |xs| :: !p(xs[j])
  {
    if |xs| == 0 then None
    else if p(xs[0]) then Some(0)
    else match FirstMatch(xs[1..], p)
      case None => None
      case Some(i) => Some(i + 1)
  }

  /** The elements satisfying `p`, in order. */
  function Filter<T>(xs: seq<T>, p: T -> bool): (r: seq<T>)
    ensures |r| <= |xs|
    ensures forall i | 0 <= i < |r| :: r[i] in xs && p(r[i])
    ensures forall i | 0 <= i < |xs| :: p(xs[i]) ==> xs[i] in r
  {
    if |xs| == 0 then []
    else
      assert xs == [xs[0]] + xs[1..];
      (if p(xs[0]) then [xs[0]] else []) + Filter(xs[1..], p)
  }

  lemma {:induction false} FilterAppend<T>(xs: seq<T>, ys: seq<T>, p: T -> bool)
    ensures Filter(xs + ys, p) == Filter(xs, p) + Filter(ys, p)
    decreases |xs|
  {
    if |xs| == 0 {
      assert xs + ys == ys;
    } else {
      assert (xs + ys)[1..] == xs[1..] + ys;
      FilterAppend(xs[1..], ys, p);
    }
  }

  /** Replacing an element that `p` rejects by another that `p` rejects
      leaves the filtered sequence unchanged. */
  lemma FilterUpdate<T>(xs: seq<T>, i: nat, v: T, p: T -> bool)
    requires i < |xs| && !p(xs[i]) && !p(v)
    ensures Filter(xs[i := v], p) == Filter(xs, p)
  {
    var ys := xs[i := v];
    assert xs == xs[..i] + [xs[i]] + xs[i + 1..];
    assert ys == xs[..i] + [v] + xs[i + 1..];
    FilterAppend(xs[..i] + [xs[i]], xs[i + 1..], p);
    FilterAppend(xs[..i], [xs[i]], p);
    FilterAppend(xs[..i] + [v], xs[i + 1..], p);
    FilterAppend(xs[..i], [v], p);
  }

  /** Removing an element that `p` rejects leaves the filtered sequence unchanged. */
  lemma FilterRemove<T>(xs: seq<T>, i: nat, p: T -> bool)
    requires i < |xs| && !p(xs[i])
    ensures Filter(xs[..i] + xs[i + 1..], p) == Filter(xs, p)
  {
    var a, x, b := xs[..i], xs[i], xs[i + 1..];
    assert xs == (a + [x]) + b;
    calc {
      Filter(xs, p);
      { FilterAppend(a + [x], b, p); }
      Filter(a + [x], p) + Filter(b, p);
      { FilterSnoc(a, x, p); }
      Filter(a, p) + Filter(b, p);
      { FilterAppend(a, b, p); }
      Filter(a + b, p);
    }
  }

  /** `Filter` unfolded once at the head. */
  lemma FilterCons<T>(xs: seq<T>, p: T -> bool)
    requires xs != []
    ensures Filter(xs, p) == (if p(xs[0]) then [xs[0]] else []) + Filter(xs[1..], p)
  {
  }

  /** Appending an element that `p` rejects leaves the filtered sequence unchanged. */
  lemma FilterSnoc<T>(xs: seq<T>, v: T, p: T -> bool)
    requires !p(v)
    ensures Filter(xs + [v], p) == Filter(xs, p)
  {
    FilterAppend(xs, [v], p);
  }

  /** `r` consists of the elements of `xs` satisfying `p`, each once and in
      their original order: `idx` gives their strictly increasing positions. */
  predicate PicksOut<T(==)>(xs: seq<T>, p: T -> bool, r: seq<T>, idx: seq<nat>)
  {
    && |idx| == |r|
    && (forall k | 0 <= k < |idx| :: idx[k] < |xs| && p(xs[idx[k]]) && r[k] == xs[idx[k]])
    && (forall k, l | 0 <= k < l < |idx| :: idx[k] < idx[l])
    && (forall j | 0 <= j < |xs| && p(xs[j]) :: j in idx)
  }

  /** `Filter` picks out exactly the elements satisfying `p`, in order. */
  lemma {:induction false} FilterIndices<T>(xs: seq<T>, p: T -> bool) returns (idx: seq<nat>)
    ensures PicksOut(xs, p, Filter(xs, p), idx)
    decreases |xs|
  {
    if |xs| == 0 {
      idx := [];
    } else {
      var rest := FilterIndices(xs[1..], p);
      assert xs == [xs[0]] + xs[1..];
      idx := PicksOutCons(xs[0], xs[1..], p, Filter(xs[1..], p), rest);
    }
  }

  /** The positions `idx` moved one place right, after `[0]` when `h == 1`. */
  function Shifted(h: nat, idx: seq<nat>): (idx': seq<nat>)
    requires h <= 1
    ensures |idx'| == h + |idx|
    ensures forall k | h <= k < |idx'| :: idx'[k] == idx[k - h] + 1
  {
    if h == 1 then [0] + seq(|idx|, k requires 0 <= k < |idx| => idx[k] + 1)
    else seq(|idx|, k requires 0 <= k < |idx| => idx[k] + 1)
  }

  lemma PicksOutCons<T>(x: T, xs: seq<T>, p: T -> bool, r: seq<T>, idx: seq<nat>) returns (idx': seq<nat>)
    requires PicksOut(xs, p, r, idx)
    ensures PicksOut([x] + xs, p, (if p(x) then [x] else []) + r, idx')
  {
    var h := if p(x) then 1 else 0;
    idx' := Shifted(h, idx);
    ConsPicked(x, xs, p, r, idx, h);
    ConsIncreasing(idx, h);
    ConsComplete(x, xs, p, r, idx, h);
  }

  lemma ConsPicked<T>(x: T, xs: seq<T>, p: T -> bool, r: seq<T>, idx: seq<nat>, h: nat)
    requires PicksOut(xs, p, r, idx)
    requires h == if p(x) then 1 else 0
    ensures var ys, r', idx' := [x] + xs, (if p(x) then [x] else []) + r, Shifted(h, idx);
      |idx'| == |r'| &&
      forall k | 0 <= k < |idx'| :: idx'[k] < |ys| && p(ys[idx'[k]]) && r'[k] == ys[idx'[k]]
  {
    var ys, r', idx' := [x] + xs, (if p(x) then [x] else []) + r, Shifted(h, idx);
    forall k | 0 <= k < |idx'|
      ensures idx'[k] < |ys| && p(ys[idx'[k]]) && r'[k] == ys[idx'[k]]
    {
      if k >= h {
        assert r'[k] == r[k - h];
      }
    }
  }

  lemma ConsIncreasing(idx: seq<nat>, h: nat)
    requires h <= 1
    requires forall k, l | 0 <= k < l < |idx| :: idx[k] < idx[l]
    ensures var idx' := Shifted(h, idx);
      forall k, l | 0 <= k < l < |idx'| :: idx'[k] < idx'[l]
  {
    var idx' := Shifted(h, idx);
    forall k, l | 0 <= k < l < |idx'|
      ensures idx'[k] < idx'[l]
    {
      if k >= h {
        assert idx[k - h] < idx[l - h];
      }
    }
  }

  lemma ConsComplete<T>(x: T, xs: seq<T>, p: T -> bool, r: seq<T>, idx: seq<nat>, h: nat)
    requires PicksOut(xs, p, r, idx)
    requires h == if p(x) then 1 else 0
    ensures var ys, idx' := [x] + xs, Shifted(h, idx);
      forall j | 0 <= j < |ys| && p(ys[j]) :: j in idx'
  {
    var ys, idx' := [x] + xs, Shifted(h, idx);
    forall j | 0 <= j < |ys| && p(ys[j])
      ensures j in idx'
    {
      if j > 0 {
        assert ys[j] == xs[j - 1];
        var m :| 0 <= m < |idx| && idx[m] == j - 1;
        assert idx'[h + m] == j;
      } else {
        assert idx'[0] == 0;
      }
    }
  }
}
