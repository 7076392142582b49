/**
 * Properties of the adapter that relate several operations: sequences of
 * `add`, the `foreach` protocol (rewind, then valid / current / key / next
 * until valid fails), and a removal that leaves a gap.
 */
module StructArrayProperties {
  import opened Wrappers
  import opened PhpArrays
  import opened StructArraySpec

  /** The state after `add(xs[0])`, ..., `add(xs[|xs| - 1])`, in that order. */
  function AddAll<T>(s: Adapter<T>, xs: seq<T>): Adapter<T>
    decreases |xs|
  {
    if xs == [] then s else Add(AddAll(s, xs[..|xs| - 1]), xs[|xs| - 1])
  }

  /** The state after `next()` called `k` times. */
  function Advance<T>(s: Adapter<T>, k: nat): Adapter<T>
  {
    if k == 0 then s else Next(Advance(s, k - 1))
  }

  /** The keys at or beyond the cursor: what iteration can still reach. */
  function KeysAhead<T>(s: Adapter<T>): set<int>
  {
    set k | k in s.internArray.entries && k >= s.offset
  }

  /**
   * The `key() => current()` pairs a loop `while (valid()) { ...; next(); }`
   * produces from the cursor's present position.
   */
  function Visit<T>(s: Adapter<T>): seq<(int, T)>
    decreases KeysAhead(s)
  {
    if Valid(s) then
      assert s.offset in KeysAhead(s) - KeysAhead(Next(s));
      [(s.offset, Current(s).value)] + Visit(Next(s))
    else
      []
  }

  /** What `foreach ($struct as $key => $value)` yields: rewind, then visit. */
  function Foreach<T>(s: Adapter<T>): seq<(int, T)>
  {
    Visit(Rewind(s))
  }

  /**
   * From cursor `i`, when keys `i`..`n-1` are all present and `n` is not,
   * iteration yields exactly those `n - i` positions in order and stops at `n`.
   */
  lemma {:induction false} VisitRun<T>(s: Adapter<T>, n: int)
    requires s.isArray && s.offset <= n
    requires forall k :: s.offset <= k < n ==> k in s.internArray.entries
    requires n !in s.internArray.entries
    ensures |Visit(s)| == n - s.offset
    ensures forall i :: 0 <= i < n - s.offset ==>
      Visit(s)[i] == (s.offset + i, s.internArray.entries[s.offset + i])
    decreases n - s.offset
  {
    if s.offset < n {
      VisitRun(Next(s), n);
    }
  }

  /** The keys 0..n-1. */
  function Range(n: nat): (r: set<int>)
    ensures forall k :: k in r <==> 0 <= k < n
    ensures |r| == n
  {
    if n == 0 then {} else Range(n - 1) + {n - 1}
  }

  /** Over the dense keys 0..n-1 there are exactly n valid positions, visited in key order. */
  lemma ForeachDense<T>(s: Adapter<T>, n: nat)
    requires s.isArray
    requires forall k :: k in s.internArray.entries <==> 0 <= k < n
    ensures |Foreach(s)| == n == Count(s)
    ensures forall i :: 0 <= i < n ==> Foreach(s)[i] == (i, s.internArray.entries[i])
  {
    VisitRun(Rewind(s), n);
    assert s.internArray.entries.Keys == Range(n);
  }

  /** With a gap at key g after the keys 0..g-1, iteration stops before the gap, whatever lies beyond. */
  lemma ForeachStopsAtGap<T>(s: Adapter<T>, g: nat)
    requires s.isArray
    requires forall k :: 0 <= k < g ==> k in s.internArray.entries
    requires g !in s.internArray.entries
    ensures |Foreach(s)| == g
    ensures forall i :: 0 <= i < g ==> Foreach(s)[i] == (i, s.internArray.entries[i])
  {
    VisitRun(Rewind(s), g);
  }

  /** A not-live adapter yields nothing, whatever its map holds. */
  lemma ForeachNotLive<T>(s: Adapter<T>)
    requires !s.isArray
    ensures Foreach(s) == []
  {
  }

  /** `rewind()` after any number of `next()` calls restarts the very same sequence. */
  lemma {:induction false} RewindRestarts<T>(s: Adapter<T>, k: nat)
    ensures Rewind(Advance(s, k)) == Rewind(s)
    ensures Foreach(Advance(s, k)) == Foreach(s)
  {
    if k > 0 {
      RewindRestarts(s, k - 1);
    }
  }

  /**
   * `a` is `base` with the items `xs` appended in order: the old entries
   * stay, the item `xs[k - base.nextIndex]` sits at each key `k` from
   * `base.nextIndex` up to `a.nextIndex`, and nothing else is there.
   */
  ghost predicate Extends<T>(a: PhpArray<T>, base: PhpArray<T>, xs: seq<T>)
  {
    && a.nextIndex == base.nextIndex + |xs|
    && |a.entries| == |base.entries| + |xs|
    && KeepsEntries(a, base)
    && HoldsFrom(a, base.nextIndex, xs)
    && OnlyAbove(a, base)
  }

  /** Every entry of `base` is in `a`. */
  ghost predicate KeepsEntries<T>(a: PhpArray<T>, base: PhpArray<T>)
  {
    forall k :: k in base.entries ==> k in a.entries && a.entries[k] == base.entries[k]
  }

  /** `a` holds `xs[k - from]` at each key `k` from `from` to `from + |xs| - 1`. */
  ghost predicate HoldsFrom<T>(a: PhpArray<T>, from: int, xs: seq<T>)
  {
    forall k :: from <= k < from + |xs| ==> k in a.entries && a.entries[k] == xs[k - from]
  }

  /** Every key of `a` is a key of `base` or at least `base.nextIndex`. */
  ghost predicate OnlyAbove<T>(a: PhpArray<T>, base: PhpArray<T>)
  {
    forall k :: k in a.entries ==> k in base.entries || base.nextIndex <= k
  }

  /** Appending keeps the entries of `base`. */
  lemma AppendKeepsEntries<T>(a: PhpArray<T>, base: PhpArray<T>, x: T)
    requires base.nextIndex <= a.nextIndex && KeepsEntries(a, base)
    ensures KeepsEntries(Append(a, x), base)
  {
  }

  /** Appending `x` at `from + |xs|` extends the run of items by `x`. */
  lemma AppendHoldsFrom<T>(a: PhpArray<T>, from: int, xs: seq<T>, x: T)
    requires a.nextIndex == from + |xs| && HoldsFrom(a, from, xs)
    ensures HoldsFrom(Append(a, x), from, xs + [x])
  {
    var r, ys := Append(a, x), xs + [x];
    forall k | from <= k < from + |ys|
      ensures k in r.entries && r.entries[k] == ys[k - from]
    {
      if k < a.nextIndex {
        assert k in a.entries && a.entries[k] == xs[k - from];
      }
    }
  }

  /** The appended key is at least `base.nextIndex`. */
  lemma AppendOnlyAbove<T>(a: PhpArray<T>, base: PhpArray<T>, x: T)
    requires base.nextIndex <= a.nextIndex && OnlyAbove(a, base)
    ensures OnlyAbove(Append(a, x), base)
  {
  }

  /** One more append extends by one more item. */
  lemma AppendExtends<T>(a: PhpArray<T>, base: PhpArray<T>, xs: seq<T>, x: T)
    requires Extends(a, base, xs)
    ensures Extends(Append(a, x), base, xs + [x])
  {
    AppendKeepsEntries(a, base, x);
    AppendHoldsFrom(a, base.nextIndex, xs, x);
    AppendOnlyAbove(a, base, x);
  }

  /**
   * A run of `add` calls extends the property's array by the items in call
   * order, and leaves the adapter live, synchronised with the property, cursor 0.
   */
  lemma {:induction false} AddAllAppends<T>(s: Adapter<T>, xs: seq<T>)
    requires xs != []
    ensures var t := AddAll(s, xs);
      && t.isArray && t.offset == 0 && t.property == Arr(t.internArray)
      && Extends(t.internArray, Base(s.property), xs)
    decreases |xs|
  {
    var init, x := xs[..|xs| - 1], xs[|xs| - 1];
    assert xs == init + [x];
    var base := Base(s.property);
    if init == [] {
      assert Extends(base, base, []);
      AppendExtends(base, base, [], x);
    } else {
      AddAllAppends(s, init);
      var u := AddAll(s, init);
      AppendExtends(u.internArray, base, init, x);
    }
  }

  /**
   * On an adapter whose property holds no array (or a never-used `[]`),
   * `add(x0)`, ..., `add(x{n-1})` gives `item(i) == x_i` and `count() == n`;
   * `first()` and `last()` are the first and last item, and `foreach`
   * yields the items in append order under keys 0..n-1.
   */
  lemma AddAllFromEmpty<T>(s: Adapter<T>, xs: seq<T>)
    requires s.property == NonArray || s.property == Arr(Empty())
    requires xs != []
    ensures var t := AddAll(s, xs);
      && Count(t) == |xs|
      && (forall i :: 0 <= i < |xs| ==> Item(t, i) == Some(xs[i]))
      && First(t) == Some(xs[0])
      && Last(t) == Some(xs[|xs| - 1])
      && |Foreach(t)| == |xs|
      && (forall i :: 0 <= i < |xs| ==> Foreach(t)[i] == (i, xs[i]))
  {
    AddAllAppends(s, xs);
    DenseAfterAppends(AddAll(s, xs), xs);
  }

  /** A live adapter whose array is `[]` extended by `xs` holds exactly `xs`, under keys 0..|xs|-1. */
  lemma DenseAfterAppends<T>(t: Adapter<T>, xs: seq<T>)
    requires t.isArray && xs != []
    requires Extends(t.internArray, Empty(), xs)
    ensures Count(t) == |xs|
    ensures forall i :: 0 <= i < |xs| ==> Item(t, i) == Some(xs[i])
    ensures First(t) == Some(xs[0]) && Last(t) == Some(xs[|xs| - 1])
    ensures |Foreach(t)| == |xs|
    ensures forall i :: 0 <= i < |xs| ==> Foreach(t)[i] == (i, xs[i])
  {
    var m := t.internArray.entries;
    forall i | 0 <= i < |xs|
      ensures i in m && m[i] == xs[i]
    {
      assert i in m && m[i] == xs[i - Empty<T>().nextIndex];
    }
    forall k | k in m
      ensures 0 <= k < |xs|
    {
      assert k !in Empty<T>().entries;
    }
    ForeachDense(t, |xs|);
  }

  /**
   * Appending a, b, c and removing key 1 leaves keys {0, 2}: `count()` is 2,
   * `last()` looks up the missing key 1, `foreach` stops after key 0, and the
   * next `add` goes to key 3, not to the freed key.
   */
  lemma RemovalLeavesGap<T>(a: T, b: T, c: T, d: T)
    ensures var t := OffsetUnset(Add(Add(Add(Initial(NonArray), a), b), c), 1);
      && t.internArray.entries.Keys == {0, 2}
      && Count(t) == 2
      && Item(t, 0) == Some(a) && Item(t, 1) == None && Item(t, 2) == Some(c)
      && Last(t) == None
      && Foreach(t) == [(0, a)]
      && Add(t, d).internArray.entries.Keys == {0, 2, 3}
  {
    var s1 := Add(Initial(NonArray), a);
    assert s1.internArray == RawArray(map[0 := a], 1);
    var s2 := Add(s1, b);
    assert s2.internArray == RawArray(map[0 := a, 1 := b], 2);
    var s3 := Add(s2, c);
    assert s3.internArray == RawArray(map[0 := a, 1 := b, 2 := c], 3);
    var t := OffsetUnset(s3, 1);
    assert t.internArray == RawArray(map[0 := a, 2 := c], 3);
    GapAfterRemoval(t, a, c, d);
  }

  /** The state the removal above leaves: keys {0, 2} of a live, synchronised adapter, next append key 3. */
  lemma GapAfterRemoval<T>(t: Adapter<T>, a: T, c: T, d: T)
    requires t.isArray && t.internArray == RawArray(map[0 := a, 2 := c], 3)
    requires t.property == Arr(t.internArray)
    ensures t.internArray.entries.Keys == {0, 2}
    ensures Count(t) == 2
    ensures Item(t, 0) == Some(a) && Item(t, 1) == None && Item(t, 2) == Some(c)
    ensures Last(t) == None
    ensures Foreach(t) == [(0, a)]
    ensures Add(t, d).internArray.entries.Keys == {0, 2, 3}
  {
    ForeachStopsAtGap(t, 1);
    assert Add(t, d).internArray == RawArray(map[0 := a, 2 := c, 3 := d], 4);
  }

  /**
   * `offsetSet` on a not-live adapter overwrites the property with
   * `internArray`, so entries the property held are lost unless they were
   * materialised first, while `count()` stays -1.
   */
  lemma OffsetSetBeforeMaterialising<T>(p: PhpArray<T>, k: int, v: T)
    ensures var t := OffsetSet(Initial(Arr(p)), k, v);
      && t.property == Arr(t.internArray)
      && t.internArray.entries == map[k := v]
      && Count(t) == -1 && Foreach(t) == []
  {
  }

  /** Materialising first keeps the property's entries: `initInternArray()` then `offsetSet`. */
  lemma OffsetSetAfterMaterialising<T>(p: PhpArray<T>, k: int, v: T)
    requires |p.entries| > 0
    ensures var r := InitInternArray(Initial(Arr(p)), Empty(), false);
      && r.Initialised?
      && var t := OffsetSet(r.state, k, v);
      && t.property == Arr(t.internArray)
      && (forall j :: j in p.entries && j != k ==> OffsetGet(t, j) == Some(p.entries[j]))
      && OffsetGet(t, k) == Some(v)
  {
  }
}
