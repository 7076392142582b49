/**
 * PHP arrays, restricted to integer keys and seen as maps: the order in
 * which entries were inserted is not kept.
 *
 * Besides its entries, a PHP array remembers the key that the next
 * `$a[] = $v` will use: one more than the largest integer key it has ever
 * held (never below 0). Removing an entry does not lower it, and copying the
 * array keeps it. This is what makes keys survive removals un-renumbered and
 * what makes an append after a removal skip the removed key.
 */
module PhpArrays {

  datatype RawArray<T> = RawArray(entries: map<int, T>, nextIndex: int)

  /** The arrays PHP can build: the next append key is non-negative and above every key in use. */
  type PhpArray<T> = a: RawArray<T> | 0 <= a.nextIndex && forall k :: k in a.entries ==> k < a.nextIndex
    witness RawArray(map[], 0)

  /** The literal `[]`. */
  function Empty<T>(): PhpArray<T>
  {
    RawArray(map[], 0)
  }

  /** `$a[] = $v`: stores `v` under a key that is fresh and above every key of `a`; nothing else changes. */
  function Append<T>(a: PhpArray<T>, v: T): (r: PhpArray<T>)
    ensures a.nextIndex !in a.entries
    ensures forall k :: k in a.entries ==> k < a.nextIndex
    ensures r.entries.Keys == a.entries.Keys + {a.nextIndex}
    ensures r.entries[a.nextIndex] == v
    ensures forall k :: k in a.entries ==> r.entries[k] == a.entries[k]
    ensures |r.entries| == |a.entries| + 1
    ensures r.nextIndex == a.nextIndex + 1
  {
    RawArray(a.entries[a.nextIndex := v], a.nextIndex + 1)
  }

  /** `$a[$k] = $v`: `k` now holds `v`, every other key keeps its value, later appends go above `k`. */
  function Put<T>(a: PhpArray<T>, k: int, v: T): (r: PhpArray<T>)
    ensures r.entries.Keys == a.entries.Keys + {k}
    ensures r.entries[k] == v
    ensures forall j :: j in a.entries && j != k ==> r.entries[j] == a.entries[j]
    ensures |r.entries| == if k in a.entries then |a.entries| else |a.entries| + 1
    ensures a.nextIndex <= r.nextIndex && k < r.nextIndex
    ensures r.nextIndex == if k < a.nextIndex then a.nextIndex else k + 1
  {
    RawArray(a.entries[k := v], if k < a.nextIndex then a.nextIndex else k + 1)
  }

  /** `unset($a[$k])`: drops key `k` only; the remaining keys and the next append key stay as they were. */
  function Remove<T>(a: PhpArray<T>, k: int): (r: PhpArray<T>)
    ensures r.entries.Keys == a.entries.Keys - {k}
    ensures forall j :: j in r.entries ==> r.entries[j] == a.entries[j]
    ensures |r.entries| == if k in a.entries then |a.entries| - 1 else |a.entries|
    ensures r.nextIndex == a.nextIndex
  {
    var m := a.entries - {k};
    assert m.Keys == a.entries.Keys - {k};
    assert |m| == |m.Keys|;
    RawArray(m, a.nextIndex)
  }
}
