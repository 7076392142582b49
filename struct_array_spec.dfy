/**
 * The array adapter of a generated struct, as a value: its three fields and
 * the value of the struct's designated property, with one function per
 * operation giving the result or the state afterwards.
 */
module StructArraySpec {
  import opened Wrappers
  import opened PhpArrays

  /** What the property store holds under the designated attribute name. */
  datatype PropertyValue<T> = NonArray | Arr(items: PhpArray<T>)

  /**
   * `internArray`, `internArrayIsArray` (the "live" flag), `internArrayOffset`
   * (the iteration cursor) and the designated property's value.
   */
  datatype Adapter<T> = Adapter(internArray: PhpArray<T>, isArray: bool, offset: int, property: PropertyValue<T>)

  /** A struct whose adapter was never touched: empty, not live, cursor at 0. */
  function Initial<T>(property: PropertyValue<T>): (s: Adapter<T>)
    ensures Count(s) == -1 && First(s) == None && Last(s) == None && !Valid(s)
    ensures s.property == property
  {
    Adapter(Empty(), false, 0, property)
  }

  /** `count()` and `length()`: -1 when not live, else the number of keys, so a live empty adapter gives 0. */
  function Count<T>(s: Adapter<T>): (r: int)
    ensures r < 0 <==> !s.isArray
    ensures r < 0 ==> r == -1
    ensures 0 <= r ==> r == |s.internArray.entries|
  {
    if s.isArray then |s.internArray.entries| else -1
  }

  /** `offsetExists($k)`: live and `k` is a key; the stored value is not looked at. */
  predicate OffsetExists<T>(s: Adapter<T>, k: int)
    ensures OffsetExists(s, k) <==> s.isArray && k in s.internArray.entries
    ensures OffsetExists(s, k) ==> Count(s) > 0
  {
    s.isArray && k in s.internArray.entries
  }

  /** `offsetGet($k)`: the stored value exactly when `offsetExists($k)`, otherwise absent. */
  function OffsetGet<T>(s: Adapter<T>, k: int): (r: Option<T>)
    ensures r.Some? <==> s.isArray && k in s.internArray.entries
    ensures r.Some? ==> r.value == s.internArray.entries[k]
  {
    if OffsetExists(s, k) then Some(s.internArray.entries[k]) else None
  }

  /** `item($index)`, an alias of `offsetGet`. */
  function Item<T>(s: Adapter<T>, index: int): (r: Option<T>)
    ensures r.Some? <==> OffsetExists(s, index)
    ensures r.Some? ==> r.value == s.internArray.entries[index]
  {
    OffsetGet(s, index)
  }

  /** `first()`: the item at key 0. */
  function First<T>(s: Adapter<T>): (r: Option<T>)
    ensures r.Some? <==> s.isArray && 0 in s.internArray.entries
    ensures r.Some? ==> r.value == s.internArray.entries[0]
  {
    Item(s, 0)
  }

  /**
   * `last()`: the item at key `count() - 1`. Not live, that key is -2 and the
   * answer is absent; with gaps the key may be missing although items exist.
   */
  function Last<T>(s: Adapter<T>): (r: Option<T>)
    ensures !s.isArray ==> r == None
    ensures r.Some? <==> s.isArray && |s.internArray.entries| - 1 in s.internArray.entries
    ensures r.Some? ==> r.value == s.internArray.entries[|s.internArray.entries| - 1]
  {
    Item(s, Count(s) - 1)
  }

  /** `current()`: the item under the cursor. */
  function Current<T>(s: Adapter<T>): (r: Option<T>)
    ensures r.Some? <==> s.isArray && s.offset in s.internArray.entries
    ensures r.Some? ==> r.value == s.internArray.entries[s.offset]
  {
    OffsetGet(s, s.offset)
  }

  /** `valid()`: whether the cursor is a key of a live adapter. */
  predicate Valid<T>(s: Adapter<T>)
    ensures Valid(s) <==> Current(s).Some?
    ensures Valid(s) ==> s.isArray && s.offset in s.internArray.entries && Count(s) > 0
  {
    OffsetExists(s, s.offset)
  }

  /** `next()`: moves the cursor one position on; nothing else changes. */
  function Next<T>(s: Adapter<T>): (t: Adapter<T>)
    ensures t.offset == s.offset + 1
    ensures t.internArray == s.internArray && t.isArray == s.isArray && t.property == s.property
  {
    s.(offset := s.offset + 1)
  }

  /** `rewind()`: puts the cursor back at 0; nothing else changes. */
  function Rewind<T>(s: Adapter<T>): (t: Adapter<T>)
    ensures t.offset == 0
    ensures t.internArray == s.internArray && t.isArray == s.isArray && t.property == s.property
  {
    s.(offset := 0)
  }

  /** The array `add` starts from: the property's value, or `[]` when that is not an array. */
  function Base<T>(p: PropertyValue<T>): (a: PhpArray<T>)
    ensures p.Arr? ==> a == p.items
    ensures p.NonArray? ==> a.entries == map[] && a.nextIndex == 0
  {
    if p.Arr? then p.items else Empty()
  }

  /**
   * `add($item)`: appends to the property's array (not to `internArray`),
   * under a fresh key above every existing one, keeps every existing entry,
   * writes the result to both the property and `internArray`, and leaves the
   * adapter live with the cursor at 0.
   */
  function Add<T>(s: Adapter<T>, item: T): (t: Adapter<T>)
    ensures t.isArray && t.offset == 0 && t.property == Arr(t.internArray)
    ensures var base := Base(s.property);
      && base.nextIndex !in base.entries
      && (forall k :: k in base.entries ==> k < base.nextIndex)
      && t.internArray.entries.Keys == base.entries.Keys + {base.nextIndex}
      && t.internArray.entries[base.nextIndex] == item
      && (forall k :: k in base.entries ==> t.internArray.entries[k] == base.entries[k])
    ensures Count(t) == |Base(s.property).entries| + 1
    ensures t.internArray.nextIndex == Base(s.property).nextIndex + 1
  {
    var current := Append(Base(s.property), item);
    Adapter(current, true, 0, Arr(current))
  }

  /**
   * `offsetSet($k, $v)`: `k` holds `v`, every other key is unchanged, and the
   * map is written to the property. The live flag and cursor stay, so on a
   * not-live adapter the new item can be neither seen nor counted.
   */
  function OffsetSet<T>(s: Adapter<T>, k: int, v: T): (t: Adapter<T>)
    ensures t.internArray.entries.Keys == s.internArray.entries.Keys + {k}
    ensures t.internArray.entries[k] == v
    ensures forall j :: j in s.internArray.entries && j != k ==> t.internArray.entries[j] == s.internArray.entries[j]
    ensures t.property == Arr(t.internArray)
    ensures t.isArray == s.isArray && t.offset == s.offset
    ensures s.isArray ==> OffsetGet(t, k) == Some(v)
    ensures s.isArray ==> Count(t) == Count(s) + (if k in s.internArray.entries then 0 else 1)
    ensures !s.isArray ==> OffsetGet(t, k) == None && Count(t) == -1
    ensures t.internArray.nextIndex == if k < s.internArray.nextIndex then s.internArray.nextIndex else k + 1
  {
    var a := Put(s.internArray, k, v);
    s.(internArray := a, property := Arr(a))
  }

  /**
   * `offsetUnset($k)`: when `offsetExists($k)`, removes `k` alone without
   * renumbering, lowers the count by one and writes the map to the property;
   * otherwise changes nothing at all.
   */
  function OffsetUnset<T>(s: Adapter<T>, k: int): (t: Adapter<T>)
    ensures OffsetExists(s, k) ==>
      && t.internArray.entries.Keys == s.internArray.entries.Keys - {k}
      && (forall j :: j in t.internArray.entries ==> t.internArray.entries[j] == s.internArray.entries[j])
      && t.internArray.nextIndex == s.internArray.nextIndex
      && Count(t) == Count(s) - 1
      && OffsetGet(t, k) == None
      && t.property == Arr(t.internArray)
      && t.isArray == s.isArray && t.offset == s.offset
    ensures !OffsetExists(s, k) ==> t == s
  {
    if OffsetExists(s, k) then
      var a := Remove(s.internArray, k);
      s.(internArray := a, property := Arr(a))
    else
      s
  }

  /** The result of `initInternArray`: the new state, or the TypeError its fallback call raises. */
  datatype InitOutcome<T> = Initialised(state: Adapter<T>) | TypeError

  /**
   * `initInternArray($array, $internCall)`: a non-empty `array` is adopted
   * (cursor 0, live) without touching the property. An empty one, on an outer
   * call, retries once with the property's value, which must be an array or the
   * call raises. The property is never written and the live flag never cleared.
   */
  function InitInternArray<T>(s: Adapter<T>, a: PhpArray<T>, internCall: bool): (r: InitOutcome<T>)
    decreases if internCall then 0 else 1
    ensures r.Initialised? ==> r.state.property == s.property
    ensures r.Initialised? && s.isArray ==> r.state.isArray
    ensures |a.entries| > 0 ==> r == Initialised(Adapter(a, true, 0, s.property))
    ensures |a.entries| == 0 && internCall ==> r == Initialised(s)
    ensures |a.entries| == 0 && !internCall ==>
      match s.property
      case NonArray => r == TypeError
      case Arr(p) => r == Initialised(if |p.entries| > 0 then Adapter(p, true, 0, s.property) else s)
    ensures r.TypeError? <==> |a.entries| == 0 && !internCall && s.property.NonArray?
  {
    if |a.entries| > 0 then
      Initialised(s.(internArray := a, offset := 0, isArray := true))
    else if !internCall then
      match s.property
      case Arr(p) => InitInternArray(s, p, true)
      case NonArray => TypeError
    else
      Initialised(s)
  }
}
