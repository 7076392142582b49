/**
 * The adapter as the object the generated structs inherit: the three fields
 * the source keeps, plus `property`, the value the struct's property store
 * holds under the designated attribute name. Every method's new state is the
 * matching function of StructArraySpec applied to the old one.
 */
module StructArrayBase {
  import opened Wrappers
  import opened PhpArrays
  import Spec = StructArraySpec

  class AbstractStructArrayBase<T> {
    var internArray: PhpArray<T>
    var internArrayIsArray: bool
    var internArrayOffset: int
    /** The designated property, read and written through the property store. */
    var property: Spec.PropertyValue<T>

    /** The adapter's state as a value. */
    ghost function Model(): Spec.Adapter<T>
      reads this
    {
      Spec.Adapter(internArray, internArrayIsArray, internArrayOffset, property)
    }

    /** A struct whose designated property starts as `initial`; the field defaults of the source. */
    constructor (initial: Spec.PropertyValue<T>)
      ensures Model() == Spec.Initial(initial)
    {
      internArray := Empty();
      internArrayIsArray := false;
      internArrayOffset := 0;
      property := initial;
    }

    method Length() returns (r: int)
      ensures r == Spec.Count(Model())
    {
      r := Count();
    }

    method Count() returns (r: int)
      ensures r == Spec.Count(Model())
    {
      var live := GetInternArrayIsArray();
      if live {
        var a := GetInternArray();
        r := |a.entries|;
      } else {
        r := -1;
      }
    }

    method Current() returns (r: Option<T>)
      ensures r == Spec.Current(Model())
    {
      r := OffsetGet(internArrayOffset);
    }

    method Next()
      modifies this
      ensures Model() == Spec.Next(old(Model()))
    {
      var offset := GetInternArrayOffset();
      SetInternArrayOffset(offset + 1);
    }

    method Rewind()
      modifies this
      ensures Model() == Spec.Rewind(old(Model()))
    {
      SetInternArrayOffset(0);
    }

    method Valid() returns (r: bool)
      ensures r == Spec.Valid(Model())
    {
      var offset := GetInternArrayOffset();
      r := OffsetExists(offset);
    }

    /** The cursor itself: a position, which is a key only while no removal has left a gap. */
    method Key() returns (r: int)
      ensures r == internArrayOffset
    {
      r := GetInternArrayOffset();
    }

    method Item(index: int) returns (r: Option<T>)
      ensures r == Spec.Item(Model(), index)
    {
      r := OffsetGet(index);
    }

    method Add(item: T)
      modifies this
      ensures Model() == Spec.Add(old(Model()), item)
    {
      if !property.Arr? {
        property := Spec.Arr(Empty());
      }
      var currentArray := Append(property.items, item);
      property := Spec.Arr(currentArray);
      SetInternArray(currentArray);
      SetInternArrayIsArray(true);
      SetInternArrayOffset(0);
    }

    method First() returns (r: Option<T>)
      ensures r == Spec.First(Model())
    {
      r := Item(0);
    }

    method Last() returns (r: Option<T>)
      ensures r == Spec.Last(Model())
    {
      var n := Length();
      r := Item(n - 1);
    }

    method OffsetExists(offset: int) returns (r: bool)
      ensures r == Spec.OffsetExists(Model(), offset)
    {
      var live := GetInternArrayIsArray();
      var a := GetInternArray();
      r := live && offset in a.entries;
    }

    method OffsetGet(offset: int) returns (r: Option<T>)
      ensures r == Spec.OffsetGet(Model(), offset)
    {
      var present := OffsetExists(offset);
      r := if present then Some(internArray.entries[offset]) else None;
    }

    method OffsetSet(offset: int, value: T)
      modifies this
      ensures Model() == Spec.OffsetSet(old(Model()), offset, value)
    {
      internArray := Put(internArray, offset, value);
      property := Spec.Arr(internArray);
    }

    method OffsetUnset(offset: int)
      modifies this
      ensures Model() == Spec.OffsetUnset(old(Model()), offset)
    {
      var present := OffsetExists(offset);
      if present {
        internArray := Remove(internArray, offset);
        property := Spec.Arr(internArray);
      }
    }

    method GetInternArray() returns (r: PhpArray<T>)
      ensures r == internArray
    {
      r := internArray;
    }

    method SetInternArray(a: PhpArray<T>)
      modifies this
      ensures Model() == old(Model()).(internArray := a)
    {
      internArray := a;
    }

    method GetInternArrayOffset() returns (r: int)
      ensures r == internArrayOffset
    {
      r := internArrayOffset;
    }

    /**
     * Adopts a non-empty `a` without writing the property; on an outer call
     * with an empty `a`, retries once with the property's value. `ok` is false
     * when that retry raises a TypeError (the property is not an array), in
     * which case nothing has changed.
     */
    method InitInternArray(a: PhpArray<T>, internCall: bool) returns (ok: bool)
      modifies this
      decreases if internCall then 0 else 1
      ensures var r := Spec.InitInternArray(old(Model()), a, internCall);
        && ok == r.Initialised?
        && Model() == if r.Initialised? then r.state else old(Model())
    {
      if |a.entries| > 0 {
        SetInternArray(a);
        SetInternArrayOffset(0);
        SetInternArrayIsArray(true);
        ok := true;
      } else if !internCall {
        match property
        case Arr(p) =>
          ok := InitInternArray(p, true);
        case NonArray =>
          ok := false;
      } else {
        ok := true;
      }
    }

    method SetInternArrayOffset(offset: int)
      modifies this
      ensures Model() == old(Model()).(offset := offset)
    {
      internArrayOffset := offset;
    }

    method GetInternArrayIsArray() returns (r: bool)
      ensures r == internArrayIsArray
    {
      r := internArrayIsArray;
    }

    method SetInternArrayIsArray(isArray: bool)
      modifies this
      ensures Model() == old(Model()).(isArray := isArray)
    {
      internArrayIsArray := isArray;
    }
  }
}
