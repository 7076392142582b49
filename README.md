# AbstractStructArrayBase, modelled in Dafny

`AbstractStructArrayBase` is the base class that generated WSDL structs extend
when one of their properties is a list. It makes that one designated property
behave like an ordered, indexable, iterable, countable collection (PHP's
`ArrayAccess`, `Iterator` and `Countable` protocols). It keeps three fields:

- `internArray`, the collection view of the property;
- `internArrayIsArray`, the "live" flag;
- `internArrayOffset`, the single iteration cursor.

The mutating operations `add`, `offsetSet` and `offsetUnset` write the
collection back into the designated property through the struct's property
store.

The project has five modules:

- `Wrappers` (wrappers.dfy): `Option`, standing for PHP's `null` result.
- `PhpArrays` (php_arrays.dfy): integer-keyed PHP arrays, seen as maps. A `PhpArray` holds
  its entries and the key the next `$a[] = $v` will use (`nextIndex`). The
  subset type says that key is non-negative and above every key in use.
  `Append`, `Put` and `Remove` are `$a[] = $v`, `$a[$k] = $v` and
  `unset($a[$k])`.
- `StructArraySpec` (struct_array_spec.dfy): the adapter as a value, `Adapter`.
  It holds the three fields and `property`, the designated property's value
  (`NonArray` or `Arr(items)`). There is one function per operation, and each
  function's contract states what the operation promises.
- `StructArrayProperties` (struct_array_properties.dfy): lemmas that relate
  several calls. They cover runs of `add`, the `foreach` protocol (rewind, then
  valid / current / key / next), gaps left by removal, restarting by `rewind`,
  and `offsetSet` before and after materialising.
- `StructArrayBase` (struct_array_base.dfy): the class
  `AbstractStructArrayBase<T>`. It has the source's three fields plus
  `property`. Each method reads or writes these fields as the PHP method does,
  and its `ensures` ties the result or the new state to the `StructArraySpec`
  function. The getters and setters are plain field access.

Points where the model pins down the code's behaviour:

- The code does not keep `internArray` empty while the adapter is not live,
  although it is sometimes described that way. `offsetSet` never sets the live
  flag, and `setInternArray` / `initInternArray` can fill the map without
  writing it back. The model follows the code: `offsetSet` on a not-live
  adapter stores the item and overwrites the property with `internArray`, yet
  `count()` stays -1 and `offsetGet` shows nothing
  (`OffsetSetBeforeMaterialising`).
- Nothing materialises the property automatically. Of the collection
  operations, only `initInternArray` and `add` set the live flag; the setter
  `setInternArrayIsArray` writes it directly.
- The cursor is any integer, because `setInternArrayOffset` accepts any `int`.
- `initInternArray`'s fallback passes the property's value to a parameter typed
  `array` under strict types. When that value is not an array, PHP raises a
  TypeError before anything changes. The model returns that as an outcome
  (`TypeError` / `ok == false`, state unchanged) rather than forbidding the call.
- Values are a type parameter `T`. A stored PHP `null` is a value like any other
  (instantiate `T` with an option type): `offsetExists` never looks at the value.

## Model

| member | source | states |
|---|---|---|
| `PhpArrays.Append` | src/AbstractStructArrayBase.php:113-114 | `$a[] = $v` stores `v` under a key absent before and above every existing key, keeps every entry, grows the count by one |
| `PhpArrays.Put` | src/AbstractStructArrayBase.php:170 | `$a[$k] = $v`: key `k` holds `v`, every other key keeps its value, count grows only when `k` was new, later appends go above `k` |
| `PhpArrays.Remove` | src/AbstractStructArrayBase.php:183 | `unset($a[$k])` drops key `k` only, no renumbering, count drops by one exactly when `k` was present, next append key unchanged |
| `StructArraySpec.Initial` | src/AbstractStructArrayBase.php:13-25 | a fresh adapter is not live: `count()` is -1, `first()` and `last()` are absent, `valid()` is false |
| `StructArraySpec.Count` | src/AbstractStructArrayBase.php:40-43 | negative (exactly -1) iff not live; otherwise the number of keys, so a live empty adapter gives 0 |
| `StructArraySpec.OffsetExists` | src/AbstractStructArrayBase.php:147-150 | true iff the adapter is live and `k` is a key, whatever value is stored; then `count()` is positive |
| `StructArraySpec.OffsetGet` | src/AbstractStructArrayBase.php:147-160 | a value is returned iff the adapter is live and the key is present, and it is the stored value; otherwise absent, never an error |
| `StructArraySpec.Item` | src/AbstractStructArrayBase.php:95-98 | a value iff `offsetExists(index)`, and then the value stored at `index` |
| `StructArraySpec.First` | src/AbstractStructArrayBase.php:128-131 | present iff live and key 0 exists, and then the value at key 0 |
| `StructArraySpec.Last` | src/AbstractStructArrayBase.php:137-140 | absent when not live; present iff key `count()-1` exists, so gaps can hide the last item |
| `StructArraySpec.Current` | src/AbstractStructArrayBase.php:49-52 | the value under the cursor exactly when the cursor is a key of a live adapter |
| `StructArraySpec.Valid` | src/AbstractStructArrayBase.php:76-79 | true iff `current()` has a value: the adapter is live and the cursor is a key, so `count()` is positive |
| `StructArraySpec.Next` | src/AbstractStructArrayBase.php:58-61 | cursor up by one, map, flag and property unchanged |
| `StructArraySpec.Rewind` | src/AbstractStructArrayBase.php:67-70 | cursor 0, map, flag and property unchanged |
| `StructArraySpec.Base` | src/AbstractStructArrayBase.php:107-113 | `add` starts from the property's array, or from `[]` when the property is not an array |
| `StructArraySpec.Add` | src/AbstractStructArrayBase.php:105-122 | the item is added to the property's array (not to `internArray`) under a fresh key above all existing ones; every entry is kept; afterwards property equals `internArray`, live, cursor 0, `count()` = size of the property's array + 1, next append key one above the one used |
| `StructArraySpec.OffsetSet` | src/AbstractStructArrayBase.php:168-173 | key `k` holds `v`, other keys unchanged, property equals `internArray`, flag and cursor unchanged, next append key moves above `k`; not live, `offsetGet(k)` stays absent and `count()` stays -1 |
| `StructArraySpec.OffsetUnset` | src/AbstractStructArrayBase.php:180-188 | when `offsetExists(k)`: only `k` removed, no renumbering, count down by exactly 1, property equals `internArray`; otherwise the state, property included, is unchanged |
| `StructArraySpec.InitInternArray` | src/AbstractStructArrayBase.php:232-246 | a non-empty array is adopted (cursor 0, live); an empty one retries once with the property's value on an outer call, raising iff that value is not an array; the property is never written and the live flag never cleared |
| `StructArrayProperties.VisitRun` | src/AbstractStructArrayBase.php:49-88 | from cursor `i`, with keys `i..n-1` present and `n` absent, iteration yields exactly the pairs `(key, value)` for `i..n-1` in order |
| `StructArrayProperties.ForeachDense` | src/AbstractStructArrayBase.php:49-88 | over dense keys 0..n-1 a live adapter has exactly n = `count()` valid positions, visited in key order |
| `StructArrayProperties.ForeachStopsAtGap` | src/AbstractStructArrayBase.php:76-79 | with keys 0..g-1 present and g missing, iteration yields g items and stops before the gap |
| `StructArrayProperties.ForeachNotLive` | src/AbstractStructArrayBase.php:76-79 | a not-live adapter yields nothing, whatever its map holds |
| `StructArrayProperties.RewindRestarts` | src/AbstractStructArrayBase.php:58-70 | after any number of `next()` calls, `rewind()` gives back the same state and the same iteration sequence |
| `StructArrayProperties.AppendExtends` | src/AbstractStructArrayBase.php:113-114 | one more append extends the appended-items relation by one more item |
| `StructArrayProperties.AddAllAppends` | src/AbstractStructArrayBase.php:105-122 | a run of `add` calls keeps the property's entries, puts the i-th item at the property's next key + i, adds nothing else, and ends live, synchronised and with cursor 0 |
| `StructArrayProperties.DenseAfterAppends` | src/AbstractStructArrayBase.php:95-98 | a live adapter holding `[]` extended by `xs` has `count() == |xs|`, `item(i) == xs[i]`, `first`/`last` the ends of `xs`, and iterates `xs` under keys 0.. |
| `StructArrayProperties.AddAllFromEmpty` | src/AbstractStructArrayBase.php:105-140 | on an adapter whose property is not an array, or is a `[]` nothing was ever appended to, `add(x0)`…`add(x{n-1})` gives `item(i) == x_i`, `count() == n`, `first() == x0`, `last() == x{n-1}` and iteration over `(i, x_i)` |
| `StructArrayProperties.RemovalLeavesGap` | src/AbstractStructArrayBase.php:180-188 | add a, b, c then unset 1: keys {0, 2}, count 2, `last()` absent, iteration yields only `(0, a)`, the next add goes to key 3 |
| `StructArrayProperties.GapAfterRemoval` | src/AbstractStructArrayBase.php:137-140 | the state with keys {0, 2}: count 2, `item(1)` absent, `last()` absent, iteration stops after key 0, next add at key 3 |
| `StructArrayProperties.OffsetSetBeforeMaterialising` | src/AbstractStructArrayBase.php:168-173 | on a fresh adapter `offsetSet` replaces the property's array by `{k: v}`, dropping its entries, while `count()` stays -1 and iteration is empty |
| `StructArrayProperties.OffsetSetAfterMaterialising` | src/AbstractStructArrayBase.php:232-246 | after `initInternArray()` has adopted the property's non-empty array, `offsetSet` keeps every other entry and the new value is visible |
| `StructArrayBase.AbstractStructArrayBase.constructor` | src/AbstractStructArrayBase.php:13-25 | the field defaults: empty map, not live, cursor 0, property as given |
| `StructArrayBase.AbstractStructArrayBase.Length` | src/AbstractStructArrayBase.php:31-34 | equals `count()` |
| `StructArrayBase.AbstractStructArrayBase.Count` | src/AbstractStructArrayBase.php:40-43 | returns `StructArraySpec.Count` of the state |
| `StructArrayBase.AbstractStructArrayBase.Current` | src/AbstractStructArrayBase.php:49-52 | returns `offsetGet(cursor)` |
| `StructArrayBase.AbstractStructArrayBase.Next` | src/AbstractStructArrayBase.php:58-61 | new state is `StructArraySpec.Next` of the old |
| `StructArrayBase.AbstractStructArrayBase.Rewind` | src/AbstractStructArrayBase.php:67-70 | new state is `StructArraySpec.Rewind` of the old |
| `StructArrayBase.AbstractStructArrayBase.Valid` | src/AbstractStructArrayBase.php:76-79 | returns `offsetExists(cursor)` |
| `StructArrayBase.AbstractStructArrayBase.Key` | src/AbstractStructArrayBase.php:85-88 | returns the cursor |
| `StructArrayBase.AbstractStructArrayBase.Item` | src/AbstractStructArrayBase.php:95-98 | returns `offsetGet(index)` |
| `StructArrayBase.AbstractStructArrayBase.Add` | src/AbstractStructArrayBase.php:105-122 | new state is `StructArraySpec.Add` of the old |
| `StructArrayBase.AbstractStructArrayBase.First` | src/AbstractStructArrayBase.php:128-131 | returns `item(0)` |
| `StructArrayBase.AbstractStructArrayBase.Last` | src/AbstractStructArrayBase.php:137-140 | returns `item(length() - 1)` |
| `StructArrayBase.AbstractStructArrayBase.OffsetExists` | src/AbstractStructArrayBase.php:147-150 | true iff live and the key is present |
| `StructArrayBase.AbstractStructArrayBase.OffsetGet` | src/AbstractStructArrayBase.php:157-160 | returns `StructArraySpec.OffsetGet` of the state |
| `StructArrayBase.AbstractStructArrayBase.OffsetSet` | src/AbstractStructArrayBase.php:168-173 | new state is `StructArraySpec.OffsetSet` of the old |
| `StructArrayBase.AbstractStructArrayBase.OffsetUnset` | src/AbstractStructArrayBase.php:180-188 | new state is `StructArraySpec.OffsetUnset` of the old |
| `StructArrayBase.AbstractStructArrayBase.GetInternArray` | src/AbstractStructArrayBase.php:194-199 | returns the map field |
| `StructArrayBase.AbstractStructArrayBase.SetInternArray` | src/AbstractStructArrayBase.php:206-213 | replaces the map field only |
| `StructArrayBase.AbstractStructArrayBase.GetInternArrayOffset` | src/AbstractStructArrayBase.php:219-224 | returns the cursor field |
| `StructArrayBase.AbstractStructArrayBase.InitInternArray` | src/AbstractStructArrayBase.php:232-246 | new state is `StructArraySpec.InitInternArray` of the old; on the TypeError path the state is unchanged and `ok` is false |
| `StructArrayBase.AbstractStructArrayBase.SetInternArrayOffset` | src/AbstractStructArrayBase.php:253-260 | replaces the cursor field only |
| `StructArrayBase.AbstractStructArrayBase.GetInternArrayIsArray` | src/AbstractStructArrayBase.php:266-271 | returns the live flag |
| `StructArrayBase.AbstractStructArrayBase.SetInternArrayIsArray` | src/AbstractStructArrayBase.php:278-285 | replaces the live flag only |

## Left out

- The `E_USER_DEPRECATED` notices every getter and setter raises: they are error-handler side effects. The getters and setters are plain field reads and writes.
- `getPropertyValue`, `setPropertyValue` and `getAttributeName` of the parent struct base: these are not part of this model. The designated property is one field, `property`. Writing it is a plain assignment, so a generated setter that validates or transforms the value is not modelled.
- The `property_exists` check in `initInternArray` is assumed to succeed: the designated attribute always exists.
- String keys and PHP's key coercion (numeric strings, `mixed` offsets): keys are integers only.
- `PhpArrays.Append`: the next append key follows PHP before 8.3, where it never goes below 0. From PHP 8.3 on, an array whose keys are all negative appends at its largest key + 1 instead.
- The next append key, the keys and the cursor are unbounded integers, so overflow at `PHP_INT_MAX` is not modelled.
- The fluent `return $this` of the mutators: these are methods without a result.
- Entry order: PHP arrays keep insertion order, so after `offsetSet(5, x); offsetSet(0, y)` the property and `getInternArray()` list key 5 before key 0. The model's arrays are maps and keep only keys and values. No operation of the adapter depends on that order: `count`, the indexed operations and the cursor protocol go by key or by position.
- Default arguments: `initInternArray()` is written `InitInternArray(Empty(), false)`, and `setInternArrayIsArray()` is written `SetInternArrayIsArray(false)`, because Dafny methods have no default parameters.
- The PHP interfaces `ArrayAccess`, `Iterator` and `Countable` are not modelled as types. The adapter's `foreach` behaviour is the function `Foreach` over the state.
- Concurrency: the adapter has one cursor and no locking, and the model is sequential.
