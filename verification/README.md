# Halide: compare cache and parameter map

This project models two small pieces of state logic from Halide's compiler:

- `IRCompareCache` (module `CompareCache`, `compare_cache.dfy`). This is the lossy,
  direct-mapped cache of expression pairs already known to be structurally equal.
  It has `2^bits` slots, and each slot holds one pair of `Expr` handles.
  `insert(a, b)` overwrites slot `hash(a, b)` unconditionally, so a collision evicts
  the old pair. `contains(a, b)` checks whether that slot holds the pair in either
  order, comparing handles by identity (`same_as`). `clear()` resets every slot to a
  pair of null handles.
- `ParamMap` (module `ParamMaps`, `param_map.dfy`). This is the table of parameter
  overrides passed to a JIT invocation. It maps an original parameter, compared by
  identity, to a replacement parameter plus an optional buffer-output pointer.
  `map` returns the override, or the parameter itself when there is none. The typed
  `set` overloads and the initializer-list constructor decide which replacement
  gets stored.

Both are modelled functionally. The cache is a `Cache(bits, entries: seq<Entry>)`,
and each operation returns the new cache. `contains` is a function of the cache, so
it is read-only by construction. The table is a `map<K, ParamArg>`, where `K` stands
for parameter identity. A replacement parameter is the record `MappedParam(type,
isBuffer, dims, name, payload)`.

The slot function `hash` is only declared by the cache. It is therefore a parameter
`hash: (Handle, Handle) -> nat` of every cache operation. `insert` and `contains`
require `hash(a, b) < |entries|`, which is what indexing the slot vector demands.
A cache built by `IRCompareCache(0)` has one slot.

A `ParamMapping` is modelled as one variant per constructor: a scalar with its value,
an input buffer, or an output pointer. The functions `ParameterField`,
`ImageParamField` and `BufOutParamField` give the pointer fields each constructor
sets. The initializer-list step `Step` branches on those fields, just as the
constructor in `src/ParamMap.cpp` does. Its second branch binds the mapping's `buf`
reference, but the `(ImageParam, Buffer<T> *)` constructor never binds it. An output
mapping given a null pointer therefore reaches that branch with an unbound
reference. The model reports this case as `Failed(UnboundBufferReference)`, and
`Build` fails exactly when some mapping is such an output mapping.

Two facts about the cache code shape the model:

- `hash` is only declared (src/IREquality.h:32), so no symmetry is assumed.
  `InsertThenContainsSwapped` states exactly when the lookup in the swapped order
  succeeds: when `hash` sends both orders to the same slot, or when that other slot
  already held the pair.
- A default-constructed cache has 0 slots (src/IREquality.h:30, 34, 74), so `insert`
  or `contains` on it would index out of bounds. `Default` records that no pair is
  addressable.

## Model

| member | source | states |
|---|---|---|
| CompareCache.Default | src/IREquality.h:74 | a default-constructed cache keeps `bits` 0 and an empty slot vector (lines 30, 34), so no pair is addressable by any hash |
| CompareCache.New | src/IREquality.h:75-77 | `IRCompareCache(b)` records `b` and has exactly `2^b` slots, each holding two null handles |
| CompareCache.Insert | src/IREquality.h:43-58 | `insert` keeps `bits` and the slot count, makes slot `hash(a, b)` hold the pair, and leaves every other slot as it was |
| CompareCache.Contains | src/IREquality.h:60-65 | `contains(a, b)` is true iff slot `hash(a, b)` holds the unordered pair {a, b} |
| CompareCache.HoldsInEitherOrder | src/IREquality.h:63-64 | holding the unordered pair {x, y} is the same as holding (x, y) or (y, x) by identity |
| CompareCache.Cleared | src/IREquality.h:67-72 | `clear` keeps `bits` and the slot count and leaves every slot as a pair of null handles |
| CompareCache.Clear | src/IREquality.h:67-72 | the slot-by-slot loop of `clear` ends in exactly the cache `Cleared` describes |
| CompareCache.ClearedContainsOnlyNullPair | src/IREquality.h:60-72 | after `clear`, `contains(a, b)` holds iff both handles are null, so it is false whenever one is defined |
| CompareCache.NewAddressesEveryPair | src/IREquality.h:75-77 | in a cache built with `b` bits, every pair whose hash is below `2^b` addresses a slot |
| CompareCache.InsertThenContains | src/IREquality.h:43-64 | after `insert(a, b)`, `contains(a, b)` is true |
| CompareCache.InsertThenContainsSwapped | src/IREquality.h:43-64 | after `insert(a, b)`, `contains(b, a)` holds iff `hash(b, a) == hash(a, b)` or it already held before |
| CompareCache.InsertKeepsOtherSlots | src/IREquality.h:43-64 | `insert(a, b)` does not change `contains(x, y)` for any pair hashed to another slot |
| CompareCache.CollisionEvicts | src/IREquality.h:22-64 | a different pair inserted into the same slot evicts the first: `contains(a, b)` becomes false |
| CompareCache.EmptyContainsOnlyNullPair | src/IREquality.h:60-72 | in a fresh or cleared cache, `contains(a, b)` holds iff both handles are null, so it is false whenever one is defined |
| CompareCache.InsertAll | src/IREquality.h:43-58 | a sequence of inserts keeps `bits` and the slot count, so every pair addressable before stays addressable |
| CompareCache.InsertAllOnlyKnown | src/IREquality.h:43-58 | starting from empty slots, after a sequence of inserts every slot is empty or holds one of the inserted pairs |
| CompareCache.ContainsOnlyInserted | src/IREquality.h:22-64 | soundness: a cache that started empty reports only pairs inserted during the session, or the pair of null handles |
| CompareCache.ContainsUntilEvicted | src/IREquality.h:22-64 | an inserted pair is still reported unless a later insert landed in its slot |
| ParamMaps.ParameterField | src/ParamMap.h:31-52 | only the `Param<T>` constructor sets `parameter`, and it points at that parameter |
| ParamMaps.ImageParamField | src/ParamMap.h:31-52 | both `ImageParam` constructors set `image_param` and the `Param<T>` constructor leaves it null |
| ParamMaps.BufOutParamField | src/ParamMap.h:31-52 | `buf_out_param` is null except in the output-pointer constructor, which stores the caller's pointer |
| ParamMaps.Empty | src/ParamMap.cpp:31-32 | a default-constructed map has size 0 |
| ParamMaps.EmptyMap | src/ParamMap.cpp:90-93 | `empty_map()` has size 0 |
| ParamMaps.EmptyMapIsIdentity | src/ParamMap.h:92-95 | `map` on `empty_map()` returns the parameter itself with a null output pointer |
| ParamMaps.Map | src/ParamMap.cpp:68-88 | `map(p)` returns `p` and a null pointer iff `p` has no entry, and otherwise the stored replacement and its stored `buf_out_param` |
| ParamMaps.Store | src/ParamMap.cpp:57-62 | writing an entry adds its key, stores the entry under it, and keeps every other entry |
| ParamMaps.SetMapped | src/ParamMap.cpp:57-62 | `set(p_orig, p_mapped)` adds `p_orig` to the keys, keeps `size` for a present key and adds one otherwise, and keeps every other entry; its lookup is stated by `SetMappedThenMap` |
| ParamMaps.SetImage | src/ParamMap.cpp:48-55 | `set(ImageParam p, buf, out)` adds `p`'s parameter to the keys, keeps `size` for a present key and adds one otherwise, and keeps every other entry; the stored entry is stated by `SetImageThenMap` |
| ParamMaps.SetScalar | src/ParamMap.h:65-70 | `set(Param<T> p, val)` adds `p`'s parameter to the keys, keeps `size` for a present key and adds one otherwise, and keeps every other entry; the stored entry is stated by `SetScalarThenMap` |
| ParamMaps.SetImageBuffer | src/ParamMap.h:72-80 | `set(ImageParam p, buf)` adds `p`'s parameter to the keys, keeps `size` for a present key and adds one otherwise, and keeps every other entry; its null output pointer is stated by `SetImageBufferHasNoOutput` |
| ParamMaps.Step | src/ParamMap.cpp:35-45 | one step of the constructor loop faults iff the mapping is an output mapping with a null pointer; what it stores otherwise is stated by `StepStoresArgOf` |
| ParamMaps.ArgOfScalarMapping | src/ParamMap.cpp:17-21 | `ParamArg(pm)` is a non-buffer, zero-dimensional parameter with the original's type and name, holding the value, with a null output pointer |
| ParamMaps.Build | src/ParamMap.cpp:34-46 | initializer-list construction, applying the mappings in order, fails iff some output mapping has a null pointer |
| ParamMaps.BuildKeys | src/ParamMap.cpp:34-46 | a successful initializer-list construction has exactly the parameters the mappings name as keys |
| ParamMaps.BuildSize | src/ParamMap.cpp:34-66 | after initializer-list construction, `size()` (lines 64-66) is the number of distinct parameters the mappings name, so several mappings of one parameter count once |
| ParamMaps.StepStoresArgOf | src/ParamMap.cpp:35-45 | each branch of the constructor loop stores the mapping's entry under its parameter: scalar, input buffer, or undefined buffer with the output pointer |
| ParamMaps.ScalarMappingAgreesWithSet | src/ParamMap.h:65-70 | the scalar branch of the initializer list (`ParamArg(pm)`, src/ParamMap.cpp:17-37) stores what `set(Param<T>, val)` stores |
| ParamMaps.BufferMappingAgreesWithSet | src/ParamMap.cpp:38-40 | the input-buffer branch stores what `set(ImageParam, Buffer)` stores |
| ParamMaps.OutputMappingAgreesWithSet | src/ParamMap.cpp:41-43 | the output-pointer branch with a non-null pointer stores what `set(p, buf, buf_out_param)` stores for an undefined buffer and that pointer |
| ParamMaps.BuildLastWins | src/ParamMap.cpp:34-46 | mappings are applied in order, and `map(k)` yields the entry of the last mapping that names `k` |
| ParamMaps.BuildUnnamedIsIdentity | src/ParamMap.cpp:34-46 | a parameter that no mapping names maps to itself with a null output pointer |
| ParamMaps.MapAfterStore | src/ParamMap.cpp:68-77 | `map` on a key just written returns the written replacement and output pointer |
| ParamMaps.StoreKeepsOtherKeys | src/ParamMap.cpp:48-62 | writing one key leaves `map` of every other key unchanged |
| ParamMaps.StoreSize | src/ParamMap.cpp:64-66 | writing a present key keeps `size`, and writing a new key increases it by one |
| ParamMaps.StoreTwiceLastWins | src/ParamMap.cpp:57-62 | two writes to the same key equal the second write alone |
| ParamMaps.SetMappedThenMap | src/ParamMap.cpp:57-62 | after `set(p_orig, p_mapped)`, `map(p_orig)` returns `p_mapped` with a null output pointer |
| ParamMaps.SetScalarThenMap | src/ParamMap.h:65-70 | after `set(Param<T> p, val)`, `map` returns a scalar, non-buffer, zero-dimensional parameter with `p`'s type and name, holding `val`, with a null output pointer |
| ParamMaps.SetImageThenMap | src/ParamMap.cpp:48-55 | after `set(ImageParam p, buf, out)`, `map` returns a buffer parameter with `p`'s type, dimensions and name, holding `buf`, with output pointer `out` |
| ParamMaps.SetImageBufferHasNoOutput | src/ParamMap.h:72-80 | `set(ImageParam, Buffer)` passes `nullptr` as the output pointer, so a later `map` yields a null output pointer |

## Left out

- `IRDeepCompare`, `equal`, `graph_equal` and `ExprWithCompareCache::operator<` are only declared in `src/IREquality.h`. Their bodies and the per-node comparison are not part of this model.
- CompareCache.New: accepts only `0 <= b < 64`. It assumes a 64-bit `size_t`; a shift by a negative amount or by the width or more is undefined, and on a 32-bit target the limit would be 32. Allocation failure (`std::length_error` or `std::bad_alloc` from the vector for large `b`) is not modelled; the model always yields `2^b` slots.
- ParamMaps.Build: the `Param<T>` and `(ImageParam, Buffer<T> *)` constructors of `ParamMapping` leave the reference member `buf` uninitialised, which ISO C++ rejects once they are instantiated. They are modelled as if they compiled. `Failed(UnboundBufferReference)` stands for the undefined behaviour of binding that unset reference, not for an error the program reports.
- The body of `IRCompareCache::hash` is not part of this model. It is a parameter of the cache operations, and no symmetry or distribution is assumed.
- `IRCompareCache::hash`'s `uint32_t` result width is not modelled; lemmas hold for every `hash`, so this is a generalisation. Only the demand that the result index the slot vector is kept.
- The `HALIDE_IR_COMPARE_CACHE_DEBUG` counters and logging are compiled out and are diagnostic output only.
- Reference counting of the `Expr` handles a slot holds is memory management. Handles are modelled as values.
- The internals of `Parameter` and `Buffer` are not modelled: `set_scalar`, `set_buffer`, and how a parameter's identity and ordering work. Parameter identity is the type parameter `K`.
- The scalar payload is an opaque bit pattern. The type-punned write into `halide_scalar_value_t` is not modelled.
- `src/Param.cpp` holds thin wrappers over `Parameter` and IR constructors that are not part of this model.
- `empty_map()` returns a function-local static. It is modelled as the constant empty table. Initialization order and thread safety are left out.
- The const and non-const `map` overloads have identical bodies and are one function, `Map`. The two public `set(ImageParam, Buffer)` overloads differ only in the buffer's element type and are one function, `SetImageBuffer`.
