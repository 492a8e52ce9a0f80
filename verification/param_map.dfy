/**
 A model of `ParamMap`: a table that overrides parameters of a compiled
 pipeline when it is invoked. Each entry maps an original parameter (compared
 by identity) to a `ParamArg`: a replacement parameter together with an
 optional pointer through which a buffer output is returned. Looking up a
 parameter yields its override when there is one and the parameter itself
 otherwise; writing an entry for a key that is already present replaces it.

 Parameter identity is the type parameter `K`. A replacement parameter is
 the record `MappedParam`: element type, whether it is a buffer, its
 dimensions, its name, and an opaque payload (scalar bits or a buffer).
 */
module ParamMaps {

  datatype Option<T> = None | Some(value: T)

  /** The element type of a parameter, compared as a whole. */
  datatype HalideType = HalideType(code: nat, bits: nat, lanes: nat)

  /** The bit pattern written into a `halide_scalar_value_t`; its interpretation
      is not modelled. */
  datatype ScalarValue = ScalarValue(pattern: nat)

  /** A `Buffer<>` handle: undefined, or a buffer identified by its storage. */
  datatype BufferRef = UndefinedBuffer | DefinedBuffer(id: nat)

  /** A `Buffer<> *` pointer. */
  datatype BufPtr = NullPtr | BufAt(id: nat)

  /** What a replacement parameter carries. */
  datatype Payload = ScalarPayload(value: ScalarValue) | BufferPayload(buffer: BufferRef)

  /** A replacement parameter, built as `Parameter(type, is_buffer, dimensions, name)`
      and then given a scalar value or a buffer. */
  datatype MappedParam = MappedParam(ty: HalideType, isBuffer: bool, dims: int, name: string, payload: Payload)

  /** A table entry: the replacement and the buffer-output pointer. */
  datatype ParamArg = ParamArg(mappedParam: MappedParam, bufOutParam: BufPtr)

  /** A `Param<T>` as the table sees it: its underlying parameter's identity, type and name. */
  datatype ScalarParam<K> = ScalarParam(parameter: K, ty: HalideType, name: string)

  /** An `ImageParam` as the table sees it: its parameter's identity, type, dimensions and name. */
  datatype ImageParam<K> = ImageParam(parameter: K, ty: HalideType, dims: int, name: string)

  /** One element of the initializer list, one variant per constructor of `ParamMapping`:
      a scalar with its value, an input buffer, or a pointer that receives an output buffer. */
  datatype ParamMapping<K> =
    | ScalarMapping(param: ScalarParam<K>, value: ScalarValue)
    | BufferMapping(image: ImageParam<K>, buf: BufferRef)
    | OutputMapping(image: ImageParam<K>, out: BufPtr)

  /** The `parameter` pointer field: set only by the `Param<T>` constructor. */
  function ParameterField<K>(pm: ParamMapping<K>): (r: Option<ScalarParam<K>>)
    ensures r.Some? <==> pm.ScalarMapping?
    ensures r.Some? ==> r.value == pm.param
  {
    match pm
    case ScalarMapping(p, _) => Some(p)
    case _ => None
  }

  /** The `image_param` pointer field: set by both `ImageParam` constructors. */
  function ImageParamField<K>(pm: ParamMapping<K>): (r: Option<ImageParam<K>>)
    ensures r.Some? <==> !pm.ScalarMapping?
    ensures r.Some? ==> r.value == pm.image
  {
    match pm
    case ScalarMapping(_, _) => None
    case BufferMapping(p, _) => Some(p)
    case OutputMapping(p, _) => Some(p)
  }

  /** The `buf_out_param` field: null except for an output mapping, which holds
      the caller's pointer (itself possibly null). */
  function BufOutParamField<K>(pm: ParamMapping<K>): (r: BufPtr)
    ensures !pm.OutputMapping? ==> r == NullPtr
    ensures pm.OutputMapping? ==> r == pm.out
  {
    match pm
    case OutputMapping(_, out) => out
    case _ => NullPtr
  }

  /** The parameter a mapping overrides. */
  function KeyOf<K>(pm: ParamMapping<K>): K
  {
    match pm
    case ScalarMapping(p, _) => p.parameter
    case BufferMapping(p, _) => p.parameter
    case OutputMapping(p, _) => p.parameter
  }

  /** The table: `contents->mapping` in ParamMap.cpp. */
  datatype ParamMap<K(==)> = ParamMap(mapping: map<K, ParamArg>)

  /** Undefined behaviour the initializer-list constructor can run into. */
  datatype Fault = UnboundBufferReference

  datatype Result<T> = Ok(value: T) | Failed(fault: Fault)

  /** What a lookup yields in place of the parameter asked about. */
  datatype Resolved<K> = Itself(key: K) | Override(param: MappedParam)

  /** The two results of `map`: the parameter to use, and `buf_out_param`. */
  datatype Lookup<K> = Lookup(param: Resolved<K>, bufOutParam: BufPtr)

  /** The lookup of a parameter the table does not mention. */
  function Identity<K>(p: K): Lookup<K>
  {
    Lookup(Itself(p), NullPtr)
  }

  /** The default constructor: an empty table. */
  function Empty<K(==)>(): (m: ParamMap<K>)
    ensures Size(m) == 0
  {
    ParamMap(map[])
  }

  /** `empty_map()`: the shared empty table. */
  function EmptyMap<K(==)>(): (m: ParamMap<K>)
    ensures Size(m) == 0
  {
    Empty()
  }

  /** Looking anything up in `empty_map()` yields the parameter itself. */
  lemma EmptyMapIsIdentity<K>(p: K)
    ensures Map(EmptyMap(), p) == Identity(p)
  {
  }

  /** `size()`: the number of distinct parameters with an override. */
  function Size<K(==)>(m: ParamMap<K>): nat
  {
    |m.mapping|
  }

  /** `map(p, buf_out_param)`: the override for `p` and its output pointer when
      the table has an entry for `p`; otherwise `p` itself and a null pointer.
      The const and non-const overloads in ParamMap.cpp have the same body. */
  function Map<K(==)>(m: ParamMap<K>, p: K): (r: Lookup<K>)
    ensures r.param.Itself? <==> p !in m.mapping
    ensures r.param.Itself? ==> r == Identity(p)
    ensures p in m.mapping ==> ParamArg(r.param.param, r.bufOutParam) == m.mapping[p]
  {
    if p in m.mapping then
      Lookup(Override(m.mapping[p].mappedParam), m.mapping[p].bufOutParam)
    else
      Identity(p)
  }

  /** `contents->mapping[key] = arg`: insert, or overwrite an existing entry. */
  function Store<K(==)>(m: ParamMap<K>, key: K, arg: ParamArg): (r: ParamMap<K>)
    ensures r.mapping.Keys == m.mapping.Keys + {key}
    ensures key in r.mapping && r.mapping[key] == arg
    ensures forall k :: k in m.mapping && k != key ==> r.mapping[k] == m.mapping[k]
  {
    ParamMap(m.mapping[key := arg])
  }

  /** The private `set(p_orig, p_mapped)`: override with no output pointer. */
  function SetMapped<K(==)>(m: ParamMap<K>, orig: K, mapped: MappedParam): (r: ParamMap<K>)
    ensures r.mapping.Keys == m.mapping.Keys + {orig}
    ensures Size(r) == if orig in m.mapping then Size(m) else Size(m) + 1
    ensures forall k :: k in m.mapping && k != orig ==> r.mapping[k] == m.mapping[k]
  {
    StoreSize(m, orig, ParamArg(mapped, NullPtr));
    Store(m, orig, ParamArg(mapped, NullPtr))
  }

  /** The entry the private image `set` writes: a buffer parameter with the
      image's type, dimensions and name, holding `buf`, reporting through `out`. */
  function ImageArg<K>(p: ImageParam<K>, buf: BufferRef, out: BufPtr): ParamArg
  {
    ParamArg(MappedParam(p.ty, true, p.dims, p.name, BufferPayload(buf)), out)
  }

  /** The private `set(p, buf, buf_out_param)`: override an image parameter with a
      buffer parameter of the same type, dimensions and name, holding `buf`. */
  function SetImage<K(==)>(m: ParamMap<K>, p: ImageParam<K>, buf: BufferRef, out: BufPtr): (r: ParamMap<K>)
    ensures r.mapping.Keys == m.mapping.Keys + {p.parameter}
    ensures Size(r) == if p.parameter in m.mapping then Size(m) else Size(m) + 1
    ensures forall k :: k in m.mapping && k != p.parameter ==> r.mapping[k] == m.mapping[k]
  {
    StoreSize(m, p.parameter, ImageArg(p, buf, out));
    Store(m, p.parameter, ImageArg(p, buf, out))
  }

  /** The public `set(Param<T>, val)`: override with a scalar, non-buffer,
      zero-dimensional parameter of the same type and name, holding `val`. */
  function SetScalar<K(==)>(m: ParamMap<K>, p: ScalarParam<K>, val: ScalarValue): (r: ParamMap<K>)
    ensures r.mapping.Keys == m.mapping.Keys + {p.parameter}
    ensures Size(r) == if p.parameter in m.mapping then Size(m) else Size(m) + 1
    ensures forall k :: k in m.mapping && k != p.parameter ==> r.mapping[k] == m.mapping[k]
  {
    SetMapped(m, p.parameter, MappedParam(p.ty, false, 0, p.name, ScalarPayload(val)))
  }

  /** Both public `set(ImageParam, Buffer)` overloads: no output pointer. */
  function SetImageBuffer<K(==)>(m: ParamMap<K>, p: ImageParam<K>, buf: BufferRef): (r: ParamMap<K>)
    ensures r.mapping.Keys == m.mapping.Keys + {p.parameter}
    ensures Size(r) == if p.parameter in m.mapping then Size(m) else Size(m) + 1
    ensures forall k :: k in m.mapping && k != p.parameter ==> r.mapping[k] == m.mapping[k]
  {
    SetImage(m, p, buf, NullPtr)
  }

  /** `ParamArg(const ParamMapping &)`: the entry a scalar mapping produces. */
  function ArgOfScalarMapping<K>(p: ScalarParam<K>, value: ScalarValue): (r: ParamArg)
    ensures !r.mappedParam.isBuffer && r.mappedParam.dims == 0
    ensures r.mappedParam.ty == p.ty && r.mappedParam.name == p.name
    ensures r.mappedParam.payload == ScalarPayload(value) && r.bufOutParam == NullPtr
  {
    ParamArg(MappedParam(p.ty, false, 0, p.name, ScalarPayload(value)), NullPtr)
  }

  /** One iteration of the initializer-list constructor, following ParamMap.cpp's
      tests on the mapping's pointer fields. The second branch binds `pm.buf`,
      which only the input-buffer constructor sets: an output mapping given a
      null pointer reaches it with an unbound reference. */
  function Step<K(==)>(m: ParamMap<K>, pm: ParamMapping<K>): (r: Result<ParamMap<K>>)
    ensures r.Failed? <==> Unbound(pm)
  {
    match ParameterField(pm)
    case Some(p) => Ok(Store(m, p.parameter, ArgOfScalarMapping(p, pm.value)))
    case None =>
      var image := ImageParamField(pm).value;
      if BufOutParamField(pm) == NullPtr then
        match pm
        case BufferMapping(_, buf) => Ok(Store(m, image.parameter, ImageArg(image, buf, NullPtr)))
        case OutputMapping(_, _) => Failed(UnboundBufferReference)
      else
        Ok(Store(m, image.parameter, ImageArg(image, UndefinedBuffer, BufOutParamField(pm))))
  }

  /** An output mapping with a null pointer: the initializer-list constructor
      would read an unbound buffer reference for it. */
  predicate Unbound<K>(pm: ParamMapping<K>)
  {
    pm.OutputMapping? && pm.out == NullPtr
  }

  /** `ParamMap(std::initializer_list<ParamMapping>)`: the mappings applied in order
      to an empty table. Stops at the first mapping that faults. */
  function Build<K(==)>(init: seq<ParamMapping<K>>): (r: Result<ParamMap<K>>)
    ensures r.Failed? <==> exists i :: 0 <= i < |init| && Unbound(init[i])
    decreases |init|
  {
    if |init| == 0 then Ok(Empty())
    else
      var front := init[..|init| - 1];
      var pm := init[|init| - 1];
      match Build(front)
      case Failed(f) => Failed(f)
      case Ok(m) =>
        assert forall i :: 0 <= i < |front| ==> front[i] == init[i];
        Step(m, pm)
  }

  /** The entry a mapping contributes, stated per kind: a scalar becomes a
      non-buffer, zero-dimensional parameter holding the value; an input buffer
      a buffer parameter holding it; an output pointer an undefined buffer
      parameter that reports through the pointer. */
  function ArgOf<K>(pm: ParamMapping<K>): ParamArg
  {
    match pm
    case ScalarMapping(p, v) => ParamArg(MappedParam(p.ty, false, 0, p.name, ScalarPayload(v)), NullPtr)
    case BufferMapping(p, b) => ParamArg(MappedParam(p.ty, true, p.dims, p.name, BufferPayload(b)), NullPtr)
    case OutputMapping(p, o) => ParamArg(MappedParam(p.ty, true, p.dims, p.name, BufferPayload(UndefinedBuffer)), o)
  }

  /** A mapping that does not fault stores exactly `ArgOf(pm)` under `KeyOf(pm)`. */
  lemma StepStoresArgOf<K>(m: ParamMap<K>, pm: ParamMapping<K>)
    requires !Unbound(pm)
    ensures Step(m, pm) == Ok(Store(m, KeyOf(pm), ArgOf(pm)))
  {
  }

  /** The scalar branch of the initializer list stores what `set(Param<T>, val)` stores. */
  lemma ScalarMappingAgreesWithSet<K>(m: ParamMap<K>, p: ScalarParam<K>, val: ScalarValue)
    ensures Step(m, ScalarMapping(p, val)) == Ok(SetScalar(m, p, val))
  {
  }

  /** The input-buffer branch stores what `set(ImageParam, Buffer)` stores. */
  lemma BufferMappingAgreesWithSet<K>(m: ParamMap<K>, p: ImageParam<K>, buf: BufferRef)
    ensures Step(m, BufferMapping(p, buf)) == Ok(SetImageBuffer(m, p, buf))
  {
  }

  /** The output-pointer branch stores what the private `set(p, buf, buf_out_param)`
      stores for an undefined buffer and the caller's pointer. */
  lemma OutputMappingAgreesWithSet<K>(m: ParamMap<K>, p: ImageParam<K>, out: BufPtr)
    requires out != NullPtr
    ensures Step(m, OutputMapping(p, out)) == Ok(SetImage(m, p, UndefinedBuffer, out))
  {
  }

  /** A successful construction has exactly the parameters the mappings name as keys. */
  lemma {:induction false} BuildKeys<K>(init: seq<ParamMapping<K>>)
    requires Build(init).Ok?
    ensures Build(init).value.mapping.Keys == set i | 0 <= i < |init| :: KeyOf(init[i])
    decreases |init|
  {
    if |init| > 0 {
      var front := init[..|init| - 1];
      var pm := init[|init| - 1];
      BuildKeys(front);
      StepStoresArgOf(Build(front).value, pm);
      assert forall i :: 0 <= i < |front| ==> front[i] == init[i];
      assert (set i | 0 <= i < |init| :: KeyOf(init[i]))
          == (set i | 0 <= i < |front| :: KeyOf(front[i])) + {KeyOf(pm)};
    }
  }

  /** After initializer-list construction, `size()` is the number of distinct
      parameters the mappings name: mappings that name the same parameter count once. */
  lemma BuildSize<K>(init: seq<ParamMapping<K>>)
    requires Build(init).Ok?
    ensures Size(Build(init).value) == |set i | 0 <= i < |init| :: KeyOf(init[i])|
  {
    BuildKeys(init);
  }

  /** Initializer-list construction: later mappings win. A parameter is present
      exactly when some mapping names it, and its entry is the one contributed
      by the last mapping that names it. */
  lemma {:induction false} BuildLastWins<K>(init: seq<ParamMapping<K>>, k: K, i: nat)
    requires Build(init).Ok?
    requires i < |init| && KeyOf(init[i]) == k
    requires forall j :: i < j < |init| ==> KeyOf(init[j]) != k
    ensures Map(Build(init).value, k) == Lookup(Override(ArgOf(init[i]).mappedParam), ArgOf(init[i]).bufOutParam)
    decreases |init|
  {
    var front := init[..|init| - 1];
    var pm := init[|init| - 1];
    var m := Build(front).value;
    StepStoresArgOf(m, pm);
    if i < |init| - 1 {
      assert front[i] == init[i];
      forall j | i < j < |front|
        ensures KeyOf(front[j]) != k
      {
        assert front[j] == init[j];
      }
      BuildLastWins(front, k, i);
    }
  }

  /** A parameter no mapping names keeps mapping to itself. */
  lemma BuildUnnamedIsIdentity<K>(init: seq<ParamMapping<K>>, k: K)
    requires Build(init).Ok?
    requires forall j :: 0 <= j < |init| ==> KeyOf(init[j]) != k
    ensures Map(Build(init).value, k) == Identity(k)
  {
    BuildKeys(init);
  }

  /** Lookup after writing an entry returns that entry. */
  lemma MapAfterStore<K>(m: ParamMap<K>, key: K, arg: ParamArg)
    ensures Map(Store(m, key, arg), key) == Lookup(Override(arg.mappedParam), arg.bufOutParam)
  {
  }

  /** Writing an entry leaves the lookup of every other parameter unchanged. */
  lemma StoreKeepsOtherKeys<K>(m: ParamMap<K>, key: K, arg: ParamArg, other: K)
    requires other != key
    ensures Map(Store(m, key, arg), other) == Map(m, other)
  {
  }

  /** Overwrite semantics: the size is unchanged for a present key and grows by one otherwise. */
  lemma StoreSize<K>(m: ParamMap<K>, key: K, arg: ParamArg)
    ensures Size(Store(m, key, arg)) == if key in m.mapping then Size(m) else Size(m) + 1
  {
    var r := Store(m, key, arg);
    if key in m.mapping {
      assert r.mapping.Keys == m.mapping.Keys;
    } else {
      assert r.mapping.Keys == m.mapping.Keys + {key};
    }
  }

  /** Last write wins: of two writes to the same parameter only the second is seen. */
  lemma StoreTwiceLastWins<K>(m: ParamMap<K>, key: K, first: ParamArg, second: ParamArg)
    ensures Store(Store(m, key, first), key, second) == Store(m, key, second)
  {
  }

  /** `set(p_orig, p_mapped)` followed by `map(p_orig)` yields `p_mapped` and a null pointer. */
  lemma SetMappedThenMap<K>(m: ParamMap<K>, orig: K, mapped: MappedParam)
    ensures Map(SetMapped(m, orig, mapped), orig) == Lookup(Override(mapped), NullPtr)
  {
  }

  /** `set(Param<T>, val)` then `map`: a scalar, non-buffer, zero-dimensional
      parameter with the original's type and name, holding `val`; null output. */
  lemma SetScalarThenMap<K>(m: ParamMap<K>, p: ScalarParam<K>, val: ScalarValue)
    ensures var r := Map(SetScalar(m, p, val), p.parameter);
      && r.param.Override?
      && r.param.param.ty == p.ty && r.param.param.name == p.name
      && !r.param.param.isBuffer && r.param.param.dims == 0
      && r.param.param.payload == ScalarPayload(val)
      && r.bufOutParam == NullPtr
  {
  }

  /** `set(ImageParam, buf, out)` then `map`: a buffer parameter with the image's
      type, dimensions and name, holding `buf`, reporting through `out`. */
  lemma SetImageThenMap<K>(m: ParamMap<K>, p: ImageParam<K>, buf: BufferRef, out: BufPtr)
    ensures var r := Map(SetImage(m, p, buf, out), p.parameter);
      && r.param.Override?
      && r.param.param.ty == p.ty && r.param.param.name == p.name
      && r.param.param.isBuffer && r.param.param.dims == p.dims
      && r.param.param.payload == BufferPayload(buf)
      && r.bufOutParam == out
  {
  }

  /** The public image `set` is the three-argument one with a null output pointer,
      so a later lookup reports no output. */
  lemma SetImageBufferHasNoOutput<K>(m: ParamMap<K>, p: ImageParam<K>, buf: BufferRef)
    ensures Map(SetImageBuffer(m, p, buf), p.parameter).bufOutParam == NullPtr
  {
  }
}
