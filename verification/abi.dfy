/** The frei0r 1.2 ABI vocabulary wrapped by f0r.py: the
    plugin-type, colour-model and parameter-type codes, the capability table
    of plugin types, and the names of the exported entry points. */
module Abi {
  import opened Wrappers

  /** The C `int` the ABI uses for every integer field. */
  type Int32 = x: int | -0x8000_0000 <= x < 0x8000_0000

  datatype PluginType = Filter | Source | Mixer2 | Mixer3
  datatype ColourModel = Bgra8888 | Rgba8888 | Packed32
  datatype ParamKind = BoolParam | DoubleParam | ColourParam | PositionParam | StringParam

  function PluginTypeCode(t: PluginType): (c: int)
    ensures 0 <= c < 4
  {
    match t
    case Filter => 0
    case Source => 1
    case Mixer2 => 2
    case Mixer3 => 3
  }

  /** `PLUGIN_TYPE(code)`: the enum constructor, which rejects unknown codes. */
  function PluginTypeOf(code: int): (r: Option<PluginType>)
    ensures r.Some? <==> 0 <= code < 4
    ensures r.Some? ==> PluginTypeCode(r.value) == code
  {
    if code == 0 then Some(Filter)
    else if code == 1 then Some(Source)
    else if code == 2 then Some(Mixer2)
    else if code == 3 then Some(Mixer3)
    else None
  }

  function ColourModelCode(m: ColourModel): (c: int)
    ensures 0 <= c < 3
  {
    match m
    case Bgra8888 => 0
    case Rgba8888 => 1
    case Packed32 => 2
  }

  function ColourModelOf(code: int): (r: Option<ColourModel>)
    ensures r.Some? <==> 0 <= code < 3
    ensures r.Some? ==> ColourModelCode(r.value) == code
  {
    if code == 0 then Some(Bgra8888)
    else if code == 1 then Some(Rgba8888)
    else if code == 2 then Some(Packed32)
    else None
  }

  function ParamKindCode(k: ParamKind): (c: int)
    ensures 0 <= c < 5
  {
    match k
    case BoolParam => 0
    case DoubleParam => 1
    case ColourParam => 2
    case PositionParam => 3
    case StringParam => 4
  }

  function ParamKindOf(code: int): (r: Option<ParamKind>)
    ensures r.Some? <==> 0 <= code < 5
    ensures r.Some? ==> ParamKindCode(r.value) == code
  {
    if code == 0 then Some(BoolParam)
    else if code == 1 then Some(DoubleParam)
    else if code == 2 then Some(ColourParam)
    else if code == 3 then Some(PositionParam)
    else if code == 4 then Some(StringParam)
    else None
  }

  /** Each enum is `@enum.unique`: decoding the code of a member gives that member back,
      so distinct members have distinct codes. */
  lemma CodesRoundTrip(t: PluginType, m: ColourModel, k: ParamKind)
    ensures PluginTypeOf(PluginTypeCode(t)) == Some(t)
    ensures ColourModelOf(ColourModelCode(m)) == Some(m)
    ensures ParamKindOf(ParamKindCode(k)) == Some(k)
  {
  }

  lemma CodesUnique(t1: PluginType, t2: PluginType, m1: ColourModel, m2: ColourModel,
                    k1: ParamKind, k2: ParamKind)
    ensures PluginTypeCode(t1) == PluginTypeCode(t2) ==> t1 == t2
    ensures ColourModelCode(m1) == ColourModelCode(m2) ==> m1 == m2
    ensures ParamKindCode(k1) == ParamKindCode(k2) ==> k1 == k2
  {
    CodesRoundTrip(t1, m1, k1);
    CodesRoundTrip(t2, m2, k2);
  }

  /** The `_has_update_methods` table: (has update, has update2) per plugin type. */
  function UpdateMethods(t: PluginType): (bool, bool)
  {
    match t
    case Filter => (true, false)
    case Source => (true, false)
    case Mixer2 => (false, true)
    case Mixer3 => (false, true)
  }

  function HasUpdate(t: PluginType): bool
  {
    UpdateMethods(t).0
  }

  function HasUpdate2(t: PluginType): bool
  {
    UpdateMethods(t).1
  }

  /** `has_update` holds exactly for the one-input kinds, `has_update2` exactly for
      the mixers, and every plugin type has exactly one of the two. */
  lemma CapabilityTable(t: PluginType)
    ensures HasUpdate(t) <==> (t == Filter || t == Source)
    ensures HasUpdate2(t) <==> (t == Mixer2 || t == Mixer3)
    ensures HasUpdate(t) != HasUpdate2(t)
  {
  }

  /** The exported entry points a plugin library may provide. */
  datatype Symbol =
    | InitSym | DeinitSym | GetPluginInfoSym | GetParamInfoSym | ConstructSym | DestructSym
    | SetParamValueSym | GetParamValueSym | UpdateSym | Update2Sym

  /** The entry points whose argument types `Plugin.__init__` binds, in the order it
      binds them; a missing one raises there. `f0r_deinit` is only looked up on teardown. */
  const BoundSymbols: seq<Symbol> :=
    [GetPluginInfoSym, GetParamInfoSym, ConstructSym, DestructSym, SetParamValueSym, GetParamValueSym]
}
