/** `Plugin` and `Plugin.Instance`: opening a library, the parameter table, constructing
    instances, parameter get/set, update/update2, and the two `__del__` teardowns, as a
    state machine over one plugin and the instances constructed from it. Every native
    call made is appended to a log, so the lifecycle rules are statements about the log. */
module Plugin {
  import opened Wrappers
  import opened Abi
  import opened Failures
  import opened Structs
  import opened ParamCodec
  import opened ParamTable
  import opened Dimensions

  /** A shared object as `ct.CDLL` sees it: the entry points it exports, what
      `f0r_get_plugin_info` fills in, and what `f0r_get_param_info` fills in per index. */
  datatype NativeLib = NativeLib(symbols: set<Symbol>, info: RawPluginInfo, paramInfo: int -> RawParamInfo)

  /** A frame argument after `_get_frame_arg`: a base address, or null. */
  type Frame = Option<nat>

  /** One call into the native library. Instances are named by their position in the
      world's instance list, so that calls on distinct instances stay distinct even if
      the native code reuses a pointer. */
  datatype NativeCall =
    | F0rInit
    | F0rDeinit
    | F0rGetPluginInfo
    | F0rGetParamInfo(index: int)
    | F0rConstruct(width: int, height: int)
    | F0rDestruct(instance: nat)
    | F0rGetParamValue(instance: nat, index: int)
    | F0rSetParamValue(instance: nat, index: int, cell: NativeCell)
    | F0rUpdate(instance: nat, time: real, input: Frame, output: Frame)
    | F0rUpdate2(instance: nat, time: real, input1: Frame, input2: Frame, input3: Frame, output: Frame)

  /** `Plugin.Instance`: its native pointer (None once destructed), its dimensions, and
      the parameter cells a well-behaved plugin keeps for it (the native side, stubbed). */
  datatype InstanceState = InstanceState(native: Option<nat>, width: int, height: int, store: map<int, NativeCell>)

  /** One `Plugin` and the instances constructed from it. `loaded` is `self._lib != None`;
      `params` is `self._params` (None until the table is touched); `narrow` is the
      platform's float-to-`c_float` conversion used for colour channels. */
  datatype World = World(
    lib: NativeLib,
    loaded: bool,
    info: PluginInfo,
    params: Option<Table>,
    instances: seq<InstanceState>,
    log: seq<NativeCall>,
    narrow: real -> real)

  // ---------------------------------------------------------------- Plugin.__init__

  /** The first entry point in `BoundSymbols` the library lacks, if any. */
  function FirstMissing(symbols: set<Symbol>, wanted: seq<Symbol>): (r: Option<Symbol>)
    ensures r.None? <==> forall i :: 0 <= i < |wanted| ==> wanted[i] in symbols
    ensures r.Some? ==> r.value !in symbols && r.value in wanted
    ensures r.Some? ==> exists i :: 0 <= i < |wanted| && wanted[i] == r.value
                                    && forall j :: 0 <= j < i ==> wanted[j] in symbols
  {
    if wanted == [] then None
    else if wanted[0] !in symbols then Some(wanted[0])
    else
      var r := FirstMissing(symbols, wanted[1..]);
      assert r.Some? ==> exists i :: 1 <= i < |wanted| && wanted[i] == r.value
                                     && forall j :: 0 <= j < i ==> wanted[j] in symbols by {
        if r.Some? {
          var i :| 0 <= i < |wanted[1..]| && wanted[1..][i] == r.value
                   && forall j :: 0 <= j < i ==> wanted[1..][j] in symbols;
          assert wanted[i + 1] == r.value;
          forall j | 0 <= j < i + 1 ensures wanted[j] in symbols {
            if j > 0 { assert wanted[j] == wanted[1..][j - 1]; }
          }
        }
      }
      r
  }

  /** What `__del__` does to a half-initialised plugin whose `_lib` is already set. */
  function Teardown(lib: NativeLib): seq<NativeCall>
  {
    if DeinitSym in lib.symbols then [F0rDeinit] else []
  }

  datatype Opened = Opened(result: Result<World, Error>, log: seq<NativeCall>)

  /** `Plugin(libname)`. `load` is what `ct.CDLL(libname)` yields (None if it raises).
      `f0r_init` is called as soon as it is found; an exception after `_lib` has been set
      still runs `__del__`, which calls `f0r_deinit`. */
  function Open(path: string, load: Option<NativeLib>, narrow: real -> real): (r: Opened)
    ensures r.result.Success? <==>
              load.Some? && InitSym in load.value.symbols
              && (forall i :: 0 <= i < |BoundSymbols| ==> BoundSymbols[i] in load.value.symbols)
              && PluginInfoDecodable(load.value.info)
    ensures load.None? ==> r == Opened(Failure(LoadFailed(path)), [])
    ensures load.Some? && InitSym !in load.value.symbols ==> r == Opened(Failure(MissingSymbol(InitSym)), [])
    ensures load.Some? && InitSym in load.value.symbols && FirstMissing(load.value.symbols, BoundSymbols).Some? ==>
              r == Opened(Failure(MissingSymbol(FirstMissing(load.value.symbols, BoundSymbols).value)),
                          [F0rInit] + Teardown(load.value))
    ensures load.Some? && InitSym in load.value.symbols && FirstMissing(load.value.symbols, BoundSymbols).None?
            && DecodePluginInfo(load.value.info).Failure? ==>
              r == Opened(Failure(DecodePluginInfo(load.value.info).error),
                          [F0rInit, F0rGetPluginInfo] + Teardown(load.value))
    ensures r.result.Success? ==>
              r.log == [F0rInit, F0rGetPluginInfo] && r.result.value.log == r.log
              && r.result.value.lib == load.value && r.result.value.narrow == narrow
              && r.result.value.loaded && r.result.value.params.None? && r.result.value.instances == []
              && Success(r.result.value.info) == DecodePluginInfo(load.value.info)
    ensures r.result.Failure? && r.log != [] ==>
              r.log[0] == F0rInit && multiset(r.log)[F0rDeinit] <= 1
              && (F0rDeinit in r.log <==> DeinitSym in load.value.symbols)
  {
    match load
    case None => Opened(Failure(LoadFailed(path)), [])
    case Some(lib) => OpenLoaded(lib, narrow)
  }

  /** `Plugin(libname)` once `ct.CDLL` has loaded `lib`. */
  function OpenLoaded(lib: NativeLib, narrow: real -> real): (r: Opened)
    ensures r.result.Success? <==>
              InitSym in lib.symbols
              && (forall i :: 0 <= i < |BoundSymbols| ==> BoundSymbols[i] in lib.symbols)
              && PluginInfoDecodable(lib.info)
    ensures InitSym !in lib.symbols ==> r == Opened(Failure(MissingSymbol(InitSym)), [])
    ensures InitSym in lib.symbols && FirstMissing(lib.symbols, BoundSymbols).Some? ==>
              r == Opened(Failure(MissingSymbol(FirstMissing(lib.symbols, BoundSymbols).value)),
                          [F0rInit] + Teardown(lib))
    ensures InitSym in lib.symbols && FirstMissing(lib.symbols, BoundSymbols).None?
            && DecodePluginInfo(lib.info).Failure? ==>
              r == Opened(Failure(DecodePluginInfo(lib.info).error), [F0rInit, F0rGetPluginInfo] + Teardown(lib))
    ensures r.result.Success? ==>
              r.log == [F0rInit, F0rGetPluginInfo]
              && r.result.value == World(lib, true, DecodePluginInfo(lib.info).value, None, [], r.log, narrow)
    ensures r.result.Failure? && r.log != [] ==>
              r.log[0] == F0rInit && multiset(r.log)[F0rDeinit] <= 1
              && (F0rDeinit in r.log <==> DeinitSym in lib.symbols)
  {
    if InitSym !in lib.symbols then Opened(Failure(MissingSymbol(InitSym)), [])
    else
      match FirstMissing(lib.symbols, BoundSymbols)
      case Some(s) => Opened(Failure(MissingSymbol(s)), [F0rInit] + Teardown(lib))
      case None =>
        var log := [F0rInit, F0rGetPluginInfo];
        match DecodePluginInfo(lib.info)
        case Failure(e) => Opened(Failure(e), log + Teardown(lib))
        case Success(info) => Opened(Success(World(lib, true, info, None, [], log, narrow)), log)
  }

  // ---------------------------------------------------------------- lifecycle invariant

  /** The lifecycle rules, as facts about the native call log:
      the required entry points exist; `f0r_deinit` was called once if the plugin let go
      of its library and never otherwise; each instance was destructed once if its pointer
      is cleared and never otherwise; no destruct follows the deinit. */
  predicate Lifecycle(w: World)
  {
    && (forall i :: 0 <= i < |BoundSymbols| ==> BoundSymbols[i] in w.lib.symbols)
    && multiset(w.log)[F0rDeinit] == (if w.loaded then 0 else 1)
    && (forall k :: 0 <= k < |w.instances| ==>
          multiset(w.log)[F0rDestruct(k)] == (if w.instances[k].native.None? then 1 else 0))
    && (forall i :: 0 <= i < |w.log| && w.log[i].F0rDestruct? ==> w.log[i].instance < |w.instances|)
    && (forall i, j :: 0 <= i < j < |w.log| && w.log[i] == F0rDeinit ==> !w.log[j].F0rDestruct?)
  }

  /** A freshly opened plugin satisfies the lifecycle rules. */
  lemma OpenEstablishesLifecycle(path: string, load: Option<NativeLib>, narrow: real -> real)
    requires Open(path, load, narrow).result.Success?
    ensures Lifecycle(Open(path, load, narrow).result.value)
  {
    var r := Open(path, load, narrow);
    assert r.result.value.lib == load.value;
    FreshLifecycle(r.result.value);
  }

  lemma FreshLifecycle(w: World)
    requires w.log == [F0rInit, F0rGetPluginInfo] && w.instances == [] && w.loaded
    requires forall i :: 0 <= i < |BoundSymbols| ==> BoundSymbols[i] in w.lib.symbols
    ensures Lifecycle(w)
  {
    assert multiset(w.log) == multiset{F0rInit, F0rGetPluginInfo};
    assert forall i :: 0 <= i < |w.log| ==> !w.log[i].F0rDestruct?;
  }

  // ---------------------------------------------------------------- events and outcomes

  /** Something the host does to the plugin or one of its instances. */
  datatype Event =
    | DelPlugin                                             // Plugin.__del__
    | DelInstance(k: nat)                                   // Instance.__del__
    | TouchParams                                           // reading Plugin.params
    | ConstructInstance(width: int, height: int, native: Option<nat>)
                                                            // Plugin.construct; `native` is what f0r_construct returns
    | GetItem(k: nat, id: ParamId)                          // Instance.__getitem__
    | SetItem(k: nat, id: ParamId, value: HostValue)        // Instance.__setitem__
    | UpdateFrame(k: nat, time: real, input: Frame, output: Frame)
    | Update2Frames(k: nat, time: real, input1: Frame, input2: Frame, input3: Frame, output: Frame)

  datatype Outcome =
    | Done
    | NoSuchInstance
    | Raised(error: Error)
    | ParamsReady(byName: map<string, ParamInfo>)
    | Constructed(k: nat)
    | Value(v: HostValue)

  datatype Stepped = Stepped(world: World, outcome: Outcome)

  // ---------------------------------------------------------------- parameter access

  /** What a well-behaved plugin answers to `f0r_get_param_value` for a parameter of
      type `kind`: the cell last set at that index, or the zeroed cell it was handed. */
  function NativeRead(store: map<int, NativeCell>, kind: ParamKind, index: int): (c: NativeCell)
    ensures CellFits(kind, c)
  {
    if index in store && CellFits(kind, store[index]) then store[index] else ZeroCell(kind)
  }

  /** What a parameter that was never set reads as, from the zeroed cell: false, 0.0,
      black with alpha 1, the origin, and for text the null pointer `.decode()` rejects. */
  function NeverSet(kind: ParamKind): Result<HostValue, Error>
  {
    match kind
    case BoolParam => Success(BoolValue(false))
    case DoubleParam => Success(RealValue(0.0))
    case ColourParam => Success(ColourValue(Colour(0.0, 0.0, 0.0, 1.0)))
    case PositionParam => Success(VectorValue(Vector(0.0, 0.0)))
    case StringParam => Failure(NullString)
  }

  datatype ParamRead = ParamRead(queried: Option<int>, result: Result<HostValue, Error>)

  /** `Instance.__getitem__` against a primed table: resolve, fetch into a zeroed cell, decode. */
  function GetParam(t: Table, store: map<int, NativeCell>, id: ParamId): (r: ParamRead)
    ensures Resolve(t, id).Failure? ==> r == ParamRead(None, Failure(UnknownParameter))
    ensures Resolve(t, id).Success? ==> r.queried == Some(Resolve(t, id).value.index)
    ensures r.result.Success? ==> HasKind(Resolve(t, id).value.kind, r.result.value)
    ensures Resolve(t, id).Success? ==>
              r.result == FromF0r(Resolve(t, id).value.kind, NativeRead(store, Resolve(t, id).value.kind, Resolve(t, id).value.index))
    ensures Resolve(t, id).Success? && r.result.Failure? ==>
              r.result.error == NullString && Resolve(t, id).value.kind == StringParam
    ensures Resolve(t, id).Success? && Resolve(t, id).value.index !in store ==>
              r.result == NeverSet(Resolve(t, id).value.kind)
  {
    match Resolve(t, id)
    case Failure(e) => ParamRead(None, Failure(e))
    case Success(p) => ParamRead(Some(p.index), FromF0r(p.kind, NativeRead(store, p.kind, p.index)))
  }

  datatype ParamWrite = ParamWrite(store: map<int, NativeCell>, sent: Option<(int, NativeCell)>, error: Option<Error>)

  /** `Instance.__setitem__` against a primed table: resolve, encode (which may refuse
      the value before any native call), then `f0r_set_param_value`. */
  function SetParam(t: Table, store: map<int, NativeCell>, id: ParamId, v: HostValue, narrow: real -> real): (r: ParamWrite)
    ensures Resolve(t, id).Failure? ==> r == ParamWrite(store, None, Some(UnknownParameter))
    ensures Resolve(t, id).Success? && !Accepts(Resolve(t, id).value.kind, v) ==>
              r == ParamWrite(store, None, Some(TypeMismatch))
    ensures r.error.None? <==> Resolve(t, id).Success? && Accepts(Resolve(t, id).value.kind, v)
    ensures r.error.None? ==>
              && r.sent.Some? && r.sent.value.0 == Resolve(t, id).value.index
              && r.store == store[r.sent.value.0 := r.sent.value.1]
              && Success(r.sent.value.1) == ToF0r(Resolve(t, id).value.kind, v, narrow)
  {
    match Resolve(t, id)
    case Failure(e) => ParamWrite(store, None, Some(e))
    case Success(p) =>
      match ToF0r(p.kind, v, narrow)
      case Failure(e) => ParamWrite(store, None, Some(e))
      case Success(cell) => ParamWrite(store[p.index := cell], Some((p.index, cell)), None)
  }

  /** Setting a parameter and reading it back gives `ReadBack`: the bool threshold,
      the double and position copies, the narrowed colour with alpha 1, the same text. */
  lemma SetThenGet(t: Table, store: map<int, NativeCell>, id: ParamId, v: HostValue, narrow: real -> real)
    requires SetParam(t, store, id, v, narrow).error.None?
    ensures GetParam(t, SetParam(t, store, id, v, narrow).store, id).result
              == Success(ReadBack(Resolve(t, id).value.kind, v, narrow))
  {
    var p := Resolve(t, id).value;
    RoundTrip(p.kind, v, narrow);
  }

  /** Setting one parameter leaves what every other parameter reads back unchanged. */
  lemma SetLeavesOthers(t: Table, store: map<int, NativeCell>, id: ParamId, v: HostValue, narrow: real -> real,
                        other: ParamId)
    requires SetParam(t, store, id, v, narrow).error.None?
    requires Resolve(t, other).Success? && Resolve(t, other).value.index != Resolve(t, id).value.index
    ensures GetParam(t, SetParam(t, store, id, v, narrow).store, other) == GetParam(t, store, other)
  {
  }

  /** With unique names, reading a parameter by name and by its index is the same call
      with the same result. */
  lemma GetByNameOrIndex(t: Table, store: map<int, NativeCell>, i: int)
    requires WellFormed(t) && UniqueNames(t) && 0 <= i < |t.list|
    ensures GetParam(t, store, ByName(t.list[i].name)) == GetParam(t, store, ByIndex(i))
    ensures GetParam(t, store, ByIndex(i)).queried == Some(i)
  {
    ResolveAgrees(t, i);
  }

  // ---------------------------------------------------------------- construct

  /** `Plugin.construct` as intended: dimensions are checked before any native call; a
      null instance from `f0r_construct` is a `NativeFailure`. */
  function Construct(w: World, width: int, height: int, native: Option<nat>): (s: Stepped)
    ensures !DimensionsOk(width, height) ==> s == Stepped(w, Raised(InvalidDimensions))
    ensures DimensionsOk(width, height) && !w.loaded ==> s == Stepped(w, Raised(NoLibrary))
    ensures s.outcome.Constructed? <==> DimensionsOk(width, height) && w.loaded && native.Some?
    ensures s.outcome.Constructed? ==>
              s == Stepped(w.(log := w.log + [F0rConstruct(width, height)],
                              instances := w.instances + [InstanceState(native, width, height, map[])]),
                           Constructed(|w.instances|))
    ensures DimensionsOk(width, height) && w.loaded && native.None? ==>
              s == Stepped(w.(log := w.log + [F0rConstruct(width, height)]), Raised(NativeFailure))
  {
    match CheckDimensionsOk(width, height)
    case Failure(e) => Stepped(w, Raised(e))
    case Success(dims) =>
      if !w.loaded then Stepped(w, Raised(NoLibrary))
      else
        var log := w.log + [F0rConstruct(dims.0, dims.1)];
        match native
        case None => Stepped(w.(log := log), Raised(NativeFailure))
        case Some(h) =>
          Stepped(w.(log := log, instances := w.instances + [InstanceState(native, dims.0, dims.1, map[])]),
                  Constructed(|w.instances|))
  }

  /** `Plugin.construct` as written: the error message reads `self._parent.info.name`, and a
      `Plugin` has no `_parent`, so a null instance raises AttributeError instead. */
  function ConstructAsWritten(w: World, width: int, height: int, native: Option<nat>): (s: Stepped)
    ensures s.world == Construct(w, width, height, native).world
    ensures Construct(w, width, height, native).outcome != Raised(NativeFailure) ==>
              s.outcome == Construct(w, width, height, native).outcome
  {
    var s := Construct(w, width, height, native);
    if s.outcome == Raised(NativeFailure) then Stepped(s.world, Raised(MissingAttribute("_parent"))) else s
  }

  /** The discrepancy: for valid dimensions and a null native instance, the code as written
      reports a missing attribute rather than the construction failure it was meant to. */
  lemma ConstructNullInstanceDiffers(w: World, width: int, height: int)
    requires DimensionsOk(width, height) && w.loaded
    ensures ConstructAsWritten(w, width, height, None).outcome == Raised(MissingAttribute("_parent"))
    ensures Construct(w, width, height, None).outcome == Raised(NativeFailure)
  {
  }

  // ---------------------------------------------------------------- update / update2

  /** `Instance.update`: refused with NotImplementedError, and no native call, unless the
      plugin's library is still held and exports `f0r_update`; otherwise exactly one call
      with the frames passed through. */
  function Update(w: World, k: nat, time: real, input: Frame, output: Frame): (s: Stepped)
    ensures s.outcome == Raised(NotImplemented) <==> !(w.loaded && UpdateSym in w.lib.symbols)
    ensures s.outcome == Raised(NotImplemented) ==> s.world == w
    ensures s.outcome != Raised(NotImplemented) ==>
              s == Stepped(w.(log := w.log + [F0rUpdate(k, time, input, output)]), Done)
  {
    if !w.loaded || UpdateSym !in w.lib.symbols then Stepped(w, Raised(NotImplemented))
    else Stepped(w.(log := w.log + [F0rUpdate(k, time, input, output)]), Done)
  }

  /** `Instance.update2`: the same gate on `f0r_update2`. There is no fallback to
      `f0r_update`: a library exporting only `f0r_update` refuses `update2`. */
  function Update2(w: World, k: nat, time: real, input1: Frame, input2: Frame, input3: Frame, output: Frame): (s: Stepped)
    ensures s.outcome == Raised(NotImplemented) <==> !(w.loaded && Update2Sym in w.lib.symbols)
    ensures s.outcome == Raised(NotImplemented) ==> s.world == w
    ensures s.outcome != Raised(NotImplemented) ==>
              s == Stepped(w.(log := w.log + [F0rUpdate2(k, time, input1, input2, input3, output)]), Done)
  {
    if !w.loaded || Update2Sym !in w.lib.symbols then Stepped(w, Raised(NotImplemented))
    else Stepped(w.(log := w.log + [F0rUpdate2(k, time, input1, input2, input3, output)]), Done)
  }

  // ---------------------------------------------------------------- the step function

  function QueryCalls(queried: seq<int>): (calls: seq<NativeCall>)
    ensures |calls| == |queried|
    ensures forall i :: 0 <= i < |calls| ==> calls[i] == F0rGetParamInfo(queried[i])
  {
    seq(|queried|, i requires 0 <= i < |queried| => F0rGetParamInfo(queried[i]))
  }

  /** The effect of one event. Events naming an instance that was never constructed leave
      everything unchanged (such an object cannot exist in the program). `Plugin.__del__`
      deinits a library it still holds; `Instance.__del__` destructs a live instance while
      its plugin still holds the library. A `__del__` that does neither changes nothing. */
  function Step(w: World, ev: Event): (s: Stepped)
    ensures ev == DelPlugin && w.loaded && DeinitSym in w.lib.symbols ==>
              s == Stepped(w.(loaded := false, log := w.log + [F0rDeinit]), Done)
    ensures ev == DelPlugin && !(w.loaded && DeinitSym in w.lib.symbols) ==> s.world == w
    ensures ev.DelInstance? && ev.k < |w.instances| && w.loaded && w.instances[ev.k].native.Some? ==>
              s == Stepped(w.(instances := w.instances[ev.k := w.instances[ev.k].(native := None)],
                              log := w.log + [F0rDestruct(ev.k)]), Done)
    ensures ev.DelInstance? && !(ev.k < |w.instances| && w.loaded && w.instances[ev.k].native.Some?) ==>
              s.world == w
    ensures ev == TouchParams ==>
              && s.world.instances == w.instances && s.world.lib == w.lib && s.world.loaded == w.loaded
              && s.world.info == w.info && s.world.params.Some?
              && |w.log| <= |s.world.log| && s.world.log[..|w.log|] == w.log
    ensures ev == TouchParams && w.params.Some? ==> s == Stepped(w, ParamsReady(w.params.value.byName))
    ensures ev.GetItem? && ev.k < |w.instances| && w.params.Some? && Resolve(w.params.value, ev.id).Failure? ==>
              s == Stepped(w, Raised(UnknownParameter))
    ensures ev.GetItem? && ev.k < |w.instances| && w.params.Some? && Resolve(w.params.value, ev.id).Success? ==>
              s.world == w.(log := w.log + [F0rGetParamValue(ev.k, Resolve(w.params.value, ev.id).value.index)])
    ensures ev.SetItem? && ev.k < |w.instances| && w.params.Some?
            && !(Resolve(w.params.value, ev.id).Success? && Accepts(Resolve(w.params.value, ev.id).value.kind, ev.value)) ==>
              s.world == w && s.outcome.Raised?
    ensures ev.SetItem? && ev.k < |w.instances| && w.params.Some?
            && Resolve(w.params.value, ev.id).Success? && Accepts(Resolve(w.params.value, ev.id).value.kind, ev.value) ==>
              var p := Resolve(w.params.value, ev.id).value;
              var c := ToF0r(p.kind, ev.value, w.narrow).value;
              s == Stepped(w.(instances := w.instances[ev.k := w.instances[ev.k].(store := w.instances[ev.k].store[p.index := c])],
                              log := w.log + [F0rSetParamValue(ev.k, p.index, c)]), Done)
  {
    match ev
    case DelPlugin =>
      if w.loaded && DeinitSym in w.lib.symbols then Stepped(w.(loaded := false, log := w.log + [F0rDeinit]), Done)
      else Stepped(w, Done)
    case DelInstance(k) =>
      if k >= |w.instances| then Stepped(w, NoSuchInstance)
      else if w.loaded && w.instances[k].native.Some? then
        Stepped(w.(instances := w.instances[k := w.instances[k].(native := None)], log := w.log + [F0rDestruct(k)]), Done)
      else Stepped(w, Done)
    case TouchParams =>
      var b := Params(w.params, w.info.numParams, w.loaded, w.lib.paramInfo);
      var w' := w.(params := Some(b.table), log := w.log + QueryCalls(b.queried));
      Stepped(w', if b.error.Some? then Raised(b.error.value) else ParamsReady(b.table.byName))
    case ConstructInstance(width, height, native) =>
      Construct(w, width, height, native)
    case GetItem(k, id) =>
      if k >= |w.instances| then Stepped(w, NoSuchInstance)
      else if w.params.None? then Stepped(w, Raised(ParamsNotPrimed))
      else
        var r := GetParam(w.params.value, w.instances[k].store, id);
        var log := if r.queried.Some? then w.log + [F0rGetParamValue(k, r.queried.value)] else w.log;
        Stepped(w.(log := log), if r.result.Success? then Value(r.result.value) else Raised(r.result.error))
    case SetItem(k, id, v) =>
      if k >= |w.instances| then Stepped(w, NoSuchInstance)
      else if w.params.None? then Stepped(w, Raised(ParamsNotPrimed))
      else
        var r := SetParam(w.params.value, w.instances[k].store, id, v, w.narrow);
        if r.error.Some? then Stepped(w, Raised(r.error.value))
        else
          var sent := r.sent.value;
          Stepped(w.(instances := w.instances[k := w.instances[k].(store := r.store)],
                     log := w.log + [F0rSetParamValue(k, sent.0, sent.1)]), Done)
    case UpdateFrame(k, time, input, output) =>
      if k >= |w.instances| then Stepped(w, NoSuchInstance)
      else Update(w, k, time, input, output)
    case Update2Frames(k, time, input1, input2, input3, output) =>
      if k >= |w.instances| then Stepped(w, NoSuchInstance)
      else Update2(w, k, time, input1, input2, input3, output)
  }

  /** Events run one after another. */
  function Run(w: World, events: seq<Event>): World
    decreases |events|
  {
    if events == [] then w else Run(Step(w, events[0]).world, events[1..])
  }

  // ---------------------------------------------------------------- lifecycle proofs

  /** A call that is neither a deinit nor a destruct. */
  predicate Quiet(c: NativeCall)
  {
    c != F0rDeinit && !c.F0rDestruct?
  }

  /** Appending quiet calls, without touching the library or any instance pointer,
      keeps the lifecycle rules. */
  lemma QuietStep(w: World, w': World, extra: seq<NativeCall>)
    requires Lifecycle(w)
    requires w'.lib == w.lib && w'.loaded == w.loaded && w'.log == w.log + extra
    requires |w'.instances| == |w.instances|
    requires forall k :: 0 <= k < |w.instances| ==> w'.instances[k].native == w.instances[k].native
    requires forall i :: 0 <= i < |extra| ==> Quiet(extra[i])
    ensures Lifecycle(w')
  {
    assert multiset(w'.log) == multiset(w.log) + multiset(extra);
    assert F0rDeinit !in multiset(extra);
    forall k | 0 <= k < |w'.instances|
      ensures multiset(w'.log)[F0rDestruct(k)] == (if w'.instances[k].native.None? then 1 else 0)
    {
      assert F0rDestruct(k) !in multiset(extra);
    }
    forall i | 0 <= i < |w'.log|
      ensures w'.log[i] == (if i < |w.log| then w.log[i] else extra[i - |w.log|])
    {
    }
  }

  /** `Plugin.__del__` keeps the lifecycle rules. */
  lemma DelPluginStep(w: World)
    requires Lifecycle(w)
    ensures Lifecycle(Step(w, DelPlugin).world)
  {
    var w' := Step(w, DelPlugin).world;
    if w.loaded && DeinitSym in w.lib.symbols {
      assert w'.log == w.log + [F0rDeinit];
      assert multiset(w'.log) == multiset(w.log) + multiset{F0rDeinit};
      assert F0rDeinit !in w.log by {
        assert F0rDeinit !in multiset(w.log);
      }
      forall i | 0 <= i < |w'.log|
        ensures w'.log[i] == (if i < |w.log| then w.log[i] else F0rDeinit)
      {
      }
    }
  }

  /** `Instance.__del__` keeps the lifecycle rules: the destruct happens only while the
      plugin still holds its library, and at most once per instance. */
  lemma DelInstanceStep(w: World, k: nat)
    requires Lifecycle(w)
    ensures Lifecycle(Step(w, DelInstance(k)).world)
  {
    var w' := Step(w, DelInstance(k)).world;
    if k < |w.instances| && w.loaded && w.instances[k].native.Some? {
      assert w'.log == w.log + [F0rDestruct(k)];
      assert multiset(w'.log) == multiset(w.log) + multiset{F0rDestruct(k)};
      forall m | 0 <= m < |w'.instances|
        ensures multiset(w'.log)[F0rDestruct(m)] == (if w'.instances[m].native.None? then 1 else 0)
      {
        if m != k {
          assert w'.instances[m] == w.instances[m];
        }
      }
      assert F0rDeinit !in w.log by {
        assert F0rDeinit !in multiset(w.log);
      }
      forall i | 0 <= i < |w'.log|
        ensures w'.log[i] == (if i < |w.log| then w.log[i] else F0rDestruct(k))
      {
      }
    }
  }

  lemma TouchParamsStep(w: World)
    requires Lifecycle(w)
    ensures Lifecycle(Step(w, TouchParams).world)
  {
    var b := Params(w.params, w.info.numParams, w.loaded, w.lib.paramInfo);
    var w' := w.(params := Some(b.table), log := w.log + QueryCalls(b.queried));
    assert Step(w, TouchParams).world == w';
    QuietStep(w, w', QueryCalls(b.queried));
  }

  lemma ConstructStep(w: World, width: int, height: int, native: Option<nat>)
    requires Lifecycle(w)
    ensures Lifecycle(Step(w, ConstructInstance(width, height, native)).world)
  {
    var w' := Construct(w, width, height, native).world;
    if native.Some? && DimensionsOk(width, height) && w.loaded {
      NewInstanceStep(w, F0rConstruct(width, height), InstanceState(native, width, height, map[]));
    } else {
      var extra := if DimensionsOk(width, height) && w.loaded then [F0rConstruct(width, height)] else [];
      assert w'.log == w.log + extra;
      QuietStep(w, w', extra);
    }
  }

  /** A new live instance, with its construct call logged, keeps the lifecycle rules:
      nothing has destructed an instance at the new index yet. */
  lemma NewInstanceStep(w: World, call: NativeCall, inst: InstanceState)
    requires Lifecycle(w) && Quiet(call) && inst.native.Some?
    ensures Lifecycle(w.(instances := w.instances + [inst], log := w.log + [call]))
  {
    var n := |w.instances|;
    var w' := w.(instances := w.instances + [inst], log := w.log + [call]);
    var v := w'.(instances := w.instances);
    QuietStep(w, v, [call]);
    assert F0rDestruct(n) !in multiset(w.log) by {
      forall i | 0 <= i < |w.log| ensures w.log[i] != F0rDestruct(n) {
      }
    }
    assert multiset(w'.log) == multiset(w.log) + multiset{call};
    forall k | 0 <= k < |w'.instances|
      ensures multiset(w'.log)[F0rDestruct(k)] == (if w'.instances[k].native.None? then 1 else 0)
    {
      if k < n {
        assert w'.instances[k] == w.instances[k];
      }
    }
    forall i | 0 <= i < |w'.log| && w'.log[i].F0rDestruct?
      ensures w'.log[i].instance < |w'.instances|
    {
      assert i < |w.log| && w'.log[i] == w.log[i];
    }
  }

  lemma GetItemStep(w: World, k: nat, id: ParamId)
    requires Lifecycle(w)
    ensures Lifecycle(Step(w, GetItem(k, id)).world)
  {
    var w' := Step(w, GetItem(k, id)).world;
    if k < |w.instances| && w.params.Some? {
      var r := GetParam(w.params.value, w.instances[k].store, id);
      var extra := if r.queried.Some? then [F0rGetParamValue(k, r.queried.value)] else [];
      assert w'.log == w.log + extra;
      QuietStep(w, w', extra);
    } else {
      QuietStep(w, w', []);
    }
  }

  lemma SetItemStep(w: World, k: nat, id: ParamId, v: HostValue)
    requires Lifecycle(w)
    ensures Lifecycle(Step(w, SetItem(k, id, v)).world)
  {
    var w' := Step(w, SetItem(k, id, v)).world;
    if k < |w.instances| && w.params.Some? {
      var r := SetParam(w.params.value, w.instances[k].store, id, v, w.narrow);
      if r.error.None? {
        var extra := [F0rSetParamValue(k, r.sent.value.0, r.sent.value.1)];
        assert w'.log == w.log + extra;
        QuietStep(w, w', extra);
      } else {
        QuietStep(w, w', []);
      }
    } else {
      QuietStep(w, w', []);
    }
  }

  lemma UpdateStep(w: World, ev: Event)
    requires Lifecycle(w)
    requires ev.UpdateFrame? || ev.Update2Frames?
    ensures Lifecycle(Step(w, ev).world)
  {
    var w' := Step(w, ev).world;
    var extra := w'.log[|w.log|..];
    assert w'.log == w.log + extra;
    QuietStep(w, w', extra);
  }

  /** Every event keeps the lifecycle rules. */
  lemma StepKeepsLifecycle(w: World, ev: Event)
    requires Lifecycle(w)
    ensures Lifecycle(Step(w, ev).world)
  {
    match ev
    case DelPlugin => DelPluginStep(w);
    case DelInstance(k) => DelInstanceStep(w, k);
    case TouchParams => TouchParamsStep(w);
    case ConstructInstance(width, height, native) => ConstructStep(w, width, height, native);
    case GetItem(k, id) => GetItemStep(w, k, id);
    case SetItem(k, id, v) => SetItemStep(w, k, id, v);
    case _ => UpdateStep(w, ev);
  }

  /** Any sequence of events keeps the lifecycle rules. */
  lemma {:induction false} RunKeepsLifecycle(w: World, events: seq<Event>)
    requires Lifecycle(w)
    ensures Lifecycle(Run(w, events))
    decreases |events|
  {
    if events != [] {
      StepKeepsLifecycle(w, events[0]);
      RunKeepsLifecycle(Step(w, events[0]).world, events[1..]);
    }
  }

  /** The lifecycle guarantees, whatever the host does: `f0r_deinit` at most once,
      `f0r_destruct` at most once per instance, and never a destruct after the deinit. */
  lemma LifecycleGuarantees(w0: World, events: seq<Event>)
    requires Lifecycle(w0)
    ensures var w := Run(w0, events);
            && multiset(w.log)[F0rDeinit] <= 1
            && (forall k :: 0 <= k < |w.instances| ==> multiset(w.log)[F0rDestruct(k)] <= 1)
            && (forall i, j :: 0 <= i < j < |w.log| && w.log[i] == F0rDeinit ==> !w.log[j].F0rDestruct?)
  {
    RunKeepsLifecycle(w0, events);
  }

  // ---------------------------------------------------------------- parameter table in the world

  /** A primed table was built by `Plugin.params`, so it is well formed. */
  predicate TableReady(w: World)
  {
    w.params.Some? ==> WellFormed(w.params.value)
  }

  lemma {:induction false} RunKeepsTableReady(w: World, events: seq<Event>)
    requires TableReady(w)
    ensures TableReady(Run(w, events))
    decreases |events|
  {
    if events != [] {
      var s := Step(w, events[0]);
      assert TableReady(s.world);
      RunKeepsTableReady(s.world, events[1..]);
    }
  }

  /** Touching `Plugin.params` a second time makes no native call and answers with the
      by-name dict the first touch left behind. */
  lemma TouchParamsTwice(w: World)
    ensures var w1 := Step(w, TouchParams).world;
            var s2 := Step(w1, TouchParams);
            s2.world == w1 && s2.outcome == ParamsReady(w1.params.value.byName)
  {
    var w1 := Step(w, TouchParams).world;
    assert QueryCalls([]) == [];
    assert w1.log + [] == w1.log;
  }

  /** The first touch of an unprimed table, while the library is held, queries
      `f0r_get_param_info` for 0, 1, 2, ... in that order and nothing else. It succeeds
      exactly when all num_params answers decode, after num_params queries; otherwise it
      raises the error of the first answer that does not decode, after querying it last. */
  lemma TouchParamsQueriesAscending(w: World)
    requires w.params.None? && w.loaded
    ensures var s := Step(w, TouchParams);
            var n := |s.world.params.value.list|;
            var m := if s.outcome.Raised? then n + 1 else n;
            && (s.outcome.ParamsReady? || s.outcome.Raised?)
            && (s.outcome.ParamsReady? <==> AllParamsDecode(DeclaredCount(w.info.numParams), w.lib.paramInfo))
            && (s.outcome.ParamsReady? ==> n == DeclaredCount(w.info.numParams))
            && (s.outcome.Raised? ==>
                  n < DeclaredCount(w.info.numParams)
                  && DecodeParamInfo(w.lib.paramInfo(n), n) == Failure(s.outcome.error))
            && |s.world.log| == |w.log| + m && s.world.log[..|w.log|] == w.log
            && (forall i :: 0 <= i < m ==> s.world.log[|w.log| + i] == F0rGetParamInfo(i))
            && (forall i :: 0 <= i < n ==> DecodeParamInfo(w.lib.paramInfo(i), i) == Success(s.world.params.value.list[i]))
            && s.world.instances == w.instances && s.world.loaded == w.loaded
  {
    var b := Params(w.params, w.info.numParams, w.loaded, w.lib.paramInfo);
    var s := Step(w, TouchParams);
    assert s.world.params.value == b.table;
    assert s.world.log == w.log + QueryCalls(b.queried);
    forall i | 0 <= i < |b.queried|
      ensures s.world.log[|w.log| + i] == F0rGetParamInfo(i)
    {
      assert s.world.log[|w.log| + i] == QueryCalls(b.queried)[i];
    }
  }

  /** With unique parameter names, `inst[name]` and `inst[index]` make the same native
      call and return the same value. */
  lemma GetItemByNameOrIndex(w: World, k: nat, i: int)
    requires TableReady(w) && w.params.Some? && UniqueNames(w.params.value)
    requires k < |w.instances| && 0 <= i < |w.params.value.list|
    ensures Step(w, GetItem(k, ByName(w.params.value.list[i].name))) == Step(w, GetItem(k, ByIndex(i)))
  {
    GetByNameOrIndex(w.params.value, w.instances[k].store, i);
  }

  /** `inst[id] = v` followed by `inst[id]` reads back `ReadBack(kind, v)`. */
  lemma SetItemThenGetItem(w: World, k: nat, id: ParamId, v: HostValue)
    requires k < |w.instances| && w.params.Some?
    requires Step(w, SetItem(k, id, v)).outcome == Done
    ensures Step(Step(w, SetItem(k, id, v)).world, GetItem(k, id)).outcome
              == Value(ReadBack(Resolve(w.params.value, id).value.kind, v, w.narrow))
  {
    var t := w.params.value;
    var store := w.instances[k].store;
    SetThenGet(t, store, id, v, w.narrow);
  }

  /** Parameter access on an unprimed table is refused without a native call: it does
      not prime the table on its own. */
  lemma AccessNeedsPrimedTable(w: World, k: nat, id: ParamId, v: HostValue)
    requires k < |w.instances| && w.params.None?
    ensures Step(w, GetItem(k, id)) == Stepped(w, Raised(ParamsNotPrimed))
    ensures Step(w, SetItem(k, id, v)) == Stepped(w, Raised(ParamsNotPrimed))
  {
  }
}
