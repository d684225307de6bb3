# py0r in Dafny

A verified model of `f0r.py`, the Python wrapper around the frei0r 1.2 video-effect
plugin API. The wrapper loads a plugin's shared library, decodes its `plugin_info_t`
and `param_info_t` structures, builds a lazy parameter table, encodes and decodes
parameter values, guards instance construction, and forwards `update` / `update2`.
It also chooses the plugin search path and walks it.

The model keeps the rules that sit around the native calls and treats the native library
as an oracle. A `NativeLib` records which entry points the library exports, what
`f0r_get_plugin_info` fills in, and what `f0r_get_param_info(i)` fills in for each `i`.
Every native call the wrapper makes is appended to a call log. The log is how the
lifecycle rules are stated: `f0r_deinit` at most once, `f0r_destruct` at most once
per instance, and no destruct after the deinit.

Modules, one per file:

| module | file | what it holds |
|---|---|---|
| `Wrappers` | wrappers.dfy | `Option`, `Result` |
| `Abi` | abi.dfy | the three enum code tables, the `has_update` / `has_update2` table, entry-point names |
| `Failures` | failures.dfy | the exceptions the wrapper raises, as an `Error` datatype |
| `ParamCodec` | codec.dfy | `PARAM.to_f0r` / `PARAM.from_f0r` and the read-back value |
| `Structs` | structs.dfy | `decode_struct`, and its two uses for plugin and parameter info |
| `Dimensions` | dimensions.dfy | `check_dimensions_ok` |
| `ParamTable` | paramtable.dfy | the lazy `Plugin.params` table and lookup by index or name |
| `Plugin` | plugin.dfy | `Plugin.__init__`, the world state machine (`__del__`, `params`, `construct`, `__getitem__`, `__setitem__`, `update`, `update2`) and the lifecycle invariant |
| `Discovery` | discovery.dfy | `get_directories`, `find_all_in`, and what `find_all_in` yields |

Inputs that the model takes as parameters:

- The result of `ct.CDLL(path)` is `Option<NativeLib>`.
- The instance pointer `f0r_construct` returns is `Option<nat>`.
- The conversion of a Python float to a 32-bit `c_float` is `narrow: real -> real`.
- `os.environ` is a `map<string, string>`.
- Each search directory is given with whether it is one, its listing, and, per entry,
  whether it is a regular file and what `Plugin(libname)` gives: the declared name, or
  the exception its `__init__` raised. `Discovery.InitOutcome` states what `Plugin(libname)`
  gives for a loaded library, and `Discovery.OpensAs` says that a listing agrees with it.
- What the library answers to `f0r_get_param_value` is a stub, `NativeRead`. It returns
  the cell last passed to `f0r_set_param_value` at that index if it has the right shape,
  and otherwise the zeroed cell it was handed. Read-after-write facts hold of this
  well-behaved plugin. f0r.py itself promises nothing about what a plugin answers.

Behaviour of the code worth knowing:

- There is no channel-order rearrangement around `update` / `update2`. The frame
  arguments go to the native call untouched.
- `update2` has no fallback to `f0r_update`. A library without `f0r_update2` refuses
  `update2` even when the frame arguments would allow a single-input call.
- `f0r_deinit` is called at most once, not exactly once. It is called only when
  `Plugin.__del__` runs and the library exports it.
- A missing `f0r_deinit`, `f0r_update` or `f0r_update2` does not stop loading. Only
  `f0r_init` and the six entry points whose argument types `__init__` binds are required.
- If `__init__` fails after `self._lib` is set, the object's `__del__` still runs and
  calls `f0r_deinit`. `Open` logs that call.
- If decoding parameter `i` raises, the partial table stays cached, because `_params`
  is assigned before the loop. A later touch returns the partial table without
  re-querying. The model keeps this behaviour.
- An integer index may be negative, counted from the end, as Python lists allow.
- Parameter access reads `self._parent._params` directly, so it fails until
  `Plugin.params` has been touched once. The model raises `ParamsNotPrimed` in that
  case and never primes the table implicitly.

## Model

| member | source | states |
|---|---|---|
| Abi.PluginTypeOf | f0r.py:97-102 | `PLUGIN_TYPE(code)` succeeds exactly for codes 0..3, and the member's code is the code given |
| Abi.ColourModelOf | f0r.py:127-132 | `COLOUR_MODEL(code)` succeeds exactly for codes 0..2, and the member's code is the code given |
| Abi.ParamKindOf | f0r.py:134-140 | `PARAM(code)` succeeds exactly for codes 0..4, and the member's code is the code given |
| Abi.CodesRoundTrip | f0r.py:97-140 | decoding the code of any enum member gives that member back |
| Abi.CodesUnique | f0r.py:97-140 | the enums are unique: distinct members have distinct codes |
| Abi.CapabilityTable | f0r.py:104-125 | `has_update` holds exactly for FILTER and SOURCE, `has_update2` exactly for MIXER2 and MIXER3, and each plugin type has exactly one of the two |
| ParamCodec.ZeroCell | f0r.py:158-165 | the cell allocated for each parameter type has the right shape and is zero, or a null pointer for strings |
| ParamCodec.CString | f0r.py:181-182 | the text a `c_char_p` holds is the longest prefix of the string before its first NUL: a prefix, with no NUL in it, and followed by a NUL when it is shorter |
| ParamCodec.CStringStable | f0r.py:181-206 | cutting at the first NUL twice is the same as once, and text without NUL is kept whole |
| ParamCodec.ToF0r | f0r.py:166-191 | encoding succeeds exactly for the value shapes the type accepts, and refuses any other shape as `TypeMismatch`, before any native call. A bool is stored as 1.0 or 0.0, for a bool or a double parameter, and a number is stored unchanged. A colour stores its narrowed r, g, b channels and drops alpha. A position is copied. Text is stored up to its first NUL |
| ParamCodec.FromF0r | f0r.py:192-207 | decoding fails exactly on a null string pointer. Otherwise a bool is `value >= 0.5`, a double and a position are copied, a colour gets alpha 1, and text is read up to its first NUL |
| ParamCodec.RoundTrip | f0r.py:166-207 | decoding an encoded value gives `ReadBack`, an independent statement per type of what a stored value reads back as; text comes back cut at its first NUL |
| ParamCodec.BoolAndColourRoundTrip | f0r.py:166-194 | a bool survives the round trip exactly. A colour survives it when its channels are already 32-bit floats and its alpha is 1 |
| ParamCodec.BoolThreshold | f0r.py:202 | 0.5 itself reads back as True, and anything below it as False |
| Structs.Remap | f0r.py:224-225 | the enum class named in `enum_remap` maps a code to its member, or to nothing for an unknown code |
| Structs.DecodeFieldSpec | f0r.py:216-228 | a field fails to decode exactly when it is a null `name` pointer or an unknown enum code. A pointer field is None iff it is null and not `name`. A remapped int becomes its enum member, and any other int is kept |
| Structs.DecodeStruct | f0r.py:214-232 | success iff every field decodes. The result has one entry per field, in field order, followed by `extra`. On failure the error is that of the first field that fails |
| Structs.DecodeStructFailsAt | f0r.py:214-232 | when every field before field k decodes and field k does not, decoding raises field k's error |
| Structs.DecodePluginInfo | f0r.py:337-339 | plugin info decodes exactly when the name is non-null and both enum codes are known. A null name raises first, then a bad `plugin_type`, then a bad `colour_model`. On success every field is carried over |
| Structs.DecodeParamInfo | f0r.py:365 | parameter info decodes exactly when the name is non-null and the type code is known. On success it carries the name, kind and explanation, and the index passed as `extra` |
| Dimensions.CheckDimensionsOk | f0r.py:301-311 | an accepted size is returned unchanged, and a rejected one raises `InvalidDimensions` |
| Dimensions.CheckDimensionsOkInBlocks | f0r.py:307 | the accepted sizes are exactly both sides between 1 and 256 blocks of 8 pixels |
| ParamTable.ByNameKeys | f0r.py:363-367 | the by-name dict has exactly the declared names as keys |
| ParamTable.ByNameLastWins | f0r.py:363-367 | the dict maps a name to its last declaration |
| ParamTable.BuildFirst | f0r.py:359-368 | building the table keeps entry i's index equal to i and the dict equal to the list's last-wins map. Entry i is the decoding of query i. The queries go 0, 1, 2, ... in order. A decoding failure stops the loop at that index with that error. Without a library, `NoLibrary` is raised before any query. The loop completes iff there is nothing to query or a library is held, and every answer decodes |
| ParamTable.Params | f0r.py:357-372 | a cached table is returned with no queries. Otherwise the table is built from queries 0, 1, 2, ... and is well formed. It is complete, with `max(num_params, 0)` entries, iff a library is held (or nothing is declared) and every answer decodes. Without a library `NoLibrary` is raised before any query. Otherwise a failure is the decoding error of the last index queried, one past the entries kept |
| ParamTable.ParamsIdempotent | f0r.py:359 | a second access re-queries nothing and returns the table the first access left |
| ParamTable.Resolve | f0r.py:405-413 | an index resolves iff it lies in `-len..len-1`: a non-negative one to that entry, a negative one to entry `len + i`, counted from the end. A name resolves iff it is in the dict, to the dict's entry. Any other id raises `UnknownParameter` |
| ParamTable.ResolveByNameIsLast | f0r.py:405-410 | looking up by name finds the last declaration of that name, and it agrees with lookup by that declaration's index |
| ParamTable.ResolveAgrees | f0r.py:405-410 | with unique names, lookup by name and by index give the same descriptor |
| ParamTable.IteratedNamesResolve | f0r.py:434-438 | every name `__iter__` yields can be looked up by name |
| Plugin.FirstMissing | f0r.py:324-330 | reports a missing entry point iff one of the bound entry points is absent. The one reported is absent, and every entry point bound before it is present |
| Plugin.Open | f0r.py:319-343 | `Plugin(path)` succeeds iff the library loads, exports `f0r_init` and the bound entry points, and its info decodes. Success calls exactly `f0r_init` then `f0r_get_plugin_info`. A library that does not load raises `LoadFailed`, and one without `f0r_init` raises `MissingSymbol(f0r_init)`, with no call. A missing bound entry point raises for the first one, after `f0r_init`. Info that does not decode raises its decoding error, after `f0r_init` and `f0r_get_plugin_info`. Both failures then deinit once if the library exports `f0r_deinit` |
| Plugin.OpenLoaded | f0r.py:321-339 | the same rules, for a library that has loaded: the error raised and the native calls made for each way `__init__` can fail, and the state of a plugin that opens |
| Plugin.OpenEstablishesLifecycle | f0r.py:319-343 | a freshly opened plugin satisfies the lifecycle invariant |
| Plugin.GetParam | f0r.py:405-418 | an unknown id raises with no native call. Otherwise exactly the resolved index is queried, and the result is `from_f0r`, of the parameter's kind, of the cell the plugin answers, given a plugin that answers as the `NativeRead` stub does. Only a string parameter can fail, with a null pointer. With that stub, a parameter never set reads as `NeverSet`: false, 0.0, black with alpha 1, the origin, or a null-string error |
| Plugin.SetParam | f0r.py:420-432 | succeeds iff the id resolves and the value has an accepted shape. A refused value makes no native call. On success the cell sent to `f0r_set_param_value` is the `to_f0r` encoding of the value, sent at the resolved index, and exactly that index's cell is replaced |
| Plugin.SetThenGet | f0r.py:405-432 | setting a parameter then getting it reads back `ReadBack` of the value set, given a plugin that answers as the `NativeRead` stub does |
| Plugin.SetLeavesOthers | f0r.py:420-432 | setting one parameter leaves what every other parameter reads unchanged, given a plugin that answers as the `NativeRead` stub does |
| Plugin.GetByNameOrIndex | f0r.py:405-418 | with unique names, getting by name and by index make the same query and give the same result |
| Plugin.Construct | f0r.py:509-521 | invalid dimensions raise `InvalidDimensions`, and a plugin whose library is gone raises `NoLibrary`; both make no native call and change nothing. Otherwise the world changes only by one logged `f0r_construct(width, height)` call. A null instance then raises a construction failure. A non-null one is also appended as the new instance, and its position is returned |
| Plugin.ConstructAsWritten | f0r.py:513-517 | as written, a null instance raises a missing-attribute error, and every other outcome is as in `Construct` |
| Plugin.ConstructNullInstanceDiffers | f0r.py:516 | for valid dimensions and a null instance, the code as written and the intended code raise different errors |
| Plugin.Update | f0r.py:479-490 | `update` raises `NotImplementedError` with no native call iff the library is gone or lacks `f0r_update`. Otherwise it makes exactly one `f0r_update` call with the frames passed through |
| Plugin.Update2 | f0r.py:492-505 | the same rule for `update2` and `f0r_update2`, with no fallback to `f0r_update` |
| Plugin.Step | f0r.py:350-432 | `Plugin.__del__` with the library held and `f0r_deinit` exported logs one deinit and lets go of the library; otherwise it changes nothing. `Instance.__del__` of a live instance while the library is held logs one destruct and clears only that instance's pointer; otherwise it changes nothing. Touching `params` leaves the library, the info and every instance alone and only appends to the log; a cached table is returned with no change at all. Getting a parameter that resolves logs exactly one `f0r_get_param_value` on that instance at the resolved index and changes nothing else; an unknown id raises with no change. Setting an accepted value replaces only that instance's cell at the resolved index with the `to_f0r` encoding and logs exactly that `f0r_set_param_value`; a refused id or value raises with no change |
| Plugin.DelPluginStep | f0r.py:350-355 | `Plugin.__del__` keeps the lifecycle invariant |
| Plugin.DelInstanceStep | f0r.py:392-397 | `Instance.__del__` keeps the lifecycle invariant: it destructs only while the library is held, and at most once per instance |
| Plugin.StepKeepsLifecycle | f0r.py:350-397 | every event keeps the lifecycle invariant |
| Plugin.RunKeepsLifecycle | f0r.py:350-397 | any sequence of events keeps the lifecycle invariant |
| Plugin.LifecycleGuarantees | f0r.py:350-397 | whatever the host does: `f0r_deinit` at most once, `f0r_destruct` at most once per instance, and no destruct after the deinit |
| Plugin.RunKeepsTableReady | f0r.py:357-372 | once primed, the cached table stays well formed under any events |
| Plugin.TouchParamsTwice | f0r.py:357-372 | touching `params` again makes no native call and returns the dict the first touch built |
| Plugin.TouchParamsQueriesAscending | f0r.py:357-368 | with the library held, the first touch succeeds iff every answer decodes. It queries `f0r_get_param_info` for 0, 1, 2, ... in ascending order and nothing else: all `num_params` indexes on success, and on failure up to and including the first index whose answer does not decode, raising that error. Every index before that one decodes into the table entry kept for it. The instances and the library are left alone |
| Plugin.GetItemByNameOrIndex | f0r.py:405-418 | with unique names, `inst[name]` and `inst[index]` have the same effect and outcome |
| Plugin.SetItemThenGetItem | f0r.py:405-432 | `inst[id] = v` followed by `inst[id]` returns `ReadBack` of `v`, given a plugin that answers as the `NativeRead` stub does |
| Plugin.AccessNeedsPrimedTable | f0r.py:408-410 | before `params` is touched, get and set raise with no native call and do not prime the table |
| Discovery.PathJoin | f0r.py:255-260 | `os.path.join` on POSIX: the result ends with the second part. An absolute second part replaces the first. Otherwise a `/` is inserted unless the first part is empty or already ends with one |
| Discovery.Split | f0r.py:251 | `str.split(":")` gives at least one piece and no piece contains `:`. Joining the pieces with `:` gives the string back |
| Discovery.SplitJoin | f0r.py:251 | the converse: splitting a join of pieces that contain no `:` gives the pieces back |
| Discovery.GetDirectories | f0r.py:242-266 | an override is returned as-is. Otherwise a set `FREI0R_PATH` is split on `:`. Otherwise the result succeeds iff `HOME` is set and gives three defaults, each joined with the vendor name when one is given |
| Discovery.DefaultDirectoriesSpelledOut | f0r.py:253-258 | the defaults are `$HOME/.frei0r-1`, `/usr/local/lib/frei0r-1` and `/usr/lib/frei0r-1` |
| Discovery.DefaultsWithVendor | f0r.py:253-261 | a relative vendor name becomes one more path component of each default |
| Discovery.VendorOnlyInDefaults | f0r.py:259-261 | the vendor name changes nothing outside the default branch |
| Discovery.InitOutcome | f0r.py:319-339 | `Plugin(libname)` as `find_all_in` sees it, in terms of the library. A library that does not load raises `LoadFailed`. One without `f0r_init` raises `MissingSymbol(f0r_init)`. Next comes the first missing bound entry point, then the decoding error of its `plugin_info_t`. Otherwise the result is the name that info declares |
| Discovery.FindAllIn | f0r.py:268-287 | the loop over directories and listings yields, and raises, exactly what the generator `Scan` does over the candidate libraries in directory-then-listing order. A library that fails to open ends the walk with the exception its `Plugin(libname)` raised |
| Discovery.ScanItem | f0r.py:274-282 | one listing entry that is a `.so` regular file is one generator step: its exception propagates, or its plugin is yielded unless its name was seen. Any other entry changes nothing |
| Discovery.ScanListing | f0r.py:273-284 | the inner loop over one listing continues the generator's scan over that directory's candidates |
| Discovery.ScanIsFirsts | f0r.py:270-280 | the yielded plugins are the first occurrence of each name among the candidates before the first library that fails to open. The generator raises exactly at that library, with the exception opening it raised |
| Discovery.FirstsDistinct | f0r.py:278-280 | the yielded plugins have pairwise distinct names |
| Discovery.FirstsSound | f0r.py:278-280 | every yielded plugin is the first candidate of its name |
| Discovery.FirstsComplete | f0r.py:278-280 | every first occurrence is yielded |
| Discovery.FirstsOrder | f0r.py:271-280 | of two first occurrences, the earlier candidate is yielded first |
| Discovery.CandidatesEndInSo | f0r.py:274-276 | every library opened has a path ending in `.so` |
| Discovery.FindAllInYields | f0r.py:268-287 | every yielded path ends in `.so`, and no two yielded plugins share a name |
| Discovery.CandidatesListed | f0r.py:271-276 | every library opened is `os.path.join(dir, item)` for a directory in the search path for which `isdir` holds and a listed item ending in `.so` for which `isfile` holds |
| Discovery.FindAllInYieldsListed | f0r.py:268-287 | every yielded plugin comes from such a listed regular `.so` file, and carries the name that opening that file declared |
| Discovery.FindAllInOpens | f0r.py:268-287 | when the listed files open as a given loader says, every yielded plugin is a library that loads, exports every bound entry point and declares the yielded name. An exception that stops the walk is what opening some listed file raised |

## Left out

- Loading the shared object and binding `argtypes` / `restype` are not modelled. The loaded library is the `NativeLib` oracle, and a missing entry point raises `MissingSymbol`.
- `_get_frame_arg` is not modelled. It extracts raw addresses from ctypes, array, bytearray and qahirah objects, so a frame is an opaque `Option<nat>`.
- The binary layout of the ctypes structures is not modelled. A struct is the tuple of its field values.
- UTF-8 `encode` / `decode` of strings is not modelled: text is a sequence of characters. A `c_char_p` keeps only the text before its first NUL, both for a value set and for a value read (`ParamCodec.CString`). Strings in `plugin_info_t` and `param_info_t` are taken as the library wrote them, already without a NUL.
- The exact rounding of colour channels to `c_float` is not modelled. It is the `narrow` parameter, so no exact colour round trip is claimed.
- Floating point is modelled as `real`. Doubles are exact, with no NaN or infinity.
- ParamCodec.ToF0r: a wrong shape for a colour, position or string parameter raises AttributeError in the source (from `c.r`, `p.x` or `s.encode()`), and for a double parameter a TypeError. The model gives every refused shape the one error `TypeMismatch`, since both mean the value has the wrong shape for the parameter.
- `float()` of a string or other object given to a bool or double parameter is refused in the model. Only bools and numbers are accepted.
- A parameter id that is neither an int nor a str raises `TypeError` in the source. `ParamId` cannot express it.
- The [0, 1] range the ABI documents for bools and doubles is not enforced by the wrapper, and not by the model either.
- `__repr__`, `Instance.__len__`, and the `Instance.params` getter and setter are left out. They are conveniences over `__iter__`, `__getitem__` and `__setitem__`.
- `find_all` and `get_all` only compose `get_directories` with `find_all_in`, and build a dict of what is yielded. They are left out.
- The file system and the environment are inputs, not calls.
- Garbage collection order is an input. The host's events are an arbitrary sequence, and an event naming an instance that was never constructed leaves everything unchanged.
- Instances are indexed by construction order. The native pointer is kept only to tell live instances from destructed ones.
- Dimensions.CheckDimensionsOk: the check in `check_dimensions_ok` is a Python `assert`, which `python -O` removes. Under `-O`, `construct` calls `f0r_construct` with any dimensions, for example 7 x 7. The model states the behaviour with assertions enabled, so "invalid dimensions raise before any native call" holds only then.
- Plugin.GetParam: the cell read back, and so the value of a parameter never set (`NeverSet`), is what the `NativeRead` stub answers. In the program it is whatever the plugin's `f0r_get_param_value` writes into the zeroed cell.
- Plugin.SetThenGet, Plugin.SetLeavesOthers and Plugin.SetItemThenGetItem hold of the `NativeRead` stub for `f0r_get_param_value`, which echoes the last cell set. What a real plugin answers is up to the plugin, and f0r.py promises nothing about it.
- `check_dimensions_ok` accepting a `Vector` whose components are not integers (`assert_isint`) is not modelled, because width and height are `int`.

## Findings

| source | as written | input that shows it | evidently intended | confidence | as-written member | corrected member |
|---|---|---|---|---|---|---|
| f0r.py:516 | when `f0r_construct` returns null, the error message reads `self._parent.info.name`, but a `Plugin` has no `_parent` slot (`__slots__` at line 317), so an AttributeError escapes | valid dimensions, for example 64 x 64, on a plugin whose `f0r_construct` returns null | raise the construction-failure RuntimeError naming `self.info.name` | not executed | Plugin.ConstructAsWritten | Plugin.Construct |
