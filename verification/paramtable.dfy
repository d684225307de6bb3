/** `Plugin.params`: the lazily built parameter table (a list in declaration order and a
    by-name dict), and the index-or-name lookup of `Instance.__getitem__` / `__setitem__`. */
module ParamTable {
  import opened Wrappers
  import opened Failures
  import opened Structs

  /** `_params` and `_params_by_name`. */
  datatype Table = Table(list: seq<ParamInfo>, byName: map<string, ParamInfo>)

  /** The by-name dict as the loop fills it: each entry overwrites any earlier one of the same name. */
  function LastByName(s: seq<ParamInfo>): map<string, ParamInfo>
    decreases |s|
  {
    if s == [] then map[] else LastByName(s[..|s| - 1])[s[|s| - 1].name := s[|s| - 1]]
  }

  /** The dict's keys are exactly the declared names. */
  lemma {:induction false} ByNameKeys(s: seq<ParamInfo>)
    ensures LastByName(s).Keys == set i | 0 <= i < |s| :: s[i].name
    decreases |s|
  {
    if s != [] {
      var p := s[..|s| - 1];
      ByNameKeys(p);
      assert forall i :: 0 <= i < |p| ==> p[i] == s[i];
      var lhs := LastByName(s).Keys;
      var rhs := set i | 0 <= i < |s| :: s[i].name;
      forall nm | nm in rhs ensures nm in lhs {
        var i :| 0 <= i < |s| && s[i].name == nm;
        if i < |p| { assert p[i].name == nm; }
      }
      forall nm | nm in lhs ensures nm in rhs {
        if nm != s[|s| - 1].name {
          var i :| 0 <= i < |p| && p[i].name == nm;
          assert s[i].name == nm;
        }
      }
    }
  }

  /** The dict maps a name to its LAST declaration: the last duplicate wins. */
  lemma {:induction false} ByNameLastWins(s: seq<ParamInfo>, i: int)
    requires 0 <= i < |s|
    requires forall j :: i < j < |s| ==> s[j].name != s[i].name
    ensures s[i].name in LastByName(s) && LastByName(s)[s[i].name] == s[i]
    decreases |s|
  {
    if i < |s| - 1 {
      var p := s[..|s| - 1];
      assert p[i] == s[i];
      assert forall j :: i < j < |p| ==> p[j] == s[j];
      ByNameLastWins(p, i);
    }
  }

  /** The index invariant: entry i describes the parameter declared at index i, and
      the by-name dict is built from the list. */
  predicate WellFormed(t: Table)
  {
    (forall i :: 0 <= i < |t.list| ==> t.list[i].index == i) && t.byName == LastByName(t.list)
  }

  /** Entry i is what `f0r_get_param_info` reported for index i, decoded with index i. */
  predicate DecodedFrom(list: seq<ParamInfo>, query: int -> RawParamInfo)
  {
    forall i :: 0 <= i < |list| ==> DecodeParamInfo(query(i), i) == Success(list[i])
  }

  /** The native queries were 0, 1, 2, ... in that order. */
  predicate Ascending(queried: seq<int>)
  {
    forall i :: 0 <= i < |queried| ==> queried[i] == i
  }

  /** One iteration of the loop keeps the table well formed and decoded from the queries. */
  lemma Extend(t: Table, p: ParamInfo, query: int -> RawParamInfo)
    requires WellFormed(t) && DecodedFrom(t.list, query)
    requires DecodeParamInfo(query(|t.list|), |t.list|) == Success(p)
    ensures WellFormed(Table(t.list + [p], t.byName[p.name := p]))
    ensures DecodedFrom(t.list + [p], query)
  {
    var list := t.list + [p];
    assert list[..|list| - 1] == t.list;
  }

  lemma AscendingExtend(queried: seq<int>)
    requires Ascending(queried)
    ensures Ascending(queried + [|queried|])
  {
  }

  /** Each of the first `k` answers of `f0r_get_param_info` decodes. */
  predicate AllParamsDecode(k: nat, query: int -> RawParamInfo)
  {
    forall i :: 0 <= i < k ==> DecodeParamInfo(query(i), i).Success?
  }

  /** The outcome of filling the table: the table (possibly partial), the indices passed
      to `f0r_get_param_info`, and the exception that ended the loop, if any. */
  datatype Build = Build(table: Table, queried: seq<int>, error: Option<Error>)

  /** The first `k` iterations of the loop in `Plugin.params`. `loaded` is whether the
      plugin still holds its library; `query(i)` is what `f0r_get_param_info` fills in. */
  function BuildFirst(k: nat, loaded: bool, query: int -> RawParamInfo): (b: Build)
    ensures WellFormed(b.table)
    ensures DecodedFrom(b.table.list, query)
    ensures Ascending(b.queried)
    ensures b.error.None? ==> |b.table.list| == k && |b.queried| == k
    ensures b.error.Some? ==> |b.table.list| < k
    ensures b.error.Some? && loaded ==>
              |b.queried| == |b.table.list| + 1
              && DecodeParamInfo(query(|b.table.list|), |b.table.list|) == Failure(b.error.value)
    ensures b.error.Some? && !loaded ==> b.error.value == NoLibrary && b.queried == [] && b.table.list == []
    ensures !loaded && k > 0 ==> b == Build(Table([], map[]), [], Some(NoLibrary))
    ensures b.error.None? <==> (k == 0 || loaded) && AllParamsDecode(k, query)
  {
    if k == 0 then Build(Table([], map[]), [], None)
    else
      var prev := BuildFirst(k - 1, loaded, query);
      if prev.error.Some? then prev
      else if !loaded then Build(prev.table, prev.queried, Some(NoLibrary))
      else
        var i := k - 1;
        assert |prev.table.list| == i && |prev.queried| == i;
        match DecodeParamInfo(query(i), i)
        case Failure(e) =>
          AscendingExtend(prev.queried);
          Build(prev.table, prev.queried + [i], Some(e))
        case Success(p) =>
          Extend(prev.table, p, query);
          AscendingExtend(prev.queried);
          Build(Table(prev.table.list + [p], prev.table.byName[p.name := p]), prev.queried + [i], None)
  }

  /** `range(self.info.num_params)`: a negative count declares no parameters. */
  function DeclaredCount(numParams: int): nat
  {
    if numParams < 0 then 0 else numParams
  }

  /** The `Plugin.params` property over the cached table: a primed table is returned
      with no native query; an unprimed one is built. The table is cached even when the
      loop ends by raising, since `_params` is assigned before the loop starts. */
  function Params(cached: Option<Table>, numParams: int, loaded: bool, query: int -> RawParamInfo): (b: Build)
    ensures cached.Some? ==> b == Build(cached.value, [], None)
    ensures cached.None? ==> WellFormed(b.table) && DecodedFrom(b.table.list, query) && Ascending(b.queried)
    ensures cached.None? ==>
              (b.error.None? <==> (DeclaredCount(numParams) == 0 || loaded) && AllParamsDecode(DeclaredCount(numParams), query))
    ensures cached.None? && b.error.None? ==>
              |b.table.list| == DeclaredCount(numParams) && |b.queried| == DeclaredCount(numParams)
    ensures cached.None? && !loaded && numParams > 0 ==> b == Build(Table([], map[]), [], Some(NoLibrary))
    ensures cached.None? && loaded && b.error.Some? ==>
              |b.table.list| < DeclaredCount(numParams) && |b.queried| == |b.table.list| + 1
              && DecodeParamInfo(query(|b.table.list|), |b.table.list|) == Failure(b.error.value)
  {
    if cached.Some? then Build(cached.value, [], None)
    else BuildFirst(DeclaredCount(numParams), loaded, query)
  }

  /** Once touched, the table is fixed: a second access re-queries nothing and
      returns the table the first access left behind. */
  lemma ParamsIdempotent(cached: Option<Table>, numParams: int, loaded: bool, query: int -> RawParamInfo,
                         loaded2: bool, query2: int -> RawParamInfo)
    ensures var first := Params(cached, numParams, loaded, query);
            var second := Params(Some(first.table), numParams, loaded2, query2);
            second.queried == [] && second.table == first.table && second.error.None?
  {
  }

  /** A parameter identified by integer index or by string name. */
  datatype ParamId = ByIndex(i: int) | ByName(name: string)

  /** `self._parent._params[paramid]` or `self._parent._params_by_name[paramid]`; a Python
      list also accepts negative indices, counted from the end. */
  function Resolve(t: Table, id: ParamId): (r: Result<ParamInfo, Error>)
    ensures r.Failure? ==> r.error == UnknownParameter
    ensures id.ByIndex? ==> (r.Success? <==> -|t.list| <= id.i < |t.list|)
    ensures id.ByIndex? && 0 <= id.i < |t.list| ==> r == Success(t.list[id.i])
    ensures id.ByIndex? && -|t.list| <= id.i < 0 ==> r == Success(t.list[|t.list| + id.i])
    ensures id.ByName? ==> (r.Success? <==> id.name in t.byName)
    ensures id.ByName? && id.name in t.byName ==> r == Success(t.byName[id.name])
  {
    match id
    case ByIndex(i) =>
      if 0 <= i < |t.list| then Success(t.list[i])
      else if -|t.list| <= i < 0 then Success(t.list[|t.list| + i])
      else Failure(UnknownParameter)
    case ByName(nm) =>
      if nm in t.byName then Success(t.byName[nm]) else Failure(UnknownParameter)
  }

  /** In a well-formed table, looking a parameter up by its name finds its last
      declaration; so when names are unique, lookup by name and by index agree and
      both report the declaration index. */
  lemma {:induction false} ResolveByNameIsLast(t: Table, i: int)
    requires WellFormed(t)
    requires 0 <= i < |t.list|
    requires forall j :: i < j < |t.list| ==> t.list[j].name != t.list[i].name
    ensures Resolve(t, ByName(t.list[i].name)) == Resolve(t, ByIndex(i)) == Success(t.list[i])
    ensures Resolve(t, ByName(t.list[i].name)).value.index == i
  {
    ByNameLastWins(t.list, i);
  }

  /** Names are unique within a plugin's parameters. */
  predicate UniqueNames(t: Table)
  {
    forall i, j :: 0 <= i < j < |t.list| ==> t.list[i].name != t.list[j].name
  }

  lemma ResolveAgrees(t: Table, i: int)
    requires WellFormed(t) && UniqueNames(t)
    requires 0 <= i < |t.list|
    ensures Resolve(t, ByName(t.list[i].name)) == Resolve(t, ByIndex(i))
  {
    ResolveByNameIsLast(t, i);
  }

  /** `Instance.__iter__`: the parameter names in declaration order. */
  function Names(t: Table): (names: seq<string>)
    ensures |names| == |t.list|
  {
    seq(|t.list|, i requires 0 <= i < |t.list| => t.list[i].name)
  }

  /** Every name `__iter__` yields can be looked up by name, which is what the
      `Instance.params` convenience relies on. */
  lemma {:induction false} IteratedNamesResolve(t: Table)
    requires WellFormed(t)
    ensures forall i :: 0 <= i < |t.list| ==> Resolve(t, ByName(Names(t)[i])).Success?
  {
    ByNameKeys(t.list);
    forall i | 0 <= i < |t.list|
      ensures Resolve(t, ByName(Names(t)[i])).Success?
    {
      assert Names(t)[i] == t.list[i].name;
    }
  }
}
