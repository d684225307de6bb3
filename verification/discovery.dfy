/** Plugin discovery: `get_directories` chooses the search path, `find_all_in` walks it and
    keeps the first plugin of each declared name. The environment and the file system are
    inputs: an environment map, and per directory whether it is one and what it lists. */
module Discovery {
  import opened Wrappers
  import opened Failures
  import opened Abi
  import Plugin
  import Structs

  predicate EndsWith(s: string, suffix: string)
  {
    |suffix| <= |s| && s[|s| - |suffix|..] == suffix
  }

  /** `os.path.join(a, b)` on POSIX: an absolute `b` replaces `a`; otherwise a `/` is
      inserted unless `a` is empty or already ends with one. */
  function PathJoin(a: string, b: string): (r: string)
    ensures EndsWith(r, b)
    ensures |b| > 0 && b[0] == '/' ==> r == b
    ensures !(|b| > 0 && b[0] == '/') && |a| > 0 && a[|a| - 1] != '/' ==> r == a + "/" + b
    ensures !(|b| > 0 && b[0] == '/') && (|a| == 0 || a[|a| - 1] == '/') ==> r == a + b
  {
    if |b| > 0 && b[0] == '/' then b
    else if |a| == 0 || a[|a| - 1] == '/' then a + b
    else a + "/" + b
  }

  // ---------------------------------------------------------------- str.split

  /** The pieces joined back with the separator. */
  function Join(parts: seq<string>, sep: char): string
    requires |parts| >= 1
    decreases |parts|
  {
    if |parts| == 1 then parts[0] else parts[0] + [sep] + Join(parts[1..], sep)
  }

  /** `s.split(sep)` for a one-character separator: never empty, no piece holds the
      separator, and joining the pieces gives `s` back. */
  function Split(s: string, sep: char): (r: seq<string>)
    ensures |r| >= 1
    ensures forall i :: 0 <= i < |r| ==> sep !in r[i]
    ensures Join(r, sep) == s
    decreases |s|
  {
    if s == [] then [""]
    else
      var rest := Split(s[1..], sep);
      if s[0] == sep then
        assert Join([""] + rest, sep) == [sep] + Join(rest, sep) by {
          assert ([""] + rest)[1..] == rest;
        }
        [""] + rest
      else
        var r := [[s[0]] + rest[0]] + rest[1..];
        assert Join(r, sep) == [s[0]] + Join(rest, sep) by {
          if |rest| > 1 {
            assert r[1..] == rest[1..];
          }
        }
        r
  }

  lemma {:induction false} SplitPiece(p: string, sep: char)
    requires sep !in p
    ensures Split(p, sep) == [p]
    decreases |p|
  {
    if p != [] {
      assert sep !in p[1..];
      SplitPiece(p[1..], sep);
    }
  }

  lemma {:induction false} SplitPieceThen(p: string, rest: string, sep: char)
    requires sep !in p
    ensures Split(p + [sep] + rest, sep) == [p] + Split(rest, sep)
    decreases |p|
  {
    if p == [] {
      assert p + [sep] + rest == [sep] + rest;
      assert ([sep] + rest)[1..] == rest;
    } else {
      var s := p + [sep] + rest;
      assert s[1..] == p[1..] + [sep] + rest;
      assert sep !in p[1..];
      SplitPieceThen(p[1..], rest, sep);
      assert [p[0]] + p[1..] == p;
    }
  }

  /** The converse round trip: splitting a join of separator-free pieces gives the pieces. */
  lemma {:induction false} SplitJoin(parts: seq<string>, sep: char)
    requires |parts| >= 1
    requires forall i :: 0 <= i < |parts| ==> sep !in parts[i]
    ensures Split(Join(parts, sep), sep) == parts
    decreases |parts|
  {
    if |parts| == 1 {
      SplitPiece(parts[0], sep);
    } else {
      assert forall i :: 0 <= i < |parts[1..]| ==> sep !in parts[1..][i] by {
        forall i | 0 <= i < |parts[1..]| ensures sep !in parts[1..][i] {
          assert parts[1..][i] == parts[i + 1];
        }
      }
      SplitJoin(parts[1..], sep);
      SplitPieceThen(parts[0], Join(parts[1..], sep), sep);
      assert [parts[0]] + parts[1..] == parts;
    }
  }

  // ---------------------------------------------------------------- get_directories

  const SubdirName: string := "frei0r-1"

  /** The three default directories, before any vendor suffix. */
  function DefaultDirectories(home: string): seq<string>
  {
    [PathJoin(home, "." + SubdirName), PathJoin("/usr/local/lib", SubdirName), PathJoin("/usr/lib", SubdirName)]
  }

  /** `get_directories(vendor)`. `directories` is the module-level override, `env` is
      `os.environ`; a missing `HOME` in the default branch raises KeyError. */
  function GetDirectories(directories: Option<seq<string>>, env: map<string, string>, vendor: Option<string>): (r: Result<seq<string>, Error>)
    ensures directories.Some? ==> r == Success(directories.value)
    ensures directories.None? && "FREI0R_PATH" in env ==>
              r.Success? && |r.value| >= 1 && Join(r.value, ':') == env["FREI0R_PATH"]
              && forall i :: 0 <= i < |r.value| ==> ':' !in r.value[i]
    ensures directories.None? && "FREI0R_PATH" !in env ==>
              (r.Success? <==> "HOME" in env) && (r.Failure? ==> r.error == MissingEnvironment("HOME"))
    ensures directories.None? && "FREI0R_PATH" !in env && r.Success? ==>
              |r.value| == 3
              && (vendor.None? ==> r.value == DefaultDirectories(env["HOME"]))
              && (vendor.Some? ==> forall i :: 0 <= i < 3 ==> r.value[i] == PathJoin(DefaultDirectories(env["HOME"])[i], vendor.value))
  {
    if directories.Some? then Success(directories.value)
    else if "FREI0R_PATH" in env then Success(Split(env["FREI0R_PATH"], ':'))
    else if "HOME" !in env then Failure(MissingEnvironment("HOME"))
    else
      var dirpaths := DefaultDirectories(env["HOME"]);
      if vendor.Some? then Success(seq(3, i requires 0 <= i < 3 => PathJoin(dirpaths[i], vendor.value)))
      else Success(dirpaths)
  }

  lemma DefaultDirectoriesSpelledOut(home: string)
    ensures var d := DefaultDirectories(home);
            && d[0] == (if |home| == 0 || home[|home| - 1] == '/' then home else home + "/") + ".frei0r-1"
            && d[1] == "/usr/local/lib/frei0r-1" && d[2] == "/usr/lib/frei0r-1"
  {
    var d := DefaultDirectories(home);
    HiddenSubdir();
    SystemDirectories();
    assert EndsWith(d[0], ".frei0r-1");
  }

  lemma HiddenSubdir()
    ensures "." + SubdirName == ".frei0r-1"
  {
    var x := "." + SubdirName;
    assert |x| == 9;
    forall i | 0 <= i < 9 ensures x[i] == ".frei0r-1"[i] {
      if i > 0 { assert x[i] == SubdirName[i - 1]; }
    }
  }

  lemma SystemDirectories()
    ensures PathJoin("/usr/local/lib", SubdirName) == "/usr/local/lib/frei0r-1"
    ensures PathJoin("/usr/lib", SubdirName) == "/usr/lib/frei0r-1"
  {
    assert SubdirName[0] == 'f';
    assert "/usr/local/lib"[13] == 'b';
    assert "/usr/lib"[7] == 'b';
  }

  /** The default directories are `$HOME/.frei0r-1`, `/usr/local/lib/frei0r-1` and
      `/usr/lib/frei0r-1`; a relative vendor name becomes one more path component. */
  lemma DefaultsWithVendor(env: map<string, string>, vendor: string)
    requires "FREI0R_PATH" !in env && "HOME" in env
    requires |vendor| > 0 && vendor[0] != '/'
    ensures var home := env["HOME"];
            var r := GetDirectories(None, env, None);
            var rv := GetDirectories(None, env, Some(vendor));
            && r.Success? && rv.Success?
            && r.value[0] == (if |home| == 0 || home[|home| - 1] == '/' then home else home + "/") + ".frei0r-1"
            && r.value[1] == "/usr/local/lib/frei0r-1" && r.value[2] == "/usr/lib/frei0r-1"
            && (forall i :: 0 <= i < 3 ==> rv.value[i] == r.value[i] + "/" + vendor)
  {
    var d := DefaultDirectories(env["HOME"]);
    DefaultDirectoriesSpelledOut(env["HOME"]);
    assert EndsWith(d[0], "." + SubdirName);
    forall i | 0 <= i < 3 ensures |d[i]| > 0 && d[i][|d[i]| - 1] == '1' {
      HiddenSubdir();
      assert d[i][|d[i]| - 1] == ".frei0r-1"[8];
    }
  }

  /** The vendor suffix only affects the default branch. */
  lemma VendorOnlyInDefaults(directories: Option<seq<string>>, env: map<string, string>, v1: Option<string>, v2: Option<string>)
    requires directories.Some? || "FREI0R_PATH" in env
    ensures GetDirectories(directories, env, v1) == GetDirectories(directories, env, v2)
  {
  }

  // ---------------------------------------------------------------- find_all_in

  /** A directory entry: its name as `os.listdir` gives it, whether `os.path.isfile`
      holds of the joined path, and what `Plugin(libname)` gives: the `info.name` it
      decodes, or the exception its `__init__` raises (see `InitOutcome`). */
  datatype Item = Item(name: string, isFile: bool, outcome: Result<string, Error>)

  /** What `Plugin(libname)` hands `find_all_in`: the declared name of the plugin it opens,
      or the exception its `__init__` raised, passed on unchanged. `load` is what
      `ct.CDLL(libname)` yields. In terms of the library: a load failure, then a missing
      `f0r_init`, then the first missing bound entry point, then a `plugin_info_t` that
      does not decode; otherwise the name it declares. */
  function InitOutcome(path: string, load: Option<Plugin.NativeLib>, narrow: real -> real): (r: Result<string, Error>)
    ensures load.None? ==> r == Failure(LoadFailed(path))
    ensures load.Some? && InitSym !in load.value.symbols ==> r == Failure(MissingSymbol(InitSym))
    ensures load.Some? && InitSym in load.value.symbols && Plugin.FirstMissing(load.value.symbols, BoundSymbols).Some? ==>
              r == Failure(MissingSymbol(Plugin.FirstMissing(load.value.symbols, BoundSymbols).value))
    ensures load.Some? && InitSym in load.value.symbols && Plugin.FirstMissing(load.value.symbols, BoundSymbols).None?
            && Structs.DecodePluginInfo(load.value.info).Failure? ==>
              r == Failure(Structs.DecodePluginInfo(load.value.info).error)
    ensures load.Some? && InitSym in load.value.symbols && Plugin.FirstMissing(load.value.symbols, BoundSymbols).None?
            && Structs.DecodePluginInfo(load.value.info).Success? ==>
              r == Success(Structs.DecodePluginInfo(load.value.info).value.name)
  {
    match Plugin.Open(path, load, narrow).result
    case Success(w) => Success(w.info.name)
    case Failure(e) => Failure(e)
  }

  /** A search directory: its path, whether `os.path.isdir` holds, and its listing. */
  datatype Dir = Dir(path: string, isDir: bool, listing: seq<Item>)

  /** A library `find_all_in` opens, with what opening it gives. */
  datatype Candidate = Candidate(path: string, outcome: Result<string, Error>)

  /** A yielded plugin: its library path and declared name. */
  datatype Found = Found(path: string, name: string)

  /** The libraries opened, in order, from the first `n` items of one directory listing:
      names ending in `.so` that are regular files. */
  function ItemCandidates(dir: string, items: seq<Item>): (c: seq<Candidate>)
    decreases |items|
  {
    if items == [] then []
    else
      var prev := ItemCandidates(dir, items[..|items| - 1]);
      var item := items[|items| - 1];
      if EndsWith(item.name, ".so") && item.isFile then
        prev + [Candidate(PathJoin(dir, item.name), item.outcome)]
      else prev
  }

  function DirCandidates(d: Dir): (c: seq<Candidate>)
  {
    if d.isDir then ItemCandidates(d.path, d.listing) else []
  }

  /** The libraries opened across the directories, directory by directory. */
  function Candidates(dirs: seq<Dir>): (c: seq<Candidate>)
    decreases |dirs|
  {
    if dirs == [] then [] else Candidates(dirs[..|dirs| - 1]) + DirCandidates(dirs[|dirs| - 1])
  }

  lemma {:induction false} ItemCandidatesAppend(dir: string, a: seq<Item>, b: seq<Item>)
    ensures ItemCandidates(dir, a + b) == ItemCandidates(dir, a) + ItemCandidates(dir, b)
    decreases |b|
  {
    if b != [] {
      var b' := b[..|b| - 1];
      assert (a + b)[..|a + b| - 1] == a + b';
      ItemCandidatesAppend(dir, a, b');
    } else {
      assert a + b == a;
    }
  }

  lemma {:induction false} CandidatesAppend(a: seq<Dir>, b: seq<Dir>)
    ensures Candidates(a + b) == Candidates(a) + Candidates(b)
    decreases |b|
  {
    if b != [] {
      var b' := b[..|b| - 1];
      assert (a + b)[..|a + b| - 1] == a + b';
      CandidatesAppend(a, b');
    } else {
      assert a + b == a;
    }
  }

  /** The declared names among some candidates. */
  function DeclaredNames(c: seq<Candidate>): set<string>
  {
    set k | 0 <= k < |c| && c[k].outcome.Success? :: c[k].outcome.value
  }

  function NamesOf(f: seq<Found>): set<string>
  {
    set k | 0 <= k < |f| :: f[k].name
  }

  /** What the `find_all_in` generator produces: the plugins yielded, then possibly the
      exception that ended it. */
  datatype Scanned = Scanned(yielded: seq<Found>, error: Option<Error>)

  /** One step of the generator: the exception of a library that cannot be opened
      propagates out of it; a plugin whose declared name is already in `seen` (the names yielded so far) is skipped. */
  function Advance(r: Scanned, last: Candidate): Scanned
  {
    if r.error.Some? then r
    else match last.outcome
      case Failure(e) => Scanned(r.yielded, Some(e))
      case Success(nm) => if nm in NamesOf(r.yielded) then r else Scanned(r.yielded + [Found(last.path, nm)], None)
  }

  /** The generator over a candidate sequence. */
  function Scan(c: seq<Candidate>): (r: Scanned)
    decreases |c|
  {
    if c == [] then Scanned([], None) else Advance(Scan(c[..|c| - 1]), c[|c| - 1])
  }

  lemma {:induction false} ScanStops(c: seq<Candidate>, rest: seq<Candidate>)
    requires Scan(c).error.Some?
    ensures Scan(c + rest) == Scan(c)
    decreases |rest|
  {
    if rest == [] {
      assert c + rest == c;
    } else {
      var rest' := rest[..|rest| - 1];
      assert (c + rest)[..|c + rest| - 1] == c + rest';
      ScanStops(c, rest');
    }
  }

  /** One more listed item adds at most one candidate. */
  lemma ItemCandidatesStep(dir: string, items: seq<Item>, j: int)
    requires 0 <= j < |items|
    ensures ItemCandidates(dir, items[..j + 1]) ==
              ItemCandidates(dir, items[..j])
              + (if EndsWith(items[j].name, ".so") && items[j].isFile
                 then [Candidate(PathJoin(dir, items[j].name), items[j].outcome)] else [])
  {
    assert items[..j + 1][..j] == items[..j];
  }

  /** One more candidate is one more step of the generator. */
  lemma ScanStep(pre: seq<Candidate>, c: Candidate)
    ensures Scan(pre + [c]) == Advance(Scan(pre), c)
  {
    assert (pre + [c])[..|pre + [c]| - 1] == pre;
  }

  lemma NamesOfAppend(f: seq<Found>, x: Found)
    ensures NamesOf(f + [x]) == NamesOf(f) + {x.name}
  {
    var g := f + [x];
    assert forall k :: 0 <= k < |f| ==> g[k] == f[k];
    assert g[|f|] == x;
  }

  /** One listing entry in `find_all_in`: a name ending in `.so` that joins to a regular
      file is opened; its plugin is yielded unless its declared name was seen, and an
      exception from opening it ends the walk. */
  method ScanItem(dir: string, item: Item, yielded0: seq<Found>, seen0: set<string>)
    returns (yielded: seq<Found>, seen: set<string>, error: Option<Error>)
    requires seen0 == NamesOf(yielded0)
    ensures Scanned(yielded, error) ==
              if EndsWith(item.name, ".so") && item.isFile
              then Advance(Scanned(yielded0, None), Candidate(PathJoin(dir, item.name), item.outcome))
              else Scanned(yielded0, None)
    ensures seen == NamesOf(yielded)
  {
    yielded, seen, error := yielded0, seen0, None;
    if EndsWith(item.name, ".so") {
      var libname := PathJoin(dir, item.name);
      if item.isFile {
        match item.outcome
        case Failure(e) =>
          error := Some(e);
        case Success(nm) =>
          if nm !in seen {
            NamesOfAppend(yielded, Found(libname, nm));
            seen := seen + {nm};
            yielded := yielded + [Found(libname, nm)];
          }
      }
    }
  }

  /** The inner loop of `find_all_in` over one directory's listing, continuing the scan
      of the candidates `pre` already seen. */
  method ScanListing(pre: seq<Candidate>, dir: string, items: seq<Item>, yielded0: seq<Found>, seen0: set<string>)
    returns (yielded: seq<Found>, seen: set<string>, error: Option<Error>)
    requires Scan(pre) == Scanned(yielded0, None) && seen0 == NamesOf(yielded0)
    ensures Scanned(yielded, error) == Scan(pre + ItemCandidates(dir, items))
    ensures seen == NamesOf(yielded)
  {
    yielded, seen, error := yielded0, seen0, None;
    var j := 0;
    assert items[..0] == [];
    ghost var tried := pre;
    while j < |items|
      invariant 0 <= j <= |items|
      invariant tried == pre + ItemCandidates(dir, items[..j])
      invariant Scan(tried) == Scanned(yielded, None)
      invariant seen == NamesOf(yielded) && error.None?
    {
      var item := items[j];
      ghost var before := yielded;
      yielded, seen, error := ScanItem(dir, item, yielded, seen);
      tried := TriedStep(pre, dir, items, j, tried, before);
      if error.Some? {
        ScanListingStops(pre, dir, items, j);
        return;
      }
      j := j + 1;
    }
    assert items[..j] == items;
  }

  /** One listed item continues the scan of the candidates tried so far by the
      generator step `ScanItem` takes. */
  lemma TriedStep(pre: seq<Candidate>, dir: string, items: seq<Item>, j: int, tried: seq<Candidate>,
                  yielded: seq<Found>) returns (next: seq<Candidate>)
    requires 0 <= j < |items|
    requires tried == pre + ItemCandidates(dir, items[..j]) && Scan(tried) == Scanned(yielded, None)
    ensures next == pre + ItemCandidates(dir, items[..j + 1])
    ensures Scan(next) ==
              if EndsWith(items[j].name, ".so") && items[j].isFile
              then Advance(Scanned(yielded, None), Candidate(PathJoin(dir, items[j].name), items[j].outcome))
              else Scanned(yielded, None)
  {
    var item := items[j];
    if EndsWith(item.name, ".so") && item.isFile {
      var c := Candidate(PathJoin(dir, item.name), item.outcome);
      next := tried + [c];
      ListedItemStep(pre, dir, items, j);
      ScanStep(tried, c);
    } else {
      next := tried;
      ItemCandidatesStep(dir, items, j);
    }
  }

  lemma ListedItemStep(pre: seq<Candidate>, dir: string, items: seq<Item>, j: int)
    requires 0 <= j < |items| && EndsWith(items[j].name, ".so") && items[j].isFile
    ensures pre + ItemCandidates(dir, items[..j + 1])
              == (pre + ItemCandidates(dir, items[..j])) + [Candidate(PathJoin(dir, items[j].name), items[j].outcome)]
  {
    ItemCandidatesStep(dir, items, j);
  }

  /** Once the generator has raised, later candidates change nothing. */
  lemma ScanStopsWithin(pre: seq<Candidate>, mid: seq<Candidate>, rest: seq<Candidate>)
    requires Scan(pre + mid).error.Some?
    ensures Scan(pre + (mid + rest)) == Scan(pre + mid)
  {
    var front := pre + mid;
    ScanStops(front, rest);
    assert pre + (mid + rest) == front + rest;
  }

  lemma ScanListingStops(pre: seq<Candidate>, dir: string, items: seq<Item>, j: int)
    requires 0 <= j < |items|
    requires Scan(pre + ItemCandidates(dir, items[..j + 1])).error.Some?
    ensures Scan(pre + ItemCandidates(dir, items)) == Scan(pre + ItemCandidates(dir, items[..j + 1]))
  {
    var front, back := items[..j + 1], items[j + 1..];
    assert front + back == items;
    ItemCandidatesAppend(dir, front, back);
    ScanStopsWithin(pre, ItemCandidates(dir, front), ItemCandidates(dir, back));
  }

  /** `find_all_in(dirs)`: for each directory that is one, for each listed name ending in
      `.so` whose joined path is a regular file, open the plugin and yield it unless a
      plugin of the same declared name was yielded before. */
  method FindAllIn(dirs: seq<Dir>) returns (yielded: seq<Found>, error: Option<Error>)
    ensures Scanned(yielded, error) == Scan(Candidates(dirs))
  {
    var seen: set<string> := {};
    yielded := [];
    error := None;
    var i := 0;
    assert dirs[..0] == [];
    while i < |dirs|
      invariant 0 <= i <= |dirs|
      invariant Scan(Candidates(dirs[..i])) == Scanned(yielded, None)
      invariant seen == NamesOf(yielded)
      invariant error.None?
    {
      var d := dirs[i];
      CandidatesPrefixStep(dirs, i);
      if d.isDir {
        yielded, seen, error := ScanListing(Candidates(dirs[..i]), d.path, d.listing, yielded, seen);
        if error.Some? {
          ScanAllStops(dirs, i);
          return;
        }
      } else {
        assert DirCandidates(d) == [];
        assert Candidates(dirs[..i + 1]) == Candidates(dirs[..i]);
      }
      i := i + 1;
    }
    assert dirs[..i] == dirs;
  }

  /** When the generator raises in directory `i`, the later directories change nothing. */
  lemma ScanAllStops(dirs: seq<Dir>, i: int)
    requires 0 <= i < |dirs|
    requires Scan(Candidates(dirs[..i + 1])).error.Some?
    ensures Scan(Candidates(dirs)) == Scan(Candidates(dirs[..i + 1]))
  {
    CandidatesAround(dirs, i);
    ScanStops(Candidates(dirs[..i + 1]), Candidates(dirs[i + 1..]));
  }

  lemma CandidatesPrefixStep(dirs: seq<Dir>, i: int)
    requires 0 <= i < |dirs|
    ensures Candidates(dirs[..i + 1]) == Candidates(dirs[..i]) + DirCandidates(dirs[i])
  {
    assert dirs[..i + 1][..i] == dirs[..i];
  }

  lemma CandidatesAround(dirs: seq<Dir>, i: int)
    requires 0 <= i < |dirs|
    ensures Candidates(dirs) == Candidates(dirs[..i + 1]) + Candidates(dirs[i + 1..])
  {
    assert dirs == dirs[..i + 1] + dirs[i + 1..];
    CandidatesAppend(dirs[..i + 1], dirs[i + 1..]);
  }

  // ---------------------------------------------------------------- what find_all_in yields

  /** Candidate `j` can be opened and no earlier candidate declared its name. */
  predicate IsFirst(c: seq<Candidate>, j: int)
  {
    0 <= j < |c| && c[j].outcome.Success? && c[j].outcome.value !in DeclaredNames(c[..j])
  }

  function FoundOf(x: Candidate): Found
    requires x.outcome.Success?
  {
    Found(x.path, x.outcome.value)
  }

  /** Reference definition: the first candidate of each declared name, in candidate order. */
  function Firsts(c: seq<Candidate>): seq<Found>
    decreases |c|
  {
    if c == [] then []
    else Firsts(c[..|c| - 1]) + (if IsFirst(c, |c| - 1) then [FoundOf(c[|c| - 1])] else [])
  }

  /** The position of the first candidate that cannot be opened, or the length. */
  function FirstFailure(c: seq<Candidate>): (n: nat)
    ensures n <= |c|
    ensures forall j :: 0 <= j < n ==> c[j].outcome.Success?
    ensures n < |c| ==> c[n].outcome.Failure?
    decreases |c|
  {
    if c == [] then 0
    else
      var p := c[..|c| - 1];
      var f := FirstFailure(p);
      assert forall j :: 0 <= j < |p| ==> p[j] == c[j];
      if f < |p| then f
      else if c[|c| - 1].outcome.Failure? then |p|
      else |c|
  }

  lemma DeclaredNamesStep(c: seq<Candidate>)
    requires c != []
    ensures DeclaredNames(c) == DeclaredNames(c[..|c| - 1])
              + (if c[|c| - 1].outcome.Success? then {c[|c| - 1].outcome.value} else {})
  {
    var p := c[..|c| - 1];
    assert forall k :: 0 <= k < |p| ==> p[k] == c[k];
  }

  /** The names of the first occurrences are all declared names. */
  lemma {:induction false} FirstsNames(c: seq<Candidate>)
    ensures NamesOf(Firsts(c)) == DeclaredNames(c)
    decreases |c|
  {
    if c != [] {
      var p := c[..|c| - 1];
      FirstsNames(p);
      DeclaredNamesStep(c);
      assert c[..|c| - 1] == p;
      if IsFirst(c, |c| - 1) {
        NamesOfAppend(Firsts(p), FoundOf(c[|c| - 1]));
      } else {
        assert Firsts(c) == Firsts(p) + [] == Firsts(p);
        assert DeclaredNames(c) == DeclaredNames(p);
      }
    }
  }

  /** The generator yields the first occurrences among the candidates before the first
      library that fails to open, and raises exactly there. */
  lemma {:induction false} ScanIsFirsts(c: seq<Candidate>)
    ensures Scan(c).yielded == Firsts(c[..FirstFailure(c)])
    ensures Scan(c).error == (if FirstFailure(c) < |c| then Some(c[FirstFailure(c)].outcome.error) else None)
    decreases |c|
  {
    if c == [] {
      assert c[..0] == [];
    } else {
      var p := c[..|c| - 1];
      var x := c[|c| - 1];
      ScanIsFirsts(p);
      assert forall j :: 0 <= j < |p| ==> p[j] == c[j];
      var f := FirstFailure(p);
      if f < |p| {
        assert c[..f] == p[..f];
      } else {
        assert p[..f] == p;
        FirstsNames(p);
        if x.outcome.Failure? {
          assert c[..|p|] == p;
        } else {
          assert c[..|c|] == c;
          assert c[..|c| - 1] == p;
          if IsFirst(c, |c| - 1) {
          } else {
            assert Firsts(c) == Firsts(p) + [];
          }
        }
      }
    }
  }

  /** No two yielded plugins declare the same name. */
  lemma {:induction false} FirstsDistinct(c: seq<Candidate>)
    ensures forall a, b :: 0 <= a < b < |Firsts(c)| ==> Firsts(c)[a].name != Firsts(c)[b].name
    decreases |c|
  {
    if c != [] {
      var p := c[..|c| - 1];
      FirstsDistinct(p);
      FirstsNames(p);
      var f := Firsts(c);
      if IsFirst(c, |c| - 1) {
        forall a, b | 0 <= a < b < |f| ensures f[a].name != f[b].name {
          if b == |f| - 1 {
            assert f[a] == Firsts(p)[a];
            assert f[a].name in NamesOf(Firsts(p));
          } else {
            assert f[a] == Firsts(p)[a] && f[b] == Firsts(p)[b];
          }
        }
      } else {
        assert f == Firsts(p) + [];
      }
    }
  }

  /** Completeness: every first occurrence is yielded. */
  lemma {:induction false} FirstsComplete(c: seq<Candidate>, j: int)
    requires IsFirst(c, j)
    ensures FoundOf(c[j]) in Firsts(c)
    ensures forall m :: j < m <= |c| ==> FoundOf(c[j]) in Firsts(c[..m])
    decreases |c|
  {
    var p := c[..|c| - 1];
    assert c[..|c|] == c;
    if j < |c| - 1 {
      assert p[..j] == c[..j] && p[j] == c[j];
      FirstsComplete(p, j);
      forall m | j < m <= |c| ensures FoundOf(c[j]) in Firsts(c[..m]) {
        if m < |c| {
          assert c[..m] == p[..m];
        }
      }
    } else {
      forall m | j < m <= |c| ensures FoundOf(c[j]) in Firsts(c[..m]) {
        assert m == |c|;
      }
    }
  }

  /** Soundness: every yielded plugin is the first candidate of its name. */
  lemma {:induction false} FirstsSound(c: seq<Candidate>, a: int)
    requires 0 <= a < |Firsts(c)|
    ensures exists j :: IsFirst(c, j) && Firsts(c)[a] == FoundOf(c[j])
    decreases |c|
  {
    var p := c[..|c| - 1];
    if a < |Firsts(p)| {
      FirstsSound(p, a);
      var j :| IsFirst(p, j) && Firsts(p)[a] == FoundOf(p[j]);
      assert p[..j] == c[..j] && p[j] == c[j];
      assert Firsts(c)[a] == Firsts(p)[a];
      assert IsFirst(c, j);
    } else {
      assert IsFirst(c, |c| - 1);
      assert Firsts(c)[a] == FoundOf(c[|c| - 1]);
    }
  }

  /** Order is preserved: of two first occurrences, the earlier candidate is yielded first. */
  lemma {:induction false} FirstsOrder(c: seq<Candidate>, ja: int, jb: int)
    requires IsFirst(c, ja) && IsFirst(c, jb) && ja < jb
    ensures exists a, b :: 0 <= a < b < |Firsts(c)| && Firsts(c)[a] == FoundOf(c[ja]) && Firsts(c)[b] == FoundOf(c[jb])
    decreases |c|
  {
    var p := c[..|c| - 1];
    assert p[..ja] == c[..ja] && p[ja] == c[ja];
    if jb < |c| - 1 {
      assert p[..jb] == c[..jb] && p[jb] == c[jb];
      FirstsOrder(p, ja, jb);
      var a, b :| 0 <= a < b < |Firsts(p)| && Firsts(p)[a] == FoundOf(p[ja]) && Firsts(p)[b] == FoundOf(p[jb]);
      assert Firsts(c)[a] == Firsts(p)[a] && Firsts(c)[b] == Firsts(p)[b];
    } else {
      FirstsComplete(p, ja);
      var a :| 0 <= a < |Firsts(p)| && Firsts(p)[a] == FoundOf(p[ja]);
      var b := |Firsts(p)|;
      assert Firsts(c)[a] == Firsts(p)[a];
      assert Firsts(c)[b] == FoundOf(c[jb]);
    }
  }

  lemma {:induction false} ItemCandidatesEndInSo(dir: string, items: seq<Item>)
    ensures forall k :: 0 <= k < |ItemCandidates(dir, items)| ==> EndsWith(ItemCandidates(dir, items)[k].path, ".so")
    decreases |items|
  {
    if items != [] {
      ItemCandidatesEndInSo(dir, items[..|items| - 1]);
      var item := items[|items| - 1];
      assert EndsWith(PathJoin(dir, item.name), item.name);
    }
  }

  /** Every library `find_all_in` opens has a path ending in `.so`. */
  lemma {:induction false} CandidatesEndInSo(dirs: seq<Dir>)
    ensures forall k :: 0 <= k < |Candidates(dirs)| ==> EndsWith(Candidates(dirs)[k].path, ".so")
    decreases |dirs|
  {
    if dirs != [] {
      var d := dirs[|dirs| - 1];
      CandidatesEndInSo(dirs[..|dirs| - 1]);
      ItemCandidatesEndInSo(d.path, d.listing);
    }
  }

  /** What `find_all_in` yields: library paths ending in `.so`, pairwise distinct declared
      names, each the first candidate of its name, before any library that failed to open. */
  lemma FindAllInYields(dirs: seq<Dir>)
    ensures var r := Scan(Candidates(dirs));
            && (forall a :: 0 <= a < |r.yielded| ==> EndsWith(r.yielded[a].path, ".so"))
            && (forall a, b :: 0 <= a < b < |r.yielded| ==> r.yielded[a].name != r.yielded[b].name)
  {
    var c := Candidates(dirs);
    var f := FirstFailure(c);
    ScanIsFirsts(c);
    FirstsDistinct(c[..f]);
    CandidatesEndInSo(dirs);
    var y := Scan(c).yielded;
    forall a | 0 <= a < |y| ensures EndsWith(y[a].path, ".so") {
      FirstsSound(c[..f], a);
      var j :| IsFirst(c[..f], j) && y[a] == FoundOf(c[..f][j]);
      assert c[..f][j] == c[j];
    }
  }

  /** Candidate `x` is what opening a listed regular file named `*.so`, in a search
      directory that is a directory, gives. */
  predicate Listed(dirs: seq<Dir>, x: Candidate)
  {
    exists d, it :: d in dirs && it in d.listing && d.isDir && it.isFile && EndsWith(it.name, ".so")
                    && x == Candidate(PathJoin(d.path, it.name), it.outcome)
  }

  /** Candidate `k` of a listing comes from a listed regular file whose name ends in `.so`. */
  lemma {:induction false} ItemCandidateSource(dir: string, items: seq<Item>, k: int) returns (it: Item)
    requires 0 <= k < |ItemCandidates(dir, items)|
    ensures it in items && it.isFile && EndsWith(it.name, ".so")
    ensures ItemCandidates(dir, items)[k] == Candidate(PathJoin(dir, it.name), it.outcome)
    decreases |items|
  {
    var p := items[..|items| - 1];
    var last := items[|items| - 1];
    var q := ItemCandidates(dir, p);
    if k < |q| {
      it := ItemCandidateSource(dir, p, k);
      assert it in items;
    } else {
      it := last;
    }
  }

  /** Every library `find_all_in` opens is a listed regular `.so` file of a directory. */
  lemma {:induction false} CandidatesListed(dirs: seq<Dir>)
    ensures forall k :: 0 <= k < |Candidates(dirs)| ==> Listed(dirs, Candidates(dirs)[k])
    decreases |dirs|
  {
    if dirs != [] {
      var p := dirs[..|dirs| - 1];
      var d := dirs[|dirs| - 1];
      CandidatesListed(p);
      var c := Candidates(dirs);
      assert c == Candidates(p) + DirCandidates(d);
      forall k | 0 <= k < |c| ensures Listed(dirs, c[k]) {
        if k < |Candidates(p)| {
          assert c[k] == Candidates(p)[k];
          assert Listed(p, Candidates(p)[k]);
          var d', it :| d' in p && it in d'.listing && d'.isDir && it.isFile && EndsWith(it.name, ".so")
                        && Candidates(p)[k] == Candidate(PathJoin(d'.path, it.name), it.outcome);
          assert d' in dirs;
        } else {
          var m := k - |Candidates(p)|;
          assert d.isDir && c[k] == ItemCandidates(d.path, d.listing)[m];
          var it := ItemCandidateSource(d.path, d.listing, m);
          assert d in dirs;
        }
      }
    }
  }

  /** Every plugin `find_all_in` yields comes from a regular file whose name ends in `.so`,
      listed in a search directory that is a directory, and carries the name that opening
      that file declared. */
  lemma FindAllInYieldsListed(dirs: seq<Dir>)
    ensures var y := Scan(Candidates(dirs)).yielded;
            forall a :: 0 <= a < |y| ==> Listed(dirs, Candidate(y[a].path, Success(y[a].name)))
  {
    var c := Candidates(dirs);
    var f := FirstFailure(c);
    ScanIsFirsts(c);
    CandidatesListed(dirs);
    var y := Scan(c).yielded;
    forall a | 0 <= a < |y| ensures Listed(dirs, Candidate(y[a].path, Success(y[a].name))) {
      FirstsSound(c[..f], a);
      var j :| IsFirst(c[..f], j) && y[a] == FoundOf(c[..f][j]);
      assert c[..f][j] == c[j];
      assert Listed(dirs, c[j]);
    }
  }

  /** Every listed regular `.so` file of a search directory opens as the library `load`
      gives for its joined path: its item's outcome is what `Plugin(libname)` gives there. */
  predicate OpensAs(dirs: seq<Dir>, load: string -> Option<Plugin.NativeLib>, narrow: real -> real)
  {
    forall d, it :: d in dirs && it in d.listing && d.isDir && it.isFile && EndsWith(it.name, ".so") ==>
      it.outcome == InitOutcome(PathJoin(d.path, it.name), load(PathJoin(d.path, it.name)), narrow)
  }

  /** Yielded plugin `a` comes from a listed regular `.so` file. */
  lemma YieldedListed(dirs: seq<Dir>, a: int)
    requires 0 <= a < |Scan(Candidates(dirs)).yielded|
    ensures var y := Scan(Candidates(dirs)).yielded[a];
            Listed(dirs, Candidate(y.path, Success(y.name)))
  {
    FindAllInYieldsListed(dirs);
  }

  /** A listed candidate's outcome is what opening its path with `load` gives. */
  lemma ListedOpens(dirs: seq<Dir>, load: string -> Option<Plugin.NativeLib>, narrow: real -> real, x: Candidate)
    requires OpensAs(dirs, load, narrow) && Listed(dirs, x)
    ensures x.outcome == InitOutcome(x.path, load(x.path), narrow)
  {
    var d, it :| d in dirs && it in d.listing && d.isDir && it.isFile && EndsWith(it.name, ".so")
                 && x == Candidate(PathJoin(d.path, it.name), it.outcome);
  }

  /** A library that opens loads, exports every bound entry point, and declares the name. */
  lemma InitOutcomeSuccess(path: string, load: Option<Plugin.NativeLib>, narrow: real -> real)
    requires InitOutcome(path, load, narrow).Success?
    ensures && load.Some? && InitSym in load.value.symbols
            && Plugin.FirstMissing(load.value.symbols, BoundSymbols).None?
            && Structs.DecodePluginInfo(load.value.info).Success?
            && InitOutcome(path, load, narrow).value == Structs.DecodePluginInfo(load.value.info).value.name
  {
  }

  /** When the listed files open as `load` says, every plugin `find_all_in` yields is a
      library that loads, exports every entry point and declares the yielded name in its
      `plugin_info_t`; and an exception that stops the walk is what opening some listed
      file raised. */
  lemma FindAllInOpens(dirs: seq<Dir>, load: string -> Option<Plugin.NativeLib>, narrow: real -> real)
    requires OpensAs(dirs, load, narrow)
    ensures var r := Scan(Candidates(dirs));
            && (forall a :: 0 <= a < |r.yielded| ==>
                  && load(r.yielded[a].path).Some?
                  && InitSym in load(r.yielded[a].path).value.symbols
                  && Plugin.FirstMissing(load(r.yielded[a].path).value.symbols, BoundSymbols).None?
                  && Structs.DecodePluginInfo(load(r.yielded[a].path).value.info).Success?
                  && r.yielded[a].name == Structs.DecodePluginInfo(load(r.yielded[a].path).value.info).value.name)
            && (r.error.Some? ==>
                  exists x :: Listed(dirs, x) && x.outcome == Failure(r.error.value)
                              && InitOutcome(x.path, load(x.path), narrow) == x.outcome)
  {
    var c := Candidates(dirs);
    var r := Scan(c);
    forall a | 0 <= a < |r.yielded|
      ensures && load(r.yielded[a].path).Some?
              && InitSym in load(r.yielded[a].path).value.symbols
              && Plugin.FirstMissing(load(r.yielded[a].path).value.symbols, BoundSymbols).None?
              && Structs.DecodePluginInfo(load(r.yielded[a].path).value.info).Success?
              && r.yielded[a].name == Structs.DecodePluginInfo(load(r.yielded[a].path).value.info).value.name
    {
      var y := r.yielded[a];
      YieldedListed(dirs, a);
      ListedOpens(dirs, load, narrow, Candidate(y.path, Success(y.name)));
      InitOutcomeSuccess(y.path, load(y.path), narrow);
    }
    if r.error.Some? {
      ScanIsFirsts(c);
      CandidatesListed(dirs);
      var f := FirstFailure(c);
      assert f < |c|;
      var x := c[f];
      assert Listed(dirs, x);
      ListedOpens(dirs, load, narrow, x);
    }
  }
}
