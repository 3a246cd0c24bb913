/** The module loader (js/__loader.js): require with its cache, over any graph of modules. */
module ModuleLoader {
  import opened ModulePaths

  type Exports = nat

  // What a call of require comes to.
  datatype Result = Returned(value: Exports) | Thrown

  // What a script does next, as far as the loader can see.
  datatype Act =
    | End
    | Throw
    | Require(request: string)
    | SetExports(value: Exports)

  // A script: its next act by what its acts so far came to, for as many acts as it takes. A call that
  // throws can be caught.
  datatype Script = Script(next: seq<Result> -> Act, acts: nat)

  // The content of a file: none, or a text, with what JSON.parse and the engine make of it.
  datatype Content = Nothing | Text(parsed: Option<Exports>, script: Script)

  // These are the results of the acts of a script.
  ghost predicate Played(script: Script, trace: seq<Result>) {
    forall k :: 0 <= k < |trace| ==> k < script.acts && Comes(script.next(trace[..k]), trace[k])
  }

  predicate Comes(act: Act, r: Result) {
    act.Require? || (act.SetExports? && r == Returned(act.value))
  }

  // The script has nothing more to do after these results, or throws.
  predicate Ends(script: Script, trace: seq<Result>) {
    |trace| >= script.acts || script.next(trace).End?
  }

  predicate Throws(script: Script, trace: seq<Result>) {
    |trace| < script.acts && script.next(trace).Throw?
  }

  // What it exports after them: what it has set last, or what it began with.
  function Exported(script: Script, trace: seq<Result>, blank: Exports): Exports
    decreases |trace|
  {
    if trace == [] then blank
    else
      var n := |trace| - 1;
      var act := script.next(trace[..n]);
      if act.SetExports? then act.value else Exported(script, trace[..n], blank)
  }

  lemma OneMore(script: Script, trace: seq<Result>, r: Result, blank: Exports)
    requires Played(script, trace) && |trace| < script.acts && Comes(script.next(trace), r)
    ensures Played(script, trace + [r])
    ensures Exported(script, trace + [r], blank) == if script.next(trace).SetExports? then script.next(trace).value else Exported(script, trace, blank)
  {
    var more := trace + [r];
    assert more[..|trace|] == trace;
    forall k | 0 <= k < |more| ensures k < script.acts && Comes(script.next(more[..k]), more[k]) {
      if k < |trace| {
        assert more[..k] == trace[..k];
      }
    }
  }

  // A script that requires nothing has one result.
  ghost predicate Requires(script: Script, trace: seq<Result>) {
    exists k :: 0 <= k < |trace| && script.next(trace[..k]).Require?
  }

  lemma {:induction false} SamePlay(script: Script, a: seq<Result>, b: seq<Result>, n: nat)
    requires Played(script, a) && Played(script, b) && !Requires(script, a) && n <= |a| && n <= |b|
    ensures a[..n] == b[..n]
  {
    if n > 0 {
      SamePlay(script, a, b, n - 1);
      assert Comes(script.next(a[..n - 1]), a[n - 1]) && Comes(script.next(b[..n - 1]), b[n - 1]);
      assert a[..n] == a[..n - 1] + [a[n - 1]] && b[..n] == b[..n - 1] + [b[n - 1]];
    }
  }

  lemma GoesOn(script: Script, a: seq<Result>, b: seq<Result>)
    requires Played(script, b) && |a| < |b| && b[..|a|] == a
    ensures !Ends(script, a) && !Throws(script, a)
  {
    assert Comes(script.next(b[..|a|]), b[|a|]);
  }

  /** What a script does that requires nothing depends on nothing else. */
  lemma AlwaysTheSame(script: Script, a: seq<Result>, b: seq<Result>)
    requires Played(script, a) && Played(script, b) && !Requires(script, a)
    requires (Ends(script, a) || Throws(script, a)) && (Ends(script, b) || Throws(script, b))
    ensures a == b
  {
    var n := if |a| < |b| then |a| else |b|;
    SamePlay(script, a, b, n);
    assert a[..|a|] == a && b[..|b|] == b;
    if |a| < |b| {
      GoesOn(script, a, b);
    } else if |b| < |a| {
      GoesOn(script, b, a);
    }
  }

  // endsWith
  predicate EndsWith(s: string, suffix: string) {
    |s| >= |suffix| && s[|s| - |suffix|..] == suffix
  }

  ghost predicate Good(files: set<Path>, cached: set<Path>, evaluated: seq<Path>) {
    cached <= files && (forall p :: p in cached ==> Normal(Split(p))) && Once(evaluated) && (forall p :: p in evaluated ==> p in cached)
  }

  class Loader {
    const site: Site
    const contents: map<Path, Content>
    const blank: Exports                // the exports a module begins with
    var cache: map<Path, Exports>       // the module of a path, by its exports
    var current: Path                   // global.module
    ghost var evaluated: seq<Path>      // the files whose content was run, in order

    constructor (site: Site, contents: map<Path, Content>, blank: Exports)
      requires Plain(site.builtinsFrom) && contents.Keys == site.files.Keys
      ensures Valid() && cache == map[] && evaluated == [] && current == ""
      ensures this.site == site && this.contents == contents && this.blank == blank
    {
      this.site, this.contents, this.blank := site, contents, blank;
      cache, current, evaluated := map[], "", [];
    }

    // Every module in the cache is a file, by its normal name; each was run at most once.
    ghost predicate Valid()
      reads this
    {
      Plain(site.builtinsFrom) && contents.Keys == site.files.Keys && Good(site.files.Keys, cache.Keys, evaluated)
    }

    // The file that a module finds for a request.
    function Target(from: Path, request: string): Found {
      Resolve(site, DirOf(from), request)
    }

    ghost function Uncached(): nat
      reads this
    {
      Without(site.files.Keys, cache.Keys)
    }

    // What the module self was given when it required something: nothing but an exception when there is no such file,
    // what it had exported itself so far, or what the module exports, unless loading it fails.
    ghost predicate SawAll(self: Path, script: Script, trace: seq<Result>)
      reads this
    {
      forall k :: 0 <= k < |trace| ==> Saw(cache, self, script, trace, k)
    }

    ghost predicate Saw(cached: map<Path, Exports>, self: Path, script: Script, trace: seq<Result>, k: nat)
      requires k < |trace|
    {
      var act := script.next(trace[..k]);
      act.Require? ==>
        var found := Target(self, act.request);
        if !found.File? then trace[k].Thrown?
        else if found.path == self then trace[k] == Returned(Exported(script, trace[..k], blank))
        else if trace[k].Returned? then found.path in cached && cached[found.path] == trace[k].value
        else CanFail(found.path)
    }

    // What a file comes to that is not in the cache; the results of the acts of its script are trace.
    ghost predicate Fails(path: Path, trace: seq<Result>)
      requires path in contents
    {
      || EndsWith(path, ".node") || contents[path].Nothing?
      || (if EndsWith(path, ".json") then contents[path].parsed.None? else Throws(contents[path].script, trace))
    }

    ghost function Value(path: Path, trace: seq<Result>): Exports
      requires path in contents && !Fails(path, trace)
    {
      if EndsWith(path, ".json") then contents[path].parsed.value else Exported(contents[path].script, trace, blank)
    }

    // Loading the file fails, at least by what its script may be given.
    ghost predicate CanFail(path: Path) {
      path in contents && exists trace :: Whole(path, trace) && Fails(path, trace)
    }

    // The acts of the script of a file, from the first to the last.
    ghost predicate Whole(path: Path, trace: seq<Result>)
      requires path in contents
    {
      contents[path].Text? && !EndsWith(path, ".json") && !EndsWith(path, ".node") ==>
        var script := contents[path].script;
        Played(script, trace) && (Ends(script, trace) || Throws(script, trace))
    }

    // What loading has kept.
    ghost predicate Grown(before: set<Path>, log: seq<Path>)
      reads this
    {
      Grows(before, log, cache.Keys, evaluated)
    }

    /** require: ends on any graph of modules, runs no file that is in the cache, returns what the
        module exports at that moment, and leaves global.module as it was whenever it returns. */
    method Load(from: Path, request: string) returns (r: Result, ghost trace: seq<Result>)
      requires Valid()
      modifies this
      ensures Valid() && Grown(old(cache.Keys), old(evaluated)) && Uncached() <= old(Uncached()) && Keeps(old(cache), cache, {})
      ensures Target(from, request).File? && Target(from, request).path !in old(cache) ==>
        && Target(from, request).path in contents && Whole(Target(from, request).path, trace)
        && r == if Fails(Target(from, request).path, trace) then Thrown else Returned(Value(Target(from, request).path, trace))
      ensures !Target(from, request).File? ==> r.Thrown? && cache == old(cache) && evaluated == old(evaluated)
      ensures r.Returned? ==>
        && current == old(current) && Target(from, request).File?
        && Target(from, request).path in cache && cache[Target(from, request).path] == r.value
      ensures Target(from, request).File? && Target(from, request).path in old(cache) ==>
        && r == Returned(old(cache)[Target(from, request).path])
        && cache == old(cache) && evaluated == old(evaluated)
      ensures r.Returned? && Target(from, request).path !in old(cache) ==> Target(from, request).path in evaluated
      ensures Target(from, request).File? && r.Thrown? ==> CanFail(Target(from, request).path)
      decreases Uncached(), 0
    {
      hide Resolve;
      var found := Resolve(site, DirOf(from), request);
      DirIsPlain(from);
      ResolveIsProper(site, DirOf(from), request);
      trace := [];
      KeepsSame(cache, {});
      if !found.File? {
        return Thrown, trace;
      }
      var path := found.path;
      if path in cache {
        return Returned(cache[path]), trace;
      }
      r, trace := LoadNew(path);
    }

    // A module that is not in the cache.
    method LoadNew(path: Path) returns (r: Result, ghost trace: seq<Result>)
      requires Valid() && path in site.files && Normal(Split(path)) && path !in cache
      modifies this
      ensures Valid() && Grown(old(cache.Keys), old(evaluated)) && Uncached() <= old(Uncached()) && Keeps(old(cache), cache, {})
      ensures r.Returned? ==> current == old(current) && path in cache && cache[path] == r.value && path in evaluated
      ensures path in contents && Whole(path, trace) && r == if Fails(path, trace) then Thrown else Returned(Value(path, trace))
      ensures contents[path].Text? && !EndsWith(path, ".json") && !EndsWith(path, ".node") ==> SawAll(path, contents[path].script, trace)
      ensures EndsWith(path, ".node") ==> r.Thrown? && cache == old(cache)
      decreases Uncached(), -1
    {
      hide Without, Good, Grows, Normal, Split, EndsWith, Plain, Played, Exported, Ends, Throws, Keeps;
      var saved := current;
      trace := [];
      KeepsSame(cache, {});
      if EndsWith(path, ".node") {
        Same(cache.Keys, evaluated);
        return Thrown, trace;
      }
      Enter(path);
      KeepsSet(old(cache), path, blank);
      ghost var entered := cache;
      var ok;
      NotRun(site.files.Keys, old(cache.Keys), evaluated, path);
      ok, trace := Evaluate(path);
      KeepsOn(old(cache), entered, cache, {path}, {path});
      assert {path} + {path} == {path};
      KeepsNew(old(cache), cache, path);
      if !ok {
        return Thrown, trace;
      }
      current := saved;
      r := Returned(cache[path]);
    }

    // A new module is in the cache and is the current one.
    method Enter(path: Path)
      requires Valid() && path in site.files && Normal(Split(path)) && path !in cache
      modifies `cache, `current
      ensures Valid() && cache == old(cache)[path := blank] && current == path
      ensures cache.Keys - {path} == old(cache.Keys) && Uncached() < old(Uncached())
    {
      hide Without, Good, Grows, Normal, Split, Plain;
      OneLess(site.files.Keys, cache.Keys, path);
      ghost var before := cache.Keys;
      GoodEnter(site.files.Keys, before, evaluated, path);
      cache := cache[path := blank];
      assert cache.Keys == before + {path};
      current := path;
    }

    // The content of a file whose module has just been put into the cache.
    method Evaluate(path: Path) returns (ok: bool, ghost trace: seq<Result>)
      requires Valid() && path in cache && path !in evaluated && cache[path] == blank && !EndsWith(path, ".node")
      modifies this
      ensures Valid() && Uncached() <= old(Uncached()) && path in cache
      ensures Grown(old(cache.Keys) - {path}, old(evaluated)) && (ok ==> path in evaluated)
      ensures Keeps(old(cache), cache, {path}) && path in contents && Whole(path, trace)
      ensures ok == !Fails(path, trace) && (ok ==> cache[path] == Value(path, trace))
      ensures contents[path].Text? && !EndsWith(path, ".json") ==> SawAll(path, contents[path].script, trace)
      decreases Uncached(), 2
    {
      hide Without, EndsWith, Keeps, Good, Plain;
      Cached(site.files.Keys, cache.Keys, evaluated, path);
      ok, trace := false, [];
      KeepsSame(cache, {path});
      Entered(cache.Keys, evaluated, path);
      if contents[path].Nothing? {
        return;
      }
      GoodRun(site.files.Keys, cache.Keys, evaluated, path);
      evaluated := evaluated + [path];
      if EndsWith(path, ".json") {
        var parsed := contents[path].parsed;
        if parsed.Some? {
          KeepsSet(cache, path, parsed.value);
          Export(path, parsed.value);
          ok := true;
        }
      } else {
        hide Grows;
        ghost var k0, l0 := cache.Keys - {path}, old(evaluated);
        ghost var k1, l1 := cache.Keys, evaluated;
        ok, trace := RunScript(path, contents[path].script, []);
        RunThere(k1, l1, cache.Keys, evaluated, path);
        StillGrown(k0, l0, k1, l1, cache.Keys, evaluated);
      }
    }

    // One more result, and what the others export is kept.
    lemma SawMore(c0: map<Path, Exports>, c1: map<Path, Exports>, self: Path, script: Script, results: seq<Result>, r: Result, but: set<Path>)
      requires forall k :: 0 <= k < |results| ==> Saw(c0, self, script, results, k)
      requires Keeps(c0, c1, but) && but <= {self} && Saw(c1, self, script, results + [r], |results|)
      ensures forall k :: 0 <= k < |results + [r]| ==> Saw(c1, self, script, results + [r], k)
    {
      forall k | 0 <= k < |results + [r]| ensures Saw(c1, self, script, results + [r], k) {
        if k < |results| {
          assert Saw(c0, self, script, results, k);
          assert (results + [r])[..k] == results[..k];
        }
      }
    }

    method Export(self: Path, value: Exports)
      requires Valid() && self in cache
      modifies `cache
      ensures Valid() && cache == old(cache)[self := value] && cache.Keys == old(cache.Keys) && Uncached() == old(Uncached())
    {
      hide Without, Good, Plain;
      cache := cache[self := value];
      assert cache.Keys == old(cache.Keys);
    }

    // A script goes on after its acts so far.
    method RunScript(self: Path, script: Script, results: seq<Result>) returns (ok: bool, ghost trace: seq<Result>)
      requires Valid() && self in cache && Played(script, results) && cache[self] == Exported(script, results, blank)
      requires SawAll(self, script, results)
      modifies this
      ensures Valid() && Grown(old(cache.Keys), old(evaluated)) && Uncached() <= old(Uncached()) && Keeps(old(cache), cache, {self})
      ensures Played(script, trace) && self in cache && cache[self] == Exported(script, trace, blank)
      ensures if ok then Ends(script, trace) else Throws(script, trace)
      ensures SawAll(self, script, trace)
      decreases Uncached(), 1, script.acts - |results|
    {
      hide Without, Good, Played, Exported, Grows, Plain, Keeps, Resolve, DirOf, Split, EndsWith, Whole, Fails, Value, Target, CanFail;
      trace := results;
      Same(cache.Keys, evaluated);
      KeepsSame(cache, {self});
      if |results| >= script.acts {
        return true, trace;
      }
      match script.next(results)
      case End => ok := true;
      case Throw => ok := false;
      case Require(request) =>
        ghost var c0, l0 := cache, evaluated;
        var r, _ := Load(self, request);
        ghost var c1, l1 := cache, evaluated;
        KeepsAt(c0, c1, self);
        assert (results + [r])[..|results|] == results;
        OneMore(script, results, r, blank);
        SawMore(c0, c1, self, script, results, r, {});
        ok, trace := RunScript(self, script, results + [r]);
        StillGrown(c0.Keys, l0, c1.Keys, l1, cache.Keys, evaluated);
        KeepsOn(c0, c1, cache, {}, {self});
        assert {} + {self} == {self};
      case SetExports(value) =>
        ghost var c0 := cache;
        KeepsSet(c0, self, value);
        Export(self, value);
        ghost var c1 := cache;
        assert (results + [Returned(value)])[..|results|] == results;
        OneMore(script, results, Returned(value), blank);
        SawMore(c0, c1, self, script, results, Returned(value), {self});
        ok, trace := RunScript(self, script, results + [Returned(value)]);
        KeepsOn(c0, c1, cache, {self}, {self});
        assert {self} + {self} == {self};
    }
  }

  lemma DirIsPlain(path: Path)
    ensures Plain(DirOf(path))
  {
    SplitIsPlain(path);
  }

  // The modules that were in the cache, but for these, export what they exported.
  ghost predicate Keeps(before: map<Path, Exports>, after: map<Path, Exports>, but: set<Path>) {
    forall p :: p in before && p !in but ==> p in after && after[p] == before[p]
  }

  lemma KeepsOn(a: map<Path, Exports>, b: map<Path, Exports>, c: map<Path, Exports>, but: set<Path>, but': set<Path>)
    requires Keeps(a, b, but) && Keeps(b, c, but')
    ensures Keeps(a, c, but + but')
  {
  }

  lemma KeepsSame(a: map<Path, Exports>, but: set<Path>)
    ensures Keeps(a, a, but)
  {
  }

  lemma KeepsSet(a: map<Path, Exports>, p: Path, v: Exports)
    ensures Keeps(a, a[p := v], {p})
  {
  }

  lemma KeepsNew(a: map<Path, Exports>, b: map<Path, Exports>, p: Path)
    requires Keeps(a, b, {p}) && p !in a
    ensures Keeps(a, b, {})
  {
  }

  lemma KeepsAt(a: map<Path, Exports>, b: map<Path, Exports>, p: Path)
    requires Keeps(a, b, {}) && p in a
    ensures p in b && b[p] == a[p]
  {
  }

  // Modules stay in the cache, and only files that were not in it have been run.
  ghost predicate Grows(keys: set<Path>, log: seq<Path>, keys': set<Path>, log': seq<Path>) {
    keys <= keys' && log <= log' && forall i :: |log| <= i < |log'| ==> log'[i] !in keys
  }

  lemma GoodEnter(files: set<Path>, cached: set<Path>, evaluated: seq<Path>, path: Path)
    requires Good(files, cached, evaluated) && path in files && Normal(Split(path))
    ensures Good(files, cached + {path}, evaluated)
  {
    hide Normal, Split, Once;
  }

  lemma Cached(files: set<Path>, cached: set<Path>, evaluated: seq<Path>, path: Path)
    requires Good(files, cached, evaluated) && path in cached
    ensures path in files
  {
  }

  lemma NotRun(files: set<Path>, cached: set<Path>, evaluated: seq<Path>, path: Path)
    requires Good(files, cached, evaluated) && path !in cached
    ensures path !in evaluated
  {
  }

  lemma GoodRun(files: set<Path>, cached: set<Path>, evaluated: seq<Path>, path: Path)
    requires Good(files, cached, evaluated) && path in cached && path !in evaluated
    ensures Good(files, cached, evaluated + [path])
  {
    hide Normal, Split;
  }

  lemma Entered(keys: set<Path>, log: seq<Path>, path: Path)
    ensures Grows(keys - {path}, log, keys, log) && Grows(keys - {path}, log, keys, log + [path])
  {
  }

  lemma RunThere(keys: set<Path>, log: seq<Path>, keys': set<Path>, log': seq<Path>, path: Path)
    requires Grows(keys, log, keys', log') && path in log
    ensures path in log'
  {
  }

  lemma Same(keys: set<Path>, log: seq<Path>)
    ensures Grows(keys, log, keys, log)
  {
  }

  lemma StillGrown(k0: set<Path>, l0: seq<Path>, k1: set<Path>, l1: seq<Path>, k2: set<Path>, l2: seq<Path>)
    requires Grows(k0, l0, k1, l1) && Grows(k1, l1, k2, l2)
    ensures Grows(k0, l0, k2, l2)
  {
    forall i | |l0| <= i < |l2| ensures l2[i] !in k0 {
      if i < |l1| {
        assert l1[i] == l2[i];
      }
    }
  }

  ghost predicate Once(s: seq<Path>) {
    forall i, j :: 0 <= i < j < |s| ==> s[i] != s[j]
  }

  // How many files are not in the cache.
  ghost function Without(files: set<Path>, cached: set<Path>): nat {
    |files - cached|
  }

  lemma OneLess(all: set<Path>, some: set<Path>, p: Path)
    requires p in all && p !in some
    ensures Without(all, some + {p}) < Without(all, some)
  {
    assert all - some == (all - (some + {p})) + {p};
  }
}
