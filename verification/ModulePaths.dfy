/** How the module loader (js/__loader.js) finds the file for a request: normalization of paths, files,
    directories with their package.json, and node_modules, over a fixed set of files. */
module ModulePaths {

  datatype Option<T> = None | Some(value: T)

  type Path = string

  // ------------------------------------------------------------------
  // Components
  // ------------------------------------------------------------------

  // split('/') and join('/')
  function Split(s: string): (r: seq<string>)
    ensures r != []
  {
    if s == "" then [""]
    else
      var rest := Split(s[1..]);
      if s[0] == '/' then [""] + rest else [[s[0]] + rest[0]] + rest[1..]
  }

  function Join(parts: seq<string>): string {
    if parts == [] then "" else if |parts| == 1 then parts[0] else parts[0] + "/" + Join(parts[1..])
  }

  predicate NoSlash(s: string) {
    '/' !in s
  }

  ghost predicate Plain(parts: seq<string>) {
    forall i :: 0 <= i < |parts| ==> NoSlash(parts[i])
  }

  lemma {:induction false} SplitPart(s: string)
    requires NoSlash(s)
    ensures Split(s) == [s]
  {
    if s != "" {
      SplitPart(s[1..]);
      assert [s[0]] + s[1..] == s;
    }
  }

  lemma {:induction false} SplitFirst(s: string, t: string)
    requires NoSlash(s)
    ensures Split(s + "/" + t) == [s] + Split(t)
  {
    if s == "" {
      assert s + "/" + t == "/" + t && ("/" + t)[1..] == t;
    } else {
      SplitFirst(s[1..], t);
      assert (s + "/" + t)[1..] == s[1..] + "/" + t;
      assert [s[0]] + s[1..] == s;
    }
  }

  /** Splitting undoes joining, for parts without slashes. */
  lemma {:induction false} SplitJoin(parts: seq<string>)
    requires parts != [] && Plain(parts)
    ensures Split(Join(parts)) == parts
  {
    if |parts| == 1 {
      SplitPart(parts[0]);
    } else {
      SplitJoin(parts[1..]);
      SplitFirst(parts[0], Join(parts[1..]));
    }
  }

  lemma {:induction false} SplitIsPlain(s: string)
    ensures Plain(Split(s))
  {
    if s != "" {
      SplitIsPlain(s[1..]);
    }
  }

  // ------------------------------------------------------------------
  // normalizePath
  // ------------------------------------------------------------------

  // A component that a normalized path can have.
  predicate IsName(p: string) {
    p != "" && p != "." && p != ".."
  }

  // A normalized path: names, after an empty component if it is absolute.
  ghost predicate Normal(r: seq<string>) {
    forall i :: 0 <= i < |r| ==> IsName(r[i]) || (i == 0 && r[0] == "")
  }

  // Walks along components from r.
  function Walk(r: seq<string>, components: seq<string>): Option<seq<string>>
    decreases |components|
  {
    if components == [] then Some(r)
    else
      var p, rest := components[0], components[1..];
      if p == "" then Walk(if r == [] then [p] else r, rest)
      else if p == "." then Walk(r, rest)
      else if p == ".." then if r == [] then None else Walk(r[..|r| - 1], rest)
      else Walk(r + [p], rest)
  }

  /** normalizePath: a normal path, or null when .. leads out at the top. */
  method NormalizePath(components: seq<string>) returns (r: Option<seq<string>>)
    ensures r == Walk([], components)
    ensures r.Some? ==> Normal(r.value)
  {
    var path: seq<string> := [];
    for i := 0 to |components|
      invariant Normal(path) && Walk(path, components[i..]) == Walk([], components)
    {
      var p := components[i];
      assert components[i..][1..] == components[i + 1..];
      if p == "" {
        if path == [] {
          path := [p];
        }
      } else if p == "." {
      } else if p == ".." {
        if path != [] {
          path := path[..|path| - 1];
        } else {
          return None;
        }
      } else {
        path := path + [p];
      }
    }
    r := Some(path);
  }

  // How many components the path has after the first n: an empty one counts only where there is none.
  function Level(components: seq<string>, n: nat): int
    requires n <= |components|
  {
    if n == 0 then 0
    else
      var before, p := Level(components, n - 1), components[n - 1];
      if p == "" then if before == 0 then 1 else before
      else if p == "." then before
      else if p == ".." then before - 1
      else before + 1
  }

  // A .. where the path has no component.
  ghost predicate LeadsOut(components: seq<string>, n: nat)
    requires n < |components|
  {
    components[n] == ".." && Level(components, n) == 0
  }

  // An empty component begins the path, and it has had one ever since.
  ghost predicate RootedAt(components: seq<string>, n: nat, end: nat)
    requires n < end <= |components|
  {
    components[n] == "" && Level(components, n) == 0 && forall m :: n < m <= end ==> Level(components, m) >= 1
  }

  ghost predicate IsRooted(components: seq<string>, end: nat)
    requires end <= |components|
  {
    exists k: nat :: k < end && RootedAt(components, k, end)
  }

  ghost predicate Rooted(r: seq<string>) {
    r != [] && r[0] == ""
  }

  lemma WalkOne(components: seq<string>, n: nat)
    requires n < |components|
    ensures Walk([], components[..n]).None? ==> Walk([], components[..n + 1]).None?
    ensures Walk([], components[..n]).Some? ==>
      var r, p := Walk([], components[..n]).value, components[n];
      Walk([], components[..n + 1]) ==
        if p == "" then Some(if r == [] then [p] else r)
        else if p == "." then Some(r)
        else if p == ".." then (if r == [] then None else Some(r[..|r| - 1]))
        else Some(r + [p])
  {
    assert components[..n + 1] == components[..n] + [components[n]];
    WalkAppends([], components[..n], [components[n]]);
    assert [components[n]][1..] == [];
  }

  /** normalizePath gives null exactly when some .. comes where there is no component left, and what it gives is
      absolute exactly when an empty component began it and was never popped. */
  lemma {:induction false} WalkExact(components: seq<string>, n: nat)
    requires n <= |components|
    ensures Walk([], components[..n]).None? <==> exists k: nat :: k < n && LeadsOut(components, k)
    ensures Walk([], components[..n]).Some? ==>
      var r := Walk([], components[..n]).value;
      |r| == Level(components, n) && (Rooted(r) <==> IsRooted(components, n))
  {
    if n == 0 {
      assert components[..0] == [];
    } else {
      hide Walk;
      WalkExact(components, n - 1);
      WalkOne(components, n - 1);
      assert (exists k: nat :: k < n && LeadsOut(components, k)) <==>
        (exists k: nat :: k < n - 1 && LeadsOut(components, k)) || LeadsOut(components, n - 1);
      if Walk([], components[..n]).Some? {
        RootedStep(components, n);
      }
    }
  }

  lemma RootedStep(components: seq<string>, n: nat)
    requires 0 < n <= |components| && Level(components, n - 1) >= 0 && Level(components, n) >= 0
    ensures IsRooted(components, n) <==>
      Level(components, n) >= 1 &&
      (IsRooted(components, n - 1) || (Level(components, n - 1) == 0 && components[n - 1] == ""))
  {
    if IsRooted(components, n) {
      var k: nat :| k < n && RootedAt(components, k, n);
      assert Level(components, n) >= 1;
      assert k < n - 1 ==> RootedAt(components, k, n - 1);
    }
    if Level(components, n) >= 1 {
      if IsRooted(components, n - 1) {
        var end := n - 1;
        var k: nat :| k < end && RootedAt(components, k, end);
        assert RootedAt(components, k, n);
      } else if Level(components, n - 1) == 0 && components[n - 1] == "" {
        assert RootedAt(components, n - 1, n);
      }
    }
  }

  /** The path /../x is normalized to the relative path x. */
  lemma RootPopped()
    ensures Walk([], ["", "..", "x"]) == Some(["x"])
  {
    assert ["", "..", "x"][1..] == ["..", "x"] && ["..", "x"][1..] == ["x"] && ["x"][1..] == [];
    assert [""][..0] == [] && [] + ["x"] == ["x"];
  }

  lemma {:induction false} WalkIsNormal(r: seq<string>, components: seq<string>)
    requires Normal(r) && Plain(r) && Plain(components) && Walk(r, components).Some?
    ensures Normal(Walk(r, components).value) && Plain(Walk(r, components).value)
    decreases |components|
  {
    if components != [] {
      var p := components[0];
      WalkIsNormal(if p == "" then (if r == [] then [p] else r) else if p == "." then r
                   else if p == ".." then r[..|r| - 1] else r + [p], components[1..]);
    }
  }

  lemma {:induction false} WalkAppends(r: seq<string>, a: seq<string>, b: seq<string>)
    ensures Walk(r, a + b) == if Walk(r, a).Some? then Walk(Walk(r, a).value, b) else None
    decreases |a|
  {
    if a == [] {
      assert a + b == b;
    } else {
      assert (a + b)[1..] == a[1..] + b;
      var p := a[0];
      WalkAppends(if p == "" then (if r == [] then [p] else r) else if p == "." then r
                  else if p == ".." then (if r == [] then r else r[..|r| - 1]) else r + [p], a[1..], b);
    }
  }

  lemma {:induction false} WalkNames(r: seq<string>, names: seq<string>)
    requires forall i :: 0 <= i < |names| ==> IsName(names[i])
    ensures Walk(r, names) == Some(r + names)
    decreases |names|
  {
    if names != [] {
      WalkNames(r + [names[0]], names[1..]);
      assert r + [names[0]] + names[1..] == r + names;
    } else {
      assert r + names == r;
    }
  }

  /** A normal path is normalized to itself. */
  lemma NormalIsFixed(r: seq<string>)
    requires Normal(r)
    ensures Walk([], r) == Some(r)
  {
    if r != [] && r[0] == "" {
      WalkNames([""], r[1..]);
      assert [""] + r[1..] == r;
    } else {
      WalkNames([], r);
      assert [] + r == r;
    }
  }

  // ------------------------------------------------------------------
  // Files and directories
  // ------------------------------------------------------------------

  // What package.json says: it cannot be parsed or its runtime field is no string, or it names a file.
  datatype Package = Broken | Names(file: string)

  // The files there are, with what each says as a package.json.
  type Files = map<Path, Package>

  // What resolution comes to.
  datatype Found = File(path: Path) | Missing | Error

  function LoadAsFile(files: Files, path: Path): Found {
    if path in files then if path == "" then Missing else File(path)   // an empty path counts as null
    else if path + ".js" in files then File(path + ".js")
    else if path + ".json" in files then File(path + ".json")
    else if path + ".node" in files then File(path + ".node")
    else Missing
  }

  function Or(a: Found, b: Found): Found {
    if a.Missing? then b else a
  }

  function LoadAsDirectory(files: Files, path: Path, ignoreJson: bool): Found
    decreases !ignoreJson
  {
    var dir := !ignoreJson && path + "/package.json" in files;
    if dir && files[path + "/package.json"].Broken? then Error
    else
      var name := if dir then files[path + "/package.json"].file else "index";
      var main := if name == "" then "index" else name;
      var normal := Walk([], Split(path) + Split(main));
      if normal.None? then Missing
      else
        var s := Join(normal.value);
        Or(LoadAsFile(files, s), if dir then LoadAsDirectory(files, s, true) else Missing)
  }

  // A path of components, as a file or as a directory.
  function LoadPath(files: Files, components: seq<string>): Found {
    var normal := Walk([], components);
    if normal.None? then Missing
    else
      var s := Join(normal.value);
      Or(LoadAsFile(files, s), LoadAsDirectory(files, s, false))
  }

  // The node_modules directory beside the first n components of dir.
  function LoadAt(files: Files, dir: seq<string>, n: nat, parts: seq<string>): Found
    requires 0 < n <= |dir|
  {
    if dir[n - 1] == "node_modules" then Missing else LoadPath(files, dir[..n] + ["node_modules"] + parts)
  }

  // From the first n components of dir upwards.
  function LoadNodeModules(files: Files, dir: seq<string>, n: nat, parts: seq<string>): Found
    requires n <= |dir|
  {
    if n == 0 then Missing else Or(LoadAt(files, dir, n, parts), LoadNodeModules(files, dir, n - 1, parts))
  }

  /** The loop of loadNodeModules. */
  method SearchNodeModules(files: Files, dir: seq<string>, parts: seq<string>) returns (r: Found)
    ensures r == LoadNodeModules(files, dir, |dir|, parts)
  {
    var count := |dir|;
    while count > 0
      invariant 0 <= count <= |dir|
      invariant LoadNodeModules(files, dir, count, parts) == LoadNodeModules(files, dir, |dir|, parts)
    {
      count := count - 1;
      var p := dir[..count + 1];
      if p[|p| - 1] == "node_modules" {
        continue;
      }
      var found := LoadPath(files, p + ["node_modules"] + parts);
      if !found.Missing? {
        return found;
      }
    }
    r := Missing;
  }

  ghost predicate IsNearest(files: Files, dir: seq<string>, n: nat, parts: seq<string>, k: nat)
    requires n <= |dir|
  {
    && 0 < k <= n && !LoadAt(files, dir, k, parts).Missing?
    && forall j :: k < j <= n ==> LoadAt(files, dir, j, parts).Missing?
  }

  /** The nearest directory wins: what is found is what the deepest node_modules has that has anything, and
      nothing is found exactly when none of them has. */
  lemma {:induction false} NearestWins(files: Files, dir: seq<string>, n: nat, parts: seq<string>)
    requires n <= |dir|
    ensures LoadNodeModules(files, dir, n, parts).Missing? <==> forall k :: 0 < k <= n ==> LoadAt(files, dir, k, parts).Missing?
    ensures forall k: nat :: IsNearest(files, dir, n, parts, k) ==> LoadNodeModules(files, dir, n, parts) == LoadAt(files, dir, k, parts)
  {
    hide LoadAt;
    if n > 0 {
      NearestWins(files, dir, n - 1, parts);
      forall k: nat | IsNearest(files, dir, n, parts, k) ensures LoadNodeModules(files, dir, n, parts) == LoadAt(files, dir, k, parts) {
        assert k < n ==> IsNearest(files, dir, n - 1, parts, k);
      }
    }
  }

  // ------------------------------------------------------------------
  // Requests
  // ------------------------------------------------------------------

  // Files, the names of built-in modules with their paths, and where those are resolved from.
  datatype Site = Site(files: Files, builtins: map<string, Path>, builtinsFrom: seq<string>)

  predicate IsDirect(first: string) {
    first == "." || first == ".." || first == ""
  }

  // From a module in the directory dir.
  function Resolve(site: Site, dir: seq<string>, request: string): Found {
    var builtin := request in site.builtins;
    var components := Split(if builtin then site.builtins[request] else request);
    var from := if builtin then site.builtinsFrom else dir;
    if IsDirect(components[0]) then LoadPath(site.files, if components[0] == "" then components else from + components)
    else LoadNodeModules(site.files, from, |from|, components)
  }

  // The directory of a file.
  function DirOf(path: Path): seq<string> {
    Split(path)[..|Split(path)| - 1]
  }

  // A file that is there, by a name in normal form.
  ghost predicate Proper(files: Files, r: Found) {
    r.File? ==> r.path in files && Normal(Split(r.path))
  }

  // One more character in front.
  function Before(c: char, a: seq<string>): seq<string>
    requires a != []
  {
    if c == '/' then [""] + a else [[c] + a[0]] + a[1..]
  }

  function Extended(a: seq<string>, ext: string): seq<string>
    requires a != []
  {
    a[..|a| - 1] + [a[|a| - 1] + ext]
  }

  lemma FirstExtended(c: char, a: seq<string>, ext: string)
    requires a != []
    ensures Before(c, Extended(a, ext)) == Extended(Before(c, a), ext)
  {
    if c != '/' && |a| == 1 {
      assert [c] + (a[0] + ext) == [c] + a[0] + ext;
    }
  }

  lemma {:induction false} SplitExtended(s: string, ext: string)
    requires NoSlash(ext)
    ensures Split(s + ext) == Extended(Split(s), ext)
  {
    if s == "" {
      SplitPart(ext);
      assert s + ext == ext && "" + ext == ext;
    } else {
      SplitExtended(s[1..], ext);
      assert (s + ext)[1..] == s[1..] + ext && (s + ext)[0] == s[0];
      FirstExtended(s[0], Split(s[1..]), ext);
    }
  }

  lemma FileIsProper(files: Files, parts: seq<string>)
    requires Normal(parts) && Plain(parts)
    ensures Proper(files, LoadAsFile(files, Join(parts)))
  {
    var s := Join(parts);
    NormalJoin(parts);
    ExtensionIsNormal(s, ".js");
    ExtensionIsNormal(s, ".json");
    ExtensionIsNormal(s, ".node");
  }

  lemma ExtensionIsNormal(s: string, ext: string)
    requires Normal(Split(s)) && NoSlash(ext) && |ext| > 2
    ensures Normal(Split(s + ext))
  {
    SplitExtended(s, ext);
  }

  lemma NormalJoin(parts: seq<string>)
    requires Normal(parts) && Plain(parts)
    ensures Normal(Split(Join(parts)))
  {
    if parts == [] {
      assert Split("") == [""];
    } else {
      SplitJoin(parts);
    }
  }

  lemma {:induction false} DirectoryIsProper(files: Files, path: Path, ignoreJson: bool)
    ensures Proper(files, LoadAsDirectory(files, path, ignoreJson))
    decreases !ignoreJson
  {
    var dir := !ignoreJson && path + "/package.json" in files;
    if !(dir && files[path + "/package.json"].Broken?) {
      var name := if dir then files[path + "/package.json"].file else "index";
      var main := if name == "" then "index" else name;
      var components := Split(path) + Split(main);
      SplitIsPlain(path);
      SplitIsPlain(main);
      if Walk([], components).Some? {
        WalkIsNormal([], components);
        FileIsProper(files, Walk([], components).value);
        if dir {
          DirectoryIsProper(files, Join(Walk([], components).value), true);
        }
      }
    }
  }

  lemma PathIsProper(files: Files, components: seq<string>)
    requires Plain(components)
    ensures Proper(files, LoadPath(files, components))
  {
    if Walk([], components).Some? {
      WalkIsNormal([], components);
      FileIsProper(files, Walk([], components).value);
      DirectoryIsProper(files, Join(Walk([], components).value), false);
    }
  }

  lemma {:induction false} NodeModulesIsProper(files: Files, dir: seq<string>, n: nat, parts: seq<string>)
    requires n <= |dir| && Plain(dir) && Plain(parts)
    ensures Proper(files, LoadNodeModules(files, dir, n, parts))
  {
    if n > 0 {
      NodeModulesIsProper(files, dir, n - 1, parts);
      assert NoSlash("node_modules");
      PathIsProper(files, dir[..n] + ["node_modules"] + parts);
    }
  }

  /** Resolution finds only files that are there, and names each by its normal form: a path without dots and
      empty components. */
  lemma ResolveIsProper(site: Site, dir: seq<string>, request: string)
    requires Plain(dir) && Plain(site.builtinsFrom)
    ensures Proper(site.files, Resolve(site, dir, request))
  {
    var builtin := request in site.builtins;
    var path := if builtin then site.builtins[request] else request;
    var components, from := Split(path), if builtin then site.builtinsFrom else dir;
    SplitIsPlain(path);
    if IsDirect(components[0]) {
      PathIsProper(site.files, if components[0] == "" then components else from + components);
    } else {
      NodeModulesIsProper(site.files, from, |from|, components);
    }
  }

  /** A relative request is the absolute one that begins with the directory of the module. */
  lemma RelativeIsAbsolute(site: Site, dir: seq<string>, other: seq<string>, request: string)
    requires Plain(dir) && dir != [] && dir[0] == "" && request !in site.builtins && Join(dir + Split(request)) !in site.builtins
    requires Split(request)[0] == "." || Split(request)[0] == ".."
    ensures Resolve(site, dir, request) == Resolve(site, other, Join(dir + Split(request)))
  {
    SplitIsPlain(request);
    SplitJoin(dir + Split(request));
  }


  // ------------------------------------------------------------------
  // The order of the names that are tried
  // ------------------------------------------------------------------

  // The names of a file for a path, the first choice first.
  function Choices(path: Path): seq<Path> {
    [path, path + ".js", path + ".json", path + ".node"]
  }

  // The first of these files that is there.
  function First(files: Files, names: seq<Path>): Found {
    if names == [] then Missing else if names[0] in files then File(names[0]) else First(files, names[1..])
  }

  lemma {:induction false} FirstOfBoth(files: Files, a: seq<Path>, b: seq<Path>)
    ensures First(files, a + b) == Or(First(files, a), First(files, b))
  {
    if a == [] {
      assert a + b == b;
    } else {
      FirstOfBoth(files, a[1..], b);
      assert (a + b)[1..] == a[1..] + b;
    }
  }

  lemma FirstIs(files: Files, name: Path, rest: seq<Path>)
    ensures First(files, [name] + rest) == if name in files then File(name) else First(files, rest)
  {
    assert ([name] + rest)[1..] == rest;
  }

  lemma FileOrder(files: Files, path: Path)
    requires path != ""
    ensures LoadAsFile(files, path) == First(files, Choices(path))
  {
    var n3 := [path + ".node"];
    var n2 := [path + ".json"] + n3;
    var n1 := [path + ".js"] + n2;
    FirstIs(files, path + ".node", []);
    FirstIs(files, path + ".json", n3);
    FirstIs(files, path + ".js", n2);
    FirstIs(files, path, n1);
    assert Choices(path) == [path] + n1 && n3 == [path + ".node"] + [];
  }

  lemma {:induction false} JoinMore(a: seq<string>, b: seq<string>)
    requires a != [] && b != []
    ensures Join(a + b) == Join(a) + "/" + Join(b)
  {
    if |a| == 1 {
      assert (a + b)[1..] == b;
    } else {
      assert (a + b)[1..] == a[1..] + b;
      JoinMore(a[1..], b);
      assert Join(a + b) == a[0] + "/" + (Join(a[1..]) + "/" + Join(b));
      assert Join(a) + "/" + Join(b) == (a[0] + "/" + Join(a[1..])) + "/" + Join(b);
    }
  }

  // Names after a normal path.
  lemma Below(parts: seq<string>, more: seq<string>)
    requires parts != [] && more != [] && Normal(parts) && Plain(parts) && Plain(more) && forall i :: 0 <= i < |more| ==> IsName(more[i])
    ensures Walk([], Split(Join(parts)) + more) == Some(parts + more) && Join(parts + more) == Join(parts) + "/" + Join(more)
    ensures Normal(parts + more) && Plain(parts + more)
  {
    SplitJoin(parts);
    NormalIsFixed(parts + more);
    JoinMore(parts, more);
  }

  lemma DirectoryOrder(files: Files, parts: seq<string>)
    requires parts != [] && Normal(parts) && Plain(parts)
    ensures LoadAsDirectory(files, Join(parts), true) == First(files, Choices(Join(parts) + "/index"))
    ensures Join(parts) + "/package.json" !in files ==> LoadAsDirectory(files, Join(parts), false) == First(files, Choices(Join(parts) + "/index"))
  {
    hide LoadAsFile, Walk, Split, Join, First;
    SplitPart("index");
    Below(parts, ["index"]);
    JoinOne("index");
    assert Join(parts) + "/" + "index" == Join(parts) + "/index";
    FileOrder(files, Join(parts) + "/index");
  }

  lemma JoinOne(s: string)
    ensures Join([s]) == s
  {
  }

  /** A path that is a directory without a package.json: the file itself, with .js, .json and .node, and then index in it,
      in the same way. */
  lemma PathOrder(files: Files, parts: seq<string>)
    requires parts != [] && Normal(parts) && Plain(parts) && Join(parts) != "" && Join(parts) + "/package.json" !in files
    ensures LoadPath(files, parts) == First(files, Choices(Join(parts)) + Choices(Join(parts) + "/index"))
  {
    NormalIsFixed(parts);
    FileOrder(files, Join(parts));
    DirectoryOrder(files, parts);
    FirstOfBoth(files, Choices(Join(parts)), Choices(Join(parts) + "/index"));
    hide LoadAsFile, LoadAsDirectory, First;
  }

  /** And one with a package.json: the file itself, then what the package names, and then index in that. */
  lemma PackageOrder(files: Files, parts: seq<string>, main: string)
    requires parts != [] && Normal(parts) && Plain(parts) && Join(parts) != "" && main != ""
    requires Join(parts) + "/package.json" in files && files[Join(parts) + "/package.json"] == Package.Names(main)
    requires forall i :: 0 <= i < |Split(main)| ==> IsName(Split(main)[i])
    ensures var s := Join(parts); var m := s + "/" + main;
      LoadPath(files, parts) == First(files, Choices(s) + Choices(m) + Choices(m + "/index"))
  {
    var s := Join(parts);
    var m := s + "/" + main;
    SplitIsPlain(main);
    JoinSplit(main);
    Below(parts, Split(main));
    var all := parts + Split(main);
    NormalIsFixed(parts);
    FileOrder(files, s);
    FileOrder(files, m);
    DirectoryOrder(files, all);
    assert LoadAsDirectory(files, s, false) == Or(LoadAsFile(files, m), LoadAsDirectory(files, m, true));
    FirstOfBoth(files, Choices(s), Choices(m));
    FirstOfBoth(files, Choices(s) + Choices(m), Choices(m + "/index"));
    hide LoadAsFile, LoadAsDirectory, First;
  }

  lemma {:induction false} JoinSplit(s: string)
    ensures Join(Split(s)) == s
  {
    if s != "" {
      JoinSplit(s[1..]);
      var rest := Split(s[1..]);
      if s[0] == '/' {
        assert ([""] + rest)[1..] == rest;
        assert "" + "/" + s[1..] == s;
      } else {
        assert ([[s[0]] + rest[0]] + rest[1..])[1..] == rest[1..];
        assert [s[0]] + s[1..] == s;
      }
    }
  }


  /** A request that begins with a slash does not depend on where it comes from, one by a bare name is searched upwards from
      there, and a built-in name is the request for its path. */
  lemma RequestKinds(site: Site, dir: seq<string>, request: string, other: seq<string>)
    requires request !in site.builtins && request != ""
    ensures request[0] == '/' ==> Resolve(site, dir, request) == Resolve(site, other, request)
    ensures NoSlash(request) && IsName(request) ==> Resolve(site, dir, request) == LoadNodeModules(site.files, dir, |dir|, [request])
    ensures forall name :: name in site.builtins && site.builtins[name] == request ==> Resolve(site, dir, name) == Resolve(site, site.builtinsFrom, request)
  {
    if NoSlash(request) {
      SplitPart(request);
    }
  }


  /** A file is in the directory whose path comes before its name. */
  lemma DirLaw(parts: seq<string>, name: string)
    requires parts != [] && Plain(parts) && NoSlash(name)
    ensures DirOf(Join(parts) + "/" + name) == parts
  {
    JoinMore(parts, [name]);
    JoinOne(name);
    SplitJoin(parts + [name]);
    assert (parts + [name])[..|parts|] == parts;
  }
}
