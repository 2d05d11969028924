/**
  Discovery of the modules a script needs, and of the modules those need: a depth-first search
  that marks a shared set of visited paths, over import graphs that may be cyclic.
 */
module Bundler {
  import opened Phrases

  /** What a file turns out to be when read and split into tokens. */
  datatype Content = Unreadable | Malformed | Script(modules: seq<string>)

  /**
    The file system: the files there are, and the path a MODULE statement means in a script.
    A path that is no file resolves to nothing.
   */
  datatype Disk = Disk(files: map<string, Content>, meant: (string, string) -> string) {
    function Resolve(stmt: string, script: string): (p: Option<string>)
      ensures p.Some? ==> p.value in files
    {
      if meant(stmt, script) in files then Some(meant(stmt, script)) else None
    }

    /** The MODULE statements of a file. */
    function Statements(p: string): seq<string> {
      if p in files && files[p].Script? then files[p].modules else []
    }

    /** The file is readable and well formed and every MODULE statement in it means a file there is. */
    predicate Fine(p: string) {
      p in files && files[p].Script? && forall stmt :: stmt in files[p].modules ==> meant(stmt, p) in files
    }

    /** Script p has a MODULE statement that means q, and q is a file. */
    predicate Imports(p: string, q: string) {
      q in files && p in files && files[p].Script? && exists stmt :: stmt in files[p].modules && meant(stmt, p) == q
    }

    /** Statement i of p reads stmt and means q, and q is a file. */
    predicate Brings(p: string, i: int, stmt: string, q: string) {
      && p in files && files[p].Script? && 0 <= i < |files[p].modules| && files[p].modules[i] == stmt
      && q in files && meant(stmt, p) == q
    }

    predicate Walk(path: seq<string>) { forall i :: 0 <= i < |path| - 1 ==> Imports(path[i], path[i + 1]) }

    /** q is reached from p by one or more MODULE statements. */
    ghost predicate Reaches(p: string, q: string) {
      exists path: seq<string> :: |path| >= 2 && path[0] == p && path[|path| - 1] == q && Walk(path)
    }

    lemma ReachesOne(p: string, q: string)
      requires Imports(p, q)
      ensures Reaches(p, q)
    {
      assert Walk([p, q]);
    }

    lemma ReachesFurther(p: string, q: string, r: string)
      requires Imports(p, q) && Reaches(q, r)
      ensures Reaches(p, r)
    {
      var path: seq<string> :| |path| >= 2 && path[0] == q && path[|path| - 1] == r && Walk(path);
      var longer := [p] + path;
      forall i | 0 <= i < |longer| - 1
        ensures Imports(longer[i], longer[i + 1])
      {
        if i > 0 {
          assert Imports(path[i - 1], path[i]);
        }
      }
      assert longer[0] == p && longer[|longer| - 1] == r && Walk(longer);
    }

    /** Every import of p is in found. */
    predicate Covers(p: string, found: set<string>) {
      forall i :: 0 <= i < |Statements(p)| && Resolve(Statements(p)[i], p).Some?
        ==> Resolve(Statements(p)[i], p).value in found
    }

    lemma CoversImport(p: string, found: set<string>, q: string)
      requires Covers(p, found) && Imports(p, q)
      ensures q in found
    {
      var stmt :| stmt in files[p].modules && meant(stmt, p) == q;
      var i :| 0 <= i < |files[p].modules| && files[p].modules[i] == stmt;
      assert Resolve(Statements(p)[i], p) == Some(q);
    }

    /** A set that has what its members import has all that is reached through it. */
    lemma {:induction false} CoversReached(p: string, found: set<string>, path: seq<string>)
      requires Covers(p, found) && forall q :: q in found ==> Covers(q, found)
      requires |path| >= 2 && path[0] == p && Walk(path)
      ensures path[|path| - 1] in found
      decreases |path|
    {
      assert Imports(path[0], path[1]);
      CoversImport(p, found, path[1]);
      if |path| > 2 {
        var rest := path[1..];
        forall i | 0 <= i < |rest| - 1
          ensures Imports(rest[i], rest[i + 1])
        {
          assert Imports(path[i + 1], path[i + 2]);
        }
        CoversReached(path[1], found, rest);
      }
    }
  }

  datatype ModuleInfo = ModuleInfo(originalPath: string, absolutePath: string)

  /** Statement m.originalPath of script p is what brings module m in. */
  ghost predicate BroughtBy(disk: Disk, p: string, m: ModuleInfo) {
    exists i :: disk.Brings(p, i, m.originalPath, m.absolutePath)
  }

  /** No path twice. */
  predicate Distinct(modules: seq<ModuleInfo>) {
    forall i, j :: 0 <= i < j < |modules| ==> modules[i].absolutePath != modules[j].absolutePath
  }

  predicate Lists(modules: seq<ModuleInfo>, p: string) {
    exists i :: 0 <= i < |modules| && modules[i].absolutePath == p
  }

  /** Every module comes after the script or module that first brings it in. */
  ghost predicate ImporterFirst(disk: Disk, script: string, modules: seq<ModuleInfo>) {
    forall k :: 0 <= k < |modules| ==> BroughtBefore(disk, script, modules, k)
  }

  ghost predicate BroughtBefore(disk: Disk, script: string, modules: seq<ModuleInfo>, k: nat)
    requires k < |modules|
  {
    || BroughtBy(disk, script, modules[k])
    || exists j :: 0 <= j < k && BroughtBy(disk, modules[j].absolutePath, modules[k])
  }

  // ---------------------------------------------------------------- a partial search

  /**
    A search from script that has looked at its first n statements, having started with before
    visited: what it has visited since is what it lists, all of it fine, reached and covered.
   */
  ghost predicate Searched(disk: Disk, script: string, n: nat, before: set<string>, visited: set<string>,
                           modules: seq<ModuleInfo>)
    requires n <= |disk.Statements(script)|
  {
    && before <= visited && visited - before <= disk.files.Keys
    && Distinct(modules) && (forall p :: Lists(modules, p) <==> p in visited - before)
    && (forall p :: p in visited - before ==> disk.Fine(p) && disk.Reaches(script, p) && disk.Covers(p, visited))
    && FirstFound(disk, script, n, visited)
    && ImporterFirst(disk, script, modules)
  }

  /** The first n statements of the script mean files in visited. */
  ghost predicate FirstFound(disk: Disk, script: string, n: nat, visited: set<string>)
    requires n <= |disk.Statements(script)|
  {
    forall i {:trigger disk.Statements(script)[i]} :: 0 <= i < n ==>
      Found(disk.Resolve(disk.Statements(script)[i], script), visited)
  }

  predicate Found(p: Option<string>, visited: set<string>) { p.Some? && p.value in visited }

  class Discovery {
    const disk: Disk
    var visited: set<string>

    constructor (disk: Disk)
      ensures this.disk == disk && visited == {}
    {
      this.disk := disk;
      visited := {};
    }

    /** The modules reached from a script through paths not visited before, or false for the error return. */
    method DiscoverModules(scriptPath: string) returns (ok: bool, modules: seq<ModuleInfo>)
      modifies this
      ensures old(visited) <= visited
      ensures ok ==> disk.Fine(scriptPath)
      ensures ok ==> Searched(disk, scriptPath, |disk.Statements(scriptPath)|, old(visited), visited, modules)
      ensures !ok ==> exists p :: (p == scriptPath || disk.Reaches(scriptPath, p)) && !disk.Fine(p)
      decreases disk.files.Keys - visited
    {
      modules := [];
      if scriptPath !in disk.files || !disk.files[scriptPath].Script? {
        assert !disk.Fine(scriptPath);
        return false, [];
      }
      var statements := disk.files[scriptPath].modules;
      var n := 0;
      while n < |statements|
        invariant n <= |statements| && statements == disk.Statements(scriptPath)
        invariant Searched(disk, scriptPath, n, old(visited), visited, modules)
      {
        var stmt := statements[n];
        var resolved := disk.Resolve(stmt, scriptPath);
        if resolved.None? {
          assert !disk.Fine(scriptPath);
          return false, [];
        }
        var absolutePath := resolved.value;
        if absolutePath !in visited {
          ghost var was := visited;
          visited := visited + {absolutePath};
          BringsIn(disk, scriptPath, n, absolutePath);
          if disk.files[absolutePath].Unreadable? {
            assert !disk.Fine(absolutePath);
            return false, [];
          }
          var found, subModules := DiscoverModules(absolutePath);
          if !found {
            FailsFurther(disk, scriptPath, absolutePath);
            return false, [];
          }
          var moduleInfo := ModuleInfo(stmt, absolutePath);
          Joined(disk, scriptPath, n, old(visited), was, visited, modules, moduleInfo, subModules);
          modules := modules + ([moduleInfo] + subModules);
        }
        n := n + 1;
      }
      ok := true;
    }
  }

  lemma BringsIn(disk: Disk, script: string, n: nat, p: string)
    requires n < |disk.Statements(script)| && disk.Resolve(disk.Statements(script)[n], script) == Some(p)
    ensures disk.Imports(script, p) && disk.Reaches(script, p)
  {
    disk.ReachesOne(script, p);
  }

  lemma FailsFurther(disk: Disk, script: string, p: string)
    requires disk.Imports(script, p)
    requires exists q :: (q == p || disk.Reaches(p, q)) && !disk.Fine(q)
    ensures exists q :: disk.Reaches(script, q) && !disk.Fine(q)
  {
    var q :| (q == p || disk.Reaches(p, q)) && !disk.Fine(q);
    if q == p {
      disk.ReachesOne(script, p);
    } else {
      disk.ReachesFurther(script, p, q);
    }
  }

  /** Adding a module and all that its own search found. */
  lemma Joined(disk: Disk, script: string, n: nat, before: set<string>, was: set<string>, visited: set<string>,
               modules: seq<ModuleInfo>, m: ModuleInfo, subModules: seq<ModuleInfo>)
    requires n < |disk.Statements(script)| && disk.Statements(script)[n] == m.originalPath
    requires disk.Resolve(m.originalPath, script) == Some(m.absolutePath) && m.absolutePath !in was
    requires Searched(disk, script, n, before, was, modules)
    requires disk.Fine(m.absolutePath)
    requires Searched(disk, m.absolutePath, |disk.Statements(m.absolutePath)|, was + {m.absolutePath}, visited,
                      subModules)
    ensures Searched(disk, script, n + 1, before, visited, modules + ([m] + subModules))
  {
    hide BroughtBy, Lists, Distinct, ImporterFirst, Disk.Fine, Disk.Imports, Disk.Reaches, Disk.Walk, Disk.Covers;
    var p, tail := m.absolutePath, [m] + subModules;
    BringsIn(disk, script, n, p);
    ListsJoined([m], subModules);
    ListsJoined(modules, tail);
    ListsOne(m);
    assert visited - before == (was - before) + {p} + (visited - (was + {p}));
    forall q | q in visited - (was + {p})
      ensures disk.Reaches(script, q)
    {
      disk.ReachesFurther(script, p, q);
    }
    forall q | q in was - before
      ensures disk.Covers(q, visited)
    {
      CoversMore(disk, q, was, visited);
    }
    assert disk.Covers(p, visited) by {
      FoundCovers(disk, p, visited);
    }
    DistinctJoined([m], subModules);
    DistinctJoined(modules, tail);
    ImporterJoined(disk, script, n, modules, m, subModules);
  }

  lemma FoundCovers(disk: Disk, p: string, visited: set<string>)
    requires FirstFound(disk, p, |disk.Statements(p)|, visited)
    ensures disk.Covers(p, visited)
  {
  }

  lemma CoversMore(disk: Disk, p: string, found: set<string>, more: set<string>)
    requires disk.Covers(p, found) && found <= more
    ensures disk.Covers(p, more)
  {
  }

  lemma ListsOne(m: ModuleInfo)
    ensures forall q :: Lists([m], q) <==> q == m.absolutePath
  {
    assert [m][0] == m;
  }

  lemma ListsJoined(a: seq<ModuleInfo>, b: seq<ModuleInfo>)
    ensures forall q :: Lists(a + b, q) <==> Lists(a, q) || Lists(b, q)
  {
    forall q
      ensures Lists(a + b, q) <==> Lists(a, q) || Lists(b, q)
    {
      if i :| 0 <= i < |a| && a[i].absolutePath == q {
        assert (a + b)[i] == a[i];
      }
      if i :| 0 <= i < |b| && b[i].absolutePath == q {
        assert (a + b)[|a| + i] == b[i];
      }
    }
  }

  lemma DistinctJoined(a: seq<ModuleInfo>, b: seq<ModuleInfo>)
    requires Distinct(a) && Distinct(b) && forall q :: !(Lists(a, q) && Lists(b, q))
    ensures Distinct(a + b)
  {
    forall i, j | 0 <= i < j < |a + b|
      ensures (a + b)[i].absolutePath != (a + b)[j].absolutePath
    {
      if i < |a| <= j {
        assert Lists(a, a[i].absolutePath);
        assert b[j - |a|] == (a + b)[j];
      }
    }
  }

  lemma ImporterJoined(disk: Disk, script: string, n: nat, modules: seq<ModuleInfo>, m: ModuleInfo,
                       subModules: seq<ModuleInfo>)
    requires disk.Brings(script, n, m.originalPath, m.absolutePath)
    requires ImporterFirst(disk, script, modules) && ImporterFirst(disk, m.absolutePath, subModules)
    ensures ImporterFirst(disk, script, modules + ([m] + subModules))
  {
    hide BroughtBy;
    var all, mine := modules + ([m] + subModules), |modules|;
    assert BroughtBy(disk, script, m) by {
      BringsMeans(disk, script, n, m);
    }
    forall k: nat | k < |all|
      ensures BroughtBefore(disk, script, all, k)
    {
      if k < mine {
        assert BroughtBefore(disk, script, modules, k);
        if j :| 0 <= j < k && BroughtBy(disk, modules[j].absolutePath, modules[k]) {
          assert all[j] == modules[j];
        }
      } else if k > mine {
        assert all[k] == subModules[k - mine - 1] && all[mine] == m;
        assert BroughtBefore(disk, m.absolutePath, subModules, k - mine - 1);
        if j :| 0 <= j < k - mine - 1 && BroughtBy(disk, subModules[j].absolutePath, subModules[k - mine - 1]) {
          assert all[mine + 1 + j] == subModules[j];
        }
      }
    }
  }

  lemma BringsMeans(disk: Disk, script: string, n: nat, m: ModuleInfo)
    requires disk.Brings(script, n, m.originalPath, m.absolutePath)
    ensures BroughtBy(disk, script, m)
  {
  }

  // ---------------------------------------------------------------- whole searches

  /**
    A script's modules: found exactly when the script and everything it reaches are fine, and
    then each file reached by one or more MODULE statements is listed, once and nothing else,
    after an importer of it. The search ends on cyclic graphs too.
   */
  method BundleModules(disk: Disk, scriptPath: string) returns (ok: bool, modules: seq<ModuleInfo>)
    ensures ok <==> disk.Fine(scriptPath) && forall p :: disk.Reaches(scriptPath, p) ==> disk.Fine(p)
    ensures ok ==> Distinct(modules) && forall p :: Lists(modules, p) <==> disk.Reaches(scriptPath, p)
    ensures ok ==> ImporterFirst(disk, scriptPath, modules)
  {
    var discovery := new Discovery(disk);
    ok, modules := discovery.DiscoverModules(scriptPath);
    if ok {
      WholeSearch(disk, scriptPath, discovery.visited, modules);
    }
  }

  /** A search that starts from nothing visits exactly what is reached. */
  lemma WholeSearch(disk: Disk, script: string, visited: set<string>, modules: seq<ModuleInfo>)
    requires disk.Fine(script) && Searched(disk, script, |disk.Statements(script)|, {}, visited, modules)
    ensures forall p :: p in visited <==> disk.Reaches(script, p)
  {
    forall p | disk.Reaches(script, p)
      ensures p in visited
    {
      var path: seq<string> :| |path| >= 2 && path[0] == script && path[|path| - 1] == p && disk.Walk(path);
      disk.CoversReached(script, visited, path);
    }
  }
}
