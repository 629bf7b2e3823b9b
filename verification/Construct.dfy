/**
 * The build as the code runs it: one Construct whose module cache and persistent cache are updated
 * in place (model/Construct.cc, model/ModuleDef.cc).  Each method takes the state to the one the
 * functions of IncrementalBuild give, so the theorems about them are theorems about this code.
 */
module ConstructCode {
  import opened IncrementalBuild

  class Construct {
    const compiler: Compiler
    const sources: map<Name, Text>
    var moduleCache: map<Name, Entry>
    var disk: map<Name, Cached>
    var built: seq<Name>
    var loadedModules: seq<(Name, Module)>
    ghost var passed: seq<(Name, MetaDigest)>

    constructor (c: Compiler, sources: map<Name, Text>, disk: map<Name, Cached>)
      ensures compiler == c && Value() == State(sources, map[], disk, [], [], [])
    {
      this.compiler, this.sources, this.disk := c, sources, disk;
      moduleCache, built, loadedModules, passed := map[], [], [], [];
    }

    ghost function Value(): State
      reads this
    {
      State(sources, moduleCache, disk, built, loadedModules, passed)
    }

    method GetModule(n: Name, depth: nat) returns (f: Fetch)
      requires Lawful(compiler)
      modifies this
      ensures (Value(), f) == old(IncrementalBuild.GetModule(compiler, depth, Value(), n))
      decreases depth, 4, 0
    {
      hide Lawful, IncrementalBuild.Deserialize, IncrementalBuild.ParseModule;
      if n in moduleCache {
        return Fetched(moduleCache[n]);
      }
      if depth == 0 {
        return Runaway;
      }
      var found := disk;
      var v := Deserialize(n, depth - 1);
      match v {
        case Stop(e) => f := e;
        case Go(rebuild) =>
          if !rebuild {
            var e := Ready(found[n].m);
            moduleCache := moduleCache[n := e];
            loadedModules := loadedModules + [(n, e.m)];
            f := Fetched(e);
          } else if n in sources {
            f := ParseModule(n, depth - 1);
          } else {
            f := Missing;
          }
      }
    }

    method Deserialize(n: Name, depth: nat) returns (v: Verdict)
      requires Lawful(compiler)
      modifies this
      ensures (Value(), v) == old(IncrementalBuild.Deserialize(compiler, depth, Value(), n))
      decreases depth, 6, 0
    {
      hide Lawful, IncrementalBuild.GetModule;
      if n !in disk {
        return Go(true);
      }
      var meta := disk[n];
      if n !in sources {
        return Stop(Failed);
      }
      var mustRebuild := sources[n] != meta.m.header.source;
      if !mustRebuild && !meta.builder {
        mustRebuild := true;
      }
      ghost var all := CheckDeps(compiler, depth, Value(), meta.m.header.deps, mustRebuild);
      var deps := meta.m.header.deps;
      assert deps[0..] == deps;
      for i := 0 to |deps|
        invariant CheckDeps(compiler, depth, Value(), deps[i..], mustRebuild) == all
      {
        assert deps[i..][0] == deps[i] && deps[i..][1..] == deps[i + 1..];
        if !mustRebuild {
          var f := GetModule(deps[i].0, depth);
          match f {
            case Missing => mustRebuild := true;
            case Fetched(Building) => passed := passed + [deps[i]];
            case Fetched(Ready(m)) => mustRebuild := Of(m.iface) != deps[i].1;
            case _ => return Stop(f);
          }
        }
      }
      assert all == (Value(), Go(mustRebuild));
      ghost var all2 := CheckCTDeps(compiler, depth, Value(), meta.m.header.ctDeps, mustRebuild);
      var ctDeps := meta.m.header.ctDeps;
      assert ctDeps[0..] == ctDeps;
      for i := 0 to |ctDeps|
        invariant CheckCTDeps(compiler, depth, Value(), ctDeps[i..], mustRebuild) == all2
      {
        assert ctDeps[i..][0] == ctDeps[i] && ctDeps[i..][1..] == ctDeps[i + 1..];
        if !mustRebuild {
          var f := GetModule(ctDeps[i].0, depth);
          match f {
            case Missing => mustRebuild := true;
            case Fetched(e) => mustRebuild := e.Building? || HeaderOf(e) != ctDeps[i].1;
            case _ => return Stop(f);
          }
        }
      }
      v := Go(mustRebuild);
    }

    method ParseModule(n: Name, depth: nat) returns (f: Fetch)
      requires Lawful(compiler) && n in sources
      modifies this
      ensures (Value(), f) == old(IncrementalBuild.ParseModule(compiler, depth, Value(), n))
      decreases depth, 6, 0
    {
      hide Lawful, IncrementalBuild.GetModule, Assemble;
      moduleCache := moduleCache[n := Building];
      var names := compiler.imports(n, sources[n]) + compiler.annotations(n, sources[n]);
      ghost var all := LoadAll(compiler, depth, Value(), names);
      assert names[0..] == names;
      for i := 0 to |names|
        invariant LoadAll(compiler, depth, Value(), names[i..]) == all
      {
        assert names[i..][0] == names[i] && names[i..][1..] == names[i + 1..];
        var g := GetModule(names[i], depth);
        if g.Missing? {
          return Failed;
        } else if !g.Fetched? {
          return g;
        }
      }
      var m := Assemble(compiler, n, sources[n], moduleCache);
      if m.None? {
        return Failed;
      }
      disk := disk[n := Cached(m.value, true)];
      moduleCache := moduleCache[n := Ready(m.value)];
      built := built + [n];
      loadedModules := loadedModules + [(n, m.value)];
      f := Fetched(Ready(m.value));
    }
  }
}
