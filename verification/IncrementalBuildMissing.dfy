/**
 * What the build answers for a module whose source is not there: null if it has no cache entry either,
 * and an error if it has one (model/ModuleDef.cc:496).  Nothing is asked of the state or the imports.
 */
module IncrementalBuildMissing {
  import opened IncrementalBuild

  /** Cached, not loaded, and its source file is no longer found. */
  predicate Gone(st: State, n: Name) {
    n in st.disk && n !in st.sources && n !in st.mem
  }

  /** What is gone stays gone. */
  ghost predicate StaysGone(st: State, st': State) {
    st'.sources == st.sources && forall d :: Gone(st, d) ==> Gone(st', d)
  }

  lemma StaysGoneFurther(st: State, st1: State, st2: State)
    requires StaysGone(st, st1) && StaysGone(st1, st2)
    ensures StaysGone(st, st2)
  {
  }

  lemma SourceIsNotGone(st: State, st': State, n: Name)
    requires n in st.sources && st'.sources == st.sources
    requires st'.mem.Keys <= st.mem.Keys + {n} && st.disk.Keys <= st'.disk.Keys
    ensures StaysGone(st, st')
  {
  }

  // ----- The answers -----

  /** Null if and only if the module has neither source nor cache entry; an error, in an untouched state,
      if it has a cache entry without source. */
  lemma {:induction false} NullIff(c: Compiler, depth: nat, st: State, n: Name)
    requires Lawful(c)
    ensures var r := GetModule(c, depth, st, n);
      && (r.1 == Missing <==> depth > 0 && n !in st.mem && n !in st.sources && n !in st.disk)
      && (r.1 == Missing ==> r.0 == st)
      && (depth > 0 && n !in st.mem && n !in st.sources && n in st.disk ==> r == (st, Failed))
      && StaysGone(st, r.0)
    decreases depth, 4, 0
  {
    hide Lawful, Deserialize, ParseModule;
    if n !in st.mem && depth > 0 {
      DeserializeTells(c, depth - 1, st, n);
      var r := Deserialize(c, depth - 1, st, n);
      if r.1 == Go(true) && n in r.0.sources {
        ParseModuleTells(c, depth - 1, r.0, n);
        StaysGoneFurther(st, r.0, ParseModule(c, depth - 1, r.0, n).0);
      } else if r.1 == Go(false) {
        SourceIsNotGone(r.0, Finish(r.0, n, st.disk[n].m), n);
      }
    }
  }

  lemma {:induction false} DeserializeTells(c: Compiler, depth: nat, st: State, n: Name)
    requires Lawful(c)
    ensures var r := Deserialize(c, depth, st, n);
      && (n !in st.disk ==> r == (st, Go(true)))
      && (n in st.disk && n !in st.sources ==> r == (st, Stop(Failed)))
      && (r.1.Stop? ==> !r.1.f.Missing? && !r.1.f.Fetched?)
      && StaysGone(st, r.0)
    decreases depth, 6, 0
  {
    hide Lawful, CheckDeps, CheckCTDeps;
    if n in st.disk && n in st.sources {
      var m := st.disk[n].m;
      var stale := st.sources[n] != m.header.source || !st.disk[n].builder;
      CheckDepsTells(c, depth, st, m.header.deps, stale);
      var r := CheckDeps(c, depth, st, m.header.deps, stale);
      if r.1.Go? {
        CheckCTDepsTells(c, depth, r.0, m.header.ctDeps, r.1.rebuild);
        StaysGoneFurther(st, r.0, CheckCTDeps(c, depth, r.0, m.header.ctDeps, r.1.rebuild).0);
      }
    }
  }

  lemma {:induction false} CheckDepsTells(c: Compiler, depth: nat, st: State, deps: seq<(Name, MetaDigest)>,
                                          rebuild: bool)
    requires Lawful(c)
    ensures var r := CheckDeps(c, depth, st, deps, rebuild);
      (r.1.Stop? ==> !r.1.f.Missing? && !r.1.f.Fetched?) && StaysGone(st, r.0)
    decreases depth, 5, |deps|
  {
    hide Lawful, GetModule;
    if deps != [] {
      if rebuild {
        CheckDepsTells(c, depth, st, deps[1..], true);
      } else {
        NullIff(c, depth, st, deps[0].0);
        var r := GetModule(c, depth, st, deps[0].0);
        match r.1
        case Fetched(Building) =>
          var st1 := r.0.(passed := r.0.passed + [deps[0]]);
          CheckDepsTells(c, depth, st1, deps[1..], false);
          StaysGoneFurther(st, st1, CheckDeps(c, depth, st1, deps[1..], false).0);
        case Fetched(Ready(m)) =>
          CheckDepsTells(c, depth, r.0, deps[1..], Of(m.iface) != deps[0].1);
          StaysGoneFurther(st, r.0, CheckDeps(c, depth, r.0, deps[1..], Of(m.iface) != deps[0].1).0);
        case Missing =>
          CheckDepsTells(c, depth, r.0, deps[1..], true);
        case _ =>
      }
    }
  }

  lemma {:induction false} CheckCTDepsTells(c: Compiler, depth: nat, st: State, deps: seq<(Name, HeaderDigest)>,
                                            rebuild: bool)
    requires Lawful(c)
    ensures var r := CheckCTDeps(c, depth, st, deps, rebuild);
      (r.1.Stop? ==> !r.1.f.Missing? && !r.1.f.Fetched?) && StaysGone(st, r.0)
    decreases depth, 5, |deps|
  {
    hide Lawful, GetModule;
    if deps != [] {
      if rebuild {
        CheckCTDepsTells(c, depth, st, deps[1..], true);
      } else {
        NullIff(c, depth, st, deps[0].0);
        var r := GetModule(c, depth, st, deps[0].0);
        match r.1
        case Fetched(e) =>
          var stale := e.Building? || HeaderOf(e) != deps[0].1;
          CheckCTDepsTells(c, depth, r.0, deps[1..], stale);
          StaysGoneFurther(st, r.0, CheckCTDeps(c, depth, r.0, deps[1..], stale).0);
        case Missing =>
          CheckCTDepsTells(c, depth, r.0, deps[1..], true);
        case _ =>
      }
    }
  }

  lemma {:induction false} LoadAllTells(c: Compiler, depth: nat, st: State, names: seq<Name>)
    requires Lawful(c)
    ensures var r := LoadAll(c, depth, st, names);
      (r.1.Stop? ==> !r.1.f.Missing? && !r.1.f.Fetched?) && StaysGone(st, r.0)
    decreases depth, 5, |names|
  {
    hide Lawful, GetModule;
    if names != [] {
      NullIff(c, depth, st, names[0]);
      var r := GetModule(c, depth, st, names[0]);
      if r.1.Fetched? {
        LoadAllTells(c, depth, r.0, names[1..]);
        StaysGoneFurther(st, r.0, LoadAll(c, depth, r.0, names[1..]).0);
      }
    }
  }

  lemma {:induction false} ParseModuleTells(c: Compiler, depth: nat, st: State, n: Name)
    requires Lawful(c) && n in st.sources
    ensures var r := ParseModule(c, depth, st, n); !r.1.Missing? && StaysGone(st, r.0)
    decreases depth, 6, 0
  {
    hide Lawful, LoadAll, Assemble;
    var s := st.sources[n];
    var names, st1 := c.imports(n, s) + c.annotations(n, s), st.(mem := st.mem[n := Building]);
    SourceIsNotGone(st, st1, n);
    LoadAllTells(c, depth, st1, names);
    var r := LoadAll(c, depth, st1, names);
    StaysGoneFurther(st, st1, r.0);
    if r.1 == Go(false) && Assemble(c, n, s, r.0.mem).Some? {
      SourceIsNotGone(r.0, ParseModule(c, depth, st, n).0, n);
      StaysGoneFurther(st, r.0, ParseModule(c, depth, st, n).0);
    }
  }

  // ----- Dependents -----

  /** A list of dependencies is checked from the front. */
  lemma {:induction false} CheckDepsAppend(c: Compiler, depth: nat, st: State, a: seq<(Name, MetaDigest)>,
                                           b: seq<(Name, MetaDigest)>, rebuild: bool)
    requires Lawful(c)
    ensures var r := CheckDeps(c, depth, st, a, rebuild);
      CheckDeps(c, depth, st, a + b, rebuild)
        == if r.1.Stop? then r else CheckDeps(c, depth, r.0, b, r.1.rebuild)
    decreases |a|
  {
    hide Lawful, GetModule;
    if a == [] {
      assert a + b == b;
    } else {
      assert (a + b)[1..] == a[1..] + b && (a + b)[0] == a[0];
      if rebuild {
        CheckDepsAppend(c, depth, st, a[1..], b, true);
      } else {
        var r := GetModule(c, depth, st, a[0].0);
        match r.1
        case Fetched(Building) =>
          CheckDepsAppend(c, depth, r.0.(passed := r.0.passed + [a[0]]), a[1..], b, false);
        case Fetched(Ready(m)) =>
          CheckDepsAppend(c, depth, r.0, a[1..], b, Of(m.iface) != a[0].1);
        case Missing =>
          CheckDepsAppend(c, depth, r.0, a[1..], b, true);
        case _ =>
      }
    }
  }

  /** A check that reaches a dependency that is gone stops the build there, whatever follows; one that
      does not reach it was going to rebuild anyway, or has failed already. */
  lemma GoneDependencyStops(c: Compiler, depth: nat, st: State, before: seq<(Name, MetaDigest)>,
                            d: (Name, MetaDigest), rest: seq<(Name, MetaDigest)>)
    requires Lawful(c) && depth > 0 && Gone(st, d.0)
    ensures var r, q := CheckDeps(c, depth, st, before, false), CheckDeps(c, depth, st, before + [d] + rest, false);
      && (r.1 == Go(false) ==> q == (r.0, Stop(Failed)))
      && (r.1 == Go(true) ==> q == (r.0, Go(true)))
      && (r.1.Stop? ==> q == r)
  {
    hide Lawful, GetModule, CheckDeps;
    CheckDepsTells(c, depth, st, before, false);
    var r := CheckDeps(c, depth, st, before, false);
    CheckDepsAppend(c, depth, st, before, [d] + rest, false);
    assert before + ([d] + rest) == before + [d] + rest;
    if r.1.Go? {
      NullIff(c, depth, r.0, d.0);
      CheckFirst(c, depth, r.0, d, rest, r.1.rebuild);
    }
  }

  lemma CheckFirst(c: Compiler, depth: nat, st: State, d: (Name, MetaDigest), rest: seq<(Name, MetaDigest)>,
                   rebuild: bool)
    requires Lawful(c)
    ensures rebuild ==> CheckDeps(c, depth, st, [d] + rest, rebuild) == (st, Go(true))
    ensures !rebuild && GetModule(c, depth, st, d.0).1 == Failed ==>
      CheckDeps(c, depth, st, [d] + rest, rebuild) == (GetModule(c, depth, st, d.0).0, Stop(Failed))
  {
    hide Lawful, GetModule;
    if rebuild {
      Passes(c, depth, st, [d] + rest);
    }
  }

  lemma {:induction false} Passes(c: Compiler, depth: nat, st: State, deps: seq<(Name, MetaDigest)>)
    requires Lawful(c)
    ensures CheckDeps(c, depth, st, deps, true) == (st, Go(true))
    decreases |deps|
  {
    hide Lawful, GetModule;
    if deps != [] {
      Passes(c, depth, st, deps[1..]);
    }
  }

  /** A module that records a dependency that is gone is never loaded from the cache: if nothing before it
      asks for a rebuild, and nothing before it fails, the error stops the build. */
  lemma GoneDependencyFails(c: Compiler, depth: nat, st: State, n: Name, k: nat)
    requires Lawful(c) && n !in st.mem && n in st.disk && n in st.sources
    requires st.disk[n].m.header.source == st.sources[n] && st.disk[n].builder
    requires k < |st.disk[n].m.header.deps| && Gone(st, st.disk[n].m.header.deps[k].0)
    requires depth > 1 && CheckDeps(c, depth - 1, st, st.disk[n].m.header.deps[..k], false).1 == Go(false)
    ensures GetModule(c, depth, st, n).1 == Failed
  {
    hide Lawful, CheckDeps, CheckCTDeps, ParseModule;
    var deps := st.disk[n].m.header.deps;
    assert deps == deps[..k] + [deps[k]] + deps[k + 1..];
    GoneDependencyStops(c, depth - 1, st, deps[..k], deps[k], deps[k + 1..]);
  }

  // ----- Unfinished and unknown dependencies -----

  /** An unfinished module among the recorded dependencies is passed over, and among the compile-time ones it
      forces a rebuild. */
  lemma UnfinishedDependency(c: Compiler, depth: nat, st: State, d: (Name, MetaDigest), rest: seq<(Name, MetaDigest)>,
                             h: (Name, HeaderDigest), others: seq<(Name, HeaderDigest)>)
    requires Lawful(c) && d.0 in st.mem && st.mem[d.0] == Building && h.0 in st.mem && st.mem[h.0] == Building
    ensures CheckDeps(c, depth, st, [d] + rest, false)
         == CheckDeps(c, depth, st.(passed := st.passed + [d]), rest, false)
    ensures CheckCTDeps(c, depth, st, [h] + others, false) == (st, Go(true))
  {
    hide Lawful;
    assert ([d] + rest)[1..] == rest && ([h] + others)[1..] == others;
    PassesCT(c, depth, st, others);
  }

  /** A recorded dependency without source and cache entry forces a rebuild, and an import of such a module
      is an error. */
  lemma UnknownDependency(c: Compiler, depth: nat, st: State, d: (Name, MetaDigest), rest: seq<(Name, MetaDigest)>,
                          names: seq<Name>)
    requires Lawful(c) && depth > 0 && d.0 !in st.mem && d.0 !in st.sources && d.0 !in st.disk
    ensures CheckDeps(c, depth, st, [d] + rest, false) == (st, Go(true))
    ensures LoadAll(c, depth, st, [d.0] + names) == (st, Stop(Failed))
  {
    hide Lawful, GetModule;
    NullIff(c, depth, st, d.0);
    assert ([d] + rest)[1..] == rest;
    Passes(c, depth, st, rest);
  }

  lemma {:induction false} PassesCT(c: Compiler, depth: nat, st: State, deps: seq<(Name, HeaderDigest)>)
    requires Lawful(c)
    ensures CheckCTDeps(c, depth, st, deps, true) == (st, Go(true))
    decreases |deps|
  {
    hide Lawful, GetModule;
    if deps != [] {
      PassesCT(c, depth, st, deps[1..]);
    }
  }
}
