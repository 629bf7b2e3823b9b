/**
 * The incremental build agrees with compiling from scratch (model/Construct.cc:582-759 with
 * model/ModuleDef.cc:433-696).
 */
module IncrementalBuildSoundness {
  import opened IncrementalBuild
  import opened IncrementalBuildMissing

  // ----- The reference: compiling everything from current sources -----

  /** The cached module was compiled from the present source, and the builder's file is there: the
      dependencies it records will be checked. */
  predicate Live(st: State, n: Name) {
    n in st.disk && n in st.sources && st.disk[n].m.header.source == st.sources[n] && st.disk[n].builder
  }

  /** A ranking under which every import, and every recorded dependency that will be checked, goes
      strictly downwards: the current imports and these dependencies are acyclic together. */
  ghost predicate Ranked(c: Compiler, st: State, rank: Name -> nat) {
    RankedSources(c, st.sources, rank) && RankedDisk(st, rank)
  }

  ghost predicate RankedDisk(st: State, rank: Name -> nat) {
    && (forall n, p :: Live(st, n) && p in st.disk[n].m.header.deps ==> rank(p.0) < rank(n))
    && (forall n, p :: Live(st, n) && p in st.disk[n].m.header.ctDeps ==> rank(p.0) < rank(n))
  }

  ghost predicate RankedSources(c: Compiler, sources: map<Name, Text>, rank: Name -> nat) {
    && (forall n, i :: n in sources && i in c.imports(n, sources[n]) ==> rank(i) < rank(n))
    && (forall n, i :: n in sources && i in c.annotations(n, sources[n]) ==> rank(i) < rank(n))
  }

  /** The module obtained by compiling `n` and everything below it, no cache involved. */
  ghost function Scratch(c: Compiler, sources: map<Name, Text>, rank: Name -> nat, n: Name): Option<Module>
    requires Lawful(c)
    decreases rank(n), 1
  {
    if n !in sources then None
    else
      var view := ScratchView(c, sources, rank, rank(n));
      if forall i :: i in c.imports(n, sources[n]) + c.annotations(n, sources[n]) ==> i in view then
        Assemble(c, n, sources[n], view)
      else None
  }

  ghost function ScratchView(c: Compiler, sources: map<Name, Text>, rank: Name -> nat, bound: nat): map<Name, Entry>
    requires Lawful(c)
    decreases bound, 0
  {
    map d | d in sources && rank(d) < bound && Scratch(c, sources, rank, d).Some? ::
      Ready(Scratch(c, sources, rank, d).value)
  }

  // ----- What is true of the persistent cache -----

  /** Every cached module is the result of compiling the source its header names. */
  ghost predicate Genuine(c: Compiler, n: Name, m: Module)
    requires Lawful(c)
  {
    exists view :: Assemble(c, n, m.header.source, view) == Some(m)
  }

  ghost predicate DiskOk(c: Compiler, disk: map<Name, Cached>)
    requires Lawful(c)
  {
    forall n :: n in disk ==> Genuine(c, n, disk[n].m)
  }

  /** The recorded dependencies of `m` are as they stand in `view`. */
  ghost predicate Current(m: Module, view: map<Name, Entry>) {
    && (forall p :: p in m.header.deps ==> p.0 in view && Meta(view[p.0]) == p.1)
    && (forall p :: p in m.header.ctDeps ==> p.0 in view && HeaderOf(view[p.0]) == p.1)
  }

  lemma PairIn<T>(names: seq<Name>, values: map<Name, T>, d: Name)
    requires d in names && forall e :: e in names ==> e in values
    ensures (d, values[d]) in Pairs(names, values)
  {
    var i :| 0 <= i < |names| && names[i] == d;
    assert Pairs(names, values)[i] == (d, values[d]);
  }

  /** Compiling against the recorded interfaces again gives the same module: the argument for
      reusing it. */
  lemma ReuseIsRecompile(c: Compiler, n: Name, m: Module, view0: map<Name, Entry>, view: map<Name, Entry>)
    requires Lawful(c) && Assemble(c, n, m.header.source, view0) == Some(m) && Current(m, view)
    ensures Assemble(c, n, m.header.source, view) == Some(m)
    ensures forall i :: i in c.imports(n, m.header.source) + c.annotations(n, m.header.source) ==> i in view
  {
    var s, imports := m.header.source, c.imports(n, m.header.source);
    var metas0, headers0 := Metas(c, imports, view0), Headers(c.annotations(n, s), view0);
    var metas, headers := Metas(c, imports, view), Headers(c.annotations(n, s), view);
    var o := c.compile(n, s, metas0, headers0).value;
    forall d | d in o.deps
      ensures d in view && Meta(view[d]) == metas0[d]
    {
      PairIn(o.deps, metas0, d);
    }
    forall d | d in o.deps
      ensures d in metas && metas[d] == metas0[d]
    {
      if d !in imports {
        var i :| i in imports && i in view0 && view0[i].Ready? && d in c.exposes(view0[i].m.iface);
        assert i in o.deps;
        assert Meta(view[i]) == Meta(view0[i]);
      }
    }
    forall d | d in o.ctDeps
      ensures d in headers && headers[d] == headers0[d]
    {
      PairIn(o.ctDeps, headers0, d);
    }
    assert Agree(o.deps, metas0, metas) && Agree(o.ctDeps, headers0, headers);
    assert Pairs(o.deps, metas) == Pairs(o.deps, metas0);
    assert Pairs(o.ctDeps, headers) == Pairs(o.ctDeps, headers0);
  }

  /** The dependencies recorded by a compilation from scratch are below it and are recorded as they
      are from scratch. */
  lemma ScratchDeps(c: Compiler, sources: map<Name, Text>, rank: Name -> nat, n: Name)
    requires Lawful(c) && Scratch(c, sources, rank, n).Some?
    ensures Current(Scratch(c, sources, rank, n).value, ScratchView(c, sources, rank, rank(n)))
    ensures var m := Scratch(c, sources, rank, n).value;
            && (forall d :: d in c.exposes(m.iface) ==> exists x :: (d, x) in m.header.deps)
            && Genuine(c, n, m)
  {
    var view := ScratchView(c, sources, rank, rank(n));
    var s := sources[n];
    var m := Scratch(c, sources, rank, n).value;
    assert Assemble(c, n, s, view) == Some(m);
    AssembleDeps(c, n, s, view);
  }

  lemma AssembleDeps(c: Compiler, n: Name, s: Text, view: map<Name, Entry>)
    requires Lawful(c) && Assemble(c, n, s, view).Some?
    ensures var m := Assemble(c, n, s, view).value;
            && m.header.source == s && Current(m, view)
            && (forall d :: d in c.exposes(m.iface) ==> exists x :: (d, x) in m.header.deps)
  {
    var metas, headers := Metas(c, c.imports(n, s), view), Headers(c.annotations(n, s), view);
    var o := c.compile(n, s, metas, headers).value;
    var m := Assemble(c, n, s, view).value;
    forall p | p in m.header.deps
      ensures p.0 in view && Meta(view[p.0]) == p.1
    {
      assert p.0 in o.deps && p.1 == metas[p.0];
    }
    forall p | p in m.header.ctDeps
      ensures p.0 in view && HeaderOf(view[p.0]) == p.1
    {
      assert p.0 in o.ctDeps && p.1 == headers[p.0];
    }
    forall d | d in c.exposes(m.iface)
      ensures exists x :: (d, x) in m.header.deps
    {
      PairIn(o.deps, metas, d);
    }
  }

  // ----- The persistent cache stays genuine, whatever happens -----

  lemma {:induction false} GetModuleDisk(c: Compiler, depth: nat, st: State, n: Name)
    requires Lawful(c) && DiskOk(c, st.disk)
    ensures DiskOk(c, GetModule(c, depth, st, n).0.disk)
    decreases depth, 4, 0
  {
    hide DiskOk, Lawful;
    if n !in st.mem && depth > 0 {
      DeserializeDisk(c, depth - 1, st, n);
      var r := Deserialize(c, depth - 1, st, n);
      if r.1 == Go(true) && n in r.0.sources {
        ParseModuleDisk(c, depth - 1, r.0, n);
      }
    }
  }

  lemma {:induction false} DeserializeDisk(c: Compiler, depth: nat, st: State, n: Name)
    requires Lawful(c) && DiskOk(c, st.disk)
    ensures DiskOk(c, Deserialize(c, depth, st, n).0.disk)
    decreases depth, 6, 0
  {
    hide DiskOk, Lawful;
    if n in st.disk && n in st.sources {
      var m := st.disk[n].m;
      var stale := st.sources[n] != m.header.source || !st.disk[n].builder;
      CheckDepsDisk(c, depth, st, m.header.deps, stale);
      var r := CheckDeps(c, depth, st, m.header.deps, stale);
      if r.1.Go? {
        CheckCTDepsDisk(c, depth, r.0, m.header.ctDeps, r.1.rebuild);
      }
    }
  }

  lemma {:induction false} CheckDepsDisk(c: Compiler, depth: nat, st: State, deps: seq<(Name, MetaDigest)>,
                                         rebuild: bool)
    requires Lawful(c) && DiskOk(c, st.disk)
    ensures DiskOk(c, CheckDeps(c, depth, st, deps, rebuild).0.disk)
    decreases depth, 5, |deps|
  {
    hide DiskOk, Lawful, GetModule;
    if deps != [] {
      if rebuild {
        CheckDepsDisk(c, depth, st, deps[1..], true);
      } else {
        GetModuleDisk(c, depth, st, deps[0].0);
        var r := GetModule(c, depth, st, deps[0].0);
        match r.1
        case Fetched(Building) => CheckDepsDisk(c, depth, r.0.(passed := r.0.passed + [deps[0]]), deps[1..], false);
        case Fetched(Ready(m)) => CheckDepsDisk(c, depth, r.0, deps[1..], Of(m.iface) != deps[0].1);
        case Missing => CheckDepsDisk(c, depth, r.0, deps[1..], true);
        case _ =>
      }
    }
  }

  lemma {:induction false} CheckCTDepsDisk(c: Compiler, depth: nat, st: State, deps: seq<(Name, HeaderDigest)>,
                                           rebuild: bool)
    requires Lawful(c) && DiskOk(c, st.disk)
    ensures DiskOk(c, CheckCTDeps(c, depth, st, deps, rebuild).0.disk)
    decreases depth, 5, |deps|
  {
    hide DiskOk, Lawful, GetModule;
    if deps != [] {
      if rebuild {
        CheckCTDepsDisk(c, depth, st, deps[1..], true);
      } else {
        GetModuleDisk(c, depth, st, deps[0].0);
        var r := GetModule(c, depth, st, deps[0].0);
        match r.1
        case Fetched(e) => CheckCTDepsDisk(c, depth, r.0, deps[1..], e.Building? || HeaderOf(e) != deps[0].1);
        case Missing => CheckCTDepsDisk(c, depth, r.0, deps[1..], true);
        case _ =>
      }
    }
  }

  lemma {:induction false} ParseModuleDisk(c: Compiler, depth: nat, st: State, n: Name)
    requires Lawful(c) && DiskOk(c, st.disk) && n in st.sources
    ensures DiskOk(c, ParseModule(c, depth, st, n).0.disk)
    decreases depth, 6, 0
  {
    hide Lawful, LoadAll, Assemble, GetModule;
    var s := st.sources[n];
    var st1 := st.(mem := st.mem[n := Building]);
    LoadAllDisk(c, depth, st1, c.imports(n, s) + c.annotations(n, s));
    var r := LoadAll(c, depth, st1, c.imports(n, s) + c.annotations(n, s));
    if r.1 == Go(false) && Assemble(c, n, s, r.0.mem).Some? {
      AssembleGenuine(c, n, s, r.0.mem);
    }
  }

  lemma AssembleGenuine(c: Compiler, n: Name, s: Text, view: map<Name, Entry>)
    requires Lawful(c) && Assemble(c, n, s, view).Some?
    ensures Genuine(c, n, Assemble(c, n, s, view).value)
  {
  }

  lemma {:induction false} LoadAllDisk(c: Compiler, depth: nat, st: State, names: seq<Name>)
    requires Lawful(c) && DiskOk(c, st.disk)
    ensures DiskOk(c, LoadAll(c, depth, st, names).0.disk)
    decreases depth, 5, |names|
  {
    hide DiskOk, Lawful, GetModule;
    if names != [] {
      GetModuleDisk(c, depth, st, names[0]);
      var r := GetModule(c, depth, st, names[0]);
      if r.1.Fetched? {
        LoadAllDisk(c, depth, r.0, names[1..]);
      }
    }
  }

  // ----- Soundness -----

  function Names(loaded: seq<(Name, Module)>): set<Name> {
    set e | e in loaded :: e.0
  }

  /** Every finished module has been loaded once, after all it depends on. */
  ghost predicate LoadOrder(st: State) {
    && (forall d :: Loaded(st, d) ==> (d, st.mem[d].m) in st.loaded)
    && (forall e :: e in st.loaded ==> e.0 in st.mem && st.mem[e.0] == Ready(e.1))
    && (forall i, j :: 0 <= i < j < |st.loaded| ==> st.loaded[i].0 != st.loaded[j].0)
    && (forall j, p :: 0 <= j < |st.loaded| && p in st.loaded[j].1.header.deps ==> p.0 in Names(st.loaded[..j]))
  }

  lemma FinishOrder(st: State, n: Name, m: Module)
    requires LoadOrder(st) && (n in st.mem ==> st.mem[n].Building?)
    requires forall p :: p in m.header.deps ==> Loaded(st, p.0)
    ensures LoadOrder(Finish(st, n, m))
  {
    var st' := Finish(st, n, m);
    assert forall i :: 0 <= i < |st.loaded| ==> st.loaded[i] in st.loaded;
    forall j, p | 0 <= j < |st'.loaded| && p in st'.loaded[j].1.header.deps
      ensures p.0 in Names(st'.loaded[..j])
    {
      if j < |st.loaded| {
        assert st'.loaded[j] == st.loaded[j] && st'.loaded[..j] == st.loaded[..j];
      } else {
        assert st'.loaded[..j] == st.loaded && (p.0, st.mem[p.0].m) in st.loaded;
      }
    }
  }

  lemma SameOrder(st: State, st': State)
    requires LoadOrder(st) && st'.loaded == st.loaded && forall d :: Loaded(st, d) <==> Loaded(st', d)
    requires forall d :: d in st.mem && d in st'.mem && st.mem[d].Ready? ==> st'.mem[d] == st.mem[d]
    ensures LoadOrder(st')
  {
    assert forall e :: e in st.loaded ==> Loaded(st, e.0);
  }

  /** The state of a run that has not failed, with all unfinished modules ranked `bound` or above:
      every finished module is the one compiled from scratch, next to all it depends on. */
  ghost predicate Good(c: Compiler, rank: Name -> nat, st: State, bound: nat)
    requires Lawful(c)
  {
    && Ranked(c, st, rank) && DiskOk(c, st.disk) && LoadOrder(st)
    && (forall d :: d in st.mem && st.mem[d].Building? ==> rank(d) >= bound)
    && (forall d :: d in st.mem && st.mem[d].Ready? ==> Scratch(c, st.sources, rank, d) == Some(st.mem[d].m))
    && (forall d, p :: d in st.mem && st.mem[d].Ready? && p in st.mem[d].m.header.deps ==>
          p.0 in st.mem && st.mem[p.0].Ready?)
  }

  /** The cache entry of `n` is usable: same source, builder file present, and every recorded digest
      is the digest the dependency has when compiled from scratch. */
  ghost predicate UpToDate(c: Compiler, rank: Name -> nat, st: State, n: Name)
    requires Lawful(c)
  {
    Live(st, n) && Current(st.disk[n].m, ScratchView(c, st.sources, rank, rank(n)))
  }

  /** From `st` to `st'` modules ranked below `lim` have been loaded and are cached, and exactly those
      that were not up to date have been compiled. */
  ghost predicate Step(c: Compiler, rank: Name -> nat, st: State, st': State, lim: nat)
    requires Lawful(c)
  {
    Grew(rank, st, st', lim) && Filed(st, st') && CompiledExactly(c, rank, st, st')
  }

  ghost predicate Grew(rank: Name -> nat, st: State, st': State, lim: nat) {
    && st'.sources == st.sources
    && (forall d :: d in st.mem ==> d in st'.mem && st'.mem[d] == st.mem[d])
    && (forall d :: d in st'.mem && d !in st.mem ==> st'.mem[d].Ready? && rank(d) < lim)
  }

  ghost predicate Filed(st: State, st': State) {
    && (forall d :: d in st'.mem && d !in st.mem && st'.mem[d].Ready? ==>
          d in st'.disk && st'.disk[d] == Cached(st'.mem[d].m, true))
    && (forall d :: d in st.mem || d !in st'.mem ==> SameFile(st.disk, st'.disk, d))
  }

  ghost predicate CompiledExactly(c: Compiler, rank: Name -> nat, st: State, st': State)
    requires Lawful(c)
  {
    && st.built <= st'.built
    && (forall d :: d in NewlyBuilt(st, st') <==> d in st'.mem && d !in st.mem && !UpToDate(c, rank, st, d))
  }

  function NewlyBuilt(st: State, st': State): seq<Name> {
    if |st.built| <= |st'.built| then st'.built[|st.built|..] else []
  }

  ghost predicate SameFile(disk: map<Name, Cached>, disk': map<Name, Cached>, d: Name) {
    if d in disk then d in disk' && disk'[d] == disk[d] else d !in disk'
  }

  /** Everything there is can be compiled, and nothing cached has lost its source. */
  ghost predicate Healthy(c: Compiler, rank: Name -> nat, st: State)
    requires Lawful(c)
  {
    && (forall n :: n in st.sources ==> Scratch(c, st.sources, rank, n).Some?)
    && (forall n :: n in st.disk ==> n in st.sources)
  }

  lemma StepTransitive(c: Compiler, rank: Name -> nat, st: State, st1: State, st2: State, lim1: nat, lim2: nat,
                       lim: nat)
    requires Lawful(c) && Step(c, rank, st, st1, lim1) && Step(c, rank, st1, st2, lim2) && lim1 <= lim && lim2 <= lim
    ensures Step(c, rank, st, st2, lim)
  {
    hide UpToDate, CompiledExactly, Filed, Lawful;
    FiledTransitive(rank, st, st1, st2, lim1, lim2);
    CompiledTransitive(c, rank, st, st1, st2, lim1, lim2);
  }

  lemma FiledTransitive(rank: Name -> nat, st: State, st1: State, st2: State, lim1: nat, lim2: nat)
    requires Grew(rank, st, st1, lim1) && Grew(rank, st1, st2, lim2) && Filed(st, st1) && Filed(st1, st2)
    ensures Filed(st, st2)
  {
  }

  lemma CompiledTransitive(c: Compiler, rank: Name -> nat, st: State, st1: State, st2: State, lim1: nat, lim2: nat)
    requires Lawful(c) && Grew(rank, st, st1, lim1) && Grew(rank, st1, st2, lim2) && Filed(st, st1)
    requires CompiledExactly(c, rank, st, st1) && CompiledExactly(c, rank, st1, st2)
    ensures CompiledExactly(c, rank, st, st2)
  {
    hide UpToDate, Filed, Lawful;
    assert NewlyBuilt(st, st2) == NewlyBuilt(st, st1) + NewlyBuilt(st1, st2);
    forall d | d !in st1.mem
      ensures UpToDate(c, rank, st, d) <==> UpToDate(c, rank, st1, d)
    {
      UpToDateStable(c, rank, st, st1, d);
    }
  }

  lemma UpToDateStable(c: Compiler, rank: Name -> nat, st: State, st1: State, d: Name)
    requires Lawful(c) && st1.sources == st.sources && Filed(st, st1) && d !in st1.mem
    ensures UpToDate(c, rank, st, d) <==> UpToDate(c, rank, st1, d)
  {
    hide ScratchView, Current, Lawful;
    assert SameFile(st.disk, st1.disk, d);
  }

  /** The recorded value of one dependency is the one it has when compiled from scratch. */
  ghost predicate Matches(c: Compiler, rank: Name -> nat, sources: map<Name, Text>, p: (Name, MetaDigest))
    requires Lawful(c)
  {
    var s := Scratch(c, sources, rank, p.0);
    s.Some? && Of(s.value.iface) == p.1
  }

  ghost predicate MatchesHeader(c: Compiler, rank: Name -> nat, sources: map<Name, Text>, p: (Name, HeaderDigest))
    requires Lawful(c)
  {
    var s := Scratch(c, sources, rank, p.0);
    s.Some? && Digest(s.value.header) == p.1
  }

  /** What a call that went on has done: it has loaded correct modules only, all ranked below `lim`. */
  ghost predicate Went(c: Compiler, rank: Name -> nat, st: State, st': State, bound: nat, lim: nat)
    requires Lawful(c)
  {
    Good(c, rank, st', bound) && Step(c, rank, st, st', lim) && (Healthy(c, rank, st) ==> Healthy(c, rank, st'))
  }

  lemma WentFurther(c: Compiler, rank: Name -> nat, st: State, st1: State, st2: State, bound: nat, lim1: nat, lim2: nat,
                    lim: nat)
    requires Lawful(c) && Went(c, rank, st, st1, bound, lim1) && Went(c, rank, st1, st2, bound, lim2)
    requires lim1 <= lim && lim2 <= lim
    ensures Went(c, rank, st, st2, bound, lim)
    ensures forall b :: b in NewlyBuilt(st1, st2) ==> b in NewlyBuilt(st, st2)
    ensures forall b :: b in NewlyBuilt(st, st1) ==> b in NewlyBuilt(st, st2)
  {
    hide Good, Healthy, UpToDate, Lawful;
    StepTransitive(c, rank, st, st1, st2, lim1, lim2, lim);
    assert NewlyBuilt(st, st2) == NewlyBuilt(st, st1) + NewlyBuilt(st1, st2);
  }

  lemma WentNowhere(c: Compiler, rank: Name -> nat, st: State, bound: nat, lim: nat)
    requires Lawful(c) && Good(c, rank, st, bound)
    ensures Went(c, rank, st, st, bound, lim)
  {
  }

  ghost predicate Loaded(st: State, d: Name) {
    d in st.mem && st.mem[d].Ready?
  }

  ghost predicate Answer(c: Compiler, rank: Name -> nat, st: State, n: Name, st': State, f: Fetch)
    requires Lawful(c)
  {
    match f
    case Fetched(e) =>
      && Scratch(c, st.sources, rank, n).Some? && e == Ready(Scratch(c, st.sources, rank, n).value)
      && n in st'.mem && st'.mem[n] == e
    case Missing => n !in st.sources && Scratch(c, st.sources, rank, n).None?
    case _ => true
  }

  lemma {:induction false} GetModuleSound(c: Compiler, depth: nat, st: State, rank: Name -> nat, n: Name, bound: nat)
    requires Lawful(c) && Good(c, rank, st, bound) && rank(n) < bound
    ensures var (st', f) := GetModule(c, depth, st, n);
            && (f.Fetched? || f.Missing? ==>
              Went(c, rank, st, st', bound, rank(n) + 1) && Answer(c, rank, st, n, st', f))
            && (f.Missing? <==> depth > 0 && n !in st.mem && n !in st.sources && n !in st.disk)
            && (depth > 0 && n !in st.mem && n !in st.sources && n in st.disk ==> (st', f) == (st, Failed))
            && (Healthy(c, rank, st) && depth > rank(n) ==> f.Fetched? || f.Missing?)
    decreases depth, 4, 0
  {
    hide Good, Step, Healthy, UpToDate, Scratch, Lawful, Deserialize, ParseModule, Went;
    NullIff(c, depth, st, n);
    if n in st.mem {
      WentNowhere(c, rank, st, bound, rank(n) + 1);
      LoadedIsScratch(c, rank, st, n, bound);
    } else if depth > 0 {
      DeserializeSound(c, depth - 1, st, rank, n, bound);
      var r := Deserialize(c, depth - 1, st, n);
      match r.1
      case Go(true) =>
        NotLoaded(c, rank, st, r.0, n, bound);
        if n in r.0.sources {
          ParseModuleSound(c, depth - 1, r.0, rank, n, bound);
          var p := ParseModule(c, depth - 1, r.0, n);
          if p.1.Fetched? {
            WentFurther(c, rank, st, r.0, p.0, bound, rank(n), rank(n) + 1, rank(n) + 1);
          }
        } else {
          WentNowhere(c, rank, r.0, bound, rank(n));
          WentFurther(c, rank, st, r.0, r.0, bound, rank(n), rank(n), rank(n) + 1);
        }
      case Go(false) =>
        NotLoaded(c, rank, st, r.0, n, bound);
        ReuseSound(c, rank, st, r.0, n, bound);
      case Stop(_) =>
    }
  }

  lemma LoadedIsScratch(c: Compiler, rank: Name -> nat, st: State, n: Name, bound: nat)
    requires Lawful(c) && Good(c, rank, st, bound) && rank(n) < bound && n in st.mem
    ensures Scratch(c, st.sources, rank, n).Some? && st.mem[n] == Ready(Scratch(c, st.sources, rank, n).value)
  {
    hide Scratch, Ranked, DiskOk, Lawful;
  }

  /** While the dependencies of `n` load, `n` itself is neither loaded nor touched on disk. */
  lemma NotLoaded(c: Compiler, rank: Name -> nat, st: State, st': State, n: Name, bound: nat)
    requires Lawful(c) && Went(c, rank, st, st', bound, rank(n)) && n !in st.mem
    ensures n !in st'.mem && SameFile(st.disk, st'.disk, n) && st'.sources == st.sources
    ensures Good(c, rank, st', bound)
    ensures UpToDate(c, rank, st', n) <==> UpToDate(c, rank, st, n)
    ensures n !in st.sources ==> Scratch(c, st.sources, rank, n).None?
    ensures Healthy(c, rank, st) ==> Healthy(c, rank, st')
  {
    hide Good, Healthy, ScratchView, Current, Lawful;
  }

  /** Taking `n` from the persistent cache. */
  lemma ReuseSound(c: Compiler, rank: Name -> nat, st0: State, st: State, n: Name, bound: nat)
    requires Lawful(c) && Went(c, rank, st0, st, bound, rank(n)) && n !in st0.mem && n !in st.mem && rank(n) < bound
    requires Good(c, rank, st0, bound) && UpToDate(c, rank, st0, n)
    requires forall p :: p in st0.disk[n].m.header.deps ==> Loaded(st, p.0)
    ensures var st' := Finish(st, n, st0.disk[n].m);
            && Went(c, rank, st0, st', bound, rank(n) + 1)
            && Scratch(c, st0.sources, rank, n) == Some(st0.disk[n].m)
  {
    hide ScratchView, Healthy, Lawful, Assemble, Current;
    var m := st0.disk[n].m;
    UpToDateIsScratch(c, rank, st0, n);
    var st' := Finish(st, n, m);
    assert Scratch(c, st.sources, rank, n) == Some(m);
    assert SameFile(st0.disk, st.disk, n) && st0.disk[n] == Cached(m, true);
    ReadyGood(c, rank, st, n, m, bound);
    ReadyStep(c, rank, st0, st, n, m);
    HealthyMem(c, rank, st, st');
  }

  lemma HealthyMem(c: Compiler, rank: Name -> nat, st: State, st': State)
    requires Lawful(c) && st'.sources == st.sources && st'.disk == st.disk
    ensures Healthy(c, rank, st) <==> Healthy(c, rank, st')
  {
    hide Scratch, Lawful;
  }

  lemma UpToDateIsScratch(c: Compiler, rank: Name -> nat, st: State, n: Name)
    requires Lawful(c) && DiskOk(c, st.disk) && RankedSources(c, st.sources, rank) && UpToDate(c, rank, st, n)
    ensures Scratch(c, st.sources, rank, n) == Some(st.disk[n].m)
  {
    hide Lawful, Assemble, Current, ScratchView;
    var m := st.disk[n].m;
    assert Genuine(c, n, m);
    var view0 :| Assemble(c, n, m.header.source, view0) == Some(m);
    ReuseIsRecompile(c, n, m, view0, ScratchView(c, st.sources, rank, rank(n)));
  }

  lemma ReadyGood(c: Compiler, rank: Name -> nat, st: State, n: Name, m: Module, bound: nat)
    requires Lawful(c) && Good(c, rank, st, bound) && n !in st.mem
    requires Scratch(c, st.sources, rank, n) == Some(m)
    requires forall p :: p in m.header.deps ==> Loaded(st, p.0)
    ensures Good(c, rank, Finish(st, n, m), bound)
  {
    hide Scratch, DiskOk, Lawful, LoadOrder;
    FinishOrder(st, n, m);
  }

  lemma ReadyStep(c: Compiler, rank: Name -> nat, st0: State, st: State, n: Name, m: Module)
    requires Lawful(c) && Step(c, rank, st0, st, rank(n)) && n !in st.mem
    requires UpToDate(c, rank, st0, n) && n in st.disk && st.disk[n] == Cached(m, true)
    ensures Step(c, rank, st0, Finish(st, n, m), rank(n) + 1)
  {
    hide UpToDate, Lawful;
    assert NewlyBuilt(st0, Finish(st, n, m)) == NewlyBuilt(st0, st);
  }

  lemma {:induction false} DeserializeSound(c: Compiler, depth: nat, st: State, rank: Name -> nat, n: Name, bound: nat)
    requires Lawful(c) && Good(c, rank, st, bound) && rank(n) < bound
    ensures var (st', v) := Deserialize(c, depth, st, n);
            && (v.Go? ==> Went(c, rank, st, st', bound, rank(n)) && v.rebuild == !UpToDate(c, rank, st, n))
            && (v == Go(false) ==> forall p :: p in st.disk[n].m.header.deps ==> Loaded(st', p.0))
            && (v.Stop? ==> !v.f.Fetched? && !v.f.Missing?)
            && (n !in st.disk ==> (st', v) == (st, Go(true)))
            && (n in st.disk && n !in st.sources ==> (st', v) == (st, Stop(Failed)))
            && (Healthy(c, rank, st) && depth >= rank(n) ==> v.Go?)
    decreases depth, 6, 0
  {
    hide Good, Step, Scratch, Lawful, CheckDeps, CheckCTDeps, Went, UpToDate, Loaded;
    if n !in st.disk {
      WentNowhere(c, rank, st, bound, rank(n));
      NoFile(c, rank, st, n);
    } else if n in st.sources {
      var m := st.disk[n].m;
      var stale := st.sources[n] != m.header.source || !st.disk[n].builder;
      if !stale {
        RankedDeps(c, rank, st, n, bound);
      }
      CheckDepsSound(c, depth, st, rank, m.header.deps, stale, rank(n), bound);
      var r := CheckDeps(c, depth, st, m.header.deps, stale);
      if r.1.Go? {
        GoodAfter(c, rank, st, r.0, bound, rank(n));
        CheckCTDepsSound(c, depth, r.0, rank, m.header.ctDeps, r.1.rebuild, rank(n), bound);
        var q := CheckCTDeps(c, depth, r.0, m.header.ctDeps, r.1.rebuild);
        if q.1.Go? {
          WentFurther(c, rank, st, r.0, q.0, bound, rank(n), rank(n), rank(n));
          if stale {
            NoFile(c, rank, st, n);
          } else {
            UpToDateIsMatching(c, rank, st, n, bound);
          }
          if q.1 == Go(false) {
            StillLoaded(c, rank, r.0, q.0, m.header.deps, bound, rank(n));
          }
        }
      }
    }
  }

  lemma NoFile(c: Compiler, rank: Name -> nat, st: State, n: Name)
    requires Lawful(c) && !Live(st, n)
    ensures !UpToDate(c, rank, st, n)
  {
  }

  lemma RankedDeps(c: Compiler, rank: Name -> nat, st: State, n: Name, bound: nat)
    requires Lawful(c) && Good(c, rank, st, bound) && Live(st, n)
    ensures forall p :: p in st.disk[n].m.header.deps ==> rank(p.0) < rank(n)
    ensures forall p :: p in st.disk[n].m.header.ctDeps ==> rank(p.0) < rank(n)
  {
    hide Scratch, DiskOk, Lawful;
  }

  lemma GoodAfter(c: Compiler, rank: Name -> nat, st: State, st': State, bound: nat, lim: nat)
    requires Lawful(c) && Went(c, rank, st, st', bound, lim)
    ensures Good(c, rank, st', bound) && st'.sources == st.sources
    ensures Healthy(c, rank, st) ==> Healthy(c, rank, st')
  {
    hide Good, Healthy, Lawful;
  }

  lemma StillLoaded(c: Compiler, rank: Name -> nat, st: State, st': State, deps: seq<(Name, MetaDigest)>, bound: nat,
                    lim: nat)
    requires Lawful(c) && Went(c, rank, st, st', bound, lim)
    ensures forall p :: p in deps && Loaded(st, p.0) ==> Loaded(st', p.0)
    ensures forall d :: Loaded(st, d) ==> Loaded(st', d)
  {
    hide Good, Healthy, Lawful, UpToDate;
  }

  /** A recorded dependency agrees with the view from scratch when its digest is the one it has
      when compiled from scratch. */
  lemma UpToDateIsMatching(c: Compiler, rank: Name -> nat, st: State, n: Name, bound: nat)
    requires Lawful(c) && Good(c, rank, st, bound) && Live(st, n)
    ensures var m := st.disk[n].m;
            UpToDate(c, rank, st, n) <==>
              && (forall p :: p in m.header.deps ==> Matches(c, rank, st.sources, p))
              && (forall p :: p in m.header.ctDeps ==> MatchesHeader(c, rank, st.sources, p))
  {
    hide Scratch, DiskOk, Lawful;
    RankedDeps(c, rank, st, n, bound);
    var m, view := st.disk[n].m, ScratchView(c, st.sources, rank, rank(n));
    forall p | p in m.header.deps
      ensures p.0 in view && Meta(view[p.0]) == p.1 <==> Matches(c, rank, st.sources, p)
    {
      ScratchHasSource(c, st.sources, rank, p.0);
    }
    forall p | p in m.header.ctDeps
      ensures p.0 in view && HeaderOf(view[p.0]) == p.1 <==> MatchesHeader(c, rank, st.sources, p)
    {
      ScratchHasSource(c, st.sources, rank, p.0);
    }
  }

  lemma ScratchHasSource(c: Compiler, sources: map<Name, Text>, rank: Name -> nat, n: Name)
    requires Lawful(c)
    ensures Scratch(c, sources, rank, n).Some? ==> n in sources
  {
  }

  lemma {:induction false} CheckDepsSound(c: Compiler, depth: nat, st: State, rank: Name -> nat,
                                          deps: seq<(Name, MetaDigest)>, stale: bool, lim: nat, bound: nat)
    requires Lawful(c) && Good(c, rank, st, bound) && lim <= bound
    requires stale || forall p :: p in deps ==> rank(p.0) < lim
    ensures var (st', v) := CheckDeps(c, depth, st, deps, stale);
            && (v.Go? ==> Went(c, rank, st, st', bound, lim))
            && (v.Go? ==> v.rebuild == (stale || exists p :: p in deps && !Matches(c, rank, st.sources, p)))
            && (v == Go(false) ==> forall p :: p in deps ==> Loaded(st', p.0))
            && (v.Stop? ==> !v.f.Fetched? && !v.f.Missing?)
            && (Healthy(c, rank, st) && depth >= lim ==> v.Go?)
    decreases depth, 5, |deps|
  {
    hide Good, Step, Healthy, UpToDate, Scratch, Lawful, GetModule, Went;
    if deps == [] {
      WentNowhere(c, rank, st, bound, lim);
    } else if stale {
      CheckDepsSound(c, depth, st, rank, deps[1..], true, lim, bound);
    } else {
      var p, rest := deps[0], deps[1..];
      GetModuleSound(c, depth, st, rank, p.0, bound);
      var r := GetModule(c, depth, st, p.0);
      if r.1.Fetched? || r.1.Missing? {
        GoodAfter(c, rank, st, r.0, bound, rank(p.0) + 1);
        var stale' := r.1.Missing? || Of(r.1.e.m.iface) != p.1;
        assert stale' == !Matches(c, rank, st.sources, p);
        CheckDepsSound(c, depth, r.0, rank, rest, stale', lim, bound);
        var q := CheckDeps(c, depth, r.0, rest, stale');
        assert CheckDeps(c, depth, st, deps, false) == q;
        if q.1.Go? {
          WentFurther(c, rank, st, r.0, q.0, bound, rank(p.0) + 1, lim, lim);
          StillLoaded(c, rank, r.0, q.0, deps, bound, lim);
        }
      }
    }
  }

  lemma {:induction false} CheckCTDepsSound(c: Compiler, depth: nat, st: State, rank: Name -> nat,
                                            deps: seq<(Name, HeaderDigest)>, stale: bool, lim: nat, bound: nat)
    requires Lawful(c) && Good(c, rank, st, bound) && lim <= bound
    requires stale || forall p :: p in deps ==> rank(p.0) < lim
    ensures var (st', v) := CheckCTDeps(c, depth, st, deps, stale);
            && (v.Go? ==> Went(c, rank, st, st', bound, lim))
            && (v.Go? ==> v.rebuild == (stale || exists p :: p in deps && !MatchesHeader(c, rank, st.sources, p)))
            && (v.Stop? ==> !v.f.Fetched? && !v.f.Missing?)
            && (Healthy(c, rank, st) && depth >= lim ==> v.Go?)
    decreases depth, 5, |deps|
  {
    hide Good, Step, Healthy, UpToDate, Scratch, Lawful, GetModule, Went;
    if deps == [] {
      WentNowhere(c, rank, st, bound, lim);
    } else if stale {
      CheckCTDepsSound(c, depth, st, rank, deps[1..], true, lim, bound);
    } else {
      var p, rest := deps[0], deps[1..];
      GetModuleSound(c, depth, st, rank, p.0, bound);
      var r := GetModule(c, depth, st, p.0);
      if r.1.Fetched? || r.1.Missing? {
        GoodAfter(c, rank, st, r.0, bound, rank(p.0) + 1);
        var stale' := r.1.Missing? || HeaderOf(r.1.e) != p.1;
        assert stale' == !MatchesHeader(c, rank, st.sources, p);
        CheckCTDepsSound(c, depth, r.0, rank, rest, stale', lim, bound);
        var q := CheckCTDeps(c, depth, r.0, rest, stale');
        assert CheckCTDeps(c, depth, st, deps, false) == q;
        if q.1.Go? {
          WentFurther(c, rank, st, r.0, q.0, bound, rank(p.0) + 1, lim, lim);
        }
      }
    }
  }

  lemma {:induction false} LoadAllSound(c: Compiler, depth: nat, st: State, rank: Name -> nat, names: seq<Name>,
                                        lim: nat, bound: nat)
    requires Lawful(c) && Good(c, rank, st, bound) && lim <= bound && forall i :: i in names ==> rank(i) < lim
    ensures var (st', v) := LoadAll(c, depth, st, names);
            && v != Go(true)
            && (v.Go? ==> Went(c, rank, st, st', bound, lim))
            && (v.Go? ==> forall i :: i in names ==> Loaded(st', i))
            && (v.Stop? ==> !v.f.Fetched? && !v.f.Missing?)
            && (Healthy(c, rank, st) && depth >= lim && (forall i :: i in names ==> i in st.sources) ==> v.Go?)
    decreases depth, 5, |names|
  {
    hide Good, Step, Healthy, UpToDate, Scratch, Lawful, GetModule, Went;
    if names == [] {
      WentNowhere(c, rank, st, bound, lim);
    } else {
      GetModuleSound(c, depth, st, rank, names[0], bound);
      var r := GetModule(c, depth, st, names[0]);
      if r.1.Fetched? {
        GoodAfter(c, rank, st, r.0, bound, rank(names[0]) + 1);
        LoadAllSound(c, depth, r.0, rank, names[1..], lim, bound);
        var q := LoadAll(c, depth, r.0, names[1..]);
        assert LoadAll(c, depth, st, names) == q;
        if q.1.Go? {
          WentFurther(c, rank, st, r.0, q.0, bound, rank(names[0]) + 1, lim, lim);
          StillLoaded(c, rank, r.0, q.0, [], bound, lim);
        }
      }
    }
  }

  lemma {:induction false} ParseModuleSound(c: Compiler, depth: nat, st: State, rank: Name -> nat, n: Name, bound: nat)
    requires Lawful(c) && Good(c, rank, st, bound) && rank(n) < bound
    requires n !in st.mem && n in st.sources && !UpToDate(c, rank, st, n)
    ensures var (st', f) := ParseModule(c, depth, st, n);
            && !f.Missing?
            && (f.Fetched? ==> Went(c, rank, st, st', bound, rank(n) + 1) && Answer(c, rank, st, n, st', f))
            && (Healthy(c, rank, st) && depth >= rank(n) ==> f.Fetched?)
    decreases depth, 6, 0
  {
    hide Good, Step, Healthy, UpToDate, Scratch, Lawful, LoadAll, Went, Assemble, Loaded;
    var s := st.sources[n];
    var names := c.imports(n, s) + c.annotations(n, s);
    var st1 := st.(mem := st.mem[n := Building]);
    BuildingGood(c, rank, st, n, bound);
    HealthyMem(c, rank, st, st1);
    RankedImports(c, rank, st, n, bound);
    LoadAllSound(c, depth, st1, rank, names, rank(n), rank(n));
    HealthyImports(c, rank, st, n);
    var r := LoadAll(c, depth, st1, names);
    if r.1.Go? {
      GoodAfter(c, rank, st1, r.0, rank(n), rank(n));
      AssembleIsScratch(c, rank, r.0, n, rank(n));
      if Assemble(c, n, s, r.0.mem).Some? {
        BuiltSound(c, rank, st, st1, r.0, n, Assemble(c, n, s, r.0.mem).value, bound);
      } else {
        HealthyScratch(c, rank, st, n);
      }
    }
  }

  lemma BuildingGood(c: Compiler, rank: Name -> nat, st: State, n: Name, bound: nat)
    requires Lawful(c) && Good(c, rank, st, bound) && rank(n) < bound && n !in st.mem
    ensures Good(c, rank, st.(mem := st.mem[n := Building]), rank(n))
  {
    hide Scratch, DiskOk, Lawful;
  }

  lemma RankedImports(c: Compiler, rank: Name -> nat, st: State, n: Name, bound: nat)
    requires Lawful(c) && Good(c, rank, st, bound) && n in st.sources
    ensures forall i :: i in c.imports(n, st.sources[n]) + c.annotations(n, st.sources[n]) ==> rank(i) < rank(n)
  {
    hide Scratch, DiskOk, Lawful;
  }

  lemma HealthyScratch(c: Compiler, rank: Name -> nat, st: State, n: Name)
    requires Lawful(c) && n in st.sources
    ensures Healthy(c, rank, st) ==> Scratch(c, st.sources, rank, n).Some?
  {
  }

  lemma HealthyImports(c: Compiler, rank: Name -> nat, st: State, n: Name)
    requires Lawful(c) && n in st.sources
    ensures Healthy(c, rank, st) ==>
              forall i :: i in c.imports(n, st.sources[n]) + c.annotations(n, st.sources[n]) ==> i in st.sources
  {
    if Healthy(c, rank, st) {
      assert Scratch(c, st.sources, rank, n).Some?;
      assert forall i :: i in ScratchView(c, st.sources, rank, rank(n)) ==> i in st.sources;
    }
  }

  /** With its imports loaded, a module is compiled against exactly what it sees from scratch. */
  lemma AssembleIsScratch(c: Compiler, rank: Name -> nat, st: State, n: Name, bound: nat)
    requires Lawful(c) && Good(c, rank, st, bound) && n in st.sources
    requires forall i :: i in c.imports(n, st.sources[n]) + c.annotations(n, st.sources[n]) ==>
                           rank(i) < rank(n) && Loaded(st, i)
    ensures Assemble(c, n, st.sources[n], st.mem) == Scratch(c, st.sources, rank, n)
  {
    hide ScratchView, Lawful, Good, Assemble, SameExposed;
    var s := st.sources[n];
    var view, imports := ScratchView(c, st.sources, rank, rank(n)), c.imports(n, s);
    forall i | i in imports + c.annotations(n, s)
      ensures i in view && i in st.mem && st.mem[i] == view[i] && SameExposed(c, i, view, st.mem)
    {
      LoadedInView(c, rank, st, i, rank(n), bound);
      ExposedLoaded(c, rank, st, i, rank(n), bound);
    }
    SameSight(c, n, s, view, st.mem);
  }

  /** `i` is finished and the same in both views, and so is all its interface mentions. */
  ghost predicate SameExposed(c: Compiler, i: Name, view: map<Name, Entry>, view': map<Name, Entry>) {
    && i in view && i in view' && view[i] == view'[i] && view[i].Ready?
    && forall d :: d in c.exposes(view[i].m.iface) ==> d in view && d in view' && view[d] == view'[d]
  }

  lemma SameSight(c: Compiler, n: Name, s: Text, view: map<Name, Entry>, view': map<Name, Entry>)
    requires Lawful(c)
    requires forall i :: i in c.imports(n, s) + c.annotations(n, s) ==> SameExposed(c, i, view, view')
    ensures Assemble(c, n, s, view) == Assemble(c, n, s, view')
  {
    hide Lawful;
    var imports, annotations := c.imports(n, s), c.annotations(n, s);
    assert forall i :: i in imports ==> i in imports + annotations;
    assert forall i :: i in annotations ==> i in imports + annotations;
    assert Metas(c, imports, view) == Metas(c, imports, view');
    assert Headers(annotations, view) == Headers(annotations, view');
  }

  lemma LoadedInView(c: Compiler, rank: Name -> nat, st: State, i: Name, lim: nat, bound: nat)
    requires Lawful(c) && Good(c, rank, st, bound) && rank(i) < lim && Loaded(st, i)
    ensures var view := ScratchView(c, st.sources, rank, lim); i in view && st.mem[i] == view[i]
  {
    ScratchHasSource(c, st.sources, rank, i);
  }

  lemma ExposedLoaded(c: Compiler, rank: Name -> nat, st: State, i: Name, lim: nat, bound: nat)
    requires Lawful(c) && Good(c, rank, st, bound) && rank(i) < lim && Loaded(st, i)
    ensures SameExposed(c, i, ScratchView(c, st.sources, rank, lim), st.mem)
  {
    hide Lawful, Ranked, DiskOk;
    LoadedInView(c, rank, st, i, lim, bound);
    ScratchDeps(c, st.sources, rank, i);
    var m := st.mem[i].m;
    forall d | d in c.exposes(m.iface)
      ensures var view := ScratchView(c, st.sources, rank, lim); d in view && d in st.mem && st.mem[d] == view[d]
    {
      var x :| (d, x) in m.header.deps;
      assert (d, x).0 in ScratchView(c, st.sources, rank, rank(i));
      assert Loaded(st, (d, x).0);
      LoadedInView(c, rank, st, d, lim, bound);
    }
  }

  /** Which ranking is used to compile from scratch makes no difference. */
  lemma {:induction false} ScratchUnique(c: Compiler, sources: map<Name, Text>, rank: Name -> nat,
                                         rank': Name -> nat, n: Name)
    requires Lawful(c) && RankedSources(c, sources, rank) && RankedSources(c, sources, rank')
    ensures Scratch(c, sources, rank, n) == Scratch(c, sources, rank', n)
    decreases rank(n)
  {
    hide Lawful, Assemble, SameExposed, ScratchView;
    if n in sources {
      var s := sources[n];
      var view, view' := ScratchView(c, sources, rank, rank(n)), ScratchView(c, sources, rank', rank'(n));
      forall i | i in c.imports(n, s) + c.annotations(n, s)
        ensures i in view <==> i in view'
        ensures i in view ==> SameExposed(c, i, view, view')
      {
        ScratchUnique(c, sources, rank, rank', i);
        InView(c, sources, rank, i, rank(n));
        InView(c, sources, rank', i, rank'(n));
        if i in view {
          ScratchDeps(c, sources, rank, i);
          ScratchDeps(c, sources, rank', i);
          forall d | d in c.exposes(view[i].m.iface)
            ensures d in view && d in view' && view[d] == view'[d]
          {
            ExposedInView(c, sources, rank, i, d, rank(n));
            ExposedInView(c, sources, rank', i, d, rank'(n));
            ScratchUnique(c, sources, rank, rank', d);
          }
          SameExposedIntro(c, i, view, view');
        }
      }
      if forall i :: i in c.imports(n, s) + c.annotations(n, s) ==> i in view {
        SameSight(c, n, s, view, view');
      }
    }
  }

  lemma SameExposedIntro(c: Compiler, i: Name, view: map<Name, Entry>, view': map<Name, Entry>)
    requires i in view && i in view' && view[i] == view'[i] && view[i].Ready?
    requires forall d :: d in c.exposes(view[i].m.iface) ==> d in view && d in view' && view[d] == view'[d]
    ensures SameExposed(c, i, view, view')
  {
  }

  lemma InView(c: Compiler, sources: map<Name, Text>, rank: Name -> nat, i: Name, lim: nat)
    requires Lawful(c) && rank(i) < lim
    ensures var view := ScratchView(c, sources, rank, lim);
            && (i in view <==> Scratch(c, sources, rank, i).Some?)
            && (i in view ==> view[i] == Ready(Scratch(c, sources, rank, i).value))
  {
    ScratchHasSource(c, sources, rank, i);
  }

  lemma ExposedInView(c: Compiler, sources: map<Name, Text>, rank: Name -> nat, i: Name, d: Name, lim: nat)
    requires Lawful(c) && rank(i) < lim && Scratch(c, sources, rank, i).Some?
    requires d in c.exposes(Scratch(c, sources, rank, i).value.iface)
    ensures rank(d) < rank(i)
    ensures var view := ScratchView(c, sources, rank, lim);
            d in view && Scratch(c, sources, rank, d).Some? && view[d] == Ready(Scratch(c, sources, rank, d).value)
  {
    ScratchDeps(c, sources, rank, i);
    var m := Scratch(c, sources, rank, i).value;
    var x :| (d, x) in m.header.deps;
    assert (d, x).0 in ScratchView(c, sources, rank, rank(i));
  }

  /** Recording a freshly compiled module. */
  lemma BuiltSound(c: Compiler, rank: Name -> nat, st: State, st1: State, st2: State, n: Name, m: Module, bound: nat)
    requires Lawful(c) && Good(c, rank, st, bound) && rank(n) < bound && n !in st.mem && n in st.sources
    requires !UpToDate(c, rank, st, n) && st1 == st.(mem := st.mem[n := Building])
    requires Went(c, rank, st1, st2, rank(n), rank(n))
    requires Assemble(c, n, st.sources[n], st2.mem) == Some(m) && Scratch(c, st.sources, rank, n) == Some(m)
    ensures var st3 := Record(st2, n, m);
            Went(c, rank, st, st3, bound, rank(n) + 1) && n in NewlyBuilt(st, st3)
            && n in st3.mem && st3.mem[n] == Ready(m)
  {
    hide Good, Scratch, Lawful, Assemble, UpToDate;
    BuiltGood(c, rank, st, st1, st2, n, m, bound);
    BuiltUpToDate(c, rank, st, st1);
    BuiltStep(c, rank, st, st1, st2, n, m);
    HealthyMem(c, rank, st, st1);
  }

  function Record(st: State, n: Name, m: Module): State {
    Finish(st.(disk := st.disk[n := Cached(m, true)], built := st.built + [n]), n, m)
  }

  lemma BuiltStep(c: Compiler, rank: Name -> nat, st: State, st1: State, st2: State, n: Name, m: Module)
    requires Lawful(c) && st1 == st.(mem := st.mem[n := Building]) && n !in st.mem
    requires !UpToDate(c, rank, st, n) && Step(c, rank, st1, st2, rank(n))
    requires forall b :: UpToDate(c, rank, st1, b) <==> UpToDate(c, rank, st, b)
    ensures Step(c, rank, st, Record(st2, n, m), rank(n) + 1) && n in NewlyBuilt(st, Record(st2, n, m))
  {
    hide UpToDate, Filed, CompiledExactly, Lawful;
    BuiltFiled(st, st1, st2, n, m);
    BuiltCompiled(c, rank, st, st1, st2, n, m);
  }

  lemma BuiltFiled(st: State, st1: State, st2: State, n: Name, m: Module)
    requires st1 == st.(mem := st.mem[n := Building]) && n !in st.mem && Filed(st1, st2)
    ensures Filed(st, Record(st2, n, m))
  {
  }

  lemma BuiltCompiled(c: Compiler, rank: Name -> nat, st: State, st1: State, st2: State, n: Name, m: Module)
    requires Lawful(c) && st1 == st.(mem := st.mem[n := Building]) && n !in st.mem
    requires !UpToDate(c, rank, st, n) && CompiledExactly(c, rank, st1, st2)
    requires forall b :: UpToDate(c, rank, st1, b) <==> UpToDate(c, rank, st, b)
    ensures CompiledExactly(c, rank, st, Record(st2, n, m)) && n in NewlyBuilt(st, Record(st2, n, m))
  {
    hide UpToDate, Lawful;
    assert NewlyBuilt(st, Record(st2, n, m)) == NewlyBuilt(st1, st2) + [n];
  }

  lemma BuiltGood(c: Compiler, rank: Name -> nat, st: State, st1: State, st2: State, n: Name, m: Module, bound: nat)
    requires Lawful(c) && Good(c, rank, st, bound) && rank(n) < bound && n !in st.mem && n in st.sources
    requires st1 == st.(mem := st.mem[n := Building]) && Went(c, rank, st1, st2, rank(n), rank(n))
    requires Assemble(c, n, st.sources[n], st2.mem) == Some(m) && Scratch(c, st.sources, rank, n) == Some(m)
    ensures Good(c, rank, Record(st2, n, m), bound)
  {
    hide Scratch, Lawful, Assemble, RankedSources, RankedDisk, DiskOk, UpToDate, Healthy, LoadOrder, Filed,
      CompiledExactly;
    BuiltDisk(c, rank, st2, n, m);
    BuiltLoaded(c, rank, st2, n, m);
    var filed := st2.(disk := st2.disk[n := Cached(m, true)], built := st2.built + [n]);
    SameOrder(st2, filed);
    FinishOrder(filed, n, m);
  }

  lemma BuiltUpToDate(c: Compiler, rank: Name -> nat, st: State, st1: State)
    requires Lawful(c) && st1.sources == st.sources && st1.disk == st.disk
    ensures forall b :: UpToDate(c, rank, st1, b) <==> UpToDate(c, rank, st, b)
  {
    hide Lawful, ScratchView;
  }

  /** What is compiled from scratch records only what is below it. */
  lemma RecordsBelow(c: Compiler, sources: map<Name, Text>, rank: Name -> nat, n: Name, m: Module)
    requires Lawful(c) && Scratch(c, sources, rank, n) == Some(m)
    ensures forall p :: p in m.header.deps ==> rank(p.0) < rank(n)
    ensures forall p :: p in m.header.ctDeps ==> rank(p.0) < rank(n)
    ensures Genuine(c, n, m)
  {
    hide Lawful, Scratch, Assemble, Genuine;
    ScratchDeps(c, sources, rank, n);
    assert forall d :: d in ScratchView(c, sources, rank, rank(n)) ==> rank(d) < rank(n);
  }

  lemma BuiltDisk(c: Compiler, rank: Name -> nat, st: State, n: Name, m: Module)
    requires Lawful(c) && Ranked(c, st, rank) && DiskOk(c, st.disk) && n in st.sources
    requires Scratch(c, st.sources, rank, n) == Some(m)
    ensures var st' := Record(st, n, m); DiskOk(c, st'.disk) && RankedDisk(st', rank)
  {
    hide Lawful, Scratch, Genuine, RankedSources;
    RecordsBelow(c, st.sources, rank, n, m);
  }

  lemma BuiltLoaded(c: Compiler, rank: Name -> nat, st: State, n: Name, m: Module)
    requires Lawful(c) && n in st.sources && Assemble(c, n, st.sources[n], st.mem) == Some(m)
    requires Scratch(c, st.sources, rank, n) == Some(m)
    ensures forall p :: p in m.header.deps ==> Loaded(st, p.0)
  {
    AssembleDeps(c, n, st.sources[n], st.mem);
    ScratchDeps(c, st.sources, rank, n);
    assert forall d :: d in ScratchView(c, st.sources, rank, rank(n)) ==>
                         ScratchView(c, st.sources, rank, rank(n))[d].Ready?;
  }
}
