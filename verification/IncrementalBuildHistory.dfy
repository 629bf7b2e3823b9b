/**
 * Whole histories of edits, losses of cache files and builds, and the one way in which a build can
 * answer with a stale module.
 */
module IncrementalBuildHistory {
  import opened IncrementalBuild
  import opened IncrementalBuildSoundness
  import opened IncrementalBuildExact

  datatype Event =
    | Edit(n: Name, text: Text)
    | Remove(n: Name)
    | LoseMetadata(n: Name)
    | LoseBuilderFile(n: Name)
    | Build(targets: seq<Name>)

  const Empty := State(map[], map[], map[], [], [], [])

  /** A new process starts with an empty module cache. */
  function StartRun(st: State): State {
    st.(mem := map[], built := [], loaded := [], passed := [])
  }

  function Apply(c: Compiler, depth: nat, st: State, ev: Event): State
    requires Lawful(c)
  {
    match ev
    case Edit(n, text) => st.(sources := st.sources[n := text])
    case Remove(n) => st.(sources := st.sources - {n})
    case LoseMetadata(n) => st.(disk := st.disk - {n})
    case LoseBuilderFile(n) =>
      if n in st.disk then st.(disk := st.disk[n := st.disk[n].(builder := false)]) else st
    case Build(targets) => LoadAll(c, depth, StartRun(st), targets).0
  }

  function Replay(c: Compiler, depth: nat, st: State, events: seq<Event>): State
    requires Lawful(c)
    decreases |events|
  {
    if events == [] then st else Replay(c, depth, Apply(c, depth, st, events[0]), events[1..])
  }

  lemma ApplyDisk(c: Compiler, depth: nat, st: State, ev: Event)
    requires Lawful(c) && DiskOk(c, st.disk)
    ensures DiskOk(c, Apply(c, depth, st, ev).disk)
  {
    hide Lawful, LoadAll, Genuine;
    if ev.Build? {
      LoadAllDisk(c, depth, StartRun(st), ev.targets);
    }
  }

  lemma {:induction false} ReplayDisk(c: Compiler, depth: nat, st: State, events: seq<Event>)
    requires Lawful(c) && DiskOk(c, st.disk)
    ensures DiskOk(c, Replay(c, depth, st, events).disk)
    decreases |events|
  {
    hide Lawful, DiskOk, Apply;
    if events != [] {
      ApplyDisk(c, depth, st, events[0]);
      ReplayDisk(c, depth, Apply(c, depth, st, events[0]), events[1..]);
    }
  }

  /** After any history at all, and if only the current imports are acyclic: a build that succeeds hands
      out finished modules, and each is the one compiled from scratch from current sources exactly when
      every recorded dependency has the recorded digest.  Nothing wrong was loaded, not even for a while,
      exactly when no dependency passed over ended up with another digest and no module was compiled
      against an unfinished one. */
  lemma BuildIsSound(c: Compiler, depth: nat, events: seq<Event>, rank: Name -> nat, targets: seq<Name>)
    requires Lawful(c) && RankedSources(c, Replay(c, depth, Empty, events).sources, rank)
    ensures var (st, v) := LoadAll(c, depth, StartRun(Replay(c, depth, Empty, events)), targets);
      v.Go? ==>
        && (forall t :: t in targets ==> t in st.mem) && AllReady(st)
        && (Sound(c, rank, st) <==> Consistent(st))
        && (AllSound(c, rank, st) <==> PassedRightly(st) && Closed(st))
        && (AllSound(c, rank, st) ==> Sound(c, rank, st))
  {
    hide Lawful, Replay, LoadAll, Scratch, DiskOk, Told, Sound, Consistent, AllSound, PassedRightly, Closed,
      RankedSources;
    var st := StartRun(Replay(c, depth, Empty, events));
    EmptyDisk(c);
    ReplayDisk(c, depth, Empty, events);
    NothingTold(c, st);
    LoadAllTold(c, depth, st, targets);
    var r := LoadAll(c, depth, st, targets);
    if r.1.Go? {
      SoundIffConsistent(c, rank, r.0);
      AllSoundIff(c, rank, r.0);
    }
  }

  lemma NothingTold(c: Compiler, st: State)
    requires Lawful(c) && DiskOk(c, st.disk) && st.mem == map[] && st.loaded == []
    ensures Told(c, st)
  {
  }

  /** A condition to check before the build: a build whose current imports are acyclic together with the
      recorded dependencies of the cache entries of unchanged sources hands out only modules equal to
      those compiled from scratch; it compiles exactly the modules that were not up to date, and leaves
      all of them up to date. */
  lemma AcyclicBuildIsSound(c: Compiler, depth: nat, events: seq<Event>, rank: Name -> nat, targets: seq<Name>,
                            lim: nat)
    requires Lawful(c) && forall t :: t in targets ==> rank(t) < lim
    requires Ranked(c, StartRun(Replay(c, depth, Empty, events)), rank)
    ensures var st := StartRun(Replay(c, depth, Empty, events));
            var (st', v) := LoadAll(c, depth, st, targets);
            && (v.Go? ==>
                  && (forall t :: t in targets ==> t in st'.mem)
                  && (forall d :: d in st'.mem ==> st'.mem[d].Ready?)
                  && (forall d :: d in st'.mem ==> Scratch(c, st.sources, rank, d) == Some(st'.mem[d].m))
                  && (forall d :: d in st'.built <==> d in st'.mem && !UpToDate(c, rank, st, d))
                  && (forall d :: d in st'.mem ==> UpToDate(c, rank, st', d)))
            && (Healthy(c, rank, st) && depth >= lim && (forall t :: t in targets ==> t in st.sources) ==> v.Go?)
  {
    hide Lawful, Replay, LoadAll, Scratch, UpToDate, Ranked, DiskOk, Healthy;
    var st := StartRun(Replay(c, depth, Empty, events));
    EmptyDisk(c);
    ReplayDisk(c, depth, Empty, events);
    FreshRunGood(c, rank, st, lim);
    LoadAllSound(c, depth, st, rank, targets, lim, lim);
    var r := LoadAll(c, depth, st, targets);
    if r.1.Go? {
      forall d | d in r.0.mem
        ensures UpToDate(c, rank, r.0, d)
      {
        LoadedUpToDate(c, rank, st, r.0, d, lim);
      }
      assert NewlyBuilt(st, r.0) == r.0.built;
    }
  }

  /** Every module a build hands out was loaded exactly once, and after everything it depends on; so
      going through the loaded modules backwards, as at exit, closes dependents first. */
  lemma LoadedInOrder(c: Compiler, depth: nat, events: seq<Event>, rank: Name -> nat, targets: seq<Name>, lim: nat)
    requires Lawful(c) && forall t :: t in targets ==> rank(t) < lim
    requires Ranked(c, StartRun(Replay(c, depth, Empty, events)), rank)
    ensures var (st, v) := LoadAll(c, depth, StartRun(Replay(c, depth, Empty, events)), targets);
      v.Go? ==>
        && (forall d :: d in st.mem ==> st.mem[d].Ready? && (d, st.mem[d].m) in st.loaded)
        && (forall e :: e in st.loaded ==> e.0 in st.mem && st.mem[e.0] == Ready(e.1))
        && (forall i, j :: 0 <= i < j < |st.loaded| ==> st.loaded[i].0 != st.loaded[j].0)
        && (forall j, p :: 0 <= j < |st.loaded| && p in st.loaded[j].1.header.deps ==> p.0 in Names(st.loaded[..j]))
  {
    hide Lawful, Replay, LoadAll, Scratch, UpToDate, Ranked, DiskOk, Healthy, LoadOrder, CompiledExactly, Filed;
    var st := StartRun(Replay(c, depth, Empty, events));
    EmptyDisk(c);
    ReplayDisk(c, depth, Empty, events);
    FreshRunGood(c, rank, st, lim);
    LoadAllSound(c, depth, st, rank, targets, lim, lim);
    var r := LoadAll(c, depth, st, targets);
    if r.1.Go? {
      OrderMeans(r.0);
    }
  }

  lemma OrderMeans(st: State)
    requires LoadOrder(st) && forall d :: d in st.mem ==> st.mem[d].Ready?
    ensures forall d :: d in st.mem ==> st.mem[d].Ready? && (d, st.mem[d].m) in st.loaded
    ensures forall e :: e in st.loaded ==> e.0 in st.mem && st.mem[e.0] == Ready(e.1)
    ensures forall i, j :: 0 <= i < j < |st.loaded| ==> st.loaded[i].0 != st.loaded[j].0
    ensures forall j, p :: 0 <= j < |st.loaded| && p in st.loaded[j].1.header.deps ==> p.0 in Names(st.loaded[..j])
  {
    assert forall d :: d in st.mem ==> Loaded(st, d);
  }

  lemma EmptyDisk(c: Compiler)
    requires Lawful(c)
    ensures DiskOk(c, Empty.disk)
  {
  }

  lemma FreshRunGood(c: Compiler, rank: Name -> nat, st: State, bound: nat)
    requires Lawful(c) && Ranked(c, st, rank) && DiskOk(c, st.disk) && st.mem == map[] && st.loaded == []
    ensures Good(c, rank, st, bound)
  {
  }

  lemma LoadedUpToDate(c: Compiler, rank: Name -> nat, st: State, st': State, d: Name, lim: nat)
    requires Lawful(c) && st.mem == map[] && Went(c, rank, st, st', lim, lim) && d in st'.mem
    ensures UpToDate(c, rank, st', d)
  {
    hide Lawful, CompiledExactly, Healthy, Assemble;
    assert Scratch(c, st'.sources, rank, d) == Some(st'.mem[d].m);
    ScratchHasSource(c, st'.sources, rank, d);
    ScratchDeps(c, st'.sources, rank, d);
    ScratchSource(c, st'.sources, rank, d);
  }

  lemma ScratchSource(c: Compiler, sources: map<Name, Text>, rank: Name -> nat, n: Name)
    requires Lawful(c) && Scratch(c, sources, rank, n).Some? && n in sources
    ensures Scratch(c, sources, rank, n).value.header.source == sources[n]
  {
    AssembleDeps(c, n, sources[n], ScratchView(c, sources, rank, rank(n)));
  }

  /** Building again with nothing edited compiles nothing that the first build had loaded. */
  lemma RebuildIsIdle(c: Compiler, depth: nat, events: seq<Event>, rank: Name -> nat, targets: seq<Name>,
                      targets': seq<Name>, lim: nat)
    requires Lawful(c) && forall t :: t in targets + targets' ==> rank(t) < lim
    requires Ranked(c, StartRun(Replay(c, depth, Empty, events)), rank)
    ensures var (st1, v1) := LoadAll(c, depth, StartRun(Replay(c, depth, Empty, events)), targets);
            var (st2, v2) := LoadAll(c, depth, StartRun(st1), targets');
            v1.Go? && v2.Go? ==> forall d :: d in st1.mem ==> d !in st2.built
  {
    hide Lawful, Replay, LoadAll, Scratch, UpToDate, Ranked, DiskOk, Healthy;
    AcyclicBuildIsSound(c, depth, events, rank, targets, lim);
    var st := StartRun(Replay(c, depth, Empty, events));
    EmptyDisk(c);
    ReplayDisk(c, depth, Empty, events);
    FreshRunGood(c, rank, st, lim);
    LoadAllSound(c, depth, st, rank, targets, lim, lim);
    var (st1, v1) := LoadAll(c, depth, st, targets);
    if v1.Go? {
      StartRunKeeps(c, rank, st1, lim);
      LoadAllSound(c, depth, StartRun(st1), rank, targets', lim, lim);
      var (st2, v2) := LoadAll(c, depth, StartRun(st1), targets');
      assert NewlyBuilt(StartRun(st1), st2) == st2.built;
    }
  }

  lemma StartRunKeeps(c: Compiler, rank: Name -> nat, st: State, bound: nat)
    requires Lawful(c) && Good(c, rank, st, bound)
    ensures Good(c, rank, StartRun(st), bound)
    ensures forall d :: UpToDate(c, rank, StartRun(st), d) <==> UpToDate(c, rank, st, d)
  {
    hide Lawful, Scratch, ScratchView, DiskOk;
  }

  // ----- Where the ranking is needed -----

  const A := Name(1)
  const B := Name(2)
  const C := Name(3)
  const X := Name(4)

  const NoText := Text(0)
  const TextA := Text(1)
  const TextB1 := Text(2)
  const TextB2 := Text(3)
  const TextC1 := Text(4)
  const TextC2 := Text(5)
  const TextX := Text(6)

  /** Four modules.  `a` imports C; `x` imports B, and depends on A too while B mentions A; B at
      first mentions A and later does not; C at first stands alone and later imports X. */
  const Sample := Compiler(
    (n: Name, s: Text) =>
      if s == TextA then [C] else if s == TextX then [B] else if s == TextB1 then [A]
      else if s == TextC2 then [X] else [],
    (n: Name, s: Text) => [],
    (iface: Text) => if iface == TextB1 then [A] else [],
    (n: Name, s: Text, metas: map<Name, MetaDigest>, headers: map<Name, HeaderDigest>) =>
      if s == TextA then UsesOne(C, TextA, metas)
      else if s == TextB1 then UsesOne(A, TextB1, metas)
      else if s == TextC2 then UsesOne(X, TextC2, metas)
      else if s == TextX then
        if B in metas && metas[B] == Of(TextB1) then
          if A in metas then Some(Output([A, B], [], TextX, NoText)) else None
        else UsesOne(B, TextX, metas)
      else Some(Output([], [], s, NoText)))

  function UsesOne(d: Name, iface: Text, metas: map<Name, MetaDigest>): Option<Output> {
    if d !in metas then None
    else Some(Output([d], [], iface, if metas[d].Of? then metas[d].iface else NoText))
  }

  lemma SampleStable(n: Name, s: Text, metas: map<Name, MetaDigest>, headers: map<Name, HeaderDigest>,
                     metas': map<Name, MetaDigest>, headers': map<Name, HeaderDigest>)
    requires Sample.compile(n, s, metas, headers).Some?
    requires Agree(Sample.compile(n, s, metas, headers).value.deps, metas, metas')
    ensures Sample.compile(n, s, metas', headers') == Sample.compile(n, s, metas, headers)
  {
    var deps := Sample.compile(n, s, metas, headers).value.deps;
    if s == TextX && B in metas && metas[B] == Of(TextB1) {
      assert A in deps && B in deps;
    } else if s in {TextA, TextB1, TextC2, TextX} {
      assert deps[0] in deps;
    }
  }

  lemma SampleLawful()
    ensures Lawful(Sample)
  {
    forall n, s, metas, headers, metas', headers' |
      && Sample.compile(n, s, metas, headers).Some?
      && var o := Sample.compile(n, s, metas, headers).value;
         Agree(o.deps, metas, metas') && Agree(o.ctDeps, headers, headers')
      ensures Sample.compile(n, s, metas', headers') == Sample.compile(n, s, metas, headers)
    {
      SampleStable(n, s, metas, headers, metas', headers');
    }
  }

  lemma SampleImports(n: Name)
    ensures Sample.imports(n, TextA) == [C] && Sample.imports(n, TextB1) == [A] && Sample.imports(n, TextX) == [B]
    ensures Sample.imports(n, TextC2) == [X] && Sample.imports(n, TextC1) == [] && Sample.imports(n, TextB2) == []
    ensures forall s :: Sample.annotations(n, s) == []
  {
  }

  const C1 := Module(Header(TextC1, [], []), TextC1, NoText)
  const A1 := Module(Header(TextA, [(C, Of(TextC1))], []), TextA, TextC1)
  const B1 := Module(Header(TextB1, [(A, Of(TextA))], []), TextB1, TextA)
  const X1 := Module(Header(TextX, [(A, Of(TextA)), (B, Of(TextB1))], []), TextX, NoText)
  const B2 := Module(Header(TextB2, [], []), TextB2, NoText)
  const X2 := Module(Header(TextX, [(B, Of(TextB2))], []), TextX, TextB2)
  const C2 := Module(Header(TextC2, [(X, Of(TextX))], []), TextC2, TextX)
  const A2 := Module(Header(TextA, [(C, Of(TextC2))], []), TextA, TextC2)

  /** The sources that depend on the one module they import, given its interface. */
  predicate OneImport(s: Text, d: Name, used: Text) {
    || (s == TextA && d == C) || (s == TextB1 && d == A) || (s == TextC2 && d == X) ||
      (s == TextX && d == B && used != TextB1)
  }

  // How each of the four is assembled from what is in view.

  lemma AssembleOne(n: Name, s: Text, d: Name, iface: Text, used: Text, view: map<Name, Entry>)
    requires Lawful(Sample) && d in view && Meta(view[d]) == Of(used)
    requires OneImport(s, d, used) && iface == s
    ensures Assemble(Sample, n, s, view) == Some(Module(Header(s, [(d, Of(used))], []), iface, used))
  {
    hide Lawful;
    var metas := Metas(Sample, Sample.imports(n, s), view);
    assert Sample.imports(n, s) == [d];
    assert d in metas && metas[d] == Of(used);
    assert Pairs([d], metas) == [(d, Of(used))];
    assert Pairs<HeaderDigest>([], Headers([], view)) == [];
  }

  lemma AssembleA1(view: map<Name, Entry>)
    requires Lawful(Sample) && C in view && Meta(view[C]) == Of(TextC1)
    ensures Assemble(Sample, A, TextA, view) == Some(A1)
  {
    hide Lawful, Assemble, Sample;
    AssembleOne(A, TextA, C, TextA, TextC1, view);
  }

  lemma AssembleX2(view: map<Name, Entry>)
    requires Lawful(Sample) && B in view && Meta(view[B]) == Of(TextB2)
    ensures Assemble(Sample, X, TextX, view) == Some(X2)
  {
    hide Lawful, Assemble, Sample;
    AssembleOne(X, TextX, B, TextX, TextB2, view);
  }

  lemma AssembleC2(view: map<Name, Entry>)
    requires Lawful(Sample) && X in view && Meta(view[X]) == Of(TextX)
    ensures Assemble(Sample, C, TextC2, view) == Some(C2)
  {
    hide Lawful, Assemble, Sample;
    AssembleOne(C, TextC2, X, TextC2, TextX, view);
  }

  lemma AssembleLeaf(n: Name, s: Text, view: map<Name, Entry>)
    requires Lawful(Sample) && s in {TextC1, TextB2}
    ensures Assemble(Sample, n, s, view) == Some(Module(Header(s, [], []), s, NoText))
  {
    hide Lawful;
    var metas := Metas(Sample, Sample.imports(n, s), view);
    assert Pairs<MetaDigest>([], metas) == [];
    assert Pairs<HeaderDigest>([], Headers([], view)) == [];
  }

  lemma AssembleX1(view: map<Name, Entry>)
    requires Lawful(Sample) && A in view && view[A] == Ready(A1) && B in view && view[B] == Ready(B1)
    ensures Assemble(Sample, X, TextX, view) == Some(X1)
  {
    hide Lawful;
    var metas := Metas(Sample, [B], view);
    assert B in [B] && A in Sample.exposes(TextB1);
    assert Visible(Sample, [B], view, A);
    assert metas[A] == Of(TextA) && metas[B] == Of(TextB1);
    assert Pairs([A, B], metas) == [(A, Of(TextA)), (B, Of(TextB1))];
    assert Pairs<HeaderDigest>([], Headers([], view)) == [];
  }

  // One unfolding of the build for a module that must be compiled.

  function Begin(st: State, n: Name): State {
    st.(mem := st.mem[n := Building])
  }

  /** Neither loaded nor cached. */
  predicate Unknown(st: State, n: Name) {
    n !in st.mem && n !in st.disk
  }

  lemma Begun(st: State, n: Name)
    ensures var b := Begin(st, n);
      && b.sources == st.sources && b.disk == st.disk && n in b.mem && b.mem[n] == Building
      && forall d :: d != n ==> (Unknown(b, d) <==> Unknown(st, d)) && (d in b.mem <==> d in st.mem)
  {
  }

  lemma Compiles(depth: nat, st: State, n: Name, s: Text, names: seq<Name>, st1: State, st2: State, m: Module)
    requires Lawful(Sample) && n !in st.mem && n in st.sources && st.sources[n] == s && depth > 0
    requires Sample.imports(n, s) == names && st1.sources == st.sources
    requires Deserialize(Sample, depth - 1, st, n) == (st1, Go(true))
    requires LoadAll(Sample, depth - 1, Begin(st1, n), names) == (st2, Go(false))
    requires Assemble(Sample, n, s, st2.mem) == Some(m)
    ensures GetModule(Sample, depth, st, n) == (Record(st2, n, m), Fetched(Ready(m)))
  {
    hide Lawful, LoadAll, Deserialize, Assemble;
    assert names + Sample.annotations(n, s) == names;
  }

  lemma LoadsOne(depth: nat, st: State, n: Name, st': State, e: Entry)
    requires Lawful(Sample) && GetModule(Sample, depth, st, n) == (st', Fetched(e))
    ensures LoadAll(Sample, depth, st, [n]) == (st', Go(false))
  {
    hide Lawful, GetModule;
    assert [n][1..] == [];
  }

  lemma CompilesOver(depth: nat, st: State, n: Name, s: Text, d: Name, st1: State, st2: State, e: Entry, m: Module)
    requires Lawful(Sample) && n !in st.mem && n in st.sources && st.sources[n] == s && depth > 0
    requires Sample.imports(n, s) == [d] && st1.sources == st.sources
    requires Deserialize(Sample, depth - 1, st, n) == (st1, Go(true))
    requires GetModule(Sample, depth - 1, Begin(st1, n), d) == (st2, Fetched(e))
    requires Assemble(Sample, n, s, st2.mem) == Some(m)
    ensures GetModule(Sample, depth, st, n) == (Record(st2, n, m), Fetched(Ready(m)))
  {
    hide *;
    LoadsOne(depth - 1, Begin(st1, n), d, st2, e);
    Compiles(depth, st, n, s, [d], st1, st2, m);
  }

  lemma NoMetadata(depth: nat, st: State, n: Name)
    requires Lawful(Sample) && n !in st.disk
    ensures Deserialize(Sample, depth, st, n) == (st, Go(true))
  {
  }

  lemma {:induction false} AlreadyStale(depth: nat, st: State, deps: seq<(Name, MetaDigest)>)
    requires Lawful(Sample)
    ensures CheckDeps(Sample, depth, st, deps, true) == (st, Go(true))
    decreases |deps|
  {
    hide GetModule, Lawful;
    if deps != [] {
      AlreadyStale(depth, st, deps[1..]);
    }
  }

  lemma SourceChanged(depth: nat, st: State, n: Name)
    requires Lawful(Sample) && n in st.disk && n in st.sources && st.disk[n].m.header.source != st.sources[n]
    requires st.disk[n].m.header.ctDeps == []
    ensures Deserialize(Sample, depth, st, n) == (st, Go(true))
  {
    hide GetModule, Lawful, CheckDeps;
    AlreadyStale(depth, st, st.disk[n].m.header.deps);
  }

  lemma LoadsNone(depth: nat, st: State)
    requires Lawful(Sample)
    ensures LoadAll(Sample, depth, st, []) == (st, Go(false))
  {
  }

  // ----- The first build: everything is compiled, dependencies first -----

  lemma Builds(depth: nat, st: State, n: Name, s: Text, names: seq<Name>, loaded: State, m: Module)
    requires Lawful(Sample) && depth > 0 && Unknown(st, n) && n in st.sources && st.sources[n] == s
    requires Sample.imports(n, s) == names && LoadAll(Sample, depth - 1, Begin(st, n), names) == (loaded, Go(false))
    requires Assemble(Sample, n, s, loaded.mem) == Some(m)
    ensures LoadAll(Sample, depth, st, [n]) == (Record(loaded, n, m), Go(false))
  {
    hide Lawful, GetModule, Deserialize, LoadAll, Assemble, Sample, Record, Begin;
    NoMetadata(depth - 1, st, n);
    Compiles(depth, st, n, s, names, st, loaded, m);
    LoadsOne(depth, st, n, Record(loaded, n, m), Ready(m));
  }

  function AfterC(st: State): State { Record(Begin(st, C), C, C1) }
  function AfterA(st: State): State { Record(AfterC(Begin(st, A)), A, A1) }
  function AfterB(st: State): State { Record(AfterA(Begin(st, B)), B, B1) }
  function AfterX(st: State): State { Record(AfterB(Begin(st, X)), X, X1) }

  const Sources1: map<Name, Text> := map[][A := TextA][B := TextB1][C := TextC1][X := TextX]

  lemma BuildsC(depth: nat, st: State)
    requires Lawful(Sample) && depth >= 1 && st.sources == Sources1 && Unknown(st, C)
    ensures LoadAll(Sample, depth, st, [C]) == (AfterC(st), Go(false))
  {
    hide Lawful, GetModule, Deserialize, LoadAll, Assemble, Sample;
    SampleImports(C);
    LoadsNone(depth - 1, Begin(st, C));
    AssembleLeaf(C, TextC1, Begin(st, C).mem);
    Builds(depth, st, C, TextC1, [], Begin(st, C), C1);
  }

  lemma CLoaded(st: State)
    ensures var m := AfterC(st).mem; C in m && m[C] == Ready(C1)
  {
  }

  lemma ALoaded(st: State)
    ensures var m := AfterA(st).mem; A in m && m[A] == Ready(A1)
  {
  }

  lemma BLoaded(st: State)
    ensures var m := AfterB(st).mem; A in m && m[A] == Ready(A1) && B in m && m[B] == Ready(B1)
  {
  }

  lemma BuildsA(depth: nat, st: State)
    requires Lawful(Sample) && depth >= 2 && st.sources == Sources1 && Unknown(st, A) && Unknown(st, C)
    ensures LoadAll(Sample, depth, st, [A]) == (AfterA(st), Go(false))
  {
    hide Lawful, GetModule, Deserialize, LoadAll, Assemble, Sample, AfterC, Record, Begin;
    Begun(st, A);
    SampleImports(A);
    CLoaded(Begin(st, A));
    var begun, loaded := Begin(st, A), AfterC(Begin(st, A));
    BuildsC(depth - 1, begun);
    AssembleA1(loaded.mem);
    Builds(depth, st, A, TextA, [C], loaded, A1);
  }

  lemma BuildsB(depth: nat, st: State)
    requires Lawful(Sample) && depth >= 3 && st.sources == Sources1 && Unknown(st, A) && Unknown(st, B) &&
      Unknown(st, C)
    ensures LoadAll(Sample, depth, st, [B]) == (AfterB(st), Go(false))
  {
    hide Lawful, GetModule, Deserialize, LoadAll, Assemble, Sample, AfterC, AfterA, Record, Begin;
    Begun(st, B);
    SampleImports(B);
    ALoaded(Begin(st, B));
    var begun, loaded := Begin(st, B), AfterA(Begin(st, B));
    BuildsA(depth - 1, begun);
    AssembleOne(B, TextB1, A, TextB1, TextA, loaded.mem);
    Builds(depth, st, B, TextB1, [A], loaded, B1);
  }

  lemma BuildsX(depth: nat, st: State)
    requires Lawful(Sample) && depth >= 4 && st.sources == Sources1
    requires Unknown(st, A) && Unknown(st, B) && Unknown(st, C) && Unknown(st, X)
    ensures LoadAll(Sample, depth, st, [X]) == (AfterX(st), Go(false))
  {
    hide Lawful, GetModule, Deserialize, LoadAll, Assemble, Sample, AfterC, AfterA, AfterB, Record, Begin;
    Begun(st, X);
    SampleImports(X);
    BLoaded(Begin(st, X));
    var begun, loaded := Begin(st, X), AfterB(Begin(st, X));
    BuildsB(depth - 1, begun);
    AssembleX1(loaded.mem);
    Builds(depth, st, X, TextX, [B], loaded, X1);
  }

  // ----- The second build, after B stopped mentioning A and C started importing X -----

  const Sources2 := Sources1[B := TextB2][C := TextC2]

  const Disk1: map<Name, Cached> :=
    map[][C := Cached(C1, true)][A := Cached(A1, true)][B := Cached(B1, true)][X := Cached(X1, true)]

  predicate Second(st: State) {
    st.sources == Sources2 && st.disk == Disk1
  }

  lemma SecondFacts(st: State)
    requires Second(st)
    ensures var s, d := st.sources, st.disk;
      && A in s && s[A] == TextA && B in s && s[B] == TextB2 && C in s && s[C] == TextC2 && X in s && s[X] == TextX
      && A in d && d[A] == Cached(A1, true) && B in d && d[B] == Cached(B1, true)
      && C in d && d[C] == Cached(C1, true) && X in d && d[X] == Cached(X1, true)
  {
  }

  /** While C is unfinished, the check of A's only dependency is passed over and A is reused. */
  lemma ReusesA(depth: nat, st: State)
    requires Lawful(Sample) && depth >= 1 && Second(st)
    requires A !in st.mem && C in st.mem && st.mem[C] == Building
    ensures GetModule(Sample, depth, st, A) == (WithA(st), Fetched(Ready(A1)))
  {
    hide Lawful, CheckDeps, Second;
    SecondFacts(st);
    PassedOver(depth - 1, st, C, Of(TextC1));
    assert Deserialize(Sample, depth - 1, st, A) == (PassC(st), Go(false));
  }

  lemma PassedOver(depth: nat, st: State, d: Name, digest: MetaDigest)
    requires Lawful(Sample) && d in st.mem && st.mem[d] == Building
    ensures CheckDeps(Sample, depth, st, [(d, digest)], false) == (st.(passed := st.passed + [(d, digest)]), Go(false))
  {
    hide Lawful;
    var deps := [(d, digest)];
    assert deps[1..] == [];
    assert GetModule(Sample, depth, st, deps[0].0) == (st, Fetched(Building));
    var st' := st.(passed := st.passed + [deps[0]]);
    assert CheckDeps(Sample, depth, st', [], false) == (st', Go(false));
  }

  lemma RebuildsB(depth: nat, st: State)
    requires Lawful(Sample) && depth >= 1 && B in st.sources && st.sources[B] == TextB2 && B !in st.mem
    requires B in st.disk && st.disk[B] == Cached(B1, true)
    ensures GetModule(Sample, depth, st, B) == (Record(Begin(st, B), B, B2), Fetched(Ready(B2)))
  {
    hide Lawful, GetModule, Deserialize, LoadAll, Assemble, Sample;
    SampleImports(B);
    SourceChanged(depth - 1, st, B);
    LoadsNone(depth - 1, Begin(st, B));
    AssembleLeaf(B, TextB2, Begin(st, B).mem);
    Compiles(depth, st, B, TextB2, [], st, Begin(st, B), B2);
  }

  function WithA(st: State): State { Finish(PassC(st), A, A1) }
  function PassC(st: State): State { st.(passed := st.passed + [(C, Of(TextC1))]) }
  function WithB(st: State): State { Record(Begin(WithA(st), B), B, B2) }
  function WithX(st: State): State { Record(Begin(WithB(st), X), X, X2) }

  lemma StillSecond(st: State, n: Name)
    requires Second(st)
    ensures Second(Begin(st, n))
  {
  }

  lemma SourcesKept(st: State)
    ensures WithB(st).sources == st.sources && (X !in st.mem ==> X !in WithB(st).mem)
  {
  }

  lemma BReplaced(st: State)
    ensures var m := Begin(WithB(st), X).mem; B in m && m[B] == Ready(B2) && Meta(m[B]) == Of(TextB2)
  {
  }

  lemma XRecorded(st: State)
    ensures WithX(st) == Record(Begin(WithB(st), X), X, X2)
  {
  }

  lemma XReplaced(st: State)
    ensures var m := WithX(st).mem; X in m && m[X] == Ready(X2) && Meta(m[X]) == Of(TextX)
  {
  }

  lemma COutdated()
    ensures C1.header.source != TextC2 && C1.header.ctDeps == []
  {
  }

  lemma CRecorded(st: State)
    ensures WithC(st) == Record(WithX(Begin(st, C)), C, C2)
  {
  }

  lemma CompilesX(depth: nat, st: State, st1: State)
    requires Lawful(Sample) && depth >= 1 && X !in st.mem && X in st.sources && st.sources[X] == TextX
    requires st1.sources == st.sources && Deserialize(Sample, depth - 1, st, X) == (st1, Go(true))
    requires var m := Begin(st1, X).mem; B in m && m[B] == Ready(B2) && Meta(m[B]) == Of(TextB2)
    ensures GetModule(Sample, depth, st, X) == (Record(Begin(st1, X), X, X2), Fetched(Ready(X2)))
  {
    hide *;
    SampleImports(X);
    BAlreadyLoaded(depth - 1, Begin(st1, X));
    AssembleX2(Begin(st1, X).mem);
    CompilesOver(depth, st, X, TextX, B, st1, Begin(st1, X), Ready(B2), X2);
  }

  /** Loading X takes A, which X no longer needs, before it notices that B has changed. */
  lemma RebuildsX(depth: nat, st: State)
    requires Lawful(Sample) && depth >= 2 && Second(st)
    requires A !in st.mem && B !in st.mem && X !in st.mem && C in st.mem && st.mem[C] == Building
    ensures GetModule(Sample, depth, st, X) == (WithX(st), Fetched(Ready(X2)))
  {
    hide *;
    SecondFacts(st);
    SourcesKept(st);
    NoticesB(depth - 1, st);
    BReplaced(st);
    XRecorded(st);
    CompilesX(depth, st, WithB(st));
  }

  lemma NoticesB(depth: nat, st: State)
    requires Lawful(Sample) && depth >= 1 && Second(st)
    requires A !in st.mem && B !in st.mem && X !in st.mem && C in st.mem && st.mem[C] == Building
    ensures Deserialize(Sample, depth, st, X) == (WithB(st), Go(true))
  {
    hide Lawful, GetModule, CheckDeps, Second;
    SecondFacts(st);
    ReusesA(depth, st);
    RebuildsB(depth, WithA(st));
    DepsOfX(depth, st);
  }

  lemma BAlreadyLoaded(depth: nat, st: State)
    requires Lawful(Sample) && B in st.mem && st.mem[B] == Ready(B2)
    ensures GetModule(Sample, depth, st, B) == (st, Fetched(Ready(B2)))
  {
  }

  lemma DepsOfX(depth: nat, st: State)
    requires Lawful(Sample)
    requires GetModule(Sample, depth, st, A) == (WithA(st), Fetched(Ready(A1)))
    requires GetModule(Sample, depth, WithA(st), B) == (WithB(st), Fetched(Ready(B2)))
    ensures CheckDeps(Sample, depth, st, X1.header.deps, false) == (WithB(st), Go(true))
  {
    hide Lawful, GetModule;
    var rest := X1.header.deps[1..];
    assert rest == [(B, Of(TextB1))] && rest[1..] == [];
    assert CheckDeps(Sample, depth, WithA(st), rest, false) == (WithB(st), Go(true));
  }

  function WithC(st: State): State { Record(WithX(Begin(st, C)), C, C2) }

  lemma RebuildsC(depth: nat, st: State)
    requires Lawful(Sample) && depth >= 3 && Second(st) && st.mem == map[]
    ensures GetModule(Sample, depth, st, C) == (WithC(st), Fetched(Ready(C2)))
  {
    hide *;
    SecondFacts(st);
    StillSecond(st, C);
    COutdated();
    CRecorded(st);
    SampleImports(C);
    Begun(st, C);
    SourceChanged(depth - 1, st, C);
    XReplaced(Begin(st, C));
    var begun, loaded := Begin(st, C), WithX(Begin(st, C));
    RebuildsX(depth - 1, begun);
    AssembleC2(loaded.mem);
    CompilesOver(depth, st, C, TextC2, X, st, loaded, Ready(X2), C2);
  }

  const SampleHistory: seq<Event> :=
    [Edit(A, TextA)] + ([Edit(B, TextB1)] + ([Edit(C, TextC1)] + ([Edit(X, TextX)] + ([Build([X])] + Later))))

  /** A above C above X above B: the current imports are acyclic. */
  function SampleRank(n: Name): nat {
    if n == A then 3 else if n == C then 2 else if n == X then 1 else 0
  }

  lemma ReplayStep(depth: nat, st: State, ev: Event, others: seq<Event>)
    requires Lawful(Sample)
    ensures Replay(Sample, depth, st, [ev] + others) == Replay(Sample, depth, Apply(Sample, depth, st, ev), others)
  {
    hide Lawful, Apply;
    assert ([ev] + others)[1..] == others;
  }

  const Later: seq<Event> := [Edit(B, TextB2)] + [Edit(C, TextC2)]

  lemma AfterEdits(depth: nat, others: seq<Event>)
    requires Lawful(Sample)
    ensures Replay(Sample, depth, Empty,
                   [Edit(A, TextA)] + ([Edit(B, TextB1)] + ([Edit(C, TextC1)] + ([Edit(X, TextX)] + others))))
            == Replay(Sample, depth, Empty.(sources := Sources1), others)
  {
    hide Lawful, LoadAll, Replay, Sample;
    var h3 := [Edit(X, TextX)] + others;
    var h2 := [Edit(C, TextC1)] + h3;
    var h1 := [Edit(B, TextB1)] + h2;
    var s1 := Empty.(sources := map[][A := TextA]);
    var s2 := s1.(sources := s1.sources[B := TextB1]);
    var s3 := s2.(sources := s2.sources[C := TextC1]);
    ReplayStep(depth, Empty, Edit(A, TextA), h1);
    ReplayStep(depth, s1, Edit(B, TextB1), h2);
    ReplayStep(depth, s2, Edit(C, TextC1), h3);
    ReplayStep(depth, s3, Edit(X, TextX), others);
  }

  lemma AfterBuild(depth: nat)
    requires Lawful(Sample) && depth >= 4
    ensures Replay(Sample, depth, Empty.(sources := Sources1), [Build([X])] + Later)
            == Replay(Sample, depth, AfterX(Empty.(sources := Sources1)), Later)
  {
    hide Lawful, LoadAll, Replay, Sample, Later, AfterX;
    var edited := Empty.(sources := Sources1);
    assert StartRun(edited) == edited;
    ReplayStep(depth, edited, Build([X]), Later);
    BuildsX(depth, edited);
  }

  /** The history leads to the sources and the cache the second build starts from. */
  lemma AfterHistory(depth: nat)
    requires Lawful(Sample) && depth >= 4
    ensures StartRun(Replay(Sample, depth, Empty, SampleHistory)) == State(Sources2, map[], Disk1, [], [], [])
  {
    hide Lawful, LoadAll, Replay, Sample;
    AfterEdits(depth, [Build([X])] + Later);
    AfterBuild(depth);
    var built := AfterX(Empty.(sources := Sources1));
    ReplayStep(depth, built, Edit(B, TextB2), [Edit(C, TextC2)]);
    ReplayLast(depth, built.(sources := built.sources[B := TextB2]), Edit(C, TextC2));
  }

  lemma ReplayLast(depth: nat, st: State, ev: Event)
    requires Lawful(Sample)
    ensures Replay(Sample, depth, st, [ev]) == Apply(Sample, depth, st, ev)
  {
    hide Lawful, Apply;
    assert [ev][1..] == [];
  }

  lemma KeepsStaleA(st: State)
    ensures var m := WithC(st).mem; A in m && m[A] == Ready(A1)
  {
  }

  lemma SecondBuild(depth: nat, st: State)
    requires Lawful(Sample) && depth >= 4 && st == State(Sources2, map[], Disk1, [], [], [])
    ensures LoadAll(Sample, depth, st, [C, A]) == (WithC(st), Go(false))
  {
    hide Lawful, GetModule, WithC;
    RebuildsC(depth, st);
    KeepsStaleA(st);
    var names := [C, A];
    assert names[1..] == [A];
    StillStale(depth, WithC(st));
    LoadsOne(depth, WithC(st), A, WithC(st), Ready(A1));
  }

  lemma StillStale(depth: nat, st: State)
    requires Lawful(Sample) && A in st.mem && st.mem[A] == Ready(A1)
    ensures GetModule(Sample, depth, st, A) == (st, Fetched(Ready(A1)))
  {
  }

  lemma ScratchOne(n: Name, s: Text, d: Name, iface: Text, m: Module)
    requires Lawful(Sample) && n in Sources2 && Sources2[n] == s && SampleRank(d) < SampleRank(n)
    requires Scratch(Sample, Sources2, SampleRank, d) == Some(m)
    requires OneImport(s, d, m.iface) && iface == s
    ensures Scratch(Sample, Sources2, SampleRank, n) == Some(Module(Header(s, [(d, Of(m.iface))], []), iface, m.iface))
  {
    hide Lawful, Assemble, ScratchView, Sample;
    SampleImports(n);
    var view := ScratchView(Sample, Sources2, SampleRank, SampleRank(n));
    InView(Sample, Sources2, SampleRank, d, SampleRank(n));
    AssembleOne(n, s, d, iface, m.iface, view);
  }

  lemma ScratchOfX()
    requires Lawful(Sample)
    ensures Scratch(Sample, Sources2, SampleRank, X) == Some(X2)
  {
    hide Lawful, Assemble, ScratchView;
    AssembleLeaf(B, TextB2, ScratchView(Sample, Sources2, SampleRank, 0));
    assert Sample.imports(B, TextB2) + Sample.annotations(B, TextB2) == [];
    ScratchOne(X, TextX, B, TextX, B2);
  }

  lemma ScratchOfA()
    requires Lawful(Sample)
    ensures RankedSources(Sample, Sources2, SampleRank)
    ensures Scratch(Sample, Sources2, SampleRank, A) == Some(A2)
  {
    hide Lawful, Assemble, ScratchView;
    ScratchOfX();
    ScratchOne(C, TextC2, X, TextC2, X2);
    ScratchOne(A, TextA, C, TextA, C2);
  }

  /** The recorded dependency of X on A closes a cycle with the current imports, and the build hands
      out an A compiled against an interface C no longer has. */
  lemma StaleModule(depth: nat)
    requires depth >= 4
    ensures Lawful(Sample)
    ensures var st := StartRun(Replay(Sample, depth, Empty, SampleHistory));
            var (st', v) := LoadAll(Sample, depth, st, [C, A]);
            && RankedSources(Sample, st.sources, SampleRank)
            && v == Go(false)
            && A in st'.mem && st'.mem[A] == Ready(A1)
            && Scratch(Sample, st.sources, SampleRank, A) == Some(A2) && A1 != A2
  {
    hide Lawful, Replay, LoadAll, Scratch, Sample, WithC, StartRun, SampleHistory, Assemble;
    SampleLawful();
    AfterHistory(depth);
    var st := StartRun(Replay(Sample, depth, Empty, SampleHistory));
    SecondBuild(depth, st);
    KeepsStaleA(st);
    ScratchOfA();
  }
}
