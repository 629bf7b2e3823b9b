/**
 * What a build hands out when nothing is known of the recorded dependencies, and exactly when that is
 * what compiling from scratch gives.  Only the current imports have to be acyclic.
 */
module IncrementalBuildExact {
  import opened IncrementalBuild
  import opened IncrementalBuildSoundness

  // ----- What every run that goes on keeps -----

  /** What the module cache held it still holds, and what is new is finished. */
  ghost predicate Kept(st: State, st': State) {
    && st'.sources == st.sources && st.loaded <= st'.loaded && st.passed <= st'.passed
    && (forall d :: d in st.mem ==> d in st'.mem && st'.mem[d] == st.mem[d])
    && (forall d :: d in st'.mem && d !in st.mem ==> st'.mem[d].Ready?)
  }

  /** Some module that was loaded has the recorded interface digest, or the check was passed over. */
  ghost predicate Vouched(st: State, p: (Name, MetaDigest)) {
    p.0 in st.mem && (p in st.passed || exists m :: (p.0, m) in st.loaded && Of(m.iface) == p.1)
  }

  ghost predicate VouchedHeader(st: State, p: (Name, HeaderDigest)) {
    p.0 in st.mem && exists m :: (p.0, m) in st.loaded && Digest(m.header) == p.1
  }

  /** A compilation of the present source, with every recorded dependency vouched for or recorded while
      it was unfinished. */
  ghost predicate Accounted(c: Compiler, st: State, n: Name, m: Module)
    requires Lawful(c)
  {
    && n in st.sources && m.header.source == st.sources[n] && Genuine(c, n, m)
    && (forall p :: p in m.header.deps ==> p.0 in st.mem && (p.1 == Unset || Vouched(st, p)))
    && (forall p :: p in m.header.ctDeps ==> p.0 in st.mem && (p.1 == NoHeader || VouchedHeader(st, p)))
  }

  ghost predicate Told(c: Compiler, st: State)
    requires Lawful(c)
  {
    && DiskOk(c, st.disk)
    && (forall d :: Loaded(st, d) ==> (d, st.mem[d].m) in st.loaded)
    && (forall e :: e in st.loaded ==> e.0 in st.mem && Accounted(c, st, e.0, e.1))
  }

  /** The modules known, loaded and passed over only grow. */
  ghost predicate Wider(st: State, st': State) {
    st'.sources == st.sources && st.loaded <= st'.loaded && st.passed <= st'.passed && st.mem.Keys <= st'.mem.Keys
  }

  lemma AccountedWider(c: Compiler, st: State, st': State, n: Name, m: Module)
    requires Lawful(c) && Accounted(c, st, n, m) && Wider(st, st')
    ensures Accounted(c, st', n, m)
  {
    hide Lawful, Genuine;
    forall p | p in m.header.deps && p.1 != Unset
      ensures Vouched(st', p)
    {
      VouchedWider(st, st', p);
    }
    forall p | p in m.header.ctDeps && p.1 != NoHeader
      ensures VouchedHeader(st', p)
    {
      HeaderWider(st, st', p);
    }
  }

  lemma VouchedWider(st: State, st': State, p: (Name, MetaDigest))
    requires Vouched(st, p) && Wider(st, st')
    ensures Vouched(st', p)
  {
    if p !in st.passed {
      var m :| (p.0, m) in st.loaded && Of(m.iface) == p.1;
      assert (p.0, m) in st'.loaded;
    }
  }

  lemma HeaderWider(st: State, st': State, p: (Name, HeaderDigest))
    requires VouchedHeader(st, p) && Wider(st, st')
    ensures VouchedHeader(st', p)
  {
    var m :| (p.0, m) in st.loaded && Digest(m.header) == p.1;
    assert (p.0, m) in st'.loaded;
  }

  /** A module cache entry, unfinished or passed over, changes nothing that was told. */
  lemma ToldWider(c: Compiler, st: State, st': State)
    requires Lawful(c) && Told(c, st) && Wider(st, st') && DiskOk(c, st'.disk)
    requires st'.loaded == st.loaded && forall d :: Loaded(st', d) ==> Loaded(st, d) && st'.mem[d] == st.mem[d]
    ensures Told(c, st')
  {
    hide Lawful, Accounted, DiskOk;
    forall e | e in st.loaded
      ensures Accounted(c, st', e.0, e.1)
    {
      AccountedWider(c, st, st', e.0, e.1);
    }
  }

  lemma ToldFinish(c: Compiler, st: State, n: Name, m: Module)
    requires Lawful(c) && Told(c, st) && Accounted(c, st, n, m)
    ensures Told(c, Finish(st, n, m))
  {
    hide Lawful, Accounted, DiskOk;
    var st' := Finish(st, n, m);
    forall e | e in st'.loaded
      ensures e.0 in st'.mem && Accounted(c, st', e.0, e.1)
    {
      assert e in st.loaded || e == (n, m);
      AccountedWider(c, st, st', e.0, e.1);
    }
  }

  // ----- The run, call by call -----

  lemma {:induction false} GetModuleTold(c: Compiler, depth: nat, st: State, n: Name)
    requires Lawful(c) && Told(c, st)
    ensures var (st', f) := GetModule(c, depth, st, n);
            && (f.Fetched? || f.Missing? ==> Told(c, st') && Kept(st, st'))
            && (f.Fetched? ==> n in st'.mem && st'.mem[n] == f.e)
    decreases depth, 4, 0
  {
    hide Told, Lawful, Deserialize, ParseModule, Accounted;
    if n in st.mem {
    } else if depth > 0 {
      DeserializeTold(c, depth - 1, st, n);
      var r := Deserialize(c, depth - 1, st, n);
      match r.1
      case Go(true) =>
        if n in r.0.sources {
          ParseModuleTold(c, depth - 1, r.0, n);
        }
      case Go(false) => ToldFinish(c, r.0, n, st.disk[n].m);
      case Stop(_) =>
    }
  }

  lemma {:induction false} DeserializeTold(c: Compiler, depth: nat, st: State, n: Name)
    requires Lawful(c) && Told(c, st)
    ensures var (st', v) := Deserialize(c, depth, st, n);
            && (v.Go? ==> Told(c, st') && Kept(st, st'))
            && (v == Go(false) ==> Accounted(c, st', n, st.disk[n].m))
            && (v.Stop? ==> !v.f.Fetched? && !v.f.Missing?)
    decreases depth, 6, 0
  {
    hide Told, Lawful, CheckDeps, CheckCTDeps, Genuine, Vouched, VouchedHeader;
    if n in st.disk && n in st.sources {
      var m := st.disk[n].m;
      var stale := st.sources[n] != m.header.source || !st.disk[n].builder;
      CachedGenuine(c, st, n);
      CheckDepsTold(c, depth, st, m.header.deps, stale);
      var r := CheckDeps(c, depth, st, m.header.deps, stale);
      if r.1.Go? {
        CheckCTDepsTold(c, depth, r.0, m.header.ctDeps, r.1.rebuild);
        var q := CheckCTDeps(c, depth, r.0, m.header.ctDeps, r.1.rebuild);
        if q.1 == Go(false) {
          AllVouched(r.0, q.0, m.header.deps);
          VouchedPresent(q.0, m);
        }
      }
    }
  }

  lemma CachedGenuine(c: Compiler, st: State, n: Name)
    requires Lawful(c) && Told(c, st) && n in st.disk
    ensures Genuine(c, n, st.disk[n].m)
  {
  }

  lemma AllVouched(st: State, st': State, deps: seq<(Name, MetaDigest)>)
    requires Kept(st, st') && forall p :: p in deps ==> Vouched(st, p)
    ensures forall p :: p in deps ==> Vouched(st', p)
  {
    forall p | p in deps
      ensures Vouched(st', p)
    {
      VouchedWider(st, st', p);
    }
  }

  lemma VouchedPresent(st: State, m: Module)
    requires forall p :: p in m.header.deps ==> Vouched(st, p)
    requires forall p :: p in m.header.ctDeps ==> VouchedHeader(st, p)
    ensures forall p :: p in m.header.deps ==> p.0 in st.mem
    ensures forall p :: p in m.header.ctDeps ==> p.0 in st.mem
  {
  }

  lemma {:induction false} CheckDepsTold(c: Compiler, depth: nat, st: State, deps: seq<(Name, MetaDigest)>,
                                         rebuild: bool)
    requires Lawful(c) && Told(c, st)
    ensures var (st', v) := CheckDeps(c, depth, st, deps, rebuild);
            && (v.Go? ==> Told(c, st') && Kept(st, st'))
            && (v == Go(false) ==> !rebuild && forall p :: p in deps ==> Vouched(st', p))
            && (v.Stop? ==> !v.f.Fetched? && !v.f.Missing?)
    decreases depth, 5, |deps|
  {
    hide Told, Lawful, GetModule, Vouched;
    if deps == [] {
    } else if rebuild {
      CheckDepsTold(c, depth, st, deps[1..], true);
    } else {
      var p := deps[0];
      GetModuleTold(c, depth, st, p.0);
      var r := GetModule(c, depth, st, p.0);
      if r.1.Fetched? || r.1.Missing? {
        var st1 := if r.1 == Fetched(Building) then r.0.(passed := r.0.passed + [p]) else r.0;
        var stale := r.1.Missing? || (r.1.e.Ready? && Of(r.1.e.m.iface) != p.1);
        PassOver(c, r.0, p);
        CheckDepsTold(c, depth, st1, deps[1..], stale);
        var q := CheckDeps(c, depth, st1, deps[1..], stale);
        assert CheckDeps(c, depth, st, deps, false) == q;
        if q.1 == Go(false) {
          VouchedNow(c, st1, p);
          AllVouched(st1, q.0, [p]);
        }
      }
    }
  }

  lemma PassOver(c: Compiler, st: State, p: (Name, MetaDigest))
    requires Lawful(c) && Told(c, st)
    ensures Told(c, st.(passed := st.passed + [p])) && Kept(st, st.(passed := st.passed + [p]))
  {
    hide Told, Lawful;
    ToldDisk(c, st);
    ToldWider(c, st, st.(passed := st.passed + [p]));
  }

  lemma ToldDisk(c: Compiler, st: State)
    requires Lawful(c) && Told(c, st)
    ensures DiskOk(c, st.disk)
  {
  }

  lemma VouchedNow(c: Compiler, st: State, p: (Name, MetaDigest))
    requires Lawful(c) && Told(c, st) && p.0 in st.mem
    requires p in st.passed || (st.mem[p.0].Ready? && Of(st.mem[p.0].m.iface) == p.1)
    ensures Vouched(st, p)
  {
    assert Loaded(st, p.0) ==> (p.0, st.mem[p.0].m) in st.loaded;
  }

  lemma {:induction false} CheckCTDepsTold(c: Compiler, depth: nat, st: State, deps: seq<(Name, HeaderDigest)>,
                                           rebuild: bool)
    requires Lawful(c) && Told(c, st)
    ensures var (st', v) := CheckCTDeps(c, depth, st, deps, rebuild);
            && (v.Go? ==> Told(c, st') && Kept(st, st'))
            && (v == Go(false) ==> !rebuild && forall p :: p in deps ==> VouchedHeader(st', p))
            && (v.Stop? ==> !v.f.Fetched? && !v.f.Missing?)
    decreases depth, 5, |deps|
  {
    hide Told, Lawful, GetModule, VouchedHeader;
    if deps == [] {
    } else if rebuild {
      CheckCTDepsTold(c, depth, st, deps[1..], true);
    } else {
      var p := deps[0];
      GetModuleTold(c, depth, st, p.0);
      var r := GetModule(c, depth, st, p.0);
      if r.1.Fetched? || r.1.Missing? {
        var stale := r.1.Missing? || r.1.e.Building? || HeaderOf(r.1.e) != p.1;
        CheckCTDepsTold(c, depth, r.0, deps[1..], stale);
        var q := CheckCTDeps(c, depth, r.0, deps[1..], stale);
        assert CheckCTDeps(c, depth, st, deps, false) == q;
        if q.1 == Go(false) {
          HeaderNow(c, r.0, q.0, p);
        }
      }
    }
  }

  lemma HeaderNow(c: Compiler, st: State, st': State, p: (Name, HeaderDigest))
    requires Lawful(c) && Told(c, st) && Kept(st, st') && Loaded(st, p.0) && Digest(st.mem[p.0].m.header) == p.1
    ensures VouchedHeader(st', p)
  {
    assert (p.0, st.mem[p.0].m) in st'.loaded;
  }

  /** The module itself may have been loaded before, by way of its own recorded dependencies. */
  lemma {:induction false} ParseModuleTold(c: Compiler, depth: nat, st: State, n: Name)
    requires Lawful(c) && Told(c, st) && n in st.sources
    ensures var (st', f) := ParseModule(c, depth, st, n);
            && !f.Missing?
            && (f.Fetched? ==> Told(c, st') && n in st'.mem && st'.mem[n] == f.e && f.e.Ready?)
            && (f.Fetched? && n in st.mem ==> Kept(st.(mem := st.mem - {n}), st'))
            && (f.Fetched? && n !in st.mem ==> Kept(st, st'))
    decreases depth, 6, 0
  {
    hide Told, Lawful, LoadAll, Assemble, Accounted, DiskOk;
    var s, st1 := st.sources[n], st.(mem := st.mem[n := Building]);
    var names := c.imports(n, s) + c.annotations(n, s);
    ToldDisk(c, st);
    ToldWider(c, st, st1);
    LoadAllTold(c, depth, st1, names);
    var r := LoadAll(c, depth, st1, names);
    if r.1.Go? && Assemble(c, n, s, r.0.mem).Some? {
      var m := Assemble(c, n, s, r.0.mem).value;
      AssembledAccounted(c, r.0, n, m);
      Recorded(c, r.0, n, m);
    }
  }

  lemma AssembledAccounted(c: Compiler, st: State, n: Name, m: Module)
    requires Lawful(c) && Told(c, st) && n in st.sources && Assemble(c, n, st.sources[n], st.mem) == Some(m)
    ensures Accounted(c, st, n, m)
  {
    hide Lawful, Assemble;
    AssembleDeps(c, n, st.sources[n], st.mem);
    forall p | p in m.header.deps && p.1 != Unset
      ensures Vouched(st, p)
    {
      assert Loaded(st, p.0);
    }
    forall p | p in m.header.ctDeps && p.1 != NoHeader
      ensures VouchedHeader(st, p)
    {
      assert Loaded(st, p.0);
    }
  }

  lemma Recorded(c: Compiler, st: State, n: Name, m: Module)
    requires Lawful(c) && Told(c, st) && Accounted(c, st, n, m)
    ensures Told(c, Record(st, n, m))
  {
    hide Lawful, Told, Genuine, Vouched, VouchedHeader;
    var filed := st.(disk := st.disk[n := Cached(m, true)], built := st.built + [n]);
    ToldDisk(c, st);
    AddsGenuine(c, st.disk, n, m);
    ToldWider(c, st, filed);
    AccountedWider(c, st, filed, n, m);
    ToldFinish(c, filed, n, m);
  }

  lemma AddsGenuine(c: Compiler, disk: map<Name, Cached>, n: Name, m: Module)
    requires Lawful(c) && DiskOk(c, disk) && Genuine(c, n, m)
    ensures DiskOk(c, disk[n := Cached(m, true)])
  {
    hide Lawful, Genuine;
  }

  lemma {:induction false} LoadAllTold(c: Compiler, depth: nat, st: State, names: seq<Name>)
    requires Lawful(c) && Told(c, st)
    ensures var (st', v) := LoadAll(c, depth, st, names);
            && v != Go(true)
            && (v.Go? ==> Told(c, st') && Kept(st, st') && forall i :: i in names ==> i in st'.mem)
            && (v.Stop? ==> !v.f.Fetched? && !v.f.Missing?)
    decreases depth, 5, |names|
  {
    hide Told, Lawful, GetModule;
    if names != [] {
      GetModuleTold(c, depth, st, names[0]);
      var r := GetModule(c, depth, st, names[0]);
      if r.1.Fetched? {
        LoadAllTold(c, depth, r.0, names[1..]);
        assert LoadAll(c, depth, st, names) == LoadAll(c, depth, r.0, names[1..]);
      }
    }
  }

  // ----- Agreement with compiling from scratch -----

  /** A compilation of the present source whose recorded dependencies below it are as they are from
      scratch is the one from scratch: no other dependency can have been recorded. */
  lemma FromBelow(c: Compiler, sources: map<Name, Text>, rank: Name -> nat, n: Name, m: Module)
    requires Lawful(c) && RankedSources(c, sources, rank)
    requires n in sources && m.header.source == sources[n] && Genuine(c, n, m)
    requires forall p :: p in m.header.deps && rank(p.0) < rank(n) ==> Matches(c, rank, sources, p)
    requires forall p :: p in m.header.ctDeps && rank(p.0) < rank(n) ==> MatchesHeader(c, rank, sources, p)
    ensures Scratch(c, sources, rank, n) == Some(m)
  {
    hide Lawful, Assemble, ScratchView, RankedSources, Visible;
    var s, view := sources[n], ScratchView(c, sources, rank, rank(n));
    var view0: map<Name, Entry> :| Assemble(c, n, s, view0) == Some(m);
    RankedHere(c, sources, rank, n);
    forall p | p in m.header.deps
      ensures p.0 in view && Meta(view[p.0]) == p.1
    {
      Recorder(c, n, s, view0, m, p);
      if p.0 !in c.imports(n, s) {
        var i: Name, x: (Name, MetaDigest) :|
          i in c.imports(n, s) && i in view0 && view0[i].Ready? && p.0 in c.exposes(view0[i].m.iface)
                    && x == (i, Meta(view0[i])) && x in m.header.deps;
        assert Matches(c, rank, sources, x);
        ExposedInView(c, sources, rank, i, p.0, rank(n));
      }
      InView(c, sources, rank, p.0, rank(n));
    }
    forall p | p in m.header.ctDeps
      ensures p.0 in view && HeaderOf(view[p.0]) == p.1
    {
      AnnotationRecorded(c, n, s, view0, m, p);
      InView(c, sources, rank, p.0, rank(n));
    }
    ReuseIsRecompile(c, n, m, view0, view);
    ScratchIs(c, sources, rank, n);
  }

  lemma RankedHere(c: Compiler, sources: map<Name, Text>, rank: Name -> nat, n: Name)
    requires RankedSources(c, sources, rank) && n in sources
    ensures forall i :: i in c.imports(n, sources[n]) ==> rank(i) < rank(n)
    ensures forall i :: i in c.annotations(n, sources[n]) ==> rank(i) < rank(n)
  {
  }

  /** A recorded dependency is an import, or is mentioned by the interface of a recorded import. */
  lemma Recorder(c: Compiler, n: Name, s: Text, view: map<Name, Entry>, m: Module, p: (Name, MetaDigest))
    requires Lawful(c) && Assemble(c, n, s, view) == Some(m) && p in m.header.deps
    ensures p.0 in c.imports(n, s) ||
            exists i: Name, x: (Name, MetaDigest) :: i in c.imports(n, s) && i in view && view[i].Ready? &&
              p.0 in c.exposes(view[i].m.iface)
                           && x == (i, Meta(view[i])) && x in m.header.deps
  {
    var imports := c.imports(n, s);
    var metas, headers := Metas(c, imports, view), Headers(c.annotations(n, s), view);
    var o := c.compile(n, s, metas, headers).value;
    assert p.0 in o.deps;
    if p.0 !in imports {
      var i :| i in imports && i in view && view[i].Ready? && p.0 in c.exposes(view[i].m.iface);
      assert i in o.deps;
      PairIn(o.deps, metas, i);
      assert (i, Meta(view[i])) in m.header.deps;
    }
  }

  lemma AnnotationRecorded(c: Compiler, n: Name, s: Text, view: map<Name, Entry>, m: Module, p: (Name, HeaderDigest))
    requires Lawful(c) && Assemble(c, n, s, view) == Some(m) && p in m.header.ctDeps
    ensures p.0 in c.annotations(n, s)
  {
    var metas, headers := Metas(c, c.imports(n, s), view), Headers(c.annotations(n, s), view);
    var o := c.compile(n, s, metas, headers).value;
    assert p.0 in o.ctDeps;
  }

  lemma ScratchIs(c: Compiler, sources: map<Name, Text>, rank: Name -> nat, n: Name)
    requires Lawful(c) && n in sources
    requires var view := ScratchView(c, sources, rank, rank(n));
      forall i :: i in c.imports(n, sources[n]) + c.annotations(n, sources[n]) ==> i in view
    ensures Scratch(c, sources, rank, n) == Assemble(c, n, sources[n], ScratchView(c, sources, rank, rank(n)))
  {
  }

  ghost predicate AllReady(st: State) {
    forall d :: d in st.mem ==> st.mem[d].Ready?
  }

  /** Every module in the module cache is the one compiled from scratch. */
  ghost predicate Sound(c: Compiler, rank: Name -> nat, st: State)
    requires Lawful(c)
  {
    forall d :: d in st.mem ==> st.mem[d].Ready? && Scratch(c, st.sources, rank, d) == Some(st.mem[d].m)
  }

  /** Every recorded dependency has the recorded digest. */
  ghost predicate Consistent(st: State) {
    forall d :: d in st.mem ==> st.mem[d].Ready? && Current(st.mem[d].m, st.mem)
  }

  /** Sound and consistent are the same. */
  lemma SoundIffConsistent(c: Compiler, rank: Name -> nat, st: State)
    requires Lawful(c) && Told(c, st) && AllReady(st) && RankedSources(c, st.sources, rank)
    ensures Sound(c, rank, st) <==> Consistent(st)
  {
    hide Lawful, Scratch, Told, Current, RankedSources;
    if Sound(c, rank, st) {
      forall d | d in st.mem
        ensures Current(st.mem[d].m, st.mem)
      {
        SoundIsCurrent(c, rank, st, d);
      }
    }
    if Consistent(st) {
      forall d | d in st.mem
        ensures Scratch(c, st.sources, rank, d) == Some(st.mem[d].m)
      {
        ConsistentIsScratch(c, rank, st, d);
      }
    }
  }

  lemma EntryAccounted(c: Compiler, st: State, d: Name)
    requires Lawful(c) && Told(c, st) && Loaded(st, d)
    ensures (d, st.mem[d].m) in st.loaded && Accounted(c, st, d, st.mem[d].m)
  {
    hide Lawful, Accounted, DiskOk;
    assert (d, st.mem[d].m).0 == d;
  }

  lemma SoundIsCurrent(c: Compiler, rank: Name -> nat, st: State, d: Name)
    requires Lawful(c) && Told(c, st) && Sound(c, rank, st) && d in st.mem
    ensures Current(st.mem[d].m, st.mem)
  {
    hide Lawful, Scratch, Told, Genuine, Vouched, VouchedHeader;
    EntryAccounted(c, st, d);
    ScratchDeps(c, st.sources, rank, d);
  }

  lemma {:induction false} ConsistentIsScratch(c: Compiler, rank: Name -> nat, st: State, d: Name)
    requires Lawful(c) && Told(c, st) && Consistent(st) && RankedSources(c, st.sources, rank) && d in st.mem
    ensures Scratch(c, st.sources, rank, d) == Some(st.mem[d].m)
    decreases rank(d)
  {
    hide Lawful, Scratch, Told, RankedSources, Genuine, Vouched, VouchedHeader;
    EntryAccounted(c, st, d);
    var m := st.mem[d].m;
    forall p | p in m.header.deps && rank(p.0) < rank(d)
      ensures Matches(c, rank, st.sources, p)
    {
      ConsistentIsScratch(c, rank, st, p.0);
    }
    forall p | p in m.header.ctDeps && rank(p.0) < rank(d)
      ensures MatchesHeader(c, rank, st.sources, p)
    {
      ConsistentIsScratch(c, rank, st, p.0);
    }
    FromBelow(c, st.sources, rank, d, m);
  }

  // ----- The guard -----

  /** Every module loaded during the run, replaced since or not, is the one compiled from scratch. */
  ghost predicate AllSound(c: Compiler, rank: Name -> nat, st: State)
    requires Lawful(c)
  {
    forall e :: e in st.loaded ==> Scratch(c, st.sources, rank, e.0) == Some(e.1)
  }

  /** No dependency that was passed over has ended up with a digest other than the recorded one. */
  ghost predicate PassedRightly(st: State) {
    forall e, p :: e in st.loaded && p in e.1.header.deps && p in st.passed ==>
      p.0 in st.mem && Meta(st.mem[p.0]) == p.1
  }

  /** No module was compiled against an unfinished one. */
  ghost predicate Closed(st: State) {
    && (forall e, p :: e in st.loaded && p in e.1.header.deps ==> p.1 != Unset)
    && (forall e, p :: e in st.loaded && p in e.1.header.ctDeps ==> p.1 != NoHeader)
  }

  /** The branch that passes over unfinished dependencies, and compiling against unfinished modules, are
      the only ways to load a wrong module. */
  lemma AllSoundIff(c: Compiler, rank: Name -> nat, st: State)
    requires Lawful(c) && Told(c, st) && AllReady(st) && RankedSources(c, st.sources, rank)
    ensures AllSound(c, rank, st) <==> PassedRightly(st) && Closed(st)
    ensures AllSound(c, rank, st) ==> Sound(c, rank, st)
  {
    hide Lawful, Scratch, Told, RankedSources;
    if AllSound(c, rank, st) {
      forall e | e in st.loaded
        ensures forall p :: p in e.1.header.deps ==> p.1 != Unset && p.0 in st.mem && Meta(st.mem[p.0]) == p.1
        ensures forall p :: p in e.1.header.ctDeps ==> p.1 != NoHeader
      {
        ScratchRecords(c, rank, st, e);
      }
      forall d | d in st.mem
        ensures Scratch(c, st.sources, rank, d) == Some(st.mem[d].m)
      {
        EntryAccounted(c, st, d);
        assert (d, st.mem[d].m) in st.loaded;
      }
    }
    if PassedRightly(st) && Closed(st) {
      forall e | e in st.loaded
        ensures Scratch(c, st.sources, rank, e.0) == Some(e.1)
      {
        GuardedIsScratch(c, rank, st, e);
      }
    }
  }

  lemma ScratchRecords(c: Compiler, rank: Name -> nat, st: State, e: (Name, Module))
    requires Lawful(c) && Told(c, st) && AllReady(st) && AllSound(c, rank, st) && e in st.loaded
    ensures forall p :: p in e.1.header.deps ==> p.1 != Unset && p.0 in st.mem && Meta(st.mem[p.0]) == p.1
    ensures forall p :: p in e.1.header.ctDeps ==> p.1 != NoHeader
  {
    hide Lawful, Scratch, Genuine, Vouched, VouchedHeader, DiskOk;
    ScratchDeps(c, st.sources, rank, e.0);
    assert Accounted(c, st, e.0, e.1);
    forall p | p in e.1.header.deps
      ensures p.1 != Unset && p.0 in st.mem && Meta(st.mem[p.0]) == p.1
    {
      assert Loaded(st, p.0) && (p.0, st.mem[p.0].m) in st.loaded;
      assert (p.0, st.mem[p.0].m).0 == p.0;
    }
  }

  lemma {:induction false} GuardedIsScratch(c: Compiler, rank: Name -> nat, st: State, e: (Name, Module))
    requires Lawful(c) && Told(c, st) && AllReady(st) && RankedSources(c, st.sources, rank)
    requires PassedRightly(st) && Closed(st) && e in st.loaded
    ensures Scratch(c, st.sources, rank, e.0) == Some(e.1)
    decreases rank(e.0)
  {
    hide Lawful, Scratch, Told, RankedSources, Genuine, Vouched, VouchedHeader;
    LoadedAccounted(c, st, e);
    forall p | p in e.1.header.deps && rank(p.0) < rank(e.0)
      ensures Matches(c, rank, st.sources, p)
    {
      var m := Voucher(c, st, e, p);
      GuardedIsScratch(c, rank, st, (p.0, m));
    }
    forall p | p in e.1.header.ctDeps && rank(p.0) < rank(e.0)
      ensures MatchesHeader(c, rank, st.sources, p)
    {
      var m := HeaderVoucher(st, p);
      GuardedIsScratch(c, rank, st, (p.0, m));
    }
    FromBelow(c, st.sources, rank, e.0, e.1);
  }

  lemma LoadedAccounted(c: Compiler, st: State, e: (Name, Module))
    requires Lawful(c) && Told(c, st) && e in st.loaded
    ensures Accounted(c, st, e.0, e.1)
  {
  }

  lemma Voucher(c: Compiler, st: State, e: (Name, Module), p: (Name, MetaDigest)) returns (m: Module)
    requires Lawful(c) && Told(c, st) && AllReady(st) && PassedRightly(st)
    requires e in st.loaded && p in e.1.header.deps && Vouched(st, p)
    ensures (p.0, m) in st.loaded && Of(m.iface) == p.1
  {
    hide Lawful, Accounted, DiskOk;
    if p in st.passed {
      EntryAccounted(c, st, p.0);
      m := st.mem[p.0].m;
    } else {
      m :| (p.0, m) in st.loaded && Of(m.iface) == p.1;
    }
  }

  lemma HeaderVoucher(st: State, p: (Name, HeaderDigest)) returns (m: Module)
    requires VouchedHeader(st, p)
    ensures (p.0, m) in st.loaded && Digest(m.header) == p.1
  {
    m :| (p.0, m) in st.loaded && Digest(m.header) == p.1;
  }
}
