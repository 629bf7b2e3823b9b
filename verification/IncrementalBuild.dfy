/**
 * The incremental build: Construct::getModule (model/Construct.cc), the rebuild decision of
 * ModuleDef::deserialize and the header written by ModuleDef::serialize (model/ModuleDef.cc).
 *
 * Digests are collision-free, so each is represented by what it digests; `Unset` is the digest of
 * a module that is still being compiled.
 */
module IncrementalBuild {

  /** Canonical names and texts (sources, interfaces, code) matter only through equality. */
  datatype Name = Name(id: nat)
  datatype Text = Text(id: nat)

  datatype Option<+T> = None | Some(value: T)

  /** ModuleDef::metaDigest, the digest of the public interface. */
  datatype MetaDigest = Unset | Of(iface: Text)

  /** The module header: the source digest, the dependencies with their meta-digests, and the
      compile-time dependencies with their header digests. */
  datatype Header = Header(source: Text, deps: seq<(Name, MetaDigest)>, ctDeps: seq<(Name, HeaderDigest)>)

  /** ModuleDef::headerDigest. */
  datatype HeaderDigest = NoHeader | Digest(header: Header)

  datatype Module = Module(header: Header, iface: Text, code: Text)

  // ----- The compiler -----

  datatype Output = Output(deps: seq<Name>, ctDeps: seq<Name>, iface: Text, code: Text)

  /** What parsing one source does.  `imports` and `annotations` are the import statements and the
      annotation imports of a source, `exposes` the other modules an interface mentions, and
      `compile` the outcome (None for an error) given what can be seen of other modules. */
  datatype Compiler = Compiler(
    imports: (Name, Text) -> seq<Name>,
    annotations: (Name, Text) -> seq<Name>,
    exposes: Text -> seq<Name>,
    compile: (Name, Text, map<Name, MetaDigest>, map<Name, HeaderDigest>) -> Option<Output>)

  ghost predicate Agree<T>(names: seq<Name>, a: map<Name, T>, b: map<Name, T>) {
    forall d :: d in names ==> d in a && d in b && a[d] == b[d]
  }

  /** Compilation is a function of the source, the recorded dependencies' interfaces and the
      compile-time dependencies' headers; every import is recorded (model/Context.cc:787, 794), and
      so is every module the resulting interface mentions (model/Context.cc:778). */
  ghost predicate Lawful(c: Compiler) {
    forall n, s, metas, headers :: c.compile(n, s, metas, headers).Some? ==>
      var o := c.compile(n, s, metas, headers).value;
      && Agree(o.deps, metas, metas) && Agree(o.ctDeps, headers, headers)
      && (forall d :: d in c.imports(n, s) ==> d in o.deps)
      && (forall d :: d in c.annotations(n, s) ==> d in o.ctDeps)
      && (forall d :: d in c.exposes(o.iface) ==> d in o.deps)
      && (forall metas', headers' :: Agree(o.deps, metas, metas') && Agree(o.ctDeps, headers, headers') ==>
            c.compile(n, s, metas', headers') == Some(o))
  }

  // ----- The state of a build -----

  /** A module cache entry: present but unfinished, or finished. */
  datatype Entry = Building | Ready(m: Module)

  /** The metadata file, and whether the builder's own file for it can be opened. */
  datatype Cached = Cached(m: Module, builder: bool)

  /** Sources, Construct::moduleCache, the persistent cache, the modules compiled so far,
      Construct::loadedModules, and the recorded dependencies that were passed over unchecked because
      their modules were unfinished (model/ModuleDef.cc:541). */
  datatype State = State(sources: map<Name, Text>, mem: map<Name, Entry>, disk: map<Name, Cached>, built: seq<Name>,
                         loaded: seq<(Name, Module)>, passed: seq<(Name, MetaDigest)>)

  /** Null pointer, exception, and recursion beyond the depth at hand. */
  datatype Fetch = Fetched(e: Entry) | Missing | Failed | Runaway

  /** The module is finished, and the latest to be loaded. */
  function Finish(st: State, n: Name, m: Module): State {
    st.(mem := st.mem[n := Ready(m)], loaded := st.loaded + [(n, m)])
  }

  function Meta(e: Entry): MetaDigest {
    if e.Ready? then Of(e.m.iface) else Unset
  }

  function HeaderOf(e: Entry): HeaderDigest {
    if e.Ready? then Digest(e.m.header) else NoHeader
  }

  /** A source sees the modules it imports and what their interfaces mention. */
  predicate Visible(c: Compiler, imports: seq<Name>, view: map<Name, Entry>, d: Name) {
    d in imports || exists i :: i in imports && i in view && view[i].Ready? && d in c.exposes(view[i].m.iface)
  }

  function Metas(c: Compiler, imports: seq<Name>, view: map<Name, Entry>): map<Name, MetaDigest> {
    map d | d in view && Visible(c, imports, view, d) :: Meta(view[d])
  }

  function Headers(annotations: seq<Name>, view: map<Name, Entry>): map<Name, HeaderDigest> {
    map d | d in view && d in annotations :: HeaderOf(view[d])
  }

  /** Compiles `s` against what `view` holds and records what it was compiled against. */
  function Assemble(c: Compiler, n: Name, s: Text, view: map<Name, Entry>): Option<Module>
    requires Lawful(c)
  {
    var metas, headers := Metas(c, c.imports(n, s), view), Headers(c.annotations(n, s), view);
    match c.compile(n, s, metas, headers)
    case None => None
    case Some(o) => Some(Module(Header(s, Pairs(o.deps, metas), Pairs(o.ctDeps, headers)), o.iface, o.code))
  }

  function Pairs<T>(names: seq<Name>, values: map<Name, T>): (r: seq<(Name, T)>)
    requires forall d :: d in names ==> d in values
  {
    seq(|names|, i requires 0 <= i < |names| => (names[i], values[names[i]]))
  }

  // ----- Construct::getModule -----

  function GetModule(c: Compiler, depth: nat, st: State, n: Name): (r: (State, Fetch))
    requires Lawful(c)
    ensures r.0.sources == st.sources
    decreases depth, 4, 0
  {
    if n in st.mem then (st, Fetched(st.mem[n]))
    else if depth == 0 then (st, Runaway)
    else
      var r := Deserialize(c, depth - 1, st, n);
      match r.1
      case Stop(f) => (r.0, f)
      case Go(true) => if n in r.0.sources then ParseModule(c, depth - 1, r.0, n) else (r.0, Missing)
      case Go(false) =>
        (Finish(r.0, n, st.disk[n].m), Fetched(Ready(st.disk[n].m)))
  }

  /** Go(b): carry on, and b tells whether the module must be rebuilt. */
  datatype Verdict = Go(rebuild: bool) | Stop(f: Fetch)

  /** The rebuild decision.  A cached module whose source is gone is an error. */
  function Deserialize(c: Compiler, depth: nat, st: State, n: Name): (r: (State, Verdict))
    requires Lawful(c)
    ensures r.1 == Go(false) ==> n in st.disk
    ensures r.0.sources == st.sources
    decreases depth, 6, 0
  {
    if n !in st.disk then (st, Go(true))
    else
      var m := st.disk[n].m;
      if n !in st.sources then (st, Stop(Failed))
      else
        var r := CheckDeps(c, depth, st, m.header.deps, st.sources[n] != m.header.source || !st.disk[n].builder);
        if r.1.Stop? then r else CheckCTDeps(c, depth, r.0, m.header.ctDeps, r.1.rebuild)
  }

  /** An unfinished dependency is passed over without a check. */
  function CheckDeps(c: Compiler, depth: nat, st: State, deps: seq<(Name, MetaDigest)>,
                     rebuild: bool): (r: (State, Verdict))
    requires Lawful(c)
    ensures r.0.sources == st.sources
    decreases depth, 5, |deps|
  {
    if deps == [] then (st, Go(rebuild))
    else if rebuild then CheckDeps(c, depth, st, deps[1..], true)
    else
      var r := GetModule(c, depth, st, deps[0].0);
      match r.1
      case Fetched(Building) => CheckDeps(c, depth, r.0.(passed := r.0.passed + [deps[0]]), deps[1..], false)
      case Fetched(Ready(m)) => CheckDeps(c, depth, r.0, deps[1..], Of(m.iface) != deps[0].1)
      case Missing => CheckDeps(c, depth, r.0, deps[1..], true)
      case _ => (r.0, Stop(r.1))
  }

  /** An unfinished compile-time dependency forces a rebuild. */
  function CheckCTDeps(c: Compiler, depth: nat, st: State, deps: seq<(Name, HeaderDigest)>,
                       rebuild: bool): (r: (State, Verdict))
    requires Lawful(c)
    ensures r.0.sources == st.sources
    decreases depth, 5, |deps|
  {
    if deps == [] then (st, Go(rebuild))
    else if rebuild then CheckCTDeps(c, depth, st, deps[1..], true)
    else
      var r := GetModule(c, depth, st, deps[0].0);
      match r.1
      case Fetched(e) => CheckCTDeps(c, depth, r.0, deps[1..], e.Building? || HeaderOf(e) != deps[0].1)
      case Missing => CheckCTDeps(c, depth, r.0, deps[1..], true)
      case _ => (r.0, Stop(r.1))
  }

  /** Compiles from source: the unfinished module is in the module cache while its imports load, and
      the result goes to the persistent cache before the module is marked finished. */
  function ParseModule(c: Compiler, depth: nat, st: State, n: Name): (r: (State, Fetch))
    requires Lawful(c) && n in st.sources
    ensures r.0.sources == st.sources
    decreases depth, 6, 0
  {
    var s := st.sources[n];
    var r := LoadAll(c, depth, st.(mem := st.mem[n := Building]), c.imports(n, s) + c.annotations(n, s));
    if r.1 != Go(false) then (r.0, if r.1.Stop? then r.1.f else Failed)
    else
      match Assemble(c, n, s, r.0.mem)
      case None => (r.0, Failed)
      case Some(m) =>
        (Finish(r.0.(disk := r.0.disk[n := Cached(m, true)], built := r.0.built + [n]), n, m), Fetched(Ready(m)))
  }

  /** The import statements in order; importing a module that cannot be found is an error. */
  function LoadAll(c: Compiler, depth: nat, st: State, names: seq<Name>): (r: (State, Verdict))
    requires Lawful(c)
    ensures r.0.sources == st.sources
    decreases depth, 5, |names|
  {
    if names == [] then (st, Go(false))
    else
      var r := GetModule(c, depth, st, names[0]);
      match r.1
      case Fetched(_) => LoadAll(c, depth, r.0, names[1..])
      case Missing => (r.0, Stop(Failed))
      case _ => (r.0, Stop(r.1))
  }
}
