/** Imports resolved on first use (model/LazyImports.cc), indexed by module and by local name. */
module LazyImports {
  import opened Wire
  import opened CanonicalName

  datatype ImportedDef = ImportedDef(local: Name, source: Name)

  /** A module, and whether it is a raw shared library. */
  datatype ModuleId = ModuleId(name: Name, raw: bool)

  /** What getImport answers: the module's name in parts, and one symbol. */
  datatype Import = Import(parts: seq<Name>, raw: bool, def: ImportedDef)

  /** One registration. */
  datatype Entry = Entry(id: ModuleId, def: ImportedDef)

  // ----- The index -----

  /** The two maps: each module's parts and symbols, and the module that first registered a local name. */
  datatype Index = Index(parts: map<ModuleId, seq<Name>>, imports: map<ModuleId, seq<ImportedDef>>,
    byLocal: map<Name, ModuleId>)

  const EMPTY := Index(map[], map[], map[])

  /** addImportTo: emplace keeps an earlier registration of the name. */
  function AddTo(x: Index, id: ModuleId, def: ImportedDef): Index
    requires id in x.imports
  {
    x.(imports := x.imports[id := x.imports[id] + [def]],
       byLocal := if def.local in x.byLocal then x.byLocal else x.byLocal[def.local := id])
  }

  /** A module entered under its parts. */
  function Enter(x: Index, id: ModuleId, parts: seq<Name>): Index {
    x.(parts := x.parts[id := parts], imports := x.imports[id := []])
  }

  function Add(x: Index, e: Entry): Index
    requires Parse(e.id.name).Some?
  {
    if e.id in x.imports then AddTo(x, e.id, e.def) else AddTo(Enter(x, e.id, Parse(e.id.name).value), e.id, e.def)
  }

  ghost predicate Named(es: seq<Entry>) {
    forall i :: 0 <= i < |es| ==> Parse(es[i].id.name).Some?
  }

  ghost function Build(es: seq<Entry>): Index
    requires Named(es)
  {
    if es == [] then EMPTY else Add(Build(es[..|es| - 1]), es[|es| - 1])
  }

  /** The first of a module's symbols with the local name. */
  function FirstDef(defs: seq<ImportedDef>, local: Name): Option<ImportedDef> {
    if defs == [] then None else if defs[0].local == local then Some(defs[0]) else FirstDef(defs[1..], local)
  }

  /** The first registration of a local name. */
  function FirstEntry(es: seq<Entry>, local: Name): Option<Entry> {
    if es == [] then None else if es[0].def.local == local then Some(es[0]) else FirstEntry(es[1..], local)
  }

  function Select(es: seq<Entry>, id: ModuleId): seq<ImportedDef> {
    if es == [] then [] else (if es[0].id == id then [es[0].def] else []) + Select(es[1..], id)
  }

  lemma {:induction false} FirstEntryAppend(es: seq<Entry>, e: Entry, local: Name)
    ensures FirstEntry(es + [e], local)
         == if FirstEntry(es, local).Some? then FirstEntry(es, local) else if e.def.local == local then Some(e)
           else None
    decreases |es|
  {
    if es == [] {
      assert es + [e] == [e] && [e][1..] == [];
    } else {
      assert (es + [e])[0] == es[0] && (es + [e])[1..] == es[1..] + [e];
      FirstEntryAppend(es[1..], e, local);
    }
  }

  lemma {:induction false} SelectAppend(es: seq<Entry>, e: Entry, id: ModuleId)
    ensures Select(es + [e], id) == Select(es, id) + if e.id == id then [e.def] else []
    decreases |es|
  {
    if es == [] {
      assert es + [e] == [e] && [e][1..] == [];
    } else {
      assert (es + [e])[0] == es[0] && (es + [e])[1..] == es[1..] + [e];
      SelectAppend(es[1..], e, id);
    }
  }

  /** The index always describes the registrations so far. */
  ghost predicate Describes(x: Index, es: seq<Entry>) {
    && x.parts.Keys == x.imports.Keys
    && (forall id :: id in x.imports <==> Registered(es, id))
    && (forall id :: id in x.imports ==> x.imports[id] == Select(es, id) && Parse(id.name) == Some(x.parts[id]))
    && (forall n :: n in x.byLocal <==> FirstEntry(es, n).Some?)
    && (forall n :: n in x.byLocal ==> x.byLocal[n] == FirstEntry(es, n).value.id)
  }

  ghost predicate Registered(es: seq<Entry>, id: ModuleId) {
    exists i :: 0 <= i < |es| && es[i].id == id
  }

  lemma RegisteredAppend(es: seq<Entry>, e: Entry, id: ModuleId)
    ensures Registered(es + [e], id) <==> Registered(es, id) || e.id == id
  {
    var all := es + [e];
    assert all[|es|].id == e.id;
    if Registered(es, id) {
      var i :| 0 <= i < |es| && es[i].id == id;
      assert all[i].id == id;
    }
  }

  lemma AddDescribes(x: Index, es: seq<Entry>, e: Entry)
    requires Describes(x, es) && Parse(e.id.name).Some?
    ensures Describes(Add(x, e), es + [e])
  {
    hide Parse, Registered, Select, FirstEntry;
    var y, all := Add(x, e), es + [e];
    forall id ensures id in y.imports <==> Registered(all, id) {
      RegisteredAppend(es, e, id);
    }
    forall id | id in y.imports ensures y.imports[id] == Select(all, id) && Parse(id.name) == Some(y.parts[id]) {
      SelectAppend(es, e, id);
      if id !in x.imports {
        NotSelected(es, id);
      }
    }
    forall n ensures (n in y.byLocal <==> FirstEntry(all, n).Some?)
      ensures n in y.byLocal ==> y.byLocal[n] == FirstEntry(all, n).value.id
    {
      FirstEntryAppend(es, e, n);
    }
  }

  lemma {:induction false} NotSelected(es: seq<Entry>, id: ModuleId)
    requires !Registered(es, id)
    ensures Select(es, id) == []
    decreases |es|
  {
    if es != [] {
      assert es[0].id != id;
      forall i | 0 <= i < |es[1..]| ensures es[1..][i].id != id {
        assert es[i + 1].id != id;
      }
      NotSelected(es[1..], id);
    }
  }

  lemma NothingDescribed()
    ensures Describes(EMPTY, [])
  {
  }

  lemma {:induction false} BuildDescribes(es: seq<Entry>)
    requires Named(es)
    ensures Describes(Build(es), es)
    decreases |es|
  {
    hide Describes, Add, Parse;
    if es == [] {
      NothingDescribed();
    } else {
      var init := es[..|es| - 1];
      BuildDescribes(init);
      AddDescribes(Build(init), init, es[|es| - 1]);
      assert init + [es[|es| - 1]] == es;
    }
  }

  /** The first registration of a name is the first one in its module. */
  lemma {:induction false} FirstInModule(es: seq<Entry>, local: Name)
    requires FirstEntry(es, local).Some?
    ensures var e := FirstEntry(es, local).value;
      && e.def.local == local && FirstDef(Select(es, e.id), local) == Some(e.def)
      && exists i :: 0 <= i < |es| && es[i] == e
    decreases |es|
  {
    if es[0].def.local == local {
      assert (if es[0].id == es[0].id then [es[0].def] else []) + Select(es[1..], es[0].id) ==
        [es[0].def] + Select(es[1..], es[0].id);
      assert es[0] == FirstEntry(es, local).value;
    } else {
      FirstInModule(es[1..], local);
      var e := FirstEntry(es, local).value;
      var i :| 0 <= i < |es[1..]| && es[1..][i] == e;
      assert es[i + 1] == e;
      if es[0].id == e.id {
        assert ([es[0].def] + Select(es[1..], e.id))[1..] == Select(es[1..], e.id);
      } else {
        assert [] + Select(es[1..], e.id) == Select(es[1..], e.id);
      }
    }
  }

  /** getImport: None for a name never registered. */
  function Get(x: Index, es: seq<Entry>, local: Name): Option<Import>
    requires Describes(x, es)
  {
    if local !in x.byLocal then None
    else
      var id := x.byLocal[local];
      FirstInModule(es, local);
      Some(Import(x.parts[id], id.raw, FirstDef(x.imports[id], local).value))
  }

  /** After any registrations, getImport answers the first one of the name, with its module. */
  lemma GetIsFirst(x: Index, es: seq<Entry>, local: Name)
    requires Describes(x, es)
    ensures var e := FirstEntry(es, local);
      && (e.None? ==> Get(x, es, local) == None)
      && (e.Some? ==> Parse(e.value.id.name).Some?
                      && Get(x, es, local) == Some(Import(Parse(e.value.id.name).value, e.value.id.raw, e.value.def)))
  {
    if FirstEntry(es, local).Some? {
      FirstInModule(es, local);
    }
  }

  /** Registration i is the earliest of its local name. */
  predicate Earliest(es: seq<Entry>, i: nat)
    requires i < |es|
  {
    forall j :: 0 <= j < i ==> es[j].def.local != es[i].def.local
  }

  /** The same by position. */
  lemma GetIsEarliest(x: Index, es: seq<Entry>, local: Name)
    requires Describes(x, es)
    ensures Get(x, es, local) == None <==> forall j :: 0 <= j < |es| ==> es[j].def.local != local
    ensures forall i :: 0 <= i < |es| && es[i].def.local == local && Earliest(es, i) ==>
      && Parse(es[i].id.name).Some?
      && Get(x, es, local) == Some(Import(Parse(es[i].id.name).value, es[i].id.raw, es[i].def))
  {
    hide Parse, FirstEntry, Get, Describes, Earliest;
    GetIsFirst(x, es, local);
    FirstEntryIs(es, local);
  }

  lemma {:induction false} FirstEntryIs(es: seq<Entry>, local: Name)
    ensures FirstEntry(es, local).None? <==> forall j :: 0 <= j < |es| ==> es[j].def.local != local
    ensures forall i :: 0 <= i < |es| && es[i].def.local == local && Earliest(es, i) ==>
      FirstEntry(es, local) == Some(es[i])
    decreases |es|
  {
    if es != [] && es[0].def.local != local {
      FirstEntryIs(es[1..], local);
      assert forall j :: 0 < j < |es| ==> es[j] == es[1..][j - 1];
      forall i | 0 <= i < |es| && es[i].def.local == local && Earliest(es, i)
        ensures FirstEntry(es, local) == Some(es[i])
      {
        assert Earliest(es[1..], i - 1);
      }
    }
  }

  // ----- The stored form -----

  const FIELD1: UInt32 := 10
  const FIELD2: UInt32 := 18

  function Field(key: UInt32, data: seq<Byte>): seq<Byte> {
    Varint(key) + Blob(data)
  }

  function DefBytes(d: ImportedDef): seq<Byte> {
    Field(FIELD1, d.source) + if d.local != d.source then Field(FIELD2, d.local) else []
  }

  function PartsBytes(ps: seq<Name>): seq<Byte> {
    if ps == [] then [] else Field(FIELD1, ps[0]) + PartsBytes(ps[1..])
  }

  function DefsBytes(ds: seq<ImportedDef>): seq<Byte> {
    if ds == [] then [] else Field(FIELD2, DefBytes(ds[0])) + DefsBytes(ds[1..])
  }

  function ModuleBytes(ps: seq<Name>, ds: seq<ImportedDef>): seq<Byte> {
    PartsBytes(ps) + DefsBytes(ds)
  }

  /** The record of the module `a` with its symbol `x` imported as `y`, byte by byte. */
  lemma SampleBytes()
    ensures ModuleBytes([[97]], [ImportedDef([121], [120])]) == [10, 1, 97, 18, 6, 10, 1, 120, 18, 1, 121]
  {
    hide Varint;
    assert Varint(10) == [10] && Varint(18) == [18] && Varint(1) == [1] && Varint(6) == [6] by { SmallVarint(); }
    var d := ImportedDef([121], [120]);
    assert DefBytes(d) == [10, 1, 120, 18, 1, 121];
    assert Field(FIELD2, DefBytes(d)) == [18, 6, 10, 1, 120, 18, 1, 121];
    assert Field(FIELD1, [97]) == [10, 1, 97];
    assert DefsBytes([d][1..]) == [] && PartsBytes([[97]][1..]) == [];
    assert PartsBytes([[97]]) == [10, 1, 97] && DefsBytes([d]) == [18, 6, 10, 1, 120, 18, 1, 121];
  }

  lemma SmallVarint()
    ensures forall v: UInt32 :: v < 128 ==> Varint(v) == [v]
  {
  }

  /** deserializeImportSymbol: fields until the data ends; a missing local name is the source name. */
  function ReadDef(src: seq<Byte>, source: Name, local: Option<Name>): Option<ImportedDef>
    decreases |src|
  {
    match ReadVarint(src)
    case Overlong => None
    case EndOfData => Some(ImportedDef(if local.Some? then local.value else source, source))
    case Got(key, rest) =>
      if key == FIELD1 || key == FIELD2 then
        match ReadBlob(rest)
        case Got(data, more) => if key == FIELD1 then ReadDef(more, data, local) else ReadDef(more, source, Some(data))
        case _ => None
      else ReadDef(rest, source, local)
  }

  datatype Stored = Stored(parts: seq<Name>, defs: Option<seq<ImportedDef>>)

  /** deserializeModuleImports: a name part after a symbol is refused. */
  function ReadModule(src: seq<Byte>, so: Stored): Option<Stored>
    decreases |src|
  {
    match ReadVarint(src)
    case Overlong => None
    case EndOfData => Some(so)
    case Got(key, rest) =>
      if key == FIELD1 then
        if so.defs.Some? then None
        else
          match ReadBlob(rest)
          case Got(part, more) => ReadModule(more, so.(parts := so.parts + [part]))
          case _ => None
      else if key == FIELD2 then
        match ReadBlob(rest)
        case Got(data, more) =>
          (match ReadDef(data, [], None)
           case None => None
           case Some(d) => ReadModule(more, so.(defs := Some((if so.defs.Some? then so.defs.value else []) + [d]))))
        case _ => None
      else ReadModule(rest, so)
  }

  predicate Small(n: Name) {
    |n| < WORD
  }

  lemma FieldRead(key: UInt32, data: seq<Byte>, tail: seq<Byte>)
    requires Small(data)
    ensures ReadVarint(Field(key, data) + tail) == Got(key, Blob(data) + tail)
    ensures ReadBlob(Blob(data) + tail) == Got(data, tail)
  {
    hide Varint, ReadVarint, Blob, ReadBlob;
    assert Field(key, data) + tail == Varint(key) + (Blob(data) + tail);
    VarintRoundTrip(key, Blob(data) + tail);
    BlobRoundTrip(data, tail);
  }

  lemma EndRead()
    ensures ReadVarint([]) == EndOfData
  {
  }

  lemma DefRoundTrip(d: ImportedDef)
    requires Small(d.local) && Small(d.source)
    ensures ReadDef(DefBytes(d), [], None) == Some(d)
  {
    hide ReadVarint, ReadBlob, Field, Blob;
    var tail := if d.local != d.source then Field(FIELD2, d.local) else [];
    FieldRead(FIELD1, d.source, tail);
    EndRead();
    if d.local != d.source {
      FieldRead(FIELD2, d.local, []);
      assert Field(FIELD2, d.local) + [] == tail;
      assert ReadDef([], d.source, Some(d.local)) == Some(d);
      assert ReadDef(tail, d.source, None) == Some(d);
    } else {
      assert ReadDef(tail, d.source, None) == Some(d);
    }
  }

  predicate Storable(ds: seq<ImportedDef>) {
    forall i :: 0 <= i < |ds| ==> Small(ds[i].local) && Small(ds[i].source) && Small(DefBytes(ds[i]))
  }

  lemma {:induction false} DefsRoundTrip(ds: seq<ImportedDef>, so: Stored)
    requires Storable(ds) && (ds == [] ==> so.defs.Some?)
    ensures ReadModule(DefsBytes(ds), so) == Some(so.(defs := Some((if so.defs.Some? then so.defs.value else []) + ds)))
    decreases |ds|
  {
    hide ReadVarint, ReadBlob, Field, Blob, ReadDef, DefBytes;
    EndRead();
    var have := if so.defs.Some? then so.defs.value else [];
    if ds == [] {
      assert have + [] == have;
    } else {
      var d, rest := ds[0], DefsBytes(ds[1..]);
      FieldRead(FIELD2, DefBytes(d), rest);
      DefRoundTrip(d);
      DefsRoundTrip(ds[1..], so.(defs := Some(have + [d])));
      assert have + [d] + ds[1..] == have + ds;
    }
  }

  lemma {:induction false} PartsRoundTrip(ps: seq<Name>, so: Stored, tail: seq<Byte>)
    requires (forall i :: 0 <= i < |ps| ==> Small(ps[i])) && so.defs.None?
    ensures ReadModule(PartsBytes(ps) + tail, so) == ReadModule(tail, so.(parts := so.parts + ps))
    decreases |ps|
  {
    hide ReadVarint, ReadBlob, Field, Blob, ReadDef;
    if ps == [] {
      assert PartsBytes(ps) + tail == tail && so.parts + ps == so.parts;
    } else {
      var rest := PartsBytes(ps[1..]) + tail;
      assert PartsBytes(ps) + tail == Field(FIELD1, ps[0]) + rest;
      FieldRead(FIELD1, ps[0], rest);
      PartsRoundTrip(ps[1..], so.(parts := so.parts + [ps[0]]), tail);
      assert so.parts + [ps[0]] + ps[1..] == so.parts + ps;
    }
  }

  /** A module's record reads back as its parts and its symbols in order. */
  lemma ModuleRoundTrip(ps: seq<Name>, ds: seq<ImportedDef>)
    requires (forall i :: 0 <= i < |ps| ==> Small(ps[i])) && Storable(ds) && ds != []
    ensures ReadModule(ModuleBytes(ps, ds), Stored([], None)) == Some(Stored(ps, Some(ds)))
  {
    hide ReadModule, PartsBytes, DefsBytes;
    PartsRoundTrip(ps, Stored([], None), DefsBytes(ds));
    DefsRoundTrip(ds, Stored(ps, None));
    assert [] + ps == ps && [] + ds == ds;
  }

  // ----- Reading everything back -----

  /** The registrations a module's record amounts to: not raw, under the joined name. */
  function Entries(so: Stored): seq<Entry> {
    if so.defs.None? then [] else Under(ModuleId(Join(so.parts), false), so.defs.value)
  }

  function Under(id: ModuleId, defs: seq<ImportedDef>): seq<Entry> {
    if defs == [] then [] else [Entry(id, defs[0])] + Under(id, defs[1..])
  }

  /** What storing and reading an index amounts to, module by module in the order of the map. */
  ghost function Reread(x: Index, order: seq<ModuleId>): seq<Entry>
    requires forall i :: 0 <= i < |order| ==> order[i] in x.imports && order[i] in x.parts
  {
    if order == [] then []
    else Entries(Stored(x.parts[order[0]], Some(x.imports[order[0]]))) + Reread(x, order[1..])
  }

  /** An enumeration of the modules, each once. */
  ghost predicate Enumerates(order: seq<ModuleId>, x: Index) {
    (forall id :: id in x.imports <==> id in order) && forall i, j :: 0 <= i < j < |order| ==> order[i] != order[j]
  }

  /** No local name is registered by two modules. */
  ghost predicate OneModuleEach(es: seq<Entry>) {
    forall i, j :: 0 <= i < |es| && 0 <= j < |es| && es[i].def.local == es[j].def.local ==> es[i].id == es[j].id
  }

  lemma {:induction false} FirstEntrySplits(a: seq<Entry>, b: seq<Entry>, local: Name)
    ensures FirstEntry(a + b, local) == if FirstEntry(a, local).Some? then FirstEntry(a, local)
      else FirstEntry(b, local)
    decreases |a|
  {
    if a == [] {
      assert a + b == b;
    } else {
      assert (a + b)[0] == a[0] && (a + b)[1..] == a[1..] + b;
      FirstEntrySplits(a[1..], b, local);
    }
  }

  lemma {:induction false} FirstOfModule(id: ModuleId, defs: seq<ImportedDef>, local: Name)
    ensures FirstEntry(Under(id, defs), local)
         == if FirstDef(defs, local).Some? then Some(Entry(id, FirstDef(defs, local).value)) else None
    decreases |defs|
  {
    if defs != [] {
      FirstOfModule(id, defs[1..], local);
      assert Under(id, defs)[1..] == Under(id, defs[1..]);
    }
  }

  /** The first module, in the given order, that has a symbol with the local name. */
  function Holder(x: Index, order: seq<ModuleId>, local: Name): Option<ModuleId>
    requires forall i :: 0 <= i < |order| ==> order[i] in x.imports
  {
    if order == [] then None
    else if FirstDef(x.imports[order[0]], local).Some? then Some(order[0])
    else Holder(x, order[1..], local)
  }

  /** Reading back finds a name in the first module that has it. */
  lemma {:induction false} RereadFirst(x: Index, es: seq<Entry>, order: seq<ModuleId>, local: Name)
    requires Describes(x, es) && forall i :: 0 <= i < |order| ==> order[i] in x.imports && !order[i].raw
    ensures var h := Holder(x, order, local);
      && (h.Some? ==> h.value in order && FirstDef(x.imports[h.value], local).Some?)
      && FirstEntry(Reread(x, order), local)
         == if h.Some? then Some(Entry(h.value, FirstDef(x.imports[h.value], local).value)) else None
    ensures (exists id :: id in order && FirstDef(x.imports[id], local).Some?) ==> Holder(x, order, local).Some?
    decreases |order|
  {
    if order != [] {
      var id := order[0];
      JoinedName(x, es, id);
      FirstOfModule(id, x.imports[id], local);
      var own := Entries(Stored(x.parts[id], Some(x.imports[id])));
      assert ModuleId(Join(x.parts[id]), false) == id && own == Under(id, x.imports[id]);
      FirstEntrySplits(own, Reread(x, order[1..]), local);
      RereadFirst(x, es, order[1..], local);
    }
  }

  lemma JoinedName(x: Index, es: seq<Entry>, id: ModuleId)
    requires Describes(x, es) && id in x.imports
    ensures Join(x.parts[id]) == id.name
  {
    SplitJoins(id.name, 0);
  }

  /** A module has a symbol with the local name exactly if the name's first registration is its own. */
  lemma InModule(es: seq<Entry>, id: ModuleId, local: Name)
    requires OneModuleEach(es)
    ensures var e := FirstEntry(es, local);
      FirstDef(Select(es, id), local) == if e.Some? && e.value.id == id then Some(e.value.def) else None
  {
    var e := FirstEntry(es, local);
    if e.Some? {
      FirstInModule(es, local);
    }
    if FirstDef(Select(es, id), local).Some? {
      var i := SelectedFrom(es, id, local);
      FirstExists(es, i);
      FirstInModule(es, local);
    }
  }

  lemma {:induction false} SelectedFrom(es: seq<Entry>, id: ModuleId, local: Name) returns (i: nat)
    requires FirstDef(Select(es, id), local).Some?
    ensures i < |es| && es[i].id == id && es[i].def.local == local
    decreases |es|
  {
    if es[0].id == id && es[0].def.local == local {
      i := 0;
    } else {
      var rest := Select(es[1..], id);
      if es[0].id == id {
        assert ([es[0].def] + rest)[1..] == rest;
      } else {
        assert [] + rest == rest;
      }
      i := SelectedFrom(es[1..], id, local);
      i := i + 1;
    }
  }

  lemma {:induction false} FirstExists(es: seq<Entry>, i: nat)
    requires i < |es|
    ensures FirstEntry(es, es[i].def.local).Some?
    decreases |es|
  {
    if i > 0 {
      FirstExists(es[1..], i - 1);
    }
  }

  /** The module that registered a local name first. */
  function Registrar(x: Index, local: Name): Option<ModuleId> {
    if local in x.byLocal then Some(x.byLocal[local]) else None
  }

  /** Storing and reading back, without raw shared libraries, keeps the answer for a name if and only if the
      first module in the order of the map that has the name is the one that registered it first. */
  lemma StoredAnswerAgreesIff(x: Index, es: seq<Entry>, order: seq<ModuleId>, y: Index, local: Name)
    requires Describes(x, es) && Enumerates(order, x) && Describes(y, Reread(x, order))
    requires forall id :: id in x.imports ==> !id.raw
    ensures Get(y, Reread(x, order), local) == Get(x, es, local) <==> Holder(x, order, local) == Registrar(x, local)
  {
    hide Describes, Reread, Parse, Join;
    InOrder(x, es, order);
    RereadFirst(x, es, order, local);
    GetIsFirst(x, es, local);
    GetIsFirst(y, Reread(x, order), local);
    ByLocal(x, es, local);
    var e, h := FirstEntry(es, local), Holder(x, order, local);
    if e.Some? {
      FirstInModule(es, local);
      FirstRegistered(x, es, local);
      SymbolsAre(x, es, e.value.id);
      assert h.Some?;
      SamePartsSameModule(h.value, e.value.id);
    } else if h.Some? {
      SymbolsAre(x, es, h.value);
      var i := SelectedFrom(es, h.value, local);
      FirstExists(es, i);
    }
  }

  lemma ByLocal(x: Index, es: seq<Entry>, local: Name)
    requires Describes(x, es)
    ensures local in x.byLocal <==> FirstEntry(es, local).Some?
    ensures local in x.byLocal ==> x.byLocal[local] == FirstEntry(es, local).value.id
  {
  }

  lemma SymbolsAre(x: Index, es: seq<Entry>, id: ModuleId)
    requires Describes(x, es) && id in x.imports
    ensures x.imports[id] == Select(es, id)
  {
  }

  lemma SamePartsSameModule(a: ModuleId, b: ModuleId)
    requires Parse(a.name).Some? && Parse(b.name).Some? && a.raw == b.raw
    ensures Parse(a.name) == Parse(b.name) ==> a == b
  {
    SplitJoins(a.name, 0);
    SplitJoins(b.name, 0);
  }

  /** So every answer is kept if no local name is registered by two modules. */
  lemma StoredAnswersAgree(x: Index, es: seq<Entry>, order: seq<ModuleId>, local: Name)
    requires Describes(x, es) && Enumerates(order, x) && OneModuleEach(es)
    requires forall id :: id in x.imports ==> !id.raw
    ensures Holder(x, order, local) == Registrar(x, local)
  {
    hide Describes, Reread;
    InOrder(x, es, order);
    RereadFirst(x, es, order, local);
    ByLocal(x, es, local);
    var e, h := FirstEntry(es, local), Holder(x, order, local);
    if e.Some? {
      FirstInModule(es, local);
      FirstRegistered(x, es, local);
      SymbolsAre(x, es, e.value.id);
    }
    if h.Some? {
      SymbolsAre(x, es, h.value);
      InModule(es, h.value, local);
    }
  }

  lemma InOrder(x: Index, es: seq<Entry>, order: seq<ModuleId>)
    requires Describes(x, es) && Enumerates(order, x)
    ensures forall i :: 0 <= i < |order| ==> order[i] in x.imports && order[i] in x.parts
  {
  }

  lemma FirstRegistered(x: Index, es: seq<Entry>, local: Name)
    requires Describes(x, es) && FirstEntry(es, local).Some?
    ensures FirstEntry(es, local).value.id in x.imports
  {
    FirstInModule(es, local);
    var e := FirstEntry(es, local).value;
    var i :| 0 <= i < |es| && es[i] == e;
    assert es[i].id == e.id;
  }

  lemma OneLetter(c: Byte)
    requires c != DOT && c != OPEN && c != CLOSE
    ensures Parse([c]) == Some([[c]])
  {
    assert [c][1..] == [];
    var r := Split([], 0).value;
    assert [c] + r[0] == [c] && [[c]] + r[1..] == [[c]];
  }

  /** Two modules with the same local name, and the order of the map is not that of their registration. */
  lemma SharedNamesMayMove() returns (es: seq<Entry>, order: seq<ModuleId>, local: Name)
    ensures Named(es) && Enumerates(order, Build(es)) && Describes(Build(es), es)
    ensures forall id :: id in Build(es).imports ==> !id.raw
    ensures Holder(Build(es), order, local) != Registrar(Build(es), local)
  {
    hide Build, Parse, Describes;
    var a, b := ModuleId([97], false), ModuleId([98], false);
    local := [120];
    var d := ImportedDef(local, local);
    es := [Entry(b, d), Entry(a, d)];
    order := [a, b];
    OneLetter(97);
    OneLetter(98);
    BuildDescribes(es);
    var x := Build(es);
    TwoModules(x, es, a, b, d);
    ByLocal(x, es, local);
  }

  lemma TwoModules(x: Index, es: seq<Entry>, a: ModuleId, b: ModuleId, d: ImportedDef)
    requires Describes(x, es) && a != b && es == [Entry(b, d), Entry(a, d)]
    ensures Enumerates([a, b], x) && x.imports[a] == [d] && a in x.parts && b in x.parts
  {
    hide Parse;
    assert es[0].id == b && es[1].id == a;
    assert es[1..] == [Entry(a, d)] && [Entry(a, d)][1..] == [];
    assert Select([Entry(a, d)], a) == [d];
  }
}
