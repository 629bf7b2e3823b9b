/** The lazy-import table as the code keeps it, and its trip through the module metadata. */
module LazyImportsCode {
  import opened Wire
  import opened CanonicalName
  import opened LI = LazyImports

  /** One module's symbols; a table refers to it by its number. */
  datatype ModuleImports = ModuleImports(moduleName: seq<Name>, raw: bool, defs: seq<ImportedDef>)

  function IdOf(m: ModuleImports): ModuleId {
    ModuleId(Join(m.moduleName), m.raw)
  }

  /** The objects made so far, the latest one for each module, and the one with the first registration of
      each local name, which may have been replaced in the map of modules since. */
  datatype Table = Table(objects: seq<ModuleImports>, byModule: map<ModuleId, nat>, byLocal: map<Name, nat>)

  ghost predicate Right(t: Table, es: seq<Entry>) {
    && (forall id :: id in t.byModule ==> t.byModule[id] < |t.objects| && IdOf(t.objects[t.byModule[id]]) == id)
    && (forall n :: n in t.byLocal <==> FirstEntry(es, n).Some?)
    && (forall n :: n in t.byLocal ==> t.byLocal[n] < |t.objects| && Leads(t.objects[t.byLocal[n]], es, n))
    && (forall k :: 0 <= k < |t.objects| ==> AllKnown(t.objects[k], es))
  }

  /** The first definition of the name in the object is its first registration. */
  predicate Leads(m: ModuleImports, es: seq<Entry>, n: Name) {
    var e := FirstEntry(es, n);
    e.Some? && FirstDef(m.defs, n) == Some(e.value.def) && IdOf(m) == e.value.id
  }

  ghost predicate AllKnown(m: ModuleImports, es: seq<Entry>) {
    forall n :: FirstDef(m.defs, n).Some? ==> FirstEntry(es, n).Some?
  }

  ghost function IndexOf(t: Table, es: seq<Entry>): Index
    requires Right(t, es)
  {
    Index(map id | id in t.byModule :: t.objects[t.byModule[id]].moduleName,
          map id | id in t.byModule :: t.objects[t.byModule[id]].defs,
          map n | n in t.byLocal :: IdOf(t.objects[t.byLocal[n]]))
  }

  /** addImportTo. */
  function AddSymbol(t: Table, k: nat, def: ImportedDef): Table
    requires k < |t.objects|
  {
    Table(t.objects[k := t.objects[k].(defs := t.objects[k].defs + [def])], t.byModule,
          if def.local in t.byLocal then t.byLocal else t.byLocal[def.local := k])
  }

  function NewModule(t: Table, m: ModuleImports): Table {
    t.(objects := t.objects + [m], byModule := t.byModule[IdOf(m) := |t.objects|])
  }

  /** A symbol at the end hides no other. */
  lemma AddedSymbol(m: ModuleImports, es: seq<Entry>, def: ImportedDef)
    requires AllKnown(m, es)
    ensures var m', es' := m.(defs := m.defs + [def]), es + [Entry(IdOf(m), def)];
      && AllKnown(m', es') && IdOf(m') == IdOf(m)
      && (FirstEntry(es, def.local).None? ==> Leads(m', es', def.local))
      && forall n :: Leads(m, es, n) ==> Leads(m', es', n)
  {
    hide Join;
    var e := Entry(IdOf(m), def);
    forall n
      ensures FirstDef(m.defs + [def], n)
           == if FirstDef(m.defs, n).Some? then FirstDef(m.defs, n) else if def.local == n then Some(def) else None
      ensures FirstEntry(es + [e], n)
           == if FirstEntry(es, n).Some? then FirstEntry(es, n) else if def.local == n then Some(e) else None
    {
      FirstDefAppend(m.defs, def, n);
      FirstEntryAppend(es, e, n);
    }
  }

  /** Another object is as good as it was. */
  lemma OtherSymbol(m: ModuleImports, es: seq<Entry>, e: Entry)
    ensures AllKnown(m, es) ==> AllKnown(m, es + [e])
    ensures forall n :: Leads(m, es, n) ==> Leads(m, es + [e], n)
    ensures forall n :: FirstEntry(es + [e], n).Some? <==> FirstEntry(es, n).Some? || e.def.local == n
  {
    hide Join;
    forall n ensures FirstEntry(es + [e], n)
        == if FirstEntry(es, n).Some? then FirstEntry(es, n) else if e.def.local == n then Some(e) else None {
      FirstEntryAppend(es, e, n);
    }
  }

  lemma AddSymbolRight(t: Table, k: nat, def: ImportedDef, es: seq<Entry>)
    requires Right(t, es) && k < |t.objects|
    ensures Right(AddSymbol(t, k, def), es + [Entry(IdOf(t.objects[k]), def)])
  {
    hide Leads, AllKnown, IdOf, FirstEntry;
    var m, e, t' := t.objects[k], Entry(IdOf(t.objects[k]), def), AddSymbol(t, k, def);
    AddedSymbol(m, es, def);
    assert IdOf(t'.objects[k]) == IdOf(m);
    OtherSymbol(m, es, e);
    forall j | 0 <= j < |t'.objects| ensures AllKnown(t'.objects[j], es + [e]) {
      if j != k {
        OtherSymbol(t.objects[j], es, e);
      }
    }
    forall n | n in t'.byLocal ensures Leads(t'.objects[t'.byLocal[n]], es + [e], n) {
      if n in t.byLocal {
        OtherSymbol(t.objects[t.byLocal[n]], es, e);
      }
    }
  }

  lemma SameId(m: ModuleImports, def: ImportedDef)
    ensures IdOf(m.(defs := m.defs + [def])) == IdOf(m)
  {
  }

  lemma RightNames(t: Table, es: seq<Entry>)
    requires Right(t, es)
    ensures forall n :: n in t.byLocal ==> t.byLocal[n] < |t.objects|
  {
  }

  lemma AddSymbolModules(t: Table, k: nat, def: ImportedDef, es: seq<Entry>)
    requires Right(t, es) && k < |t.objects| && Right(AddSymbol(t, k, def), es + [Entry(IdOf(t.objects[k]), def)])
    requires var id := IdOf(t.objects[k]); id in t.byModule && t.byModule[id] == k
    ensures var id, x := IdOf(t.objects[k]), IndexOf(t, es);
      var x' := IndexOf(AddSymbol(t, k, def), es + [Entry(id, def)]);
      x'.parts == x.parts && id in x.imports && x'.imports == x.imports[id := x.imports[id] + [def]]
  {
    hide Right, IdOf, FirstEntry, IndexOf;
    SameId(t.objects[k], def);
    RightModules(t, es);
    var e, t' := Entry(IdOf(t.objects[k]), def), AddSymbol(t, k, def);
    IndexKeys(t, es);
    IndexKeys(t', es + [e]);
    forall a | a in t.byModule
      ensures var x, x' := IndexOf(t, es), IndexOf(t', es + [e]);
        x'.parts[a] == x.parts[a] && x'.imports[a] == if a == e.id then x.imports[a] + [def] else x.imports[a]
    {
      IndexAfter(t, k, def, es, a);
    }
  }

  lemma IndexAfter(t: Table, k: nat, def: ImportedDef, es: seq<Entry>, a: ModuleId)
    requires Right(t, es) && k < |t.objects| && Right(AddSymbol(t, k, def), es + [Entry(IdOf(t.objects[k]), def)])
    requires a in t.byModule && t.byModule[a] < |t.objects|
    requires var id := IdOf(t.objects[k]); id in t.byModule && t.byModule[id] == k
    ensures var id, x := IdOf(t.objects[k]), IndexOf(t, es);
      var x' := IndexOf(AddSymbol(t, k, def), es + [Entry(id, def)]);
      && a in x.parts && a in x'.parts && x'.parts[a] == x.parts[a] && a in x.imports && a in x'.imports
      && x'.imports[a] == if a == id then x.imports[a] + [def] else x.imports[a]
  {
    hide Right, IdOf, FirstEntry, IndexOf;
    RightModules(t, es);
    IndexAt(t, es, a);
    IndexAt(AddSymbol(t, k, def), es + [Entry(IdOf(t.objects[k]), def)], a);
  }

  lemma IndexKeys(t: Table, es: seq<Entry>)
    requires Right(t, es)
    ensures IndexOf(t, es).parts.Keys == t.byModule.Keys == IndexOf(t, es).imports.Keys
  {
    hide IdOf;
  }

  lemma IndexAt(t: Table, es: seq<Entry>, id: ModuleId)
    requires Right(t, es) && id in t.byModule
    ensures var x := IndexOf(t, es);
      && t.byModule[id] < |t.objects| && id in x.parts && x.parts[id] == t.objects[t.byModule[id]].moduleName
      && id in x.imports && x.imports[id] == t.objects[t.byModule[id]].defs
  {
    hide IdOf;
  }

  lemma AddSymbolNames(t: Table, k: nat, def: ImportedDef, es: seq<Entry>)
    requires Right(t, es) && k < |t.objects| && Right(AddSymbol(t, k, def), es + [Entry(IdOf(t.objects[k]), def)])
    requires var id := IdOf(t.objects[k]); id in t.byModule && t.byModule[id] == k
    ensures var id, x := IdOf(t.objects[k]), IndexOf(t, es);
      var x' := IndexOf(AddSymbol(t, k, def), es + [Entry(id, def)]);
      x'.byLocal == if def.local in x.byLocal then x.byLocal else x.byLocal[def.local := id]
  {
    hide Right, IdOf, FirstEntry;
    SameId(t.objects[k], def);
    RightModules(t, es);
    RightNames(t, es);
  }

  lemma AddSymbolIndex(t: Table, k: nat, def: ImportedDef, es: seq<Entry>)
    requires Right(t, es) && k < |t.objects| && Right(AddSymbol(t, k, def), es + [Entry(IdOf(t.objects[k]), def)])
    requires var id := IdOf(t.objects[k]); id in t.byModule && t.byModule[id] == k
    ensures var e := Entry(IdOf(t.objects[k]), def);
      e.id in IndexOf(t, es).imports && IndexOf(AddSymbol(t, k, def), es + [e]) == AddTo(IndexOf(t, es), e.id, def)
  {
    hide Right, IdOf, IndexOf, AddSymbol;
    AddSymbolModules(t, k, def, es);
    AddSymbolNames(t, k, def, es);
  }

  lemma NewModuleRight(t: Table, m: ModuleImports, es: seq<Entry>)
    requires Right(t, es) && m.defs == []
    ensures Right(NewModule(t, m), es)
    ensures IdOf(m) !in t.byModule ==> IndexOf(NewModule(t, m), es) == Enter(IndexOf(t, es), IdOf(m), m.moduleName)
  {
    hide Right, IdOf, IndexOf;
    NewIsRight(t, m, es);
    if IdOf(m) !in t.byModule {
      NewModuleIndex(t, m, es);
    }
  }

  lemma NewIsRight(t: Table, m: ModuleImports, es: seq<Entry>)
    requires Right(t, es) && m.defs == []
    ensures Right(NewModule(t, m), es)
  {
    hide Leads, FirstEntry, Join;
  }

  lemma NewModuleIndex(t: Table, m: ModuleImports, es: seq<Entry>)
    requires Right(t, es) && Right(NewModule(t, m), es) && m.defs == [] && IdOf(m) !in t.byModule
    ensures IndexOf(NewModule(t, m), es) == Enter(IndexOf(t, es), IdOf(m), m.moduleName)
  {
    hide Right, IdOf, IndexOf;
    var t' := NewModule(t, m);
    RightModules(t, es);
    IndexKeys(t, es);
    IndexKeys(t', es);
    var x, y := IndexOf(t', es), Enter(IndexOf(t, es), IdOf(m), m.moduleName);
    assert x.parts.Keys == y.parts.Keys && x.imports.Keys == y.imports.Keys;
    forall id | id in t'.byModule ensures x.parts[id] == y.parts[id] && x.imports[id] == y.imports[id] {
      IndexAt(t', es, id);
      if id != IdOf(m) {
        IndexAt(t, es, id);
      }
    }
    assert x.parts == y.parts && x.imports == y.imports;
    NewModuleNames(t, m, es);
  }

  lemma NewModuleNames(t: Table, m: ModuleImports, es: seq<Entry>)
    requires Right(t, es) && Right(NewModule(t, m), es)
    ensures IndexOf(NewModule(t, m), es).byLocal == IndexOf(t, es).byLocal
  {
    hide Right, IdOf, FirstEntry;
    RightModules(t, es);
    RightNames(t, es);
  }

  /** No object with a first registration has been replaced. */
  ghost predicate Unreplaced(t: Table, es: seq<Entry>)
    requires Right(t, es)
  {
    forall n :: n in t.byLocal ==>
      var id := IdOf(t.objects[t.byLocal[n]]); id in t.byModule && t.byModule[id] == t.byLocal[n]
  }

  ghost predicate PlainTable(t: Table, es: seq<Entry>)
    requires Right(t, es)
  {
    Unreplaced(t, es) && Describes(IndexOf(t, es), es)
  }

  lemma UnreplacedStep(t: Table, k: nat, def: ImportedDef, es: seq<Entry>)
    requires Right(t, es) && k < |t.objects| && Right(AddSymbol(t, k, def), es + [Entry(IdOf(t.objects[k]), def)])
    requires Unreplaced(t, es) && var id := IdOf(t.objects[k]); id in t.byModule && t.byModule[id] == k
    ensures Unreplaced(AddSymbol(t, k, def), es + [Entry(IdOf(t.objects[k]), def)])
  {
    hide Leads, AllKnown, FirstEntry, Join;
  }

  lemma UnreplacedNew(t: Table, m: ModuleImports, es: seq<Entry>)
    requires Right(t, es) && Right(NewModule(t, m), es) && Unreplaced(t, es) && IdOf(m) !in t.byModule
    ensures Unreplaced(NewModule(t, m), es)
  {
    hide Leads, AllKnown, FirstEntry, Join;
  }

  // ----- A whole record -----

  function AddAll(t: Table, k: nat, defs: seq<ImportedDef>): (r: Table)
    requires k < |t.objects|
    ensures |r.objects| == |t.objects|
  {
    if defs == [] then t else AddSymbol(AddAll(t, k, defs[..|defs| - 1]), k, defs[|defs| - 1])
  }

  lemma AddAllMore(t: Table, k: nat, defs: seq<ImportedDef>, d: ImportedDef)
    requires k < |t.objects|
    ensures AddAll(t, k, defs + [d]) == AddSymbol(AddAll(t, k, defs), k, d)
  {
    assert (defs + [d])[..|defs|] == defs;
  }

  lemma {:induction false} AddAllRight(t: Table, k: nat, defs: seq<ImportedDef>, es: seq<Entry>)
    requires Right(t, es) && k < |t.objects|
    ensures var r, m := AddAll(t, k, defs), t.objects[k];
      && Right(r, es + Under(IdOf(m), defs)) && r.byModule == t.byModule
      && r.objects == t.objects[k := m.(defs := m.defs + defs)]
    decreases |defs|
  {
    hide Right, Join;
    var m := t.objects[k];
    if defs == [] {
      assert es + Under(IdOf(m), defs) == es && m.defs + defs == m.defs;
    } else {
      var n := |defs| - 1;
      assert defs == defs[..n] + [defs[n]];
      AddAllRight(t, k, defs[..n], es);
      AddSymbolRight(AddAll(t, k, defs[..n]), k, defs[n], es + Under(IdOf(m), defs[..n]));
      UnderMore(IdOf(m), defs[..n], defs[n]);
      assert es + Under(IdOf(m), defs[..n]) + [Entry(IdOf(m), defs[n])] == es + Under(IdOf(m), defs);
      assert m.defs + defs[..n] + [defs[n]] == m.defs + defs;
    }
  }

  /** The record is of a module that the table does not have, under a name that splits into its parts. */
  predicate Enters(t: Table, so: Stored) {
    ModuleId(Join(so.parts), false) !in t.byModule && Parse(Join(so.parts)) == Some(so.parts)
  }

  lemma {:induction false} RecordPlain(t: Table, so: Stored, es: seq<Entry>)
    requires Right(t, es) && PlainTable(t, es) && so.defs.Some? && so.defs.value != [] && Enters(t, so)
    ensures var m := ModuleImports(so.parts, false, []); var r := AddAll(NewModule(t, m), |t.objects|, so.defs.value);
      Right(r, es + Entries(so)) && PlainTable(r, es + Entries(so))
    decreases so.defs.value
  {
    hide Right, IndexOf, Describes, Join, Parse, Unreplaced;
    var m, defs, k := ModuleImports(so.parts, false, []), so.defs.value, |t.objects|;
    var u, id, n := NewModule(t, m), IdOf(m), |so.defs.value| - 1;
    NewModuleRight(t, m, es);
    ImportKeys(t, es);
    AddAllRight(u, k, defs, es);
    AddAllRight(u, k, defs[..n], es);
    var v, es' := AddAll(u, k, defs[..n]), es + Under(id, defs[..n]);
    var e := Entry(id, defs[n]);
    assert defs == defs[..n] + [defs[n]];
    UnderMore(id, defs[..n], defs[n]);
    assert es' + [e] == es + Under(id, defs);
    assert v.objects[k].moduleName == so.parts && IdOf(v.objects[k]) == id;
    if n == 0 {
      assert defs[..n] == [] && es' == es && v == u;
      UnreplacedNew(t, m, es);
      AddDescribes(IndexOf(t, es), es, e);
    } else {
      RecordPlain(t, Stored(so.parts, Some(defs[..n])), es);
      IdKnown(v, es', id, k);
      AddDescribes(IndexOf(v, es'), es', e);
    }
    UnreplacedStep(v, k, defs[n], es');
    AddSymbolIndex(v, k, defs[n], es');
  }

  lemma IdKnown(t: Table, es: seq<Entry>, id: ModuleId, k: nat)
    requires Right(t, es) && id in t.byModule
    ensures id in IndexOf(t, es).imports
  {
  }

  class LazyImports {
    var objects: seq<ModuleImports>
    var byModule: map<ModuleId, nat>
    var byLocal: map<Name, nat>
    ghost var history: seq<Entry>

    constructor ()
      ensures Valid() && Plain() && history == []
    {
      objects, byModule, byLocal := [], map[], map[];
      history := [];
    }

    ghost function Value(): Table
      reads this
    {
      Table(objects, byModule, byLocal)
    }

    ghost predicate Valid()
      reads this
    {
      Right(Value(), history)
    }

    ghost function Contents(): Index
      requires Valid()
      reads this
    {
      IndexOf(Value(), history)
    }

    /** No module has been replaced. */
    ghost predicate Plain()
      requires Valid()
      reads this
    {
      PlainTable(Value(), history)
    }

    method AddImportTo(k: nat, def: ImportedDef)
      requires Valid() && k < |objects|
      modifies this
      ensures Valid() && Value() == old(AddSymbol(Value(), k, def))
      ensures history == old(history) + [Entry(IdOf(old(objects)[k]), def)]
    {
      hide Right;
      AddSymbolRight(Value(), k, def, history);
      history := history + [Entry(IdOf(objects[k]), def)];
      objects := objects[k := objects[k].(defs := objects[k].defs + [def])];
      if def.local !in byLocal {
        byLocal := byLocal[def.local := k];
      }
    }

    /** A module name that does not parse stops the program. */
    method AddImport(moduleName: Name, rawSharedLib: bool, def: ImportedDef)
      requires Valid() && Parse(moduleName).Some?
      modifies this
      ensures Valid() && history == old(history) + [Entry(ModuleId(moduleName, rawSharedLib), def)]
      ensures old(Plain()) ==> Plain()
    {
      hide Right, Describes, Parse, Join, IndexOf, IdOf, Unreplaced;
      var id := ModuleId(moduleName, rawSharedLib);
      ghost var t, es := Value(), history;
      RightModules(t, es);
      if id !in byModule {
        var parsed := ParseCanonicalName(moduleName);
        ParsedId(moduleName, rawSharedLib);
        ghost var m := ModuleImports(parsed.value, rawSharedLib, []);
        NewModuleRight(t, m, es);
        byModule := byModule[id := |objects|];
        objects := objects + [ModuleImports(parsed.value, rawSharedLib, [])];
        assert Value() == NewModule(t, m);
        RightModules(Value(), es);
      }
      ghost var t1 := Value();
      AddImportTo(byModule[id], def);
      AddSymbolIndex(t1, t1.byModule[id], def, es);
      if old(Plain()) {
        ImportKeys(t, es);
        if id !in t.byModule {
          UnreplacedNew(t, t1.objects[|t.objects|], es);
        }
        UnreplacedStep(t1, t1.byModule[id], def, es);
        AddDescribes(IndexOf(t, es), es, Entry(id, def));
      }
    }

    /** The first registration of the name.  The check that the object has a symbol with the name is never
        reached in vain. */
    method GetImport(localName: Name) returns (r: Option<Import>)
      requires Valid()
      ensures match FirstEntry(history, localName)
              case None => r == None
              case Some(e) => r.Some? && r.value.def == e.def && ModuleId(Join(r.value.parts), r.value.raw) == e.id
      ensures Plain() ==> r == Get(Contents(), history, localName)
    {
      hide Right, Join, Describes, IndexOf, FirstEntry, Parse;
      RightName(Value(), history, localName);
      if localName !in byLocal {
        NoAnswer(Value(), history, localName);
        return None;
      }
      var m := objects[byLocal[localName]];
      if Plain() {
        PlainAnswer(Value(), history, localName);
      }
      assert m.defs[0..] == m.defs;
      for i := 0 to |m.defs|
        invariant FirstDef(m.defs[i..], localName) == FirstDef(m.defs, localName)
      {
        assert m.defs[i..][0] == m.defs[i] && m.defs[i..][1..] == m.defs[i + 1..];
        if m.defs[i].local == localName {
          return Some(Import(m.moduleName, m.raw, m.defs[i]));
        }
      }
      assert false;
    }

    /** One module's record in a nested serializer, each symbol in one nested deeper. */
    method SerializeModule(m: ModuleImports) returns (record: seq<Byte>)
      ensures record == ModuleBytes(m.moduleName, m.defs)
    {
      hide Varint, Blob, Digested, PartsBytes, DefsBytes, DefBytes;
      var ps, ds := m.moduleName, m.defs;
      var objMap := new ObjMap();
      var sub := new Serializer(objMap);
      assert ps[0..] == ps && ds[0..] == ds && [] + PartsBytes(ps) == PartsBytes(ps);
      for i := 0 to |ps|
        invariant fresh(sub) && sub.dst + PartsBytes(ps[i..]) == PartsBytes(ps)
      {
        sub.WriteUInt(FIELD1);
        sub.WriteBlob(ps[i]);
        PartsStep(ps, i);
      }
      NoBytes(ps, ds);
      assert sub.dst + [] == sub.dst;
      for i := 0 to |ds|
        invariant fresh(sub) && sub.dst + DefsBytes(ds[i..]) == PartsBytes(ps) + DefsBytes(ds)
      {
        var symbol := SerializeSymbol(ds[i]);
        sub.WriteUInt(FIELD2);
        sub.WriteBlob(symbol);
        DefsStep(ds, i);
      }
      assert sub.dst + [] == sub.dst;
      record := sub.dst;
    }

    /** The local name is written only where it differs from the source name. */
    method SerializeSymbol(d: ImportedDef) returns (data: seq<Byte>)
      ensures data == DefBytes(d)
    {
      hide Varint, Blob, Digested;
      var objMap := new ObjMap();
      var sub := new Serializer(objMap);
      sub.WriteUInt(FIELD1);
      sub.WriteBlob(d.source);
      assert sub.dst == Field(FIELD1, d.source);
      if d.local != d.source {
        sub.WriteUInt(FIELD2);
        sub.WriteBlob(d.local);
        assert sub.dst == Field(FIELD1, d.source) + Field(FIELD2, d.local);
      }
      data := sub.dst;
    }

    /** The records of serialize, one for each module in the order of the map.  Each reads back as the
        module's name and symbols if they fit the length prefixes. */
    method Serialize(order: seq<ModuleId>) returns (records: seq<seq<Byte>>)
      requires Valid() && forall i :: 0 <= i < |order| ==> order[i] in byModule
      ensures |records| == |order|
      ensures forall i :: 0 <= i < |order| ==>
        var m := objects[byModule[order[i]]];
        && records[i] == ModuleBytes(m.moduleName, m.defs)
        && (m.defs != [] && SmallParts(m.moduleName) && Storable(m.defs) ==>
              ReadModule(records[i], Stored([], None)) == Some(Stored(m.moduleName, Some(m.defs))))
    {
      hide ModuleBytes, ReadModule;
      records := [];
      for i := 0 to |order|
        invariant |records| == i
        invariant forall j :: 0 <= j < i ==>
          var m := objects[byModule[order[j]]]; records[j] == ModuleBytes(m.moduleName, m.defs)
      {
        var record := SerializeModule(objects[byModule[order[i]]]);
        records := records + [record];
      }
      forall i | 0 <= i < |order|
        ensures var m := objects[byModule[order[i]]];
          m.defs != [] && SmallParts(m.moduleName) && Storable(m.defs) ==>
            ReadModule(records[i], Stored([], None)) == Some(Stored(m.moduleName, Some(m.defs)))
      {
        var m := objects[byModule[order[i]]];
        if m.defs != [] && SmallParts(m.moduleName) && Storable(m.defs) {
          ModuleRoundTrip(m.moduleName, m.defs);
        }
      }
    }

    /** deserializeImportSymbol; None for damaged data. */
    method DeserializeImportSymbol(data: seq<Byte>) returns (r: Option<ImportedDef>)
      ensures r == ReadDef(data, [], None)
    {
      hide ReadVarint, ReadBlob;
      var deser := new Deserializer(data);
      var source: Name, local: Name, gotLocal := [], [], false;
      while true
        invariant fresh(deser) && !deser.eof
        invariant ReadDef(deser.src, source, if gotLocal then Some(local) else None) == ReadDef(data, [], None)
        decreases |deser.src|
      {
        var header := deser.ReadUInt();
        match header {
          case Overlong => return None;
          case EndOfData =>
            if !gotLocal {
              local := source;
            }
            return Some(ImportedDef(local, source));
          case Got(key, _) =>
            if key == FIELD1 || key == FIELD2 {
              var text := deser.ReadBytes();
              if !text.Got? {
                return None;
              } else if key == FIELD1 {
                source := text.value;
              } else {
                local, gotLocal := text.value, true;
              }
            }
        }
      }
    }

    /** deserializeModuleImports; false for a damaged record, or for a name part after a symbol, which
        stops the program.  A record with symbols makes a new object with exactly these, under the joined
        name, in place of any the name had before; names registered before keep their objects. */
    method DeserializeModuleImports(data: seq<Byte>) returns (ok: bool)
      requires Valid()
      modifies this
      ensures Valid() && ok == ReadModule(data, Stored([], None)).Some?
      ensures ok ==> var so := ReadModule(data, Stored([], None)).value;
        && history == old(history) + Entries(so)
        && (so.defs.None? ==> objects == old(objects) && byModule == old(byModule) && byLocal == old(byLocal))
        && (so.defs.Some? ==>
              && byModule == old(byModule)[ModuleId(Join(so.parts), false) := |old(objects)|]
              && objects == old(objects) + [ModuleImports(so.parts, false, so.defs.value)])
        && (old(Plain()) && (so.defs.Some? ==> Enters(old(Value()), so)) ==> Plain())
    {
      hide Right, PlainTable, ReadVarint, ReadBlob, ReadDef, Parse, Join, AddAll, AddSymbol, Under, Entries, Enters;
      var deser := new Deserializer(data);
      var moduleName: seq<Name>, k, started := [], |objects|, false;
      ghost var t, es, defs: seq<ImportedDef>, id := Value(), history, [], ModuleId([], false);
      while true
        invariant fresh(deser) && !deser.eof && Valid() && k == |t.objects|
        invariant ReadModule(deser.src, Stored(moduleName, if started then Some(defs) else None))
               == ReadModule(data, Stored([], None))
        invariant !started ==> Value() == t && history == es && defs == []
        invariant started ==> defs != [] && id == ModuleId(Join(moduleName), false)
        invariant started ==> Value() == AddAll(NewModule(t, ModuleImports(moduleName, false, [])), k, defs)
        invariant started ==> history == es + Under(id, defs)
        decreases |deser.src|
      {
        var header := deser.ReadUInt();
        match header {
          case Overlong => return false;
          case EndOfData =>
            RecordRead(t, es, Stored(moduleName, if started then Some(defs) else None));
            return true;
          case Got(key, _) =>
            if key == FIELD1 {
              if started {
                return false;
              }
              var part := deser.ReadBytes();
              if !part.Got? {
                return false;
              }
              moduleName := moduleName + [part.value];
            } else if key == FIELD2 {
              var text := deser.ReadBytes();
              if !text.Got? {
                return false;
              }
              ghost var m := ModuleImports(moduleName, false, []);
              if !started {
                var name := JoinName(moduleName);
                NewModuleRight(t, m, es);
                objects := objects + [ModuleImports(moduleName, false, [])];
                byModule := byModule[ModuleId(name, false) := k];
                id, started := ModuleId(name, false), true;
                NothingAdded(NewModule(t, m), k, es, id);
                assert Value() == NewModule(t, m) == AddAll(NewModule(t, m), k, []);
              }
              var symbol := DeserializeImportSymbol(text.value);
              if symbol.None? {
                return false;
              }
              NewModuleRight(t, m, es);
              AddAllRight(NewModule(t, m), k, defs, es);
              AddImportTo(k, symbol.value);
              AddAllMore(NewModule(t, m), k, defs, symbol.value);
              UnderMore(id, defs, symbol.value);
              assert es + Under(id, defs) + [Entry(id, symbol.value)] == es + Under(id, defs + [symbol.value]);
              defs := defs + [symbol.value];
            }
        }
      }
    }

    /** A table read back from what another one wrote. */
    method Reload(records: seq<seq<Byte>>, ghost x: Index, ghost es: seq<Entry>, ghost order: seq<ModuleId>)
      returns (ok: bool)
      requires Valid() && Plain() && history == []
      requires Describes(x, es) && Enumerates(order, x) && |records| == |order|
      requires forall id :: id in x.imports ==> !id.raw && Fits(x, id)
      requires forall i :: 0 <= i < |order| && order[i] in x.imports && order[i] in x.parts ==>
        records[i] == ModuleBytes(x.parts[order[i]], x.imports[order[i]])
      modifies this
      ensures ok && Valid() && Plain()
      ensures forall local ::
        Get(Contents(), history, local) == Get(x, es, local) <==> HolderOf(x, order, local) == Registrar(x, local)
    {
      hide Describes, Parse, Entries, ModuleBytes, ReadModule, Fits, Reread, Holder, Join;
      InOrder(x, es, order);
      RereadNothing(x);
      assert order[..0] == [];
      for i := 0 to |records|
        invariant Valid() && Plain() && history == Reread(x, order[..i])
      {
        var id := order[i];
        RecordReads(x, es, id);
        NotYetRead(Contents(), history, x, es, order, i);
        var good := DeserializeModuleImports(records[i]);
        RereadMore(x, order, i);
      }
      assert order[..|order|] == order;
      ok := true;
      forall local
        ensures Get(Contents(), history, local) == Get(x, es, local) <==>
          HolderOf(x, order, local) == Registrar(x, local)
      {
        StoredAnswerAgreesIff(x, es, order, Contents(), local);
      }
    }
  }

  lemma {:induction false} FirstDefAppend(defs: seq<ImportedDef>, d: ImportedDef, n: Name)
    ensures FirstDef(defs + [d], n)
         == if FirstDef(defs, n).Some? then FirstDef(defs, n) else if d.local == n then Some(d) else None
    decreases |defs|
  {
    if defs == [] {
      assert defs + [d] == [d] && [d][1..] == [];
    } else {
      assert (defs + [d])[0] == defs[0] && (defs + [d])[1..] == defs[1..] + [d];
      FirstDefAppend(defs[1..], d, n);
    }
  }

  lemma ParsedId(name: Name, raw: bool)
    requires Parse(name).Some?
    ensures IdOf(ModuleImports(Parse(name).value, raw, [])) == ModuleId(name, raw)
  {
    SplitJoins(name, 0);
  }

  lemma RightModules(t: Table, es: seq<Entry>)
    requires Right(t, es)
    ensures forall id :: id in t.byModule ==> t.byModule[id] < |t.objects| && IdOf(t.objects[t.byModule[id]]) == id
  {
  }

  lemma ImportKeys(t: Table, es: seq<Entry>)
    requires Right(t, es)
    ensures IndexOf(t, es).imports.Keys == t.byModule.Keys
  {
  }

  lemma RightName(t: Table, es: seq<Entry>, n: Name)
    requires Right(t, es)
    ensures n in t.byLocal <==> FirstEntry(es, n).Some?
    ensures n in t.byLocal ==> t.byLocal[n] < |t.objects| && Leads(t.objects[t.byLocal[n]], es, n)
  {
  }

  lemma NoAnswer(t: Table, es: seq<Entry>, n: Name)
    requires Right(t, es) && n !in t.byLocal
    ensures PlainTable(t, es) ==> Get(IndexOf(t, es), es, n) == None
  {
    hide Join;
  }

  lemma PlainAnswer(t: Table, es: seq<Entry>, n: Name)
    requires Right(t, es) && n in t.byLocal && t.byLocal[n] < |t.objects| && PlainTable(t, es)
    ensures var m := t.objects[t.byLocal[n]];
      && FirstDef(m.defs, n).Some?
      && Get(IndexOf(t, es), es, n) == Some(Import(m.moduleName, m.raw, FirstDef(m.defs, n).value))
  {
    hide Describes, Parse, Right, Join, IndexOf;
    var x, m := IndexOf(t, es), t.objects[t.byLocal[n]];
    RightName(t, es, n);
    FirstInModule(es, n);
    ByLocal(x, es, n);
    GetIsFirst(x, es, n);
    NameParses(t, es, n);
  }

  /** In a table where no module was replaced the parts of a name are those of its module. */
  lemma NameParses(t: Table, es: seq<Entry>, n: Name)
    requires Right(t, es) && n in t.byLocal && t.byLocal[n] < |t.objects| && PlainTable(t, es)
    ensures Parse(IdOf(t.objects[t.byLocal[n]]).name) == Some(t.objects[t.byLocal[n]].moduleName)
  {
    hide Parse, Join;
  }

  lemma NothingAdded(t: Table, k: nat, es: seq<Entry>, id: ModuleId)
    requires k < |t.objects|
    ensures AddAll(t, k, []) == t && es + Under(id, []) == es
  {
  }

  /** What a whole record does to a table. */
  lemma RecordRead(t: Table, es: seq<Entry>, so: Stored)
    requires Right(t, es) && (so.defs.Some? ==> so.defs.value != [])
    ensures so.defs.None? ==> es + Entries(so) == es
    ensures so.defs.Some? ==>
      var r := AddAll(NewModule(t, ModuleImports(so.parts, false, [])), |t.objects|, so.defs.value);
      && Entries(so) == Under(ModuleId(Join(so.parts), false), so.defs.value)
      && r.byModule == t.byModule[ModuleId(Join(so.parts), false) := |t.objects|]
      && r.objects == t.objects + [ModuleImports(so.parts, false, so.defs.value)]
      && Right(r, es + Entries(so))
      && (PlainTable(t, es) && Enters(t, so) ==> PlainTable(r, es + Entries(so)))
  {
    hide Right, PlainTable, Join, Parse, Enters, AddAll;
    if so.defs.Some? {
      var m := ModuleImports(so.parts, false, []);
      NewModuleRight(t, m, es);
      AddAllRight(NewModule(t, m), |t.objects|, so.defs.value, es);
      assert [] + so.defs.value == so.defs.value;
      if PlainTable(t, es) && Enters(t, so) {
        RecordPlain(t, so, es);
      }
    }
  }

  predicate SmallParts(ps: seq<Name>) {
    forall i :: 0 <= i < |ps| ==> Small(ps[i])
  }

  /** Holder, for an order of modules of the table. */
  ghost function HolderOf(x: Index, order: seq<ModuleId>, local: Name): Option<ModuleId> {
    if forall i :: 0 <= i < |order| ==> order[i] in x.imports then Holder(x, order, local) else None
  }

  lemma NoBytes(ps: seq<Name>, ds: seq<ImportedDef>)
    ensures PartsBytes(ps[|ps|..]) == [] && DefsBytes(ds[|ds|..]) == []
  {
  }

  lemma PartsStep(ps: seq<Name>, i: nat)
    requires i < |ps|
    ensures PartsBytes(ps[i..]) == Varint(FIELD1) + Blob(ps[i]) + PartsBytes(ps[i + 1..])
  {
    hide Varint, Blob;
    assert ps[i..][0] == ps[i] && ps[i..][1..] == ps[i + 1..];
  }

  lemma DefsStep(ds: seq<ImportedDef>, i: nat)
    requires i < |ds|
    ensures DefsBytes(ds[i..]) == Varint(FIELD2) + Blob(DefBytes(ds[i])) + DefsBytes(ds[i + 1..])
  {
    hide Varint, Blob, DefBytes;
    assert ds[i..][0] == ds[i] && ds[i..][1..] == ds[i + 1..];
  }

  /** The module's record fits the 32-bit length prefixes. */
  ghost predicate Fits(x: Index, id: ModuleId) {
    id in x.parts && id in x.imports && Storable(x.imports[id]) && forall i :: 0 <= i < |x.parts[id]| ==>
      Small(x.parts[id][i])
  }

  lemma {:induction false} UnderMore(id: ModuleId, defs: seq<ImportedDef>, d: ImportedDef)
    ensures Under(id, defs + [d]) == Under(id, defs) + [Entry(id, d)]
    decreases |defs|
  {
    if defs == [] {
      assert defs + [d] == [d] && [d][1..] == [];
    } else {
      assert (defs + [d])[0] == defs[0] && (defs + [d])[1..] == defs[1..] + [d];
      UnderMore(id, defs[1..], d);
    }
  }

  lemma RereadNothing(x: Index)
    ensures Reread(x, []) == []
  {
  }

  /** A registered module has symbols, its parts join to its name, and its record reads back. */
  lemma RecordReads(x: Index, es: seq<Entry>, id: ModuleId)
    requires Describes(x, es) && id in x.imports && id in x.parts && Fits(x, id)
    ensures ReadModule(ModuleBytes(x.parts[id], x.imports[id]), Stored([], None)) ==
      Some(Stored(x.parts[id], Some(x.imports[id])))
    ensures x.imports[id] != [] && ModuleId(Join(x.parts[id]), id.raw) == id && Parse(id.name) == Some(x.parts[id])
  {
    hide ReadModule, ModuleBytes, Parse;
    JoinedName(x, es, id);
    var i :| 0 <= i < |es| && es[i].id == id;
    SelectedSome(es, i);
    ModuleRoundTrip(x.parts[id], x.imports[id]);
  }

  lemma {:induction false} SelectedSome(es: seq<Entry>, i: nat)
    requires i < |es|
    ensures Select(es, es[i].id) != []
    decreases |es|
  {
    if i > 0 {
      SelectedSome(es[1..], i - 1);
    }
  }

  /** Modules come one record each. */
  lemma NotYetRead(y: Index, read: seq<Entry>, x: Index, es: seq<Entry>, order: seq<ModuleId>, i: nat)
    requires Describes(y, read) && Describes(x, es) && Enumerates(order, x) && i < |order|
    requires forall j :: 0 <= j < |order| ==> order[j] in x.imports && order[j] in x.parts
    requires forall id :: id in x.imports ==> !id.raw
    requires read == Reread(x, order[..i])
    ensures order[i] !in y.imports
  {
    hide Reread;
    RereadIds(x, es, order[..i]);
    assert order[i] !in order[..i];
  }

  lemma {:induction false} RereadIds(x: Index, es: seq<Entry>, order: seq<ModuleId>)
    requires Describes(x, es) && forall j :: 0 <= j < |order| ==>
      order[j] in x.imports && order[j] in x.parts && !order[j].raw
    ensures forall k :: 0 <= k < |Reread(x, order)| ==> Reread(x, order)[k].id in order
    decreases |order|
  {
    hide Describes, Join, Under;
    if order != [] {
      var id := order[0];
      JoinedName(x, es, id);
      UnderIds(id, x.imports[id]);
      RereadIds(x, es, order[1..]);
      assert ModuleId(Join(x.parts[id]), false) == id;
      var own := Under(id, x.imports[id]);
      assert Reread(x, order) == own + Reread(x, order[1..]);
      forall k | 0 <= k < |Reread(x, order)| ensures Reread(x, order)[k].id in order {
        if k >= |own| {
          assert Reread(x, order[1..])[k - |own|].id in order[1..];
        }
      }
    }
  }

  lemma {:induction false} UnderIds(id: ModuleId, defs: seq<ImportedDef>)
    ensures forall k :: 0 <= k < |Under(id, defs)| ==> Under(id, defs)[k].id == id
    decreases |defs|
  {
    if defs != [] {
      UnderIds(id, defs[1..]);
    }
  }

  lemma {:induction false} RereadAppend(x: Index, a: seq<ModuleId>, id: ModuleId)
    requires (forall j :: 0 <= j < |a| ==> a[j] in x.imports && a[j] in x.parts) && id in x.imports && id in x.parts
    ensures Reread(x, a + [id]) == Reread(x, a) + Entries(Stored(x.parts[id], Some(x.imports[id])))
    decreases |a|
  {
    hide Entries;
    if a == [] {
      assert a + [id] == [id] && [id][1..] == [];
      var own := Entries(Stored(x.parts[id], Some(x.imports[id])));
      assert own + [] == own && [] + own == own;
    } else {
      assert (a + [id])[0] == a[0] && (a + [id])[1..] == a[1..] + [id];
      RereadAppend(x, a[1..], id);
    }
  }

  lemma RereadMore(x: Index, order: seq<ModuleId>, i: nat)
    requires (forall j :: 0 <= j < |order| ==> order[j] in x.imports && order[j] in x.parts) && i < |order|
    ensures Reread(x, order[..i + 1]) ==
      Reread(x, order[..i]) + Entries(Stored(x.parts[order[i]], Some(x.imports[order[i]])))
  {
    assert order[..i + 1] == order[..i] + [order[i]];
    RereadAppend(x, order[..i], order[i]);
  }
}
