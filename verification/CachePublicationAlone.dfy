/** What one undisturbed run of cacheModule leaves in the directory (model/Context.cc:325). */
module CachePublicationAlone {
  import opened CachePublication
  import opened CachePublicationReaders

  /** Where the run ends early: nowhere, or at the first of these operations that throws. */
  function Thrown(turns: Pc -> Turn): Option<Pc> {
    if turns(Serializing).Throw? then Some(Serializing)
    else if turns(Serialized).Throw? then Some(Serialized)
    else if turns(Cleaned).Throw? then Some(Cleaned)
    else if turns(Building).Throw? then Some(Building)
    else None
  }

  // ----- The disk before the moves -----

  function MetaWritten(u: nat, session: nat, lose: bool, d: Disk): Disk {
    var d1 := Create(d, MetaTemp(u), session);
    if lose then d1 else Complete(d1, MetaTemp(u), session)
  }

  function BuilderOpened(u: nat, session: nat, lose: bool, cleans: bool, d: Disk): Disk {
    var d2 := MetaWritten(u, session, lose, d);
    Create(if cleans then Unlink(d2, Builder) else d2, BuilderTemp(u), session)
  }

  function MetaContent(session: nat, lose: bool): Content {
    if lose then Partial(session) else Whole(session)
  }

  lemma MetaWrittenIs(u: nat, session: nat, lose: bool, d: Disk)
    requires InodesOk(d) && MetaTemp(u) !in d.dir
    ensures MetaWritten(u, session, lose, d)
         == Disk(d.dir[MetaTemp(u) := d.inodes], d.files[d.inodes := MetaContent(session, lose)], d.inodes + 1)
  {
  }

  lemma BuilderOpenedIs(u: nat, session: nat, lose: bool, cleans: bool, d: Disk)
    requires InodesOk(d) && MetaTemp(u) !in d.dir && BuilderTemp(u) !in d.dir
    ensures var i := d.inodes;
      BuilderOpened(u, session, lose, cleans, d)
        == Disk((if cleans then d.dir - {Builder} else d.dir)[MetaTemp(u) := i][BuilderTemp(u) := i + 1],
                d.files[i := MetaContent(session, lose)][i + 1 := Partial(session)], i + 2)
  {
    hide MetaWritten;
    MetaWrittenIs(u, session, lose, d);
    assert d.dir[MetaTemp(u) := d.inodes] - {Builder} == (d.dir - {Builder})[MetaTemp(u) := d.inodes];
  }

  // ----- The run -----

  /** Two new files stand at the canonical names, complete but for a metadata stream in error; no other name
      and no other file has changed, and the temporary names are gone. */
  lemma UndisturbedPublishes(u: nat, session: nat, turns: Pc -> Turn, cleans: bool, d: Disk)
    requires InodesOk(d) && MetaTemp(u) !in d.dir && BuilderTemp(u) !in d.dir && Thrown(turns).None?
    ensures var r := Alone(Writer(u, session, Serializing), turns, cleans, Create(d, MetaTemp(u), session));
      && r.dir == d.dir[Meta := d.inodes][Builder := d.inodes + 1]
      && r.files == d.files[d.inodes := if turns(Serializing).Lose? then Partial(session) else Whole(session)]
                           [d.inodes + 1 := Whole(session)]
  {
    hide Alone, Create, BuilderOpened, Moved, Complete;
    var lose := turns(Serializing).Lose?;
    var d4 := BuilderOpened(u, session, lose, cleans, d);
    var d5 := Complete(d4, BuilderTemp(u), session);
    OpenedAlone(u, session, turns, cleans, d);
    BuilderOpenedIs(u, session, lose, cleans, d);
    AloneStep(Writer(u, session, Building), turns, cleans, d4);
    MovedAlone(Writer(u, session, Built), turns, cleans, d5);
    FinishedAlone(Writer(u, session, MetaMoved(true)), turns, cleans, Moved(d5, MetaTemp(u), Meta));
    CompletedMoved(u, session, cleans, d, d4, d5);
  }

  lemma CompletedMoved(u: nat, session: nat, cleans: bool, d: Disk, d4: Disk, d5: Disk)
    requires MetaTemp(u) !in d.dir && BuilderTemp(u) !in d.dir && d5 == Complete(d4, BuilderTemp(u), session)
    requires var i := d.inodes;
      d4.dir == (if cleans then d.dir - {Builder} else d.dir)[MetaTemp(u) := i][BuilderTemp(u) := i + 1]
    ensures MetaTemp(u) in d5.dir && d5.files == d4.files[d.inodes + 1 := Whole(session)]
    ensures var r := Moved(Moved(d5, MetaTemp(u), Meta), BuilderTemp(u), Builder);
      r.dir == d.dir[Meta := d.inodes][Builder := d.inodes + 1] && r.files == d5.files
  {
  }

  lemma OpenedAlone(u: nat, session: nat, turns: Pc -> Turn, cleans: bool, d: Disk)
    requires Thrown(turns).None? || Thrown(turns) == Some(Building)
    ensures Alone(Writer(u, session, Serializing), turns, cleans, Create(d, MetaTemp(u), session))
         == Alone(Writer(u, session, Building), turns, cleans,
                  BuilderOpened(u, session, turns(Serializing).Lose?, cleans, d))
  {
    hide Alone, Create, Complete, Unlink;
    var w, d2 := Writer(u, session, Serialized), MetaWritten(u, session, turns(Serializing).Lose?, d);
    AloneStep(w.(pc := Serializing), turns, cleans, Create(d, MetaTemp(u), session));
    AloneStep(w, turns, cleans, d2);
    AloneStep(w.(pc := Cleaned), turns, cleans, if cleans then Unlink(d2, Builder) else d2);
  }

  /** After an exception the metadata file and all other files are as they were, the temporary names are
      gone, and so is the builder file if a builder that cleans up had come so far. */
  lemma ExceptionKeepsMetadata(u: nat, session: nat, turns: Pc -> Turn, cleans: bool, d: Disk)
    requires InodesOk(d) && MetaTemp(u) !in d.dir && BuilderTemp(u) !in d.dir && Thrown(turns).Some?
    ensures var r := Alone(Writer(u, session, Serializing), turns, cleans, Create(d, MetaTemp(u), session));
      && r.dir == (if cleans && Thrown(turns).value in {Cleaned, Building} then d.dir - {Builder} else d.dir)
      && forall i :: i in d.files ==> i in r.files && r.files[i] == d.files[i]
  {
    hide Alone, MetaWritten, BuilderOpened, Create, Unlink;
    var w, lose := Writer(u, session, Serialized), turns(Serializing).Lose?;
    var d1, d2 := Create(d, MetaTemp(u), session), MetaWritten(u, session, lose, d);
    if turns(Serializing).Throw? {
      AloneStep(w.(pc := Serializing), turns, cleans, d1);
      AloneStep(w.(pc := Done), turns, cleans, Unlink(d1, MetaTemp(u)));
      OpenedGone(u, session, d);
    } else if Thrown(turns) == Some(Building) {
      var d4 := BuilderOpened(u, session, lose, cleans, d);
      OpenedAlone(u, session, turns, cleans, d);
      AloneStep(w.(pc := Building), turns, cleans, d4);
      AbandonedAlone(w.(pc := Rescuing), turns, cleans, Unlink(d4, BuilderTemp(u)));
      BuiltGone(u, session, lose, cleans, d);
    } else {
      WrittenAlone(w, turns, cleans, d);
      AloneStep(w, turns, cleans, d2);
      var d3 := if cleans then Unlink(d2, Builder) else d2;
      AloneStep(w.(pc := Cleaned), turns, cleans, d3);
      AbandonedAlone(w.(pc := Rescuing), turns, cleans, d2);
      AbandonedAlone(w.(pc := Rescuing), turns, cleans, d3);
      WrittenGone(u, session, lose, d, d2);
    }
  }

  lemma OpenedGone(u: nat, session: nat, d: Disk)
    requires InodesOk(d) && MetaTemp(u) !in d.dir
    ensures var r := Unlink(Create(d, MetaTemp(u), session), MetaTemp(u));
      r.dir == d.dir && forall i :: i in d.files ==> i in r.files && r.files[i] == d.files[i]
  {
  }

  lemma WrittenGone(u: nat, session: nat, lose: bool, d: Disk, d2: Disk)
    requires InodesOk(d) && MetaTemp(u) !in d.dir && BuilderTemp(u) !in d.dir
    requires d2 == MetaWritten(u, session, lose, d)
    ensures Unlink(Unlink(d2, BuilderTemp(u)), MetaTemp(u)).dir == d.dir
    ensures Unlink(Unlink(Unlink(d2, Builder), BuilderTemp(u)), MetaTemp(u)).dir == d.dir - {Builder}
    ensures forall i :: i in d.files ==> i in d2.files && d2.files[i] == d.files[i]
    ensures forall p: Path, x: Disk :: Unlink(x, p).files == x.files
  {
    hide MetaWritten;
    MetaWrittenIs(u, session, lose, d);
  }

  lemma BuiltGone(u: nat, session: nat, lose: bool, cleans: bool, d: Disk)
    requires InodesOk(d) && MetaTemp(u) !in d.dir && BuilderTemp(u) !in d.dir
    ensures var d4 := BuilderOpened(u, session, lose, cleans, d);
      var r := Unlink(Unlink(Unlink(d4, BuilderTemp(u)), BuilderTemp(u)), MetaTemp(u));
      r.dir == (if cleans then d.dir - {Builder} else d.dir)
      && forall i :: i in d.files ==> i in r.files && r.files[i] == d.files[i]
  {
    hide BuilderOpened;
    BuilderOpenedIs(u, session, lose, cleans, d);
  }

  lemma WrittenAlone(w: Writer, turns: Pc -> Turn, cleans: bool, d: Disk)
    requires w.pc.Serialized? && !turns(Serializing).Throw?
    ensures Alone(w.(pc := Serializing), turns, cleans, Create(d, MetaTemp(w.u), w.session))
         == Alone(w, turns, cleans, MetaWritten(w.u, w.session, turns(Serializing).Lose?, d))
  {
    hide Alone, Create, Complete;
    AloneStep(w.(pc := Serializing), turns, cleans, Create(d, MetaTemp(w.u), w.session));
  }

  lemma AloneStep(w: Writer, turns: Pc -> Turn, cleans: bool, d: Disk)
    ensures Alone(w, turns, cleans, d)
         == if w.pc.Done? then d
            else var r := WriterStep(w, turns(w.pc), cleans, d); Alone(r.0, turns, cleans, r.1)
  {
  }

  /** A reader that has opened a damaged metadata file takes the name away, whatever file has the name by
      then; one that has opened a complete file does not. */
  lemma DiscardIff(w: World, r: nat, cleans: bool)
    requires InodesOk(w.disk) && r in w.readers && w.readers[r].meta in w.disk.files && Meta in w.disk.dir
    ensures var v := Apply(w, Discard(r), cleans);
      && (Meta in v.disk.dir <==> w.disk.files[w.readers[r].meta].Whole?)
      && v.disk.dir - {Meta} == w.disk.dir - {Meta} && v.disk.files == w.disk.files
      && v.writers == w.writers && v.readers == w.readers
  {
  }
}
