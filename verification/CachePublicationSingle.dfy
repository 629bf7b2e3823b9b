/**
 * When a reader finds a builder file older than the metadata it has opened: exactly the operations that
 * bring this about, for any number of writers, what is left of them with one writer at a time, and the
 * interleavings that break this and the other promises.
 */
module CachePublicationSingle {
  import opened CachePublication
  import opened CachePublicationSafety
  import opened CachePublicationReaders

  function Author(d: Disk, i: nat): nat {
    if i in d.files then d.files[i].author else 0
  }

  /** No builder file at or after the canonical name is older than the metadata it goes with. */
  ghost predicate InStep(w: World) {
    && (Meta in w.disk.dir && Builder in w.disk.dir ==>
          Author(w.disk, w.disk.dir[Meta]) <= Author(w.disk, w.disk.dir[Builder]))
    && forall r :: r in w.readers ==>
         && (Builder in w.disk.dir ==>
               Author(w.disk, w.readers[r].meta) <= Author(w.disk, w.disk.dir[Builder]))
         && (w.readers[r].builder.Some? ==>
               Author(w.disk, w.readers[r].meta) <= Author(w.disk, w.readers[r].builder.value))
  }

  /** The reader holds metadata and an older builder file. */
  ghost predicate HoldsOld(w: World, r: nat) {
    && r in w.readers && w.readers[r].builder.Some?
    && Author(w.disk, w.readers[r].builder.value) < Author(w.disk, w.readers[r].meta)
  }

  /** In step means that no reader holds an old file, and none that opens files now gets one. */
  lemma InStepIffNoneFound(w: World, cleans: bool)
    ensures InStep(w) <==> forall r: nat ::
      && !HoldsOld(w, r) && !HoldsOld(Apply(w, OpenBuilder(r), cleans), r)
      && !HoldsOld(Apply(Apply(w, OpenMeta(r), cleans), OpenBuilder(r), cleans), r)
  {
    if Meta in w.disk.dir && Builder in w.disk.dir {
      var w' := Apply(Apply(w, OpenMeta(0), cleans), OpenBuilder(0), cleans);
      assert w'.readers[0] == Reader(w.disk.dir[Meta], Some(w.disk.dir[Builder]));
      assert HoldsOld(w', 0) <==> Author(w.disk, w.disk.dir[Builder]) < Author(w.disk, w.disk.dir[Meta]);
    }
    if !InStep(w) && (Meta in w.disk.dir && Builder in w.disk.dir ==>
         Author(w.disk, w.disk.dir[Meta]) <= Author(w.disk, w.disk.dir[Builder])) {
      var r :| r in w.readers &&
        ((Builder in w.disk.dir && Author(w.disk, w.readers[r].meta) > Author(w.disk, w.disk.dir[Builder]))
         || (w.readers[r].builder.Some? &&
             Author(w.disk, w.readers[r].meta) > Author(w.disk, w.readers[r].builder.value)));
      assert HoldsOld(w, r) || HoldsOld(Apply(w, OpenBuilder(r), cleans), r);
    }
  }

  // ----- Exactly when -----

  /** The two operations that put an old builder file next to newer metadata: moving the metadata into
      place beside it, and moving it into place beside the metadata or behind a reader's back. */
  ghost predicate Outdates(w: World, e: Event) {
    e.Write? && e.session in w.writers &&
    var u, d := w.writers[e.session].u, w.disk;
    match w.writers[e.session].pc
    case MetaUnlinked =>
      && CanLink(d, MetaTemp(u), Meta) && Builder in d.dir
      && Author(d, d.dir[Builder]) < Author(d, d.dir[MetaTemp(u)])
    case BuilderUnlinked =>
      CanLink(d, BuilderTemp(u), Builder) &&
      var a := Author(d, d.dir[BuilderTemp(u)]);
      (Meta in d.dir && a < Author(d, d.dir[Meta])) || exists r :: r in w.readers && a < Author(d, w.readers[r].meta)
    case _ => false
  }

  /** A file that is being written has not been published. */
  ghost predicate Fresh(w: World) {
    forall n :: n in w.writers ==>
      var x := w.writers[n];
      && (x.pc.Serializing? && MetaTemp(x.u) in w.disk.dir ==> !Published(w, w.disk.dir[MetaTemp(x.u)]))
      && (x.pc.Building? && BuilderTemp(x.u) in w.disk.dir ==> !Published(w, w.disk.dir[BuilderTemp(x.u)]))
  }

  ghost predicate Tidy(w: World) {
    Owned(w) && Sane(w) && Apart(w.disk) && Fresh(w)
  }

  lemma PublishedBefore(w: World, e: Event, cleans: bool, i: nat)
    requires Published(Apply(w, e, cleans), i)
    ensures Published(w, i)
         || (e.Write? && e.session in w.writers &&
             var x := w.writers[e.session];
             || (x.pc.MetaUnlinked? && MetaTemp(x.u) in w.disk.dir && w.disk.dir[MetaTemp(x.u)] == i)
             || (x.pc.BuilderUnlinked? && BuilderTemp(x.u) in w.disk.dir && w.disk.dir[BuilderTemp(x.u)] == i))
  {
    hide NameFree;
  }

  lemma FreshStep(w: World, e: Event, cleans: bool)
    requires Tidy(w) && !Damages(w, e)
    ensures Fresh(Apply(w, e, cleans))
  {
    hide Sane, Published, WriterStep, NameFree, Damages;
    var w' := Apply(w, e, cleans);
    forall n | n in w'.writers
      ensures var x := w'.writers[n];
        && (x.pc.Serializing? && MetaTemp(x.u) in w'.disk.dir ==> !Published(w', w'.disk.dir[MetaTemp(x.u)]))
        && (x.pc.Building? && BuilderTemp(x.u) in w'.disk.dir ==> !Published(w', w'.disk.dir[BuilderTemp(x.u)]))
    {
      var x := w'.writers[n];
      if x.pc.Serializing? && MetaTemp(x.u) in w'.disk.dir {
        FreshMeta(w, e, cleans, n);
      }
      if x.pc.Building? && BuilderTemp(x.u) in w'.disk.dir {
        FreshBuilder(w, e, cleans, n);
      }
    }
  }

  /** A file that is open has just been opened, or its writer has done nothing. */
  lemma OpenFiles(w: World, e: Event, cleans: bool, n: nat)
    requires Owned(w) && n in Apply(w, e, cleans).writers
    ensures var x, w' := Apply(w, e, cleans).writers[n], Apply(w, e, cleans);
      && (x.pc.Serializing? ==>
            || (n in w.writers && w.writers[n] == x && !(e.Write? && e.session == n))
            || (e.Start? && NameFree(w, e.u) && e.u == x.u && w'.disk == Create(w.disk, MetaTemp(x.u), w.clock)))
      && (x.pc.Building? && n in w.writers ==>
            || (w.writers[n] == x && !(e.Write? && e.session == n))
            || (e.Write? && e.session == n && w.writers[n].pc.Cleaned? && !e.turn.Throw? && w.writers[n].u == x.u
                && w'.disk == Create(w.disk, BuilderTemp(x.u), w.writers[n].session)))
      && (x.pc.Building? ==> n in w.writers)
  {
    hide NameFree;
  }

  lemma FreshMeta(w: World, e: Event, cleans: bool, n: nat)
    requires Tidy(w) && !Damages(w, e) && n in Apply(w, e, cleans).writers
    requires var x, d := Apply(w, e, cleans).writers[n], Apply(w, e, cleans).disk.dir;
      x.pc.Serializing? && MetaTemp(x.u) in d
    ensures var w' := Apply(w, e, cleans); !Published(w', w'.disk.dir[MetaTemp(w'.writers[n].u)])
  {
    hide Published, Owned, Apply, Intact, NameFree;
    var w' := Apply(w, e, cleans);
    var u := w'.writers[n].u;
    var i := w'.disk.dir[MetaTemp(u)];
    NewIsUnpublished(w);
    OpenFiles(w, e, cleans, n);
    OwnedMeans(w, n);
    if Published(w', i) {
      PublishedBefore(w, e, cleans, i);
      if n in w.writers && w.writers[n] == w'.writers[n] && !(e.Write? && e.session == n) {
        StaysApart(w, e, cleans, n, MetaTemp(u));
      }
    }
  }

  /** What another writer moves into place is another file, and a temporary name stays. */
  lemma StaysApart(w: World, e: Event, cleans: bool, n: nat, q: Path)
    requires Tidy(w) && n in w.writers && Temporary(q) && q.u == w.writers[n].u && !(e.Write? && e.session == n)
    ensures Untouched(w, Apply(w, e, cleans), q) && (q in w.disk.dir ==> w.disk.dir[q] in w.disk.files)
    ensures e.Write? && e.session in w.writers && q in w.disk.dir ==>
      var u := w.writers[e.session].u;
      && (MetaTemp(u) in w.disk.dir ==> w.disk.dir[MetaTemp(u)] != w.disk.dir[q])
      && (BuilderTemp(u) in w.disk.dir ==> w.disk.dir[BuilderTemp(u)] != w.disk.dir[q])
  {
    hide Apply, Published, Owned, Intact;
    OwnedMeans(w, n);
    OthersUntouched(w, e, cleans, q);
  }

  lemma FreshBuilder(w: World, e: Event, cleans: bool, n: nat)
    requires Tidy(w) && !Damages(w, e) && n in Apply(w, e, cleans).writers
    requires var x, d := Apply(w, e, cleans).writers[n], Apply(w, e, cleans).disk.dir;
      x.pc.Building? && BuilderTemp(x.u) in d
    ensures var w' := Apply(w, e, cleans); !Published(w', w'.disk.dir[BuilderTemp(w'.writers[n].u)])
  {
    hide Published, Owned, Apply, Intact, NameFree;
    var w' := Apply(w, e, cleans);
    var u := w'.writers[n].u;
    var i := w'.disk.dir[BuilderTemp(u)];
    NewIsUnpublished(w);
    OpenFiles(w, e, cleans, n);
    if Published(w', i) {
      PublishedBefore(w, e, cleans, i);
      if w.writers[n] == w'.writers[n] && !(e.Write? && e.session == n) {
        StaysApart(w, e, cleans, n, BuilderTemp(u));
      }
    }
  }

  lemma NewIsUnpublished(w: World)
    requires Sane(w)
    ensures !Published(w, w.disk.inodes)
  {
  }

  lemma OwnedMeans(w: World, n: nat)
    requires Owned(w)
    ensures n in w.writers ==> n < w.clock && w.writers[n].session == n
    ensures n in w.writers ==> forall m :: m in w.writers && m != n ==> w.writers[m].u != w.writers[n].u
  {
  }

  lemma TidyStep(w: World, e: Event, cleans: bool)
    requires Tidy(w) && !Damages(w, e)
    ensures Tidy(Apply(w, e, cleans))
  {
    hide Apply, Owned, Apart, Fresh, InodesOk, Intact, Damages;
    OwnedStep(w, e, cleans);
    ApartStep(w, e, cleans);
    DamagesIff(w, e, cleans);
    FreshStep(w, e, cleans);
  }

  /** An operation that does no damage leaves the authors of published files alone. */
  lemma AuthorsKept(w: World, e: Event, cleans: bool, i: nat)
    requires Tidy(w) && !Damages(w, e) && Published(w, i)
    ensures Author(Apply(w, e, cleans).disk, i) == Author(w.disk, i)
  {
    hide Published, Apart, Owned, Intact;
    OwnedMeans(w, if e.Write? then e.session else 0);
    PublishedThere(w, i);
    if e.Write? && e.session in w.writers {
      AuthorsKeptByWriter(w, e.session, e.turn, cleans, i);
    }
  }

  lemma PublishedThere(w: World, i: nat)
    requires Sane(w) && Published(w, i)
    ensures i in w.disk.files && i < w.disk.inodes
  {
  }

  lemma AuthorsKeptByWriter(w: World, n: nat, turn: Turn, cleans: bool, i: nat)
    requires Fresh(w) && n in w.writers && !Damages(w, Write(n, turn)) && Published(w, i) && i in w.disk.files
    requires i < w.disk.inodes
    ensures Author(Apply(w, Write(n, turn), cleans).disk, i) == Author(w.disk, i)
  {
    hide Published;
  }

  predicate Moves(w: World, e: Event) {
    e.Write? && e.session in w.writers &&
      (w.writers[e.session].pc.MetaUnlinked? || w.writers[e.session].pc.BuilderUnlinked?)
  }

  /** What stays at the canonical names, and what readers get, when nothing is moved into place. */
  lemma NothingMoved(w: World, e: Event, cleans: bool)
    requires !Moves(w, e)
    ensures var w' := Apply(w, e, cleans);
      && (forall p :: (p == Meta || p == Builder) && p in w'.disk.dir ==>
            p in w.disk.dir && w'.disk.dir[p] == w.disk.dir[p])
      && forall r :: r in w'.readers ==>
           var x := w'.readers[r];
           || (r in w.readers && x == w.readers[r])
           || (Meta in w.disk.dir && x == Reader(w.disk.dir[Meta], None))
           || (r in w.readers && Builder in w.disk.dir && x == w.readers[r].(builder := Some(w.disk.dir[Builder])))
  {
    hide NameFree;
  }

  lemma KeptInStep(w: World, e: Event, cleans: bool)
    requires Tidy(w) && InStep(w) && !Damages(w, e) && !Moves(w, e)
    ensures InStep(Apply(w, e, cleans))
  {
    hide Apply, Damages, Tidy, Author, Moves;
    var w' := Apply(w, e, cleans);
    NothingMoved(w, e, cleans);
    forall i | Published(w, i) ensures Author(w'.disk, i) == Author(w.disk, i) {
      AuthorsKept(w, e, cleans, i);
    }
    assert Meta in w.disk.dir ==> Published(w, w.disk.dir[Meta]);
    assert Builder in w.disk.dir ==> Published(w, w.disk.dir[Builder]);
    assert forall r :: r in w.readers ==> Published(w, w.readers[r].meta);
    assert forall r :: r in w.readers && w.readers[r].builder.Some? ==> Published(w, w.readers[r].builder.value);
  }

  /** An operation that does no damage keeps everything in step if and only if it is neither of the two. */
  lemma OutdatesIff(w: World, e: Event, cleans: bool)
    requires Tidy(w) && InStep(w) && !Damages(w, e)
    ensures InStep(Apply(w, e, cleans)) <==> !Outdates(w, e)
  {
    if Moves(w, e) {
      MovedInStepIff(w, e, cleans);
    } else {
      hide Apply, Damages, Tidy, InStep;
      KeptInStep(w, e, cleans);
    }
  }

  lemma MovedInStepIff(w: World, e: Event, cleans: bool)
    requires InStep(w) && Moves(w, e)
    ensures InStep(Apply(w, e, cleans)) <==> !Outdates(w, e)
  {
    hide Damages;
    var x, w' := w.writers[e.session], Apply(w, e, cleans);
    if x.pc.MetaUnlinked? {
      assert w'.disk == Link(w.disk, MetaTemp(x.u), Meta) && w'.readers == w.readers;
    } else {
      assert w'.disk == Link(w.disk, BuilderTemp(x.u), Builder) && w'.readers == w.readers;
    }
  }

  ghost predicate InStepThroughout(w: World, es: seq<Event>, cleans: bool)
    decreases |es|
  {
    InStep(w) && (es == [] || InStepThroughout(Apply(w, es[0], cleans), es[1..], cleans))
  }

  ghost predicate NeverOutdates(w: World, es: seq<Event>, cleans: bool)
    decreases |es|
  {
    es == [] || (!Outdates(w, es[0]) && NeverOutdates(Apply(w, es[0], cleans), es[1..], cleans))
  }

  lemma {:induction false} InStepThroughoutIff(w: World, es: seq<Event>, cleans: bool)
    requires Tidy(w) && InStep(w) && NoDamage(w, es, cleans)
    ensures InStepThroughout(w, es, cleans) <==> NeverOutdates(w, es, cleans)
    ensures NeverOutdates(w, es, cleans) ==> InStep(Run(w, es, cleans))
    decreases |es|
  {
    hide Apply, Damages, Tidy, InStep, Outdates;
    if es != [] {
      OutdatesIff(w, es[0], cleans);
      TidyStep(w, es[0], cleans);
      var w1 := Apply(w, es[0], cleans);
      if InStep(w1) {
        InStepThroughoutIff(w1, es[1..], cleans);
      } else {
        assert !InStepThroughout(w1, es[1..], cleans);
      }
    }
  }

  lemma TidyStart()
    ensures Tidy(EMPTY) && InStep(EMPTY)
  {
    NothingYet();
  }

  /** For any number of writers and any builder, over every run without damage: no reader can find an old
      builder file, at any time, if and only if neither of the two operations happens. */
  lemma OldBuilderFileIff(es: seq<Event>, cleans: bool)
    requires NoDamage(EMPTY, es, cleans)
    ensures InStepThroughout(EMPTY, es, cleans) <==> NeverOutdates(EMPTY, es, cleans)
  {
    TidyStart();
    InStepThroughoutIff(EMPTY, es, cleans);
  }

  // ----- One writer at a time -----

  /** Sessions follow one another. */
  predicate Solo(w: World, e: Event) {
    e.Start? ==> w.writers == map[]
  }

  predicate SoloRun(w: World, es: seq<Event>, cleans: bool)
    decreases |es|
  {
    es == [] || (Solo(w, es[0]) && SoloRun(Apply(w, es[0], cleans), es[1..], cleans))
  }

  /** The metadata is moved into place while a builder file is in place. */
  predicate MovesOver(w: World, e: Event) {
    && e.Write? && e.session in w.writers && w.writers[e.session].pc.MetaUnlinked?
    && CanLink(w.disk, MetaTemp(w.writers[e.session].u), Meta) && Builder in w.disk.dir
  }

  predicate NeverMovesOver(w: World, es: seq<Event>, cleans: bool)
    decreases |es|
  {
    es == [] || (!MovesOver(w, es[0]) && NeverMovesOver(Apply(w, es[0], cleans), es[1..], cleans))
  }

  /** Until its builder file is in place. */
  predicate Early(pc: Pc) {
    || pc.Serializing? || pc.Serialized? || pc.Cleaned? || pc.Building? || pc.Built? || pc.MetaUnlinked? ||
      pc.MetaLinked?
    || pc.MetaMoved? || pc.BuilderUnlinked?
  }

  /** The only writer is the latest session; its own files, and no published builder file, are its own. */
  ghost predicate Latest(w: World) {
    && (forall i :: i in w.disk.files ==> w.disk.files[i].author < w.clock)
    && (forall n :: n in w.writers ==> n == w.clock - 1)
    && forall n :: n in w.writers ==>
         var x := w.writers[n];
         && (Early(x.pc) && Builder in w.disk.dir ==> Author(w.disk, w.disk.dir[Builder]) < n)
         && (Early(x.pc) && MetaTemp(x.u) in w.disk.dir ==> Author(w.disk, w.disk.dir[MetaTemp(x.u)]) == n)
         && (HoldsBuilder(x.pc) && Early(x.pc) && BuilderTemp(x.u) in w.disk.dir ==>
               Author(w.disk, w.disk.dir[BuilderTemp(x.u)]) == n)
  }

  lemma AuthorsBelow(w: World, n: nat, turn: Turn, cleans: bool)
    requires Latest(w) && Owned(w) && n in w.writers
    ensures var w' := Apply(w, Write(n, turn), cleans);
      w'.clock == w.clock && forall i :: i in w'.disk.files ==> w'.disk.files[i].author < w'.clock
  {
  }

  /** Of its own temporary files. */
  lemma OwnAuthors(w: World, n: nat, turn: Turn, cleans: bool)
    requires Latest(w) && Owned(w) && Apart(w.disk) && n in w.writers && n in Apply(w, Write(n, turn), cleans).writers
    ensures var w' := Apply(w, Write(n, turn), cleans); var x := w'.writers[n];
      && (Early(x.pc) && MetaTemp(x.u) in w'.disk.dir ==> Author(w'.disk, w'.disk.dir[MetaTemp(x.u)]) == n)
      && (HoldsBuilder(x.pc) && Early(x.pc) && BuilderTemp(x.u) in w'.disk.dir ==>
            Author(w'.disk, w'.disk.dir[BuilderTemp(x.u)]) == n)
  {
  }

  lemma StillEarly(w: World, n: nat, turn: Turn, cleans: bool)
    requires n in w.writers && n in Apply(w, Write(n, turn), cleans).writers
    requires Early(Apply(w, Write(n, turn), cleans).writers[n].pc)
    ensures Early(w.writers[n].pc)
    ensures var w' := Apply(w, Write(n, turn), cleans);
      Builder in w'.disk.dir ==> Builder in w.disk.dir && w'.disk.dir[Builder] == w.disk.dir[Builder]
  {
  }

  lemma LatestWrite(w: World, n: nat, turn: Turn, cleans: bool)
    requires Tidy(w) && Latest(w) && n in w.writers && !Damages(w, Write(n, turn))
    ensures Latest(Apply(w, Write(n, turn), cleans))
  {
    hide Intact, Apart, Fresh, Damages, WriterStep, Early, HoldsBuilder, Author;
    AuthorsBelow(w, n, turn, cleans);
    var w' := Apply(w, Write(n, turn), cleans);
    if n in w'.writers {
      OwnAuthors(w, n, turn, cleans);
      if Early(w'.writers[n].pc) {
        StillEarly(w, n, turn, cleans);
        if Builder in w'.disk.dir {
          assert Published(w, w.disk.dir[Builder]);
          AuthorsKept(w, Write(n, turn), cleans, w.disk.dir[Builder]);
        }
      }
    }
  }

  lemma LatestStart(w: World, u: nat, cleans: bool)
    requires Tidy(w) && Latest(w) && w.writers == map[] && !Damages(w, Start(u))
    ensures Latest(Apply(w, Start(u), cleans))
  {
    hide Intact, Owned;
    if Builder in w.disk.dir {
      assert Published(w, w.disk.dir[Builder]);
    }
  }

  lemma LatestStep(w: World, e: Event, cleans: bool)
    requires Tidy(w) && Latest(w) && !Damages(w, e) && Solo(w, e)
    ensures Latest(Apply(w, e, cleans))
  {
    match e
    case Start(u) => LatestStart(w, u, cleans);
    case Write(n, turn) =>
      if n in w.writers {
        LatestWrite(w, n, turn, cleans);
      }
    case _ =>
      hide Tidy, WriterStep, Published;
  }

  /** For the latest writer, outdating is moving metadata in beside a builder file, whoever's it is. */
  lemma SoloOutdatesIff(w: World, e: Event)
    requires Tidy(w) && Latest(w)
    ensures Outdates(w, e) <==> MovesOver(w, e)
  {
    hide Intact, Apart, Fresh, Published;
    if e.Write? && e.session in w.writers && w.writers[e.session].pc.BuilderUnlinked? {
      var a := e.session;
      assert forall i :: Author(w.disk, i) <= a;
    }
  }

  lemma {:induction false} SoloNeverIff(w: World, es: seq<Event>, cleans: bool)
    requires Tidy(w) && Latest(w) && SoloRun(w, es, cleans) && NoDamage(w, es, cleans)
    ensures NeverOutdates(w, es, cleans) <==> NeverMovesOver(w, es, cleans)
    decreases |es|
  {
    hide Apply, Damages, Tidy, Latest, Solo, Outdates, MovesOver;
    if es != [] {
      SoloOutdatesIff(w, es[0]);
      TidyStep(w, es[0], cleans);
      LatestStep(w, es[0], cleans);
      SoloNeverIff(Apply(w, es[0], cleans), es[1..], cleans);
    }
  }

  /** A single writer that has cleaned up finds no builder file when it moves its metadata. */
  ghost predicate Swept(w: World) {
    && (forall m, n :: m in w.writers && n in w.writers ==> m == n)
    && forall n :: n in w.writers ==>
         var pc := w.writers[n].pc;
         Early(pc) && !pc.Serializing? && !pc.Serialized? ==> Builder !in w.disk.dir
  }

  lemma SweptStep(w: World, e: Event)
    requires Swept(w) && Solo(w, e)
    ensures Swept(Apply(w, e, true))
  {
    hide NameFree;
  }

  lemma {:induction false} SweptNeverMovesOver(w: World, es: seq<Event>)
    requires Swept(w) && SoloRun(w, es, true)
    ensures NeverMovesOver(w, es, true)
    decreases |es|
  {
    hide Apply, Solo;
    if es != [] {
      SweptStep(w, es[0]);
      SweptNeverMovesOver(Apply(w, es[0], true), es[1..]);
    }
  }

  /** With one writer at a time, over every run without damage: no reader can find a builder file older
      than its metadata if and only if the metadata was never moved into place while a builder file was
      there; and a builder that cleans up sees to that. */
  lemma NeverAnOldBuilderFile(es: seq<Event>, cleans: bool)
    requires SoloRun(EMPTY, es, cleans) && NoDamage(EMPTY, es, cleans)
    ensures InStepThroughout(EMPTY, es, cleans) <==> NeverMovesOver(EMPTY, es, cleans)
    ensures cleans ==> NeverMovesOver(EMPTY, es, cleans)
    ensures NeverMovesOver(EMPTY, es, cleans) ==> forall r :: !HoldsOld(Run(EMPTY, es, cleans), r)
  {
    hide Apply, Damages;
    TidyStart();
    InStepThroughoutIff(EMPTY, es, cleans);
    SoloNeverIff(EMPTY, es, cleans);
    if cleans {
      SweptNeverMovesOver(EMPTY, es);
    }
  }

  // ----- Interleavings that break a promise -----

  function Writes(n: nat, k: nat): seq<Event> {
    if k == 0 then [] else [Write(n, Go)] + Writes(n, k - 1)
  }

  lemma RunWrites(w: World, n: nat, k: nat, cleans: bool)
    requires k > 0
    ensures Run(w, Writes(n, k), cleans) == Run(Apply(w, Write(n, Go), cleans), Writes(n, k - 1), cleans)
  {
    hide Apply;
    assert Writes(n, k)[1..] == Writes(n, k - 1);
  }

  /** The disk after a writer's first six operations, up to its metadata being in place. */
  function MetaInPlace(d: Disk, u: nat, n: nat, cleans: bool): Disk
    requires MetaTemp(u) in d.dir
  {
    var i := d.dir[MetaTemp(u)];
    Disk((d.dir - (if cleans then {Builder} else {}))[BuilderTemp(u) := d.inodes][Meta := i],
         d.files[i := Whole(n)][d.inodes := Whole(n)], d.inodes + 1)
  }

  lemma SixWrites(w: World, n: nat, cleans: bool)
    requires n in w.writers && w.writers[n].session == n && w.writers[n].pc.Serializing?
    requires MetaTemp(w.writers[n].u) in w.disk.dir && BuilderTemp(w.writers[n].u) !in w.disk.dir
    ensures var x := w.writers[n];
      Run(w, Writes(n, 6), cleans)
        == w.(disk := MetaInPlace(w.disk, x.u, n, cleans), writers := w.writers[n := x.(pc := MetaLinked(true))])
  {
    hide Run, Writes;
    var x := w.writers[n];
    var d1 := Complete(w.disk, MetaTemp(x.u), n);
    var w1 := w.(disk := d1, writers := w.writers[n := x.(pc := Serialized)]);
    RunWrites(w, n, 6, cleans);
    assert Apply(w, Write(n, Go), cleans) == w1;
    var d2 := if cleans then Unlink(d1, Builder) else d1;
    var w2 := w.(disk := d2, writers := w.writers[n := x.(pc := Cleaned)]);
    RunWrites(w1, n, 5, cleans);
    assert Apply(w1, Write(n, Go), cleans) == w2;
    var d3 := Create(d2, BuilderTemp(x.u), n);
    var w3 := w.(disk := d3, writers := w.writers[n := x.(pc := Building)]);
    RunWrites(w2, n, 4, cleans);
    assert Apply(w2, Write(n, Go), cleans) == w3;
    ThreeMore(w, w3, n, cleans);
  }

  lemma ThreeMore(w: World, w3: World, n: nat, cleans: bool)
    requires n in w3.writers && w3.writers[n].session == n && w3.writers[n].pc.Building?
    requires MetaTemp(w3.writers[n].u) in w3.disk.dir && BuilderTemp(w3.writers[n].u) in w3.disk.dir
    ensures var x := w3.writers[n]; var d := Complete(w3.disk, BuilderTemp(x.u), n);
      Run(w3, Writes(n, 3), cleans)
        == w3.(disk := d.(dir := d.dir[Meta := d.dir[MetaTemp(x.u)]]),
          writers := w3.writers[n := x.(pc := MetaLinked(true))])
  {
    hide Run;
    var x := w3.writers[n];
    var d4 := Complete(w3.disk, BuilderTemp(x.u), n);
    var w4 := w3.(disk := d4, writers := w3.writers[n := x.(pc := Built)]);
    RunWrites(w3, n, 3, cleans);
    assert Apply(w3, Write(n, Go), cleans) == w4;
    var d5 := Unlink(d4, Meta);
    var w5 := w3.(disk := d5, writers := w3.writers[n := x.(pc := MetaUnlinked)]);
    RunWrites(w4, n, 2, cleans);
    assert Apply(w4, Write(n, Go), cleans) == w5;
    var d6 := Link(d5, MetaTemp(x.u), Meta);
    var w6 := w3.(disk := d6, writers := w3.writers[n := x.(pc := MetaLinked(true))]);
    RunWrites(w5, n, 1, cleans);
    assert Apply(w5, Write(n, Go), cleans) == w6;
    assert d6.dir == d4.dir[Meta := d4.dir[MetaTemp(x.u)]];
    assert Run(w6, Writes(n, 0), cleans) == w6 by { RunNothing(w6, cleans); }
  }

  lemma RunNothing(w: World, cleans: bool)
    ensures Run(w, [], cleans) == w
  {
  }

  /** The next three: the temporary metadata name goes, and the builder file is put in place. */
  lemma BuilderInPlace(w: World, n: nat, cleans: bool)
    requires n in w.writers && w.writers[n].pc == MetaLinked(true) && BuilderTemp(w.writers[n].u) in w.disk.dir
    ensures var x := w.writers[n];
      Run(w, Writes(n, 3), cleans)
        == w.(disk := w.disk.(dir := (w.disk.dir - {MetaTemp(x.u)})[Builder := w.disk.dir[BuilderTemp(x.u)]]),
              writers := w.writers[n := x.(pc := BuilderLinked)])
  {
    hide Run;
    var x := w.writers[n];
    var w1 := w.(disk := Unlink(w.disk, MetaTemp(x.u)), writers := w.writers[n := x.(pc := MetaMoved(true))]);
    RunWrites(w, n, 3, cleans);
    assert Apply(w, Write(n, Go), cleans) == w1;
    var w2 := w.(disk := Unlink(w1.disk, Builder), writers := w.writers[n := x.(pc := BuilderUnlinked)]);
    RunWrites(w1, n, 2, cleans);
    assert Apply(w1, Write(n, Go), cleans) == w2;
    var w3 := w.(disk := Link(w2.disk, BuilderTemp(x.u), Builder), writers := w.writers[n := x.(pc := BuilderLinked)]);
    RunWrites(w2, n, 1, cleans);
    assert Apply(w2, Write(n, Go), cleans) == w3;
    assert w3.disk.dir == (w.disk.dir - {MetaTemp(x.u)})[Builder := w.disk.dir[BuilderTemp(x.u)]];
    RunNothing(w3, cleans);
  }

  /** Two writers at once: the reader gets new metadata and an old builder file. */
  lemma TwoWritersMixVersions() returns (es: seq<Event>)
    ensures OrderlyRun(EMPTY, es, true)
    ensures var w := Run(EMPTY, es, true);
      HoldsOld(w, 0)
  {
    hide Run, OrderlyRun, SoloRun;
    var w1 := Apply(EMPTY, Start(0), true);
    SixWrites(w1, 0, true);
    var w2 := Run(w1, Writes(0, 6), true);
    var w3 := Apply(w2, Start(1), true);
    SixWrites(w3, 1, true);
    var w4 := Run(w3, Writes(1, 6), true);
    BuilderInPlace(w4, 0, true);
    var w5 := Run(w4, Writes(0, 3), true);
    var w6 := Apply(w5, OpenMeta(0), true);
    var w7 := Apply(w6, OpenBuilder(0), true);
    var rest := [Start(1)] + (Writes(1, 6) + (Writes(0, 3) + ([OpenMeta(0)] + [OpenBuilder(0)])));
    es := [Start(0)] + (Writes(0, 6) + rest);
    Chain(EMPTY, [Start(0)], Writes(0, 6) + rest, true);
    One(EMPTY, Start(0), true);
    Chain(w1, Writes(0, 6), [Start(1)] + (Writes(1, 6) + (Writes(0, 3) + ([OpenMeta(0)] + [OpenBuilder(0)]))), true);
    WritesOrderly(w1, 0, 6, true);
    Chain(w2, [Start(1)], Writes(1, 6) + (Writes(0, 3) + ([OpenMeta(0)] + [OpenBuilder(0)])), true);
    One(w2, Start(1), true);
    Chain(w3, Writes(1, 6), Writes(0, 3) + ([OpenMeta(0)] + [OpenBuilder(0)]), true);
    WritesOrderly(w3, 1, 6, true);
    Chain(w4, Writes(0, 3), [OpenMeta(0)] + [OpenBuilder(0)], true);
    WritesOrderly(w4, 0, 3, true);
    Chain(w5, [OpenMeta(0)], [OpenBuilder(0)], true);
    One(w5, OpenMeta(0), true);
    One(w6, OpenBuilder(0), true);
  }

  lemma One(w: World, e: Event, cleans: bool)
    ensures Run(w, [e], cleans) == Apply(w, e, cleans) && (OrderlyRun(w, [e], cleans) <==> Orderly(w, e))
    ensures SoloRun(w, [e], cleans) <==> Solo(w, e)
  {
  }

  /** Runs and their conditions compose. */
  lemma {:induction false} Chain(w: World, a: seq<Event>, b: seq<Event>, cleans: bool)
    ensures Run(w, a + b, cleans) == Run(Run(w, a, cleans), b, cleans)
    ensures OrderlyRun(w, a + b, cleans) <==> OrderlyRun(w, a, cleans) && OrderlyRun(Run(w, a, cleans), b, cleans)
    ensures SoloRun(w, a + b, cleans) <==> SoloRun(w, a, cleans) && SoloRun(Run(w, a, cleans), b, cleans)
    decreases |a|
  {
    hide Apply, Orderly, Solo;
    if a == [] {
      assert a + b == b;
    } else {
      assert (a + b)[0] == a[0] && (a + b)[1..] == a[1..] + b;
      Chain(Apply(w, a[0], cleans), a[1..], b, cleans);
    }
  }

  lemma {:induction false} WritesOrderly(w: World, n: nat, k: nat, cleans: bool)
    ensures OrderlyRun(w, Writes(n, k), cleans) && SoloRun(w, Writes(n, k), cleans)
    decreases k
  {
    hide Apply;
    if k > 0 {
      assert Writes(n, k)[0] == Write(n, Go) && Writes(n, k)[1..] == Writes(n, k - 1);
      WritesOrderly(Apply(w, Write(n, Go), cleans), n, k - 1, cleans);
    }
  }

  /** One complete session from an empty directory, and what follows. */
  function Session(n: nat, u: nat): seq<Event> {
    [Start(u)] + (Writes(n, 6) + (Writes(n, 3) + Writes(n, 1)))
  }

  predicate Vacant(w: World, u: nat) {
    w.writers == map[] && w.killed == {} && MetaTemp(u) !in w.disk.dir && BuilderTemp(u) !in w.disk.dir
  }

  /** The world after the metadata is in place, after the builder file is, and at the end. */
  function SessionEnd(w: World, u: nat, cleans: bool): World
    requires Vacant(w, u)
  {
    var n, d := w.clock, MetaInPlace(Create(w.disk, MetaTemp(u), w.clock), u, w.clock, cleans);
    w.(disk := d.(dir := (d.dir - {MetaTemp(u)})[Builder := d.dir[BuilderTemp(u)]] - {BuilderTemp(u)}),
       writers := map[], clock := n + 1)
  }

  lemma SessionRuns(w: World, u: nat, cleans: bool)
    requires Vacant(w, u) && InodesOk(w.disk)
    ensures Run(w, Session(w.clock, u), cleans) == SessionEnd(w, u, cleans)
  {
    hide Run, SoloRun, InodesOk;
    var n := w.clock;
    var w1 := Apply(w, Start(u), cleans);
    SixWrites(w1, n, cleans);
    var w2 := Run(w1, Writes(n, 6), cleans);
    BuilderInPlace(w2, n, cleans);
    var w3 := Run(w2, Writes(n, 3), cleans);
    var w4 := Apply(w3, Write(n, Go), cleans);
    RunWrites(w3, n, 1, cleans);
    RunNothing(w4, cleans);
    SessionChain(w, u, cleans);
    assert w4.writers == map[];
  }

  lemma SessionPublishes(w: World, u: nat, cleans: bool)
    requires Vacant(w, u) && InodesOk(w.disk)
    ensures var n, w' := w.clock, Run(w, Session(w.clock, u), cleans);
      && Vacant(w', u) && InodesOk(w'.disk) && w'.readers == w.readers && w'.clock == n + 1
      && Has(w'.disk, Meta, Whole(n)) && Has(w'.disk, Builder, Whole(n))
      && (forall i :: i in w.disk.files ==> i in w'.disk.files && w'.disk.files[i] == w.disk.files[i])
      && SoloRun(w, Session(n, u), cleans) && OrderlyRun(w, Session(n, u), cleans)
  {
    hide Run, SoloRun, OrderlyRun, Session;
    SessionRuns(w, u, cleans);
    SessionChain(w, u, cleans);
  }

  lemma SessionChain(w: World, u: nat, cleans: bool)
    requires Vacant(w, u)
    ensures var n := w.clock; var w2 := Run(Apply(w, Start(u), cleans), Writes(n, 6), cleans);
      Run(w, Session(n, u), cleans) == Run(Run(w2, Writes(n, 3), cleans), Writes(n, 1), cleans)
      && SoloRun(w, Session(n, u), cleans) && OrderlyRun(w, Session(n, u), cleans)
  {
    hide Run, OrderlyRun, SoloRun, Apply;
    var n := w.clock;
    var w1 := Apply(w, Start(u), cleans);
    var w2 := Run(w1, Writes(n, 6), cleans);
    Chain(w, [Start(u)], Writes(n, 6) + (Writes(n, 3) + Writes(n, 1)), cleans);
    One(w, Start(u), cleans);
    Chain(w1, Writes(n, 6), Writes(n, 3) + Writes(n, 1), cleans);
    WritesOrderly(w1, n, 6, cleans);
    Chain(w2, Writes(n, 3), Writes(n, 1), cleans);
    WritesOrderly(w2, n, 3, cleans);
    WritesOrderly(Run(w2, Writes(n, 3), cleans), n, 1, cleans);
  }

  /** A builder that does not clean up, as LLVMBuilder::cacheModule does not: a second session's metadata
      is readable next to the first session's builder file. */
  lemma WithoutCleaningOldFilesAreFound() returns (es: seq<Event>)
    ensures SoloRun(EMPTY, es, false) && OrderlyRun(EMPTY, es, false)
    ensures var w := Run(EMPTY, es, false);
      HoldsOld(w, 0)
  {
    hide Run, OrderlyRun, SoloRun;
    SessionPublishes(EMPTY, 0, false);
    var w1 := Run(EMPTY, Session(0, 0), false);
    var w2 := Apply(w1, Start(0), false);
    SixWrites(w2, 1, false);
    var w3 := Run(w2, Writes(1, 6), false);
    var w4 := Apply(w3, OpenMeta(0), false);
    es := Session(0, 0) + ([Start(0)] + (Writes(1, 6) + ([OpenMeta(0)] + [OpenBuilder(0)])));
    Chain(EMPTY, Session(0, 0), [Start(0)] + (Writes(1, 6) + ([OpenMeta(0)] + [OpenBuilder(0)])), false);
    Chain(w1, [Start(0)], Writes(1, 6) + ([OpenMeta(0)] + [OpenBuilder(0)]), false);
    One(w1, Start(0), false);
    Chain(w2, Writes(1, 6), [OpenMeta(0)] + [OpenBuilder(0)], false);
    WritesOrderly(w2, 1, 6, false);
    Chain(w3, [OpenMeta(0)], [OpenBuilder(0)], false);
    One(w3, OpenMeta(0), false);
    One(w4, OpenBuilder(0), false);
  }

  /** Even so a reader may find a newer builder file than the metadata it has opened. */
  lemma NewerFilesMayBeFound() returns (es: seq<Event>)
    ensures SoloRun(EMPTY, es, true) && OrderlyRun(EMPTY, es, true)
    ensures var w := Run(EMPTY, es, true);
      && 0 in w.readers && w.readers[0].builder.Some?
      && Author(w.disk, w.readers[0].meta) < Author(w.disk, w.readers[0].builder.value)
  {
    hide Run, OrderlyRun, SoloRun;
    SessionPublishes(EMPTY, 0, true);
    var w1 := Run(EMPTY, Session(0, 0), true);
    var w2 := Apply(w1, OpenMeta(0), true);
    SessionPublishes(w2, 0, true);
    var w3 := Run(w2, Session(1, 0), true);
    es := Session(0, 0) + ([OpenMeta(0)] + (Session(1, 0) + [OpenBuilder(0)]));
    Chain(EMPTY, Session(0, 0), [OpenMeta(0)] + (Session(1, 0) + [OpenBuilder(0)]), true);
    Chain(w1, [OpenMeta(0)], Session(1, 0) + [OpenBuilder(0)], true);
    One(w1, OpenMeta(0), true);
    Chain(w2, Session(1, 0), [OpenBuilder(0)], true);
    One(w3, OpenBuilder(0), true);
  }

  /** A writer killed between the two halves of move() leaves its temporary name on the published file;
      a later process with the same host name and process id truncates that file under its readers. */
  lemma ReusedNameDamagesPublishedFile(cleans: bool) returns (es: seq<Event>)
    ensures var w := Run(EMPTY, es, cleans); !Intact(w) && Meta in w.disk.dir && !WholeAt(w.disk, w.disk.dir[Meta])
  {
    hide Run;
    var w1 := Apply(EMPTY, Start(0), cleans);
    SixWrites(w1, 0, cleans);
    var w2 := Run(w1, Writes(0, 6), cleans);
    var w3 := Apply(w2, Kill(0), cleans);
    var rest := [Kill(0)] + [Start(0)];
    es := [Start(0)] + (Writes(0, 6) + rest);
    Chain(EMPTY, [Start(0)], Writes(0, 6) + rest, cleans);
    One(EMPTY, Start(0), cleans);
    Chain(w1, Writes(0, 6), rest, cleans);
    Chain(w2, [Kill(0)], [Start(0)], cleans);
    One(w2, Kill(0), cleans);
    One(w3, Start(0), cleans);
    var w4 := Apply(w3, Start(0), cleans);
    assert Published(w4, w4.disk.dir[Meta]);
  }

  /** The first session of all, up to the link of its builder file. */
  const ONE_LINKED :=
    World(Disk(map[Meta := 0, BuilderTemp(0) := 1, Builder := 1], map[0 := Whole(0), 1 := Whole(0)], 2),
          map[0 := Writer(0, 0, BuilderLinked)], map[], {}, 1)

  lemma FirstSession(cleans: bool)
    ensures Run(EMPTY, [Start(0)] + (Writes(0, 6) + Writes(0, 3)), cleans) == ONE_LINKED
  {
    hide Run;
    var w1 := Apply(EMPTY, Start(0), cleans);
    SixWrites(w1, 0, cleans);
    var w2 := Run(w1, Writes(0, 6), cleans);
    BuilderInPlace(w2, 0, cleans);
    FirstChain(cleans);
    var w3 := Run(w2, Writes(0, 3), cleans);
    assert w3.disk.dir == ONE_LINKED.disk.dir && w3.disk.files == ONE_LINKED.disk.files;
  }

  lemma FirstChain(cleans: bool)
    ensures var w1 := Apply(EMPTY, Start(0), cleans);
      Run(EMPTY, [Start(0)] + (Writes(0, 6) + Writes(0, 3)), cleans)
        == Run(Run(w1, Writes(0, 6), cleans), Writes(0, 3), cleans)
  {
    hide Run, Apply;
    Chain(EMPTY, [Start(0)], Writes(0, 6) + Writes(0, 3), cleans);
    One(EMPTY, Start(0), cleans);
    Chain(Apply(EMPTY, Start(0), cleans), Writes(0, 6), Writes(0, 3), cleans);
  }

  lemma FourEvents(w: World, a: Event, b: Event, c: Event, d: Event, es: seq<Event>, cleans: bool)
    ensures Run(w, [a] + ([b] + ([c] + ([d] + es))), cleans)
         == Run(Apply(Apply(Apply(Apply(w, a, cleans), b, cleans), c, cleans), d, cleans), es, cleans)
  {
    hide Run, Apply;
    Chain(w, [a], [b] + ([c] + ([d] + es)), cleans);
    One(w, a, cleans);
    var w1 := Apply(w, a, cleans);
    Chain(w1, [b], [c] + ([d] + es), cleans);
    One(w1, b, cleans);
    var w2 := Apply(w1, b, cleans);
    Chain(w2, [c], [d] + es, cleans);
    One(w2, c, cleans);
    Chain(Apply(w2, c, cleans), [d], es, cleans);
    One(Apply(w2, c, cleans), d, cleans);
  }

  /** The same with the builder file: killed between link() and unlink() of the second move, and a name
      used again.  All metadata files are whole throughout, and no write error happens. */
  lemma ReusedNameDamagesBuilderFile(cleans: bool) returns (es: seq<Event>)
    ensures var w := Run(EMPTY, es, cleans);
      && 0 in w.readers && w.readers[0].builder.Some? && WholeAt(w.disk, w.readers[0].meta)
      && !WholeAt(w.disk, w.readers[0].builder.value) && !Intact(w)
  {
    hide Run;
    var first := [Start(0)] + (Writes(0, 6) + Writes(0, 3));
    var rest := [OpenMeta(0)] + ([OpenBuilder(0)] + ([Kill(0)] + ([Start(0)] + Writes(1, 3))));
    es := first + rest;
    FirstSession(cleans);
    Chain(EMPTY, first, rest, cleans);
    FourEvents(ONE_LINKED, OpenMeta(0), OpenBuilder(0), Kill(0), Start(0), Writes(1, 3), cleans);
    var w4 := Apply(Apply(ONE_LINKED, OpenMeta(0), cleans), OpenBuilder(0), cleans);
    var w5 := Apply(Apply(w4, Kill(0), cleans), Start(0), cleans);
    assert w5.readers == map[0 := Reader(0, Some(1))];
    Reopened(w5, cleans);
    assert Published(Run(w5, Writes(1, 3), cleans), 1);
  }

  /** A new session opens its temporary builder file, whatever that is a name of. */
  lemma Reopened(w: World, cleans: bool)
    requires 1 in w.writers && w.writers[1] == Writer(0, 1, Serializing) && BuilderTemp(0) in w.disk.dir
    requires MetaTemp(0) in w.disk.dir && w.disk.dir[MetaTemp(0)] != w.disk.dir[BuilderTemp(0)]
    ensures var w' := Run(w, Writes(1, 3), cleans); var i := w.disk.dir[BuilderTemp(0)];
      && w'.readers == w.readers && !WholeAt(w'.disk, i)
      && forall j :: WholeAt(w.disk, j) && j != i ==> WholeAt(w'.disk, j)
  {
    hide Run;
    var w1, w2 := Apply(w, Write(1, Go), cleans), Apply(Apply(w, Write(1, Go), cleans), Write(1, Go), cleans);
    RunWrites(w, 1, 3, cleans);
    RunWrites(w1, 1, 2, cleans);
    RunWrites(w2, 1, 1, cleans);
    RunNothing(Apply(w2, Write(1, Go), cleans), cleans);
  }
}
