/**
 * What readers can find at the canonical names: exactly which operations damage a published file, and a
 * condition on the schedule under which none does.
 */
module CachePublicationReaders {
  import opened CachePublication
  import opened CachePublicationSafety

  predicate InodesOk(d: Disk) {
    (forall p :: p in d.dir ==> d.dir[p] in d.files) && forall i :: i in d.files ==> i < d.inodes
  }

  predicate WholeAt(d: Disk, i: nat) {
    i in d.files && d.files[i].Whole?
  }

  predicate Has(d: Disk, p: Path, c: Content) {
    p in d.dir && d.dir[p] in d.files && d.files[d.dir[p]] == c
  }

  /** The file is at a canonical name, or was when a reader opened it. */
  ghost predicate Published(w: World, i: nat) {
    || (Meta in w.disk.dir && w.disk.dir[Meta] == i) || (Builder in w.disk.dir && w.disk.dir[Builder] == i)
    || exists r :: r in w.readers && (w.readers[r].meta == i || w.readers[r].builder == Some(i))
  }

  /** Every published file is one writer's complete file. */
  ghost predicate Intact(w: World) {
    forall i: nat :: Published(w, i) ==> WholeAt(w.disk, i)
  }

  ghost predicate Sane(w: World) {
    InodesOk(w.disk) && Intact(w)
  }

  // ----- Damage -----

  /** The temporary name that is opened for writing is a second name of a published file. */
  ghost predicate Truncates(w: World, p: Path) {
    p in w.disk.dir && Published(w, w.disk.dir[p])
  }

  /** The file that is given a canonical name is not complete. */
  ghost predicate Exposes(w: World, src: Path, dst: Path) {
    CanLink(w.disk, src, dst) && !WholeAt(w.disk, w.disk.dir[src])
  }

  /** The four operations that damage what is published. */
  ghost predicate Damages(w: World, e: Event) {
    match e
    case Start(u) => NameFree(w, u) && Truncates(w, MetaTemp(u))
    case Write(n, turn) =>
      n in w.writers &&
      var x := w.writers[n];
      (match x.pc
       case Cleaned => !turn.Throw? && Truncates(w, BuilderTemp(x.u))
       case MetaUnlinked => Exposes(w, MetaTemp(x.u), Meta)
       case BuilderUnlinked => Exposes(w, BuilderTemp(x.u), Builder)
       case _ => false)
    case _ => false
  }

  lemma CreateIff(w: World, w': World, p: Path, author: nat)
    requires Sane(w) && p != Meta && p != Builder
    requires w'.readers == w.readers && w'.disk == Create(w.disk, p, author)
    ensures InodesOk(w'.disk) && (Intact(w') <==> !Truncates(w, p))
  {
    if Truncates(w, p) {
      var i := w.disk.dir[p];
      SamePublished(w, w', i);
      assert !WholeAt(w'.disk, i);
    } else {
      forall i: nat | Published(w', i) ensures WholeAt(w'.disk, i) {
        SamePublished(w, w', i);
        assert WholeAt(w.disk, i);
      }
    }
  }

  lemma SamePublished(w: World, w': World, i: nat)
    requires w'.readers == w.readers
    requires forall p :: p == Meta || p == Builder ==> (p in w.disk.dir <==> p in w'.disk.dir)
    requires forall p :: (p == Meta || p == Builder) && p in w.disk.dir ==> w'.disk.dir[p] == w.disk.dir[p]
    ensures Published(w, i) <==> Published(w', i)
  {
  }

  lemma UnlinkKeeps(w: World, w': World, p: Path)
    requires Sane(w) && w'.readers == w.readers && w'.disk == Unlink(w.disk, p)
    ensures Sane(w')
  {
    forall i: nat | Published(w', i) ensures WholeAt(w'.disk, i) {
      assert Published(w, i);
    }
  }

  lemma CompleteKeeps(w: World, w': World, p: Path, author: nat)
    requires Sane(w) && w'.readers == w.readers && w'.disk == Complete(w.disk, p, author)
    ensures Sane(w')
  {
    forall i: nat | Published(w', i) ensures WholeAt(w'.disk, i) {
      assert Published(w, i);
    }
  }

  lemma LinkIff(w: World, w': World, src: Path, dst: Path)
    requires Sane(w) && w'.readers == w.readers && w'.disk == Link(w.disk, src, dst) && (dst == Meta || dst == Builder)
    ensures InodesOk(w'.disk) && (Intact(w') <==> !Exposes(w, src, dst))
  {
    if CanLink(w.disk, src, dst) {
      var j := w.disk.dir[src];
      assert Published(w', j);
      forall i: nat | Published(w', i) && i != j ensures WholeAt(w'.disk, i) {
        assert Published(w, i);
      }
    } else {
      SameKeeps(w, w');
    }
  }

  lemma SameKeeps(w: World, w': World)
    requires Sane(w) && w'.readers == w.readers && w'.disk == w.disk
    ensures Sane(w')
  {
    forall i: nat | Published(w', i) ensures WholeAt(w'.disk, i) {
      assert Published(w, i);
    }
  }

  lemma WriteDamagesIff(w: World, n: nat, turn: Turn, cleans: bool)
    requires Sane(w) && n in w.writers
    ensures var w' := Apply(w, Write(n, turn), cleans);
      InodesOk(w'.disk) && (Intact(w') <==> !Damages(w, Write(n, turn)))
  {
    hide Sane, InodesOk, Intact, Truncates, Exposes;
    var x, w' := w.writers[n], Apply(w, Write(n, turn), cleans);
    SaneMeans(w);
    SaneMeans(w');
    match x.pc
    case Serializing =>
      if turn.Throw? {
        UnlinkKeeps(w, w', MetaTemp(x.u));
      } else if turn.Lose? {
        SameKeeps(w, w');
      } else {
        CompleteKeeps(w, w', MetaTemp(x.u), x.session);
      }
    case Serialized =>
      if !turn.Throw? && cleans {
        UnlinkKeeps(w, w', Builder);
      } else {
        SameKeeps(w, w');
      }
    case Cleaned =>
      if turn.Throw? {
        SameKeeps(w, w');
      } else {
        CreateIff(w, w', BuilderTemp(x.u), x.session);
      }
    case Building =>
      if turn.Throw? {
        UnlinkKeeps(w, w', BuilderTemp(x.u));
      } else {
        CompleteKeeps(w, w', BuilderTemp(x.u), x.session);
      }
    case Built => UnlinkKeeps(w, w', Meta);
    case MetaUnlinked => LinkIff(w, w', MetaTemp(x.u), Meta);
    case MetaLinked(_) => UnlinkKeeps(w, w', MetaTemp(x.u));
    case MetaMoved(moved) => UnlinkKeeps(w, w', if moved then Builder else BuilderTemp(x.u));
    case BuilderUnlinked => LinkIff(w, w', BuilderTemp(x.u), Builder);
    case BuilderLinked => UnlinkKeeps(w, w', BuilderTemp(x.u));
    case Dropping => UnlinkKeeps(w, w', MetaTemp(x.u));
    case Rescuing => UnlinkKeeps(w, w', BuilderTemp(x.u));
    case Rescued => UnlinkKeeps(w, w', MetaTemp(x.u));
    case Done => SameKeeps(w, w');
  }

  lemma SaneMeans(w: World)
    ensures Sane(w) <==> InodesOk(w.disk) && Intact(w)
  {
  }

  lemma OpenKeeps(w: World, e: Event, cleans: bool)
    requires Sane(w) && (e.OpenMeta? || e.OpenBuilder?)
    ensures Sane(Apply(w, e, cleans))
  {
    var w' := Apply(w, e, cleans);
    forall i: nat | Published(w', i) ensures WholeAt(w'.disk, i) {
      assert Published(w, i);
    }
  }

  /** An operation keeps every published file whole if and only if it is none of the four. */
  lemma DamagesIff(w: World, e: Event, cleans: bool)
    requires Sane(w)
    ensures InodesOk(Apply(w, e, cleans).disk)
    ensures Intact(Apply(w, e, cleans)) <==> !Damages(w, e)
  {
    hide Sane, InodesOk, Intact, Truncates, WriterStep, Published;
    var w' := Apply(w, e, cleans);
    SaneMeans(w);
    SaneMeans(w');
    match e
    case Start(u) =>
      if NameFree(w, u) {
        CreateIff(w, w', MetaTemp(u), w.clock);
      } else {
        SameKeeps(w, w');
      }
    case Write(n, turn) =>
      if n in w.writers {
        WriteDamagesIff(w, n, turn, cleans);
      } else {
        SameKeeps(w, w');
      }
    case Kill(_) => SameKeeps(w, w');
    case Discard(_) =>
      if w'.disk == w.disk {
        SameKeeps(w, w');
      } else {
        UnlinkKeeps(w, w', Meta);
      }
    case _ => OpenKeeps(w, e, cleans);
  }

  ghost predicate IntactThroughout(w: World, es: seq<Event>, cleans: bool)
    decreases |es|
  {
    Intact(w) && (es == [] || IntactThroughout(Apply(w, es[0], cleans), es[1..], cleans))
  }

  ghost predicate NoDamage(w: World, es: seq<Event>, cleans: bool)
    decreases |es|
  {
    es == [] || (!Damages(w, es[0]) && NoDamage(Apply(w, es[0], cleans), es[1..], cleans))
  }

  /** Over any run: what is published is whole all the time if and only if no operation damages. */
  lemma {:induction false} IntactThroughoutIff(w: World, es: seq<Event>, cleans: bool)
    requires Sane(w)
    ensures IntactThroughout(w, es, cleans) <==> NoDamage(w, es, cleans)
    ensures NoDamage(w, es, cleans) ==> Sane(Run(w, es, cleans))
    decreases |es|
  {
    hide Apply, Damages, InodesOk, Intact;
    if es != [] {
      DamagesIff(w, es[0], cleans);
      if !Damages(w, es[0]) {
        IntactThroughoutIff(Apply(w, es[0], cleans), es[1..], cleans);
      } else {
        assert !Intact(Apply(w, es[0], cleans));
      }
    }
  }

  // ----- A condition on the schedule -----

  /** No uniquifier is used again after its writer was killed, and no write error goes unnoticed. */
  predicate Orderly(w: World, e: Event) {
    match e
    case Start(u) => u !in w.killed
    case Write(_, turn) => !turn.Lose?
    case _ => true
  }

  predicate OrderlyRun(w: World, es: seq<Event>, cleans: bool)
    decreases |es|
  {
    es == [] || (Orderly(w, es[0]) && OrderlyRun(Apply(w, es[0], cleans), es[1..], cleans))
  }

  predicate Temporary(p: Path) {
    p.MetaTemp? || p.BuilderTemp?
  }

  /** Two temporary names never name the same file. */
  ghost predicate Apart(d: Disk) {
    forall p, q :: p in d.dir && q in d.dir && p != q && Temporary(p) && Temporary(q) ==> d.dir[p] != d.dir[q]
  }

  lemma ApartFile(d: Disk, p: Path, author: nat)
    requires Apart(d) && InodesOk(d)
    ensures Apart(Create(d, p, author)) && Apart(Complete(d, p, author)) && Apart(Unlink(d, p))
  {
  }

  lemma ApartLink(d: Disk, src: Path, dst: Path)
    requires Apart(d) && !Temporary(dst)
    ensures Apart(Link(d, src, dst))
  {
  }

  lemma ApartStep(w: World, e: Event, cleans: bool)
    requires Apart(w.disk) && InodesOk(w.disk)
    ensures Apart(Apply(w, e, cleans).disk)
  {
    hide NameFree, Apart, InodesOk, Create, Complete, Unlink, Link;
    var d := w.disk;
    match e
    case Start(u) => ApartFile(d, MetaTemp(u), w.clock);
    case Write(n, _) =>
      if n in w.writers {
        var x := w.writers[n];
        ApartFile(d, MetaTemp(x.u), x.session);
        ApartFile(d, BuilderTemp(x.u), x.session);
        ApartFile(d, Meta, x.session);
        ApartFile(d, Builder, x.session);
        ApartLink(d, MetaTemp(x.u), Meta);
        ApartLink(d, BuilderTemp(x.u), Builder);
      }
    case Discard(_) => ApartFile(d, Meta, 0);
    case _ =>
  }

  /** The name and its file are as before. */
  predicate SameAt(d: Disk, d': Disk, q: Path) {
    && (q in d.dir <==> q in d'.dir)
    && (q in d.dir && d.dir[q] in d.files ==>
          d'.dir[q] == d.dir[q] && d.dir[q] in d'.files && d'.files[d.dir[q]] == d.files[d.dir[q]])
  }

  predicate Untouched(w: World, w': World, q: Path) {
    SameAt(w.disk, w'.disk, q)
  }

  lemma OtherFile(d: Disk, p: Path, author: nat, q: Path)
    requires InodesOk(d) && p != q && (p in d.dir && q in d.dir ==> d.dir[p] != d.dir[q])
    ensures SameAt(d, Create(d, p, author), q) && SameAt(d, Complete(d, p, author), q)
  {
  }

  lemma OtherName(d: Disk, p: Path, src: Path, q: Path)
    requires p != q
    ensures SameAt(d, d, q) && SameAt(d, Unlink(d, p), q) && SameAt(d, Link(d, src, p), q)
  {
  }

  /** Nobody touches another's temporary files. */
  lemma OthersUntouched(w: World, e: Event, cleans: bool, q: Path)
    requires Apart(w.disk) && InodesOk(w.disk) && Temporary(q)
    requires e.Write? && e.session in w.writers ==> w.writers[e.session].u != q.u
    requires e.Start? && NameFree(w, e.u) ==> e.u != q.u
    ensures Untouched(w, Apply(w, e, cleans), q)
  {
    hide NameFree;
    if e.Write? && e.session in w.writers {
      WriteUntouched(w, e.session, e.turn, cleans, q);
    }
  }

  lemma WriteUntouched(w: World, n: nat, turn: Turn, cleans: bool, q: Path)
    requires Apart(w.disk) && InodesOk(w.disk) && Temporary(q) && n in w.writers && w.writers[n].u != q.u
    ensures Untouched(w, Apply(w, Write(n, turn), cleans), q)
  {
    hide SameAt, InodesOk, Create, Complete, Unlink, Link;
    var d, x := w.disk, w.writers[n];
    OtherFile(d, MetaTemp(x.u), x.session, q);
    OtherFile(d, BuilderTemp(x.u), x.session, q);
    OtherName(d, MetaTemp(x.u), Meta, q);
    OtherName(d, BuilderTemp(x.u), Meta, q);
    OtherName(d, Meta, MetaTemp(x.u), q);
    OtherName(d, Builder, BuilderTemp(x.u), q);
  }

  predicate WholeIfThere(d: Disk, p: Path) {
    p in d.dir ==> WholeAt(d, d.dir[p])
  }

  /** The temporary files of a writer that follows the rules are whole once they are closed. */
  predicate Closed(w: World, x: Writer) {
    && x.u !in w.killed
    && (x.pc.Serialized? || x.pc.Cleaned? || x.pc.Building? || x.pc.Built? || x.pc.MetaUnlinked? ==>
          WholeIfThere(w.disk, MetaTemp(x.u)))
    && (x.pc.Built? || x.pc.MetaUnlinked? || x.pc.MetaLinked? || x.pc.MetaMoved? || x.pc.BuilderUnlinked? ==>
          WholeIfThere(w.disk, BuilderTemp(x.u)))
  }

  ghost predicate Ruled(w: World) {
    Owned(w) && Apart(w.disk) && InodesOk(w.disk) && forall n :: n in w.writers ==> Closed(w, w.writers[n])
  }

  lemma ClosedKept(w: World, w': World, x: Writer)
    requires InodesOk(w.disk) && Closed(w, x) && x.u !in w'.killed
    requires Untouched(w, w', MetaTemp(x.u)) && Untouched(w, w', BuilderTemp(x.u))
    ensures Closed(w', x)
  {
  }

  lemma OwnClosed(w: World, n: nat, turn: Turn, cleans: bool)
    requires Ruled(w) && n in w.writers && !turn.Lose? && n in Apply(w, Write(n, turn), cleans).writers
    ensures var w' := Apply(w, Write(n, turn), cleans); Closed(w', w'.writers[n])
  {
    hide Owned;
    MetaUntouched(w, n, turn, cleans);
  }

  /** A writer's operation on one of its temporary files leaves the other as it was. */
  lemma MetaUntouched(w: World, n: nat, turn: Turn, cleans: bool)
    requires Apart(w.disk) && InodesOk(w.disk) && n in w.writers
    ensures var x, w' := w.writers[n], Apply(w, Write(n, turn), cleans);
      && (x.pc.Cleaned? || x.pc.Building? ==> Untouched(w, w', MetaTemp(x.u)))
  {
  }

  lemma RuledStep(w: World, e: Event, cleans: bool)
    requires Ruled(w) && Orderly(w, e)
    ensures Ruled(Apply(w, e, cleans))
  {
    hide Owned, Apart, InodesOk, Closed, Untouched, WriterStep, NameFree;
    OwnedStep(w, e, cleans);
    ApartStep(w, e, cleans);
    InodesStep(w, e, cleans);
    var w' := Apply(w, e, cleans);
    forall m | m in w'.writers ensures Closed(w', w'.writers[m]) {
      if m in w.writers && !(e.Write? && e.session == m) {
        var u := w.writers[m].u;
        Distinct(w, e, m);
        OthersUntouched(w, e, cleans, MetaTemp(u));
        OthersUntouched(w, e, cleans, BuilderTemp(u));
        ClosedKept(w, w', w.writers[m]);
      } else if e.Write? {
        OwnClosed(w, m, e.turn, cleans);
      } else {
        Started(w, e, cleans, m);
      }
    }
  }

  lemma InodesStep(w: World, e: Event, cleans: bool)
    requires InodesOk(w.disk)
    ensures InodesOk(Apply(w, e, cleans).disk)
  {
    hide NameFree;
  }

  lemma Distinct(w: World, e: Event, m: nat)
    requires Ruled(w) && m in w.writers
    ensures e.Write? && e.session in w.writers && e.session != m ==> w.writers[e.session].u != w.writers[m].u
    ensures e.Start? && NameFree(w, e.u) ==> e.u != w.writers[m].u
    ensures e.Kill? && e.session in w.writers && e.session != m ==> w.writers[e.session].u != w.writers[m].u
    ensures w.writers[m].u !in w.killed && m < w.clock
  {
    assert Closed(w, w.writers[m]);
  }

  lemma Started(w: World, e: Event, cleans: bool, m: nat)
    requires Orderly(w, e) && m !in w.writers && m in Apply(w, e, cleans).writers
    ensures var w' := Apply(w, e, cleans); Closed(w', w'.writers[m])
  {
    hide NameFree;
  }

  /** A writer that follows the rules finds no old temporary file, and publishes only what it closed. */
  lemma OrderlyDoesNoDamage(w: World, e: Event)
    requires Ruled(w) && Orderly(w, e)
    ensures !Damages(w, e)
  {
    match e
    case Start(u) =>
      if NameFree(w, u) && MetaTemp(u) in w.disk.dir {
        assert HasTemp(w, u);
        NotActive(w, u);
        assert false;
      }
    case Write(n, turn) =>
      if n in w.writers {
        assert Closed(w, w.writers[n]);
      }
    case _ =>
  }

  lemma {:induction false} OrderlyIsNoDamage(w: World, es: seq<Event>, cleans: bool)
    requires Ruled(w) && OrderlyRun(w, es, cleans)
    ensures NoDamage(w, es, cleans)
    decreases |es|
  {
    hide Apply, Damages, Ruled, Orderly;
    if es != [] {
      OrderlyDoesNoDamage(w, es[0]);
      RuledStep(w, es[0], cleans);
      OrderlyIsNoDamage(Apply(w, es[0], cleans), es[1..], cleans);
    }
  }

  lemma NothingYet()
    ensures Ruled(EMPTY) && Sane(EMPTY)
  {
    assert forall i: nat :: !Published(EMPTY, i);
  }

  /** Over every interleaving of any number of writers and readers, with writers killed anywhere, names
      used again and write errors: what is at a canonical name, and whatever a reader has opened, is one
      writer's complete file all the time if and only if none of the four damaging operations happens; and
      none does as long as no killed writer's name is used again and no write error goes unnoticed. */
  lemma AlwaysIntact(es: seq<Event>, cleans: bool)
    ensures IntactThroughout(EMPTY, es, cleans) <==> NoDamage(EMPTY, es, cleans)
    ensures OrderlyRun(EMPTY, es, cleans) ==> NoDamage(EMPTY, es, cleans)
    ensures NoDamage(EMPTY, es, cleans) ==> Intact(Run(EMPTY, es, cleans))
  {
    hide Apply, Damages, Ruled, Orderly, Intact;
    NothingYet();
    IntactThroughoutIff(EMPTY, es, cleans);
    if OrderlyRun(EMPTY, es, cleans) {
      OrderlyIsNoDamage(EMPTY, es, cleans);
    }
  }
}
