/** What every interleaving of writers and readers keeps, and what it does not. */
module CachePublicationSafety {
  import opened CachePublication

  // ----- Temporary files -----

  /** The operations during which a writer's temporary metadata file exists. */
  predicate HoldsMeta(pc: Pc) {
    pc.Serializing? || pc.Serialized? || pc.Cleaned? || pc.Building? || pc.Built? || pc.MetaUnlinked? || pc.MetaLinked?
    || pc.Rescuing? || pc.Rescued?
  }

  predicate HoldsBuilder(pc: Pc) {
    pc.Building? || pc.Built? || pc.MetaUnlinked? || pc.MetaLinked? || pc.MetaMoved? || pc.BuilderUnlinked? ||
      pc.BuilderLinked?
    || pc.Rescuing?
  }

  ghost predicate Active(w: World, u: nat) {
    exists n :: n in w.writers && w.writers[n].u == u
  }

  predicate HasTemp(w: World, u: nat) {
    MetaTemp(u) in w.disk.dir || BuilderTemp(u) in w.disk.dir
  }

  /** Temporary files belong to a writer at work or to one that was killed. */
  ghost predicate Owned(w: World) {
    && (forall n :: n in w.writers ==> n < w.clock && w.writers[n].session == n && !w.writers[n].pc.Done?)
    && (forall m, n :: m in w.writers && n in w.writers && m != n ==> w.writers[m].u != w.writers[n].u)
    && (forall u :: HasTemp(w, u) ==> Active(w, u) || u in w.killed)
    && (forall n :: n in w.writers && !HoldsMeta(w.writers[n].pc) ==> MetaTemp(w.writers[n].u) !in w.disk.dir)
    && (forall n :: n in w.writers && !HoldsBuilder(w.writers[n].pc) && BuilderTemp(w.writers[n].u) in w.disk.dir ==>
          w.writers[n].u in w.killed)
  }

  lemma StillActive(w: World, w': World, u: nat)
    requires Active(w, u)
    requires forall n :: n in w.writers && w.writers[n].u == u ==> n in w'.writers && w'.writers[n].u == u
    ensures Active(w', u)
  {
    var n :| n in w.writers && w.writers[n].u == u;
    assert w'.writers[n].u == u;
  }

  lemma OwnedStep(w: World, e: Event, cleans: bool)
    requires Owned(w)
    ensures Owned(Apply(w, e, cleans))
  {
    hide Owned, Apply;
    match e
    case Start(u) => StartOwned(w, u, cleans);
    case Write(n, turn) => WriteOwned(w, n, turn, cleans);
    case _ => OtherOwned(w, e, cleans);
  }

  lemma StartOwned(w: World, u: nat, cleans: bool)
    requires Owned(w)
    ensures Owned(Apply(w, Start(u), cleans))
  {
    hide Active;
    var w' := Apply(w, Start(u), cleans);
    if NameFree(w, u) {
      NowActive(w', w.clock);
      NotActive(w, u);
      assert BuilderTemp(u) in w.disk.dir ==> HasTemp(w, u);
      forall v | HasTemp(w', v) ensures Active(w', v) || v in w'.killed {
        if v != u {
          assert HasTemp(w, v);
          if Active(w, v) {
            StillActive(w, w', v);
          }
        }
      }
    }
  }

  lemma NotActive(w: World, u: nat)
    requires NameFree(w, u)
    ensures !Active(w, u)
  {
  }

  lemma NowActive(w: World, n: nat)
    requires n in w.writers
    ensures Active(w, w.writers[n].u)
  {
  }

  lemma OtherOwned(w: World, e: Event, cleans: bool)
    requires Owned(w) && !e.Start? && !e.Write?
    ensures Owned(Apply(w, e, cleans))
  {
    hide Active, WriterStep;
    var w' := Apply(w, e, cleans);
    assert w'.disk.dir.Keys <= w.disk.dir.Keys;
    forall v | HasTemp(w', v) ensures Active(w', v) || v in w'.killed {
      assert HasTemp(w, v);
      if Active(w, v) && v !in w'.killed {
        StillActive(w, w', v);
      }
    }
  }

  lemma TempsAfterWrite(w: World, n: nat, turn: Turn, cleans: bool)
    requires n in w.writers
    ensures var u, d := w.writers[n].u, Apply(w, Write(n, turn), cleans).disk.dir;
      forall p :: p in d ==> p in w.disk.dir || p == Meta || p == Builder || p == BuilderTemp(u)
  {
  }

  /** What a writer's operation leaves of its own temporary files, by how far it has come. */
  lemma OwnTempsAfterWrite(w: World, n: nat, turn: Turn, cleans: bool)
    requires Owned(w) && n in w.writers && n in Apply(w, Write(n, turn), cleans).writers
    ensures var w' := Apply(w, Write(n, turn), cleans); var x := w'.writers[n];
      && x.u == w.writers[n].u && x.session == n && !x.pc.Done?
      && (!HoldsMeta(x.pc) ==> MetaTemp(x.u) !in w'.disk.dir)
      && (!HoldsBuilder(x.pc) && BuilderTemp(x.u) in w'.disk.dir ==> x.u in w'.killed)
  {
    hide Active;
  }

  lemma WriteOwned(w: World, n: nat, turn: Turn, cleans: bool)
    requires Owned(w)
    ensures Owned(Apply(w, Write(n, turn), cleans))
  {
    hide Active, HoldsMeta, HoldsBuilder, WriterStep;
    var w' := Apply(w, Write(n, turn), cleans);
    if n in w.writers {
      var u := w.writers[n].u;
      TempsAfterWrite(w, n, turn, cleans);
      if n in w'.writers {
        OwnTempsAfterWrite(w, n, turn, cleans);
        NowActive(w', n);
      } else {
        ExitCleansUp(w, n, turn, cleans);
      }
      forall v | HasTemp(w', v) ensures Active(w', v) || v in w'.killed {
        if v != u {
          assert HasTemp(w, v);
          if Active(w, v) {
            StillActive(w, w', v);
          }
        }
      }
    }
  }

  /** Every way out of cacheModule, normal or by exception, leaves no temporary metadata file behind;
      and no temporary builder file either, unless a killed namesake's is still there. */
  lemma ExitCleansUp(w: World, n: nat, turn: Turn, cleans: bool)
    requires Owned(w) && n in w.writers && n !in Apply(w, Write(n, turn), cleans).writers
    ensures var u, d := w.writers[n].u, Apply(w, Write(n, turn), cleans).disk.dir;
      MetaTemp(u) !in d && (BuilderTemp(u) in d ==> u in w.killed)
  {
  }

  lemma {:induction false} RunOwned(w: World, es: seq<Event>, cleans: bool)
    requires Owned(w)
    ensures Owned(Run(w, es, cleans))
    decreases |es|
  {
    hide Owned, Apply;
    if es != [] {
      OwnedStep(w, es[0], cleans);
      RunOwned(Apply(w, es[0], cleans), es[1..], cleans);
    }
  }

  /** After any run, whatever the interleaving: once no writer is at work and none was killed, nothing
      but the two canonical names is left. */
  lemma QuietDirectoryIsClean(es: seq<Event>, cleans: bool)
    ensures var w := Run(EMPTY, es, cleans);
      w.writers == map[] && w.killed == {} ==> w.disk.dir.Keys <= {Meta, Builder}
  {
    hide Apply;
    RunOwned(EMPTY, es, cleans);
    var w := Run(EMPTY, es, cleans);
    if w.writers == map[] && w.killed == {} {
      forall p | p in w.disk.dir ensures p in {Meta, Builder} {
        assert p.MetaTemp? ==> HasTemp(w, p.u);
        assert p.BuilderTemp? ==> HasTemp(w, p.u);
      }
    }
  }
}
