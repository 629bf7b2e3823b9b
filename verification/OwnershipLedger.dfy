/** How each elementary step moves the books. */
module OwnershipLedger {
  import opened Ownership

  predicate Holds(slots: map<Slot, Ref>, s: Slot, o: nat) {
    s in slots && Counted(s) && slots[s] == Obj(o)
  }

  function One(b: bool): int {
    if b then 1 else 0
  }

  lemma HoldersDrop(slots: map<Slot, Ref>, s: Slot, o: nat)
    ensures |Holders(slots - {s}, o)| == |Holders(slots, o)| - One(Holds(slots, s, o))
  {
    assert Holders(slots - {s}, o) == Holders(slots, o) - {s};
  }

  lemma HoldersAdd(slots: map<Slot, Ref>, s: Slot, r: Ref, o: nat)
    requires s !in slots
    ensures |Holders(slots[s := r], o)| == |Holders(slots, o)| + One(Counted(s) && r == Obj(o))
  {
    var all := Holders(slots[s := r], o);
    if Counted(s) && r == Obj(o) {
      assert s in all && all - {s} == Holders(slots, o);
    } else {
      assert all == Holders(slots, o);
    }
  }

  lemma HoldersPut(slots: map<Slot, Ref>, s: Slot, r: Ref, o: nat)
    ensures |Holders(slots[s := r], o)|
         == |Holders(slots, o)| - One(Holds(slots, s, o)) + One(Counted(s) && r == Obj(o))
  {
    hide Holders, Holds;
    HoldersDrop(slots, s, o);
    HoldersAdd(slots - {s}, s, r, o);
    assert (slots - {s})[s := r] == slots[s := r];
  }

  lemma BindLedger(w: World, owed: multiset<Ref>, r: Ref)
    requires Ledger(w, owed)
    ensures Ledger(Bind(w, r), owed + multiset{r})
  {
    forall o: nat ensures Count(Bind(w, r), o) == |Holders(w.slots, o)| + (owed + multiset{r})[Obj(o)] {
      assert Count(w, o) == |Holders(w.slots, o)| + owed[Obj(o)];
    }
  }

  lemma DecrementLedger(w: World, owed: multiset<Ref>, r: Ref)
    requires Ledger(w, owed + multiset{r})
    ensures Ledger(Decrement(w, r), owed) && Decrement(w, r).faulted == w.faulted
  {
    forall o: nat ensures Count(Decrement(w, r), o) == |Holders(w.slots, o)| + owed[Obj(o)] {
      assert Count(w, o) == |Holders(w.slots, o)| + (owed + multiset{r})[Obj(o)];
    }
    if r.Obj? {
      assert Count(w, r.id) == |Holders(w.slots, r.id)| + (owed + multiset{r})[Obj(r.id)];
    }
  }

  lemma DestroyLedger(w: World, owed: multiset<Ref>, s: Slot)
    requires Ledger(w, owed) && s in w.slots
    ensures Ledger(Destroy(w, s), owed) && Destroy(w, s).faulted == w.faulted
  {
    var u := w.(slots := w.slots - {s});
    var r := if Counted(s) then w.slots[s] else Nil;
    forall o: nat ensures Count(u, o) == |Holders(u.slots, o)| + (owed + multiset{r})[Obj(o)] {
      HoldersDrop(w.slots, s, o);
      assert Count(w, o) == |Holders(w.slots, o)| + owed[Obj(o)];
    }
    DecrementLedger(u, owed, r);
  }

  lemma {:induction false} DrainBooks(w: World, owed: multiset<Ref>)
    requires Ledger(w, owed) && !w.faulted
    ensures Books(Drain(w), owed)
    decreases |w.slots|
  {
    hide Ledger, Destroy;
    if exists s :: Orphan(w, s) {
      var s :| Orphan(w, s) && Drain(w) == Drain(Destroy(w, s));
      DestroyLedger(w, owed, s);
      DrainBooks(Destroy(w, s), owed);
    }
  }

  /** `oper release` on an owed reference pays it, and never meets a count of zero. */
  lemma ReleaseBooks(w: World, owed: multiset<Ref>, r: Ref)
    requires Books(w, owed + multiset{r})
    ensures Books(Release(w, r), owed)
  {
    hide Ledger, Drain, Decrement;
    DecrementLedger(w, owed, r);
    DrainBooks(Decrement(w, r), owed);
  }

  /** Closing a cleanup frame pays exactly what it holds. */
  lemma {:induction false} CloseBooks(w: World, owed: multiset<Ref>, cleanups: seq<Ref>)
    requires Books(w, owed + multiset(cleanups))
    ensures Books(Close(w, cleanups), owed)
    decreases |cleanups|
  {
    hide Books, Release;
    if cleanups == [] {
      assert owed + multiset(cleanups) == owed;
    } else {
      assert cleanups == [cleanups[0]] + cleanups[1..];
      assert owed + multiset(cleanups) == owed + multiset(cleanups[1..]) + multiset{cleanups[0]};
      ReleaseBooks(w, owed + multiset(cleanups[1..]), cleanups[0]);
      CloseBooks(Release(w, cleanups[0]), owed, cleanups[1..]);
    }
  }

  function Share(t: TypeDef, r: Ref): multiset<Ref> {
    if t.release then multiset{r} else multiset{}
  }

  function Shortfall(w: World, slot: Slot, was: Ref, val: Ref, o: nat): int {
    One(Holds(w.slots, slot, o)) - One(Counted(slot) && val == Obj(o))
      + Share(slot.v.ty, val)[Obj(o)] - Share(slot.v.ty, was)[Obj(o)]
  }

  lemma StoreGap(w: World, owed: multiset<Ref>, slot: Slot, was: Ref, val: Ref, o: nat)
    requires Ledger(w, owed + Share(slot.v.ty, val))
    ensures var u := w.(slots := w.slots[slot := val]);
      Count(u, o) - |Holders(u.slots, o)| - (owed + Share(slot.v.ty, was))[Obj(o)] == Shortfall(w, slot, was, val, o)
  {
    hide Holders, Holds;
    HoldersPut(w.slots, slot, val, o);
    assert Count(w, o) == |Holders(w.slots, o)| + (owed + Share(slot.v.ty, val))[Obj(o)];
  }

  lemma StoreLedger(w: World, owed: multiset<Ref>, slot: Slot, was: Ref, val: Ref)
    requires Ledger(w, owed + Share(slot.v.ty, val))
    ensures Ledger(w.(slots := w.slots[slot := val]), owed + Share(slot.v.ty, was))
       <==> (slot.v.ty.release ==> if slot.v.kind.Param? then val == was else Get(w, slot) == was)
  {
    hide Holders;
    var u := w.(slots := w.slots[slot := val]);
    var held := if slot.v.kind.Param? then val else Get(w, slot);
    if slot.v.ty.release && held != was {
      var o := if held.Obj? then held.id else was.id;
      StoreGap(w, owed, slot, was, val, o);
      assert Count(u, o) != |Holders(u.slots, o)| + (owed + Share(slot.v.ty, was))[Obj(o)];
    } else {
      forall o: nat ensures Count(u, o) == |Holders(u.slots, o)| + (owed + Share(slot.v.ty, was))[Obj(o)] {
        StoreGap(w, owed, slot, was, val, o);
      }
    }
  }

  /** A store, with the new value's reference in hand and the old value to be released, keeps the
      books exactly when it finds what `Matches` asks for. */
  lemma StoreKeepsBooksIff(w: World, owed: multiset<Ref>, slot: Slot, was: Ref, val: Ref)
    requires Books(w, owed + Share(slot.v.ty, val))
    ensures Books(w.(slots := w.slots[slot := val]), owed + Share(slot.v.ty, was)) <==> Matches(w, slot, was, val)
  {
    hide Ledger;
    StoreLedger(w, owed, slot, was, val);
    var u := w.(slots := w.slots[slot := val]);
    if slot.FieldSlot? && Count(w, slot.owner) <= 0 {
      assert Orphan(u, slot);
    } else {
      forall s ensures !Orphan(u, s) {
        assert !Orphan(w, s);
      }
    }
  }

  lemma HeldAlive(w: World, owed: multiset<Ref>, s: Slot)
    requires Books(w, owed) && s in w.slots && Counted(s)
    ensures Alive(w, w.slots[s])
  {
    if w.slots[s].Obj? {
      var o := w.slots[s].id;
      assert s in Holders(w.slots, o);
      assert Count(w, o) == |Holders(w.slots, o)| + owed[Obj(o)];
    }
  }

  lemma OwedAlive(w: World, owed: multiset<Ref>, r: Ref)
    requires Books(w, owed) && owed[r] > 0
    ensures Alive(w, r)
  {
    if r.Obj? {
      assert Count(w, r.id) == |Holders(w.slots, r.id)| + owed[Obj(r.id)];
    }
  }

  /** What is covered has a reference. */
  lemma CoveredAlive(w: World, owed: multiset<Ref>, r: Ref)
    requires Books(w, owed) && Covered(w, owed, r)
    ensures Alive(w, r)
  {
    hide Ledger;
    if r.Obj? {
      if owed[r] > 0 {
        OwedAlive(w, owed, r);
      } else {
        var s :| s in w.slots && Steady(s) && w.slots[s] == r;
        HeldAlive(w, owed, s);
      }
    }
  }
}
