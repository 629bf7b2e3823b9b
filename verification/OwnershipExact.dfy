/**
 * Exactly when an assignment keeps the books and exactly which arguments survive a call, with the
 * programs that fail.
 */
module OwnershipExact {
  import opened Ownership
  import opened OwnershipLedger
  import opened OwnershipBalance
  import opened OwnershipProgram

  // ----- Assignments -----

  /** A variable assignment keeps the books exactly when computing the value has left in the variable
      what was there before, because that is what the assignment releases. */
  lemma AssignmentBalancesIff(e: Expr, c: Callee, s: State)
    requires Lawful(c) && e.AssignExpr? && e.aggregate.None? && Source(e) && Sound(s, multiset{})
    requires Run(e.value, c, s).0.settled
    ensures var slot, p, t := SlotOf(e.target, s.frame), Run(e.value, c, s), Run(e, c, s).0;
      Books(t.world, Owed(t)) <==> Matches(p.0.world, slot, Get(s.world, slot), p.1.val)
  {
    hide Books, InFrames, Evolves, Lawful, Bind;
    var slot, p := SlotOf(e.target, s.frame), Run(e.value, c, s);
    var was := Get(s.world, slot);
    Balance(e.value, c, s);
    AssignmentStep(p.0, p.1);
    var t := HandleAssignment(p.0, p.1);
    BindSlots(p.0.world, p.1.val);
    assert AssignVar(p.0, slot, was, p.1).world == Put(t, slot, was, p.1.val).world
        && AssignVar(p.0, slot, was, p.1).cleanups ==
          Put(t, slot, was, p.1.val).cleanups by { PutIsAssign(p.0, slot, was, p.1); }
    ShareSame(p.1.ty, slot.v.ty, p.1.val);
    PutBalancesIff(t, slot, was, p.1.val);
  }

  lemma BindSlots(w: World, r: Ref)
    ensures Bind(w, r).slots == w.slots
  {
  }

  lemma BindCommutes(w: World, slots: map<Slot, Ref>, r: Ref)
    ensures Bind(w.(slots := slots), r) == Bind(w, r).(slots := slots) && Bind(w, r).slots == w.slots
  {
  }

  lemma PutIsAssign(s: State, slot: Slot, was: Ref, r: Result)
    requires !slot.FieldSlot?
    ensures AssignVar(s, slot, was, r).world == Put(HandleAssignment(s, r), slot, was, r.val).world
    ensures AssignVar(s, slot, was, r).cleanups == Put(HandleAssignment(s, r), slot, was, r.val).cleanups
  {
    hide Matches, Defined, Alive, Bind;
    BindCommutes(s.world, s.world.slots[slot := r.val], r.val);
  }

  lemma PutBalancesIff(t: State, slot: Slot, was: Ref, val: Ref)
    requires Books(t.world, Owed(t) + Share(slot.v.ty, val))
    ensures var u := Put(t, slot, was, val); Books(u.world, Owed(u)) <==> Matches(t.world, slot, was, val)
  {
    hide Books, Matches;
    StoreKeepsBooksIff(t.world, Owed(t), slot, was, val);
    if slot.v.ty.release {
      Pushed(t, was);
    }
    assert Owed(Put(t, slot, was, val)) == Owed(t) + Share(slot.v.ty, was);
  }

  /** A field assignment keeps the books exactly when, at the store, the object is alive and its field
      holds what the second evaluation of the aggregate loaded. */
  lemma FieldAssignmentBalancesIff(e: Expr, c: Callee, s: State)
    requires Lawful(c) && e.AssignExpr? && e.aggregate.Some? && e.target.ty.release && Source(e)
    requires Sound(s, multiset{})
    requires var a := Run(e.aggregate.value, c, s);
      var b := Run(e.aggregate.value, c, HandleTransient(a.0, a.1));
      a.1.val.Obj? && Run(e.value, c, HandleTransient(b.0, b.1)).0.settled
    ensures var a := Run(e.aggregate.value, c, s);
      var b := Run(e.aggregate.value, c, HandleTransient(a.0, a.1));
      var p, t := Run(e.value, c, HandleTransient(b.0, b.1)), Run(e, c, s).0;
      Books(t.world, Owed(t)) <==>
        Matches(HandleAssignment(p.0, p.1).world, FieldSlot(a.1.val.id, e.target),
          GetField(b.0.world, b.1.val, e.target), p.1.val)
  {
    hide Books, InFrames, Evolves, Lawful, HandleTransient, HandleAssignment, Matches;
    var f, a := e.target, Run(e.aggregate.value, c, s);
    var s1 := HandleTransient(a.0, a.1);
    var b := Run(e.aggregate.value, c, s1);
    var s2 := HandleTransient(b.0, b.1);
    var p := Run(e.value, c, s2);
    TransientSettles(a.0, a.1);
    TransientSettles(b.0, b.1);
    Balance(e.aggregate.value, c, s);
    TransientStep(a.0, a.1);
    Balance(e.aggregate.value, c, s1);
    TransientStep(b.0, b.1);
    Balance(e.value, c, s2);
    AssignmentStep(p.0, p.1);
    ShareSame(p.1.ty, f.ty, p.1.val);
    assert Run(e, c, s) == RunAssign(e, c, s) == RunAssignField(e, c, s);
    PutBalancesIff(HandleAssignment(p.0, p.1), FieldSlot(a.1.val.id, f), GetField(b.0.world, b.1.val, f), p.1.val);
  }

  /** `x = (x = null)` releases the old value twice, whenever there is one. */
  lemma NestedAssignmentFails(x: VarDef, c: Callee, s: State)
    requires Lawful(c) && Regular(x.ty) && x.ty.release && (x.kind.Local? || x.kind.Global?)
    requires Sound(s, multiset{}) && s.settled
    requires SlotOf(x, s.frame) in s.world.slots && s.world.slots[SlotOf(x, s.frame)].Obj?
    ensures var inner := AssignExpr(None, x, NullConst(x.ty));
      var t := Run(AssignExpr(None, x, inner), c, s).0;
      Run(inner, c, s).0.settled && !Books(t.world, Owed(t))
  {
    hide Books, InFrames, Lawful;
    var inner := AssignExpr(None, x, NullConst(x.ty));
    var slot := SlotOf(x, s.frame);
    assert Run(NullConst(x.ty), c, s) == (s, Result(Nil, false, x.ty));
    assert Source(NullConst(x.ty)) && Source(inner) && Source(AssignExpr(None, x, inner));
    assert Run(inner, c, s) == RunAssign(inner, c, s);
    assert Run(inner, c, s).0 == AssignVar(s, slot, Get(s.world, slot), Result(Nil, false, x.ty));
    assert Get(Run(inner, c, s).0.world, slot) == Nil;
    AssignmentBalancesIff(AssignExpr(None, x, inner), c, s);
  }

  /** A callee that sets a global variable to null. */
  ghost function Clearing(g: VarDef): Callee {
    (func: FuncDef, vals: seq<Result>, w: World, frame: nat, owed: multiset<Ref>) =>
      Outcome(Release(w.(slots := w.slots[GlobalSlot(g) := Nil]), Get(w, GlobalSlot(g))), Nil, true, false)
  }

  lemma ClearedOwes(w: World, owed: multiset<Ref>, g: VarDef)
    requires Books(w, owed) && g.ty.release && !g.kind.Param?
    ensures Books(w.(slots := w.slots[GlobalSlot(g) := Nil]), owed + multiset{Get(w, GlobalSlot(g))})
  {
    hide Books;
    AddNil(w, owed, Share(g.ty, Nil));
    StoreKeepsBooksIff(w, owed, GlobalSlot(g), Get(w, GlobalSlot(g)), Nil);
    assert owed + Share(g.ty, Get(w, GlobalSlot(g))) == owed + multiset{Get(w, GlobalSlot(g))};
  }

  lemma ClearedKeepsFrames(w: World, g: VarDef)
    ensures SameFrames(w, w.(slots := w.slots[GlobalSlot(g) := Nil]))
  {
  }

  lemma ReleaseKeepsFrames(w: World, r: Ref)
    ensures SameFrames(w, Release(w, r))
  {
    hide Drain, SameFrames;
    DrainKeeps(Decrement(w, r));
    SameFramesRefl(w, Decrement(w, r));
    SameFramesTrans(w, Decrement(w, r), Release(w, r));
  }

  lemma ClearingIsLawful(g: VarDef)
    requires g.kind.Global? && g.ty.release
    ensures Lawful(Clearing(g))
  {
    hide Books, Release, AllCovered, InFrames, SameFrames, Regular, Matches;
    var slot, c := GlobalSlot(g), Clearing(g);
    forall func: FuncDef, vals: seq<Result>, w: World, frame: nat, owed: multiset<Ref> |
      Regular(func.result) && Books(w, owed) && InFrames(w, frame) && AllCovered(w, owed, vals)
      ensures Books(c(func, vals, w, frame, owed).world, owed + Share(func.result, Nil))
      ensures SameFrames(w, c(func, vals, w, frame, owed).world)
    {
      var u := w.(slots := w.slots[slot := Nil]);
      ClearedOwes(w, owed, g);
      ReleaseBooks(u, owed, Get(w, slot));
      AddNil(Release(u, Get(w, slot)), owed, Share(func.result, Nil));
      ClearedKeepsFrames(w, g);
      ReleaseKeepsFrames(u, Get(w, slot));
      SameFramesTrans(w, u, Release(u, Get(w, slot)));
    }
  }

  lemma AddNil(w: World, owed: multiset<Ref>, nils: multiset<Ref>)
    requires Books(w, owed) && (nils == multiset{} || nils == multiset{Nil})
    ensures Books(w, owed + nils)
  {
    hide Holders;
    forall o: nat ensures Count(w, o) == |Holders(w.slots, o)| + (owed + nils)[Obj(o)] {
      assert Count(w, o) == |Holders(w.slots, o)| + owed[Obj(o)];
    }
  }

  /** `g = f()` breaks the books whenever `f` itself sets `g` to null and `g` held an object. */
  lemma CallThatClearsItsTargetFails(g: VarDef, f: FuncDef, s: State)
    requires g.kind.Global? && Regular(g.ty) && g.ty.release && f.result == g.ty && f.params == []
    requires Sound(s, multiset{}) && s.settled && Get(s.world, GlobalSlot(g)).Obj?
    ensures Lawful(Clearing(g))
    ensures var t := Run(AssignExpr(None, g, FuncCall(f, None, [])), Clearing(g), s).0; !Books(t.world, Owed(t))
  {
    hide Books, InFrames, Lawful, Release, Run;
    var c, slot, call := Clearing(g), GlobalSlot(g), FuncCall(f, None, []);
    ClearingIsLawful(g);
    var u := s.world.(slots := s.world.slots[slot := Nil]);
    ReleaseSlots(u, Get(s.world, slot));
    CallRun(f, c, s);
    assert Get(Run(call, c, s).0.world, slot) == Nil;
    AssignmentBalancesIff(AssignExpr(None, g, call), c, s);
  }

  lemma CallRun(f: FuncDef, c: Callee, s: State)
    ensures Run(FuncCall(f, None, []), c, s) == Invoke(f, c, s, [])
  {
    assert Operands(None, []) == [] && s.(next := s.next + 0) == s;
  }

  lemma {:induction false} DrainSlots(w: World)
    ensures Drain(w).slots.Keys <= w.slots.Keys && forall k :: k in Drain(w).slots ==> Drain(w).slots[k] == w.slots[k]
    decreases |w.slots|
  {
    if exists s :: Orphan(w, s) {
      var s :| Orphan(w, s) && Drain(w) == Drain(Destroy(w, s));
      DrainSlots(Destroy(w, s));
    }
  }

  lemma ReleaseSlots(w: World, r: Ref)
    ensures forall k :: k in Release(w, r).slots ==> k in w.slots && Release(w, r).slots[k] == w.slots[k]
  {
    DrainSlots(Decrement(w, r));
  }

  // ----- Arguments -----

  /** The operand of a call that either brings its own reference or is bound for the call. */
  predicate Guarded(e: Expr) {
    TypeOf(e).release && (IsProductive(e) || Unprotected(e))
  }

  /** Protection adds exactly one bind and plans exactly one release of the same value. */
  lemma OneBindOneRelease(e: Expr, reg: nat, c: Callee, s: State)
    requires Source(e) && Unprotected(e)
    ensures var p, q := Run(e, c, s), RunOperand(e, true, reg, c, s);
      && q.0.world == Bind(p.0.world, p.1.val)
      && q.0.cleanups == [p.1.val] + p.0.cleanups
      && q.1 == Result(p.1.val, false, TypeOf(e))
  {
    hide Run, RunOperand;
    ProtectedRun(e, reg, c, s);
  }

  lemma OperandCovered(e: Expr, reg: nat, c: Callee, s: State)
    requires Lawful(c) && Source(e) && Guarded(e) && Sound(s, multiset{}) && RunOperand(e, true, reg, c, s).0.settled
    ensures var p := RunOperand(e, true, reg, c, s); Covered(p.0.world, Owed(p.0), p.1.val)
  {
    hide Run, Lawful, InFrames, Books;
    var p := RunOperand(e, true, reg, c, s);
    if Unprotected(e) {
      ProtectedRun(e, reg, c, s);
    }
    assert p.0.cleanups[0] == p.1.val;
  }

  /** Every guarded operand is still referenced once all operands have been evaluated. */
  lemma {:induction false} ArgumentsSurvive(es: seq<Expr>, i: nat, reg: nat, c: Callee, s: State)
    requires Lawful(c) && (forall j :: 0 <= j < |es| ==> Source(es[j])) && i < |es| && Guarded(es[i])
    requires Sound(s, multiset{}) && RunOperands(es, true, reg, c, s).0.settled
    ensures var p := RunOperands(es, true, reg, c, s);
      |p.1| == |es| && Sound(p.0, multiset{}) && Covered(p.0.world, Owed(p.0), p.1[i].val)
    decreases |es|
  {
    hide Sound, Covered, Lawful, RunOperand, Source, Guarded, SameBelow, Extends, Owed;
    var p := RunOperand(es[0], true, reg, c, s);
    BalanceOperand(es[0], true, reg, c, s);
    BalanceOperands(es[1..], true, reg + 1, c, p.0);
    OperandsLength(es[1..], true, reg + 1, c, p.0);
    if i == 0 {
      OperandCovered(es[0], reg, c, s);
    } else {
      ArgumentsSurvive(es[1..], i - 1, reg + 1, c, p.0);
    }
    BalanceOperands(es, true, reg, c, s);
  }

  /** In particular a global variable, a field or the result of a call, of a type with both operators. */
  lemma SharedArgumentsSurvive(es: seq<Expr>, i: nat, reg: nat, c: Callee, s: State)
    requires Lawful(c) && (forall j :: 0 <= j < |es| ==> Source(es[j])) && i < |es|
    requires Sound(s, multiset{}) && RunOperands(es, true, reg, c, s).0.settled
    requires match es[i]
      case VarRef(v) => v.kind.Global? && v.ty.bind && v.ty.release
      case FieldRef(_, f) => f.ty.bind && f.ty.release
      case FuncCall(f, _, _) => f.result.pointer && f.result.release
      case _ => false
    ensures var p := RunOperands(es, true, reg, c, s);
      |p.1| == |es| && Covered(p.0.world, Owed(p.0), p.1[i].val)
  {
    hide RunOperands, Covered, Sound, Lawful, Run, Source;
    ArgumentsSurvive(es, i, reg, c, s);
  }

  /** A local variable or a parameter is only read. */
  lemma LocalArgumentIsRead(v: VarDef, reg: nat, c: Callee, s: State)
    requires v.kind.Local? || v.kind.Param?
    ensures RunOperand(VarRef(v), true, reg, c, s) == (s, Result(Get(s.world, FrameSlot(s.frame, v)), false, v.ty))
  {
  }

  lemma {:induction false} OperandsLength(es: seq<Expr>, protect: bool, reg: nat, c: Callee, s: State)
    ensures |RunOperands(es, protect, reg, c, s).1| == |es|
    decreases |es|
  {
    if es != [] {
      OperandsLength(es[1..], protect, reg + 1, c, RunOperand(es[0], protect, reg, c, s).0);
    }
  }

  /** From the call to the end of its frame: what is covered after the operands is alive after the
      callee, and after any expression `later` evaluated before the frame closes. */
  lemma AliveUntilClose(func: FuncDef, vals: seq<Result>, later: Expr, c: Callee, s: State, r: Ref)
    requires Lawful(c) && Regular(func.result) && Source(later) && Sound(s, multiset{}) && Covered(s.world, Owed(s), r)
    requires var p := Invoke(func, c, s, vals); Run(later, c, HandleTransient(p.0, p.1)).0.settled
    ensures var p := Invoke(func, c, s, vals); var q := Run(later, c, HandleTransient(p.0, p.1)).0;
      && Alive(p.0.world, r) && Alive(q.world, r)
      && Extends(s.cleanups, q.cleanups) && Covered(q.world, Owed(q), r)
  {
    hide Books, InFrames, SameBelow, Covered, Invoke, HandleTransient, Owed, Lawful, Alive;
    var p := Invoke(func, c, s, vals);
    var t := HandleTransient(p.0, p.1);
    var q := Run(later, c, t);
    TransientSettles(p.0, p.1);
    InvokeStep(func, c, s, vals);
    CoveredAlive(p.0.world, Owed(p.0) + Owes(p.1), r) by { CoveredMore(p.0.world, Owed(p.0), Owes(p.1), r); }
    TransientStep(p.0, p.1);
    Balance(later, c, t);
    CoveredAlive(q.0.world, Owed(q.0) + Owes(q.1), r) by { CoveredMore(q.0.world, Owed(q.0), Owes(q.1), r); }
    EvolvesTrans(s, p.0, t);
    EvolvesTrans(s, t, q.0);
  }

  lemma CoveredMore(w: World, owed: multiset<Ref>, more: multiset<Ref>, r: Ref)
    requires Covered(w, owed, r)
    ensures Covered(w, owed + more, r)
  {
  }

  // ----- Uncovered arguments -----

  predicate Loose(w: World, k: Slot, r: Ref) {
    k in w.slots && !k.FrameSlot? && Counted(k) && w.slots[k] == r
  }

  /** A callee may take `r` out of every global variable and field that holds it. */
  ghost function Purge(w: World, r: Ref): World
    decreases |w.slots|
  {
    if exists k :: Loose(w, k, r) then
      var k :| Loose(w, k, r);
      Smaller(w, k);
      Purge(Drain(Destroy(w, k)), r)
    else w
  }

  lemma {:induction false} Smaller(w: World, k: Slot)
    requires k in w.slots
    ensures |Drain(Destroy(w, k)).slots| < |w.slots|
  {
    DrainSlots(Destroy(w, k));
    var small, big := Drain(Destroy(w, k)).slots.Keys, Destroy(w, k).slots.Keys;
    SubsetSize(small, big);
    assert |Destroy(w, k).slots| == |big| && |Drain(Destroy(w, k)).slots| == |small|;
  }

  lemma SubsetSize<T>(a: set<T>, b: set<T>)
    requires a <= b
    ensures |a| <= |b|
  {
    assert b == a + (b - a);
  }

  lemma {:induction false} PurgeStep(w: World, owed: multiset<Ref>, r: Ref)
    requires Books(w, owed)
    ensures Books(Purge(w, r), owed) && SameFrames(w, Purge(w, r)) && forall k :: !Loose(Purge(w, r), k, r)
    decreases |w.slots|
  {
    hide Ledger, Drain, Destroy, SameFrames, NoOrphans;
    if exists k :: Loose(w, k, r) {
      var k :| Loose(w, k, r) && Purge(w, r) == Purge(Drain(Destroy(w, k)), r);
      Smaller(w, k);
      DestroyLedger(w, owed, k);
      DrainBooks(Destroy(w, k), owed);
      DrainKeeps(Destroy(w, k));
      DestroyKeeps(w, k);
      SameFramesTrans(w, Destroy(w, k), Drain(Destroy(w, k)));
      PurgeStep(Drain(Destroy(w, k)), owed, r);
      SameFramesTrans(w, Drain(Destroy(w, k)), Purge(w, r));
    } else {
      SameFramesRefl(w, w);
    }
  }

  lemma DestroyKeeps(w: World, k: Slot)
    requires k in w.slots && !k.FrameSlot?
    ensures SameFrames(w, Destroy(w, k))
  {
  }

  ghost function Purging(r: Ref): Callee {
    (func: FuncDef, vals: seq<Result>, w: World, frame: nat, owed: multiset<Ref>) => Outcome(Purge(w, r), Nil,
      true, false)
  }

  /** Coverage is exact: an object that nothing covers is dead once some lawful callee has run. */
  lemma UncoveredDies(w: World, frame: nat, owed: multiset<Ref>, r: Ref, func: FuncDef, vals: seq<Result>)
    requires Books(w, owed) && r.Obj? && !Covered(w, owed, r)
    ensures Lawful(Purging(r)) && !Alive(Purging(r)(func, vals, w, frame, owed).world, r)
  {
    hide Purge, SameFrames, InFrames, AllCovered;
    PurgingIsLawful(r);
    PurgeStep(w, owed, r);
    var u := Purge(w, r);
    assert Holders(u.slots, r.id) == {} by { NoHolders(w, u, owed, r); }
    assert Count(u, r.id) == |Holders(u.slots, r.id)| + owed[Obj(r.id)];
  }

  lemma NoHolders(w: World, u: World, owed: multiset<Ref>, r: Ref)
    requires r.Obj? && !Covered(w, owed, r) && SameFrames(w, u) && forall k :: !Loose(u, k, r)
    ensures Holders(u.slots, r.id) == {}
  {
    forall k | k in Holders(u.slots, r.id) ensures false {
      assert !Loose(u, k, r);
      assert k.FrameSlot? && Get(w, k) == Get(u, k) && k in w.slots;
      assert Steady(k);
    }
  }

  lemma PurgingIsLawful(r: Ref)
    ensures Lawful(Purging(r))
  {
    hide Purge, SameFrames, InFrames, AllCovered, Books;
    var c := Purging(r);
    forall func: FuncDef, vals: seq<Result>, w: World, frame: nat, owed: multiset<Ref> |
      Regular(func.result) && Books(w, owed) && InFrames(w, frame) && AllCovered(w, owed, vals)
      ensures Books(c(func, vals, w, frame, owed).world, owed + Share(func.result, Nil))
      ensures SameFrames(w, c(func, vals, w, frame, owed).world)
    {
      PurgeStep(w, owed, r);
      AddNil(Purge(w, r), owed, Share(func.result, Nil));
    }
  }
}
