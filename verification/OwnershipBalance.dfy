/**
 * Conservation: a run that settles (no store finds its slot changed under it, no freed object is
 * bound, no unprotected argument is passed) leaves every count equal to the number of variables and
 * fields holding the object plus what cleanups still owe, whatever the callees do in between.
 */
module OwnershipBalance {
  import opened Ownership
  import opened OwnershipLedger

  // ----- Programs the parser can build -----

  /** Types either count references or do not. */
  predicate Regular(t: TypeDef) {
    t.bind == t.release && (t.release ==> t.pointer)
  }

  /** Expressions before makeNonVolatile, with the types the parser checks. */
  predicate Source(e: Expr) {
    && Regular(TypeOf(e))
    && match e
       case VarRef(v) => !v.kind.Field?
       case FieldRef(obj, f) => Source(obj) && f.kind.Field?
       case FuncCall(_, receiver, args) =>
         (receiver.Some? ==> Source(receiver.value)) && forall i :: 0 <= i < |args| ==> Source(args[i])
       case AssignExpr(aggregate, v, value) =>
         && Source(value) && v.ty.release == TypeOf(value).release
         && (aggregate.Some? ==> Source(aggregate.value)) && aggregate.Some? == v.kind.Field?
       case MultiExpr(elems) => elems != [] && forall i :: 0 <= i < |elems| ==> Source(elems[i])
       case SetRegister(_, e) => Source(e)
       case GetRegister(_, _) => true
       case NonVolatile(_) => false
       case BindCall(_) => false
       case NullConst(_) => true
  }

  // ----- What is kept -----

  ghost predicate InFrames(w: World, frame: nat) {
    forall s :: s in w.slots && s.FrameSlot? ==> s.frame <= frame
  }

  ghost predicate SameFrames(w: World, w': World) {
    forall s: Slot :: s.FrameSlot? ==> Get(w, s) == Get(w', s) && (s in w.slots <==> s in w'.slots)
  }

  ghost predicate Sound(s: State, extra: multiset<Ref>) {
    Books(s.world, Owed(s) + extra) && InFrames(s.world, s.frame)
  }

  predicate Extends(xs: seq<Ref>, ys: seq<Ref>) {
    |xs| <= |ys| && ys[|ys| - |xs|..] == xs
  }

  /** No variable comes or goes, and those of the callers' frames keep their values. */
  ghost predicate SameBelow(w: World, w': World, frame: nat) {
    forall s: Slot :: s.FrameSlot? ==>
      (s in w.slots <==> s in w'.slots) && (s.frame < frame ==> Get(w, s) == Get(w', s))
  }

  ghost predicate KeepsCover(s: State, t: State) {
    forall r {:trigger Covered(s.world, Owed(s), r)} {:trigger Covered(t.world, Owed(t), r)} ::
      Covered(s.world, Owed(s), r) ==> Covered(t.world, Owed(t), r)
  }

  /** What was covered stays covered, the frame only gains cleanups, and callers' variables stay. */
  ghost predicate Evolves(s: State, t: State) {
    && Extends(s.cleanups, t.cleanups) && s.frame == t.frame && s.outer == t.outer
    && SameBelow(s.world, t.world, s.frame) && KeepsCover(s, t)
  }

  lemma SameBelowTrans(w: World, w': World, w'': World, frame: nat)
    requires SameBelow(w, w', frame) && SameBelow(w', w'', frame)
    ensures SameBelow(w, w'', frame)
  {
    forall k: Slot | k.FrameSlot?
      ensures (k in w.slots <==> k in w''.slots) && (k.frame < frame ==> Get(w, k) == Get(w'', k))
    {
      assert k.frame < frame ==> Get(w, k) == Get(w', k) == Get(w'', k);
      assert k in w.slots <==> k in w'.slots;
    }
  }

  lemma EvolvesTrans(s: State, t: State, u: State)
    requires Evolves(s, t) && Evolves(t, u)
    ensures Evolves(s, u)
  {
    hide Covered, Owed, SameBelow;
    SameBelowTrans(s.world, t.world, u.world, s.frame);
    var n := |u.cleanups| - |t.cleanups|;
    assert u.cleanups[|u.cleanups| - |s.cleanups|..] == u.cleanups[n..][|t.cleanups| - |s.cleanups|..];
  }

  /** The reference a productive result carries. */
  function Owes(r: Result): multiset<Ref> {
    if r.productive then Share(r.ty, r.val) else multiset{}
  }

  /** A callee that settles keeps the books of whoever calls it: it hands over the reference its
      result carries, and touches neither its caller's variables nor its caller's cleanups. */
  ghost predicate Lawful(c: Callee) {
    forall func: FuncDef, vals: seq<Result>, w: World, frame: nat, owed: multiset<Ref> ::
      Regular(func.result) && Books(w, owed) && InFrames(w, frame) && AllCovered(w, owed, vals) ==>
        var o := c(func, vals, w, frame, owed);
        o.settled ==> Books(o.world, owed + Share(func.result, o.val)) && SameFrames(w, o.world)
  }

  // ----- One step each -----

  lemma Pushed(s: State, r: Ref)
    ensures Owed(s.(cleanups := [r] + s.cleanups)) == Owed(s) + multiset{r}
  {
    assert multiset([r] + s.cleanups) == multiset{r} + multiset(s.cleanups);
  }

  lemma TransientStep(s: State, r: Result)
    requires Sound(s, Owes(r))
    ensures Sound(HandleTransient(s, r), multiset{}) && Evolves(s, HandleTransient(s, r))
  {
    hide Books, InFrames;
    var t := HandleTransient(s, r);
    if r.productive && r.ty.release {
      Pushed(s, r.val);
    }
    assert Owed(t) + multiset{} == Owed(s) + Owes(r);
  }

  lemma BindStep(s: State, r: Ref)
    requires Sound(s, multiset{})
    ensures Sound(BindValue(s, r), multiset{r}) && Evolves(s, BindValue(s, r))
  {
    hide Ledger;
    assert Owed(s) + multiset{} == Owed(s) && Owed(BindValue(s, r)) == Owed(s);
    BindLedger(s.world, Owed(s), r);
    forall slot ensures !Orphan(Bind(s.world, r), slot) {
      assert !Orphan(s.world, slot);
    }
  }

  /** After handleAssignment the result has a reference for the variable to take. */
  lemma AssignmentStep(s: State, r: Result)
    requires Sound(s, Owes(r)) && Regular(r.ty)
    ensures Sound(HandleAssignment(s, r), Share(r.ty, r.val)) && Evolves(s, HandleAssignment(s, r))
  {
    hide Books, InFrames, Owed, Covered, Bind;
    if !r.productive && r.ty.bind {
      BindStep(s, r.val);
    }
  }

  /** A store and the cleanup of the old value. */
  function Put(s: State, slot: Slot, was: Ref, val: Ref): State {
    var t := Store(s, slot, was, val);
    if slot.v.ty.release then t.(cleanups := [was] + t.cleanups) else t
  }

  lemma PutStep(s: State, slot: Slot, was: Ref, val: Ref)
    requires Sound(s, Share(slot.v.ty, val)) && Put(s, slot, was, val).settled
    requires slot.FrameSlot? ==> slot.frame == s.frame
    ensures Sound(Put(s, slot, was, val), multiset{}) && Evolves(s, Put(s, slot, was, val))
  {
    hide Books, Covered, KeepsCover, Matches, InFrames, SameBelow;
    PutBooks(s, slot, was, val);
    PutFrames(s.world, slot, val, s.frame);
    PutCovers(s, slot, was, val);
  }

  lemma PutFrames(w: World, slot: Slot, val: Ref, frame: nat)
    requires InFrames(w, frame) && Defined(w, slot) && (slot.FrameSlot? ==> slot.frame == frame)
    ensures var u := w.(slots := w.slots[slot := val]); InFrames(u, frame) && SameBelow(w, u, frame)
  {
  }

  lemma PutBooks(s: State, slot: Slot, was: Ref, val: Ref)
    requires Books(s.world, Owed(s) + Share(slot.v.ty, val)) && Put(s, slot, was, val).settled
    ensures var t := Put(s, slot, was, val); Books(t.world, Owed(t) + multiset{})
  {
    hide Books;
    var t := Put(s, slot, was, val);
    StoreKeepsBooksIff(s.world, Owed(s), slot, was, val);
    if slot.v.ty.release {
      Pushed(s, was);
    }
    assert Owed(t) + multiset{} == Owed(s) + Share(slot.v.ty, was);
  }

  lemma PutCovers(s: State, slot: Slot, was: Ref, val: Ref)
    requires Put(s, slot, was, val).settled
    ensures KeepsCover(s, Put(s, slot, was, val))
  {
    var t := Put(s, slot, was, val);
    if slot.v.ty.release {
      Pushed(s, was);
    }
    forall r | Covered(s.world, Owed(s), r) ensures Covered(t.world, Owed(t), r) {
      if r.Obj? && Owed(s)[r] == 0 {
        var k :| k in s.world.slots && Steady(k) && s.world.slots[k] == r;
        assert k == slot || (k in t.world.slots && t.world.slots[k] == r);
      }
    }
  }

  lemma AssignVarStep(s: State, slot: Slot, was: Ref, r: Result)
    requires Sound(s, Owes(r)) && Regular(r.ty) && slot.v.ty.release == r.ty.release
    requires !slot.FieldSlot? && (slot.FrameSlot? ==> slot.frame == s.frame)
    requires AssignVar(s, slot, was, r).settled
    ensures Sound(AssignVar(s, slot, was, r), multiset{}) && Evolves(s, AssignVar(s, slot, was, r))
  {
    hide Books, InFrames, Covered;
    var t := HandleAssignment(s, r);
    assert AssignVar(s, slot, was, r) == Put(t, slot, was, r.val);
    AssignmentStep(s, r);
    PutStep(t, slot, was, r.val);
    EvolvesTrans(s, t, AssignVar(s, slot, was, r));
  }

  lemma AssignFieldStep(s: State, obj: Ref, f: VarDef, was: Ref, r: Result)
    requires Sound(s, Owes(r)) && Regular(r.ty) && f.ty.release == r.ty.release
    requires AssignField(s, obj, f, was, r).settled
    ensures Sound(AssignField(s, obj, f, was, r), multiset{}) && Evolves(s, AssignField(s, obj, f, was, r))
  {
    hide Books, InFrames, Covered, Matches, HandleAssignment;
    var t := HandleAssignment(s, r);
    AssignmentStep(s, r);
    if obj.Obj? {
      assert AssignField(s, obj, f, was, r) == Put(t, FieldSlot(obj.id, f), was, r.val);
      PutStep(t, FieldSlot(obj.id, f), was, r.val);
      EvolvesTrans(s, t, AssignField(s, obj, f, was, r));
    }
  }

  lemma InvokeStep(func: FuncDef, c: Callee, s: State, vals: seq<Result>)
    requires Lawful(c) && Regular(func.result) && Sound(s, multiset{}) && Invoke(func, c, s, vals).0.settled
    ensures var p := Invoke(func, c, s, vals);
      Sound(p.0, Owes(p.1)) && Evolves(s, p.0) && SameFrames(s.world, p.0.world)
  {
    hide Books, AllCovered, Owed;
    var p := Invoke(func, c, s, vals);
    assert Owed(s) + multiset{} == Owed(s);
    assert Owed(p.0) == Owed(s) by { SameOwed(s, p.0); }
    SameFramesBelow(s.world, p.0.world, s.frame);
    forall r | Covered(s.world, Owed(s), r) ensures Covered(p.0.world, Owed(p.0), r) {
      if r.Obj? && Owed(s)[r] == 0 {
        var k :| k in s.world.slots && Steady(k) && s.world.slots[k] == r;
        assert Get(s.world, k) == Get(p.0.world, k);
      }
    }
  }

  lemma SameFramesBelow(w: World, w': World, frame: nat)
    requires SameFrames(w, w')
    ensures SameBelow(w, w', frame) && (InFrames(w, frame) ==> InFrames(w', frame))
  {
    forall k: Slot | k.FrameSlot? ensures (k in w.slots <==> k in w'.slots) && Get(w, k) == Get(w', k) {
      assert Get(w, k) == Get(w', k);
    }
  }

  lemma SameOwed(s: State, t: State)
    requires s.outer == t.outer && s.cleanups == t.cleanups
    ensures Owed(s) == Owed(t)
  {
  }

  // ----- A whole expression -----

  /** What an unprotected operand turns into: evaluate, plan one release, bind once. */
  ghost function RunProtected(e: Expr, reg: nat, c: Callee, s: State): (State, Result) {
    var p := Run(e, c, s);
    var t := p.0.(regs := p.0.regs[reg := p.1.(productive := true)]);
    (BindValue(ForceCleanup(t, p.1), p.1.val), Result(p.1.val, false, TypeOf(e)))
  }

  lemma RunLast(e: Expr, c: Callee, s: State)
    ensures RunElems([e], c, s) == Run(e, c, s)
  {
  }

  lemma RunCons(e: Expr, es: seq<Expr>, c: Callee, s: State)
    requires es != []
    ensures RunElems([e] + es, c, s) == RunElems(es, c, HandleTransient(Run(e, c, s).0, Run(e, c, s).1))
  {
    assert ([e] + es)[1..] == es;
  }

  lemma ProtectedRun(e: Expr, reg: nat, c: Callee, s: State)
    requires Unprotected(e)
    ensures RunOperand(e, true, reg, c, s) == RunProtected(e, reg, c, s)
  {
    hide RunElems;
    var get := GetRegister(reg, TypeOf(e));
    var es := [SetRegister(reg, NonVolatile(e)), BindCall(get), get];
    assert es == [es[0]] + ([es[1]] + [es[2]]);
    RunCons(es[0], [es[1]] + [es[2]], c, s);
    var p := Run(es[0], c, s);
    assert p.1 == Run(e, c, s).1.(productive := true);
    var t := HandleTransient(p.0, p.1);
    RunCons(es[1], [es[2]], c, t);
    var u := Run(es[1], c, t);
    assert u.0 == BindValue(t, p.1.val);
    RunLast(es[2], c, u.0);
  }

  lemma ProtectStep(s: State, r: Result, regs: map<nat, Result>)
    requires Sound(s, Owes(r)) && !r.productive && r.ty.release
    ensures var t := BindValue(ForceCleanup(s.(regs := regs), r), r.val);
      Sound(t, multiset{}) && Evolves(s, t) && Covered(t.world, Owed(t), r.val)
  {
    hide Books, InFrames, Bind;
    BindStep(s, r.val);
    var t := BindValue(ForceCleanup(s.(regs := regs), r), r.val);
    Pushed(s, r.val);
    assert Owed(t) + multiset{} == Owed(s) + multiset{r.val};
    EvolvesTrans(s, BindValue(s, r.val), t);
  }

  /** Conservation for one expression, nested assignments and field targets included. */
  lemma {:induction false} Balance(e: Expr, c: Callee, s: State)
    requires Lawful(c) && Source(e) && Sound(s, multiset{}) && Run(e, c, s).0.settled
    ensures Sound(Run(e, c, s).0, Owes(Run(e, c, s).1)) && Evolves(s, Run(e, c, s).0)
    decreases Weight(e), 1
  {
    hide Sound, Evolves, Lawful, HandleTransient, Invoke, RunAssign, RunOperands, RunElems, Owes;
    match e
    case VarRef(v) => BorrowStep(s, Run(e, c, s).1);
    case FieldRef(obj, f) =>
      var p := Run(obj, c, s);
      TransientSettles(p.0, p.1);
      Balance(obj, c, s);
      TransientStep(p.0, p.1);
      EvolvesTrans(s, p.0, HandleTransient(p.0, p.1));
      BorrowStep(HandleTransient(p.0, p.1), Run(e, c, s).1);
    case FuncCall(func, receiver, args) =>
      OperandsWeight(receiver, args);
      var es := Operands(receiver, args);
      var s0 := s.(next := s.next + |es|);
      var p := RunOperands(es, !func.special, s.next, c, s0);
      RegisterNext(s, s0);
      BalanceOperands(es, !func.special, s.next, c, s0);
      InvokeStep(func, c, p.0, p.1);
      EvolvesTrans(s, s0, p.0);
      EvolvesTrans(s, p.0, Invoke(func, c, p.0, p.1).0);
    case AssignExpr(_, _, _) => BalanceAssign(e, c, s);
    case MultiExpr(elems) => BalanceElems(elems, c, s);
    case SetRegister(reg, e') =>
      Balance(e', c, s);
      var p := Run(e', c, s);
      RegisterStep(s, p.0, p.1, p.0.regs[reg := p.1]);
    case GetRegister(_, _) => BorrowStep(s, Run(e, c, s).1);
    case NullConst(_) => BorrowStep(s, Run(e, c, s).1);
  }

  lemma BorrowStep(s: State, r: Result)
    requires Sound(s, multiset{}) && !r.productive
    ensures Sound(s, Owes(r)) && Evolves(s, s)
  {
    hide Books, InFrames, Covered;
  }

  lemma RegisterStep(s: State, t: State, r: Result, regs: map<nat, Result>)
    requires Sound(t, Owes(r)) && Evolves(s, t)
    ensures Sound(t.(regs := regs), Owes(r)) && Evolves(s, t.(regs := regs))
  {
    hide Books, InFrames, Covered;
  }

  lemma TransientSettles(s: State, r: Result)
    ensures HandleTransient(s, r).settled == s.settled
  {
  }

  lemma {:induction false} BalanceElems(es: seq<Expr>, c: Callee, s: State)
    requires Lawful(c) && es != [] && (forall i :: 0 <= i < |es| ==> Source(es[i]))
    requires Sound(s, multiset{}) && RunElems(es, c, s).0.settled
    ensures Sound(RunElems(es, c, s).0, Owes(RunElems(es, c, s).1)) && Evolves(s, RunElems(es, c, s).0)
    decreases ElemsWeight(es), 0
  {
    hide Sound, Evolves, Lawful, HandleTransient, Run, Owes, Source;
    var p := Run(es[0], c, s);
    TransientSettles(p.0, p.1);
    Balance(es[0], c, s);
    if |es| > 1 {
      TransientStep(p.0, p.1);
      var t := HandleTransient(p.0, p.1);
      BalanceElems(es[1..], c, t);
      EvolvesTrans(s, p.0, t);
      EvolvesTrans(s, t, RunElems(es, c, s).0);
    }
  }

  lemma {:induction false} BalanceOperands(es: seq<Expr>, protect: bool, reg: nat, c: Callee, s: State)
    requires Lawful(c) && (forall i :: 0 <= i < |es| ==> Source(es[i]))
    requires Sound(s, multiset{}) && RunOperands(es, protect, reg, c, s).0.settled
    ensures var p := RunOperands(es, protect, reg, c, s); Sound(p.0, multiset{}) && Evolves(s, p.0)
    decreases OperandWeights(es), 0
  {
    hide Sound, Evolves, Lawful, RunOperand, Source;
    if es == [] {
      BorrowStep(s, Result(Nil, false, VOID));
    } else {
      var p := RunOperand(es[0], protect, reg, c, s);
      var q := RunOperands(es[1..], protect, reg + 1, c, p.0);
      BalanceOperand(es[0], protect, reg, c, s);
      BalanceOperands(es[1..], protect, reg + 1, c, p.0);
      EvolvesTrans(s, p.0, q.0);
    }
  }

  lemma {:induction false} BalanceOperand(e: Expr, protect: bool, reg: nat, c: Callee, s: State)
    requires Lawful(c) && Source(e) && Sound(s, multiset{}) && RunOperand(e, protect, reg, c, s).0.settled
    ensures var p := RunOperand(e, protect, reg, c, s); Sound(p.0, multiset{}) && Evolves(s, p.0)
    decreases Weight(e) + 11, 0
  {
    hide Sound, Evolves, Lawful, HandleTransient, Run, Owes, BindValue, ForceCleanup;
    var p := Run(e, c, s);
    if protect && Unprotected(e) {
      ProtectedRun(e, reg, c, s);
      ProtectSettles(p.0, p.1, p.0.regs[reg := p.1.(productive := true)]);
      Balance(e, c, s);
      ProtectStep(p.0, p.1, p.0.regs[reg := p.1.(productive := true)]);
    } else {
      TransientSettles(p.0, p.1);
      Balance(e, c, s);
      TransientStep(p.0, p.1);
    }
    EvolvesTrans(s, p.0, RunOperand(e, protect, reg, c, s).0);
  }

  lemma RegisterNext(s: State, t: State)
    requires t == s.(next := t.next) && Sound(s, multiset{})
    ensures Sound(t, multiset{}) && Evolves(s, t)
  {
    hide Books, InFrames, Covered;
  }

  lemma ProtectSettles(s: State, r: Result, regs: map<nat, Result>)
    requires BindValue(ForceCleanup(s.(regs := regs), r), r.val).settled
    ensures s.settled
  {
  }

  lemma {:induction false} BalanceAssign(e: Expr, c: Callee, s: State)
    requires Lawful(c) && e.AssignExpr? && Source(e) && Sound(s, multiset{}) && RunAssign(e, c, s).0.settled
    ensures Sound(RunAssign(e, c, s).0, Owes(RunAssign(e, c, s).1)) && Evolves(s, RunAssign(e, c, s).0)
    decreases Weight(e), 0, 1
  {
    hide Sound, Evolves, Lawful, Run, Owes, AssignVar, RunAssignField;
    var last := RunAssign(e, c, s);
    if e.aggregate.Some? {
      BalanceAssignField(e, c, s);
    } else {
      var slot, p := SlotOf(e.target, s.frame), Run(e.value, c, s);
      Balance(e.value, c, s);
      AssignVarStep(p.0, slot, Get(s.world, slot), p.1);
      EvolvesTrans(s, p.0, last.0);
      BorrowStep(last.0, last.1);
    }
  }

  lemma {:induction false} BalanceAssignField(e: Expr, c: Callee, s: State)
    requires Lawful(c) && e.AssignExpr? && e.aggregate.Some? && Source(e)
    requires Sound(s, multiset{}) && RunAssignField(e, c, s).0.settled
    ensures Sound(RunAssignField(e, c, s).0, Owes(RunAssignField(e, c, s).1))
    ensures Evolves(s, RunAssignField(e, c, s).0)
    decreases Weight(e), 0, 0
  {
    hide Sound, Evolves, Lawful, HandleTransient, Run, Owes, AssignField;
    var f, a := e.target, Run(e.aggregate.value, c, s);
    var t, was := a.0.(settled := a.0.settled && !Leaks(a.1)), Nil;
    TransientSettles(a.0, a.1);
    if f.ty.release {
      var s1 := HandleTransient(a.0, a.1);
      var b := Run(e.aggregate.value, c, s1);
      t, was := HandleTransient(b.0, b.1), GetField(b.0.world, b.1.val, f);
      TransientSettles(b.0, b.1);
      Balance(e.aggregate.value, c, s);
      TransientStep(a.0, a.1);
      Balance(e.aggregate.value, c, s1);
      TransientStep(b.0, b.1);
      EvolvesTrans(s, a.0, s1);
      EvolvesTrans(s, s1, b.0);
      EvolvesTrans(s, b.0, t);
    } else {
      Balance(e.aggregate.value, c, s);
      DropStep(a.0, a.1);
      EvolvesTrans(s, a.0, t);
    }
    var p := Run(e.value, c, t);
    Balance(e.value, c, t);
    EvolvesTrans(s, t, p.0);
    AssignFieldStep(p.0, a.1.val, f, was, p.1);
    var last := RunAssignField(e, c, s);
    EvolvesTrans(s, p.0, last.0);
    BorrowStep(last.0, last.1);
  }

  /** Dropping a result without handleTransient keeps the books exactly when it carries no reference. */
  lemma DroppedBalancesIff(s: State, r: Result)
    requires Sound(s, Owes(r))
    ensures Books(s.world, Owed(s)) <==> !Leaks(r)
  {
    hide InFrames, Covered, Holders, NoOrphans;
    var w := s.world;
    if Leaks(r) {
      var o := r.val.id;
      assert Count(w, o) == |Holders(w.slots, o)| + (Owed(s) + Owes(r))[Obj(o)];
      assert (Owed(s) + Owes(r))[Obj(o)] == Owed(s)[Obj(o)] + 1;
    } else {
      forall o: nat ensures Count(w, o) == |Holders(w.slots, o)| + Owed(s)[Obj(o)] {
        assert Count(w, o) == |Holders(w.slots, o)| + (Owed(s) + Owes(r))[Obj(o)];
      }
    }
  }

  lemma DropStep(s: State, r: Result)
    requires Sound(s, Owes(r)) && !Leaks(r)
    ensures var t := s.(settled := s.settled && !Leaks(r)); Sound(t, multiset{}) && Evolves(s, t)
  {
    hide Books, InFrames, Covered;
    DroppedBalancesIff(s, r);
    assert Owed(s) + multiset{} == Owed(s);
  }
}
