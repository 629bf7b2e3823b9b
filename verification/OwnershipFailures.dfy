/**
 * Expressions that upset the books or lose their argument, each with exactly the states in which they
 * do: a dropped productive aggregate, an aggregate that is evaluated twice, and an assignment passed as
 * an argument.
 */
module OwnershipFailures {
  import opened Ownership
  import opened OwnershipLedger
  import opened OwnershipBalance
  import opened OwnershipProgram
  import opened OwnershipExact

  // ----- Functions that hand out objects -----

  /** A function that binds an object of its choice and returns it. */
  ghost function Giving(pick: World -> nat): Callee {
    (func: FuncDef, vals: seq<Result>, w: World, frame: nat, owed: multiset<Ref>) =>
      if func.result.release then Outcome(Bind(w, Obj(pick(w))), Obj(pick(w)), true, false)
      else Outcome(w, Nil, true, false)
  }

  lemma GivingIsLawful(pick: World -> nat)
    ensures Lawful(Giving(pick))
  {
    hide Books, InFrames, AllCovered, Regular, Bind, SameFrames;
    var c := Giving(pick);
    forall func: FuncDef, vals: seq<Result>, w: World, frame: nat, owed: multiset<Ref> |
      Regular(func.result) && Books(w, owed) && InFrames(w, frame) && AllCovered(w, owed, vals)
      ensures var o := c(func, vals, w, frame, owed);
        Books(o.world, owed + Share(func.result, o.val)) && SameFrames(w, o.world)
    {
      SameFramesRefl(w, w);
      if func.result.release {
        BindBooks(w, owed, Obj(pick(w)));
      } else {
        AddNil(w, owed, Share(func.result, Nil));
      }
    }
  }

  lemma BindBooks(w: World, owed: multiset<Ref>, r: Ref)
    requires Books(w, owed)
    ensures Books(Bind(w, r), owed + multiset{r}) && SameFrames(w, Bind(w, r)) && Bind(w, r).slots == w.slots
  {
    hide Ledger;
    BindLedger(w, owed, r);
    forall s ensures !Orphan(Bind(w, r), s) {
      assert !Orphan(w, s);
    }
  }

  /** A function without parameters whose result is counted. */
  predicate Maker(mk: FuncDef) {
    Regular(mk.result) && mk.result.release && mk.params == []
  }

  function Make(mk: FuncDef): Expr {
    FuncCall(mk, None, [])
  }

  lemma Made(mk: FuncDef, pick: World -> nat, s: State)
    requires Maker(mk) && s.settled
    ensures var o := Obj(pick(s.world));
      Run(Make(mk), Giving(pick), s) == (s.(world := Bind(s.world, o)), Result(o, true, mk.result))
  {
    hide Run, Bind;
    CallRun(mk, Giving(pick), s);
  }

  lemma NullRuns(t: TypeDef, c: Callee, s: State)
    ensures Run(NullConst(t), c, s) == (s, Result(Nil, false, t))
  {
  }

  /** `mk().f = null` */
  function SetNull(mk: FuncDef, f: VarDef): (e: Expr)
    requires Maker(mk) && f.kind.Field? && Regular(f.ty)
    ensures Source(e) && Source(Make(mk))
  {
    assert Source(Make(mk)) && Source(NullConst(f.ty));
    AssignExpr(Some(Make(mk)), f, NullConst(f.ty))
  }

  // ----- Dropped -----

  /** For a field that needs no release `mk().f = null` drops the reference `mk` returned. */
  lemma ProductiveAggregateLeaks(mk: FuncDef, f: VarDef, pick: World -> nat, s: State)
    requires Maker(mk) && f.kind.Field? && Regular(f.ty) && !f.ty.release && Sound(s, multiset{}) && s.settled
    ensures Lawful(Giving(pick))
    ensures var t := Run(SetNull(mk, f), Giving(pick), s).0; !Books(t.world, Owed(t))
  {
    hide Books, InFrames, Bind, Lawful, Run;
    GivingIsLawful(pick);
    var c, o := Giving(pick), Obj(pick(s.world));
    Made(mk, pick, s);
    var a := Run(Make(mk), c, s);
    SoundMade(s, o, mk.result);
    DroppedBalancesIff(a.0, a.1);
    PlainStore(mk, f, c, s);
    PlainSlot(a.0.world, Owed(a.0), Owed(a.0) + Owes(a.1), FieldSlot(o.id, f));
  }

  lemma SoundMade(s: State, o: Ref, ty: TypeDef)
    requires Sound(s, multiset{}) && ty.release
    ensures var p := (s.(world := Bind(s.world, o)), Result(o, true, ty)); Sound(p.0, Owes(p.1))
  {
    hide Books;
    assert Owed(s) + multiset{} == Owed(s);
    BindBooks(s.world, Owed(s), o);
    BindSlots(s.world, o);
  }

  lemma PlainStore(mk: FuncDef, f: VarDef, c: Callee, s: State)
    requires Maker(mk) && f.kind.Field? && Regular(f.ty) && !f.ty.release && Run(Make(mk), c, s).1.val.Obj?
    ensures var a, t := Run(Make(mk), c, s), Run(SetNull(mk, f), c, s).0;
      t.world == a.0.world.(slots := a.0.world.slots[FieldSlot(a.1.val.id, f) := Nil]) && Owed(t) == Owed(a.0)
  {
    hide Matches, Defined;
    var e, a := SetNull(mk, f), Run(Make(mk), c, s);
    NullRuns(f.ty, c, a.0.(settled := a.0.settled && !Leaks(a.1)));
    assert Run(e, c, s) == RunAssign(e, c, s) == RunAssignField(e, c, s);
  }

  /** A slot that is not counted does not matter to the counts. */
  lemma PlainSlot(w: World, owed: multiset<Ref>, more: multiset<Ref>, k: Slot)
    requires !k.v.ty.release && Books(w, more)
    ensures Books(w.(slots := w.slots[k := Nil]), owed) ==> Books(w, owed)
  {
    var u := w.(slots := w.slots[k := Nil]);
    if Books(u, owed) {
      forall o: nat ensures Count(w, o) == |Holders(w.slots, o)| + owed[Obj(o)] {
        assert Holders(u.slots, o) == Holders(w.slots, o);
        assert Count(u, o) == |Holders(u.slots, o)| + owed[Obj(o)];
      }
    }
  }

  // ----- Evaluated twice -----

  /** A pool that hands out `first` as long as its count is at most `n`, and `second` after that. */
  ghost function Pool(first: nat, second: nat, n: int): World -> nat {
    (w: World) => if Count(w, first) <= n then first else second
  }

  /** For a field that needs a release `mk().f = null` calls `mk` twice.  If it is given two objects, the
      books are kept if and only if the field holds the same in both: the store goes to the first, and the
      release to what the second holds. */
  lemma AggregateTwiceBalancesIff(mk: FuncDef, f: VarDef, first: nat, second: nat, s: State)
    requires Maker(mk) && f.kind.Field? && Regular(f.ty) && f.ty.release && Sound(s, multiset{}) && s.settled
    requires first != second
    ensures var c := Giving(Pool(first, second, Count(s.world, first)));
      var t := Run(SetNull(mk, f), c, s).0;
      && Lawful(c)
      && (Books(t.world, Owed(t)) <==> Get(s.world, FieldSlot(first, f)) == Get(s.world, FieldSlot(second, f)))
  {
    hide Books, InFrames, Bind, Lawful, Run, HandleTransient, Count;
    var pick := Pool(first, second, Count(s.world, first));
    var c, o, o2 := Giving(pick), Obj(first), Obj(second);
    GivingIsLawful(pick);
    Made(mk, pick, s);
    Bound(s.world, first);
    var a := Run(Make(mk), c, s);
    assert pick(s.world) == first;
    SoundMade(s, o, mk.result);
    Transient(a.0, a.1);
    var s1 := HandleTransient(a.0, a.1);
    Made(mk, pick, s1);
    var b := Run(Make(mk), c, s1);
    assert pick(s1.world) == second;
    TransientStep(a.0, a.1);
    SoundMade(s1, o2, mk.result);
    Transient(b.0, b.1);
    BindSlots(s.world, o);
    BindSlots(s1.world, o2);
    var s2 := HandleTransient(b.0, b.1);
    NullRuns(f.ty, c, s2);
    FieldAssignmentBalancesIff(SetNull(mk, f), c, s);
    NullAssigned(s2, f.ty);
    StillCounted(s, s1, first, second);
  }

  lemma Bound(w: World, o: nat)
    ensures Count(Bind(w, Obj(o)), o) == Count(w, o) + 1
    ensures forall q: nat :: q != o ==> Count(Bind(w, Obj(o)), q) == Count(w, q)
  {
  }

  lemma Transient(s: State, r: Result)
    ensures var t := HandleTransient(s, r); t.world == s.world && t.settled == s.settled
  {
  }

  lemma NullAssigned(s: State, t: TypeDef)
    ensures HandleAssignment(s, Result(Nil, false, t)).world == s.world
  {
  }

  lemma StillCounted(s: State, s1: State, first: nat, second: nat)
    requires Sound(s, multiset{}) && s1.world == Bind(s.world, Obj(first)) && first != second
    ensures Count(Bind(s1.world, Obj(second)), first) > 0
  {
    assert Count(s.world, first) == |Holders(s.world.slots, first)| + (Owed(s) + multiset{})[Obj(first)];
  }

  // ----- Not covered -----

  /** One function gives, the others take away. */
  ghost function Either(mk: FuncDef, c: Callee, d: Callee): Callee {
    (func: FuncDef, vals: seq<Result>, w: World, frame: nat, owed: multiset<Ref>) =>
      if func == mk then c(func, vals, w, frame, owed) else d(func, vals, w, frame, owed)
  }

  lemma EitherIsLawful(mk: FuncDef, c: Callee, d: Callee)
    requires Lawful(c) && Lawful(d)
    ensures Lawful(Either(mk, c, d))
  {
    hide Books, InFrames, AllCovered, Regular, SameFrames;
  }

  /** `g = mk()` */
  function SetGlobal(mk: FuncDef, g: VarDef): (e: Expr)
    requires Maker(mk) && g.kind.Global? && g.ty == mk.result
    ensures Source(e) && Source(Make(mk)) && !Unprotected(e) && !IsProductive(e)
  {
    assert Source(Make(mk));
    AssignExpr(None, g, Make(mk))
  }

  /** As an operand, `g = mk()` leaves the object it passes on covered if and only if something else
      covers it, or the old value of `g`, whose release is planned, was the same object. */
  lemma AssignedOperandCoveredIff(mk: FuncDef, g: VarDef, reg: nat, pick: World -> nat, d: Callee, s: State)
    requires Maker(mk) && g.kind.Global? && g.ty == mk.result && Sound(s, multiset{}) && s.settled && Lawful(d)
    ensures var c := Either(mk, Giving(pick), d);
      var o, p := Obj(pick(s.world)), RunOperand(SetGlobal(mk, g), true, reg, c, s);
      && Lawful(c) && p.0.settled && Sound(p.0, multiset{}) && p.1.val == o
      && (Covered(p.0.world, Owed(p.0), o) <==> Covered(s.world, Owed(s), o) || Get(s.world, GlobalSlot(g)) == o)
  {
    hide Books, InFrames, Lawful, Covered;
    var c, e, o := Either(mk, Giving(pick), d), SetGlobal(mk, g), Obj(pick(s.world));
    GivingIsLawful(pick);
    EitherIsLawful(mk, Giving(pick), d);
    EitherMakes(mk, pick, d, s);
    AssignedRun(mk, g, reg, c, s);
    var p := RunOperand(e, true, reg, c, s);
    assert p.0.settled && p.1.val == o by { BindSlots(s.world, o); }
    BalanceOperand(e, true, reg, c, s);
    BindSlots(s.world, o);
    CoveredAfter(s, p.0, g, o);
  }

  lemma EitherMakes(mk: FuncDef, pick: World -> nat, d: Callee, s: State)
    requires Maker(mk) && s.settled
    ensures var o := Obj(pick(s.world));
      Run(Make(mk), Either(mk, Giving(pick), d), s) == (s.(world := Bind(s.world, o)), Result(o, true, mk.result))
  {
    hide Run, Bind;
    CallRun(mk, Either(mk, Giving(pick), d), s);
  }

  lemma AssignedRun(mk: FuncDef, g: VarDef, reg: nat, c: Callee, s: State)
    requires Maker(mk) && g.kind.Global? && g.ty == mk.result
    ensures var p := Run(Make(mk), c, s);
      RunOperand(SetGlobal(mk, g), true, reg, c, s)
        == (AssignVar(p.0, GlobalSlot(g), Get(s.world, GlobalSlot(g)), p.1), Result(p.1.val, false, p.1.ty))
  {
    hide Matches, Defined, RunOperand, AssignVar;
    var e := SetGlobal(mk, g);
    Unguarded(e, true, reg, c, s);
    assert Run(e, c, s) == RunAssign(e, c, s);
  }

  lemma CoveredAfter(s: State, t: State, g: VarDef, o: Ref)
    requires g.kind.Global? && o.Obj? && t.world == Bind(s.world, o).(slots := s.world.slots[GlobalSlot(g) := o])
    requires Owed(t) == Owed(s) + multiset{Get(s.world, GlobalSlot(g))}
    ensures Covered(t.world, Owed(t), o) <==> Covered(s.world, Owed(s), o) || Get(s.world, GlobalSlot(g)) == o
  {
  }

  /** `f(g = mk())` with a new object: the object is gone when `f` returns, if `f` clears what holds it. */
  lemma AssignedArgumentDies(mk: FuncDef, func: FuncDef, g: VarDef, pick: World -> nat, s: State)
    requires Maker(mk) && g.kind.Global? && g.ty == mk.result && Sound(s, multiset{}) && s.settled && func != mk
    requires var o := Obj(pick(s.world)); !Covered(s.world, Owed(s), o) && Get(s.world, GlobalSlot(g)) != o
    ensures var o := Obj(pick(s.world)); var c := Either(mk, Giving(pick), Purging(o));
      Lawful(c) && !Alive(Run(FuncCall(func, None, [SetGlobal(mk, g)]), c, s).0.world, o)
  {
    hide Books, InFrames, Lawful, Covered, RunOperand, Run, Purge;
    var o := Obj(pick(s.world));
    var c, e := Either(mk, Giving(pick), Purging(o)), SetGlobal(mk, g);
    PurgingIsLawful(o);
    var t := s.(next := s.next + 1);
    SoundNext(s, t);
    AssignedOperandCoveredIff(mk, g, s.next, pick, Purging(o), t);
    OneOperand(func, e, c, s);
    Unguarded(e, !func.special, s.next, c, t);
    Unguarded(e, true, s.next, c, t);
    var p := Run(e, c, t);
    assert Owed(p.0) + multiset{} == Owed(p.0);
    UncoveredDies(p.0.world, p.0.frame, Owed(p.0), o, func, [p.1]);
  }

  lemma SoundNext(s: State, t: State)
    requires Sound(s, multiset{}) && t == s.(next := t.next)
    ensures Sound(t, multiset{}) && Owed(t) == Owed(s)
  {
  }

  /** An operand that is not made non-volatile. */
  lemma Unguarded(e: Expr, protect: bool, reg: nat, c: Callee, s: State)
    requires !Unprotected(e) && !IsProductive(e)
    ensures RunOperand(e, protect, reg, c, s) == Run(e, c, s)
  {
  }

  lemma OneOperand(func: FuncDef, e: Expr, c: Callee, s: State)
    ensures var p := RunOperand(e, !func.special, s.next, c, s.(next := s.next + 1));
      Run(FuncCall(func, None, [e]), c, s) == Invoke(func, c, p.0, [p.1])
  {
    assert Operands(None, [e]) == [e] && [e][1..] == [];
    var t := s.(next := s.next + 1);
    var p := RunOperand(e, !func.special, s.next, c, t);
    assert RunOperands([], !func.special, s.next + 1, c, p.0) == (p.0, []);
    assert [p.1] + [] == [p.1];
    assert RunOperands([e], !func.special, s.next, c, t) == (p.0, [p.1]);
  }
}
