/**
 * A condition a compiler can check before emitting anything: no value writes what its own assignment
 * reads, and every counted operand is protected.  Calm programs settle on every run.
 */
module OwnershipCalm {
  import opened Ownership
  import opened OwnershipLedger
  import opened OwnershipBalance
  import opened OwnershipProgram
  import opened OwnershipExact

  /** The globals and fields a call of each function may assign. */
  type Summary = FuncDef -> set<VarDef>

  // ----- What an expression writes and reads -----

  function Writes(e: Expr, ws: Summary): set<VarDef> {
    match e
    case FieldRef(obj, _) => Writes(obj, ws)
    case FuncCall(func, receiver, args) =>
      ws(func) + (if receiver.Some? then Writes(receiver.value, ws) else {}) + WritesAll(args, ws)
    case AssignExpr(aggregate, v, value) =>
      {v} + Writes(value, ws) + if aggregate.Some? then Writes(aggregate.value, ws) else {}
    case MultiExpr(elems) => WritesAll(elems, ws)
    case SetRegister(_, e') => Writes(e', ws)
    case NonVolatile(e') => Writes(e', ws)
    case BindCall(e') => Writes(e', ws)
    case _ => {}
  }

  function WritesAll(es: seq<Expr>, ws: Summary): set<VarDef> {
    if es == [] then {} else Writes(es[0], ws) + WritesAll(es[1..], ws)
  }

  /** A chain of fields from a variable, all of counted types. */
  predicate Path(e: Expr) {
    match e
    case VarRef(v) => v.ty.release
    case FieldRef(obj, f) => Path(obj) && f.ty.release
    case _ => false
  }

  function Reads(e: Expr): set<VarDef> {
    match e
    case VarRef(v) => {v}
    case FieldRef(obj, f) => Reads(obj) + {f}
    case _ => {}
  }

  /** The value is held by something when it is produced (a register may be out of date). */
  predicate Anchored(e: Expr) {
    match e
    case MultiExpr(elems) => elems != [] && Anchored(elems[|elems| - 1])
    case SetRegister(_, e') => Anchored(e')
    case GetRegister(_, t) => !t.release
    case _ => true
  }

  /** The operand is covered for the duration of the call. */
  predicate Passable(e: Expr, protect: bool) {
    || !TypeOf(e).release || IsProductive(e) || (protect && Unprotected(e)) || e.NullConst?
    || (e.VarRef? && (e.v.kind.Local? || e.v.kind.Param?))
    || (e.AssignExpr? && e.target.kind.Local?)
  }

  predicate FitsTypes(func: FuncDef, es: seq<Expr>) {
    |es| == |func.params| && forall i :: 0 <= i < |es| ==> TypeOf(es[i]).release == func.params[i].release
  }

  predicate Calm(e: Expr, ws: Summary, scope: set<VarDef>) {
    match e
    case FieldRef(obj, _) => Calm(obj, ws, scope)
    case FuncCall(func, receiver, args) =>
      && FitsTypes(func, Operands(receiver, args))
      && (receiver.Some? ==> Calm(receiver.value, ws, scope) && Passable(receiver.value, !func.special))
      && forall i :: 0 <= i < |args| ==> Calm(args[i], ws, scope) && Passable(args[i], !func.special)
    case AssignExpr(None, v, value) =>
      && Calm(value, ws, scope) && Anchored(value)
      && !v.kind.Param? && (v.kind.Local? ==> v in scope) && (v.ty.release ==> v !in Writes(value, ws))
    case AssignExpr(Some(aggregate), f, value) =>
      && Calm(value, ws, scope) && Anchored(value)
      && Path(aggregate) && Reads(aggregate) !! Writes(value, ws) && (f.ty.release ==> f !in Writes(value, ws))
    case MultiExpr(elems) => forall i :: 0 <= i < |elems| ==> Calm(elems[i], ws, scope)
    case SetRegister(_, e') => Calm(e', ws, scope)
    case _ => true
  }

  // ----- What a run leaves alone -----

  predicate Proper(k: Slot) {
    match k
    case GlobalSlot(v) => v.kind.Global?
    case FrameSlot(_, v) => v.kind.Local? || v.kind.Param?
    case FieldSlot(_, v) => v.kind.Field?
  }

  /** No dead object comes back, and slots of other variables keep their values; parameters always do. */
  ghost predicate Effect(w: World, w': World, vars: set<VarDef>) {
    && (forall o: nat :: o in w.counts ==> o in w'.counts && (Count(w, o) <= 0 ==> Count(w', o) <= 0))
    && forall k: Slot ::
         Proper(k) && (k.v !in vars || k.v.kind.Param?) &&
           (k.FieldSlot? ==> Count(w, k.owner) > 0 && Count(w', k.owner) > 0) ==>
           Get(w, k) == Get(w', k)
  }

  lemma EffectTrans(w: World, u: World, x: World, a: set<VarDef>, b: set<VarDef>)
    requires Effect(w, u, a) && Effect(u, x, b)
    ensures Effect(w, x, a + b)
  {
    hide Get;
    forall k: Slot | Proper(k) && (k.v !in a + b || k.v.kind.Param?) &&
      (k.FieldSlot? ==> Count(w, k.owner) > 0 && Count(x, k.owner) > 0)
      ensures Get(w, k) == Get(x, k)
    {
      if k.FieldSlot? {
        assert k.owner in w.counts;
      }
      assert Get(w, k) == Get(u, k);
    }
  }

  lemma EffectRefl(w: World)
    ensures Effect(w, w, {})
  {
  }

  lemma EffectMore(w: World, u: World, a: set<VarDef>, b: set<VarDef>)
    requires Effect(w, u, a) && a <= b
    ensures Effect(w, u, b)
  {
  }

  lemma {:induction false} DrainEffect(w: World)
    ensures Effect(w, Drain(w), {}) && (w.faulted ==> Drain(w).faulted)
    ensures forall o: nat :: Count(Drain(w), o) <= Count(w, o)
    decreases |w.slots|
  {
    EffectRefl(w);
    if exists s :: Orphan(w, s) {
      var s :| Orphan(w, s) && Drain(w) == Drain(Destroy(w, s));
      DestroyEffect(w, s);
      DrainEffect(Destroy(w, s));
      EffectTrans(w, Destroy(w, s), Drain(w), {}, {});
    }
  }

  lemma DestroyEffect(w: World, s: Slot)
    requires Orphan(w, s)
    ensures Effect(w, Destroy(w, s), {}) && (w.faulted ==> Destroy(w, s).faulted)
    ensures forall o: nat :: Count(Destroy(w, s), o) <= Count(w, o)
  {
  }

  lemma DecrementEffect(w: World, r: Ref)
    ensures Effect(w, Decrement(w, r), {}) && (w.faulted ==> Decrement(w, r).faulted)
  {
  }

  lemma {:induction false} CloseEffect(w: World, cleanups: seq<Ref>)
    ensures Effect(w, Close(w, cleanups), {})
    decreases |cleanups|
  {
    hide Effect, Drain, Decrement;
    EffectRefl(w);
    if cleanups != [] {
      var u, none: set<VarDef> := Decrement(w, cleanups[0]), {};
      assert none + none == none;
      DecrementEffect(w, cleanups[0]);
      DrainEffect(u);
      EffectTrans(w, u, Drain(u), {}, {});
      CloseEffect(Drain(u), cleanups[1..]);
      EffectTrans(w, Drain(u), Close(w, cleanups), {}, {});
    }
  }

  /** A callee that always settles (or stops), and assigns no more than its summary says. */
  ghost predicate Quiet(c: Callee, ws: Summary) {
    forall func: FuncDef, vals: seq<Result>, w: World, frame: nat, owed: multiset<Ref> ::
      Regular(func.result) && Books(w, owed) && InFrames(w, frame) && AllCovered(w, owed, vals) && Fits(func, vals) ==>
        var o := c(func, vals, w, frame, owed);
        (o.settled || o.stopped) && (o.settled ==> Effect(w, o.world, ws(func)))
  }

  predicate Fits(func: FuncDef, vals: seq<Result>) {
    |vals| == |func.params| && forall i :: 0 <= i < |vals| ==> vals[i].ty.release == func.params[i].release
  }

  /** Something outside the frame holds the reference. */
  ghost predicate Shielded(w: World, frame: nat, outer: multiset<Ref>, r: Ref) {
    r.Nil? || outer[r] > 0 || exists k :: k in w.slots && Steady(k) && k.frame < frame && w.slots[k] == r
  }

  lemma ShieldedIsCovered(w: World, frame: nat, outer: multiset<Ref>, more: multiset<Ref>, r: Ref)
    requires Shielded(w, frame, outer, r)
    ensures Covered(w, outer + more, r)
  {
  }

  lemma ShieldedKept(w: World, w': World, frame: nat, outer: multiset<Ref>, r: Ref)
    requires Shielded(w, frame, outer, r)
    requires forall k: Slot :: k.FrameSlot? && k.frame < frame ==>
      Get(w, k) == Get(w', k) && (k in w.slots <==> k in w'.slots)
    ensures Shielded(w', frame, outer, r)
  {
    if r.Obj? && outer[r] == 0 {
      var k :| k in w.slots && Steady(k) && k.frame < frame && w.slots[k] == r;
      assert Get(w, k) == Get(w', k);
    }
  }

  /** The variables in scope are there, and parameters are covered from outside. */
  ghost predicate Ready(s: State, scope: set<VarDef>) {
    && (forall v :: v in scope && v.kind.Local? ==> FrameSlot(s.frame, v) in s.world.slots)
    && forall v: VarDef :: v.kind.Param? && v.ty.release ==>
         Shielded(s.world, s.frame, s.outer, Get(s.world, FrameSlot(s.frame, v)))
  }

  lemma ReadyStep(s: State, t: State, scope: set<VarDef>, vars: set<VarDef>)
    requires Ready(s, scope) && Evolves(s, t) && Effect(s.world, t.world, vars)
    ensures Ready(t, scope)
  {
    hide Covered, Owed, Shielded, KeepsCover;
    forall v | v in scope && v.kind.Local? ensures FrameSlot(t.frame, v) in t.world.slots {
      assert FrameSlot(s.frame, v) in s.world.slots;
    }
    forall v: VarDef | v.kind.Param? && v.ty.release
      ensures Shielded(t.world, t.frame, t.outer, Get(t.world, FrameSlot(t.frame, v)))
    {
      var k := FrameSlot(s.frame, v);
      assert Get(s.world, k) == Get(t.world, k);
      ShieldedKept(s.world, t.world, s.frame, s.outer, Get(s.world, k));
    }
  }

  // ----- Paths -----

  function PathValue(e: Expr, w: World, frame: nat): Ref {
    match e
    case VarRef(v) => Get(w, SlotOf(v, frame))
    case FieldRef(obj, f) => GetField(w, PathValue(obj, w, frame), f)
    case _ => Nil
  }

  lemma {:induction false} PathRun(e: Expr, c: Callee, s: State)
    requires Path(e)
    ensures Run(e, c, s) == (s, Result(PathValue(e, s.world, s.frame), false, TypeOf(e)))
    decreases e
  {
    if e.FieldRef? {
      PathRun(e.obj, c, s);
    }
  }

  lemma SlotAlive(w: World, owed: multiset<Ref>, k: Slot)
    requires Books(w, owed) && Counted(k)
    ensures Alive(w, Get(w, k))
  {
    hide Ledger;
    if k in w.slots {
      HeldAlive(w, owed, k);
    }
  }

  lemma {:induction false} PathAlive(e: Expr, s: State, extra: multiset<Ref>, scope: set<VarDef>)
    requires Path(e) && Source(e) && Sound(s, extra) && Ready(s, scope)
    ensures Alive(s.world, PathValue(e, s.world, s.frame))
    decreases e
  {
    hide Ledger, Covered, Shielded;
    var owed := Owed(s) + extra;
    match e
    case VarRef(v) =>
      if v.kind.Param? {
        ShieldedIsCovered(s.world, s.frame, s.outer, multiset(s.cleanups) + extra, Get(s.world, FrameSlot(s.frame, v)));
        assert s.outer + (multiset(s.cleanups) + extra) == owed;
        CoveredAlive(s.world, owed, Get(s.world, FrameSlot(s.frame, v)));
      } else {
        SlotAlive(s.world, owed, SlotOf(v, s.frame));
      }
    case FieldRef(obj, f) =>
      var o := PathValue(obj, s.world, s.frame);
      if o.Obj? {
        SlotAlive(s.world, owed, FieldSlot(o.id, f));
      }
  }

  /** What writes none of a path's variables leaves the object at its end the same. */
  lemma {:induction false} PathStable(e: Expr, s: State, x: multiset<Ref>, t: State, y: multiset<Ref>,
                                      scope: set<VarDef>,
                                      vars: set<VarDef>)
    requires Path(e) && Source(e) && Sound(s, x) && Ready(s, scope) && Sound(t, y) && Ready(t, scope)
    requires s.frame == t.frame && Effect(s.world, t.world, vars) && Reads(e) !! vars
    ensures PathValue(e, s.world, s.frame) == PathValue(e, t.world, t.frame)
    decreases e
  {
    hide Sound, Ready;
    match e
    case VarRef(v) => assert SlotOf(v, s.frame).v == v;
    case FieldRef(obj, f) =>
      PathStable(obj, s, x, t, y, scope, vars);
      PathAlive(obj, s, x, scope);
      PathAlive(obj, t, y, scope);
      var o := PathValue(obj, s.world, s.frame);
      if o.Obj? {
        assert Get(s.world, FieldSlot(o.id, f)) == Get(t.world, FieldSlot(o.id, f));
      }
  }

  // ----- Calm expressions settle -----

  /** Ready books, still settled. */
  ghost predicate Fine(s: State, scope: set<VarDef>) {
    Sound(s, multiset{}) && Ready(s, scope) && s.settled
  }

  /** What running a calm expression from `s` has come to. */
  ghost predicate WentWell(s: State, p: (State, Result), e: Expr, scope: set<VarDef>, vars: set<VarDef>) {
    && (p.0.settled || p.0.stopped)
    && (p.0.settled ==>
          && Effect(s.world, p.0.world, vars) && Ready(p.0, scope)
          && (Anchored(e) && p.1.ty.release && !p.1.productive ==> Alive(p.0.world, p.1.val)))
  }

  lemma TransientReady(s: State, r: Result, scope: set<VarDef>)
    requires Sound(s, Owes(r)) && Ready(s, scope) && s.settled
    ensures Fine(HandleTransient(s, r), scope) && Effect(s.world, HandleTransient(s, r).world, {})
  {
    hide Sound, Ready, Evolves, Effect, Owes;
    TransientStep(s, r);
    EffectRefl(s.world);
    ReadyStep(s, HandleTransient(s, r), scope, {});
  }

  lemma StoppedTransient(s: State, r: Result)
    ensures HandleTransient(s, r).stopped == s.stopped && HandleTransient(s, r).settled == s.settled
  {
  }

  lemma {:induction false} CalmRun(e: Expr, c: Callee, ws: Summary, s: State, scope: set<VarDef>)
    requires Lawful(c) && Quiet(c, ws) && Source(e) && Calm(e, ws, scope) && Fine(s, scope)
    ensures WentWell(s, Run(e, c, s), e, scope, Writes(e, ws))
    decreases Weight(e), 1
  {
    hide Sound, Ready, Effect, Lawful, Quiet, HandleTransient, RunAssign, RunOperands, RunElems, Invoke;
    match e
    case VarRef(v) =>
      EffectRefl(s.world);
      if v.ty.release {
        PathAlive(e, s, multiset{}, scope);
      }
    case FieldRef(obj, f) =>
      var p := Run(obj, c, s);
      StoppedTransient(p.0, p.1);
      CalmRun(obj, c, ws, s, scope);
      if p.0.settled {
        Balance(obj, c, s);
        TransientReady(p.0, p.1, scope);
        EffectTrans(s.world, p.0.world, HandleTransient(p.0, p.1).world, Writes(obj, ws), {});
        assert Writes(obj, ws) + {} == Writes(e, ws);
        FieldAlive(p.0, p.1.val, f, Owes(p.1));
        TransientWorld(p.0, p.1);
      }
    case FuncCall(func, receiver, args) => CalmCall(e, c, ws, s, scope);
    case AssignExpr(_, _, _) => CalmAssign(e, c, ws, s, scope);
    case MultiExpr(elems) => CalmElems(elems, c, ws, s, scope);
    case SetRegister(reg, e') =>
      var p := Run(e', c, s);
      CalmRun(e', c, ws, s, scope);
      RegisterReady(p.0, p.0.regs[reg := p.1], scope);
    case GetRegister(_, _) => EffectRefl(s.world);
    case NullConst(_) => EffectRefl(s.world);
  }

  lemma RegisterReady(s: State, regs: map<nat, Result>, scope: set<VarDef>)
    ensures Ready(s, scope) ==> Ready(s.(regs := regs), scope)
  {
    hide Shielded;
  }

  lemma TransientWorld(s: State, r: Result)
    ensures var t := HandleTransient(s, r); t.world == s.world && t.frame == s.frame && t.outer == s.outer
  {
  }

  lemma FieldAlive(s: State, obj: Ref, f: VarDef, extra: multiset<Ref>)
    requires Sound(s, extra) && f.kind.Field?
    ensures f.ty.release ==> Alive(s.world, GetField(s.world, obj, f))
  {
    hide Ledger;
    if f.ty.release && obj.Obj? {
      SlotAlive(s.world, Owed(s) + extra, FieldSlot(obj.id, f));
    }
  }

  lemma {:induction false} CalmElems(es: seq<Expr>, c: Callee, ws: Summary, s: State, scope: set<VarDef>)
    requires Lawful(c) && Quiet(c, ws) && es != [] && Fine(s, scope)
    requires forall i :: 0 <= i < |es| ==> Source(es[i]) && Calm(es[i], ws, scope)
    ensures WentWell(s, RunElems(es, c, s), MultiExpr(es), scope, WritesAll(es, ws))
    decreases ElemsWeight(es), 0
  {
    hide Sound, Ready, Effect, Lawful, Quiet, HandleTransient, Run, Source, Calm, Writes;
    var p := Run(es[0], c, s);
    var t := HandleTransient(p.0, p.1);
    StoppedTransient(p.0, p.1);
    CalmRun(es[0], c, ws, s, scope);
    if |es| == 1 {
      assert Writes(es[0], ws) == WritesAll(es, ws);
    } else if p.0.settled {
      Balance(es[0], c, s);
      TransientReady(p.0, p.1, scope);
      CalmElems(es[1..], c, ws, t, scope);
      if RunElems(es, c, s).0.settled {
        EffectTrans(s.world, p.0.world, t.world, Writes(es[0], ws), {});
        EffectTrans(s.world, t.world, RunElems(es, c, s).0.world, Writes(es[0], ws) + {}, WritesAll(es[1..], ws));
        assert Writes(es[0], ws) + {} + WritesAll(es[1..], ws) == WritesAll(es, ws);
      }
    }
  }

  lemma {:induction false} CalmCall(e: Expr, c: Callee, ws: Summary, s: State, scope: set<VarDef>)
    requires e.FuncCall? && Lawful(c) && Quiet(c, ws) && Source(e) && Calm(e, ws, scope) && Fine(s, scope)
    ensures WentWell(s, Run(e, c, s), e, scope, Writes(e, ws))
    decreases Weight(e), 0
  {
    hide Sound, Ready, Effect, Lawful, Quiet, Invoke, RunOperands, Passable, FitsTypes;
    var es, protect := Operands(e.receiver, e.args), !e.func.special;
    OperandsWeight(e.receiver, e.args);
    OperandsWrite(e.receiver, e.args, ws);
    var s0 := s.(next := s.next + |es|);
    var p := RunOperands(es, protect, s.next, c, s0);
    NextReady(s, s0, scope);
    CalmOperands(es, protect, s.next, c, ws, s0, scope);
    if p.0.settled {
      BalanceOperands(es, protect, s.next, c, s0);
      ValsFit(e.func, es, p.1);
      CalmInvoke(e.func, c, ws, p.0, p.1, scope);
      var q := Invoke(e.func, c, p.0, p.1);
      if q.0.settled {
        EffectTrans(s.world, p.0.world, q.0.world, WritesAll(es, ws), ws(e.func));
        assert WritesAll(es, ws) + ws(e.func) == Writes(e, ws);
      }
      InvokeRegular(e.func, c, p.0, p.1);
    }
  }

  lemma InvokeRegular(func: FuncDef, c: Callee, s: State, vals: seq<Result>)
    ensures var r := Invoke(func, c, s, vals).1; r.productive == func.result.pointer && r.ty == func.result
  {
  }

  lemma OperandsWrite(receiver: Option<Expr>, args: seq<Expr>, ws: Summary)
    ensures WritesAll(Operands(receiver, args), ws)
         == (if receiver.Some? then Writes(receiver.value, ws) else {}) + WritesAll(args, ws)
  {
    var es := Operands(receiver, args);
    if receiver.Some? {
      assert es[0] == receiver.value && es[1..] == args;
    } else {
      assert es == args;
    }
  }

  /** The values have the operands' types. */
  ghost predicate Typed(es: seq<Expr>, vals: seq<Result>) {
    |vals| == |es| && forall i :: 0 <= i < |es| ==> vals[i].ty == TypeOf(es[i])
  }

  lemma ValsFit(func: FuncDef, es: seq<Expr>, vals: seq<Result>)
    requires FitsTypes(func, es) && Typed(es, vals)
    ensures Fits(func, vals)
  {
    forall i | 0 <= i < |vals| ensures vals[i].ty.release == func.params[i].release {
      assert vals[i].ty == TypeOf(es[i]);
    }
  }

  lemma CalmInvoke(func: FuncDef, c: Callee, ws: Summary, s: State, vals: seq<Result>, scope: set<VarDef>)
    requires Lawful(c) && Quiet(c, ws) && Regular(func.result) && Fine(s, scope) && Fits(func, vals)
    requires AllCovered(s.world, Owed(s), vals)
    ensures var p := Invoke(func, c, s, vals);
      (p.0.settled || p.0.stopped) && (p.0.settled ==> Effect(s.world, p.0.world, ws(func)) && Ready(p.0, scope))
  {
    hide Books, InFrames, Ready, Effect, Fits, AllCovered, Regular, Evolves;
    var p := Invoke(func, c, s, vals);
    assert Owed(s) + multiset{} == Owed(s);
    if p.0.settled {
      InvokeStep(func, c, s, vals);
      ReadyStep(s, p.0, scope, ws(func));
    }
  }

  lemma {:induction false} CalmOperands(es: seq<Expr>, protect: bool, reg: nat, c: Callee, ws: Summary, s: State,
                                        scope: set<VarDef>)
    requires Lawful(c) && Quiet(c, ws) && Fine(s, scope)
    requires forall i :: 0 <= i < |es| ==> Source(es[i]) && Calm(es[i], ws, scope) && Passable(es[i], protect)
    ensures var p := RunOperands(es, protect, reg, c, s);
      && (p.0.settled || p.0.stopped)
      && (p.0.settled ==> Effect(s.world, p.0.world, WritesAll(es, ws)) && Fine(p.0, scope)
                          && AllCovered(p.0.world, Owed(p.0), p.1) && Typed(es, p.1))
    decreases OperandWeights(es), 0
  {
    hide Sound, Ready, Effect, Lawful, Quiet, RunOperand, Source, Calm, Passable, Writes, Covered, Extends,
      SameBelow, Owed;
    if es == [] {
      EffectRefl(s.world);
    } else {
      var p := RunOperand(es[0], protect, reg, c, s);
      CalmOperand(es[0], protect, reg, c, ws, s, scope);
      if p.0.settled {
        var q := RunOperands(es[1..], protect, reg + 1, c, p.0);
        CalmOperands(es[1..], protect, reg + 1, c, ws, p.0, scope);
        if q.0.settled {
          BalanceOperands(es[1..], protect, reg + 1, c, p.0);
          EffectTrans(s.world, p.0.world, q.0.world, Writes(es[0], ws), WritesAll(es[1..], ws));
        }
      }
    }
  }

  lemma {:induction false} CalmOperand(e: Expr, protect: bool, reg: nat, c: Callee, ws: Summary, s: State,
                                       scope: set<VarDef>)
    requires Lawful(c) && Quiet(c, ws) && Fine(s, scope) && Source(e) && Calm(e, ws, scope) && Passable(e, protect)
    ensures var p := RunOperand(e, protect, reg, c, s);
      && (p.0.settled || p.0.stopped) && p.1.ty == TypeOf(e)
      && (p.0.settled ==> Effect(s.world, p.0.world, Writes(e, ws)) && Fine(p.0, scope)
                          && (p.1.ty.release ==> Covered(p.0.world, Owed(p.0), p.1.val)))
    decreases Weight(e) + 11, 0
  {
    hide Sound, Ready, Effect, Lawful, Quiet, Run, Calm, Source, RunOperand, Covered, Owes;
    var p, q := Run(e, c, s), RunOperand(e, protect, reg, c, s);
    CalmRun(e, c, ws, s, scope);
    if protect && Unprotected(e) {
      ProtectedRun(e, reg, c, s);
      UnprotectedIsAnchored(e);
      if p.0.settled {
        Balance(e, c, s);
        ProtectReady(p.0, p.1, p.0.regs[reg := p.1.(productive := true)], scope);
        EffectTrans(s.world, p.0.world, q.0.world, Writes(e, ws), {});
        assert Writes(e, ws) + {} == Writes(e, ws);
      }
    } else {
      PlainOperand(e, protect, reg, c, s);
      StoppedTransient(p.0, p.1);
      if p.0.settled {
        Balance(e, c, s);
        TransientReady(p.0, p.1, scope);
        EffectTrans(s.world, p.0.world, q.0.world, Writes(e, ws), {});
        assert Writes(e, ws) + {} == Writes(e, ws);
        if p.1.ty.release {
          PassableCovered(e, protect, c, s, scope);
        }
      }
    }
  }

  lemma UnprotectedIsAnchored(e: Expr)
    requires Unprotected(e) && Source(e)
    ensures Anchored(e) && TypeOf(e).release
  {
  }

  lemma PlainOperand(e: Expr, protect: bool, reg: nat, c: Callee, s: State)
    requires !(protect && Unprotected(e))
    ensures var p := Run(e, c, s); RunOperand(e, protect, reg, c, s) == (HandleTransient(p.0, p.1), p.1)
  {
    hide Run, HandleTransient;
  }

  lemma NextReady(s: State, t: State, scope: set<VarDef>)
    requires t == s.(next := t.next) && Fine(s, scope)
    ensures Fine(t, scope)
  {
    hide Books, Shielded, InFrames;
  }

  lemma ProtectReady(s: State, r: Result, regs: map<nat, Result>, scope: set<VarDef>)
    requires Sound(s, Owes(r)) && Ready(s, scope) && s.settled && !r.productive && r.ty.release && Alive(s.world, r.val)
    ensures var t := BindValue(ForceCleanup(s.(regs := regs), r), r.val);
      Fine(t, scope) && Effect(s.world, t.world, {}) && Covered(t.world, Owed(t), r.val)
  {
    hide Sound, Ready, Evolves, Covered, Owed;
    var t := BindValue(ForceCleanup(s.(regs := regs), r), r.val);
    ProtectStep(s, r, regs);
    BindEffect(s.world, r.val);
    ReadyStep(s, t, scope, {});
  }

  lemma BindEffect(w: World, r: Ref)
    requires Alive(w, r)
    ensures Effect(w, Bind(w, r), {})
  {
  }

  /** The unprotected operands that need no protection. */
  lemma PassableCovered(e: Expr, protect: bool, c: Callee, s: State, scope: set<VarDef>)
    requires Source(e) && Passable(e, protect) && !(protect && Unprotected(e)) && TypeOf(e).release
    requires Ready(s, scope) && Run(e, c, s).0.settled
    ensures var p := Run(e, c, s); var t := HandleTransient(p.0, p.1); Covered(t.world, Owed(t), p.1.val)
  {
    hide Run, InFrames;
    var p := Run(e, c, s);
    var t := HandleTransient(p.0, p.1);
    if IsProductive(e) {
      assert t.cleanups[0] == p.1.val;
    } else if e.NullConst? {
      NullRun(e, c, s);
    } else if e.VarRef? {
      VarRun(e, c, s);
      var k := FrameSlot(s.frame, e.v);
      if e.v.kind.Local? && k in s.world.slots {
        assert Steady(k);
      } else if e.v.kind.Param? {
        ShieldedIsCovered(s.world, s.frame, s.outer, multiset(s.cleanups), Get(s.world, k));
      }
    } else {
      LocalAssigned(e, c, s);
      assert Steady(FrameSlot(s.frame, e.target));
    }
  }

  lemma NullRun(e: Expr, c: Callee, s: State)
    requires e.NullConst?
    ensures Run(e, c, s).1.val == Nil
  {
  }

  lemma VarRun(e: Expr, c: Callee, s: State)
    requires e.VarRef?
    ensures Run(e, c, s).0 == s && Run(e, c, s).1.val == Get(s.world, SlotOf(e.v, s.frame))
  {
  }

  lemma LocalAssigned(e: Expr, c: Callee, s: State)
    requires Source(e) && e.AssignExpr? && e.target.kind.Local?
    ensures var p := Run(e, c, s); var k := FrameSlot(s.frame, e.target);
      k in p.0.world.slots && p.0.world.slots[k] == p.1.val
  {
  }

  lemma {:induction false} CalmAssign(e: Expr, c: Callee, ws: Summary, s: State, scope: set<VarDef>)
    requires e.AssignExpr? && Lawful(c) && Quiet(c, ws) && Source(e) && Calm(e, ws, scope) && Fine(s, scope)
    ensures WentWell(s, RunAssign(e, c, s), e, scope, Writes(e, ws))
    decreases Weight(e), 0, 1
  {
    hide Sound, Ready, Effect, Lawful, Quiet, Run, RunAssignField, AssignVar, Matches, Owes;
    if e.aggregate.Some? {
      CalmAssignField(e, c, ws, s, scope);
    } else {
      var slot, p := SlotOf(e.target, s.frame), Run(e.value, c, s);
      var was := Get(s.world, slot);
      CalmRun(e.value, c, ws, s, scope);
      if p.0.settled {
        Balance(e.value, c, s);
        SlotKept(s, p.0, slot, was, p.1.val, Writes(e.value, ws), scope);
        AssignVarReady(p.0, slot, was, p.1, scope);
        EffectTrans(s.world, p.0.world, RunAssign(e, c, s).0.world, Writes(e.value, ws), {e.target});
        assert Writes(e.value, ws) + {e.target} == Writes(e, ws);
      }
    }
  }

  lemma SlotKept(s: State, t: State, slot: Slot, was: Ref, val: Ref, vars: set<VarDef>, scope: set<VarDef>)
    requires !slot.FieldSlot? && !slot.v.kind.Param? && slot == SlotOf(slot.v, s.frame) && was == Get(s.world, slot)
    requires !slot.v.kind.Field? && (slot.v.kind.Local? ==> slot.v in scope)
    requires Effect(s.world, t.world, vars) && (slot.v.ty.release ==> slot.v !in vars) && Ready(t, scope) &&
      s.frame == t.frame
    ensures Matches(t.world, slot, was, val) && Defined(t.world, slot)
  {
    hide Covered, Get;
  }

  lemma AssignVarReady(s: State, slot: Slot, was: Ref, r: Result, scope: set<VarDef>)
    requires Sound(s, Owes(r)) && Ready(s, scope) && s.settled && Regular(r.ty) && slot.v.ty.release == r.ty.release
    requires !slot.FieldSlot? && !slot.v.kind.Param? && (slot.FrameSlot? ==> slot.frame == s.frame)
    requires Matches(s.world, slot, was, r.val) && Defined(s.world, slot)
    requires r.ty.release && !r.productive ==> Alive(s.world, r.val)
    ensures var t := AssignVar(s, slot, was, r);
      Fine(t, scope) && Effect(s.world, t.world, {slot.v}) && (r.ty.release ==> Alive(t.world, r.val))
  {
    hide Books, InFrames, Ready, Effect, Evolves, Owes, Owed;
    var t := AssignVar(s, slot, was, r);
    AssignSettled(s, slot, was, r);
    AssignVarStep(s, slot, was, r);
    PutEffect(s.world, slot, r);
    ReadyStep(s, t, scope, {slot.v});
    if r.ty.release {
      SlotAlive(t.world, Owed(t) + multiset{}, slot);
    }
  }

  lemma AssignSettled(s: State, slot: Slot, was: Ref, r: Result)
    requires s.settled && Regular(r.ty) && !slot.FieldSlot?
    requires Matches(s.world, slot, was, r.val) && Defined(s.world, slot)
    requires r.ty.release && !r.productive ==> Alive(s.world, r.val)
    ensures AssignVar(s, slot, was, r).settled && Get(AssignVar(s, slot, was, r).world, slot) == r.val
    ensures AssignVar(s, slot, was, r).world == Assigned(s.world, slot, r)
  {
  }

  /** The store and the bind it may need. */
  function Assigned(w: World, slot: Slot, r: Result): World {
    var u := w.(slots := w.slots[slot := r.val]);
    if r.productive || !r.ty.bind then u else Bind(u, r.val)
  }

  lemma PutEffect(w: World, slot: Slot, r: Result)
    requires !slot.v.kind.Param? && (!r.productive && r.ty.bind ==> Alive(w, r.val))
    ensures Effect(w, Assigned(w, slot, r), {slot.v})
  {
  }

  lemma {:induction false} CalmAssignField(e: Expr, c: Callee, ws: Summary, s: State, scope: set<VarDef>)
    requires e.AssignExpr? && e.aggregate.Some?
    requires Lawful(c) && Quiet(c, ws) && Source(e) && Calm(e, ws, scope) && Fine(s, scope)
    ensures WentWell(s, RunAssignField(e, c, s), e, scope, Writes(e, ws))
    decreases Weight(e), 0, 0
  {
    hide Sound, Ready, Effect, Lawful, Quiet, Run, RunAssignField, AssignField, Matches, Owes;
    var f, path, p := e.target, e.aggregate.value, Run(e.value, c, s);
    var o := PathValue(path, s.world, s.frame);
    FieldRun(e, c, s);
    var was := if f.ty.release then GetField(s.world, o, f) else Nil;
    CalmRun(e.value, c, ws, s, scope);
    var t := AssignField(p.0, o, f, was, p.1);
    assert RunAssignField(e, c, s).0 == t;
    if o.Nil? {
      NullStops(p.0, f, was, p.1);
    } else if p.0.settled {
      Balance(e.value, c, s);
      PathStable(path, s, multiset{}, p.0, Owes(p.1), scope, Writes(e.value, ws));
      PathAlive(path, s, multiset{}, scope);
      PathAlive(path, p.0, Owes(p.1), scope);
      FieldKept(s, p.0, FieldSlot(o.id, f), was, Writes(e.value, ws));
      AssignFieldReady(p.0, o, f, was, p.1, scope);
      EffectTrans(s.world, p.0.world, t.world, Writes(e.value, ws), {f});
      EffectMore(s.world, t.world, Writes(e.value, ws) + {f}, Writes(e, ws));
    }
  }

  lemma FieldRun(e: Expr, c: Callee, s: State)
    requires e.AssignExpr? && e.aggregate.Some? && Path(e.aggregate.value) && s.settled
    ensures var o, p := PathValue(e.aggregate.value, s.world, s.frame), Run(e.value, c, s);
      var was := if e.target.ty.release then GetField(s.world, o, e.target) else Nil;
      RunAssignField(e, c, s) == (AssignField(p.0, o, e.target, was, p.1), Result(p.1.val, false, p.1.ty))
  {
    hide Run, AssignField;
    PathRun(e.aggregate.value, c, s);
    assert s.(settled := s.settled) == s;
  }

  lemma NullStops(s: State, f: VarDef, was: Ref, r: Result)
    ensures AssignField(s, Nil, f, was, r).stopped && !AssignField(s, Nil, f, was, r).settled
  {
  }

  lemma FieldKept(s: State, t: State, slot: Slot, was: Ref, vars: set<VarDef>)
    requires slot.FieldSlot? && slot.v.kind.Field? && Count(s.world, slot.owner) > 0 && Count(t.world, slot.owner) > 0
    requires slot.v.ty.release ==> was == Get(s.world, slot) && slot.v !in vars
    requires Effect(s.world, t.world, vars)
    ensures forall val :: Matches(t.world, slot, was, val)
  {
    hide Get;
  }

  lemma AssignFieldReady(s: State, obj: Ref, f: VarDef, was: Ref, r: Result, scope: set<VarDef>)
    requires Sound(s, Owes(r)) && Ready(s, scope) && s.settled && Regular(r.ty) && f.ty.release == r.ty.release
    requires obj.Obj? && f.kind.Field? && Matches(s.world, FieldSlot(obj.id, f), was, r.val)
    requires r.ty.release && !r.productive ==> Alive(s.world, r.val)
    ensures var t := AssignField(s, obj, f, was, r);
      Fine(t, scope) && Effect(s.world, t.world, {f}) && (r.ty.release ==> Alive(t.world, r.val))
  {
    hide Books, InFrames, Ready, Effect, Evolves, Owes, Owed;
    var t, slot := AssignField(s, obj, f, was, r), FieldSlot(obj.id, f);
    FieldSettled(s, obj, f, was, r);
    AssignFieldStep(s, obj, f, was, r);
    PutEffect(s.world, slot, r);
    ReadyStep(s, t, scope, {f});
    if r.ty.release {
      SlotAlive(t.world, Owed(t) + multiset{}, slot);
    }
  }

  lemma FieldSettled(s: State, obj: Ref, f: VarDef, was: Ref, r: Result)
    requires s.settled && Regular(r.ty) && obj.Obj? && Matches(s.world, FieldSlot(obj.id, f), was, r.val)
    requires r.ty.release && !r.productive ==> Alive(s.world, r.val)
    ensures var t, slot := AssignField(s, obj, f, was, r), FieldSlot(obj.id, f);
      t.settled && Get(t.world, slot) == r.val && t.world == Assigned(s.world, slot, r)
  {
  }
}
