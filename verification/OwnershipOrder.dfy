/**
 * The order in which things are emitted and run: operands of a call, elements of a sequence of
 * expressions, statements of a body and the cleanups of its variables.
 */
module OwnershipOrder {
  import opened Ownership
  import opened OwnershipCode
  import opened OwnershipBodies
  import P = OwnershipProgram

  // ----- Operands of a call -----

  /** The expressions a call evaluates: the receiver, if there is one, and then each argument; a special
      function gets them as they are. */
  predicate Prepared(ops: seq<Expr>, func: FuncDef, receiver: Option<Expr>, args: seq<Expr>, reg: nat) {
    var first := if receiver.Some? then 1 else 0;
    && |ops| == first + |args|
    && (receiver.Some? ==>
          ops[0] == if func.special then receiver.value else MakeNonVolatile(receiver.value, reg))
    && forall i :: 0 <= i < |args| ==>
         ops[first + i] == if func.special then args[i] else MakeNonVolatile(args[i], reg + first + i)
  }

  /** Unit i + 1 is unit i with the code of expression i, its value pushed for release if productive. */
  ghost predicate EmittedInTurn(ops: seq<Expr>, us: seq<Unit>, vs: seq<Value>) {
    && |us| == |ops| + 1 && |vs| == |ops|
    && forall i :: 0 <= i < |ops| ==>
         && Emit(ops[i], us[i]).1 == vs[i]
         && us[i + 1] == EmitTransient(Emit(ops[i], us[i]).0, vs[i])
         && us[i].instrs <= us[i + 1].instrs
  }

  /** The same of the run. */
  ghost predicate RanInTurn(ops: seq<Expr>, c: Callee, ss: seq<State>, rs: seq<Result>) {
    && |ss| == |ops| + 1 && |rs| == |ops|
    && forall i :: 0 <= i < |ops| ==>
         Run(ops[i], c, ss[i]).1 == rs[i] && ss[i + 1] == HandleTransient(Run(ops[i], c, ss[i]).0, rs[i])
  }

  /** A call is emitted after its operands, and its values are theirs. */
  ghost predicate CallEmitted(func: FuncDef, receiver: Option<Expr>, args: seq<Expr>, k: Unit,
                              ops: seq<Expr>, us: seq<Unit>, vs: seq<Value>) {
    && Prepared(ops, func, receiver, args, k.next) && EmittedInTurn(ops, us, vs)
    && us[0] == k.(next := k.next + |ops|)
    && var u, r := us[|ops|], Emit(FuncCall(func, receiver, args), k);
      && r.0.instrs == u.instrs + [Call(u.temps, func, vs, u.cleanups)]
      && r.0.cleanups == u.cleanups && r.1 == Value(u.temps, func.result.pointer, func.result)
  }

  /** The callee gets the values of the operands, in the heap they have left. */
  ghost predicate CallRan(func: FuncDef, receiver: Option<Expr>, args: seq<Expr>, c: Callee, s: State,
                          ops: seq<Expr>, ss: seq<State>, rs: seq<Result>) {
    && Prepared(ops, func, receiver, args, s.next) && RanInTurn(ops, c, ss, rs)
    && ss[0] == s.(next := s.next + |ops|)
    && var t, r := ss[|ops|], Run(FuncCall(func, receiver, args), c, s);
      var o := c(func, rs, t.world, t.frame, t.outer + multiset(t.cleanups));
      && r.0.world == o.world && r.0.cleanups == t.cleanups
      && r.1 == Result(o.val, func.result.pointer, func.result)
  }

  lemma CallEmission(func: FuncDef, receiver: Option<Expr>, args: seq<Expr>, k: Unit)
    ensures exists ops, us, vs :: CallEmitted(func, receiver, args, k, ops, us, vs)
  {
    hide EmitOperands, EmitTransient, MakeNonVolatile;
    var es := Operands(receiver, args);
    var ops := PreparedOperands(func, receiver, args, k.next);
    var us, vs := EmittedOperands(es, ops, !func.special, k.next, k.(next := k.next + |es|));
    assert CallEmitted(func, receiver, args, k, ops, us, vs);
  }

  lemma CallRun(func: FuncDef, receiver: Option<Expr>, args: seq<Expr>, c: Callee, s: State)
    ensures exists ops, ss, rs :: CallRan(func, receiver, args, c, s, ops, ss, rs)
  {
    hide RunOperands, Run, Prepared, RanInTurn, Operands;
    var es := Operands(receiver, args);
    var ops := PreparedOperands(func, receiver, args, s.next);
    var ss, rs := RanOperands(es, ops, !func.special, s.next, c, s.(next := s.next + |es|));
    RunIsInvoke(func, receiver, args, c, s);
    assert CallRan(func, receiver, args, c, s, ops, ss, rs) by { RanLength(ops, c, ss, rs); }
  }

  lemma RanLength(ops: seq<Expr>, c: Callee, ss: seq<State>, rs: seq<Result>)
    requires RanInTurn(ops, c, ss, rs)
    ensures |ss| == |ops| + 1 && |rs| == |ops|
  {
  }

  lemma RunIsInvoke(func: FuncDef, receiver: Option<Expr>, args: seq<Expr>, c: Callee, s: State)
    ensures var es := Operands(receiver, args);
      var p := RunOperands(es, !func.special, s.next, c, s.(next := s.next + |es|));
      Run(FuncCall(func, receiver, args), c, s) == Invoke(func, c, p.0, p.1)
  {
    hide RunOperands, Invoke, Operands, RunAssign, RunElems, HandleTransient, BindValue, TypeOf, IsProductive, Weight,
      OperandWeights, ElemsWeight, Get, GetField, SlotOf;
    OperandsWeight(receiver, args);
  }

  lemma PreparedOperands(func: FuncDef, receiver: Option<Expr>, args: seq<Expr>, reg: nat) returns (ops: seq<Expr>)
    ensures Prepared(ops, func, receiver, args, reg)
    ensures var es := Operands(receiver, args);
      |ops| == |es| && forall i :: 0 <= i < |es| ==>
        ops[i] == if !func.special then MakeNonVolatile(es[i], reg + i) else es[i]
  {
    hide MakeNonVolatile, Prepared;
    var es := Operands(receiver, args);
    ops := seq(|es|, i requires 0 <= i < |es| => if !func.special then MakeNonVolatile(es[i], reg + i) else es[i]);
    RightlyPrepared(ops, func, receiver, args, reg, es);
  }

  lemma RightlyPrepared(ops: seq<Expr>, func: FuncDef, receiver: Option<Expr>, args: seq<Expr>, reg: nat, es: seq<Expr>)
    requires es == Operands(receiver, args) && |ops| == |es|
    requires forall i :: 0 <= i < |es| ==> ops[i] == if !func.special then MakeNonVolatile(es[i], reg + i) else es[i]
    ensures Prepared(ops, func, receiver, args, reg)
  {
    hide MakeNonVolatile, Operands;
    OperandsAre(receiver, args);
    var first := if receiver.Some? then 1 else 0;
    forall i | 0 <= i < |args|
      ensures ops[first + i] == if func.special then args[i] else MakeNonVolatile(args[i], reg + first + i)
    {
      var j := first + i;
      assert es[j] == args[i] && reg + j == reg + first + i;
    }
  }

  lemma OperandsAre(receiver: Option<Expr>, args: seq<Expr>)
    ensures var es, first := Operands(receiver, args), if receiver.Some? then 1 else 0;
      && |es| == first + |args| && (receiver.Some? ==> es[0] == receiver.value)
      && forall i :: 0 <= i < |args| ==> es[first + i] == args[i]
  {
  }

  lemma {:induction false} EmittedOperands(es: seq<Expr>, ops: seq<Expr>, protect: bool, reg: nat, k: Unit)
    returns (us: seq<Unit>, vs: seq<Value>)
    requires |ops| == |es|
    requires forall i :: 0 <= i < |es| ==> ops[i] == if protect then MakeNonVolatile(es[i], reg + i) else es[i]
    ensures EmittedInTurn(ops, us, vs) && us[0] == k && EmitOperands(es, protect, reg, k) == (us[|es|], vs)
    decreases |es|
  {
    hide Emit, EmitTransient, MakeNonVolatile;
    if es == [] {
      us, vs := [k], [];
    } else {
      var p := EmitOperand(es[0], protect, reg, k);
      EmitAppends(ops[0], k);
      TransientAppends(Emit(ops[0], k).0, p.1);
      us, vs := EmittedOperands(es[1..], ops[1..], protect, reg + 1, p.0);
      var us', vs' := [k] + us, [p.1] + vs;
      forall i | 0 <= i < |ops|
        ensures Emit(ops[i], us'[i]).1 == vs'[i] && us'[i].instrs <= us'[i + 1].instrs
        ensures us'[i + 1] == EmitTransient(Emit(ops[i], us'[i]).0, vs'[i])
      {
        if i > 0 {
          assert ops[1..][i - 1] == ops[i];
        }
      }
      us, vs := us', vs';
    }
  }

  lemma {:induction false} RanOperands(es: seq<Expr>, ops: seq<Expr>, protect: bool, reg: nat, c: Callee, s: State)
    returns (ss: seq<State>, rs: seq<Result>)
    requires |ops| == |es|
    requires forall i :: 0 <= i < |es| ==> ops[i] == if protect then MakeNonVolatile(es[i], reg + i) else es[i]
    ensures RanInTurn(ops, c, ss, rs) && ss[0] == s && RunOperands(es, protect, reg, c, s) == (ss[|es|], rs)
    decreases |es|
  {
    hide Run, HandleTransient, MakeNonVolatile;
    if es == [] {
      ss, rs := [s], [];
    } else {
      var p := RunOperand(es[0], protect, reg, c, s);
      ss, rs := RanOperands(es[1..], ops[1..], protect, reg + 1, c, p.0);
      var ss', rs' := [s] + ss, [p.1] + rs;
      forall i | 0 <= i < |ops|
        ensures Run(ops[i], c, ss'[i]).1 == rs'[i]
        ensures ss'[i + 1] == HandleTransient(Run(ops[i], c, ss'[i]).0, rs'[i])
      {
        if i > 0 {
          assert ops[1..][i - 1] == ops[i];
        }
      }
      ss, rs := ss', rs';
    }
  }

  lemma TransientAppends(k: Unit, v: Value)
    ensures EmitTransient(k, v).instrs == k.instrs && k.instrs <= EmitAssignment(k, v).instrs
  {
  }

  /** Emission only adds to the code. */
  lemma {:induction false} EmitAppends(e: Expr, k: Unit)
    ensures k.instrs <= Emit(e, k).0.instrs
    decreases Weight(e), 1
  {
    hide EmitTransient, EmitAssignment, MakeNonVolatile;
    match e
    case FieldRef(obj, f) =>
      EmitAppends(obj, k);
      FieldAppends(Emit(obj, k).0, Emit(obj, k).1, f);
    case FuncCall(func, receiver, args) =>
      OperandsWeight(receiver, args);
      var es := Operands(receiver, args);
      OperandsAppend(es, !func.special, k.next, k.(next := k.next + |es|));
    case AssignExpr(_, _, _) => AssignAppends(e, k);
    case MultiExpr(elems) => ElemsAppend(elems, k);
    case SetRegister(_, e') => EmitAppends(e', k);
    case NonVolatile(e') => EmitAppends(e', k);
    case BindCall(e') =>
      EmitAppends(e', k);
      TransientAppends(Emit(e', k).0, Emit(e', k).1);
    case _ =>
  }

  lemma FieldAppends(k: Unit, v: Value, f: VarDef)
    ensures k.instrs <= EmitFieldRef(k, v, f).0.instrs
  {
  }

  lemma {:induction false} AssignAppends(e: Expr, k: Unit)
    requires e.AssignExpr?
    ensures k.instrs <= EmitAssign(e, k).0.instrs
    decreases Weight(e), 0
  {
    hide Emit, EmitTransient, EmitAssignment, EmitFieldRef;
    var v := e.target;
    if e.aggregate.None? {
      var k1 := if v.ty.release then GenValue(k, LoadVar(k.temps, v)) else k;
      var p := Emit(e.value, k1);
      EmitAppends(e.value, k1);
      TransientAppends(Gen(p.0, StoreVar(v, p.1.temp)), p.1);
    } else {
      var a := Emit(e.aggregate.value, k);
      EmitAppends(e.aggregate.value, k);
      var k1 := a.0;
      if v.ty.release {
        TransientAppends(a.0, a.1);
        EmitAppends(e.aggregate.value, EmitTransient(a.0, a.1));
        var b := Emit(e.aggregate.value, EmitTransient(a.0, a.1));
        FieldAppends(b.0, b.1, v);
        k1 := EmitFieldRef(b.0, b.1, v).0;
      }
      EmitAppends(e.value, k1);
      var p := Emit(e.value, k1);
      TransientAppends(p.0, p.1);
    }
  }

  lemma {:induction false} ElemsAppend(es: seq<Expr>, k: Unit)
    ensures k.instrs <= EmitElems(es, k).0.instrs
    decreases ElemsWeight(es), 0
  {
    hide Emit, EmitTransient;
    if es != [] {
      var p := Emit(es[0], k);
      EmitAppends(es[0], k);
      if |es| > 1 {
        TransientAppends(p.0, p.1);
        ElemsAppend(es[1..], EmitTransient(p.0, p.1));
      }
    }
  }

  lemma {:induction false} OperandsAppend(es: seq<Expr>, protect: bool, reg: nat, k: Unit)
    ensures k.instrs <= EmitOperands(es, protect, reg, k).0.instrs
    decreases OperandWeights(es), 0
  {
    hide Emit, EmitTransient, MakeNonVolatile;
    if es != [] {
      var e := if protect then MakeNonVolatile(es[0], reg) else es[0];
      ProtectedWeight(es[0], reg);
      var p := Emit(e, k);
      EmitAppends(e, k);
      TransientAppends(p.0, p.1);
      OperandsAppend(es[1..], protect, reg + 1, EmitTransient(p.0, p.1));
    }
  }

  /** `a.f(b)` with local variables: a is loaded before b, and f gets a first. */
  lemma ReceiverFirst(a: VarDef, b: VarDef, func: FuncDef)
    requires a.kind.Local? && b.kind.Local?
    ensures Emit(FuncCall(func, Some(VarRef(a)), [VarRef(b)]), Begin(0)).0.instrs
      == [LoadVar(0, a), LoadVar(1, b), Call(2, func, [Value(0, false, a.ty), Value(1, false, b.ty)], [])]
  {
    hide Emit, EmitTransient;
    var k := Begin(0);
    CallEmission(func, Some(VarRef(a)), [VarRef(b)], k);
    var ops: seq<Expr>, us: seq<Unit>, vs: seq<Value> :|
      CallEmitted(func, Some(VarRef(a)), [VarRef(b)], k, ops, us, vs);
    assert [VarRef(b)][0] == VarRef(b);
    assert ops == [VarRef(a), VarRef(b)];
    Loaded(a, us[0]);
    Loaded(b, us[1]);
    assert vs == [Value(0, false, a.ty), Value(1, false, b.ty)];
  }

  lemma Loaded(v: VarDef, k: Unit)
    ensures var p := Emit(VarRef(v), k);
      EmitTransient(p.0, p.1) == p.0 == k.(instrs := k.instrs + [LoadVar(k.temps, v)], temps := k.temps + 1)
    ensures Emit(VarRef(v), k).1 == Value(k.temps, false, v.ty)
  {
  }

  // ----- Assignments -----

  /** `x = y` on variables of a type with both operators: the old value is loaded first, the new one is
      stored and then bound, and the old one is released with the frame. */
  lemma VariableAssignmentCode(x: VarDef, y: VarDef)
    requires x.ty.release && y.ty.bind
    ensures var k := Emit(AssignExpr(None, x, VarRef(y)), Begin(0)).0;
      && k.instrs == [LoadVar(0, x), LoadVar(1, y), StoreVar(x, 1), CallBind(1)]
      && k.cleanups == [0]
  {
    hide Emit;
    var k := GenValue(Begin(0), LoadVar(0, x));
    Loaded(y, k);
    AssignmentIs(AssignExpr(None, x, VarRef(y)), Begin(0));
  }

  /** `a.f = y`: the aggregate is loaded twice, once for the store and once for the old value of the field;
      the new value is bound and then stored. */
  lemma FieldAssignmentCode(a: VarDef, f: VarDef, y: VarDef)
    requires f.ty.release && y.ty.bind
    ensures var k := Emit(AssignExpr(Some(VarRef(a)), f, VarRef(y)), Begin(0)).0;
      && k.instrs
         == [LoadVar(0, a), LoadVar(1, a), LoadField(2, 1, f), LoadVar(3, y), CallBind(3), StoreTo(0, f, 3)]
      && k.cleanups == [2]
  {
    hide Emit;
    var k1 := GenValue(Begin(0), LoadVar(0, a));
    var k2 := GenValue(k1, LoadVar(1, a));
    var k3 := GenValue(k2, LoadField(2, 1, f));
    Loaded(a, Begin(0));
    Loaded(a, k1);
    Loaded(y, k3);
    AssignmentIs(AssignExpr(Some(VarRef(a)), f, VarRef(y)), Begin(0));
  }

  lemma AssignmentIs(e: Expr, k: Unit)
    requires e.AssignExpr?
    ensures Emit(e, k) == EmitAssign(e, k)
    ensures e.aggregate.Some? ==> EmitAssign(e, k) == EmitAssignField(e, k)
  {
    hide EmitAssignField;
  }

  /** `T x = y` binds what y holds and stores it, and `return y` binds it. */
  lemma DefinitionCode(x: VarDef, y: VarDef)
    requires y.ty.bind
    ensures CompileStmt(P.Define(x, VarRef(y)), 0).0 == [LoadVar(0, y), CallBind(0), StoreVar(x, 0)]
    ensures CompileReturn(VarRef(y), 0) == ([LoadVar(0, y), CallBind(0)], 0)
  {
    hide Emit;
    Loaded(y, Begin(0));
    var p := Emit(VarRef(y), Begin(0));
    var k := EmitAssignment(p.0, p.1);
    assert k.instrs == [LoadVar(0, y), CallBind(0)];
    assert k.cleanups == [] && k.instrs + Releases(k.cleanups) == k.instrs;
    assert Finish(k).0 == k.instrs;
  }

  // ----- Elements -----

  /** The elements of a sequence run one after the other, each but the last released when productive;
      the value is the last one's. */
  lemma {:induction false} ElementsInTurn(es: seq<Expr>, c: Callee, s: State) returns (ss: seq<State>)
    requires es != []
    ensures |ss| == |es| && ss[0] == s && Run(MultiExpr(es), c, s) == Run(es[|es| - 1], c, ss[|es| - 1])
    ensures forall i :: 0 <= i < |es| - 1 ==>
      ss[i + 1] == HandleTransient(Run(es[i], c, ss[i]).0, Run(es[i], c, ss[i]).1)
    decreases |es|
  {
    hide HandleTransient, RunAssign, Invoke;
    ss := [s];
    var p := Run(es[0], c, s);
    assert Run(MultiExpr(es), c, s) == RunElems(es, c, s);
    if |es| > 1 {
      var t := HandleTransient(p.0, p.1);
      var tail := ElementsInTurn(es[1..], c, t);
      assert Run(MultiExpr(es[1..]), c, t) == RunElems(es[1..], c, t);
      ss := [s] + tail;
    }
  }

  // ----- Bodies -----

  /** Statements run one after the other, each in the heap the one before has left. */
  lemma {:induction false} StatementsInTurn(stmts: seq<P.Stmt>, c: Callee, w: World, frame: nat, outer: multiset<Ref>)
    returns (ws: seq<World>)
    ensures |ws| == |stmts| + 1 && ws[0] == w && P.RunStmts(stmts, c, w, frame, outer).world == ws[|stmts|]
    ensures forall i :: 0 <= i < |stmts| ==> ws[i + 1] == RunStmt(stmts[i], c, ws[i], frame, outer).world
    decreases |stmts|
  {
    hide P.RunEval, P.RunDefine;
    ws := [w];
    if stmts != [] {
      var o := RunStmt(stmts[0], c, w, frame, outer);
      var tail := StatementsInTurn(stmts[1..], c, o.world, frame, outer);
      ws := [w] + tail;
    }
  }

  /** The code of a body ends with the cleanups of its variables, the last defined first and the
      parameters at the end. */
  lemma VariablesCloseInReverse(b: P.Body)
    ensures var code, vars := CompileBody(b).0, b.params + P.Locals(b.stmts);
      |vars| <= |code| && forall i :: 0 <= i < |vars| ==> code[|code| - 1 - i] == CloseVar(vars[i])
  {
    hide CompileStmts, CompileReturn, CloseVars;
    CloseVarsAt(b.params + P.Locals(b.stmts));
  }

  lemma {:induction false} CloseVarsAt(vars: seq<VarDef>)
    ensures |CloseVars(vars)| == |vars|
    ensures forall i :: 0 <= i < |vars| ==> CloseVars(vars)[|vars| - 1 - i] == CloseVar(vars[i])
    decreases |vars|
  {
    if vars != [] {
      var n := |vars| - 1;
      var front, code := vars[..n], CloseVars(vars[..n]);
      CloseVarsAt(front);
      forall i | 0 <= i < |vars| ensures CloseVars(vars)[n - i] == CloseVar(vars[i]) {
        if i < n {
          assert CloseVars(vars)[n - i] == code[n - 1 - i] == CloseVar(front[i]);
        }
      }
    }
  }

  lemma {:induction false} LocalsSplit(a: seq<P.Stmt>, b: seq<P.Stmt>)
    ensures P.Locals(a + b) == P.Locals(a) + P.Locals(b)
    decreases |a|
  {
    if a == [] {
      assert a + b == b;
    } else {
      assert (a + b)[0] == a[0] && (a + b)[1..] == a[1..] + b;
      LocalsSplit(a[1..], b);
    }
  }

  /** The local variables of a body, in the order of their definitions. */
  lemma LocalsInOrder(before: seq<P.Stmt>, v: VarDef, init: Expr, rest: seq<P.Stmt>)
    ensures P.Locals(before + [P.Define(v, init)] + rest) == P.Locals(before) + [v] + P.Locals(rest)
  {
    LocalsSplit(before + [P.Define(v, init)], rest);
    LocalsSplit(before, [P.Define(v, init)]);
    assert P.Locals([P.Define(v, init)]) == [v] by { assert [P.Define(v, init)][1..] == []; }
  }

  /** On entry each parameter holds its argument. */
  lemma {:induction false} ParametersHoldArguments(w: World, frame: nat, params: seq<VarDef>, vals: seq<Result>, i: nat)
    requires i < |params| == |vals| && forall j, k :: 0 <= j < k < |params| ==> params[j] != params[k]
    ensures Get(P.Enter(w, frame, params, vals), FrameSlot(frame, params[i])) == vals[i].val
    decreases |params|
  {
    var w1 := w.(slots := w.slots[FrameSlot(frame, params[0]) := vals[0].val]);
    if i > 0 {
      ParametersHoldArguments(w1, frame, params[1..], vals[1..], i - 1);
    } else {
      EnterElsewhere(w1, frame, params[1..], vals[1..], FrameSlot(frame, params[0]));
    }
  }

  lemma {:induction false} EnterElsewhere(w: World, frame: nat, params: seq<VarDef>, vals: seq<Result>, k: Slot)
    requires forall j :: 0 <= j < |params| ==> k != FrameSlot(frame, params[j])
    ensures Get(P.Enter(w, frame, params, vals), k) == Get(w, k)
    decreases |params|
  {
    if params != [] && vals != [] {
      EnterElsewhere(w.(slots := w.slots[FrameSlot(frame, params[0]) := vals[0].val]), frame, params[1..], vals[1..],
        k);
    }
  }
}
