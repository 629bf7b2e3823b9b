/**
 * Compiled function bodies: the code of every statement, of the return and of the variables' cleanups,
 * one after the other, does to the heap exactly what running the body does.
 */
module OwnershipBodies {
  import opened Ownership
  import opened OwnershipCode
  import P = OwnershipProgram

  // ----- Compiling -----

  /** A statement starts with an empty cleanup frame. */
  function Begin(temps: nat): Unit {
    Unit([], [], map[], temps, 0)
  }

  /** The code of a unit with its cleanup frame closed, and the next temporary. */
  function Finish(k: Unit): (seq<Instr>, nat) {
    (k.instrs + Releases(k.cleanups), k.temps)
  }

  /** An expression statement (parser/Parser.cc:333), or a definition (LLVMBuilder::emitVarDef): emit,
      handleAssignment, store. */
  function CompileStmt(s: P.Stmt, temps: nat): (seq<Instr>, nat) {
    match s
    case Eval(e) =>
      var p := Emit(e, Begin(temps));
      Finish(EmitTransient(p.0, p.1))
    case Define(v, init) =>
      var p := Emit(init, Begin(temps));
      Finish(Gen(EmitAssignment(p.0, p.1), StoreVar(v, p.1.temp)))
  }

  function CompileStmts(stmts: seq<P.Stmt>, temps: nat): (seq<Instr>, nat) {
    if stmts == [] then ([], temps)
    else
      var first := CompileStmt(stmts[0], temps);
      var rest := CompileStmts(stmts[1..], first.1);
      (first.0 + rest.0, rest.1)
  }

  /** LLVMBuilder::emitReturn up to the cleanups of the variables; the value is in the given temporary. */
  function CompileReturn(e: Expr, temps: nat): (seq<Instr>, nat) {
    var p := Emit(e, Begin(temps));
    (Finish(EmitAssignment(p.0, p.1)).0, p.1.temp)
  }

  /** The cleanups of variables, latest first. */
  function CloseVars(vars: seq<VarDef>): seq<Instr> {
    if vars == [] then [] else [CloseVar(vars[|vars| - 1])] + CloseVars(vars[..|vars| - 1])
  }

  /** A body, and the temporary with the value it returns. */
  function CompileBody(b: P.Body): (seq<Instr>, nat) {
    var stmts := CompileStmts(b.stmts, 0);
    var ret := if b.ret.Some? then CompileReturn(b.ret.value, stmts.1) else ([], stmts.1);
    (stmts.0 + ret.0 + CloseVars(b.params + P.Locals(b.stmts)), ret.1)
  }

  // ----- Correctness -----

  lemma {:induction false} ExecAppend(a: seq<Instr>, b: seq<Instr>, env: Env, m: Machine)
    ensures Exec(a + b, env, m) == Exec(b, env, Exec(a, env, m))
    decreases |b|
  {
    hide Step;
    if b == [] {
      assert a + b == a;
    } else {
      var i := b[|b| - 1];
      ExecAppend(a, b[..|b| - 1], env, m);
      assert a + b == a + b[..|b| - 1] + [i];
      ExecGen(a + b[..|b| - 1], i, env, m);
      assert b == b[..|b| - 1] + [i];
    }
  }

  /** The machine has used no temporary from `temps` on. */
  predicate Below(m: Machine, temps: nat) {
    forall t :: t in m.temps ==> t < temps
  }

  lemma Begun(temps: nat, env: Env, m: Machine)
    requires Below(m, temps)
    ensures Sim(Begin(temps), env, m, P.Fresh(m.world, env.frame, env.outer))
  {
  }

  /** Closing the frame of a unit that has come to what a run has come to. */
  lemma FinishCorrect(k: Unit, env: Env, m0: Machine, t: State)
    requires Sim(k, env, m0, t)
    ensures var m := Exec(Finish(k).0, env, m0);
      m.world == Close(t.world, t.cleanups) && Below(m, k.temps) && m.temps == Exec(k.instrs, env, m0).temps
  {
    hide Close, Exec;
    ReleasesCorrect(k.instrs, k.cleanups, env, m0);
    assert Temps(Exec(k.instrs, env, m0), k.cleanups) == t.cleanups;
  }

  ghost function RunStmt(s: P.Stmt, c: Callee, w: World, frame: nat, outer: multiset<Ref>): Outcome {
    match s
    case Eval(e) => P.RunEval(e, c, w, frame, outer)
    case Define(v, init) => P.RunDefine(v, init, c, w, frame, outer)
  }

  predicate Compilable(s: P.Stmt) {
    s.Define? ==> s.v.kind.Local?
  }

  lemma StatementCompiles(s: P.Stmt, temps: nat, env: Env, m: Machine)
    requires Below(m, temps) && Compilable(s)
    ensures var code := CompileStmt(s, temps); var m' := Exec(code.0, env, m);
      m'.world == RunStmt(s, env.c, m.world, env.frame, env.outer).world && Below(m', code.1)
  {
    hide Emit, Run, EmitTransient, HandleTransient, EmitAssignment, HandleAssignment, Close, Exec, Step, Finish;
    var k0, s0 := Begin(temps), P.Fresh(m.world, env.frame, env.outer);
    Begun(temps, env, m);
    var e := if s.Eval? then s.e else s.init;
    EmitCorrect(e, k0, env, m, s0);
    var p, q := Emit(e, k0), Run(e, env.c, s0);
    if s.Eval? {
      SimTransient(p.0, p.1, q.1, env, m, q.0);
      FinishCorrect(EmitTransient(p.0, p.1), env, m, HandleTransient(q.0, q.1));
    } else {
      Assigned(k0, env, m, p, q);
      var k, t := EmitAssignment(p.0, p.1), HandleAssignment(q.0, q.1);
      var w := t.world.(slots := t.world.slots[FrameSlot(env.frame, s.v) := q.1.val]);
      StoreStep(k, s.v, p.1, env, m, q.1, w, t);
      FinishCorrect(Gen(k, StoreVar(s.v, p.1.temp)), env, m, t.(world := w));
    }
    Finished(p, s);
  }

  lemma Finished(p: (Unit, Value), s: P.Stmt)
    ensures Finish(EmitTransient(p.0, p.1)).1 == EmitTransient(p.0, p.1).temps
    ensures s.Define? ==> var k := Gen(EmitAssignment(p.0, p.1), StoreVar(s.v, p.1.temp)); Finish(k).1 == k.temps
  {
  }

  /** After handleAssignment the value is still in its temporary. */
  lemma Assigned(k: Unit, env: Env, m: Machine, p: (Unit, Value), q: (State, Result))
    requires Matched(k, env, m, p, q)
    ensures var k1 := EmitAssignment(p.0, p.1);
      Sim(k1, env, m, HandleAssignment(q.0, q.1)) && HoldsValue(k1, Exec(k1.instrs, env, m), p.1, q.1)
  {
    hide Exec, EmitAssignment, HandleAssignment;
    SimAssignment(p.0, p.1, q.1, env, m, q.0);
    var k1 := EmitAssignment(p.0, p.1);
    LaterHolds(p.0, Exec(p.0.instrs, env, m), k1, Exec(k1.instrs, env, m), p.1, q.1);
  }

  lemma StoreStep(k: Unit, v: VarDef, x: Value, env: Env, m: Machine, r: Result, w: World, t: State)
    requires Sim(k, env, m, t) && HoldsValue(k, Exec(k.instrs, env, m), x, r) && v.kind.Local?
    requires w == t.world.(slots := t.world.slots[FrameSlot(env.frame, v) := r.val])
    ensures Sim(Gen(k, StoreVar(v, x.temp)), env, m, t.(world := w))
  {
    hide Exec;
    SimHeap(k, StoreVar(v, x.temp), w, env, m, t);
    assert SameBut(t, t.(world := w));
  }

  lemma {:induction false} StatementsCompile(stmts: seq<P.Stmt>, temps: nat, env: Env, m: Machine)
    requires Below(m, temps) && forall i :: 0 <= i < |stmts| ==> Compilable(stmts[i])
    ensures var code := CompileStmts(stmts, temps); var m' := Exec(code.0, env, m);
      m'.world == P.RunStmts(stmts, env.c, m.world, env.frame, env.outer).world && Below(m', code.1)
    decreases |stmts|
  {
    hide CompileStmt, P.RunEval, P.RunDefine;
    if stmts != [] {
      var first := CompileStmt(stmts[0], temps);
      StatementCompiles(stmts[0], temps, env, m);
      var m1 := Exec(first.0, env, m);
      StatementsCompile(stmts[1..], first.1, env, m1);
      ExecAppend(first.0, CompileStmts(stmts[1..], first.1).0, env, m);
    }
  }

  lemma ReturnCompiles(e: Expr, temps: nat, env: Env, m: Machine)
    requires Below(m, temps)
    ensures var code := CompileReturn(e, temps); var m' := Exec(code.0, env, m);
      var o := P.RunReturn(e, env.c, m.world, env.frame, env.outer);
      m'.world == o.world && Temp(m', code.1) == o.val
  {
    hide Emit, Run, EmitAssignment, HandleAssignment, Close, Exec, Step, Finish;
    var k0, s0 := Begin(temps), P.Fresh(m.world, env.frame, env.outer);
    Begun(temps, env, m);
    EmitCorrect(e, k0, env, m, s0);
    var p, q := Emit(e, k0), Run(e, env.c, s0);
    Assigned(k0, env, m, p, q);
    FinishCorrect(EmitAssignment(p.0, p.1), env, m, HandleAssignment(q.0, q.1));
  }

  lemma {:induction false} VariablesClose(vars: seq<VarDef>, env: Env, m: Machine)
    ensures Exec(CloseVars(vars), env, m) == m.(world := P.Leave(m.world, env.frame, vars))
    decreases |vars|
  {
    hide P.Vacate;
    if vars != [] {
      var i, rest := CloseVar(vars[|vars| - 1]), vars[..|vars| - 1];
      var m1 := m.(world := P.Vacate(m.world, FrameSlot(env.frame, vars[|vars| - 1])));
      ExecAppend([i], CloseVars(rest), env, m);
      assert [] + [i] == [i];
      ExecGen([], i, env, m);
      VariablesClose(rest, env, m1);
    }
  }

  /** Executing the code of a body on entry to its frame leaves the heap, and the value, that running the
      body leaves. */
  lemma BodyCompiles(b: P.Body, c: Callee, vals: seq<Result>, w: World, frame: nat, outer: multiset<Ref>)
    requires forall i :: 0 <= i < |b.stmts| ==> Compilable(b.stmts[i])
    ensures var code, o := CompileBody(b), P.RunBody(b, c, vals, w, frame, outer);
      var m := Exec(code.0, Env(c, frame + 1, outer), Machine(P.Enter(w, frame + 1, b.params, vals), map[]));
      m.world == o.world && (b.ret.Some? ==> Temp(m, code.1) == o.val)
  {
    hide CompileStmts, CompileReturn, CloseVars, P.RunStmts, P.RunReturn, P.Leave, P.Enter, Exec;
    var env, m0 := Env(c, frame + 1, outer), Machine(P.Enter(w, frame + 1, b.params, vals), map[]);
    var stmts, vars := CompileStmts(b.stmts, 0), b.params + P.Locals(b.stmts);
    StatementsCompile(b.stmts, 0, env, m0);
    var m1 := Exec(stmts.0, env, m0);
    var ret := if b.ret.Some? then CompileReturn(b.ret.value, stmts.1) else ([], stmts.1);
    if b.ret.Some? {
      ReturnCompiles(b.ret.value, stmts.1, env, m1);
    }
    NoCode(env, m1);
    ExecAppend(stmts.0, ret.0, env, m0);
    ExecAppend(stmts.0 + ret.0, CloseVars(vars), env, m0);
    VariablesClose(vars, env, Exec(ret.0, env, m1));
  }

  lemma NoCode(env: Env, m: Machine)
    ensures Exec([], env, m) == m
  {
  }
}
