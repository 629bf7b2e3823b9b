/**
 * Whole programs: function bodies made of expression statements, variable definitions and a return,
 * each statement in a cleanup frame of its own, local variables released in the reverse of the order
 * they were defined in.
 */
module OwnershipProgram {
  import opened Ownership
  import opened OwnershipLedger
  import opened OwnershipBalance

  datatype Stmt = Eval(e: Expr) | Define(v: VarDef, init: Expr)

  datatype Body = Body(params: seq<VarDef>, stmts: seq<Stmt>, ret: Option<Expr>)

  /** The functions written in the language.  A native callee answers for the others, and for calls
      nested deeper than the depth at hand. */
  type Program = map<FuncDef, Body>

  // ----- Running statements -----

  function Fresh(w: World, frame: nat, outer: multiset<Ref>): State {
    State(w, frame, outer, [], map[], 0, true, false)
  }

  /** An expression statement (parser/Parser.cc:333): emit, handleTransient, close the frame. */
  ghost function RunEval(e: Expr, c: Callee, w: World, frame: nat, outer: multiset<Ref>): Outcome {
    var p := Run(e, c, Fresh(w, frame, outer));
    var t := HandleTransient(p.0, p.1);
    Outcome(Close(t.world, t.cleanups), Nil, t.settled, t.stopped)
  }

  /** A definition (model/Context.cc:507): the variable takes the initializer's reference, and the
      statement's frame is closed; the variable's own cleanup belongs to the enclosing frame. */
  ghost function RunDefine(v: VarDef, init: Expr, c: Callee, w: World, frame: nat, outer: multiset<Ref>): Outcome {
    var p := Run(init, c, Fresh(w, frame, outer));
    var t := HandleAssignment(p.0, p.1);
    var slot := FrameSlot(frame, v);
    var u := t.world.(slots := t.world.slots[slot := p.1.val]);
    Outcome(Close(u, t.cleanups), Nil, t.settled && slot !in t.world.slots, t.stopped)
  }

  /** A return value is handed over with a reference (LLVMBuilder::emitReturn). */
  ghost function RunReturn(e: Expr, c: Callee, w: World, frame: nat, outer: multiset<Ref>): Outcome {
    var p := Run(e, c, Fresh(w, frame, outer));
    var t := HandleAssignment(p.0, p.1);
    Outcome(Close(t.world, t.cleanups), p.1.val, t.settled, t.stopped)
  }

  ghost function RunStmts(stmts: seq<Stmt>, c: Callee, w: World, frame: nat, outer: multiset<Ref>): Outcome {
    if stmts == [] then Outcome(w, Nil, true, false)
    else
      var o := match stmts[0]
        case Eval(e) => RunEval(e, c, w, frame, outer)
        case Define(v, init) => RunDefine(v, init, c, w, frame, outer);
      var r := RunStmts(stmts[1..], c, o.world, frame, outer);
      r.(settled := o.settled && r.settled, stopped := o.stopped || r.stopped)
  }

  function Locals(stmts: seq<Stmt>): seq<VarDef> {
    if stmts == [] then []
    else (if stmts[0].Define? then [stmts[0].v] else []) + Locals(stmts[1..])
  }

  /** Arguments are borrowed: they are stored without a bind (builder/llvm/LLVMBuilder.cc:1653). */
  function Enter(w: World, frame: nat, params: seq<VarDef>, vals: seq<Result>): World
    decreases |params|
  {
    if params == [] || vals == [] then w
    else Enter(w.(slots := w.slots[FrameSlot(frame, params[0]) := vals[0].val]), frame, params[1..], vals[1..])
  }

  ghost function Vacate(w: World, s: Slot): World {
    if s in w.slots then Drain(Destroy(w, s)) else w
  }

  ghost function Leave(w: World, frame: nat, vars: seq<VarDef>): World
    decreases |vars|
  {
    if vars == [] then w else Leave(Vacate(w, FrameSlot(frame, vars[|vars| - 1])), frame, vars[..|vars| - 1])
  }

  ghost function RunBody(b: Body, c: Callee, vals: seq<Result>, w: World, frame: nat, outer: multiset<Ref>): Outcome {
    var f := frame + 1;
    var o := RunStmts(b.stmts, c, Enter(w, f, b.params, vals), f, outer);
    var r := if b.ret.Some? then RunReturn(b.ret.value, c, o.world, f, outer) else Outcome(o.world, Nil, true, false);
    Outcome(Leave(r.world, f, b.params + Locals(b.stmts)), r.val, o.settled && r.settled, o.stopped || r.stopped)
  }

  ghost function Machine(prog: Program, native: Callee, depth: nat): Callee {
    if depth == 0 then native
    else
      var inner := Machine(prog, native, depth - 1);
      (func: FuncDef, vals: seq<Result>, w: World, frame: nat, owed: multiset<Ref>) =>
        if func in prog then RunBody(prog[func], inner, vals, w, frame, owed)
        else native(func, vals, w, frame, owed)
  }

  // ----- Well-formed programs -----

  predicate SourceStmt(s: Stmt) {
    match s
    case Eval(e) => Source(e)
    case Define(v, init) => Source(init) && v.kind.Local? && v.ty.release == TypeOf(init).release
  }

  predicate SourceBody(func: FuncDef, b: Body) {
    && (forall i :: 0 <= i < |b.params| ==> b.params[i].kind.Param?)
    && (forall i :: 0 <= i < |b.stmts| ==> SourceStmt(b.stmts[i]))
    && (if b.ret.Some? then Source(b.ret.value) && TypeOf(b.ret.value).release == func.result.release
        else !func.result.release)
  }

  predicate SourceProgram(prog: Program) {
    forall func :: func in prog ==> SourceBody(func, prog[func])
  }

  // ----- Statements keep the books -----

  /** Between statements: the books, and frames no deeper than this one. */
  ghost predicate Steadied(w: World, frame: nat, owed: multiset<Ref>) {
    Books(w, owed) && InFrames(w, frame)
  }

  /** Draining touches nothing but fields. */
  lemma {:induction false} DrainKeeps(w: World)
    ensures SameFrames(w, Drain(w))
    decreases |w.slots|
  {
    if exists s :: Orphan(w, s) {
      var s :| Orphan(w, s) && Drain(w) == Drain(Destroy(w, s));
      DrainKeeps(Destroy(w, s));
      forall k: Slot | k.FrameSlot?
        ensures Get(w, k) == Get(Drain(w), k) && (k in w.slots <==> k in Drain(w).slots)
      {
        assert Get(w, k) == Get(Destroy(w, s), k);
      }
    }
  }

  lemma {:induction false} CloseKeeps(w: World, cleanups: seq<Ref>)
    ensures SameFrames(w, Close(w, cleanups))
    decreases |cleanups|
  {
    hide Drain, SameFrames;
    if cleanups == [] {
      SameFramesRefl(w, w);
    } else {
      DrainKeeps(Decrement(w, cleanups[0]));
      SameFramesRefl(w, Decrement(w, cleanups[0]));
      CloseKeeps(Release(w, cleanups[0]), cleanups[1..]);
      SameFramesTrans(w, Decrement(w, cleanups[0]), Release(w, cleanups[0]));
      SameFramesTrans(w, Release(w, cleanups[0]), Close(w, cleanups));
    }
  }

  lemma SameFramesRefl(w: World, u: World)
    requires w.slots == u.slots
    ensures SameFrames(w, u)
  {
  }

  lemma SameFramesTrans(w: World, u: World, x: World)
    requires SameFrames(w, u) && SameFrames(u, x)
    ensures SameFrames(w, x)
  {
  }

  /** What a statement may do to frames: variables below keep their values, `vars` may appear. */
  ghost predicate Grew(w: World, w': World, frame: nat, vars: seq<VarDef>) {
    forall k: Slot :: k.FrameSlot? ==>
      && (k in w'.slots ==> k in w.slots || (k.frame == frame && k.v in vars))
      && (k.frame < frame ==> Get(w, k) == Get(w', k) && (k in w.slots <==> k in w'.slots))
  }

  /** The end of a statement: its frame is closed. */
  lemma CloseStep(t: State, w: World, outer: multiset<Ref>)
    requires Books(w, outer + multiset(t.cleanups)) && InFrames(w, t.frame)
    ensures Steadied(Close(w, t.cleanups), t.frame, outer) && SameFrames(w, Close(w, t.cleanups))
  {
    hide Books, SameFrames;
    CloseBooks(w, outer, t.cleanups);
    CloseKeeps(w, t.cleanups);
    SameFramesBelow(w, Close(w, t.cleanups), t.frame);
  }

  lemma FreshSound(w: World, frame: nat, outer: multiset<Ref>)
    requires Steadied(w, frame, outer)
    ensures Sound(Fresh(w, frame, outer), multiset{})
  {
    hide Books;
    assert Owed(Fresh(w, frame, outer)) + multiset{} == outer;
  }

  lemma GrewFromBelow(w: World, u: World, x: World, frame: nat)
    requires SameBelow(w, u, frame) && SameFrames(u, x)
    ensures Grew(w, x, frame, [])
  {
  }

  lemma EvalStep(e: Expr, c: Callee, w: World, frame: nat, outer: multiset<Ref>)
    requires Lawful(c) && Source(e) && Steadied(w, frame, outer) && RunEval(e, c, w, frame, outer).settled
    ensures var o := RunEval(e, c, w, frame, outer); Steadied(o.world, frame, outer) && Grew(w, o.world, frame, [])
  {
    hide Books, Close, Run, HandleTransient, SameFrames, SameBelow, Grew, Owes, InFrames, KeepsCover, Lawful;
    var s := Fresh(w, frame, outer);
    var p := Run(e, c, s);
    var t := HandleTransient(p.0, p.1);
    FreshSound(w, frame, outer);
    TransientSettles(p.0, p.1);
    Balance(e, c, s);
    TransientStep(p.0, p.1);
    assert Owed(t) + multiset{} == outer + multiset(t.cleanups);
    CloseStep(t, t.world, outer);
    SameBelowTrans(w, p.0.world, t.world, frame);
    GrewFromBelow(w, t.world, Close(t.world, t.cleanups), frame);
  }

  lemma ReturnStep(e: Expr, c: Callee, w: World, frame: nat, outer: multiset<Ref>)
    requires Lawful(c) && Source(e) && Steadied(w, frame, outer) && RunReturn(e, c, w, frame, outer).settled
    ensures var o := RunReturn(e, c, w, frame, outer);
      Steadied(o.world, frame, outer + Share(TypeOf(e), o.val)) && Grew(w, o.world, frame, [])
  {
    hide Books, Close, Run, HandleAssignment, SameFrames, SameBelow, Grew, Owes, InFrames, KeepsCover, Lawful, Share;
    var s := Fresh(w, frame, outer);
    var p := Run(e, c, s);
    var t := HandleAssignment(p.0, p.1);
    FreshSound(w, frame, outer);
    AssignmentSettles(p.0, p.1);
    Balance(e, c, s);
    AssignmentStep(p.0, p.1);
    var owed := outer + Share(TypeOf(e), p.1.val);
    assert Owed(t) + Share(p.1.ty, p.1.val) == owed + multiset(t.cleanups);
    CloseStep(t, t.world, owed);
    SameBelowTrans(w, p.0.world, t.world, frame);
    GrewFromBelow(w, t.world, Close(t.world, t.cleanups), frame);
  }

  lemma AssignmentSettles(s: State, r: Result)
    ensures HandleAssignment(s, r).settled ==> s.settled
  {
  }

  lemma DefineStep(v: VarDef, init: Expr, c: Callee, w: World, frame: nat, outer: multiset<Ref>)
    requires Lawful(c) && SourceStmt(Define(v, init)) && Steadied(w, frame, outer)
    requires RunDefine(v, init, c, w, frame, outer).settled
    ensures var o := RunDefine(v, init, c, w, frame, outer);
      Steadied(o.world, frame, outer) && Grew(w, o.world, frame, [v])
  {
    hide Books, Close, Run, HandleAssignment, SameFrames, SameBelow, Grew, Owes, InFrames, KeepsCover, Lawful, Share;
    var s := Fresh(w, frame, outer);
    var p := Run(init, c, s);
    var t := HandleAssignment(p.0, p.1);
    FreshSound(w, frame, outer);
    AssignmentSettles(p.0, p.1);
    Balance(init, c, s);
    AssignmentStep(p.0, p.1);
    var owed := outer + multiset(t.cleanups);
    assert Owed(t) + Share(p.1.ty, p.1.val) == owed + Share(v.ty, p.1.val) by { ShareSame(p.1.ty, v.ty, p.1.val); }
    NewVariable(t.world, owed, frame, v, p.1.val);
    var u := t.world.(slots := t.world.slots[FrameSlot(frame, v) := p.1.val]);
    CloseStep(t, u, outer);
    SameBelowTrans(w, p.0.world, t.world, frame);
    GrewVariable(w, t.world, Close(u, t.cleanups), frame, v, p.1.val);
  }

  lemma ShareSame(t: TypeDef, u: TypeDef, r: Ref)
    requires t.release == u.release
    ensures Share(t, r) == Share(u, r)
  {
  }

  lemma NewVariable(w: World, owed: multiset<Ref>, frame: nat, v: VarDef, val: Ref)
    requires Books(w, owed + Share(v.ty, val)) && InFrames(w, frame) && v.kind.Local? && FrameSlot(frame, v) !in w.slots
    ensures var u := w.(slots := w.slots[FrameSlot(frame, v) := val]); Books(u, owed) && InFrames(u, frame)
  {
    hide Ledger;
    var slot := FrameSlot(frame, v);
    StoreKeepsBooksIff(w, owed, slot, Nil, val);
    NilOwed(w.(slots := w.slots[slot := val]), owed, Share(v.ty, Nil));
  }

  lemma NilOwed(w: World, owed: multiset<Ref>, nils: multiset<Ref>)
    requires Books(w, owed + nils) && (nils == multiset{} || nils == multiset{Nil})
    ensures Books(w, owed)
  {
    hide Holders;
    forall o: nat ensures Count(w, o) == |Holders(w.slots, o)| + owed[Obj(o)] {
      assert Count(w, o) == |Holders(w.slots, o)| + (owed + nils)[Obj(o)];
    }
  }

  lemma GrewVariable(w: World, u: World, x: World, frame: nat, v: VarDef, val: Ref)
    requires SameBelow(w, u, frame) && SameFrames(u.(slots := u.slots[FrameSlot(frame, v) := val]), x)
    ensures Grew(w, x, frame, [v])
  {
    var y := u.(slots := u.slots[FrameSlot(frame, v) := val]);
    forall k: Slot | k.FrameSlot?
      ensures (k in x.slots ==> k in w.slots || (k.frame == frame && k.v == v))
      ensures k.frame < frame ==> Get(w, k) == Get(x, k) && (k in w.slots <==> k in x.slots)
    {
      assert Get(y, k) == Get(x, k) && (k in y.slots <==> k in x.slots);
      assert k in w.slots <==> k in u.slots;
      assert k.frame < frame ==> Get(w, k) == Get(u, k);
    }
  }

  lemma GrewTrans(w: World, u: World, x: World, frame: nat, vs: seq<VarDef>, ws: seq<VarDef>)
    requires Grew(w, u, frame, vs) && Grew(u, x, frame, ws)
    ensures Grew(w, x, frame, vs + ws)
  {
    forall k: Slot | k.FrameSlot?
      ensures k in x.slots ==> k in w.slots || (k.frame == frame && k.v in vs + ws)
      ensures k.frame < frame ==> Get(w, k) == Get(x, k) && (k in w.slots <==> k in x.slots)
    {
      assert k.frame < frame ==> Get(w, k) == Get(u, k) == Get(x, k);
      assert k in x.slots ==> k in u.slots || (k.frame == frame && k.v in ws);
    }
  }

  lemma {:induction false} StmtsStep(stmts: seq<Stmt>, c: Callee, w: World, frame: nat, outer: multiset<Ref>)
    requires Lawful(c) && (forall i :: 0 <= i < |stmts| ==> SourceStmt(stmts[i])) && Steadied(w, frame, outer)
    requires RunStmts(stmts, c, w, frame, outer).settled
    ensures var o := RunStmts(stmts, c, w, frame, outer);
      Steadied(o.world, frame, outer) && Grew(w, o.world, frame, Locals(stmts))
    decreases |stmts|
  {
    hide Steadied, RunEval, RunDefine, Grew, Lawful, Source;
    if stmts == [] {
      GrewRefl(w, frame);
    } else {
      var o := match stmts[0]
        case Eval(e) => RunEval(e, c, w, frame, outer)
        case Define(v, init) => RunDefine(v, init, c, w, frame, outer);
      match stmts[0] {
        case Eval(e) => EvalStep(e, c, w, frame, outer);
        case Define(v, init) => DefineStep(v, init, c, w, frame, outer);
      }
      var vs := if stmts[0].Define? then [stmts[0].v] else [];
      StmtsStep(stmts[1..], c, o.world, frame, outer);
      GrewTrans(w, o.world, RunStmts(stmts, c, w, frame, outer).world, frame, vs, Locals(stmts[1..]));
    }
  }

  lemma GrewRefl(w: World, frame: nat)
    ensures Grew(w, w, frame, [])
  {
  }

  // ----- Entering and leaving a body -----

  lemma ParamStep(w: World, owed: multiset<Ref>, frame: nat, v: VarDef, val: Ref)
    requires Steadied(w, frame, owed) && v.kind.Param?
    ensures var u := w.(slots := w.slots[FrameSlot(frame, v) := val]);
      Steadied(u, frame, owed) && Grew(w, u, frame, [v])
  {
    hide Holders;
    var slot := FrameSlot(frame, v);
    var u := w.(slots := w.slots[slot := val]);
    forall o: nat ensures Count(u, o) == |Holders(u.slots, o)| + owed[Obj(o)] {
      HoldersPut(w.slots, slot, val, o);
      assert Count(w, o) == |Holders(w.slots, o)| + owed[Obj(o)];
    }
    forall s ensures !Orphan(u, s) {
      assert !Orphan(w, s);
    }
  }

  lemma {:induction false} EnterStep(w: World, owed: multiset<Ref>, frame: nat, params: seq<VarDef>, vals: seq<Result>)
    requires Steadied(w, frame, owed) && forall i :: 0 <= i < |params| ==> params[i].kind.Param?
    ensures var u := Enter(w, frame, params, vals); Steadied(u, frame, owed) && Grew(w, u, frame, params)
    decreases |params|
  {
    hide Steadied, Grew;
    GrewRefl(w, frame);
    if params != [] && vals != [] {
      var u := w.(slots := w.slots[FrameSlot(frame, params[0]) := vals[0].val]);
      ParamStep(w, owed, frame, params[0], vals[0].val);
      EnterStep(u, owed, frame, params[1..], vals[1..]);
      GrewTrans(w, u, Enter(w, frame, params, vals), frame, [params[0]], params[1..]);
      assert [params[0]] + params[1..] == params;
    } else {
      GrewMore(w, w, frame, [], params);
      assert [] + params == params;
    }
  }

  lemma GrewMore(w: World, u: World, frame: nat, vs: seq<VarDef>, ws: seq<VarDef>)
    requires Grew(w, u, frame, vs)
    ensures Grew(w, u, frame, vs + ws)
  {
    GrewRefl(u, frame);
    assert Grew(u, u, frame, ws);
    GrewTrans(w, u, u, frame, vs, ws);
  }

  /** The variables in `vars` are gone and no other has changed. */
  ghost predicate Gone(w: World, w': World, frame: nat, vars: seq<VarDef>) {
    forall k: Slot :: k.FrameSlot? ==>
      && (k in w'.slots <==> k in w.slots && !(k.frame == frame && k.v in vars))
      && (k in w'.slots ==> Get(w, k) == Get(w', k))
  }

  lemma VacateStep(w: World, owed: multiset<Ref>, frame: nat, v: VarDef)
    requires Steadied(w, frame, owed)
    ensures var u := Vacate(w, FrameSlot(frame, v)); Steadied(u, frame, owed) && Gone(w, u, frame, [v])
  {
    hide Ledger, Drain, Destroy;
    var s := FrameSlot(frame, v);
    if s in w.slots {
      DestroyLedger(w, owed, s);
      DrainBooks(Destroy(w, s), owed);
      DrainKeeps(Destroy(w, s));
      var u := Vacate(w, s);
      forall k: Slot | k.FrameSlot?
        ensures (k in u.slots <==> k in w.slots && k != s) && (k in u.slots ==> Get(w, k) == Get(u, k))
      {
        assert k in u.slots <==> k in Destroy(w, s).slots;
        assert Get(u, k) == Get(Destroy(w, s), k);
      }
    }
  }

  lemma {:induction false} LeaveStep(w: World, owed: multiset<Ref>, frame: nat, vars: seq<VarDef>)
    requires Steadied(w, frame, owed)
    ensures var u := Leave(w, frame, vars); Steadied(u, frame, owed) && Gone(w, u, frame, vars)
    decreases |vars|
  {
    hide Steadied, Vacate;
    if vars != [] {
      var v, rest := vars[|vars| - 1], vars[..|vars| - 1];
      var u := Vacate(w, FrameSlot(frame, v));
      VacateStep(w, owed, frame, v);
      LeaveStep(u, owed, frame, rest);
      assert vars == rest + [v];
      GoneTrans(w, u, Leave(w, frame, vars), frame, v, rest);
    }
  }

  lemma GoneTrans(w: World, u: World, x: World, frame: nat, v: VarDef, rest: seq<VarDef>)
    requires Gone(w, u, frame, [v]) && Gone(u, x, frame, rest)
    ensures Gone(w, x, frame, rest + [v])
  {
    forall k: Slot | k.FrameSlot?
      ensures k in x.slots <==> k in w.slots && !(k.frame == frame && k.v in rest + [v])
      ensures k in x.slots ==> Get(w, k) == Get(x, k)
    {
      assert k in u.slots <==> k in w.slots && !(k.frame == frame && k.v in [v]);
    }
  }

  lemma FramesRestored(w: World, u: World, x: World, frame: nat, vars: seq<VarDef>)
    requires InFrames(w, frame) && Grew(w, u, frame + 1, vars) && Gone(u, x, frame + 1, vars)
    ensures SameFrames(w, x)
  {
    forall k: Slot | k.FrameSlot? ensures Get(w, k) == Get(x, k) && (k in w.slots <==> k in x.slots) {
      assert k in w.slots ==> k.frame <= frame;
      assert k in u.slots ==> k in w.slots || (k.frame == frame + 1 && k.v in vars);
      assert k.frame <= frame ==> (k in w.slots <==> k in u.slots) && Get(w, k) == Get(u, k);
      assert k in x.slots <==> k in u.slots && !(k.frame == frame + 1 && k.v in vars);
    }
  }

  /** A function body made of such statements is itself a lawful callee. */
  lemma BodyIsLawful(func: FuncDef, b: Body, c: Callee, vals: seq<Result>, w: World, frame: nat, owed: multiset<Ref>)
    requires Lawful(c) && SourceBody(func, b) && Steadied(w, frame, owed)
    requires RunBody(b, c, vals, w, frame, owed).settled
    ensures var o := RunBody(b, c, vals, w, frame, owed);
      Books(o.world, owed + Share(func.result, o.val)) && SameFrames(w, o.world)
  {
    hide Grew, Gone, Lawful, RunStmts, RunReturn, Source, SourceStmt, SameFrames, Books, InFrames, Share;
    var f := frame + 1;
    var e := Enter(w, f, b.params, vals);
    var o := RunStmts(b.stmts, c, e, f, owed);
    Deeper(w, owed, frame);
    EnterStep(w, owed, f, b.params, vals);
    StmtsStep(b.stmts, c, e, f, owed);
    var vars := b.params + Locals(b.stmts);
    GrewTrans(w, e, o.world, f, b.params, Locals(b.stmts));
    var x, debt := o.world, owed + Share(func.result, Nil);
    if b.ret.Some? {
      var r := RunReturn(b.ret.value, c, o.world, f, owed);
      ReturnStep(b.ret.value, c, o.world, f, owed);
      ShareSame(TypeOf(b.ret.value), func.result, r.val);
      x, debt := r.world, owed + Share(func.result, r.val);
      GrewTrans(w, o.world, r.world, f, vars, []);
      assert vars + [] == vars;
    } else {
      assert debt == owed by { NoShare(func.result); }
    }
    LeaveStep(x, debt, f, vars);
    FramesRestored(w, x, Leave(x, f, vars), frame, vars);
  }

  lemma NoShare(t: TypeDef)
    requires !t.release
    ensures Share(t, Nil) == multiset{}
  {
  }

  lemma Deeper(w: World, owed: multiset<Ref>, frame: nat)
    requires Steadied(w, frame, owed)
    ensures Steadied(w, frame + 1, owed)
  {
    hide Books;
  }

  /** Every program, to every depth of calls: a settled run keeps the books. */
  lemma {:induction false} ProgramIsLawful(prog: Program, native: Callee, depth: nat)
    requires Lawful(native) && SourceProgram(prog)
    ensures Lawful(Machine(prog, native, depth))
    decreases depth
  {
    hide RunBody, SourceBody, AllCovered, Regular, SameFrames, Share, InFrames, Books;
    if depth > 0 {
      var inner, c := Machine(prog, native, depth - 1), Machine(prog, native, depth);
      ProgramIsLawful(prog, native, depth - 1);
      forall func: FuncDef, vals: seq<Result>, w: World, frame: nat, owed: multiset<Ref> |
        Regular(func.result) && Books(w, owed) && InFrames(w, frame) && AllCovered(w, owed, vals)
        ensures var o := c(func, vals, w, frame, owed);
          o.settled ==> Books(o.world, owed + Share(func.result, o.val)) && SameFrames(w, o.world)
      {
        if func in prog && c(func, vals, w, frame, owed).settled {
          BodyIsLawful(func, prog[func], inner, vals, w, frame, owed);
        }
      }
    }
  }

  /** Starting from balanced books and nothing owed, a settled call of any function ends with every
      count equal to the number of variables and fields holding the object, plus one for the result,
      and no release has met a count of zero. */
  lemma CountsBalance(prog: Program, native: Callee, depth: nat, func: FuncDef, w: World)
    requires Lawful(native) && SourceProgram(prog) && Regular(func.result)
    requires Books(w, multiset{}) && InFrames(w, 0)
    requires Machine(prog, native, depth)(func, [], w, 0, multiset{}).settled
    ensures var o := Machine(prog, native, depth)(func, [], w, 0, multiset{});
      && !o.world.faulted && SameFrames(w, o.world)
      && forall n: nat :: Count(o.world, n)
           == |Holders(o.world.slots, n)| + if func.result.release && o.val == Obj(n) then 1 else 0
  {
    hide Machine, Holders, SameFrames, InFrames;
    ProgramIsLawful(prog, native, depth);
    var o := Machine(prog, native, depth)(func, [], w, 0, multiset{});
    assert AllCovered(w, multiset{}, []);
    assert Books(o.world, multiset{} + Share(func.result, o.val));
    forall n: nat
      ensures Count(o.world, n) == |Holders(o.world.slots, n)| + if func.result.release && o.val == Obj(n) then 1 else 0
    {
      assert Count(o.world, n) == |Holders(o.world.slots, n)| + (multiset{} + Share(func.result, o.val))[Obj(n)];
    }
  }
}
