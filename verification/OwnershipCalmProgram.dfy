/** Calm programs: every run of every function, to every depth of calls, keeps the books. */
module OwnershipCalmProgram {
  import opened Ownership
  import opened OwnershipLedger
  import opened OwnershipBalance
  import opened OwnershipProgram
  import opened OwnershipCalm

  predicate CalmStmt(s: Stmt, ws: Summary, scope: set<VarDef>) {
    match s
    case Eval(e) => Calm(e, ws, scope)
    case Define(v, init) => Calm(init, ws, scope) && Anchored(init) && v !in scope
  }

  function ScopeAfter(s: Stmt, scope: set<VarDef>): set<VarDef> {
    if s.Define? then scope + {s.v} else scope
  }

  function ScopeAtEnd(stmts: seq<Stmt>, scope: set<VarDef>): set<VarDef> {
    if stmts == [] then scope else ScopeAtEnd(stmts[1..], ScopeAfter(stmts[0], scope))
  }

  predicate CalmStmts(stmts: seq<Stmt>, ws: Summary, scope: set<VarDef>) {
    stmts == [] || (CalmStmt(stmts[0], ws, scope) && CalmStmts(stmts[1..], ws, ScopeAfter(stmts[0], scope)))
  }

  function StmtWrites(s: Stmt, ws: Summary): set<VarDef> {
    match s
    case Eval(e) => Writes(e, ws)
    case Define(v, init) => Writes(init, ws) + {v}
  }

  function StmtsWrite(stmts: seq<Stmt>, ws: Summary): set<VarDef> {
    if stmts == [] then {} else StmtWrites(stmts[0], ws) + StmtsWrite(stmts[1..], ws)
  }

  function BodyWrites(b: Body, ws: Summary): set<VarDef> {
    StmtsWrite(b.stmts, ws) + if b.ret.Some? then Writes(b.ret.value, ws) else {}
  }

  /** A body is calm if its statements and its return value are, and it assigns no global or field
      that its summary leaves out. */
  predicate CalmBody(func: FuncDef, b: Body, ws: Summary) {
    && |b.params| == |func.params|
    && (forall i :: 0 <= i < |b.params| ==> b.params[i].ty.release == func.params[i].release)
    && CalmStmts(b.stmts, ws, {})
    && (b.ret.Some? ==> Calm(b.ret.value, ws, ScopeAtEnd(b.stmts, {})) && Anchored(b.ret.value))
    && forall v :: v in BodyWrites(b, ws) && (v.kind.Global? || v.kind.Field?) ==> v in ws(func)
  }

  predicate CalmProgram(prog: Program, ws: Summary) {
    SourceProgram(prog) && forall func :: func in prog ==> CalmBody(func, prog[func], ws)
  }

  // ----- Statements -----

  /** Between statements of a calm body. */
  ghost predicate Poised(w: World, frame: nat, outer: multiset<Ref>, scope: set<VarDef>) {
    && Steadied(w, frame, outer) && Ready(Fresh(w, frame, outer), scope)
    && forall v: VarDef :: v.kind.Local? && FrameSlot(frame, v) in w.slots ==> v in scope
  }

  lemma ReadyAcross(s: State, t: State, scope: set<VarDef>)
    requires Ready(s, scope) && SameFrames(s.world, t.world) && s.frame == t.frame && s.outer == t.outer
    ensures Ready(t, scope)
  {
    hide Shielded;
    forall v | v in scope && v.kind.Local? ensures FrameSlot(t.frame, v) in t.world.slots {
      assert Get(s.world, FrameSlot(s.frame, v)) == Get(t.world, FrameSlot(s.frame, v));
    }
    forall v: VarDef | v.kind.Param? && v.ty.release
      ensures Shielded(t.world, t.frame, t.outer, Get(t.world, FrameSlot(t.frame, v)))
    {
      var k := FrameSlot(s.frame, v);
      assert Get(s.world, k) == Get(t.world, k);
      ShieldedKept(s.world, t.world, s.frame, s.outer, Get(s.world, k));
    }
  }

  lemma PoisedFine(w: World, frame: nat, outer: multiset<Ref>, scope: set<VarDef>)
    requires Poised(w, frame, outer, scope)
    ensures Fine(Fresh(w, frame, outer), scope)
  {
    hide Steadied, Sound, Ready;
    FreshSound(w, frame, outer);
  }

  /** The statement has ended: the cleanups of its frame have run. */
  lemma Closed(t: State, w: World, scope: set<VarDef>, scope': set<VarDef>, frame: nat, outer: multiset<Ref>,
               vs: seq<VarDef>)
    requires Ready(t, scope') && t.frame == frame && t.outer == outer
    requires var x := Close(t.world, t.cleanups); Steadied(x, frame, outer) && Grew(w, x, frame, vs)
    requires forall v: VarDef :: v.kind.Local? && FrameSlot(frame, v) in w.slots ==> v in scope
    requires forall v :: v in scope || v in vs ==> v in scope'
    ensures Poised(Close(t.world, t.cleanups), frame, outer, scope')
  {
    hide Steadied, Ready, Close;
    CloseKeeps(t.world, t.cleanups);
    ReadyAcross(t, Fresh(Close(t.world, t.cleanups), frame, outer), scope');
  }

  lemma CalmEval(e: Expr, c: Callee, ws: Summary, w: World, frame: nat, outer: multiset<Ref>, scope: set<VarDef>)
    requires Lawful(c) && Quiet(c, ws) && Source(e) && Calm(e, ws, scope) && Poised(w, frame, outer, scope)
    ensures var o := RunEval(e, c, w, frame, outer);
      (o.settled || o.stopped) &&
        (o.settled ==> Poised(o.world, frame, outer, scope) && Effect(w, o.world, Writes(e, ws)))
  {
    hide Steadied, Ready, Effect, Close, Run, HandleTransient, Grew, Lawful, Quiet, Sound;
    var s := Fresh(w, frame, outer);
    var p := Run(e, c, s);
    var t := HandleTransient(p.0, p.1);
    PoisedFine(w, frame, outer, scope);
    CalmRun(e, c, ws, s, scope);
    StoppedTransient(p.0, p.1);
    if p.0.settled {
      Balance(e, c, s);
      TransientReady(p.0, p.1, scope);
      EvalStep(e, c, w, frame, outer);
      TransientWorld(p.0, p.1);
      Closed(t, w, scope, scope, frame, outer, []);
      CloseEffect(t.world, t.cleanups);
      EffectTrans(w, t.world, Close(t.world, t.cleanups), Writes(e, ws), {});
      assert Writes(e, ws) + {} == Writes(e, ws);
    }
  }

  lemma AssignmentCalm(s: State, r: Result)
    requires s.settled && Regular(r.ty) && (r.ty.release && !r.productive ==> Alive(s.world, r.val))
    ensures HandleAssignment(s, r).settled && HandleAssignment(s, r).cleanups == s.cleanups
    ensures Effect(s.world, HandleAssignment(s, r).world, {}) && HandleAssignment(s, r).world.slots == s.world.slots
    ensures HandleAssignment(s, r).frame == s.frame && HandleAssignment(s, r).outer == s.outer
  {
    hide Effect;
    EffectRefl(s.world);
    if !r.productive && r.ty.bind {
      BindEffect(s.world, r.val);
    }
  }

  lemma StoppedAssignment(s: State, r: Result)
    ensures HandleAssignment(s, r).stopped == s.stopped && (HandleAssignment(s, r).settled ==> s.settled)
  {
  }

  lemma CalmReturn(e: Expr, c: Callee, ws: Summary, w: World, frame: nat, outer: multiset<Ref>, scope: set<VarDef>)
    requires Lawful(c) && Quiet(c, ws) && Source(e) && Calm(e, ws, scope) && Anchored(e) &&
      Poised(w, frame, outer, scope)
    ensures var o := RunReturn(e, c, w, frame, outer);
      (o.settled || o.stopped) && (o.settled ==> Effect(w, o.world, Writes(e, ws)))
  {
    hide Steadied, Ready, Effect, Close, Run, HandleAssignment, Lawful, Quiet, Sound;
    var s := Fresh(w, frame, outer);
    var p := Run(e, c, s);
    var t := HandleAssignment(p.0, p.1);
    PoisedFine(w, frame, outer, scope);
    CalmRun(e, c, ws, s, scope);
    StoppedAssignment(p.0, p.1);
    if p.0.settled {
      AssignmentCalm(p.0, p.1);
      CloseEffect(t.world, t.cleanups);
      EffectTrans(w, p.0.world, t.world, Writes(e, ws), {});
      EffectTrans(w, t.world, Close(t.world, t.cleanups), Writes(e, ws) + {}, {});
      assert Writes(e, ws) + {} + {} == Writes(e, ws);
    }
  }

  lemma CalmDefine(v: VarDef, init: Expr, c: Callee, ws: Summary, w: World, frame: nat, outer: multiset<Ref>,
                   scope: set<VarDef>)
    requires Lawful(c) && Quiet(c, ws) && SourceStmt(Define(v, init)) && CalmStmt(Define(v, init), ws, scope)
    requires Poised(w, frame, outer, scope)
    ensures var o := RunDefine(v, init, c, w, frame, outer);
      && (o.settled || o.stopped)
      && (o.settled ==> Poised(o.world, frame, outer, scope + {v}) && Effect(w, o.world, Writes(init, ws) + {v}))
  {
    hide Steadied, Ready, Effect, Close, Run, HandleAssignment, Grew, Lawful, Quiet, Sound, KeepsCover;
    var s := Fresh(w, frame, outer);
    var p := Run(init, c, s);
    var t, slot := HandleAssignment(p.0, p.1), FrameSlot(frame, v);
    var u := t.(world := t.world.(slots := t.world.slots[slot := p.1.val]));
    PoisedFine(w, frame, outer, scope);
    CalmRun(init, c, ws, s, scope);
    StoppedAssignment(p.0, p.1);
    if p.0.settled {
      Balance(init, c, s);
      AssignmentCalm(p.0, p.1);
      DefineStep(v, init, c, w, frame, outer);
      DefineReady(p.0, u, scope, v, p.1.val);
      Closed(u, w, scope, scope + {v}, frame, outer, [v]);
      DefineEffect(t.world, slot, p.1.val);
      CloseEffect(u.world, u.cleanups);
      EffectTrans(w, p.0.world, t.world, Writes(init, ws), {});
      EffectTrans(w, t.world, u.world, Writes(init, ws) + {}, {v});
      EffectTrans(w, u.world, Close(u.world, u.cleanups), Writes(init, ws) + {} + {v}, {});
      assert Writes(init, ws) + {} + {v} + {} == Writes(init, ws) + {v};
    }
  }

  lemma DefineEffect(w: World, slot: Slot, val: Ref)
    requires !slot.v.kind.Param?
    ensures Effect(w, w.(slots := w.slots[slot := val]), {slot.v})
  {
  }

  lemma DefineReady(s: State, u: State, scope: set<VarDef>, v: VarDef, val: Ref)
    requires Ready(s, scope) && v.kind.Local? && u.world.slots == s.world.slots[FrameSlot(s.frame, v) := val]
    requires u.frame == s.frame && u.outer == s.outer
    ensures Ready(u, scope + {v})
  {
    hide Shielded;
    forall p: VarDef | p.kind.Param? && p.ty.release
      ensures Shielded(u.world, u.frame, u.outer, Get(u.world, FrameSlot(u.frame, p)))
    {
      assert Get(s.world, FrameSlot(s.frame, p)) == Get(u.world, FrameSlot(s.frame, p));
      ShieldedKept(s.world, u.world, s.frame, s.outer, Get(s.world, FrameSlot(s.frame, p)));
    }
  }

  lemma {:induction false} CalmStmtsRun(stmts: seq<Stmt>, c: Callee, ws: Summary, w: World, frame: nat,
                                        outer: multiset<Ref>,
                                        scope: set<VarDef>)
    requires Lawful(c) && Quiet(c, ws) && (forall i :: 0 <= i < |stmts| ==> SourceStmt(stmts[i]))
    requires CalmStmts(stmts, ws, scope) && Poised(w, frame, outer, scope)
    ensures var o := RunStmts(stmts, c, w, frame, outer);
      && (o.settled || o.stopped)
      && (o.settled ==>
        Poised(o.world, frame, outer, ScopeAtEnd(stmts, scope)) && Effect(w, o.world, StmtsWrite(stmts, ws)))
    decreases |stmts|
  {
    hide Poised, RunEval, RunDefine, Effect, Lawful, Quiet, Source, Calm, Writes, Anchored;
    if stmts == [] {
      EffectRefl(w);
    } else {
      var o := match stmts[0]
        case Eval(e) => RunEval(e, c, w, frame, outer)
        case Define(v, init) => RunDefine(v, init, c, w, frame, outer);
      match stmts[0] {
        case Eval(e) => CalmEval(e, c, ws, w, frame, outer, scope);
        case Define(v, init) => CalmDefine(v, init, c, ws, w, frame, outer, scope);
      }
      if o.settled {
        var r := RunStmts(stmts[1..], c, o.world, frame, outer);
        CalmStmtsRun(stmts[1..], c, ws, o.world, frame, outer, ScopeAfter(stmts[0], scope));
        if r.settled {
          EffectTrans(w, o.world, r.world, StmtWrites(stmts[0], ws), StmtsWrite(stmts[1..], ws));
        }
      }
    }
  }

  // ----- Bodies -----

  /** An effect outside the stack. */
  ghost predicate OuterEffect(w: World, w': World, vars: set<VarDef>) {
    && (forall o: nat :: o in w.counts ==> o in w'.counts && (Count(w, o) <= 0 ==> Count(w', o) <= 0))
    && forall k: Slot ::
         Proper(k) && !k.FrameSlot? && k.v !in vars &&
           (k.FieldSlot? ==> Count(w, k.owner) > 0 && Count(w', k.owner) > 0) ==>
           Get(w, k) == Get(w', k)
  }

  lemma OuterTrans(w: World, u: World, x: World, a: set<VarDef>, b: set<VarDef>)
    requires OuterEffect(w, u, a) && OuterEffect(u, x, b)
    ensures OuterEffect(w, x, a + b)
  {
    hide Get;
    forall k: Slot | Proper(k) && !k.FrameSlot? && k.v !in a + b &&
      (k.FieldSlot? ==> Count(w, k.owner) > 0 && Count(x, k.owner) > 0)
      ensures Get(w, k) == Get(x, k)
    {
      if k.FieldSlot? {
        assert k.owner in w.counts;
      }
      assert Get(w, k) == Get(u, k);
    }
  }

  lemma Outward(w: World, u: World, vars: set<VarDef>)
    requires Effect(w, u, vars)
    ensures OuterEffect(w, u, vars)
  {
  }

  lemma {:induction false} EnterEffect(w: World, frame: nat, params: seq<VarDef>, vals: seq<Result>)
    ensures var u := Enter(w, frame, params, vals); OuterEffect(w, u, {}) && u.counts == w.counts
    ensures var u := Enter(w, frame, params, vals); forall k: Slot :: k.FrameSlot? && k.frame != frame ==>
      Get(w, k) == Get(u, k) && (k in w.slots <==> k in u.slots)
    decreases |params|
  {
    if params != [] && vals != [] {
      EnterEffect(w.(slots := w.slots[FrameSlot(frame, params[0]) := vals[0].val]), frame, params[1..], vals[1..]);
    }
  }

  lemma VacateEffect(w: World, frame: nat, v: VarDef)
    ensures OuterEffect(w, Vacate(w, FrameSlot(frame, v)), {})
  {
    hide Drain;
    var s, none: set<VarDef> := FrameSlot(frame, v), {};
    if s in w.slots {
      DrainEffect(Destroy(w, s));
      Outward(Destroy(w, s), Drain(Destroy(w, s)), {});
      assert OuterEffect(w, Destroy(w, s), {}) by { DestroyFrame(w, s); }
      OuterTrans(w, Destroy(w, s), Drain(Destroy(w, s)), none, none);
      assert none + none == none;
    }
  }

  lemma DestroyFrame(w: World, s: Slot)
    requires s in w.slots && s.FrameSlot?
    ensures OuterEffect(w, Destroy(w, s), {})
  {
  }

  lemma {:induction false} LeaveEffect(w: World, frame: nat, vars: seq<VarDef>)
    ensures OuterEffect(w, Leave(w, frame, vars), {})
    decreases |vars|
  {
    hide Vacate;
    if vars != [] {
      var u, none: set<VarDef> := Vacate(w, FrameSlot(frame, vars[|vars| - 1])), {};
      VacateEffect(w, frame, vars[|vars| - 1]);
      LeaveEffect(u, frame, vars[..|vars| - 1]);
      OuterTrans(w, u, Leave(w, frame, vars), none, none);
      assert none + none == none;
    }
  }

  /** A parameter's slot holds nothing or one of the values passed. */
  lemma {:induction false} ParamHolds(w: World, frame: nat, params: seq<VarDef>, vals: seq<Result>, k: Slot)
    requires k.FrameSlot? && k.frame == frame
    ensures var r := Get(Enter(w, frame, params, vals), k);
      r == Get(w, k) || exists i :: 0 <= i < |params| && i < |vals| && params[i] == k.v && r == vals[i].val
    decreases |params|
  {
    if params != [] && vals != [] {
      var u := w.(slots := w.slots[FrameSlot(frame, params[0]) := vals[0].val]);
      ParamHolds(u, frame, params[1..], vals[1..], k);
      var r := Get(Enter(w, frame, params, vals), k);
      if exists i :: 0 <= i < |params[1..]| && i < |vals[1..]| && params[1..][i] == k.v && r == vals[1..][i].val {
        var i :| 0 <= i < |params[1..]| && i < |vals[1..]| && params[1..][i] == k.v && r == vals[1..][i].val;
        assert params[i + 1] == k.v && r == vals[i + 1].val;
      }
    }
  }

  lemma EnterPoised(func: FuncDef, b: Body, vals: seq<Result>, w: World, frame: nat, owed: multiset<Ref>)
    requires Steadied(w, frame, owed) && AllCovered(w, owed, vals) && Fits(func, vals)
    requires |b.params| == |func.params| && (forall i :: 0 <= i < |b.params| ==> b.params[i].kind.Param?)
    requires forall i :: 0 <= i < |b.params| ==> b.params[i].ty.release == func.params[i].release
    ensures Poised(Enter(w, frame + 1, b.params, vals), frame + 1, owed, {})
  {
    hide Books, Enter;
    var f := frame + 1;
    var u := Enter(w, f, b.params, vals);
    Deeper(w, owed, frame);
    EnterStep(w, owed, f, b.params, vals);
    EnterEffect(w, f, b.params, vals);
    forall v: VarDef | v.kind.Param? && v.ty.release
      ensures Shielded(u, f, owed, Get(u, FrameSlot(f, v)))
    {
      ParamHolds(w, f, b.params, vals, FrameSlot(f, v));
      var r := Get(u, FrameSlot(f, v));
      if r.Obj? && owed[r] == 0 {
        assert FrameSlot(f, v) !in w.slots;
        var i :| 0 <= i < |b.params| && i < |vals| && b.params[i] == v && r == vals[i].val;
        assert Covered(w, owed, vals[i].val);
        var k :| k in w.slots && Steady(k) && w.slots[k] == r;
        assert k.frame <= frame && Get(w, k) == Get(u, k);
      }
    }
  }

  /** A calm body always settles (or stops at a null store), and assigns no more than its summary. */
  lemma CalmBodyIsQuiet(func: FuncDef, b: Body, c: Callee, ws: Summary, vals: seq<Result>, w: World, frame: nat,
                        owed: multiset<Ref>)
    requires Lawful(c) && Quiet(c, ws) && SourceBody(func, b) && CalmBody(func, b, ws)
    requires Steadied(w, frame, owed) && AllCovered(w, owed, vals) && Fits(func, vals)
    ensures var o := RunBody(b, c, vals, w, frame, owed);
      (o.settled || o.stopped) && (o.settled ==> Effect(w, o.world, ws(func)))
  {
    hide Lawful, Quiet, Steadied, AllCovered, Fits, Poised, Effect, RunStmts, RunReturn, Enter, Leave, Source,
      Calm, SourceStmt, CalmStmts, OuterEffect, Anchored;
    var f := frame + 1;
    var e := Enter(w, f, b.params, vals);
    EnterPoised(func, b, vals, w, frame, owed);
    var o := RunStmts(b.stmts, c, e, f, owed);
    CalmStmtsRun(b.stmts, c, ws, e, f, owed, {});
    if o.settled {
      EnterEffect(w, f, b.params, vals);
      Outward(e, o.world, StmtsWrite(b.stmts, ws));
      OuterTrans(w, e, o.world, {}, StmtsWrite(b.stmts, ws));
      var x, vars := o.world, {} + StmtsWrite(b.stmts, ws);
      if b.ret.Some? {
        var r := RunReturn(b.ret.value, c, o.world, f, owed);
        CalmReturn(b.ret.value, c, ws, o.world, f, owed, ScopeAtEnd(b.stmts, {}));
        if r.settled {
          Outward(o.world, r.world, Writes(b.ret.value, ws));
          OuterTrans(w, o.world, r.world, vars, Writes(b.ret.value, ws));
        }
        x, vars := r.world, vars + Writes(b.ret.value, ws);
      }
      var z := RunBody(b, c, vals, w, frame, owed);
      if z.settled {
        LeaveEffect(x, f, b.params + Locals(b.stmts));
        OuterTrans(w, x, z.world, vars, {});
        BodyIsLawful(func, b, c, vals, w, frame, owed);
        Inward(w, z.world, vars + {}, ws(func));
      }
    }
  }

  lemma Inward(w: World, u: World, vars: set<VarDef>, summary: set<VarDef>)
    requires OuterEffect(w, u, vars) && SameFrames(w, u)
    requires forall v :: v in vars && (v.kind.Global? || v.kind.Field?) ==> v in summary
    ensures Effect(w, u, summary)
  {
    hide Get;
  }

  /** Every calm program, to every depth of calls, settles on every run (or stops at a null store). */
  lemma {:induction false} CalmProgramIsQuiet(prog: Program, native: Callee, ws: Summary, depth: nat)
    requires Lawful(native) && Quiet(native, ws) && CalmProgram(prog, ws)
    ensures Quiet(Machine(prog, native, depth), ws)
    decreases depth
  {
    hide RunBody, SourceBody, CalmBody, AllCovered, Regular, InFrames, Books, Effect, Lawful, Fits;
    if depth > 0 {
      var inner, c := Machine(prog, native, depth - 1), Machine(prog, native, depth);
      CalmProgramIsQuiet(prog, native, ws, depth - 1);
      ProgramIsLawful(prog, native, depth - 1);
      forall func: FuncDef, vals: seq<Result>, w: World, frame: nat, owed: multiset<Ref> |
        Regular(func.result) && Books(w, owed) && InFrames(w, frame) && AllCovered(w, owed, vals) && Fits(func, vals)
        ensures var o := c(func, vals, w, frame, owed);
          (o.settled || o.stopped) && (o.settled ==> Effect(w, o.world, ws(func)))
      {
        if func in prog {
          CalmBodyIsQuiet(func, prog[func], inner, ws, vals, w, frame, owed);
        }
      }
    }
  }

  /** Counts balance on every run of a calm program that does not stop. */
  lemma CalmCountsBalance(prog: Program, native: Callee, ws: Summary, depth: nat, func: FuncDef, w: World)
    requires Lawful(native) && Quiet(native, ws) && CalmProgram(prog, ws)
    requires Regular(func.result) && func.params == [] && Books(w, multiset{}) && InFrames(w, 0)
    requires !Machine(prog, native, depth)(func, [], w, 0, multiset{}).stopped
    ensures var o := Machine(prog, native, depth)(func, [], w, 0, multiset{});
      && !o.world.faulted && SameFrames(w, o.world)
      && forall n: nat :: Count(o.world, n)
           == |Holders(o.world.slots, n)| + if func.result.release && o.val == Obj(n) then 1 else 0
  {
    hide Machine, Holders, SameFrames, InFrames, Books, Effect, Lawful, CalmBody, SourceBody, Regular;
    CalmProgramIsQuiet(prog, native, ws, depth);
    assert AllCovered(w, multiset{}, []) && Fits(func, []);
    CountsBalance(prog, native, depth, func, w);
  }
}
