/**
 * The emitted instructions.  `Emit` is what the emit() methods append to the function being built and
 * to its cleanup frame; executing it does to the heap exactly what `Ownership.Run` says.
 */
module OwnershipCode {
  import opened Ownership
  import OwnershipProgram

  /** A ResultExpr: the temporary its value is in, whether its source is productive, and its type. */
  datatype Value = Value(temp: nat, productive: bool, ty: TypeDef)

  /** A call carries the cleanups its unwind block would run.  CloseVar is the cleanup of a variable at
      the end of its scope. */
  datatype Instr =
    | LoadVar(dst: nat, v: VarDef)
    | LoadField(dst: nat, obj: nat, f: VarDef)
    | LoadNull(dst: nat)
    | StoreVar(v: VarDef, src: nat)
    | StoreTo(obj: nat, f: VarDef, src: nat)
    | Call(dst: nat, func: FuncDef, args: seq<Value>, unwind: seq<nat>)
    | CallBind(src: nat)
    | CallRelease(src: nat)
    | CloseVar(v: VarDef)

  /** The function being built, its open cleanup frame (latest first), the registers set so far, and
      the next temporary and register. */
  datatype Unit = Unit(instrs: seq<Instr>, cleanups: seq<nat>, regs: map<nat, Value>, temps: nat, next: nat)

  // ----- Emission -----

  function Gen(k: Unit, i: Instr): Unit {
    k.(instrs := k.instrs + [i])
  }

  /** An instruction whose result goes to the next temporary. */
  function GenValue(k: Unit, i: Instr): Unit {
    k.(instrs := k.instrs + [i], temps := k.temps + 1)
  }

  function EmitCleanup(k: Unit, v: Value): Unit {
    if v.ty.release then k.(cleanups := [v.temp] + k.cleanups) else k
  }

  function EmitTransient(k: Unit, v: Value): Unit {
    if v.productive then EmitCleanup(k, v) else k
  }

  function EmitAssignment(k: Unit, v: Value): Unit {
    if v.productive || !v.ty.bind then k else Gen(k, CallBind(v.temp))
  }

  function Emit(e: Expr, k: Unit): (r: (Unit, Value))
    ensures r.1.ty == TypeOf(e) && r.1.productive == IsProductive(e)
    decreases Weight(e), 1
  {
    match e
    case VarRef(v) => (GenValue(k, LoadVar(k.temps, v)), Value(k.temps, false, v.ty))
    case FieldRef(obj, f) =>
      var p := Emit(obj, k);
      EmitFieldRef(p.0, p.1, f)
    case FuncCall(func, receiver, args) =>
      OperandsWeight(receiver, args);
      var es := Operands(receiver, args);
      var p := EmitOperands(es, !func.special, k.next, k.(next := k.next + |es|));
      (GenValue(p.0, Call(p.0.temps, func, p.1, p.0.cleanups)), Value(p.0.temps, func.result.pointer, func.result))
    case AssignExpr(_, _, _) => EmitAssign(e, k)
    case MultiExpr(elems) => EmitElems(elems, k)
    case SetRegister(reg, e') =>
      var p := Emit(e', k);
      (p.0.(regs := p.0.regs[reg := p.1]), p.1)
    case GetRegister(reg, t) =>
      if reg in k.regs then (k, Value(k.regs[reg].temp, false, t))
        else (k.(temps := k.temps + 1), Value(k.temps, false, t))
    case NonVolatile(e') =>
      var p := Emit(e', k);
      (p.0, p.1.(productive := true))
    case BindCall(e') =>
      var p := Emit(e', k);
      var q := Gen(EmitTransient(p.0, p.1), CallBind(p.1.temp));
      (q.(temps := q.temps + 1), Value(q.temps, false, VOID))
    case NullConst(t) => (GenValue(k, LoadNull(k.temps)), Value(k.temps, false, t))
  }

  /** BFieldRef::emit, after its aggregate: load, then handleTransient on the aggregate. */
  function EmitFieldRef(k: Unit, obj: Value, f: VarDef): (Unit, Value) {
    (EmitTransient(GenValue(k, LoadField(k.temps, obj.temp, f)), obj), Value(k.temps, false, f.ty))
  }

  function EmitAssign(e: Expr, k: Unit): (r: (Unit, Value))
    requires e.AssignExpr?
    ensures r.1.ty == TypeOf(e) && !r.1.productive
    decreases Weight(e), 0, 1
  {
    var v := e.target;
    if e.aggregate.Some? then EmitAssignField(e, k)
    else
      var p := Emit(e.value, if v.ty.release then GenValue(k, LoadVar(k.temps, v)) else k);
      var q := EmitAssignment(Gen(p.0, StoreVar(v, p.1.temp)), p.1);
      (if v.ty.release then q.(cleanups := [k.temps] + q.cleanups) else q, p.1.(productive := false))
  }

  function EmitAssignField(e: Expr, k: Unit): (r: (Unit, Value))
    requires e.AssignExpr? && e.aggregate.Some?
    ensures r.1.ty == TypeOf(e) && !r.1.productive
    decreases Weight(e), 0, 0
  {
    var f, a := e.target, Emit(e.aggregate.value, k);
    if f.ty.release then
      var b := Emit(e.aggregate.value, EmitTransient(a.0, a.1));
      var was := EmitFieldRef(b.0, b.1, f);
      var p := Emit(e.value, was.0);
      var q := Gen(EmitAssignment(p.0, p.1), StoreTo(a.1.temp, f, p.1.temp));
      (q.(cleanups := [was.1.temp] + q.cleanups), p.1.(productive := false))
    else
      var p := Emit(e.value, a.0);
      (Gen(EmitAssignment(p.0, p.1), StoreTo(a.1.temp, f, p.1.temp)), p.1.(productive := false))
  }

  function EmitElems(es: seq<Expr>, k: Unit): (r: (Unit, Value))
    ensures r.1.ty == TypeOf(MultiExpr(es)) && r.1.productive == IsProductive(MultiExpr(es))
    decreases ElemsWeight(es), 0
  {
    if es == [] then (k.(temps := k.temps + 1), Value(k.temps, false, VOID))
    else
      var p := Emit(es[0], k);
      if |es| == 1 then p else EmitElems(es[1..], EmitTransient(p.0, p.1))
  }

  function EmitOperands(es: seq<Expr>, protect: bool, reg: nat, k: Unit): (Unit, seq<Value>)
    decreases OperandWeights(es), 0
  {
    if es == [] then (k, [])
    else
      var p := EmitOperand(es[0], protect, reg, k);
      var q := EmitOperands(es[1..], protect, reg + 1, p.0);
      (q.0, [p.1] + q.1)
  }

  function EmitOperand(e: Expr, protect: bool, reg: nat, k: Unit): (Unit, Value)
    decreases Weight(e) + 11, 0
  {
    ProtectedWeight(e, reg);
    var p := Emit(if protect then MakeNonVolatile(e, reg) else e, k);
    (EmitTransient(p.0, p.1), p.1)
  }

  function Releases(temps: seq<nat>): seq<Instr> {
    seq(|temps|, i requires 0 <= i < |temps| => CallRelease(temps[i]))
  }

  // ----- Execution -----

  datatype Machine = Machine(world: World, temps: map<nat, Ref>)

  /** What stays fixed while one function body runs. */
  datatype Env = Env(c: Callee, frame: nat, outer: multiset<Ref>)

  function Temp(m: Machine, t: nat): Ref {
    if t in m.temps then m.temps[t] else Nil
  }

  function Temps(m: Machine, ts: seq<nat>): seq<Ref> {
    seq(|ts|, i requires 0 <= i < |ts| => Temp(m, ts[i]))
  }

  function Fetch(m: Machine, v: Value): Result {
    Result(Temp(m, v.temp), v.productive, v.ty)
  }

  function FetchAll(m: Machine, vs: seq<Value>): seq<Result> {
    seq(|vs|, i requires 0 <= i < |vs| => Fetch(m, vs[i]))
  }

  function SetTemp(m: Machine, t: nat, r: Ref): Machine {
    m.(temps := m.temps[t := r])
  }

  function Assign(w: World, s: Slot, r: Ref): World {
    w.(slots := w.slots[s := r])
  }

  ghost function Step(i: Instr, env: Env, m: Machine): Machine {
    match i
    case LoadVar(dst, v) => SetTemp(m, dst, Get(m.world, SlotOf(v, env.frame)))
    case LoadField(dst, obj, f) => SetTemp(m, dst, GetField(m.world, Temp(m, obj), f))
    case LoadNull(dst) => SetTemp(m, dst, Nil)
    case StoreVar(v, src) => m.(world := Assign(m.world, SlotOf(v, env.frame), Temp(m, src)))
    case StoreTo(obj, f, src) =>
      var o := Temp(m, obj);
      if o.Nil? then m else m.(world := Assign(m.world, FieldSlot(o.id, f), Temp(m, src)))
    case Call(dst, func, args, unwind) =>
      var o := env.c(func, FetchAll(m, args), m.world, env.frame, env.outer + multiset(Temps(m, unwind)));
      SetTemp(m, dst, o.val).(world := o.world)
    case CallBind(src) => m.(world := Bind(m.world, Temp(m, src)))
    case CallRelease(src) => m.(world := Release(m.world, Temp(m, src)))
    case CloseVar(v) => m.(world := OwnershipProgram.Vacate(m.world, FrameSlot(env.frame, v)))
  }

  ghost function Exec(code: seq<Instr>, env: Env, m: Machine): Machine {
    if code == [] then m else Step(code[|code| - 1], env, Exec(code[..|code| - 1], env, m))
  }

  lemma ExecGen(code: seq<Instr>, i: Instr, env: Env, m: Machine)
    ensures Exec(code + [i], env, m) == Step(i, env, Exec(code, env, m))
  {
    assert (code + [i])[..|code|] == code;
  }

  // ----- Correctness -----

  /** The machine after the code so far, against the state of the run so far. */
  ghost predicate Agrees(k: Unit, m: Machine, s: State) {
    && m.world == s.world && k.next == s.next
    && |k.cleanups| == |s.cleanups| && (forall i :: 0 <= i < |k.cleanups| ==> Holds(k, m, k.cleanups[i], s.cleanups[i]))
    && k.regs.Keys == s.regs.Keys
    && (forall r :: r in k.regs ==> HoldsValue(k, m, k.regs[r], s.regs[r]))
    && forall t :: t in m.temps ==> t < k.temps
  }

  predicate Holds(k: Unit, m: Machine, t: nat, r: Ref) {
    t < k.temps && Temp(m, t) == r
  }

  predicate HoldsValue(k: Unit, m: Machine, v: Value, r: Result) {
    Holds(k, m, v.temp, r.val) && v.productive == r.productive && v.ty == r.ty
  }

  /** Later code writes later temporaries. */
  ghost predicate Later(k: Unit, m: Machine, k': Unit, m': Machine) {
    k.temps <= k'.temps && forall t: nat :: t < k.temps ==> Temp(m, t) == Temp(m', t)
  }

  lemma LaterTrans(k: Unit, m: Machine, k': Unit, m': Machine, k'': Unit, m'': Machine)
    requires Later(k, m, k', m') && Later(k', m', k'', m'')
    ensures Later(k, m, k'', m'')
  {
  }

  lemma LaterHolds(k: Unit, m: Machine, k': Unit, m': Machine, v: Value, r: Result)
    requires Later(k, m, k', m') && HoldsValue(k, m, v, r)
    ensures HoldsValue(k', m', v, r)
  {
  }

  /** The code of `k` started in `m0` has come to what the run has come to. */
  ghost predicate Sim(k: Unit, env: Env, m0: Machine, s: State) {
    s.frame == env.frame && s.outer == env.outer && Agrees(k, Exec(k.instrs, env, m0), s)
  }

  /** One instruction that loads a value. */
  lemma SimLoad(k: Unit, i: Instr, r: Ref, env: Env, m0: Machine, s: State)
    requires Sim(k, env, m0, s)
    requires var m := Exec(k.instrs, env, m0); Step(i, env, m) == SetTemp(m, k.temps, r)
    ensures var k' := GenValue(k, i); var m' := Exec(k'.instrs, env, m0);
      Sim(k', env, m0, s) && Holds(k', m', k.temps, r) && Later(k, Exec(k.instrs, env, m0), k', m')
  {
    hide Exec, Step;
    ExecGen(k.instrs, i, env, m0);
  }

  /** One instruction that changes the heap. */
  lemma SimHeap(k: Unit, i: Instr, w: World, env: Env, m0: Machine, s: State)
    requires Sim(k, env, m0, s)
    requires var m := Exec(k.instrs, env, m0); Step(i, env, m) == m.(world := w)
    ensures var k' := Gen(k, i);
      && Later(k, Exec(k.instrs, env, m0), k', Exec(k'.instrs, env, m0))
      && forall t: State :: t.world == w && SameBut(s, t) ==> Sim(k', env, m0, t)
  {
    hide Exec, Step;
    ExecGen(k.instrs, i, env, m0);
  }

  /** Equal in everything the code can see but the heap. */
  predicate SameBut(s: State, t: State) {
    s.frame == t.frame && s.outer == t.outer && s.cleanups == t.cleanups && s.regs == t.regs && s.next == t.next
  }

  lemma SimPush(k: Unit, t: nat, r: Ref, env: Env, m0: Machine, s: State)
    requires Sim(k, env, m0, s) && Holds(k, Exec(k.instrs, env, m0), t, r)
    ensures Sim(k.(cleanups := [t] + k.cleanups), env, m0, s.(cleanups := [r] + s.cleanups))
  {
    hide Exec;
  }

  lemma SimTransient(k: Unit, v: Value, r: Result, env: Env, m0: Machine, s: State)
    requires Sim(k, env, m0, s) && HoldsValue(k, Exec(k.instrs, env, m0), v, r)
    ensures Sim(EmitTransient(k, v), env, m0, HandleTransient(s, r)) && EmitTransient(k, v).instrs == k.instrs
    ensures EmitTransient(k, v).temps == k.temps
  {
    hide Exec, Sim;
    if r.productive && r.ty.release {
      SimPush(k, v.temp, r.val, env, m0, s);
    }
  }

  lemma SimAssignment(k: Unit, v: Value, r: Result, env: Env, m0: Machine, s: State)
    requires Sim(k, env, m0, s) && HoldsValue(k, Exec(k.instrs, env, m0), v, r)
    ensures var k' := EmitAssignment(k, v);
      Sim(k', env, m0, HandleAssignment(s, r)) && Later(k, Exec(k.instrs, env, m0), k', Exec(k'.instrs, env, m0))
  {
    hide Exec;
    if !r.productive && r.ty.bind {
      SimHeap(k, CallBind(v.temp), Bind(s.world, r.val), env, m0, s);
      assert SameBut(s, HandleAssignment(s, r));
    }
  }

  lemma SimFlags(k: Unit, env: Env, m0: Machine, s: State, settled: bool, stopped: bool)
    requires Sim(k, env, m0, s)
    ensures Sim(k, env, m0, s.(settled := settled, stopped := stopped))
  {
    hide Exec;
  }

  /** The result of emitting, and of running, the same thing from the same point. */
  ghost predicate Matched(k: Unit, env: Env, m0: Machine, p: (Unit, Value), q: (State, Result)) {
    && Sim(p.0, env, m0, q.0) && HoldsValue(p.0, Exec(p.0.instrs, env, m0), p.1, q.1)
    && Later(k, Exec(k.instrs, env, m0), p.0, Exec(p.0.instrs, env, m0))
  }

  lemma SimSkip(k: Unit, env: Env, m0: Machine, s: State)
    requires Sim(k, env, m0, s)
    ensures var k' := k.(temps := k.temps + 1);
      Sim(k', env, m0, s) && Holds(k', Exec(k.instrs, env, m0), k.temps, Nil) &&
        Later(k, Exec(k.instrs, env, m0), k', Exec(k.instrs, env, m0))
  {
    hide Exec;
  }

  /** The emitted code does what the run says. */
  lemma {:induction false} EmitCorrect(e: Expr, k: Unit, env: Env, m0: Machine, s: State)
    requires Sim(k, env, m0, s)
    ensures Matched(k, env, m0, Emit(e, k), Run(e, env.c, s))
    decreases Weight(e), 1
  {
    hide Exec, Sim, HandleTransient, EmitTransient, RunAssign, RunOperands, RunElems, EmitAssign, EmitOperands,
      EmitElems, Invoke, EmitFieldRef;
    var c := env.c;
    match e
    case VarRef(v) =>
      SimStart(k, env, m0, s);
      SimLoad(k, LoadVar(k.temps, v), Get(s.world, SlotOf(v, s.frame)), env, m0, s);
    case FieldRef(obj, f) =>
      var p, q := Emit(obj, k), Run(obj, c, s);
      EmitCorrect(obj, k, env, m0, s);
      FieldCorrect(k, env, m0, p, q, f);
    case FuncCall(func, receiver, args) =>
      OperandsWeight(receiver, args);
      var es := Operands(receiver, args);
      var k0, s0 := k.(next := k.next + |es|), s.(next := s.next + |es|);
      NextSim(k, k0, env, m0, s, s0);
      var p, q := EmitOperands(es, !func.special, k.next, k0), RunOperands(es, !func.special, s.next, c, s0);
      OperandsCorrect(es, !func.special, k.next, k0, env, m0, s0);
      CallCorrect(k, env, m0, func, p, q);
    case AssignExpr(_, _, _) => AssignCorrect(e, k, env, m0, s);
    case MultiExpr(elems) => ElemsCorrect(elems, k, env, m0, s);
    case SetRegister(reg, e') =>
      EmitCorrect(e', k, env, m0, s);
      SetCorrect(k, env, m0, Emit(e', k), Run(e', c, s), reg);
    case GetRegister(reg, t) => GetCorrect(k, env, m0, s, reg, t);
    case NonVolatile(e') => EmitCorrect(e', k, env, m0, s);
    case BindCall(e') =>
      EmitCorrect(e', k, env, m0, s);
      BindCorrect(k, env, m0, Emit(e', k), Run(e', c, s));
    case NullConst(t) => SimLoad(k, LoadNull(k.temps), Nil, env, m0, s);
  }

  lemma SimStart(k: Unit, env: Env, m0: Machine, s: State)
    requires Sim(k, env, m0, s)
    ensures Exec(k.instrs, env, m0).world == s.world && s.frame == env.frame && s.outer == env.outer && k.next == s.next
  {
    hide Exec;
  }

  lemma NextSim(k: Unit, k': Unit, env: Env, m0: Machine, s: State, s': State)
    requires Sim(k, env, m0, s) && k' == k.(next := k'.next) && s' == s.(next := s'.next) &&
      k'.next - k.next == s'.next - s.next
    ensures Sim(k', env, m0, s') && k.next == s.next
  {
    hide Exec;
  }

  lemma FieldCorrect(k: Unit, env: Env, m0: Machine, p: (Unit, Value), q: (State, Result), f: VarDef)
    requires Matched(k, env, m0, p, q)
    ensures Matched(k, env, m0, EmitFieldRef(p.0, p.1, f),
                    (HandleTransient(q.0, q.1), Result(GetField(q.0.world, q.1.val, f), false, f.ty)))
  {
    hide Exec, Sim, EmitTransient, HandleTransient;
    var k1 := GenValue(p.0, LoadField(p.0.temps, p.1.temp, f));
    SimStart(p.0, env, m0, q.0);
    SimLoad(p.0, LoadField(p.0.temps, p.1.temp, f), GetField(q.0.world, q.1.val, f), env, m0, q.0);
    LaterHolds(p.0, Exec(p.0.instrs, env, m0), k1, Exec(k1.instrs, env, m0), p.1, q.1);
    LaterTrans(k, Exec(k.instrs, env, m0), p.0, Exec(p.0.instrs, env, m0), k1, Exec(k1.instrs, env, m0));
    SimTransient(k1, p.1, q.1, env, m0, q.0);
  }

  ghost predicate AllMatched(k: Unit, env: Env, m0: Machine, p: (Unit, seq<Value>), q: (State, seq<Result>)) {
    && Sim(p.0, env, m0, q.0) && FetchAll(Exec(p.0.instrs, env, m0), p.1) == q.1
    && (forall i :: 0 <= i < |p.1| ==> p.1[i].temp < p.0.temps)
    && Later(k, Exec(k.instrs, env, m0), p.0, Exec(p.0.instrs, env, m0))
  }

  lemma CallCorrect(k: Unit, env: Env, m0: Machine, func: FuncDef, p: (Unit, seq<Value>), q: (State, seq<Result>))
    requires AllMatched(k, env, m0, p, q)
    ensures Matched(k, env, m0,
      (GenValue(p.0, Call(p.0.temps, func, p.1, p.0.cleanups)), Value(p.0.temps, func.result.pointer, func.result)),
      Invoke(func, env.c, q.0, q.1))
  {
    hide Exec, FetchAll;
    var i, m := Call(p.0.temps, func, p.1, p.0.cleanups), Exec(p.0.instrs, env, m0);
    assert Temps(m, p.0.cleanups) == q.0.cleanups;
    ExecGen(p.0.instrs, i, env, m0);
  }

  lemma SetCorrect(k: Unit, env: Env, m0: Machine, p: (Unit, Value), q: (State, Result), reg: nat)
    requires Matched(k, env, m0, p, q)
    ensures Matched(k, env, m0, (p.0.(regs := p.0.regs[reg := p.1]), p.1), (q.0.(regs := q.0.regs[reg := q.1]), q.1))
  {
    hide Exec;
  }

  lemma GetCorrect(k: Unit, env: Env, m0: Machine, s: State, reg: nat, t: TypeDef)
    requires Sim(k, env, m0, s)
    ensures Matched(k, env, m0, Emit(GetRegister(reg, t), k), Run(GetRegister(reg, t), env.c, s))
  {
    hide Exec;
    SimSkip(k, env, m0, s);
  }

  lemma BindCorrect(k: Unit, env: Env, m0: Machine, p: (Unit, Value), q: (State, Result))
    requires Matched(k, env, m0, p, q)
    ensures var k1 := Gen(EmitTransient(p.0, p.1), CallBind(p.1.temp));
      Matched(k, env, m0, (k1.(temps := k1.temps + 1), Value(k1.temps, false, VOID)),
              (BindValue(HandleTransient(q.0, q.1), q.1.val), Result(Nil, false, VOID)))
  {
    hide Exec, Sim, EmitTransient, HandleTransient;
    var k0, s0 := EmitTransient(p.0, p.1), HandleTransient(q.0, q.1);
    SimTransient(p.0, p.1, q.1, env, m0, q.0);
    SimStart(k0, env, m0, s0);
    SimHeap(k0, CallBind(p.1.temp), Bind(s0.world, q.1.val), env, m0, s0);
    var k1, s1 := Gen(k0, CallBind(p.1.temp)), BindValue(s0, q.1.val);
    assert SameBut(s0, s1);
    SimSkip(k1, env, m0, s1);
    LaterTrans(k, Exec(k.instrs, env, m0), p.0, Exec(p.0.instrs, env, m0), k1, Exec(k1.instrs, env, m0));
  }

  lemma {:induction false} ElemsCorrect(es: seq<Expr>, k: Unit, env: Env, m0: Machine, s: State)
    requires Sim(k, env, m0, s)
    ensures Matched(k, env, m0, EmitElems(es, k), RunElems(es, env.c, s))
    decreases ElemsWeight(es), 0
  {
    hide Exec, Sim, Emit, Run, EmitTransient, HandleTransient;
    if es == [] {
      SimSkip(k, env, m0, s);
    } else {
      var p, q := Emit(es[0], k), Run(es[0], env.c, s);
      EmitCorrect(es[0], k, env, m0, s);
      if |es| > 1 {
        var k1 := EmitTransient(p.0, p.1);
        SimTransient(p.0, p.1, q.1, env, m0, q.0);
        ElemsCorrect(es[1..], k1, env, m0, HandleTransient(q.0, q.1));
        var r := EmitElems(es[1..], k1);
        LaterTrans(k, Exec(k.instrs, env, m0), k1, Exec(k1.instrs, env, m0), r.0, Exec(r.0.instrs, env, m0));
      }
    }
  }

  lemma {:induction false} OperandsCorrect(es: seq<Expr>, protect: bool, reg: nat, k: Unit, env: Env, m0: Machine,
                                           s: State)
    requires Sim(k, env, m0, s)
    ensures AllMatched(k, env, m0, EmitOperands(es, protect, reg, k), RunOperands(es, protect, reg, env.c, s))
    decreases OperandWeights(es), 0
  {
    hide Exec, Sim, Emit, Run, EmitTransient, HandleTransient, MakeNonVolatile;
    if es != [] {
      var e := if protect then MakeNonVolatile(es[0], reg) else es[0];
      ProtectedWeight(es[0], reg);
      var p, q := Emit(e, k), Run(e, env.c, s);
      EmitCorrect(e, k, env, m0, s);
      SimTransient(p.0, p.1, q.1, env, m0, q.0);
      var k1, s1 := EmitTransient(p.0, p.1), HandleTransient(q.0, q.1);
      OperandsCorrect(es[1..], protect, reg + 1, k1, env, m0, s1);
      var r := EmitOperands(es[1..], protect, reg + 1, k1);
      LaterTrans(k, Exec(k.instrs, env, m0), k1, Exec(k1.instrs, env, m0), r.0, Exec(r.0.instrs, env, m0));
      LaterHolds(k1, Exec(k1.instrs, env, m0), r.0, Exec(r.0.instrs, env, m0), p.1, q.1);
    }
  }

  lemma {:induction false} AssignCorrect(e: Expr, k: Unit, env: Env, m0: Machine, s: State)
    requires Sim(k, env, m0, s) && e.AssignExpr?
    ensures Matched(k, env, m0, EmitAssign(e, k), RunAssign(e, env.c, s))
    decreases Weight(e), 0, 1
  {
    hide Exec, Sim, Emit, Run, EmitAssignField, RunAssignField, EmitAssignment, HandleAssignment;
    if e.aggregate.Some? {
      AssignFieldCorrect(e, k, env, m0, s);
    } else {
      var v, slot := e.target, SlotOf(e.target, s.frame);
      var k1 := if v.ty.release then GenValue(k, LoadVar(k.temps, v)) else k;
      SimStart(k, env, m0, s);
      if v.ty.release {
        SimLoad(k, LoadVar(k.temps, v), Get(s.world, slot), env, m0, s);
      }
      var p, q := Emit(e.value, k1), Run(e.value, env.c, s);
      EmitCorrect(e.value, k1, env, m0, s);
      LaterTrans(k, Exec(k.instrs, env, m0), k1, Exec(k1.instrs, env, m0), p.0, Exec(p.0.instrs, env, m0));
      StoreCorrect(k, env, m0, p, q, v, slot, k.temps, Get(s.world, slot));
    }
  }

  lemma StoreCorrect(k: Unit, env: Env, m0: Machine, p: (Unit, Value), q: (State, Result), v: VarDef, slot: Slot,
                     t: nat, was: Ref)
    requires Matched(k, env, m0, p, q) && slot == SlotOf(v, env.frame)
    requires v.ty.release ==> Holds(p.0, Exec(p.0.instrs, env, m0), t, was)
    ensures var k1 := EmitAssignment(Gen(p.0, StoreVar(v, p.1.temp)), p.1);
      Matched(k, env, m0, (if v.ty.release then k1.(cleanups := [t] + k1.cleanups) else k1, p.1.(productive := false)),
              (AssignVar(q.0, slot, was, q.1), Result(q.1.val, false, q.1.ty)))
  {
    hide Exec, Sim, EmitAssignment, HandleAssignment;
    SimStart(p.0, env, m0, q.0);
    SimHeap(p.0, StoreVar(v, p.1.temp), Assign(q.0.world, slot, q.1.val), env, m0, q.0);
    var k0, s0 := Gen(p.0, StoreVar(v, p.1.temp)), Store(q.0, slot, was, q.1.val);
    assert SameBut(q.0, s0);
    LaterHolds(p.0, Exec(p.0.instrs, env, m0), k0, Exec(k0.instrs, env, m0), p.1, q.1);
    SimAssignment(k0, p.1, q.1, env, m0, s0);
    var k1 := EmitAssignment(k0, p.1);
    LaterTrans(p.0, Exec(p.0.instrs, env, m0), k0, Exec(k0.instrs, env, m0), k1, Exec(k1.instrs, env, m0));
    LaterTrans(k, Exec(k.instrs, env, m0), p.0, Exec(p.0.instrs, env, m0), k1, Exec(k1.instrs, env, m0));
    if v.ty.release {
      SimPush(k1, t, was, env, m0, HandleAssignment(s0, q.1));
    }
  }

  lemma {:induction false} AssignFieldCorrect(e: Expr, k: Unit, env: Env, m0: Machine, s: State)
    requires Sim(k, env, m0, s) && e.AssignExpr? && e.aggregate.Some?
    ensures Matched(k, env, m0, EmitAssignField(e, k), RunAssignField(e, env.c, s))
    decreases Weight(e), 0, 0
  {
    hide Exec, Sim, Emit, Run, EmitAssignment, HandleAssignment, EmitTransient, HandleTransient, EmitFieldRef, GetField;
    var f, c, agg := e.target, env.c, e.aggregate.value;
    var a, x := Emit(agg, k), Run(agg, c, s);
    EmitCorrect(agg, k, env, m0, s);
    var k1, s1, t, was := a.0, x.0.(settled := x.0.settled && !Leaks(x.1)), 0, Nil;
    if f.ty.release {
      var ka, sa := EmitTransient(a.0, a.1), HandleTransient(x.0, x.1);
      SimTransient(a.0, a.1, x.1, env, m0, x.0);
      var b, y := Emit(agg, ka), Run(agg, c, sa);
      EmitCorrect(agg, ka, env, m0, sa);
      FieldCorrect(ka, env, m0, b, y, f);
      var l := EmitFieldRef(b.0, b.1, f);
      k1, s1, t, was := l.0, HandleTransient(y.0, y.1), l.1.temp, GetField(y.0.world, y.1.val, f);
    } else {
      SimFlags(a.0, env, m0, x.0, x.0.settled && !Leaks(x.1), x.0.stopped);
    }
    var p, q := Emit(e.value, k1), Run(e.value, c, s1);
    EmitCorrect(e.value, k1, env, m0, s1);
    LaterTrans(a.0, Exec(a.0.instrs, env, m0), k1, Exec(k1.instrs, env, m0), p.0, Exec(p.0.instrs, env, m0));
    LaterTrans(k, Exec(k.instrs, env, m0), a.0, Exec(a.0.instrs, env, m0), p.0, Exec(p.0.instrs, env, m0));
    LaterHolds(a.0, Exec(a.0.instrs, env, m0), p.0, Exec(p.0.instrs, env, m0), a.1, x.1);
    StoreFieldCorrect(k, env, m0, p, q, a.1, x.1, f, t, was);
  }

  lemma StoreFieldCorrect(k: Unit, env: Env, m0: Machine, p: (Unit, Value), q: (State, Result), obj: Value,
                          o: Result, f: VarDef,
                          t: nat, was: Ref)
    requires Matched(k, env, m0, p, q) && HoldsValue(p.0, Exec(p.0.instrs, env, m0), obj, o)
    requires f.ty.release ==> Holds(p.0, Exec(p.0.instrs, env, m0), t, was)
    ensures var k1 := Gen(EmitAssignment(p.0, p.1), StoreTo(obj.temp, f, p.1.temp));
      Matched(k, env, m0, (if f.ty.release then k1.(cleanups := [t] + k1.cleanups) else k1, p.1.(productive := false)),
              (AssignField(q.0, o.val, f, was, q.1), Result(q.1.val, false, q.1.ty)))
  {
    hide Exec, Sim, EmitAssignment, HandleAssignment;
    SimAssignment(p.0, p.1, q.1, env, m0, q.0);
    var k0, s0 := EmitAssignment(p.0, p.1), HandleAssignment(q.0, q.1);
    SimStart(k0, env, m0, s0);
    LaterHolds(p.0, Exec(p.0.instrs, env, m0), k0, Exec(k0.instrs, env, m0), obj, o);
    LaterHolds(p.0, Exec(p.0.instrs, env, m0), k0, Exec(k0.instrs, env, m0), p.1, q.1);
    var s1 := StoreField(s0, o.val, f, was, q.1.val);
    SimHeap(k0, StoreTo(obj.temp, f, p.1.temp), s1.world, env, m0, s0);
    assert SameBut(s0, s1);
    var k1 := Gen(k0, StoreTo(obj.temp, f, p.1.temp));
    LaterTrans(p.0, Exec(p.0.instrs, env, m0), k0, Exec(k0.instrs, env, m0), k1, Exec(k1.instrs, env, m0));
    LaterTrans(k, Exec(k.instrs, env, m0), p.0, Exec(p.0.instrs, env, m0), k1, Exec(k1.instrs, env, m0));
    if f.ty.release {
      SimPush(k1, t, was, env, m0, s1);
    }
  }

  lemma StepRelease(t: nat, env: Env, m: Machine)
    ensures Step(CallRelease(t), env, m) == m.(world := Release(m.world, Temp(m, t)))
  {
  }

  lemma {:induction false} ReleasesCorrect(code: seq<Instr>, ts: seq<nat>, env: Env, m0: Machine)
    ensures var m := Exec(code, env, m0);
      Exec(code + Releases(ts), env, m0) == m.(world := Close(m.world, Temps(m, ts)))
    decreases |ts|
  {
    hide Release, Exec, Step;
    var m := Exec(code, env, m0);
    if ts == [] {
      assert code + Releases(ts) == code && Temps(m, ts) == [];
    } else {
      var i := CallRelease(ts[0]);
      ExecGen(code, i, env, m0);
      StepRelease(ts[0], env, m);
      ReleasesCorrect(code + [i], ts[1..], env, m0);
      var m1 := Exec(code + [i], env, m0);
      assert code + Releases(ts) == code + [i] + Releases(ts[1..]);
      assert Temps(m, ts) == [Temp(m, ts[0])] + Temps(m, ts[1..]);
      assert Temps(m, ts)[0] == Temp(m, ts[0]) && Temps(m, ts)[1..] == Temps(m1, ts[1..]);
    }
  }
}
