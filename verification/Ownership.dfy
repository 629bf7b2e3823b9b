/**
 * What the code emitted for an expression does to reference counts.  `Run` follows the emit()
 * methods of model/ and of the LLVM builder; the code has no branches, so emission order is
 * execution order (OwnershipCode proves that the emitted instructions do exactly this).
 */
module Ownership {

  datatype Option<+T> = None | Some(value: T)

  // ----- Expressions -----

  /** A type, whether it is a pointer, and whether `oper bind` and `oper release` are found on it. */
  datatype TypeDef = TypeDef(id: nat, pointer: bool, bind: bool, release: bool)

  const VOID := TypeDef(0, false, false, false)

  datatype Kind = Local | Param | Global | Field

  datatype VarDef = VarDef(id: nat, kind: Kind, ty: TypeDef)

  /** `oper init`, `oper del` and `oper from` are special: their operands are not protected. */
  datatype FuncDef = FuncDef(id: nat, special: bool, params: seq<TypeDef>, result: TypeDef)

  datatype Expr =
    | VarRef(v: VarDef)
    | FieldRef(obj: Expr, field: VarDef)
    | FuncCall(func: FuncDef, receiver: Option<Expr>, args: seq<Expr>)
    | AssignExpr(aggregate: Option<Expr>, target: VarDef, value: Expr)
    | MultiExpr(elems: seq<Expr>)
    | SetRegister(reg: nat, expr: Expr)
    | GetRegister(from: nat, regType: TypeDef)
    | NonVolatile(source: Expr)
    | BindCall(bound: Expr)
    | NullConst(nullType: TypeDef)

  function TypeOf(e: Expr): TypeDef {
    match e
    case VarRef(v) => v.ty
    case FieldRef(_, f) => f.ty
    case FuncCall(f, _, _) => f.result
    case AssignExpr(_, _, value) => TypeOf(value)
    case MultiExpr(elems) => if elems == [] then VOID else TypeOf(elems[|elems| - 1])
    case SetRegister(_, e) => TypeOf(e)
    case GetRegister(_, t) => t
    case NonVolatile(e) => TypeOf(e)
    case BindCall(_) => VOID
    case NullConst(t) => t
  }

  /** Expr::isProductive: the value comes with a reference of its own. */
  predicate IsProductive(e: Expr) {
    match e
    case FuncCall(f, _, _) => f.result.pointer
    case MultiExpr(elems) => elems != [] && IsProductive(elems[|elems| - 1])
    case SetRegister(_, e) => IsProductive(e)
    case NonVolatile(_) => true
    case _ => false
  }

  /** Expr::isVolatile: a call may overwrite the variable the value was read from. */
  predicate IsVolatile(e: Expr) {
    match e
    case VarRef(v) => v.kind.Global? || v.kind.Field?
    case FieldRef(_, f) => true
    case NonVolatile(_) => true
    case _ => false
  }

  predicate Unprotected(e: Expr) {
    !IsProductive(e) && IsVolatile(e) && TypeOf(e).bind
  }

  /** Expr::makeNonVolatile; `reg` is the register it allocates. */
  function MakeNonVolatile(e: Expr, reg: nat): Expr {
    if Unprotected(e) then
      var get := GetRegister(reg, TypeOf(e));
      MultiExpr([SetRegister(reg, NonVolatile(e)), BindCall(get), get])
    else e
  }

  function Operands(receiver: Option<Expr>, args: seq<Expr>): seq<Expr> {
    (if receiver.Some? then [receiver.value] else []) + args
  }

  // ----- The heap -----

  datatype Ref = Nil | Obj(id: nat)

  /** Variables live in one stack frame each, globals in none, fields in an object. */
  datatype Slot = GlobalSlot(v: VarDef) | FrameSlot(frame: nat, v: VarDef) | FieldSlot(owner: nat, v: VarDef)

  datatype World = World(slots: map<Slot, Ref>, counts: map<nat, int>, faulted: bool)

  function SlotOf(v: VarDef, frame: nat): Slot {
    if v.kind.Local? || v.kind.Param? then FrameSlot(frame, v) else GlobalSlot(v)
  }

  function Count(w: World, o: nat): int {
    if o in w.counts then w.counts[o] else 0
  }

  function Get(w: World, s: Slot): Ref {
    if s in w.slots then w.slots[s] else Nil
  }

  function GetField(w: World, r: Ref, f: VarDef): Ref {
    if r.Nil? then Nil else Get(w, FieldSlot(r.id, f))
  }

  predicate Alive(w: World, r: Ref) {
    r.Nil? || Count(w, r.id) > 0
  }

  /** `oper bind` (lib/crack/lang.crk:54). */
  function Bind(w: World, r: Ref): World {
    if r.Nil? then w else w.(counts := w.counts[r.id := Count(w, r.id) + 1])
  }

  function Decrement(w: World, r: Ref): World {
    if r.Nil? then w
    else w.(counts := w.counts[r.id := Count(w, r.id) - 1], faulted := w.faulted || Count(w, r.id) <= 0)
  }

  /** `oper release` (lib/crack/lang.crk:59): the fields of an object whose count drops to zero are
      released in turn.  Decrementing a count that is already zero is a fault. */
  ghost function Release(w: World, r: Ref): World {
    Drain(Decrement(w, r))
  }

  ghost predicate Orphan(w: World, s: Slot) {
    s in w.slots && s.FieldSlot? && Count(w, s.owner) <= 0
  }

  ghost function Drain(w: World): World
    decreases |w.slots|
  {
    if exists s :: Orphan(w, s) then
      var s :| Orphan(w, s);
      Drain(Destroy(w, s))
    else w
  }

  /** Takes a slot away, and its reference with it. */
  ghost function Destroy(w: World, s: Slot): (r: World)
    requires s in w.slots
    ensures r.slots == w.slots - {s} && |r.slots| < |w.slots|
  {
    assert w.slots == (w.slots - {s})[s := w.slots[s]];
    var u := w.(slots := w.slots - {s});
    if s.v.ty.release && !s.v.kind.Param? then Decrement(u, w.slots[s]) else u
  }

  // ----- The books -----

  /** Parameters borrow; every other variable or field of a type with `oper release` holds a reference. */
  predicate Counted(s: Slot) {
    s.v.ty.release && !s.v.kind.Param?
  }

  function Holders(slots: map<Slot, Ref>, o: nat): set<Slot> {
    set s | s in slots && Counted(s) && slots[s] == Obj(o)
  }

  /** Each count is the number of variables and fields holding the object plus what is owed. */
  ghost predicate Ledger(w: World, owed: multiset<Ref>) {
    forall o: nat :: Count(w, o) == |Holders(w.slots, o)| + owed[Obj(o)]
  }

  ghost predicate NoOrphans(w: World) {
    forall s :: !Orphan(w, s)
  }

  /** The ledger is right, every field belongs to a live object, and nothing has faulted. */
  ghost predicate Books(w: World, owed: multiset<Ref>) {
    Ledger(w, owed) && NoOrphans(w) && !w.faulted
  }

  /** A caller's local variable: no callee can reach it. */
  predicate Steady(s: Slot) {
    s.FrameSlot? && Counted(s)
  }

  /** The reference cannot go away during a call: a cleanup to come or a local variable holds it. */
  ghost predicate Covered(w: World, owed: multiset<Ref>, r: Ref) {
    r.Nil? || owed[r] > 0 || exists s :: s in w.slots && Steady(s) && w.slots[s] == r
  }

  // ----- Running an expression -----

  /** ResultExpr: a value, whether its source expression was productive, and its type. */
  datatype Result = Result(val: Ref, productive: bool, ty: TypeDef)

  /** `outer` is what the enclosing frames still have to release, `cleanups` the open cleanup frame,
      latest first.  `settled` turns false at a step that upsets the books (see Matches, Alive,
      Covered and Leaks below), and `stopped` true when the program stores through null; what the
      model does after that means nothing. */
  datatype State = State(world: World, frame: nat, outer: multiset<Ref>, cleanups: seq<Ref>,
                         regs: map<nat, Result>, next: nat, settled: bool, stopped: bool)

  function Owed(s: State): multiset<Ref> {
    s.outer + multiset(s.cleanups)
  }

  /** What a call does to the world; a callee is given the frame of its caller and what is owed there. */
  datatype Outcome = Outcome(world: World, val: Ref, settled: bool, stopped: bool)
  type Callee = (FuncDef, seq<Result>, World, nat, multiset<Ref>) -> Outcome

  /** ResultExpr::forceCleanup. */
  function ForceCleanup(s: State, r: Result): State {
    if r.ty.release then s.(cleanups := [r.val] + s.cleanups) else s
  }

  /** ResultExpr::handleTransient. */
  function HandleTransient(s: State, r: Result): State {
    if r.productive then ForceCleanup(s, r) else s
  }

  /** A `bind` call; binding an object that is already gone unsettles the run. */
  function BindValue(s: State, val: Ref): State {
    s.(world := Bind(s.world, val), settled := s.settled && Alive(s.world, val))
  }

  /** ResultExpr::handleAssignment. */
  function HandleAssignment(s: State, r: Result): State {
    if r.productive || !r.ty.bind then s else BindValue(s, r.val)
  }

  /** The slot to be written still holds the value loaded for release, and exists. */
  predicate Matches(w: World, slot: Slot, was: Ref, val: Ref) {
    && (slot.FieldSlot? ==> Count(w, slot.owner) > 0)
    && (slot.v.ty.release ==> if slot.v.kind.Param? then val == was else Get(w, slot) == was)
  }

  /** Only a variable that has been defined in the frame is assigned. */
  predicate Defined(w: World, slot: Slot) {
    slot.FrameSlot? ==> slot in w.slots
  }

  function Store(s: State, slot: Slot, was: Ref, val: Ref): State {
    s.(world := s.world.(slots := s.world.slots[slot := val]),
       settled := s.settled && Defined(s.world, slot) && Matches(s.world, slot, was, val))
  }

  /** Storing through null. */
  function StoreField(s: State, obj: Ref, f: VarDef, was: Ref, val: Ref): State {
    if obj.Nil? then s.(settled := false, stopped := true) else Store(s, FieldSlot(obj.id, f), was, val)
  }

  /** A productive result that is dropped without handleTransient. */
  predicate Leaks(r: Result) {
    r.productive && r.ty.release && r.val.Obj?
  }

  ghost function Run(e: Expr, c: Callee, s: State): (r: (State, Result))
    ensures r.1.ty == TypeOf(e) && r.1.productive == IsProductive(e)
    ensures r.0.frame == s.frame && r.0.outer == s.outer
    ensures (r.0.settled ==> s.settled) && (s.stopped ==> r.0.stopped)
    decreases Weight(e), 1
  {
    match e
    case VarRef(v) => (s, Result(Get(s.world, SlotOf(v, s.frame)), false, v.ty))
    case FieldRef(obj, f) =>
      var p := Run(obj, c, s);
      (HandleTransient(p.0, p.1), Result(GetField(p.0.world, p.1.val, f), false, f.ty))
    case FuncCall(func, receiver, args) =>
      OperandsWeight(receiver, args);
      var es := Operands(receiver, args);
      var p := RunOperands(es, !func.special, s.next, c, s.(next := s.next + |es|));
      Invoke(func, c, p.0, p.1)
    case AssignExpr(_, _, _) => RunAssign(e, c, s)
    case MultiExpr(elems) => RunElems(elems, c, s)
    case SetRegister(reg, e) =>
      var p := Run(e, c, s);
      (p.0.(regs := p.0.regs[reg := p.1]), p.1)
    case GetRegister(reg, t) =>
      (s, Result(if reg in s.regs then s.regs[reg].val else Nil, false, t))
    case NonVolatile(e) =>
      var p := Run(e, c, s);
      (p.0, p.1.(productive := true))
    case BindCall(e) =>
      var p := Run(e, c, s);
      (BindValue(HandleTransient(p.0, p.1), p.1.val), Result(Nil, false, VOID))
    case NullConst(t) => (s, Result(Nil, false, t))
  }

  /** AssignExpr::emit for a variable.  The value to be released is loaded before the assigned value
      is computed. */
  ghost function RunAssign(e: Expr, c: Callee, s: State): (r: (State, Result))
    requires e.AssignExpr?
    ensures r.1.ty == TypeOf(e) && !r.1.productive
    ensures r.0.frame == s.frame && r.0.outer == s.outer
    ensures (r.0.settled ==> s.settled) && (s.stopped ==> r.0.stopped)
    decreases Weight(e), 0, 1
  {
    if e.aggregate.Some? then RunAssignField(e, c, s)
    else
      var slot := SlotOf(e.target, s.frame);
      var p := Run(e.value, c, s);
      (AssignVar(p.0, slot, Get(s.world, slot), p.1), Result(p.1.val, false, p.1.ty))
  }

  /** The same for a field.  The aggregate of a field of a releasable type is evaluated twice, once
      for the store and once for the load of the old value; otherwise it is evaluated by the store
      alone, and its result is dropped. */
  ghost function RunAssignField(e: Expr, c: Callee, s: State): (r: (State, Result))
    requires e.AssignExpr? && e.aggregate.Some?
    ensures r.1.ty == TypeOf(e) && !r.1.productive
    ensures r.0.frame == s.frame && r.0.outer == s.outer
    ensures (r.0.settled ==> s.settled) && (s.stopped ==> r.0.stopped)
    decreases Weight(e), 0, 0
  {
    var f, a := e.target, Run(e.aggregate.value, c, s);
    if f.ty.release then
      var b := Run(e.aggregate.value, c, HandleTransient(a.0, a.1));
      var p := Run(e.value, c, HandleTransient(b.0, b.1));
      (AssignField(p.0, a.1.val, f, GetField(b.0.world, b.1.val, f), p.1), Result(p.1.val, false, p.1.ty))
    else
      var p := Run(e.value, c, a.0.(settled := a.0.settled && !Leaks(a.1)));
      (AssignField(p.0, a.1.val, f, Nil, p.1), Result(p.1.val, false, p.1.ty))
  }

  /** AssignExpr::emit for a variable, after the value: store, handleAssignment, and the cleanup of
      the was value if its type has a release. */
  function AssignVar(s: State, slot: Slot, was: Ref, r: Result): (t: State)
    ensures t.frame == s.frame && t.outer == s.outer && (t.settled ==> s.settled) && t.stopped == s.stopped
  {
    var t := HandleAssignment(Store(s, slot, was, r.val), r);
    if slot.v.ty.release then t.(cleanups := [was] + t.cleanups) else t
  }

  /** The same for a field: handleAssignment comes before the store. */
  function AssignField(s: State, obj: Ref, f: VarDef, was: Ref, r: Result): (t: State)
    ensures t.frame == s.frame && t.outer == s.outer && (t.settled ==> s.settled) && (s.stopped ==> t.stopped)
  {
    var t := StoreField(HandleAssignment(s, r), obj, f, was, r.val);
    if f.ty.release then t.(cleanups := [was] + t.cleanups) else t
  }

  /** MultiExpr::emit. */
  ghost function RunElems(es: seq<Expr>, c: Callee, s: State): (r: (State, Result))
    ensures r.1.ty == TypeOf(MultiExpr(es)) && r.1.productive == IsProductive(MultiExpr(es))
    ensures r.0.frame == s.frame && r.0.outer == s.outer
    ensures (r.0.settled ==> s.settled) && (s.stopped ==> r.0.stopped)
    decreases ElemsWeight(es), 0
  {
    if es == [] then (s, Result(Nil, false, VOID))
    else
      var p := Run(es[0], c, s);
      if |es| == 1 then p else RunElems(es[1..], c, HandleTransient(p.0, p.1))
  }

  /** The operands of a call, each made non-volatile with a register of its own unless the function
      is special; the receiver comes first (LLVMBuilder::emitFuncCall). */
  ghost function RunOperands(es: seq<Expr>, protect: bool, reg: nat, c: Callee, s: State): (r: (State, seq<Result>))
    ensures r.0.frame == s.frame && r.0.outer == s.outer
    ensures (r.0.settled ==> s.settled) && (s.stopped ==> r.0.stopped)
    decreases OperandWeights(es), 0
  {
    if es == [] then (s, [])
    else
      var p := RunOperand(es[0], protect, reg, c, s);
      var q := RunOperands(es[1..], protect, reg + 1, c, p.0);
      (q.0, [p.1] + q.1)
  }

  ghost function RunOperand(e: Expr, protect: bool, reg: nat, c: Callee, s: State): (r: (State, Result))
    ensures r.0.frame == s.frame && r.0.outer == s.outer
    ensures (r.0.settled ==> s.settled) && (s.stopped ==> r.0.stopped)
    decreases Weight(e) + 11, 0
  {
    ProtectedWeight(e, reg);
    var p := Run(if protect then MakeNonVolatile(e, reg) else e, c, s);
    (HandleTransient(p.0, p.1), p.1)
  }

  ghost predicate AllCovered(w: World, owed: multiset<Ref>, vals: seq<Result>) {
    forall i :: 0 <= i < |vals| && vals[i].ty.release ==> Covered(w, owed, vals[i].val)
  }

  ghost function Invoke(func: FuncDef, c: Callee, s: State, vals: seq<Result>): (r: (State, Result))
    ensures r.0.frame == s.frame && r.0.outer == s.outer
    ensures (r.0.settled ==> s.settled) && (s.stopped ==> r.0.stopped)
  {
    var o := c(func, vals, s.world, s.frame, Owed(s));
    (s.(world := o.world, settled := s.settled && AllCovered(s.world, Owed(s), vals) && o.settled,
        stopped := s.stopped || o.stopped),
     Result(o.val, func.result.pointer, func.result))
  }

  // ----- Closing a frame -----

  /** The cleanups of a frame, latest first (model/CleanupFrame.h:28). */
  ghost function Close(w: World, cleanups: seq<Ref>): World
    decreases |cleanups|
  {
    if cleanups == [] then w else Close(Release(w, cleanups[0]), cleanups[1..])
  }

  // ----- Measures -----

  function Weight(e: Expr): nat {
    match e
    case FieldRef(obj, _) => 1 + Weight(obj)
    case FuncCall(_, receiver, args) =>
      1 + (if receiver.Some? then Weight(receiver.value) + 12 else 0) + OperandWeights(args)
    case AssignExpr(aggregate, _, value) =>
      1 + (if aggregate.Some? then Weight(aggregate.value) else 0) + Weight(value)
    case MultiExpr(elems) => 1 + ElemsWeight(elems)
    case SetRegister(_, e) => 1 + Weight(e)
    case NonVolatile(e) => 1 + Weight(e)
    case BindCall(e) => 1 + Weight(e)
    case _ => 1
  }

  function ElemsWeight(es: seq<Expr>): nat {
    if es == [] then 0 else Weight(es[0]) + 1 + ElemsWeight(es[1..])
  }

  function OperandWeights(es: seq<Expr>): nat {
    if es == [] then 0 else Weight(es[0]) + 12 + OperandWeights(es[1..])
  }

  lemma OperandsWeight(receiver: Option<Expr>, args: seq<Expr>)
    ensures OperandWeights(Operands(receiver, args))
         == (if receiver.Some? then Weight(receiver.value) + 12 else 0) + OperandWeights(args)
  {
    var es := Operands(receiver, args);
    if receiver.Some? {
      assert es[0] == receiver.value && es[1..] == args;
    } else {
      assert es == args;
    }
  }

  lemma ProtectedWeight(e: Expr, reg: nat)
    ensures Weight(MakeNonVolatile(e, reg)) <= Weight(e) + 9
  {
    if Unprotected(e) {
      var get := GetRegister(reg, TypeOf(e));
      var es := [SetRegister(reg, NonVolatile(e)), BindCall(get), get];
      assert ElemsWeight([get]) == 2;
      assert [BindCall(get), get][1..] == [get] && ElemsWeight([BindCall(get), get]) == 5;
      assert es[1..] == [BindCall(get), get] && ElemsWeight(es) == Weight(es[0]) + 1 + 5;
      assert Weight(es[0]) == Weight(NonVolatile(e)) + 1;
    }
  }
}
