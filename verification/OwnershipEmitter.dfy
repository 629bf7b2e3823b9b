/**
 * The emit() methods as the code has them: one context whose function, cleanup frame and registers
 * are updated in place.  Each method appends exactly what the functions of OwnershipCode say.
 */
module OwnershipEmitter {
  import opened Ownership
  import opened OwnershipCode

  class Context {
    var instrs: seq<Instr>
    var cleanups: seq<nat>
    var regs: map<nat, Value>
    var temps: nat
    var next: nat

    constructor ()
      ensures Contents() == Unit([], [], map[], 0, 0)
    {
      instrs, cleanups, regs, temps, next := [], [], map[], 0, 0;
    }

    ghost function Contents(): Unit
      reads this
    {
      Unit(instrs, cleanups, regs, temps, next)
    }

    /** ResultExpr::forceCleanup: a release at the front of the frame. */
    method ForceCleanup(v: Value)
      modifies this`cleanups
      ensures Contents() == old(EmitCleanup(Contents(), v))
    {
      if v.ty.release {
        cleanups := [v.temp] + cleanups;
      }
    }

    /** ResultExpr::handleTransient. */
    method HandleTransient(v: Value)
      modifies this`cleanups
      ensures Contents() == old(EmitTransient(Contents(), v))
    {
      if !v.productive {
        return;
      }
      ForceCleanup(v);
    }

    /** ResultExpr::handleAssignment. */
    method HandleAssignment(v: Value)
      modifies this`instrs
      ensures Contents() == old(EmitAssignment(Contents(), v))
    {
      if v.productive {
        return;
      }
      if v.ty.bind {
        instrs := instrs + [CallBind(v.temp)];
      }
    }

    method Load(i: Instr) returns (t: nat)
      modifies this`instrs, this`temps
      ensures Contents() == old(GenValue(Contents(), i)) && t == old(temps)
    {
      instrs := instrs + [i];
      t, temps := temps, temps + 1;
    }

    method Emit(e: Expr) returns (v: Value)
      modifies this
      ensures (Contents(), v) == old(OwnershipCode.Emit(e, Contents()))
      decreases Weight(e), 1
    {
      hide OwnershipCode.EmitAssign, OwnershipCode.EmitElems, OwnershipCode.EmitOperands, EmitTransient, EmitFieldRef;
      match e
      case VarRef(def) =>
        var t := Load(LoadVar(temps, def));
        v := Value(t, false, def.ty);
      case FieldRef(obj, f) =>
        var a := Emit(obj);
        v := FieldValue(a, f);
      case FuncCall(func, receiver, args) =>
        OperandsWeight(receiver, args);
        var vals := EmitOperands(Operands(receiver, args), !func.special);
        var t := Load(Call(temps, func, vals, cleanups));
        v := Value(t, func.result.pointer, func.result);
      case AssignExpr(_, _, _) =>
        v := EmitAssign(e);
      case MultiExpr(elems) =>
        v := EmitElems(elems);
      case SetRegister(reg, e') =>
        v := Emit(e');
        regs := regs[reg := v];
      case GetRegister(reg, t) =>
        if reg in regs {
          v := Value(regs[reg].temp, false, t);
        } else {
          v, temps := Value(temps, false, t), temps + 1;
        }
      case NonVolatile(e') =>
        v := Emit(e');
        v := v.(productive := true);
      case BindCall(e') =>
        var r := Emit(e');
        HandleTransient(r);
        instrs := instrs + [CallBind(r.temp)];
        v, temps := Value(temps, false, VOID), temps + 1;
      case NullConst(t) =>
        var n := Load(LoadNull(temps));
        v := Value(n, false, t);
    }

    /** BFieldRef::emit after its aggregate. */
    method FieldValue(obj: Value, f: VarDef) returns (v: Value)
      modifies this
      ensures (Contents(), v) == old(EmitFieldRef(Contents(), obj, f))
    {
      var t := Load(LoadField(temps, obj.temp, f));
      HandleTransient(obj);
      v := Value(t, false, f.ty);
    }

    /** AssignExpr::emit with the builder's emitAssignment and emitFieldAssign. */
    method EmitAssign(e: Expr) returns (v: Value)
      requires e.AssignExpr?
      modifies this
      ensures (Contents(), v) == old(OwnershipCode.EmitAssign(e, Contents()))
      decreases Weight(e), 0
    {
      hide OwnershipCode.Emit, EmitTransient, EmitAssignment, EmitFieldRef;
      var target, released, was := e.target, e.target.ty.release, 0;
      if e.aggregate.Some? {
        var aggregate := Emit(e.aggregate.value);
        if released {
          HandleTransient(aggregate);
          var again := Emit(e.aggregate.value);
          var loaded := FieldValue(again, target);
          was := loaded.temp;
        }
        v := Emit(e.value);
        HandleAssignment(v);
        instrs := instrs + [StoreTo(aggregate.temp, target, v.temp)];
      } else {
        if released {
          was := Load(LoadVar(temps, target));
        }
        v := Emit(e.value);
        instrs := instrs + [StoreVar(target, v.temp)];
        HandleAssignment(v);
      }
      if released {
        ForceCleanup(Value(was, false, target.ty));
      }
      v := v.(productive := false);
    }

    /** MultiExpr::emit. */
    method EmitElems(elems: seq<Expr>) returns (v: Value)
      modifies this
      ensures (Contents(), v) == old(OwnershipCode.EmitElems(elems, Contents()))
      decreases ElemsWeight(elems), 0
    {
      hide OwnershipCode.Emit, EmitTransient;
      if elems == [] {
        v, temps := Value(temps, false, VOID), temps + 1;
        return;
      }
      ghost var all := OwnershipCode.EmitElems(elems, Contents());
      assert elems[0..] == elems;
      var i := 0;
      while i < |elems| - 1
        invariant 0 <= i < |elems|
        invariant OwnershipCode.EmitElems(elems[i..], Contents()) == all
        invariant ElemsWeight(elems[i..]) <= ElemsWeight(elems)
      {
        assert elems[i..][0] == elems[i] && elems[i..][1..] == elems[i + 1..];
        var r := Emit(elems[i]);
        HandleTransient(r);
        i := i + 1;
      }
      assert elems[i..][0] == elems[i];
      v := Emit(elems[i]);
    }

    /** FuncCall::emit: first every operand is made non-volatile, then they are emitted in turn. */
    method EmitOperands(es: seq<Expr>, protect: bool) returns (vals: seq<Value>)
      modifies this
      ensures (Contents(), vals) == old(OwnershipCode.EmitOperands(es, protect, next, Contents().(next := next + |es|)))
      decreases OperandWeights(es), 1
    {
      hide OwnershipCode.Emit, EmitTransient, MakeNonVolatile;
      var operands, reg := [], next;
      for i := 0 to |es|
        invariant |operands| == i && next == reg + i
        invariant Contents() == old(Contents()).(next := next)
        invariant forall j :: 0 <= j < i ==> operands[j] == if protect then MakeNonVolatile(es[j], reg + j) else es[j]
      {
        operands := operands + [if protect then MakeNonVolatile(es[i], next) else es[i]];
        next := next + 1;
      }
      ghost var all := OwnershipCode.EmitOperands(es, protect, reg, Contents());
      assert es[0..] == es;
      vals := [];
      assert vals + all.1 == all.1;
      for i := 0 to |es|
        invariant OperandWeights(es[i..]) <= OperandWeights(es)
        invariant var rest := OwnershipCode.EmitOperands(es[i..], protect, reg + i, Contents());
          all.0 == rest.0 && all.1 == vals + rest.1
      {
        assert es[i..][0] == es[i] && es[i..][1..] == es[i + 1..];
        ProtectedWeight(es[i], reg + i);
        var v := Emit(operands[i]);
        HandleTransient(v);
        assert all.1 == vals + ([v] + OwnershipCode.EmitOperands(es[i + 1..], protect, reg + i + 1, Contents()).1);
        vals := vals + [v];
      }
      assert vals + [] == vals;
    }
  }
}
