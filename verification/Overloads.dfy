/**
 * Overload resolution (model/OverloadDef.cc, model/FuncDef.cc): an overload has functions of its own
 * and parents to ask next; resolving a call converts the arguments in place.
 */
module Overloads {

  datatype Option<+T> = None | Some(value: T)

  datatype Type = Type(id: nat)
  datatype Expr = Expr(id: nat)

  /** `override` marks the override of a virtual function, `deleted` a function declared unusable. */
  datatype Func = Func(id: nat, params: seq<Type>, override: bool, deleted: bool)

  datatype Overload = Overload(funcs: seq<Func>, parents: seq<Overload>)

  /** FuncDef::Convert. */
  datatype Convert = NoConvert | Adapt | AdaptSecondary | Full

  /** What resolution asks of expressions and types: Expr::isAdaptive, the type of an expression (a
      reference to an overload has none), TypeDef::matches(parameter, value) and Expr::convert. */
  datatype Rules = Rules(adaptive: Expr -> bool, typeOf: Expr -> Option<Type>, fits: (Type, Type) -> bool,
                         convert: (Expr, Type) -> Option<Expr>)

  predicate Accepts(r: Rules, p: Type, v: Expr) {
    r.typeOf(v).Some? && r.fits(p, r.typeOf(v).value)
  }

  /** One argument: what is passed for value number i, if anything. */
  function Pass(r: Rules, p: Type, v: Expr, i: nat, flag: Convert): Option<Expr> {
    match flag
    case Full => r.convert(v, p)
    case NoConvert => if Accepts(r, p, v) then Some(v) else None
    case _ =>
      if (flag.Adapt? || i > 0) && r.adaptive(v) then r.convert(v, p)
      else if Accepts(r, p, v) then Some(v) else None
  }

  predicate Matches(r: Rules, f: Func, vals: seq<Expr>, flag: Convert) {
    |f.params| == |vals| && forall i :: 0 <= i < |vals| ==> Pass(r, f.params[i], vals[i], i, flag).Some?
  }

  /** The values a matching function gets. */
  function Passed(r: Rules, f: Func, vals: seq<Expr>, flag: Convert): seq<Expr>
    requires Matches(r, f, vals, flag)
  {
    seq(|vals|, i requires 0 <= i < |vals| => Pass(r, f.params[i], vals[i], i, flag).value)
  }

  /** Whether a mode leaves value number i unconverted. */
  predicate TakenAsIs(r: Rules, vals: seq<Expr>, i: nat, flag: Convert)
    requires i < |vals|
    ensures flag == NoConvert ==> TakenAsIs(r, vals, i, flag)
    ensures flag == Adapt ==> (TakenAsIs(r, vals, i, flag) <==> !r.adaptive(vals[i]))
    ensures flag == AdaptSecondary ==> (TakenAsIs(r, vals, i, flag) <==> i == 0 || !r.adaptive(vals[i]))
    ensures flag == Full ==> !TakenAsIs(r, vals, i, flag)
  {
    match flag
    case NoConvert => true
    case Adapt => !r.adaptive(vals[i])
    case AdaptSecondary => i == 0 || !r.adaptive(vals[i])
    case Full => false
  }

  /** FuncDef::matches, filling `newVals` as far as it gets (not at all without conversion). */
  method FuncMatches(r: Rules, f: Func, vals: seq<Expr>, newVals: array<Expr>, flag: Convert) returns (ok: bool)
    requires newVals.Length == |vals|
    modifies newVals
    ensures ok == Matches(r, f, vals, flag)
    ensures ok && flag != NoConvert ==> newVals[..] == Passed(r, f, vals, flag)
    // what each mode does, argument by argument
    ensures ok <==> |f.params| == |vals| && forall i :: 0 <= i < |vals| ==>
      if TakenAsIs(r, vals, i, flag) then Accepts(r, f.params[i], vals[i])
      else r.convert(vals[i], f.params[i]).Some?
    ensures ok && flag != NoConvert ==> forall i :: 0 <= i < |vals| ==>
      if TakenAsIs(r, vals, i, flag) then newVals[i] == vals[i]
      else Some(newVals[i]) == r.convert(vals[i], f.params[i])
    ensures flag == NoConvert ==> newVals[..] == old(newVals[..])
  {
    var i := 0;
    while i < |f.params| && i < |vals|
      invariant 0 <= i <= |f.params| && i <= |vals|
      invariant forall j :: 0 <= j < i ==> Pass(r, f.params[j], vals[j], j, flag).Some?
      invariant flag != NoConvert ==> forall j :: 0 <= j < i ==>
        Some(newVals[j]) == Pass(r, f.params[j], vals[j], j, flag)
      invariant flag == NoConvert ==> newVals[..] == old(newVals[..])
    {
      var p, v := f.params[i], vals[i];
      match flag {
        case Full =>
          var c := r.convert(v, p);
          if c.None? {
            return false;
          }
          newVals[i] := c.value;
        case NoConvert =>
          if r.typeOf(v).None? || !r.fits(p, r.typeOf(v).value) {
            return false;
          }
        case _ =>
          if (flag.Adapt? || i > 0) && r.adaptive(v) {
            var c := r.convert(v, p);
            if c.None? {
              return false;
            }
            newVals[i] := c.value;
          } else if r.typeOf(v).Some? && r.fits(p, r.typeOf(v).value) {
            newVals[i] := v;
          } else {
            return false;
          }
      }
      i := i + 1;
    }
    ok := i == |f.params| && i == |vals|;
  }

  // ----- The search -----

  /** nullIfDeleted. */
  function Usable(f: Func): Option<Func> {
    if f.deleted then None else Some(f)
  }

  predicate Considered(f: Func, allowOverrides: bool) {
    allowOverrides || !f.override
  }

  /** The first function of a list that is considered and matches. */
  function First(r: Rules, fs: seq<Func>, vals: seq<Expr>, flag: Convert, allow: bool): Option<Func> {
    if fs == [] then None
    else if Considered(fs[0], allow) && Matches(r, fs[0], vals, flag) then Some(fs[0])
    else First(r, fs[1..], vals, flag, allow)
  }

  lemma {:induction false} FirstMatches(r: Rules, fs: seq<Func>, vals: seq<Expr>, flag: Convert, allow: bool)
    ensures var f := First(r, fs, vals, flag, allow);
      f.Some? ==> Matches(r, f.value, vals, flag) && Considered(f.value, allow) && f.value in fs
    decreases |fs|
  {
    if fs != [] {
      FirstMatches(r, fs[1..], vals, flag, allow);
    }
  }

  lemma {:induction false} FirstSplits(r: Rules, a: seq<Func>, b: seq<Func>, vals: seq<Expr>, flag: Convert,
                                       allow: bool)
    ensures var f := First(r, a, vals, flag, allow);
      First(r, a + b, vals, flag, allow) == if f.Some? then f else First(r, b, vals, flag, allow)
    decreases |a|
  {
    if a == [] {
      assert a + b == b;
    } else {
      assert (a + b)[0] == a[0] && (a + b)[1..] == a[1..] + b;
      FirstSplits(r, a[1..], b, vals, flag, allow);
    }
  }

  /** OverloadDef::flatten: own functions, then the parents', depth first. */
  function Flatten(o: Overload): seq<Func> {
    o.funcs + FlattenAll(o.parents)
  }

  function FlattenAll(os: seq<Overload>): seq<Func> {
    if os == [] then [] else Flatten(os[0]) + FlattenAll(os[1..])
  }

  lemma {:induction false} FlattenAllSplit(a: seq<Overload>, b: seq<Overload>)
    ensures FlattenAll(a + b) == FlattenAll(a) + FlattenAll(b)
    decreases |a|
  {
    if a == [] {
      assert a + b == b;
    } else {
      assert (a + b)[0] == a[0] && (a + b)[1..] == a[1..] + b;
      FlattenAllSplit(a[1..], b);
    }
  }

  /** Own functions in front, and the functions of a parent after those of the parents before it. */
  lemma FlattenInOrder(fs: seq<Func>, a: seq<Overload>, p: Overload, b: seq<Overload>)
    ensures Flatten(Overload(fs, a + [p] + b)) == fs + FlattenAll(a) + Flatten(p) + FlattenAll(b)
    ensures Flatten(Overload(fs, [])) == fs
  {
    hide FlattenAll;
    FlattenAllSplit(a + [p], b);
    FlattenAllSplit(a, [p]);
    FlattenFew(p);
  }

  lemma FlattenFew(p: Overload)
    ensures FlattenAll([]) == [] && FlattenAll([p]) == Flatten(p)
  {
    assert [p][1..] == [];
  }

  /** The result of a search and the argument vector it leaves. */
  datatype Found = Found(func: Option<Func>, args: seq<Expr>)

  /** OverloadDef::getMatch with a conversion mode.  A match on a deleted function ends the search in
      its overload without a result, but with the arguments already rewritten. */
  function GetMatch(r: Rules, o: Overload, args: seq<Expr>, flag: Convert, allow: bool): Found
    decreases o, 0
  {
    FirstMatches(r, o.funcs, args, flag, allow);
    match First(r, o.funcs, args, flag, allow)
    case Some(f) => Found(Usable(f), if flag.NoConvert? then args else Passed(r, f, args, flag))
    case None => GetMatchIn(r, o.parents, args, flag, allow)
  }

  function GetMatchIn(r: Rules, os: seq<Overload>, args: seq<Expr>, flag: Convert, allow: bool): Found
    decreases os, 1
  {
    if os == [] then Found(None, args)
    else
      var found := GetMatch(r, os[0], args, flag, allow);
      if found.func.Some? then found else GetMatchIn(r, os[1..], found.args, flag, allow)
  }

  /** Without conversion nothing is rewritten. */
  function Rewritten(r: Rules, f: Func, args: seq<Expr>, flag: Convert): seq<Expr>
    requires Matches(r, f, args, flag)
  {
    if flag.NoConvert? then args else Passed(r, f, args, flag)
  }

  /** What the first match of a list makes of the arguments. */
  function ByFirst(r: Rules, fs: seq<Func>, args: seq<Expr>, flag: Convert, allow: bool): Found {
    FirstMatches(r, fs, args, flag, allow);
    match First(r, fs, args, flag, allow)
    case Some(f) => Found(Some(f), Rewritten(r, f, args, flag))
    case None => Found(None, args)
  }

  predicate Deleted(f: Option<Func>) {
    f.Some? && f.value.deleted
  }

  /** The search finds the first match depth first, with exactly its arguments, or leaves everything
      untouched, if and only if that first match is not a deleted function. */
  lemma FindsFirstIff(r: Rules, o: Overload, args: seq<Expr>, flag: Convert, allow: bool)
    ensures GetMatch(r, o, args, flag, allow) == ByFirst(r, Flatten(o), args, flag, allow)
       <==> !Deleted(First(r, Flatten(o), args, flag, allow))
  {
    hide GetMatch, Matches, Passed;
    FoundIsUsable(r, o, args, flag, allow);
    if !Deleted(First(r, Flatten(o), args, flag, allow)) {
      FindsFirst(r, o, args, flag, allow);
    }
  }

  lemma {:induction false} FindsFirst(r: Rules, o: Overload, args: seq<Expr>, flag: Convert, allow: bool)
    requires !Deleted(First(r, Flatten(o), args, flag, allow))
    ensures GetMatch(r, o, args, flag, allow) == ByFirst(r, Flatten(o), args, flag, allow)
    decreases o, 0
  {
    hide Matches, Passed;
    FirstSplits(r, o.funcs, FlattenAll(o.parents), args, flag, allow);
    if First(r, o.funcs, args, flag, allow).None? {
      FindsFirstIn(r, o.parents, args, flag, allow);
    }
  }

  lemma {:induction false} FindsFirstIn(r: Rules, os: seq<Overload>, args: seq<Expr>, flag: Convert, allow: bool)
    requires !Deleted(First(r, FlattenAll(os), args, flag, allow))
    ensures GetMatchIn(r, os, args, flag, allow) == ByFirst(r, FlattenAll(os), args, flag, allow)
    decreases os, 1
  {
    hide Matches, Passed;
    if os != [] {
      FirstSplits(r, Flatten(os[0]), FlattenAll(os[1..]), args, flag, allow);
      FindsFirst(r, os[0], args, flag, allow);
      if GetMatch(r, os[0], args, flag, allow).func.None? {
        FindsFirstIn(r, os[1..], args, flag, allow);
      }
    }
  }

  /** A deleted function is never the answer. */
  lemma {:induction false} FoundIsUsable(r: Rules, o: Overload, args: seq<Expr>, flag: Convert, allow: bool)
    ensures !Deleted(GetMatch(r, o, args, flag, allow).func)
    decreases o, 0
  {
    hide Matches, Passed, First;
    if First(r, o.funcs, args, flag, allow).None? {
      FoundInIsUsable(r, o.parents, args, flag, allow);
    }
  }

  lemma {:induction false} FoundInIsUsable(r: Rules, os: seq<Overload>, args: seq<Expr>, flag: Convert, allow: bool)
    ensures !Deleted(GetMatchIn(r, os, args, flag, allow).func)
    decreases os, 1
  {
    hide GetMatch;
    if os != [] {
      FoundIsUsable(r, os[0], args, flag, allow);
      FoundInIsUsable(r, os[1..], GetMatch(r, os[0], args, flag, allow).args, flag, allow);
    }
  }

  // ----- Both passes -----

  /** The mode of the first pass: from how many arguments are adaptive. */
  function Mode(r: Rules, args: seq<Expr>): Convert {
    if forall i :: 0 <= i < |args| ==> r.adaptive(args[i]) then AdaptSecondary
    else if exists i :: 0 <= i < |args| && r.adaptive(args[i]) then Adapt
    else NoConvert
  }

  /** OverloadDef::getMatch: if the first pass finds nothing, a second converts everything. */
  function Resolve(r: Rules, o: Overload, args: seq<Expr>, allow: bool): Found {
    var found := GetMatch(r, o, args, Mode(r, args), allow);
    if found.func.Some? then found else GetMatch(r, o, found.args, Full, allow)
  }

  /** The first match of the first pass, else the first of the converting pass. */
  function Decisive(r: Rules, o: Overload, args: seq<Expr>, allow: bool): Option<Func> {
    var one := First(r, Flatten(o), args, Mode(r, args), allow);
    if one.Some? then one else First(r, Flatten(o), args, Full, allow)
  }

  /** Resolution gives the first match of the first pass, else the first of the converting pass, with its
      own values at every position, or leaves the arguments untouched, if and only if the match that
      decides is not a deleted function. */
  lemma ResolvesToFirstIff(r: Rules, o: Overload, args: seq<Expr>, allow: bool)
    ensures var one, two := ByFirst(r, Flatten(o), args, Mode(r, args), allow),
      ByFirst(r, Flatten(o), args, Full, allow);
      Resolve(r, o, args, allow) == (if one.func.Some? then one else two) <==> !Deleted(Decisive(r, o, args, allow))
    ensures (forall f :: f in Flatten(o) ==> !f.deleted) ==> !Deleted(Decisive(r, o, args, allow))
  {
    hide GetMatch, Matches, Passed, First;
    var mode := Mode(r, args);
    FirstMatches(r, Flatten(o), args, mode, allow);
    FirstMatches(r, Flatten(o), args, Full, allow);
    FoundIsUsable(r, o, args, mode, allow);
    FoundIsUsable(r, o, GetMatch(r, o, args, mode, allow).args, Full, allow);
    FindsFirstIff(r, o, args, mode, allow);
    FindsFirstIff(r, o, args, Full, allow);
  }

  // ----- What resolution means -----

  /** In the first pass an argument is converted if it is adaptive, except the first one when all are. */
  predicate Kept(r: Rules, args: seq<Expr>, i: nat)
    requires i < |args|
  {
    !r.adaptive(args[i]) || (i == 0 && forall j :: 0 <= j < |args| ==> r.adaptive(args[j]))
  }

  /** The first pass finds the function usable: what is kept has a type that fits, and the others convert. */
  predicate Takes(r: Rules, f: Func, args: seq<Expr>) {
    |f.params| == |args| && forall i :: 0 <= i < |args| ==>
      if Kept(r, args, i) then r.typeOf(args[i]).Some? && r.fits(f.params[i], r.typeOf(args[i]).value)
      else r.convert(args[i], f.params[i]).Some?
  }

  predicate TakesConverted(r: Rules, f: Func, args: seq<Expr>) {
    |f.params| == |args| && forall i :: 0 <= i < |args| ==> r.convert(args[i], f.params[i]).Some?
  }

  /** Nobody takes the arguments, an override only being asked if overrides are allowed. */
  ghost predicate NoneOf(fs: seq<Func>, takes: Func -> bool, allow: bool) {
    forall f :: f in fs && (allow || !f.override) ==> !takes(f)
  }

  /** The function is one of the list, and those before it do not take the arguments. */
  ghost predicate IsFirst(fs: seq<Func>, f: Func, takes: Func -> bool, allow: bool) {
    exists k :: 0 <= k < |fs| && fs[k] == f && (allow || !f.override) && takes(f) && NoneOf(fs[..k], takes, allow)
  }

  lemma {:induction false} FirstIs(r: Rules, fs: seq<Func>, vals: seq<Expr>, flag: Convert, allow: bool)
    ensures var takes := (f: Func) => Matches(r, f, vals, flag);
      match First(r, fs, vals, flag, allow)
      case None => NoneOf(fs, takes, allow)
      case Some(f) => IsFirst(fs, f, takes, allow)
    decreases |fs|
  {
    hide Matches;
    var takes := (f: Func) => Matches(r, f, vals, flag);
    if fs != [] {
      if Considered(fs[0], allow) && takes(fs[0]) {
        assert fs[..0] == [] && NoneOf(fs[..0], takes, allow);
      } else {
        FirstIs(r, fs[1..], vals, flag, allow);
        var found := First(r, fs[1..], vals, flag, allow);
        if found.Some? {
          var k :| 0 <= k < |fs| - 1 && fs[1..][k] == found.value && NoneOf(fs[1..][..k], takes, allow);
          assert fs[..k + 1] == [fs[0]] + fs[1..][..k] && fs[k + 1] == found.value;
        }
      }
    }
  }

  lemma ModePasses(r: Rules, f: Func, args: seq<Expr>)
    ensures Matches(r, f, args, Mode(r, args)) <==> Takes(r, f, args)
    ensures Takes(r, f, args) ==> forall i :: 0 <= i < |args| ==>
      Some(Rewritten(r, f, args, Mode(r, args))[i])
        == if Kept(r, args, i) then Some(args[i]) else r.convert(args[i], f.params[i])
    ensures |f.params| == |args| && Takes(r, f, args) ==> |Rewritten(r, f, args, Mode(r, args))| == |args|
  {
    if |f.params| == |args| {
      forall i | 0 <= i < |args|
        ensures Pass(r, f.params[i], args[i], i, Mode(r, args))
             == if !Kept(r, args, i) then r.convert(args[i], f.params[i])
                else if Accepts(r, f.params[i], args[i]) then Some(args[i]) else None
      {
        ModeAt(r, args, i);
      }
    }
  }

  /** The mode, as it shows in one argument. */
  lemma ModeAt(r: Rules, args: seq<Expr>, i: nat)
    requires i < |args|
    ensures var mode := Mode(r, args);
      && mode != Full
      && (mode == NoConvert ==> !r.adaptive(args[i]))
      && (mode == AdaptSecondary <==> forall j :: 0 <= j < |args| ==> r.adaptive(args[j]))
  {
  }

  lemma FullPasses(r: Rules, f: Func, args: seq<Expr>)
    ensures Matches(r, f, args, Full) <==> TakesConverted(r, f, args)
    ensures TakesConverted(r, f, args) ==> |Rewritten(r, f, args, Full)| == |args|
    ensures TakesConverted(r, f, args) ==>
      forall i :: 0 <= i < |args| ==> Some(Rewritten(r, f, args, Full)[i]) == r.convert(args[i], f.params[i])
  {
  }

  lemma SameTakers(fs: seq<Func>, a: Func -> bool, b: Func -> bool, allow: bool)
    requires forall f :: a(f) <==> b(f)
    ensures NoneOf(fs, a, allow) <==> NoneOf(fs, b, allow)
    ensures forall f :: IsFirst(fs, f, a, allow) <==> IsFirst(fs, f, b, allow)
  {
    forall f
      ensures IsFirst(fs, f, a, allow) <==> IsFirst(fs, f, b, allow)
    {
      assert forall k :: 0 <= k < |fs| ==> (NoneOf(fs[..k], a, allow) <==> NoneOf(fs[..k], b, allow));
    }
  }

  /** Without deleted functions a call resolves to the first function that takes the arguments as they are,
      adaptive ones converted (but for a first one among adaptive ones only), and gets exactly those values;
      if there is none, to the first that takes them all converted; and otherwise to nothing, with the
      arguments untouched. */
  lemma ResolutionMeans(r: Rules, o: Overload, args: seq<Expr>, allow: bool)
    requires forall f :: f in Flatten(o) ==> !f.deleted
    ensures var fs, x := Flatten(o), Resolve(r, o, args, allow);
      var takes, converted := (f: Func) => Takes(r, f, args), (f: Func) => TakesConverted(r, f, args);
      match x.func
      case None => NoneOf(fs, takes, allow) && NoneOf(fs, converted, allow) && x.args == args
      case Some(f) =>
        && |x.args| == |args|
        && if IsFirst(fs, f, takes, allow) then
             forall i :: 0 <= i < |args| ==>
               Some(x.args[i]) == if Kept(r, args, i) then Some(args[i]) else r.convert(args[i], f.params[i])
           else
             && NoneOf(fs, takes, allow) && IsFirst(fs, f, converted, allow)
             && forall i :: 0 <= i < |args| ==> Some(x.args[i]) == r.convert(args[i], f.params[i])
  {
    hide GetMatch, Matches, First, Mode, Takes, TakesConverted, NoneOf, IsFirst, Kept, Resolve, Rewritten;
    var fs, mode := Flatten(o), Mode(r, args);
    ResolvesToFirstIff(r, o, args, allow);
    FirstIs(r, fs, args, mode, allow);
    FirstIs(r, fs, args, Full, allow);
    var takes, converted := (f: Func) => Takes(r, f, args), (f: Func) => TakesConverted(r, f, args);
    var inMode, inFull := (f: Func) => Matches(r, f, args, mode), (f: Func) => Matches(r, f, args, Full);
    forall f ensures (takes(f) <==> inMode(f)) && (converted(f) <==> inFull(f)) {
      ModePasses(r, f, args);
      FullPasses(r, f, args);
    }
    SameTakers(fs, takes, inMode, allow);
    SameTakers(fs, converted, inFull, allow);
    var one, two := First(r, fs, args, mode, allow), First(r, fs, args, Full, allow);
    FirstMatches(r, fs, args, mode, allow);
    FirstMatches(r, fs, args, Full, allow);
    if one.Some? {
      ModePasses(r, one.value, args);
    } else if two.Some? {
      FullPasses(r, two.value, args);
      NotBoth(fs, two.value, takes, allow);
    }
  }

  lemma NotBoth(fs: seq<Func>, f: Func, takes: Func -> bool, allow: bool)
    ensures !(NoneOf(fs, takes, allow) && IsFirst(fs, f, takes, allow))
  {
  }

  /** `5 + 6` on [op(byte, byte), op(int, int)]: both operands are adaptive, so the first one decides by its
      own type and only the second one is converted. */
  lemma FirstOperandDecides(r: Rules, five: Expr, six: Expr, int0: Type, byte0: Type, allow: bool)
    requires r.adaptive(five) && r.adaptive(six) && r.typeOf(five) == Some(int0) && r.fits(int0, int0)
    requires !r.fits(byte0, int0) && r.convert(six, int0).Some?
    ensures var bytes, ints := Func(0, [byte0, byte0], false, false), Func(1, [int0, int0], false, false);
      Resolve(r, Overload([bytes, ints], []), [five, six], allow)
        == Found(Some(ints), [five, r.convert(six, int0).value])
  {
    hide Resolve, Mode;
    var bytes, ints := Func(0, [byte0, byte0], false, false), Func(1, [int0, int0], false, false);
    var o, args := Overload([bytes, ints], []), [five, six];
    assert Flatten(o) == [bytes, ints];
    var takes := (f: Func) => Takes(r, f, args);
    assert Kept(r, args, 0) && !Kept(r, args, 1);
    assert !takes(bytes) && takes(ints);
    ResolutionMeans(r, o, args, allow);
    var fs := Flatten(o);
    assert fs[1] == ints && NoneOf(fs[..1], takes, allow);
    assert IsFirst(fs, ints, takes, allow) && ints in fs;
    var x := Resolve(r, o, args, allow);
    assert x.func.Some?;
    assert x.args == [x.args[0], x.args[1]];
  }

  // ----- A deleted function -----

  /** With a deleted function: resolution fails and the arguments are changed all the same. */
  lemma DeletedFunctionSpoilsArguments()
    returns (r: Rules, o: Overload, args: seq<Expr>)
    ensures var found := Resolve(r, o, args, true); found.func.None? && found.args != args
  {
    var t, a, b := Type(0), Expr(0), Expr(1);
    r := Rules(e => false, e => None, (p, v) => false, (e, p) => Some(b));
    var f := Func(0, [t], false, true);
    o := Overload([f], []);
    args := [a];
    assert !r.adaptive(args[0]);
    assert Mode(r, args) == NoConvert;
    assert !Matches(r, f, args, NoConvert) by { assert Pass(r, f.params[0], args[0], 0, NoConvert) == None; }
    assert First(r, o.funcs, args, NoConvert, true) == None by { assert o.funcs[1..] == []; }
    assert GetMatch(r, o, args, NoConvert, true) == Found(None, args);
    assert Matches(r, f, args, Full);
    assert First(r, o.funcs, args, Full, true) == Some(f);
    assert Passed(r, f, args, Full)[0] == b;
  }

  /** The searching methods on a vector of arguments that they rewrite in place. */
  method FindMatch(r: Rules, o: Overload, args: array<Expr>, flag: Convert, allow: bool) returns (found: Option<Func>)
    modifies args
    ensures Found(found, args[..]) == GetMatch(r, o, old(args[..]), flag, allow)
    decreases o
  {
    hide Matches, Passed;
    var newArgs := new Expr[args.Length](_ => Expr(0));
    ghost var vals := args[..];
    assert o.funcs[0..] == o.funcs;
    for i := 0 to |o.funcs|
      invariant args[..] == vals && fresh(newArgs)
      invariant First(r, o.funcs[i..], vals, flag, allow) == First(r, o.funcs, vals, flag, allow)
    {
      var f := o.funcs[i];
      assert o.funcs[i..][0] == f && o.funcs[i..][1..] == o.funcs[i + 1..];
      if !allow && f.override {
        continue;
      }
      var ok := FuncMatches(r, f, args[..], newArgs, flag);
      if ok {
        if flag != NoConvert {
          forall j | 0 <= j < args.Length {
            args[j] := newArgs[j];
          }
          assert args[..] == newArgs[..];
        }
        return Usable(f);
      }
    }
    assert o.parents[0..] == o.parents;
    ghost var all := GetMatchIn(r, o.parents, vals, flag, allow);
    for i := 0 to |o.parents|
      invariant GetMatchIn(r, o.parents[i..], args[..], flag, allow) == all
    {
      assert o.parents[i..][0] == o.parents[i] && o.parents[i..][1..] == o.parents[i + 1..];
      found := FindMatch(r, o.parents[i], args, flag, allow);
      if found.Some? {
        return found;
      }
    }
    found := None;
  }

  method ResolveCall(r: Rules, o: Overload, args: array<Expr>, allow: bool) returns (found: Option<Func>)
    modifies args
    ensures Found(found, args[..]) == Resolve(r, o, old(args[..]), allow)
  {
    hide GetMatch;
    var someAdaptive, allAdaptive := false, true;
    ghost var vals := args[..];
    for i := 0 to args.Length
      invariant args[..] == vals
      invariant someAdaptive == exists j :: 0 <= j < i && r.adaptive(vals[j])
      invariant allAdaptive == forall j :: 0 <= j < i ==> r.adaptive(vals[j])
    {
      if r.adaptive(args[i]) {
        someAdaptive := true;
      } else {
        allAdaptive := false;
      }
    }
    var flag := NoConvert;
    if someAdaptive {
      flag := Adapt;
    }
    if allAdaptive {
      flag := AdaptSecondary;
    }
    found := FindMatch(r, o, args, flag, allow);
    if found.None? {
      found := FindMatch(r, o, args, Full, allow);
    }
  }

  // ----- Exact signatures and aliases -----

  function FirstSig(fs: seq<Func>, sig: seq<Type>): Option<Func> {
    if fs == [] then None else if fs[0].params == sig then Some(fs[0]) else FirstSig(fs[1..], sig)
  }

  lemma {:induction false} FirstSigSplits(a: seq<Func>, b: seq<Func>, sig: seq<Type>)
    ensures FirstSig(a + b, sig) == if FirstSig(a, sig).Some? then FirstSig(a, sig) else FirstSig(b, sig)
    decreases |a|
  {
    if a == [] {
      assert a + b == b;
    } else {
      assert (a + b)[0] == a[0] && (a + b)[1..] == a[1..] + b;
      FirstSigSplits(a[1..], b, sig);
    }
  }

  /** OverloadDef::getSigMatch. */
  function SigMatch(o: Overload, sig: seq<Type>): Option<Func>
    decreases o, 0
  {
    match FirstSig(o.funcs, sig)
    case Some(f) => Usable(f)
    case None => SigMatchIn(o.parents, sig)
  }

  function SigMatchIn(os: seq<Overload>, sig: seq<Type>): Option<Func>
    decreases os, 1
  {
    if os == [] then None
    else
      var f := SigMatch(os[0], sig);
      if f.Some? then f else SigMatchIn(os[1..], sig)
  }

  /** OverloadDef::createAlias: the flattened overload. */
  function Alias(o: Overload): Overload {
    Overload(Flatten(o), [])
  }

  /** The first function with the signature decides: if it is usable, the tree and its alias both answer
      it; if it is deleted, the alias has no answer. */
  lemma {:induction false} FirstSigDecides(o: Overload, sig: seq<Type>)
    ensures var f := FirstSig(Flatten(o), sig);
      && (f.None? ==> SigMatch(o, sig) == None)
      && (f.Some? && !f.value.deleted ==> SigMatch(o, sig) == f)
    decreases o, 0
  {
    FirstSigSplits(o.funcs, FlattenAll(o.parents), sig);
    if FirstSig(o.funcs, sig).None? {
      FirstSigDecidesIn(o.parents, sig);
    }
  }

  lemma {:induction false} FirstSigDecidesIn(os: seq<Overload>, sig: seq<Type>)
    ensures var f := FirstSig(FlattenAll(os), sig);
      && (f.None? ==> SigMatchIn(os, sig) == None)
      && (f.Some? && !f.value.deleted ==> SigMatchIn(os, sig) == f)
    decreases os, 1
  {
    if os != [] {
      FirstSigSplits(Flatten(os[0]), FlattenAll(os[1..]), sig);
      FirstSigDecides(os[0], sig);
      FirstSigDecidesIn(os[1..], sig);
    }
  }

  /** What is answered has the parameters asked for and is not deleted; and a function that has them, is not
      deleted and comes before all others that have them is the answer. */
  lemma SigMatchMeans(o: Overload, sig: seq<Type>)
    ensures var f := SigMatch(o, sig); f.Some? ==> f.value in Flatten(o) && f.value.params == sig && !f.value.deleted
    ensures var fs := Flatten(o);
      forall k :: 0 <= k < |fs| && fs[k].params == sig && !fs[k].deleted && NoneWith(fs[..k], sig) ==>
        SigMatch(o, sig) == Some(fs[k])
  {
    hide SigMatch, Flatten, FirstSig, NoneWith;
    SigFound(o, sig);
    FirstSigDecides(o, sig);
    FirstSigAt(Flatten(o), sig);
  }

  predicate NoneWith(fs: seq<Func>, sig: seq<Type>) {
    forall i :: 0 <= i < |fs| ==> fs[i].params != sig
  }

  lemma {:induction false} FirstSigAt(fs: seq<Func>, sig: seq<Type>)
    ensures forall k :: 0 <= k < |fs| && fs[k].params == sig && NoneWith(fs[..k], sig) ==>
      FirstSig(fs, sig) == Some(fs[k])
    decreases |fs|
  {
    if fs != [] && fs[0].params != sig {
      FirstSigAt(fs[1..], sig);
      forall k | 0 <= k < |fs| && fs[k].params == sig && NoneWith(fs[..k], sig)
        ensures FirstSig(fs, sig) == Some(fs[k])
      {
        assert fs[..k] == [fs[0]] + fs[1..][..k - 1] && fs[1..][k - 1] == fs[k];
        var rest := fs[1..][..k - 1];
        forall i | 0 <= i < k - 1 ensures rest[i].params != sig {
          assert rest[i] == fs[..k][i + 1];
        }
      }
    }
  }

  lemma {:induction false} SigFound(o: Overload, sig: seq<Type>)
    ensures var f := SigMatch(o, sig); f.Some? ==> f.value in Flatten(o) && f.value.params == sig && !f.value.deleted
    decreases o, 0
  {
    FirstSigIn(o.funcs, sig);
    if FirstSig(o.funcs, sig).None? {
      SigFoundIn(o.parents, sig);
    }
  }

  lemma {:induction false} SigFoundIn(os: seq<Overload>, sig: seq<Type>)
    ensures var f := SigMatchIn(os, sig);
      f.Some? ==> f.value in FlattenAll(os) && f.value.params == sig && !f.value.deleted
    decreases os, 1
  {
    hide SigMatch, Flatten;
    if os != [] {
      SigFound(os[0], sig);
      SigFoundIn(os[1..], sig);
    }
  }

  lemma AliasAnswer(o: Overload, sig: seq<Type>)
    ensures var f := FirstSig(Flatten(o), sig);
      SigMatch(Alias(o), sig) == if f.Some? then Usable(f.value) else None
  {
  }

  /** What an alias answers, its original answers; and they agree exactly unless the first function with
      the signature is deleted while a later branch has one that is not. */
  lemma AliasAgreesIff(o: Overload, sig: seq<Type>)
    ensures SigMatch(Alias(o), sig).Some? ==> SigMatch(o, sig) == SigMatch(Alias(o), sig)
    ensures var f := FirstSig(Flatten(o), sig);
      SigMatch(o, sig) == SigMatch(Alias(o), sig) <==> !(f.Some? && f.value.deleted && SigMatch(o, sig).Some?)
    ensures (forall f :: f in Flatten(o) ==> !f.deleted) ==> SigMatch(o, sig) == SigMatch(Alias(o), sig)
  {
    hide SigMatch, Flatten;
    AliasAnswer(o, sig);
    FirstSigDecides(o, sig);
    FirstSigIn(Flatten(o), sig);
  }

  lemma {:induction false} FirstSigIn(fs: seq<Func>, sig: seq<Type>)
    ensures FirstSig(fs, sig).Some? ==> FirstSig(fs, sig).value in fs && FirstSig(fs, sig).value.params == sig
    decreases |fs|
  {
    if fs != [] {
      FirstSigIn(fs[1..], sig);
    }
  }

  /** Two parents, the first with a deleted function: the tree goes on to the second, its alias does not. */
  lemma DeletedFunctionSplitsAlias() returns (o: Overload, sig: seq<Type>)
    ensures SigMatch(o, sig).Some? && SigMatch(Alias(o), sig).None?
  {
    var bad, good := Func(0, [], false, true), Func(1, [], false, false);
    var a, b := Overload([bad], []), Overload([good], []);
    o, sig := Overload([], [a, b]), [];
    assert SigMatch(a, sig) == None && SigMatch(b, sig) == Some(good);
    assert o.parents[1..] == [b];
    assert SigMatchIn([b], sig) == Some(good);
    assert SigMatchIn(o.parents, sig) == Some(good);
    assert Flatten(a) == [bad] + FlattenAll([]) == [bad];
    assert FlattenAll(o.parents) == [bad] + FlattenAll([b]);
    assert Flatten(o) == [] + FlattenAll(o.parents);
    assert Flatten(o)[0] == bad;
    AliasAnswer(o, sig);
  }

  /** FuncList, filled in place. */
  class FuncList {
    var funcs: seq<Func>

    constructor ()
      ensures funcs == []
    {
      funcs := [];
    }

    method AddFlattened(o: Overload)
      modifies this
      ensures funcs == old(funcs) + Flatten(o)
      decreases o
    {
      for i := 0 to |o.funcs|
        invariant funcs == old(funcs) + o.funcs[..i]
      {
        funcs := funcs + [o.funcs[i]];
      }
      ghost var own := funcs;
      assert o.parents[0..] == o.parents;
      for i := 0 to |o.parents|
        invariant funcs + FlattenAll(o.parents[i..]) == own + FlattenAll(o.parents)
      {
        ghost var before := funcs;
        assert o.parents[i..][0] == o.parents[i] && o.parents[i..][1..] == o.parents[i + 1..];
        AddFlattened(o.parents[i]);
        assert before + (Flatten(o.parents[i]) + FlattenAll(o.parents[i + 1..]))
            == before + Flatten(o.parents[i]) + FlattenAll(o.parents[i + 1..]);
      }
      assert old(funcs) + o.funcs + FlattenAll(o.parents) == old(funcs) + (o.funcs + FlattenAll(o.parents));
      assert funcs + [] == funcs;
    }
  }

  method CreateAlias(o: Overload) returns (alias: Overload)
    ensures alias == Alias(o)
  {
    var flat := new FuncList();
    flat.AddFlattened(o);
    assert [] + Flatten(o) == Flatten(o);
    alias := Overload(flat.funcs, []);
  }

  method GetSigMatch(o: Overload, sig: seq<Type>) returns (f: Option<Func>)
    ensures f == SigMatch(o, sig)
    decreases o
  {
    assert o.funcs[0..] == o.funcs;
    for i := 0 to |o.funcs|
      invariant FirstSig(o.funcs[i..], sig) == FirstSig(o.funcs, sig)
    {
      assert o.funcs[i..][0] == o.funcs[i] && o.funcs[i..][1..] == o.funcs[i + 1..];
      if o.funcs[i].params == sig {
        return Usable(o.funcs[i]);
      }
    }
    assert o.parents[0..] == o.parents;
    for i := 0 to |o.parents|
      invariant SigMatchIn(o.parents[i..], sig) == SigMatchIn(o.parents, sig)
    {
      assert o.parents[i..][0] == o.parents[i] && o.parents[i..][1..] == o.parents[i + 1..];
      f := GetSigMatch(o.parents[i], sig);
      if f.Some? {
        return f;
      }
    }
    f := None;
  }
}
