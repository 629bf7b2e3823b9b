/**
 * Which modules an imported symbol drags in: addDependenciesTo on definitions whose types may refer
 * to each other in cycles (model/TypeDef.cc, VarDef.cc, FuncDef.cc, OverloadDef.cc, ModuleDef.cc).
 */
module Dependencies {

  /** Types are numbers into a table.  A variable has the type `ty` unless it is its own type. */
  datatype Def =
    | Type(t: nat)
    | Var(mod: nat, ty: nat, typed: bool)
    | Func(mod: nat, ret: nat, args: seq<nat>)
    | Overload(funcs: seq<Def>)

  /** `hidden` members have names starting with two underscores. */
  datatype Member = Member(hidden: bool, def: Def)

  datatype TypeDef = TypeDef(mod: nat, members: seq<Member>)

  type Table = seq<TypeDef>

  // ----- Reachability -----

  /** Types a definition mentions, and the modules of the definition itself. */
  function Types(d: Def): set<nat> {
    match d
    case Type(t) => {t}
    case Var(_, ty, typed) => if typed then {ty} else {}
    case Func(_, ret, args) => {ret} + Elems(args)
    case Overload(funcs) => AllTypes(funcs)
  }

  function Elems(xs: seq<nat>): set<nat> {
    set x | x in xs
  }

  function AllTypes(ds: seq<Def>): set<nat> {
    if ds == [] then {} else Types(ds[0]) + AllTypes(ds[1..])
  }

  function Modules(d: Def): set<nat> {
    match d
    case Type(_) => {}
    case Var(m, _, _) => {m}
    case Func(m, _, _) => {m}
    case Overload(funcs) => AllModules(funcs)
  }

  function AllModules(ds: seq<Def>): set<nat> {
    if ds == [] then {} else Modules(ds[0]) + AllModules(ds[1..])
  }

  function Visible(ms: seq<Member>): seq<Def> {
    if ms == [] then [] else (if ms[0].hidden then [] else [ms[0].def]) + Visible(ms[1..])
  }

  /** Everything a definition mentions is in the table. */
  ghost predicate Known(w: Table, d: Def) {
    forall t :: t in Types(d) ==> t < |w|
  }

  ghost predicate Valid(w: Table) {
    forall t, i :: 0 <= t < |w| && 0 <= i < |w[t].members| ==> Known(w, w[t].members[i].def)
  }

  function Next(w: Table, t: nat): set<nat>
    requires t < |w|
  {
    AllTypes(Visible(w[t].members))
  }

  function ModulesOf(w: Table, t: nat): set<nat>
    requires t < |w|
  {
    {w[t].mod} + AllModules(Visible(w[t].members))
  }

  lemma {:induction false} AllTypesAre(ds: seq<Def>, t: nat)
    ensures t in AllTypes(ds) <==> exists i :: 0 <= i < |ds| && t in Types(ds[i])
    decreases |ds|
  {
    hide Types;
    if ds != [] {
      AllTypesAre(ds[1..], t);
      assert forall i :: 0 < i < |ds| ==> ds[i] == ds[1..][i - 1];
      assert forall i :: 0 <= i < |ds| - 1 ==> ds[1..][i] == ds[i + 1];
    }
  }

  lemma {:induction false} AllModulesAre(ds: seq<Def>, m: nat)
    ensures m in AllModules(ds) <==> exists i :: 0 <= i < |ds| && m in Modules(ds[i])
    decreases |ds|
  {
    hide Modules;
    if ds != [] {
      AllModulesAre(ds[1..], m);
      assert forall i :: 0 < i < |ds| ==> ds[i] == ds[1..][i - 1];
      assert forall i :: 0 <= i < |ds| - 1 ==> ds[1..][i] == ds[i + 1];
    }
  }

  lemma {:induction false} VisibleMention(ms: seq<Member>, x: nat)
    ensures x in AllTypes(Visible(ms)) <==> exists i :: 0 <= i < |ms| && !ms[i].hidden && x in Types(ms[i].def)
    ensures x in AllModules(Visible(ms)) <==> exists i :: 0 <= i < |ms| && !ms[i].hidden && x in Modules(ms[i].def)
    decreases |ms|
  {
    hide Types, Modules;
    if ms != [] {
      VisibleMention(ms[1..], x);
      var rest := Visible(ms[1..]);
      assert ([ms[0].def] + rest)[1..] == rest && [] + rest == rest;
      assert forall i :: 0 < i < |ms| ==> ms[i] == ms[1..][i - 1];
      assert forall i :: 0 <= i < |ms| - 1 ==> ms[1..][i] == ms[i + 1];
    }
  }

  /** What a definition mentions: a type itself, a typed variable its type, a function its return type and
      the types of all arguments, an overload what its functions do; and the modules they stand in. */
  lemma MentionsIff(d: Def, t: nat)
    ensures t in Types(d) <==>
      match d
      case Type(u) => t == u
      case Var(_, ty, typed) => typed && t == ty
      case Func(_, ret, args) => t == ret || exists i :: 0 <= i < |args| && args[i] == t
      case Overload(funcs) => exists i :: 0 <= i < |funcs| && t in Types(funcs[i])
    ensures t in Modules(d) <==>
      match d
      case Type(_) => false
      case Var(m, _, _) => t == m
      case Func(m, _, _) => t == m
      case Overload(funcs) => exists i :: 0 <= i < |funcs| && t in Modules(funcs[i])
  {
    if d.Overload? {
      AllTypesAre(d.funcs, t);
      AllModulesAre(d.funcs, t);
    }
  }

  /** A type leads on to what its members mention, but for those with two underscores, and needs its own
      module and theirs. */
  lemma NextIff(w: Table, t: nat, x: nat)
    requires t < |w|
    ensures var ms := w[t].members;
      && (x in Next(w, t) <==> exists i :: 0 <= i < |ms| && !ms[i].hidden && x in Types(ms[i].def))
      && (x in ModulesOf(w, t) <==>
            x == w[t].mod || exists i :: 0 <= i < |ms| && !ms[i].hidden && x in Modules(ms[i].def))
  {
    hide Types, Modules, Visible, AllTypes, AllModules;
    VisibleMention(w[t].members, x);
  }

  ghost predicate Path(w: Table, path: seq<nat>) {
    && path != [] && (forall i :: 0 <= i < |path| ==> path[i] < |w|)
    && forall i :: 0 <= i < |path| - 1 ==> path[i + 1] in Next(w, path[i])
  }

  ghost predicate Reaches(w: Table, t: nat, u: nat) {
    exists path :: Path(w, path) && path[0] == t && path[|path| - 1] == u
  }

  ghost predicate ReachedFrom(w: Table, d: Def, u: nat) {
    exists t :: t in Types(d) && Reaches(w, t, u)
  }

  /** The module of a definition reached from `d`, or of `d` itself. */
  ghost predicate Needed(w: Table, d: Def, m: nat) {
    m in Modules(d) || exists u: nat :: u < |w| && ReachedFrom(w, d, u) && m in ModulesOf(w, u)
  }

  lemma ReachSelf(w: Table, t: nat)
    requires t < |w|
    ensures Reaches(w, t, t)
  {
    assert Path(w, [t]);
  }

  lemma ReachStep(w: Table, t: nat, u: nat, v: nat)
    requires t < |w| && u in Next(w, t) && Reaches(w, u, v)
    ensures Reaches(w, t, v)
  {
    var path :| Path(w, path) && path[0] == u && path[|path| - 1] == v;
    var longer := [t] + path;
    assert Path(w, longer) by {
      forall i | 0 <= i < |longer| - 1 ensures longer[i + 1] in Next(w, longer[i]) {
        assert i > 0 ==> path[i] in Next(w, path[i - 1]);
      }
    }
    assert longer[|longer| - 1] == v;
  }

  /** What a closed set contains, it contains with everything reachable. */
  lemma {:induction false} ClosedContains(w: Table, s: set<nat>, path: seq<nat>)
    requires Path(w, path) && path[0] in s
    requires forall t :: t in s ==> t < |w| && Next(w, t) <= s
    ensures path[|path| - 1] in s
    decreases |path|
  {
    if |path| > 1 {
      assert path[1] in Next(w, path[0]);
      assert Path(w, path[1..]) by {
        forall i | 0 <= i < |path[1..]| - 1 ensures path[1..][i + 1] in Next(w, path[1..][i]) {
          assert path[i + 2] in Next(w, path[i + 1]);
        }
      }
      ClosedContains(w, s, path[1..]);
    }
  }

  // ----- The traversal -----

  predicate Row(w: Table, t: nat) {
    t < |w|
  }

  function All(w: Table): set<nat> {
    set t: nat | t < |w| && Row(w, t)
  }

  function ModulesIn(w: Table, s: set<nat>): set<nat>
    requires s <= All(w)
  {
    set t, m | t in s && m in ModulesOf(w, t) :: m
  }

  ghost predicate From(w: Table, starts: set<nat>, u: nat) {
    exists t :: t in starts && Reaches(w, t, u)
  }

  /** From visiting `starts`: what is new was reachable, and with it everything it mentions was visited. */
  ghost predicate Visited(w: Table, starts: set<nat>, before: set<nat>, after: set<nat>) {
    && before <= after <= All(w) && starts <= after
    && forall u :: u in after && u !in before ==> From(w, starts, u) && Next(w, u) <= after
  }

  lemma VisitedNothing(w: Table, s: set<nat>)
    requires s <= All(w)
    ensures Visited(w, {}, s, s)
  {
  }

  lemma FromMore(w: Table, a: set<nat>, b: set<nat>, u: nat)
    requires From(w, a, u) && a <= b
    ensures From(w, b, u)
  {
  }

  lemma VisitedBoth(w: Table, a: set<nat>, b: set<nat>, s0: set<nat>, s1: set<nat>, s2: set<nat>)
    requires Visited(w, a, s0, s1) && Visited(w, b, s1, s2)
    ensures Visited(w, a + b, s0, s2)
  {
    hide From, Next;
    forall u | u in s2 && u !in s0 ensures From(w, a + b, u) && Next(w, u) <= s2 {
      FromMore(w, if u in s1 then a else b, a + b, u);
    }
  }

  /** A type entered, then all its members visited. */
  lemma VisitedType(w: Table, t: nat, s0: set<nat>, s2: set<nat>)
    requires t < |w| && s0 <= All(w) && t !in s0 && Visited(w, Next(w, t), s0 + {t}, s2)
    ensures Visited(w, {t}, s0, s2)
  {
    hide Reaches, Next;
    ReachSelf(w, t);
    forall u | u in s2 && u !in s0 ensures From(w, {t}, u) && Next(w, u) <= s2 {
      if u != t {
        assert From(w, Next(w, t), u);
        var v :| v in Next(w, t) && Reaches(w, v, u);
        ReachStep(w, t, v, u);
      }
      assert t in {t} && Reaches(w, t, u);
    }
  }

  lemma ModulesBoth(w: Table, a: set<nat>, b: set<nat>)
    requires a <= All(w) && b <= All(w)
    ensures ModulesIn(w, a + b) == ModulesIn(w, a) + ModulesIn(w, b)
  {
  }

  lemma ClosedReach(w: Table, s: set<nat>, t: nat, u: nat)
    requires t in s && Reaches(w, t, u) && forall v :: v in s ==> v < |w| && Next(w, v) <= s
    ensures u in s
  {
    hide Next;
    var path :| Path(w, path) && path[0] == t && path[|path| - 1] == u;
    ClosedContains(w, s, path);
  }

  lemma VisitedIsReached(w: Table, d: Def, s: set<nat>, u: nat)
    requires Visited(w, Types(d), {}, s)
    ensures u in s <==> ReachedFrom(w, d, u)
  {
    hide Next, Reaches, Types;
    if u in s {
      assert From(w, Types(d), u);
    }
    if ReachedFrom(w, d, u) {
      var t :| t in Types(d) && Reaches(w, t, u);
      ClosedReach(w, s, t, u);
    }
  }

  /** From the empty set, the visited types are exactly the reachable ones. */
  lemma VisitedAll(w: Table, d: Def, s: set<nat>, m: nat)
    requires Visited(w, Types(d), {}, s)
    ensures m in Modules(d) + ModulesIn(w, s) <==> Needed(w, d, m)
  {
    hide Next, Types, ReachedFrom, Modules, ModulesOf;
    if m in ModulesIn(w, s) {
      var t :| t in s && m in ModulesOf(w, t);
      VisitedIsReached(w, d, s, t);
      assert t < |w|;
    }
    if Needed(w, d, m) && m !in Modules(d) {
      var u: nat :| u < |w| && ReachedFrom(w, d, u) && m in ModulesOf(w, u);
      VisitedIsReached(w, d, s, u);
    }
  }

  class ModuleDef {
    const id: nat
    var dependencies: set<nat>

    constructor (id: nat)
      ensures this.id == id && dependencies == {}
    {
      this.id, dependencies := id, {};
    }

    /** A module is not its own dependency. */
    method AddDependency(other: nat)
      modifies this
      ensures dependencies == old(dependencies) + ({other} - {id})
    {
      if other != id && other !in dependencies {
        dependencies := dependencies + {other};
      }
    }
  }

  /** VarDef::Set, the types already dealt with. */
  class Set {
    var types: set<nat>

    constructor ()
      ensures types == {}
    {
      types := {};
    }
  }

  lemma MemberKnown(w: Table, t: nat, i: nat)
    requires Valid(w) && t < |w| && i < |w[t].members|
    ensures Known(w, w[t].members[i].def)
  {
  }

  /** TypeDef::addDependenciesTo. */
  method AddType(w: Table, t: nat, mod: ModuleDef, added: Set)
    requires Valid(w) && t < |w| && added.types <= All(w)
    modifies mod, added
    ensures Visited(w, {t}, old(added.types), added.types)
    ensures mod.dependencies == old(mod.dependencies) + (ModulesIn(w, added.types - old(added.types)) - {mod.id})
    decreases |All(w) - added.types|, 1
  {
    hide Valid, Visited, Types, Modules, Known, ModulesOf, ModulesIn, All, Gathered, AllModules, AllTypes, Visible;
    ghost var s0, d0 := added.types, mod.dependencies;
    if t in added.types {
      SeenBefore(w, t, s0);
      return;
    }
    added.types := added.types + {t};
    InAll(w, t);
    Shrinks(All(w), s0, t);
    mod.AddDependency(w[t].mod);
    ghost var s := added.types;
    var ms := w[t].members;
    assert ms[..0] == [] && ms[..|ms|] == ms;
    NoMembers();
    ghost var types, modules: set<nat> := {}, {w[t].mod};
    VisitedNothing(w, s);
    StartGathering(w, t, mod.dependencies, d0, mod.id, s);
    for i := 0 to |ms|
      invariant types == AllTypes(Visible(ms[..i])) && Visited(w, types, s, added.types)
      invariant s <= added.types <= All(w)
      invariant modules == {w[t].mod} + AllModules(Visible(ms[..i])) + ModulesIn(w, added.types - s)
      invariant Gathered(mod.dependencies, d0, modules, mod.id)
    {
      ghost var s1, d1 := added.types, mod.dependencies;
      VisibleNext(ms, i);
      MemberKnown(w, t, i);
      if !ms[i].hidden {
        Fewer(All(w), s, s1);
        AddDef(w, ms[i].def, mod, added);
        VisitedBoth(w, types, Types(ms[i].def), s, s1, added.types);
        VisitedWithin(w, Types(ms[i].def), s1, added.types);
        ModulesGrow(w, s, s1, added.types);
        ghost var more := Modules(ms[i].def) + ModulesIn(w, added.types - s1);
        Gather(d1, mod.dependencies, d0, modules, more, mod.id);
        Reorder({w[t].mod}, AllModules(Visible(ms[..i])), ModulesIn(w, s1 - s), Modules(ms[i].def),
          ModulesIn(w, added.types - s1));
        types, modules := types + Types(ms[i].def), modules + more;
      }
    }
    VisitedType(w, t, s0, added.types);
    OwnModules(w, t, s0, added.types);
    Gathering(mod.dependencies, d0, modules, mod.id);
  }

  lemma NoMembers()
    ensures AllTypes(Visible([])) == {}
  {
  }

  /** What has been added to `d0` so far. */
  ghost predicate Gathered(d: set<nat>, d0: set<nat>, modules: set<nat>, id: nat) {
    d == d0 + (modules - {id})
  }

  lemma Gathering(d: set<nat>, d0: set<nat>, modules: set<nat>, id: nat)
    ensures Gathered(d, d0, modules, id) <==> d == d0 + (modules - {id})
  {
  }

  lemma Gather(d: set<nat>, d': set<nat>, d0: set<nat>, modules: set<nat>, more: set<nat>, id: nat)
    requires Gathered(d, d0, modules, id) && d' == d + (more - {id})
    ensures Gathered(d', d0, modules + more, id)
  {
  }

  lemma StartGathering(w: Table, t: nat, d: set<nat>, d0: set<nat>, id: nat, s: set<nat>)
    requires t < |w| && d == d0 + ({w[t].mod} - {id}) && s <= All(w)
    ensures Gathered(d, d0, {w[t].mod}, id)
    ensures {w[t].mod} == {w[t].mod} + AllModules(Visible([])) + ModulesIn(w, s - s)
  {
  }

  lemma Reorder(a: set<nat>, b: set<nat>, c: set<nat>, d: set<nat>, e: set<nat>)
    ensures a + b + c + (d + e) == a + (b + d) + (c + e)
  {
  }

  lemma ModulesGrow(w: Table, s: set<nat>, s1: set<nat>, s2: set<nat>)
    requires s <= s1 <= s2 <= All(w)
    ensures ModulesIn(w, s2 - s) == ModulesIn(w, s1 - s) + ModulesIn(w, s2 - s1)
  {
    ModulesBoth(w, s1 - s, s2 - s1);
    assert s1 - s + (s2 - s1) == s2 - s;
  }

  lemma InAll(w: Table, t: nat)
    requires t < |w|
    ensures t in All(w)
  {
  }

  lemma VisitedWithin(w: Table, a: set<nat>, s0: set<nat>, s1: set<nat>)
    requires Visited(w, a, s0, s1)
    ensures s0 <= s1 <= All(w)
  {
  }

  lemma SeenBefore(w: Table, t: nat, s: set<nat>)
    requires t in s && s <= All(w)
    ensures Visited(w, {t}, s, s) && ModulesIn(w, s - s) == {}
  {
  }

  lemma OwnModules(w: Table, t: nat, s0: set<nat>, s2: set<nat>)
    requires t < |w| && t !in s0 && s0 + {t} <= s2 <= All(w)
    ensures {w[t].mod} + AllModules(Visible(w[t].members)) + ModulesIn(w, s2 - (s0 + {t})) == ModulesIn(w, s2 - s0)
  {
    assert s2 - s0 == {t} + (s2 - (s0 + {t}));
    ModulesBoth(w, {t}, s2 - (s0 + {t}));
    assert ModulesIn(w, {t}) == ModulesOf(w, t) by {
      forall m | m in ModulesOf(w, t) ensures m in ModulesIn(w, {t}) {
        assert t in {t} && m in ModulesOf(w, t);
      }
    }
  }

  lemma Shrinks(all: set<nat>, s: set<nat>, t: nat)
    requires t in all && t !in s
    ensures |all - (s + {t})| < |all - s|
  {
    assert all - s == (all - (s + {t})) + {t};
  }

  lemma Fewer(all: set<nat>, a: set<nat>, b: set<nat>)
    requires a <= b
    ensures |all - b| <= |all - a|
  {
    assert all - a == (all - b) + ((b - a) * all);
  }

  lemma {:induction false} VisibleNext(ms: seq<Member>, i: nat)
    requires i < |ms|
    ensures Visible(ms[..i + 1]) == Visible(ms[..i]) + if ms[i].hidden then [] else [ms[i].def]
    ensures AllTypes(Visible(ms[..i + 1])) == AllTypes(Visible(ms[..i])) + if ms[i].hidden then {} else Types(ms[i].def)
    ensures AllModules(Visible(ms[..i + 1])) == AllModules(Visible(ms[..i])) + if ms[i].hidden then {}
      else Modules(ms[i].def)
  {
    VisibleAppend(ms[..i], ms[i]);
    assert ms[..i + 1] == ms[..i] + [ms[i]];
    AllAppend(Visible(ms[..i]), ms[i].def);
    assert ms[i].hidden ==> Visible(ms[..i]) + [] == Visible(ms[..i]);
  }

  lemma {:induction false} VisibleAppend(ms: seq<Member>, m: Member)
    ensures Visible(ms + [m]) == Visible(ms) + if m.hidden then [] else [m.def]
    decreases |ms|
  {
    if ms == [] {
      assert ms + [m] == [m] && [m][1..] == [];
    } else {
      assert (ms + [m])[1..] == ms[1..] + [m];
      VisibleAppend(ms[1..], m);
    }
  }

  lemma {:induction false} AllAppend(ds: seq<Def>, d: Def)
    ensures AllTypes(ds + [d]) == AllTypes(ds) + Types(d) && AllModules(ds + [d]) == AllModules(ds) + Modules(d)
    decreases |ds|
  {
    if ds == [] {
      assert ds + [d] == [d] && [d][1..] == [];
    } else {
      assert (ds + [d])[1..] == ds[1..] + [d];
      AllAppend(ds[1..], d);
    }
  }

  lemma {:induction false} OneOfMany(ds: seq<Def>, i: nat)
    requires i < |ds|
    ensures Types(ds[i]) <= AllTypes(ds)
    decreases |ds|
  {
    if i > 0 {
      OneOfMany(ds[1..], i - 1);
    }
  }

  /** addDependenciesTo on any definition. */
  method AddDef(w: Table, d: Def, mod: ModuleDef, added: Set)
    requires Valid(w) && Known(w, d) && added.types <= All(w)
    modifies mod, added
    ensures Visited(w, Types(d), old(added.types), added.types)
    ensures mod.dependencies
         == old(mod.dependencies) + ((Modules(d) + ModulesIn(w, added.types - old(added.types))) - {mod.id})
    decreases |All(w) - added.types|, 2, d
  {
    hide Valid, Visited, ModulesOf, ModulesIn, All, Known;
    ghost var s0 := added.types;
    VisitedNothing(w, s0);
    NoModules(w, s0);
    match d
    case Type(t) =>
      KnownType(w, d, t);
      AddType(w, t, mod, added);
    case Var(m, ty, typed) =>
      mod.AddDependency(m);
      if typed {
        KnownType(w, d, ty);
        AddType(w, ty, mod, added);
      }
    case Func(_, _, _) => AddFunc(w, d, mod, added);
    case Overload(_) => AddOverload(w, d, mod, added);
  }

  lemma KnownType(w: Table, d: Def, t: nat)
    requires Known(w, d) && t in Types(d)
    ensures t < |w|
  {
  }

  lemma KnownFunc(w: Table, funcs: seq<Def>, i: nat)
    requires Known(w, Overload(funcs)) && i < |funcs|
    ensures Known(w, funcs[i])
  {
    OneOfMany(funcs, i);
    assert Types(Overload(funcs)) == AllTypes(funcs);
    forall t | t in Types(funcs[i]) ensures t < |w| {
      assert t in Types(Overload(funcs));
    }
  }

  /** FuncDef::addDependenciesTo. */
  method AddFunc(w: Table, d: Def, mod: ModuleDef, added: Set)
    requires Valid(w) && d.Func? && Known(w, d) && added.types <= All(w)
    modifies mod, added
    ensures Visited(w, Types(d), old(added.types), added.types)
    ensures mod.dependencies
         == old(mod.dependencies) + ((Modules(d) + ModulesIn(w, added.types - old(added.types))) - {mod.id})
    decreases |All(w) - added.types|, 2, d, 0
  {
    hide Valid, Visited, ModulesOf, ModulesIn, All, Gathered, Known, Elems;
    ghost var s0, d0 := added.types, mod.dependencies;
    mod.AddDependency(d.mod);
    KnownType(w, d, d.ret);
    AddType(w, d.ret, mod, added);
    VisitedWithin(w, {d.ret}, s0, added.types);
    var args := d.args;
    ghost var types, modules := {d.ret}, {d.mod} + ModulesIn(w, added.types - s0);
    assert args[..0] == [] && args[..|args|] == args;
    NoElems();
    Gathering(mod.dependencies, d0, modules, mod.id);
    for i := 0 to |args|
      invariant types == {d.ret} + Elems(args[..i]) && Visited(w, types, s0, added.types)
      invariant s0 <= added.types <= All(w) && modules == {d.mod} + ModulesIn(w, added.types - s0)
      invariant Gathered(mod.dependencies, d0, modules, mod.id)
    {
      ghost var s1, d1 := added.types, mod.dependencies;
      InElems(args, i);
      KnownType(w, d, args[i]);
      Fewer(All(w), s0, s1);
      AddType(w, args[i], mod, added);
      VisitedBoth(w, types, {args[i]}, s0, s1, added.types);
      VisitedWithin(w, {args[i]}, s1, added.types);
      ModulesGrow(w, s0, s1, added.types);
      Gather(d1, mod.dependencies, d0, modules, ModulesIn(w, added.types - s1), mod.id);
      OneMore(args, i);
      types, modules := types + {args[i]}, modules + ModulesIn(w, added.types - s1);
    }
    Gathering(mod.dependencies, d0, modules, mod.id);
  }

  lemma NoElems()
    ensures Elems([]) == {}
  {
  }

  lemma InElems(xs: seq<nat>, i: nat)
    requires i < |xs|
    ensures xs[i] in Elems(xs)
  {
  }

  /** OverloadDef::addDependenciesTo. */
  method AddOverload(w: Table, d: Def, mod: ModuleDef, added: Set)
    requires Valid(w) && d.Overload? && Known(w, d) && added.types <= All(w)
    modifies mod, added
    ensures Visited(w, Types(d), old(added.types), added.types)
    ensures mod.dependencies
         == old(mod.dependencies) + ((Modules(d) + ModulesIn(w, added.types - old(added.types))) - {mod.id})
    decreases |All(w) - added.types|, 2, d, 0
  {
    hide Valid, Visited, ModulesOf, ModulesIn, All, Gathered, Known, AllTypes, AllModules;
    ghost var s0, d0 := added.types, mod.dependencies;
    VisitedNothing(w, s0);
    NoModules(w, s0);
    NoDefs();
    var funcs := d.funcs;
    ghost var types, modules: set<nat> := {}, {};
    assert funcs[..0] == [] && funcs[..|funcs|] == funcs;
    Gathering(mod.dependencies, d0, modules, mod.id);
    for i := 0 to |funcs|
      invariant types == AllTypes(funcs[..i]) && Visited(w, types, s0, added.types)
      invariant s0 <= added.types <= All(w) && modules == AllModules(funcs[..i]) + ModulesIn(w, added.types - s0)
      invariant Gathered(mod.dependencies, d0, modules, mod.id)
    {
      ghost var s1, d1 := added.types, mod.dependencies;
      KnownFunc(w, funcs, i);
      Fewer(All(w), s0, s1);
      AddDef(w, funcs[i], mod, added);
      AllAppend(funcs[..i], funcs[i]);
      assert funcs[..i + 1] == funcs[..i] + [funcs[i]];
      VisitedBoth(w, types, Types(funcs[i]), s0, s1, added.types);
      VisitedWithin(w, Types(funcs[i]), s1, added.types);
      ModulesGrow(w, s0, s1, added.types);
      ghost var more := Modules(funcs[i]) + ModulesIn(w, added.types - s1);
      Gather(d1, mod.dependencies, d0, modules, more, mod.id);
      Reorder({}, AllModules(funcs[..i]), ModulesIn(w, s1 - s0), Modules(funcs[i]), ModulesIn(w, added.types - s1));
      types, modules := types + Types(funcs[i]), modules + more;
    }
    Gathering(mod.dependencies, d0, modules, mod.id);
  }

  lemma NoDefs()
    ensures AllTypes([]) == {} && AllModules([]) == {}
  {
  }

  lemma NoModules(w: Table, s: set<nat>)
    requires s <= All(w)
    ensures ModulesIn(w, s - s) == {}
  {
  }

  lemma OneMore(xs: seq<nat>, i: nat)
    requires i < |xs|
    ensures Elems(xs[..i + 1]) == Elems(xs[..i]) + {xs[i]}
  {
  }

  /** Context::emitImport (model/Context.cc:778), for one imported symbol: it terminates on every type
      graph, cycles included, and adds exactly the modules needed, the importing one excepted. */
  method AddDependenciesOf(w: Table, d: Def, mod: ModuleDef)
    requires Valid(w) && Known(w, d)
    modifies mod
    ensures forall m: nat :: m in mod.dependencies <==> m in old(mod.dependencies) || (m != mod.id && Needed(w, d, m))
  {
    hide Valid, Visited, Needed, ModulesOf;
    var added := new Set();
    AddDef(w, d, mod, added);
    assert added.types - {} == added.types;
    VisitedWithin(w, Types(d), {}, added.types);
    forall m: nat ensures m in Modules(d) + ModulesIn(w, added.types) <==> Needed(w, d, m) {
      VisitedAll(w, d, added.types, m);
    }
  }
}
