/** Name lookup and wholesale aliasing between namespaces (model/Namespace.cc). */
module Namespaces {
  import opened Overloads
  import Inheritance

  datatype Name = Name(id: nat)

  /** A definition: an overload, or anything else by identity. */
  datatype Def = Other(id: nat) | Group(o: Overload)

  /** A namespace's own definitions, in the order of its map, and its parents, in order.  No namespace
      is its own ancestor: parents come earlier in the table. */
  datatype Namespace = Namespace(names: seq<Name>, defs: map<Name, Def>, parents: seq<nat>)

  type Table = seq<Namespace>

  ghost predicate Valid(w: Table) {
    && (forall n, i :: 0 <= n < |w| && 0 <= i < |w[n].parents| ==> w[n].parents[i] < n)
    && forall n :: 0 <= n < |w| ==> Listed(w[n])
  }

  ghost predicate Listed(n: Namespace) {
    (forall x :: x in n.defs <==> x in n.names) && forall i, j :: 0 <= i < j < |n.names| ==> n.names[i] != n.names[j]
  }

  ghost predicate Known(w: Table, ns: seq<nat>, bound: nat) {
    Valid(w) && bound <= |w| && forall i :: 0 <= i < |ns| ==> ns[i] < bound
  }

  /** Namespace::lookUp: own definitions, then the parents in order, depth first. */
  function LookUp(w: Table, n: nat, x: Name): Option<Def>
    requires Valid(w) && n < |w|
    decreases n, 1, 0
  {
    if x in w[n].defs then Some(w[n].defs[x]) else LookUpIn(w, w[n].parents, n, x)
  }

  function LookUpIn(w: Table, ns: seq<nat>, bound: nat, x: Name): Option<Def>
    requires Known(w, ns, bound)
    decreases bound, 0, |ns|
  {
    if ns == [] then None
    else
      var d := LookUp(w, ns[0], x);
      if d.Some? then d else LookUpIn(w, ns[1..], bound, x)
  }

  /** A way upwards: which parent to take at each step. */
  predicate Leads(w: Table, n: nat, way: seq<nat>)
    requires Valid(w) && n < |w|
    decreases |way|
  {
    way == [] || (way[0] < |w[n].parents| && Leads(w, w[n].parents[way[0]], way[1..]))
  }

  function Reached(w: Table, n: nat, way: seq<nat>): (m: nat)
    requires Valid(w) && n < |w| && Leads(w, n, way)
    ensures m < |w|
    decreases |way|
  {
    if way == [] then n else Reached(w, w[n].parents[way[0]], way[1..])
  }

  ghost predicate Defines(w: Table, n: nat, way: seq<nat>, x: Name)
    requires Valid(w) && n < |w|
  {
    Leads(w, n, way) && x in w[Reached(w, n, way)].defs
  }

  /** A name is what the first namespace to define it says, own definitions before all parents and the
      parents in their order; it is nothing if and only if none defines it. */
  lemma {:induction false} LookUpIsEarliest(w: Table, n: nat, x: Name) returns (p: seq<nat>)
    requires Valid(w) && n < |w|
    ensures LookUp(w, n, x).Some? ==>
      && Defines(w, n, p, x) && LookUp(w, n, x) == Some(w[Reached(w, n, p)].defs[x])
      && forall q {:trigger Defines(w, n, q, x)} :: Defines(w, n, q, x) ==> Inheritance.NoLater(p, q)
    ensures LookUp(w, n, x).None? ==> forall q :: !Defines(w, n, q, x)
    decreases n, 1, 0
  {
    hide LookUpIn, Listed;
    if x in w[n].defs {
      p := [];
    } else {
      var i, rest := EarliestIn(w, w[n].parents, n, x);
      p := [i] + rest;
      assert p[1..] == rest;
      forall q | Defines(w, n, q, x) ensures LookUp(w, n, x).Some? && Inheritance.NoLater(p, q) {
        var j := q[0];
        assert Defines(w, w[n].parents[j], q[1..], x);
        assert i < j || (i == j && Inheritance.NoLater(p[1..], q[1..]));
      }
    }
  }

  lemma {:induction false} EarliestIn(w: Table, ns: seq<nat>, bound: nat, x: Name) returns (i: nat, p: seq<nat>)
    requires Known(w, ns, bound)
    ensures LookUpIn(w, ns, bound, x).Some? ==>
      && i < |ns| && Defines(w, ns[i], p, x) && LookUpIn(w, ns, bound, x) == Some(w[Reached(w, ns[i], p)].defs[x])
      && forall j, q {:trigger Defines(w, ns[j], q, x)} :: 0 <= j < |ns| && Defines(w, ns[j], q, x) ==>
           i < j || (i == j && Inheritance.NoLater(p, q))
    ensures LookUpIn(w, ns, bound, x).None? ==> forall j, q :: 0 <= j < |ns| ==> !Defines(w, ns[j], q, x)
    decreases bound, 0, |ns|
  {
    hide LookUp, Defines, Inheritance.NoLater, Listed;
    i, p := 0, [];
    if ns != [] {
      p := LookUpIsEarliest(w, ns[0], x);
      if LookUp(w, ns[0], x).None? {
        var k, rest := EarliestIn(w, ns[1..], bound, x);
        i, p := k + 1, rest;
        forall j, q | 0 <= j < |ns| && Defines(w, ns[j], q, x)
          ensures LookUpIn(w, ns, bound, x).Some? && (i < j || (i == j && Inheritance.NoLater(p, q)))
        {
          assert j > 0 && Defines(w, ns[1..][j - 1], q, x);
        }
      }
    }
  }

  /** What an alias of a definition is: overloads are flattened into one of the namespace's own. */
  function AliasOf(d: Def): Def {
    if d.Group? then Group(Alias(d.o)) else d
  }

  function AliasOfSome(d: Option<Def>): Option<Def> {
    if d.Some? then Some(AliasOf(d.value)) else None
  }

  /** Aliasing keeps what matters: the same definition, or one that answers every exact-signature
      question as the original does if no function is deleted. */
  lemma AliasAnswersAlike(d: Def, sig: seq<Type>)
    ensures d.Other? ==> AliasOf(d) == d
    ensures d.Group? ==>
      && AliasOf(d).Group?
      && (SigMatch(AliasOf(d).o, sig).Some? ==> SigMatch(AliasOf(d).o, sig) == SigMatch(d.o, sig))
      && ((forall f :: f in Flatten(d.o) ==> !f.deleted) ==> SigMatch(AliasOf(d).o, sig) == SigMatch(d.o, sig))
  {
    if d.Group? {
      AliasAgreesIff(d.o, sig);
    }
  }

  /** The namespace that receives the aliases; the table is everything else. */
  class Target {
    var defs: map<Name, Def>
    const parents: seq<nat>

    constructor (parents: seq<nat>)
      ensures this.parents == parents && defs == map[]
    {
      this.parents, defs := parents, map[];
    }

    ghost function Sees(w: Table, x: Name): Option<Def>
      requires Known(w, parents, |w|)
      reads this
    {
      if x in defs then Some(defs[x]) else LookUpIn(w, parents, |w|, x)
    }

    method Find(w: Table, x: Name) returns (d: Option<Def>)
      requires Known(w, parents, |w|)
      ensures d == Sees(w, x)
    {
      if x in defs {
        return Some(defs[x]);
      }
      d := Search(w, parents, |w|, x);
    }

    /** addAlias under a name. */
    method AddAlias(x: Name, d: Def)
      modifies this
      ensures defs == old(defs)[x := AliasOf(d)]
    {
      match d {
        case Group(o) =>
          var child := CreateAlias(o);
          defs := defs[x := Group(child)];
        case Other(_) => defs := defs[x := d];
      }
    }

    /** aliasAll: afterwards every name this namespace already resolved is unchanged, and every other
        name resolves to an alias of what the other namespace's own recursive lookup gives. */
    method AliasAll(w: Table, other: nat)
      requires Known(w, parents, |w|) && other < |w|
      modifies this
      ensures forall x :: Sees(w, x) == if old(Sees(w, x)).Some? then old(Sees(w, x))
        else AliasOfSome(LookUp(w, other, x))
      ensures forall x :: x in old(defs) ==> x in defs && defs[x] == old(defs)[x]
      decreases other
    {
      hide Valid, LookUpIn, LookUp, AliasOf;
      var names, own := w[other].names, w[other].defs;
      OwnNames(w, other);
      for i := 0 to |names|
        invariant forall x :: Sees(w, x) == AfterOwn(old(Sees(w, x)), own, names[..i], x)
        invariant forall x :: x in old(defs) ==> x in defs && defs[x] == old(defs)[x]
      {
        assert names[..i + 1] == names[..i] + [names[i]];
        assert names[i] !in names[..i];
        var d := Find(w, names[i]);
        if d.None? {
          AddAlias(names[i], own[names[i]]);
        }
      }
      assert names[..|names|] == names;
      label Own:
      var ps := w[other].parents;
      assert ps[0..] == ps;
      ParentsKnown(w, other);
      for i := 0 to |ps|
        invariant forall x :: Then(w, Sees(w, x), ps[i..], other, x) == Then(w, old@Own(Sees(w, x)), ps, other, x)
        invariant forall x :: x in old(defs) ==> x in defs && defs[x] == old(defs)[x]
      {
        label Before:
        assert ps[i..][0] == ps[i] && ps[i..][1..] == ps[i + 1..];
        AliasAll(w, ps[i]);
        forall x ensures Then(w, Sees(w, x), ps[i + 1..], other, x) ==
          Then(w, old@Before(Sees(w, x)), ps[i..], other, x) {
          NextParent(w, old@Before(Sees(w, x)), ps[i..], other, x);
        }
      }
      forall x
        ensures Sees(w, x) == if old(Sees(w, x)).Some? then old(Sees(w, x)) else AliasOfSome(LookUp(w, other, x))
      {
        NoMore(w, Sees(w, x), other, x);
        Whole(w, old(Sees(w, x)), other, x);
        assert Then(w, Sees(w, x), [], other, x) == Then(w, old@Own(Sees(w, x)), ps, other, x);
      }
    }
  }

  /** What a name resolves to once the listed own definitions have been aliased. */
  function AfterOwn(before: Option<Def>, own: map<Name, Def>, names: seq<Name>, x: Name): Option<Def> {
    if before.Some? then before else if x in names && x in own then Some(AliasOf(own[x])) else None
  }

  /** ... and once some more namespaces have been aliased. */
  ghost function Then(w: Table, now: Option<Def>, ns: seq<nat>, bound: nat, x: Name): Option<Def>
    requires Known(w, ns, bound)
  {
    if now.Some? then now else AliasOfSome(LookUpIn(w, ns, bound, x))
  }

  lemma OwnNames(w: Table, n: nat)
    requires Valid(w) && n < |w|
    ensures forall x :: x in w[n].defs <==> x in w[n].names
    ensures forall i, j :: 0 <= i < j < |w[n].names| ==> w[n].names[i] != w[n].names[j]
  {
    assert Listed(w[n]);
  }

  lemma ParentsKnown(w: Table, n: nat)
    requires Valid(w) && n < |w|
    ensures Known(w, w[n].parents, n)
  {
  }

  lemma NextParent(w: Table, now: Option<Def>, ns: seq<nat>, bound: nat, x: Name)
    requires Known(w, ns, bound) && ns != []
    ensures Then(w, if now.Some? then now else AliasOfSome(LookUp(w, ns[0], x)), ns[1..], bound, x) ==
      Then(w, now, ns, bound, x)
  {
    hide LookUp;
  }

  lemma NoMore(w: Table, now: Option<Def>, bound: nat, x: Name)
    requires Known(w, [], bound)
    ensures Then(w, now, [], bound, x) == now
  {
  }

  lemma Whole(w: Table, before: Option<Def>, n: nat, x: Name)
    requires Valid(w) && n < |w|
    ensures Known(w, w[n].parents, n)
    ensures Then(w, AfterOwn(before, w[n].defs, w[n].names, x), w[n].parents, n, x)
         == if before.Some? then before else AliasOfSome(LookUp(w, n, x))
  {
    hide LookUpIn;
    assert Listed(w[n]);
  }

  /** The loop of lookUp over the parents. */
  method Search(w: Table, ns: seq<nat>, bound: nat, x: Name) returns (d: Option<Def>)
    requires Known(w, ns, bound)
    ensures d == LookUpIn(w, ns, bound, x)
    decreases bound, 0
  {
    assert ns[0..] == ns;
    for i := 0 to |ns|
      invariant LookUpIn(w, ns[i..], bound, x) == LookUpIn(w, ns, bound, x)
    {
      assert ns[i..][0] == ns[i] && ns[i..][1..] == ns[i + 1..];
      d := FindIn(w, ns[i], x);
      if d.Some? {
        return d;
      }
    }
    d := None;
  }

  method FindIn(w: Table, n: nat, x: Name) returns (d: Option<Def>)
    requires Valid(w) && n < |w|
    ensures d == LookUp(w, n, x)
    decreases n, 1
  {
    if x in w[n].defs {
      return Some(w[n].defs[x]);
    }
    d := Search(w, w[n].parents, n, x);
  }
}
