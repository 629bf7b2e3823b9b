/**
 * Unique-path inheritance (model/TypeDef.cc): the ancestor list a base list must pass, the derivation
 * tests, and the path to an ancestor.
 */
module Inheritance {

  datatype Option<+T> = None | Some(value: T)

  /** The classes declared so far: a class comes after its parents.  `pointer` is false for the
      primitive classes. */
  datatype Classes = Classes(parents: seq<seq<nat>>, pointer: seq<bool>, vtableBase: nat, objectType: nat)

  predicate Valid(g: Classes) {
    && |g.pointer| == |g.parents| && g.vtableBase < |g.parents| && g.objectType < |g.parents|
    && g.objectType != g.vtableBase
    && (forall t, i :: 0 <= t < |g.parents| && 0 <= i < |g.parents[t]| ==> g.parents[t][i] < t)
    && g.parents[g.vtableBase] == []
    && forall i :: 0 <= i < |g.parents[g.objectType]| ==> g.parents[g.objectType][i] == g.vtableBase
  }

  predicate Class(g: Classes, t: nat) {
    Valid(g) && t < |g.parents|
  }

  /** Bases of a class, or of one about to be declared. */
  predicate Bases(g: Classes, bound: nat, ts: seq<nat>) {
    Valid(g) && bound <= |g.parents| && forall i :: 0 <= i < |ts| ==> ts[i] < bound
  }

  // ----- addToAncestors -----

  /** Every class met on some path upwards, VTableBase excepted: parents first, once per path. */
  function Expand(g: Classes, t: nat): seq<nat>
    requires Class(g, t)
    decreases t, 1, 0
  {
    if t == g.vtableBase then [] else ExpandAll(g, t, g.parents[t]) + [t]
  }

  function ExpandAll(g: Classes, bound: nat, ts: seq<nat>): seq<nat>
    requires Bases(g, bound, ts)
    decreases bound, 0, |ts|
  {
    if ts == [] then [] else Expand(g, ts[0]) + ExpandAll(g, bound, ts[1..])
  }

  /** TypeDef::addToAncestors on the list so far; None for an error. */
  function Added(g: Classes, t: nat, ancestors: seq<nat>): Option<seq<nat>>
    requires Class(g, t)
    decreases t, 1, 0
  {
    if t == g.vtableBase then Some(ancestors)
    else if !g.pointer[t] then None
    else if ancestors != [] && t == g.objectType then None
    else
      match AddAll(g, t, g.parents[t], ancestors)
      case None => None
      case Some(all) => if t in ancestors then None else Some(all + [t])
  }

  function AddAll(g: Classes, bound: nat, ts: seq<nat>, ancestors: seq<nat>): Option<seq<nat>>
    requires Bases(g, bound, ts)
    decreases bound, 0, |ts|
  {
    if ts == [] then Some(ancestors)
    else
      match Added(g, ts[0], ancestors)
      case None => None
      case Some(all) => AddAll(g, bound, ts[1..], all)
  }

  predicate Distinct(xs: seq<nat>) {
    forall i, j :: 0 <= i < j < |xs| ==> xs[i] != xs[j]
  }

  /** What a base list must satisfy: no primitive class, no class twice, and Object only in front. */
  predicate Admissible(g: Classes, before: seq<nat>, added: seq<nat>)
    requires Valid(g)
  {
    && (forall i :: 0 <= i < |added| ==> added[i] < |g.pointer| && g.pointer[added[i]])
    && Distinct(before + added)
    && (g.objectType in added ==> before == [] && added[0] == g.objectType)
  }

  lemma AdmissibleSplit(g: Classes, before: seq<nat>, a: seq<nat>, b: seq<nat>)
    requires Valid(g)
    ensures Admissible(g, before, a + b) <==> Admissible(g, before, a) && Admissible(g, before + a, b)
  {
    var all := before + (a + b);
    assert all == before + a + b;
    if Admissible(g, before, a + b) {
      assert forall i :: 0 <= i < |a| ==> (a + b)[i] == a[i];
      assert forall i :: 0 <= i < |b| ==> (a + b)[|a| + i] == b[i];
      assert Distinct(before + a) by {
        assert forall i :: 0 <= i < |before + a| ==> (before + a)[i] == all[i];
      }
      if g.objectType in b {
        var k :| 0 <= k < |b| && b[k] == g.objectType;
        assert (a + b)[|a| + k] == g.objectType;
        assert all[0] == all[|before| + |a| + k];
        assert a == [];
      }
    }
  }

  lemma {:induction false} ExpandBelow(g: Classes, t: nat)
    requires Class(g, t)
    ensures forall x :: x in Expand(g, t) ==> x <= t
    decreases t, 1, 0
  {
    if t != g.vtableBase {
      ExpandAllBelow(g, t, g.parents[t]);
    }
  }

  lemma {:induction false} ExpandAllBelow(g: Classes, bound: nat, ts: seq<nat>)
    requires Bases(g, bound, ts)
    ensures forall x :: x in ExpandAll(g, bound, ts) ==> x < bound
    decreases bound, 0, |ts|
  {
    if ts != [] {
      ExpandBelow(g, ts[0]);
      ExpandAllBelow(g, bound, ts[1..]);
    }
  }

  /** The bases of Object add nothing. */
  lemma {:induction false} VTableAddsNothing(g: Classes, bound: nat, ts: seq<nat>)
    requires Bases(g, bound, ts) && forall i :: 0 <= i < |ts| ==> ts[i] == g.vtableBase
    ensures ExpandAll(g, bound, ts) == []
    decreases |ts|
  {
    if ts != [] {
      VTableAddsNothing(g, bound, ts[1..]);
    }
  }

  /** Exactly the admissible classes are added, with all their ancestors. */
  lemma {:induction false} AddedIff(g: Classes, t: nat, ancestors: seq<nat>)
    requires Class(g, t) && Distinct(ancestors)
    ensures Added(g, t, ancestors)
         == if Admissible(g, ancestors, Expand(g, t)) then Some(ancestors + Expand(g, t)) else None
    decreases t, 1, 0
  {
    hide Admissible, Distinct;
    if t == g.vtableBase {
      assert ancestors + [] == ancestors;
      NothingAdded(g, ancestors);
    } else {
      var up := ExpandAll(g, t, g.parents[t]);
      ExpandAllBelow(g, t, g.parents[t]);
      AllAddedIff(g, t, g.parents[t], ancestors);
      AdmissibleSplit(g, ancestors, up, [t]);
      if t == g.objectType {
        VTableAddsNothing(g, t, g.parents[t]);
      }
      OneAdded(g, ancestors, up, t);
      assert ancestors + up + [t] == ancestors + (up + [t]);
    }
  }

  /** Spelled out: a class is refused if and only if a primitive class, a class already listed, a class met
      twice, or Object anywhere but in front is among what it brings along. */
  lemma RefusedIff(g: Classes, t: nat, ancestors: seq<nat>)
    requires Class(g, t) && Distinct(ancestors)
    ensures var added := Expand(g, t);
      Added(g, t, ancestors).None? <==>
        || (exists i :: 0 <= i < |added| && (added[i] >= |g.pointer| || !g.pointer[added[i]]))
        || (exists i, j :: 0 <= i < |ancestors| && 0 <= j < |added| && ancestors[i] == added[j])
        || (exists i, j :: 0 <= i < j < |added| && added[i] == added[j])
        || (g.objectType in added && (ancestors != [] || added[0] != g.objectType))
  {
    hide Expand, Added;
    AddedIff(g, t, ancestors);
    var added := Expand(g, t);
    var all := ancestors + added;
    forall i, j | 0 <= i < |ancestors| && 0 <= j < |added| && ancestors[i] == added[j] ensures !Distinct(all) {
      assert all[i] == all[|ancestors| + j];
    }
    forall i, j | 0 <= i < j < |added| && added[i] == added[j] ensures !Distinct(all) {
      assert all[|ancestors| + i] == all[|ancestors| + j];
    }
  }

  lemma NothingAdded(g: Classes, ancestors: seq<nat>)
    requires Valid(g) && Distinct(ancestors)
    ensures Admissible(g, ancestors, [])
  {
    assert ancestors + [] == ancestors;
  }

  lemma OneAdded(g: Classes, ancestors: seq<nat>, up: seq<nat>, t: nat)
    requires Class(g, t) && t !in up && (t == g.objectType ==> up == [])
    ensures Admissible(g, ancestors, up) ==>
      (Admissible(g, ancestors + up, [t]) <==>
        g.pointer[t] && t !in ancestors && (t == g.objectType ==> ancestors == []))
  {
    var all := ancestors + up;
    assert t in all <==> t in ancestors;
    if t in all {
      var k :| 0 <= k < |all| && all[k] == t;
      assert (all + [t])[k] == (all + [t])[|all|];
    } else if Admissible(g, ancestors, up) {
      assert Distinct(all + [t]);
    }
    assert [t][0] == t && g.objectType in [t] <==> t == g.objectType;
  }

  lemma {:induction false} AllAddedIff(g: Classes, bound: nat, ts: seq<nat>, ancestors: seq<nat>)
    requires Bases(g, bound, ts) && Distinct(ancestors)
    ensures AddAll(g, bound, ts, ancestors)
         == if Admissible(g, ancestors, ExpandAll(g, bound, ts)) then Some(ancestors + ExpandAll(g, bound, ts))
           else None
    decreases bound, 0, |ts|
  {
    hide Admissible, Distinct;
    if ts == [] {
      assert ancestors + [] == ancestors;
      NothingAdded(g, ancestors);
    } else {
      var first, rest := Expand(g, ts[0]), ExpandAll(g, bound, ts[1..]);
      AddedIff(g, ts[0], ancestors);
      AdmissibleSplit(g, ancestors, first, rest);
      if Admissible(g, ancestors, first) {
        StillDistinct(g, ancestors, first);
        AllAddedIff(g, bound, ts[1..], ancestors + first);
        assert ancestors + first + rest == ancestors + (first + rest);
      }
    }
  }

  lemma StillDistinct(g: Classes, before: seq<nat>, added: seq<nat>)
    requires Valid(g) && Admissible(g, before, added)
    ensures Distinct(before + added)
  {
  }

  // ----- Paths -----

  /** In what is added, every parent but VTableBase stands before the class that has it. */
  lemma {:induction false} ParentsFirst(g: Classes, t: nat, k: nat, p: nat)
    requires Class(g, t) && k < |Expand(g, t)| && p != g.vtableBase
    requires Expand(g, t)[k] < |g.parents| && p in g.parents[Expand(g, t)[k]]
    ensures p in Expand(g, t)[..k]
    decreases t, 1, 0
  {
    var all := ExpandAll(g, t, g.parents[t]);
    if k < |all| {
      ParentsFirstAll(g, t, g.parents[t], k, p);
      assert Expand(g, t)[..k] == all[..k];
    } else {
      var i :| 0 <= i < |g.parents[t]| && g.parents[t][i] == p;
      EachExpanded(g, t, g.parents[t], i);
      assert Expand(g, t)[..k] == all;
    }
  }

  lemma {:induction false} ParentsFirstAll(g: Classes, bound: nat, ts: seq<nat>, k: nat, p: nat)
    requires Bases(g, bound, ts) && k < |ExpandAll(g, bound, ts)| && p != g.vtableBase
    requires ExpandAll(g, bound, ts)[k] < |g.parents| && p in g.parents[ExpandAll(g, bound, ts)[k]]
    ensures p in ExpandAll(g, bound, ts)[..k]
    decreases bound, 0, |ts|
  {
    hide Expand;
    var one, rest := Expand(g, ts[0]), ExpandAll(g, bound, ts[1..]);
    if k < |one| {
      ParentsFirst(g, ts[0], k, p);
      assert (one + rest)[..k] == one[..k];
    } else {
      ParentsFirstAll(g, bound, ts[1..], k - |one|, p);
      assert (one + rest)[..k] == one + rest[..k - |one|];
    }
  }

  /** A base is in what its base list adds. */
  lemma {:induction false} EachExpanded(g: Classes, bound: nat, ts: seq<nat>, i: nat)
    requires Bases(g, bound, ts) && i < |ts| && ts[i] != g.vtableBase
    ensures ts[i] in ExpandAll(g, bound, ts)
    decreases |ts|
  {
    if i > 0 {
      EachExpanded(g, bound, ts[1..], i - 1);
    } else {
      assert ts[0] in Expand(g, ts[0]);
    }
  }

  /** A path: which parent to take at each step. */
  predicate Walks(g: Classes, t: nat, path: seq<nat>)
    requires Class(g, t)
    decreases |path|
  {
    path == [] || (path[0] < |g.parents[t]| && Walks(g, g.parents[t][path[0]], path[1..]))
  }

  function End(g: Classes, t: nat, path: seq<nat>): (e: nat)
    requires Class(g, t) && Walks(g, t, path)
    ensures Class(g, e)
    decreases |path|
  {
    if path == [] then t else End(g, g.parents[t][path[0]], path[1..])
  }

  /** Where in Expand(t) the end of a path stands. */
  function Position(g: Classes, t: nat, path: seq<nat>): int
    requires Class(g, t) && Walks(g, t, path)
    decreases |path|
  {
    if path == [] then |Expand(g, t)| - 1
    else |ExpandAll(g, t, g.parents[t][..path[0]])| + Position(g, g.parents[t][path[0]], path[1..])
  }

  lemma {:induction false} ExpandAllSplit(g: Classes, bound: nat, a: seq<nat>, b: seq<nat>)
    requires Bases(g, bound, a) && Bases(g, bound, b)
    ensures Bases(g, bound, a + b) && ExpandAll(g, bound, a + b) == ExpandAll(g, bound, a) + ExpandAll(g, bound, b)
    decreases |a|
  {
    if a == [] {
      assert a + b == b;
    } else {
      assert (a + b)[1..] == a[1..] + b;
      ExpandAllSplit(g, bound, a[1..], b);
      assert Expand(g, a[0]) + (ExpandAll(g, bound, a[1..]) + ExpandAll(g, bound, b))
          == Expand(g, a[0]) + ExpandAll(g, bound, a[1..]) + ExpandAll(g, bound, b);
    }
  }

  /** Expand(t) around the part that parent i contributes. */
  lemma Around(g: Classes, t: nat, i: nat)
    requires Class(g, t) && t != g.vtableBase && i < |g.parents[t]|
    ensures var ps := g.parents[t];
      Bases(g, t, ps[..i]) && Bases(g, t, ps[i + 1..])
      && Expand(g, t) == ExpandAll(g, t, ps[..i]) + Expand(g, ps[i]) + (ExpandAll(g, t, ps[i + 1..]) + [t])
  {
    hide Expand, ExpandAll;
    var ps := g.parents[t];
    assert ps == ps[..i] + ([ps[i]] + ps[i + 1..]);
    ExpandAllSplit(g, t, ps[..i], [ps[i]] + ps[i + 1..]);
    ExpandAllSplit(g, t, [ps[i]], ps[i + 1..]);
    ExpandOne(g, t, ps[i]);
    ExpandStep(g, t);
    Regroup(ExpandAll(g, t, ps[..i]), Expand(g, ps[i]), ExpandAll(g, t, ps[i + 1..]), [t]);
  }

  lemma Regroup(a: seq<nat>, b: seq<nat>, c: seq<nat>, d: seq<nat>)
    ensures a + (b + c) + d == a + b + (c + d)
  {
  }

  lemma ExpandStep(g: Classes, t: nat)
    requires Class(g, t) && t != g.vtableBase
    ensures Expand(g, t) == ExpandAll(g, t, g.parents[t]) + [t]
  {
  }

  lemma ExpandOne(g: Classes, bound: nat, t: nat)
    requires Bases(g, bound, [t]) && Class(g, t)
    ensures ExpandAll(g, bound, [t]) == Expand(g, t)
  {
    hide Expand;
    assert [t][1..] == [] && Expand(g, t) + [] == Expand(g, t);
  }

  lemma {:induction false} PositionHoldsEnd(g: Classes, t: nat, path: seq<nat>)
    requires Class(g, t) && Walks(g, t, path) && End(g, t, path) != g.vtableBase
    ensures 0 <= Position(g, t, path) < |Expand(g, t)| && Expand(g, t)[Position(g, t, path)] == End(g, t, path)
    ensures t != g.vtableBase
    decreases |path|
  {
    if path != [] {
      PositionHoldsEnd(g, g.parents[t][path[0]], path[1..]);
      Around(g, t, path[0]);
    }
  }

  lemma {:induction false} PositionIsUnique(g: Classes, t: nat, p: seq<nat>, q: seq<nat>)
    requires Class(g, t) && Walks(g, t, p) && Walks(g, t, q)
    requires End(g, t, p) != g.vtableBase && End(g, t, q) != g.vtableBase && Position(g, t, p) == Position(g, t, q)
    ensures p == q
    decreases |p|
  {
    PositionHoldsEnd(g, t, p);
    if p != [] && q != [] {
      PositionHoldsEnd(g, g.parents[t][p[0]], p[1..]);
      PositionHoldsEnd(g, g.parents[t][q[0]], q[1..]);
      if p[0] != q[0] {
        Apart(g, t, if p[0] < q[0] then p[0] else q[0], if p[0] < q[0] then q[0] else p[0]);
      }
      PositionIsUnique(g, g.parents[t][p[0]], p[1..], q[1..]);
      assert p == [p[0]] + p[1..] && q == [q[0]] + q[1..];
    } else if p != [] {
      PositionHoldsEnd(g, g.parents[t][p[0]], p[1..]);
      Around(g, t, p[0]);
    } else if q != [] {
      PositionHoldsEnd(g, g.parents[t][q[0]], q[1..]);
      Around(g, t, q[0]);
    }
  }

  /** The parts of two parents do not overlap. */
  lemma Apart(g: Classes, t: nat, i: nat, j: nat)
    requires Class(g, t) && i < j < |g.parents[t]|
    ensures var ps := g.parents[t];
      Bases(g, t, ps[..i]) && Bases(g, t, ps[..j])
      && |ExpandAll(g, t, ps[..i])| + |Expand(g, ps[i])| <= |ExpandAll(g, t, ps[..j])|
  {
    hide Expand, ExpandAll;
    var ps := g.parents[t];
    assert ps[..j] == ps[..i] + ([ps[i]] + ps[i + 1..j]);
    ExpandAllSplit(g, t, ps[..i], [ps[i]] + ps[i + 1..j]);
    ExpandAllSplit(g, t, [ps[i]], ps[i + 1..j]);
    ExpandOne(g, t, ps[i]);
  }

  /** If a class's base list was admitted, there is at most one path to each ancestor but VTableBase. */
  lemma PathsAreUnique(g: Classes, t: nat, ancestors: seq<nat>, p: seq<nat>, q: seq<nat>)
    requires Class(g, t) && Distinct(ancestors) && Added(g, t, ancestors).Some?
    requires Walks(g, t, p) && Walks(g, t, q) && End(g, t, p) == End(g, t, q) != g.vtableBase
    ensures p == q
  {
    hide Added, Expand;
    AddedIff(g, t, ancestors);
    PositionHoldsEnd(g, t, p);
    PositionHoldsEnd(g, t, q);
    var all, xs := ancestors + Expand(g, t), Expand(g, t);
    assert all[|ancestors| + Position(g, t, p)] == all[|ancestors| + Position(g, t, q)];
    PositionIsUnique(g, t, p, q);
  }

  // ----- Derivation -----

  /** TypeDef::isDerivedFrom. */
  predicate IsDerivedFrom(g: Classes, t: nat, other: nat)
    requires Class(g, t)
    decreases t
  {
    t == other || exists i :: 0 <= i < |g.parents[t]| && IsDerivedFrom(g, g.parents[t][i], other)
  }

  /** The first path found depth first (TypeDef::getPathToAncestor). */
  function FindPath(g: Classes, t: nat, ancestor: nat): Option<seq<nat>>
    requires Class(g, t)
    decreases t, 1, 0
  {
    if t == ancestor then Some([]) else FindFrom(g, t, 0, ancestor)
  }

  function FindFrom(g: Classes, t: nat, i: nat, ancestor: nat): Option<seq<nat>>
    requires Class(g, t) && i <= |g.parents[t]|
    decreases t, 0, |g.parents[t]| - i
  {
    if i == |g.parents[t]| then None
    else
      match FindPath(g, g.parents[t][i], ancestor)
      case Some(path) => Some([i] + path)
      case None => FindFrom(g, t, i + 1, ancestor)
  }

  /** A path is found exactly when the class is derived, it is a path, and it ends at the ancestor. */
  lemma {:induction false} FindPathIff(g: Classes, t: nat, ancestor: nat)
    requires Class(g, t)
    ensures FindPath(g, t, ancestor).Some? <==> IsDerivedFrom(g, t, ancestor)
    ensures var r := FindPath(g, t, ancestor); r.Some? ==> Walks(g, t, r.value) && End(g, t, r.value) == ancestor
    decreases t, 1, 0
  {
    if t != ancestor {
      FindFromIff(g, t, 0, ancestor);
    }
  }

  lemma {:induction false} FindFromIff(g: Classes, t: nat, i: nat, ancestor: nat)
    requires Class(g, t) && i <= |g.parents[t]|
    ensures var r := FindFrom(g, t, i, ancestor);
      && (r.Some? <==> exists j :: i <= j < |g.parents[t]| && IsDerivedFrom(g, g.parents[t][j], ancestor))
      && (r.Some? ==> Walks(g, t, r.value) && End(g, t, r.value) == ancestor)
    decreases t, 0, |g.parents[t]| - i
  {
    hide IsDerivedFrom;
    if i < |g.parents[t]| {
      FindPathIff(g, g.parents[t][i], ancestor);
      FindFromIff(g, t, i + 1, ancestor);
      var p := FindPath(g, g.parents[t][i], ancestor);
      if p.Some? {
        assert ([i] + p.value)[1..] == p.value;
      }
    }
  }

  /** p is q, or takes an earlier parent where they part. */
  predicate NoLater(p: seq<nat>, q: seq<nat>) {
    p == [] || (q != [] && (p[0] < q[0] || (p[0] == q[0] && NoLater(p[1..], q[1..]))))
  }

  /** Of all paths to the ancestor the one with the earliest parents is found. */
  lemma {:induction false} FindPathIsFirst(g: Classes, t: nat, ancestor: nat, q: seq<nat>)
    requires Class(g, t) && Walks(g, t, q) && End(g, t, q) == ancestor
    ensures FindPath(g, t, ancestor).Some? && NoLater(FindPath(g, t, ancestor).value, q)
    decreases |q|, 1, 0
  {
    if t != ancestor {
      FindFromIsFirst(g, t, 0, ancestor, q);
    }
  }

  lemma {:induction false} FindFromIsFirst(g: Classes, t: nat, i: nat, ancestor: nat, q: seq<nat>)
    requires Class(g, t) && q != [] && Walks(g, t, q) && End(g, t, q) == ancestor && i <= q[0]
    ensures FindFrom(g, t, i, ancestor).Some? && NoLater(FindFrom(g, t, i, ancestor).value, q)
    decreases |q|, 0, q[0] - i
  {
    if i == q[0] {
      FindPathIsFirst(g, g.parents[t][i], ancestor, q[1..]);
      var p := FindPath(g, g.parents[t][i], ancestor).value;
      assert ([i] + p)[1..] == p;
    } else if FindPath(g, g.parents[t][i], ancestor).None? {
      FindFromIsFirst(g, t, i + 1, ancestor, q);
    }
  }

  /** Derivation is the existence of a path. */
  lemma {:induction false} WalkedIsDerived(g: Classes, t: nat, path: seq<nat>)
    requires Class(g, t) && Walks(g, t, path)
    ensures IsDerivedFrom(g, t, End(g, t, path))
    decreases |path|
  {
    if path != [] {
      WalkedIsDerived(g, g.parents[t][path[0]], path[1..]);
    }
  }

  /** For an admitted class the path found is the only one, and the ancestor list holds exactly the
      classes it is derived from, VTableBase excepted. */
  lemma AncestorsAreTheDerived(g: Classes, t: nat, ancestors: seq<nat>, a: nat)
    requires Class(g, t) && Distinct(ancestors) && Added(g, t, ancestors).Some? && a != g.vtableBase
    ensures a in Expand(g, t) <==> IsDerivedFrom(g, t, a)
    ensures forall p :: Walks(g, t, p) && End(g, t, p) == a ==> FindPath(g, t, a) == Some(p)
  {
    hide Added, Expand, FindPath, Walks, IsDerivedFrom;
    FindPathIff(g, t, a);
    forall q | Walks(g, t, q) && End(g, t, q) == a ensures IsDerivedFrom(g, t, a) {
      WalkedIsDerived(g, t, q);
    }
    if IsDerivedFrom(g, t, a) {
      var p := FindPath(g, t, a).value;
      PositionHoldsEnd(g, t, p);
      forall q | Walks(g, t, q) && End(g, t, q) == a ensures p == q {
        PathsAreUnique(g, t, ancestors, p, q);
      }
    }
    if a in Expand(g, t) {
      ExpandedIsDerived(g, t, a);
    }
  }

  lemma {:induction false} ExpandedIsDerived(g: Classes, t: nat, a: nat)
    requires Class(g, t) && a in Expand(g, t)
    ensures IsDerivedFrom(g, t, a)
    decreases t, 1, 0
  {
    if t != a {
      var i := ExpandedFrom(g, t, g.parents[t], a);
      ExpandedIsDerived(g, g.parents[t][i], a);
    }
  }

  lemma {:induction false} ExpandedFrom(g: Classes, bound: nat, ts: seq<nat>, a: nat) returns (i: nat)
    requires Bases(g, bound, ts) && a in ExpandAll(g, bound, ts)
    ensures i < |ts| && a in Expand(g, ts[i])
    decreases |ts|
  {
    if a in Expand(g, ts[0]) {
      i := 0;
    } else {
      i := ExpandedFrom(g, bound, ts[1..], a);
      i := i + 1;
    }
  }

  // ----- The code -----

  /** TypeDef::AncestorReference: the index of a parent, and the parent. */
  datatype AncestorReference = AncestorReference(index: nat, ancestor: nat)

  function References(g: Classes, t: nat, path: seq<nat>): seq<AncestorReference>
    requires Class(g, t) && Walks(g, t, path)
    decreases |path|
  {
    if path == [] then []
    else [AncestorReference(path[0], g.parents[t][path[0]])] + References(g, g.parents[t][path[0]], path[1..])
  }

  /** From class t, each reference names a parent of the class reached so far by its index, and the last
      one is the ancestor. */
  predicate Leads(g: Classes, t: nat, refs: seq<AncestorReference>, ancestor: nat) {
    && (refs == [] <==> t == ancestor)
    && (refs != [] ==> refs[|refs| - 1].ancestor == ancestor)
    && forall k :: 0 <= k < |refs| ==>
         var c := if k == 0 then t else refs[k - 1].ancestor;
         c < |g.parents| && refs[k].index < |g.parents[c]| && refs[k].ancestor == g.parents[c][refs[k].index]
  }

  /** The indices of a path, with the parents they stand for, lead to its end. */
  lemma {:induction false} ReferencesLead(g: Classes, t: nat, path: seq<nat>)
    requires Class(g, t) && Walks(g, t, path)
    ensures |References(g, t, path)| == |path| && Leads(g, t, References(g, t, path), End(g, t, path))
    ensures End(g, t, path) <= t && (path != [] ==> End(g, t, path) < t)
    decreases |path|
  {
    if path != [] {
      var c := g.parents[t][path[0]];
      ReferencesLead(g, c, path[1..]);
      var rest := References(g, c, path[1..]);
      var refs := [AncestorReference(path[0], c)] + rest;
      assert References(g, t, path) == refs;
      forall k | 0 <= k < |refs|
        ensures var d := if k == 0 then t else refs[k - 1].ancestor;
          d < |g.parents| && refs[k].index < |g.parents[d]| && refs[k].ancestor == g.parents[d][refs[k].index]
      {
        if k > 0 {
          assert refs[k] == rest[k - 1];
        }
      }
    }
  }

  method IsDerivedFromLoop(g: Classes, t: nat, other: nat) returns (r: bool)
    requires Class(g, t)
    ensures r == IsDerivedFrom(g, t, other)
    decreases t
  {
    if t == other {
      return true;
    }
    for i := 0 to |g.parents[t]|
      invariant forall j :: 0 <= j < i ==> !IsDerivedFrom(g, g.parents[t][j], other)
    {
      var d := IsDerivedFromLoop(g, g.parents[t][i], other);
      if d {
        return true;
      }
    }
    r := false;
  }

  /** TypeDef::matches: the same question asked of the ancestor. */
  method Matches(g: Classes, t: nat, other: nat) returns (r: bool)
    requires Class(g, t) && Class(g, other)
    ensures r == IsDerivedFrom(g, other, t)
    decreases other
  {
    if other == t {
      return true;
    }
    for i := 0 to |g.parents[other]|
      invariant forall j :: 0 <= j < i ==> !IsDerivedFrom(g, g.parents[other][j], t)
    {
      var d := Matches(g, t, g.parents[other][i]);
      if d {
        return true;
      }
    }
    r := false;
  }

  /** The vectors these functions fill in place. */
  class Vectors {
    var ancestors: seq<nat>
    var path: seq<AncestorReference>

    constructor ()
      ensures ancestors == [] && path == []
    {
      ancestors, path := [], [];
    }

    /** addToAncestors; false for the error. */
    method AddToAncestors(g: Classes, t: nat) returns (ok: bool)
      requires Class(g, t)
      modifies this`ancestors
      ensures ok == Added(g, t, old(ancestors)).Some?
      ensures ok ==> Some(ancestors) == Added(g, t, old(ancestors))
      decreases t
    {
      if t == g.vtableBase {
        return true;
      }
      if !g.pointer[t] {
        return false;
      }
      var initial := ancestors;
      if |initial| > 0 && t == g.objectType {
        return false;
      }
      var ps := g.parents[t];
      ghost var all := AddAll(g, t, ps, initial);
      assert ps[0..] == ps;
      for i := 0 to |ps|
        invariant AddAll(g, t, ps[i..], ancestors) == all
      {
        assert ps[i..][0] == ps[i] && ps[i..][1..] == ps[i + 1..];
        var added := AddToAncestors(g, ps[i]);
        if !added {
          return false;
        }
      }
      Grows(g, t, ps, initial);
      assert |initial| <= |ancestors| && ancestors[..|initial|] == initial;
      for i := 0 to |initial|
        invariant forall j :: 0 <= j < i ==> initial[j] != t
      {
        if ancestors[i] == t {
          assert initial[i] == t;
          return false;
        }
      }
      ancestors := ancestors + [t];
      ok := true;
    }

    /** getPathToAncestor: on success entries from `depth` on describe the path and nothing follows, and
        those before are kept; on failure nothing is touched. */
    method GetPathToAncestor(g: Classes, t: nat, ancestor: nat, depth: nat) returns (found: bool)
      requires Class(g, t)
      modifies this`path
      ensures found == IsDerivedFrom(g, t, ancestor)
      ensures found ==> FindPath(g, t, ancestor).Some? && var p := FindPath(g, t, ancestor).value;
        Walks(g, t, p) && |path| == depth + |p| && path[depth..] == References(g, t, p)
      ensures found ==> depth <= |path| && Leads(g, t, path[depth..], ancestor)
      ensures found ==> forall k :: 0 <= k < depth && k < |old(path)| ==> path[k] == old(path)[k]
      ensures !found ==> path == old(path)
      decreases t
    {
      hide Leads, IsDerivedFrom;
      FindPathIff(g, t, ancestor);
      if FindPath(g, t, ancestor).Some? {
        ReferencesLead(g, t, FindPath(g, t, ancestor).value);
      }
      if t == ancestor {
        // path.resize(depth)
        var before := path;
        path := seq(depth, i => if 0 <= i < |before| then before[i] else AncestorReference(0, 0));
        return true;
      }
      var ps := g.parents[t];
      for i := 0 to |ps|
        invariant path == old(path) && FindFrom(g, t, i, ancestor) == FindPath(g, t, ancestor)
        invariant forall j :: 0 <= j < i ==> !IsDerivedFrom(g, ps[j], ancestor)
      {
        FindPathIff(g, ps[i], ancestor);
        var below := GetPathToAncestor(g, ps[i], ancestor, depth + 1);
        if below {
          var p := FindPath(g, ps[i], ancestor).value;
          ReferencesLead(g, ps[i], p);
          assert ([i] + p)[1..] == p;
          path := path[depth := AncestorReference(i, ps[i])];
          assert path[depth..] == [AncestorReference(i, ps[i])] + path[depth + 1..];
          return true;
        }
      }
      found := false;
    }
  }

  /** Ancestors are only ever appended. */
  lemma {:induction false} Grows(g: Classes, bound: nat, ts: seq<nat>, ancestors: seq<nat>)
    requires Bases(g, bound, ts)
    ensures var r := AddAll(g, bound, ts, ancestors);
      r.Some? ==> |ancestors| <= |r.value| && r.value[..|ancestors|] == ancestors
    decreases bound, 0, |ts|
  {
    if ts != [] {
      var t := ts[0];
      if t != g.vtableBase {
        Grows(g, t, g.parents[t], ancestors);
      }
      var r := Added(g, t, ancestors);
      if r.Some? {
        Grows(g, bound, ts[1..], r.value);
        var s := AddAll(g, bound, ts[1..], r.value);
        if s.Some? {
          assert s.value[..|ancestors|] == s.value[..|r.value|][..|ancestors|];
        }
      }
    }
  }
}
