/**
 * Offsets inside instances, as the methods of the built-in class `Class` compute them
 * (model/BaseMetaClass.cc).
 */
module ClassOffsets {
  import opened Inheritance

  /** For each class: where each parent's body starts in an instance, and its vtables, each with the
      offset of the sub-object it is found in. */
  datatype Layout = Layout(g: Classes, offsets: seq<seq<int>>, vtables: seq<seq<(nat, int)>>)

  predicate Laid(l: Layout, t: nat) {
    && Class(l.g, t) && |l.offsets| == |l.g.parents| == |l.vtables|
    && (forall c :: 0 <= c < |l.offsets| ==> |l.offsets[c]| == |l.g.parents[c]|)
    && forall c, i :: 0 <= c < |l.offsets| && 0 <= i < |l.offsets[c]| ==> l.offsets[c][i] >= 0
  }

  /** The offset a path leads to. */
  function Sum(l: Layout, t: nat, path: seq<nat>): (s: int)
    requires Laid(l, t) && Walks(l.g, t, path)
    ensures s >= 0
    decreases |path|
  {
    if path == [] then 0 else l.offsets[t][path[0]] + Sum(l, l.g.parents[t][path[0]], path[1..])
  }

  /** The offset by the first path found, -1 if there is none. */
  function OffsetOf(l: Layout, t: nat, ancestor: nat): int
    requires Laid(l, t)
  {
    FindPathIff(l.g, t, ancestor);
    match FindPath(l.g, t, ancestor)
    case Some(path) => Sum(l, t, path)
    case None => -1
  }

  // ----- The code -----

  /** One step of the search agrees with the offset by path. */
  lemma StepOffset(l: Layout, t: nat, ancestor: nat, i: nat)
    requires Laid(l, t) && t != ancestor && i < |l.g.parents[t]|
    requires FindFrom(l.g, t, i, ancestor) == FindPath(l.g, t, ancestor)
    ensures OffsetOf(l, l.g.parents[t][i], ancestor) >= 0 ==>
      OffsetOf(l, t, ancestor) == l.offsets[t][i] + OffsetOf(l, l.g.parents[t][i], ancestor)
    ensures OffsetOf(l, l.g.parents[t][i], ancestor) < 0 ==>
      FindFrom(l.g, t, i + 1, ancestor) == FindPath(l.g, t, ancestor)
  {
    FindPathIff(l.g, l.g.parents[t][i], ancestor);
    FindPathIff(l.g, t, ancestor);
    var p := FindPath(l.g, l.g.parents[t][i], ancestor);
    if p.Some? {
      assert ([i] + p.value)[1..] == p.value;
    }
  }

  /** Class.getInstOffset: takes the first base that answers zero or more. */
  method GetInstOffset(l: Layout, t: nat, other: nat) returns (r: int)
    requires Laid(l, t)
    ensures r == OffsetOf(l, t, other)
    decreases t
  {
    if t == other {
      return 0;
    }
    for i := 0 to |l.g.parents[t]|
      invariant FindFrom(l.g, t, i, other) == FindPath(l.g, t, other)
    {
      var off := GetInstOffset(l, l.g.parents[t][i], other);
      StepOffset(l, t, other, i);
      if off >= 0 {
        return l.offsets[t][i] + off;
      }
    }
    r := -1;
  }

  /** Class.findAncestorOffset: takes the first base that does not answer -1. */
  method FindAncestorOffset(l: Layout, t: nat, ancestor: nat) returns (r: int)
    requires Laid(l, t)
    ensures r == OffsetOf(l, t, ancestor)
    decreases t
  {
    if t == ancestor {
      return 0;
    }
    for i := 0 to |l.g.parents[t]|
      invariant FindFrom(l.g, t, i, ancestor) == FindPath(l.g, t, ancestor)
    {
      var off := FindAncestorOffset(l, l.g.parents[t][i], ancestor);
      StepOffset(l, t, ancestor, i);
      NegativeIsNone(l, l.g.parents[t][i], ancestor);
      if off != -1 {
        return l.offsets[t][i] + off;
      }
    }
    r := -1;
  }

  /** The two searches agree, and answer -1 exactly for classes that are no ancestors. */
  lemma NegativeIsNone(l: Layout, t: nat, ancestor: nat)
    requires Laid(l, t)
    ensures OffsetOf(l, t, ancestor) < 0 <==> OffsetOf(l, t, ancestor) == -1
    ensures OffsetOf(l, t, ancestor) == -1 <==> !IsDerivedFrom(l.g, t, ancestor)
  {
    FindPathIff(l.g, t, ancestor);
  }

  // ----- Composition -----

  lemma {:induction false} SumSplits(l: Layout, t: nat, p: seq<nat>, q: seq<nat>)
    requires Laid(l, t) && Walks(l.g, t, p) && Walks(l.g, End(l.g, t, p), q)
    ensures Walks(l.g, t, p + q) && End(l.g, t, p + q) == End(l.g, End(l.g, t, p), q)
    ensures Sum(l, t, p + q) == Sum(l, t, p) + Sum(l, End(l.g, t, p), q)
    decreases |p|
  {
    if p == [] {
      assert p + q == q;
    } else {
      assert (p + q)[1..] == p[1..] + q;
      SumSplits(l, l.g.parents[t][p[0]], p[1..], q);
    }
  }

  /** Offsets add up along the hierarchy of any class whose base list was admitted. */
  lemma OffsetsCompose(l: Layout, ancestors: seq<nat>, c: nat, b: nat, a: nat)
    requires Laid(l, c) && Laid(l, b) && Distinct(ancestors) && Added(l.g, c, ancestors).Some? && a != l.g.vtableBase
    requires IsDerivedFrom(l.g, c, b) && IsDerivedFrom(l.g, b, a)
    ensures IsDerivedFrom(l.g, c, a) && OffsetOf(l, c, a) == OffsetOf(l, c, b) + OffsetOf(l, b, a)
  {
    hide Added, IsDerivedFrom, FindPath, Walks, Sum;
    FindPathIff(l.g, c, b);
    FindPathIff(l.g, b, a);
    var p, q := FindPath(l.g, c, b).value, FindPath(l.g, b, a).value;
    SumSplits(l, c, p, q);
    WalkedIsDerived(l.g, c, p + q);
    AncestorsAreTheDerived(l.g, c, ancestors, a);
  }

  /** The offset of a base in a class whose base list was admitted is the one the class lists for it, and a
      class is at offset 0 of itself. */
  lemma BaseOffset(l: Layout, ancestors: seq<nat>, c: nat, i: nat)
    requires Laid(l, c) && Distinct(ancestors) && Added(l.g, c, ancestors).Some?
    requires i < |l.g.parents[c]| && l.g.parents[c][i] != l.g.vtableBase
    ensures OffsetOf(l, c, l.g.parents[c][i]) == l.offsets[c][i] && OffsetOf(l, c, c) == 0
  {
    hide Added, Walks, End;
    var base, way := l.g.parents[c][i], [i];
    OneStep(l, c, i);
    WalkedIsDerived(l.g, c, way);
    AncestorsAreTheDerived(l.g, c, ancestors, base);
    assert FindPath(l.g, c, base) == Some(way) && FindPath(l.g, c, c) == Some([]);
  }

  lemma OneStep(l: Layout, c: nat, i: nat)
    requires Laid(l, c) && i < |l.g.parents[c]|
    ensures Walks(l.g, c, [i]) && End(l.g, c, [i]) == l.g.parents[c][i] && Sum(l, c, [i]) == l.offsets[c][i]
  {
    var base, way := l.g.parents[c][i], [i];
    assert way[1..] == [];
    assert End(l.g, base, []) == base && Sum(l, base, []) == 0;
    assert End(l.g, c, way) == End(l.g, base, way[1..]);
    assert Sum(l, c, way) == l.offsets[c][i] + Sum(l, base, way[1..]);
  }

  // ----- Rehoming -----

  /** Class.findInstanceRootOffset: the offset of the first entry with the vtable, or -1. */
  method FindInstanceRootOffset(l: Layout, c: nat, vtable: nat) returns (r: int)
    requires Laid(l, c)
    ensures r == RootOffset(l.vtables[c], vtable)
  {
    var vs := l.vtables[c];
    assert vs[0..] == vs;
    for i := 0 to |vs|
      invariant RootOffset(vs[i..], vtable) == RootOffset(vs, vtable)
    {
      assert vs[i..][0] == vs[i] && vs[i..][1..] == vs[i + 1..];
      if vs[i].0 == vtable {
        return vs[i].1;
      }
    }
    r := -1;
  }

  function RootOffset(vs: seq<(nat, int)>, vtable: nat): int {
    if vs == [] then -1 else if vs[0].0 == vtable then vs[0].1 else RootOffset(vs[1..], vtable)
  }

  /** Memory: which vtable is stored at an address, and which class a vtable belongs to. */
  datatype Memory = Memory(vtableAt: map<int, nat>, classOf: map<nat, nat>)

  /** An instance of class `c` whose body starts at `root`: at each of the class's vtable offsets its
      vtable is stored, and no two sub-objects share a vtable. */
  ghost predicate InstanceAt(l: Layout, m: Memory, c: nat, root: int)
    requires Laid(l, c)
  {
    && (forall i :: 0 <= i < |l.vtables[c]| ==>
          var off := root + l.vtables[c][i].1;
          off in m.vtableAt && m.vtableAt[off] == l.vtables[c][i].0)
    && (forall i :: 0 <= i < |l.vtables[c]| ==> l.vtables[c][i].0 in m.classOf && m.classOf[l.vtables[c][i].0] == c)
    && forall i, j :: 0 <= i < j < |l.vtables[c]| ==> l.vtables[c][i].0 != l.vtables[c][j].0
  }

  /** Class.rehome on a reference that is not null; None for null. */
  method Rehome(l: Layout, m: Memory, target: nat, inst: int) returns (r: Option<int>)
    requires inst in m.vtableAt && m.vtableAt[inst] in m.classOf && Laid(l, m.classOf[m.vtableAt[inst]])
    ensures r == Rehomed(l, m, target, inst)
  {
    var vtable := m.vtableAt[inst];
    var c := m.classOf[vtable];
    var offset := FindInstanceRootOffset(l, c, vtable);
    var root := inst - offset;
    if root == 0 {
      return None;
    }
    var targetOffset := FindAncestorOffset(l, c, target);
    if targetOffset == -1 {
      return None;
    }
    r := Some(root + targetOffset);
  }

  function Rehomed(l: Layout, m: Memory, target: nat, inst: int): Option<int>
    requires inst in m.vtableAt && m.vtableAt[inst] in m.classOf && Laid(l, m.classOf[m.vtableAt[inst]])
  {
    var c := m.classOf[m.vtableAt[inst]];
    var root := inst - RootOffset(l.vtables[c], m.vtableAt[inst]);
    if root == 0 || OffsetOf(l, c, target) == -1 then None else Some(root + OffsetOf(l, c, target))
  }

  lemma {:induction false} RootOffsetFound(vs: seq<(nat, int)>, i: nat)
    requires i < |vs| && forall a, b :: 0 <= a < b < |vs| ==> vs[a].0 != vs[b].0
    ensures RootOffset(vs, vs[i].0) == vs[i].1
    decreases |vs|
  {
    if i > 0 {
      assert vs[0].0 != vs[i].0;
      RootOffsetFound(vs[1..], i - 1);
    }
  }

  /** From whichever sub-object of an instance one starts, rehoming to `target` gives the address of the
      target's body, or nothing exactly when the class is not derived from it. */
  lemma RehomeFromAnywhere(l: Layout, m: Memory, c: nat, root: int, i: nat, target: nat)
    requires Laid(l, c) && InstanceAt(l, m, c, root) && root != 0 && i < |l.vtables[c]|
    ensures var inst := root + l.vtables[c][i].1;
      Rehomed(l, m, target, inst) == if IsDerivedFrom(l.g, c, target) then Some(root + OffsetOf(l, c, target)) else None
  {
    hide IsDerivedFrom, OffsetOf;
    RootOffsetFound(l.vtables[c], i);
    NegativeIsNone(l, c, target);
  }

  /** From an address at some offset in an instance of a class, rehoming to an ancestor gives the address of
      its body if and only if the class lists the vtable found there with that offset. */
  lemma RehomeIff(l: Layout, m: Memory, c: nat, root: nat, offset: nat, target: nat)
    requires Laid(l, c) && root > 0 && IsDerivedFrom(l.g, c, target)
    requires root + offset in m.vtableAt && m.vtableAt[root + offset] in m.classOf
    requires m.classOf[m.vtableAt[root + offset]] == c
    requires forall i, j :: 0 <= i < j < |l.vtables[c]| ==> l.vtables[c][i].0 != l.vtables[c][j].0
    ensures Rehomed(l, m, target, root + offset) == Some(root + OffsetOf(l, c, target))
       <==> (m.vtableAt[root + offset], offset) in l.vtables[c]
  {
    hide IsDerivedFrom, OffsetOf;
    var vs, v := l.vtables[c], m.vtableAt[root + offset];
    NegativeIsNone(l, c, target);
    if i :| 0 <= i < |vs| && vs[i].0 == v {
      RootOffsetFound(vs, i);
      assert vs[i] == (v, vs[i].1);
      if (v, offset) in vs {
        var j :| 0 <= j < |vs| && vs[j] == (v, offset);
        RootOffsetFound(vs, j);
      }
    } else {
      Unknown(vs, v);
    }
  }

  /** Rehoming twice is rehoming once, when the first target's body has a vtable of its own. */
  lemma RehomeTwice(l: Layout, m: Memory, c: nat, root: int, i: nat, j: nat, b: nat, a: nat)
    requires Laid(l, c) && InstanceAt(l, m, c, root) && root != 0 && i < |l.vtables[c]| && j < |l.vtables[c]|
    requires IsDerivedFrom(l.g, c, b) && l.vtables[c][j].1 == OffsetOf(l, c, b)
    ensures var inst := root + l.vtables[c][i].1;
      var mid := Rehomed(l, m, b, inst);
      mid.Some? && mid.value in m.vtableAt && m.vtableAt[mid.value] == l.vtables[c][j].0
      && Rehomed(l, m, a, mid.value) == Rehomed(l, m, a, inst)
  {
    hide IsDerivedFrom, OffsetOf, Rehomed;
    RehomeFromAnywhere(l, m, c, root, i, b);
    RehomeFromAnywhere(l, m, c, root, i, a);
    RehomeFromAnywhere(l, m, c, root, j, a);
  }

  /** A vtable the class does not know moves the pointer one byte up instead of being noticed. */
  lemma UnknownVTableIsNotNoticed(l: Layout, m: Memory, target: nat, inst: int)
    requires inst in m.vtableAt && m.vtableAt[inst] in m.classOf && Laid(l, m.classOf[m.vtableAt[inst]]) && inst > 0
    requires var c := m.classOf[m.vtableAt[inst]];
      IsDerivedFrom(l.g, c, target) && forall i :: 0 <= i < |l.vtables[c]| ==> l.vtables[c][i].0 != m.vtableAt[inst]
    ensures var c := m.classOf[m.vtableAt[inst]]; Rehomed(l, m, target, inst) == Some(inst + 1 + OffsetOf(l, c, target))
  {
    hide IsDerivedFrom, OffsetOf;
    var c := m.classOf[m.vtableAt[inst]];
    Unknown(l.vtables[c], m.vtableAt[inst]);
    NegativeIsNone(l, c, target);
  }

  lemma {:induction false} Unknown(vs: seq<(nat, int)>, vtable: nat)
    requires forall i :: 0 <= i < |vs| ==> vs[i].0 != vtable
    ensures RootOffset(vs, vtable) == -1
    decreases |vs|
  {
    if vs != [] {
      Unknown(vs[1..], vtable);
    }
  }
}
