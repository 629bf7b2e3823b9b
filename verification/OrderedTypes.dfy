/** The order in which the types of a module are written to its metadata (model/Namespace.cc). */
module OrderedTypes {

  datatype Option<+T> = None | Some(value: T)

  /** A nested type, or an alias of a type that belongs elsewhere. */
  datatype Nested = Nested(t: nat, alias: bool)

  /** `master` is the module group a type belongs to.  `rank` goes down along parents and templates,
      `height` along nested types. */
  datatype TypeInfo = TypeInfo(master: nat, serializable: bool, parents: seq<nat>, template: Option<nat>,
                               defs: seq<Nested>, rank: nat, height: nat)

  type Table = seq<TypeInfo>

  function Needs(w: Table, t: nat): seq<nat>
    requires t < |w|
  {
    w[t].parents + if w[t].template.Some? then [w[t].template.value] else []
  }

  /** Parents and templates form no cycle, and neither does nesting. */
  ghost predicate Valid(w: Table) {
    && (forall t, i :: 0 <= t < |w| && 0 <= i < |Needs(w, t)| ==>
      Needs(w, t)[i] < |w| && w[Needs(w, t)[i]].rank < w[t].rank)
    && forall t, i :: 0 <= t < |w| && 0 <= i < |w[t].defs| ==>
         w[t].defs[i].t < |w| && (!w[t].defs[i].alias ==> w[w[t].defs[i].t].height < w[t].height)
  }

  /** Serializable and of the group being written. */
  predicate Eligible(w: Table, master: nat, t: nat) {
    t < |w| && w[t].master == master && w[t].serializable
  }

  /** `u` is `t`, or needed by it along eligible types. */
  ghost predicate NeededBy(w: Table, master: nat, t: nat, u: nat)
    requires Valid(w) && t < |w|
    decreases w[t].rank
  {
    Eligible(w, master, t)
    && (u == t || exists i :: 0 <= i < |Needs(w, t)| && NeededBy(w, master, Needs(w, t)[i], u))
  }

  /** The vector and the set agree, nothing is there twice, and what a type needs comes before it. */
  ghost predicate Good(w: Table, master: nat, ordered: seq<nat>, indexed: set<nat>) {
    && (forall t :: t in ordered <==> t in indexed)
    && (forall i, j :: 0 <= i < j < |ordered| ==> ordered[i] != ordered[j])
    && (forall i :: 0 <= i < |ordered| ==> Eligible(w, master, ordered[i]))
    && forall i, d :: 0 <= i < |ordered| && d in Needs(w, ordered[i]) && Eligible(w, master, d) ==> d in ordered[..i]
  }

  /** `t` is in the namespace tree below `ns`. */
  ghost predicate InTree(w: Table, ns: nat, t: nat)
    requires Valid(w) && ns < |w|
    decreases w[ns].height
  {
    exists i :: 0 <= i < |w[ns].defs| && !w[ns].defs[i].alias && (w[ns].defs[i].t == t || InTree(w, w[ns].defs[i].t, t))
  }

  lemma Appended(w: Table, master: nat, ordered: seq<nat>, indexed: set<nat>, t: nat)
    requires Good(w, master, ordered, indexed) && Eligible(w, master, t) && t !in indexed
    requires forall d :: d in Needs(w, t) && Eligible(w, master, d) ==> d in ordered
    ensures Good(w, master, ordered + [t], indexed + {t})
  {
    var all := ordered + [t];
    assert all[..|ordered|] == ordered;
    forall i, d | 0 <= i < |all| && d in Needs(w, all[i]) && Eligible(w, master, d) ensures d in all[..i] {
      if i < |ordered| {
        assert all[..i] == ordered[..i];
      }
    }
  }

  class Collection {
    var ordered: seq<nat>
    var indexed: set<nat>

    constructor ()
      ensures ordered == [] && indexed == {}
    {
      ordered, indexed := [], {};
    }

    predicate Contains(t: nat)
      reads this
    {
      t in indexed
    }

    /** OrderedTypes::add. */
    method Add(w: Table, t: nat, master: nat)
      requires Valid(w) && t < |w| && Good(w, master, ordered, indexed)
      modifies this
      ensures Good(w, master, ordered, indexed) && old(ordered) <= ordered
      ensures Eligible(w, master, t) ==> t in ordered
      ensures forall u :: u in ordered && u !in old(ordered) ==>
        u < |w| && NeededBy(w, master, t, u) && w[u].rank <= w[t].rank
      decreases w[t].rank
    {
      hide Good, NeededBy;
      Agree(w, master, ordered, indexed);
      if Contains(t) || w[t].master != master || !w[t].serializable {
        return;
      }
      ghost var before := ordered;
      var parents := w[t].parents;
      for i := 0 to |parents|
        invariant Good(w, master, ordered, indexed) && before <= ordered
        invariant forall j :: 0 <= j < i && Eligible(w, master, parents[j]) ==> parents[j] in ordered
        invariant forall u :: u in ordered && u !in before ==>
          u < |w| && NeededBy(w, master, t, u) && w[u].rank < w[t].rank
      {
        assert Needs(w, t)[i] == parents[i];
        ghost var mid := ordered;
        Add(w, parents[i], master);
        forall u | u in ordered && u !in before ensures u < |w| && NeededBy(w, master, t, u) && w[u].rank < w[t].rank {
          if u !in mid {
            NeededThrough(w, master, t, i, u);
          }
        }
      }
      if w[t].template.Some? {
        var d := w[t].template.value;
        assert Needs(w, t)[|parents|] == d;
        ghost var mid := ordered;
        Add(w, d, master);
        forall u | u in ordered && u !in before ensures u < |w| && NeededBy(w, master, t, u) && w[u].rank < w[t].rank {
          if u !in mid {
            NeededThrough(w, master, t, |parents|, u);
          }
        }
      }
      Agree(w, master, ordered, indexed);
      assert t !in ordered;
      Appended(w, master, ordered, indexed, t);
      NeedsItself(w, master, t);
      ordered := ordered + [t];
      indexed := indexed + {t};
    }

    /** Namespace::getOrderedTypes: everything in the tree below a namespace, and what it needs. */
    method GetOrderedTypes(w: Table, ns: nat, master: nat)
      requires Valid(w) && ns < |w| && Good(w, master, ordered, indexed)
      modifies this
      ensures Good(w, master, ordered, indexed) && old(ordered) <= ordered
      ensures forall t :: InTree(w, ns, t) && Eligible(w, master, t) ==> t in ordered
      ensures forall u :: u in ordered && u !in old(ordered) ==> Wanted(w, master, ns, u)
      decreases w[ns].height
    {
      hide Good, NeededBy, InTree, Wanted;
      var defs := w[ns].defs;
      for i := 0 to |defs|
        invariant Good(w, master, ordered, indexed) && old(ordered) <= ordered
        invariant forall j, t :: 0 <= j < i && BelowDef(w, ns, j, t) && Eligible(w, master, t) ==> t in ordered
        invariant forall u :: u in ordered && u !in old(ordered) ==> Wanted(w, master, ns, u)
      {
        if !defs[i].alias {
          ghost var before := ordered;
          Add(w, defs[i].t, master);
          ghost var mid := ordered;
          GetOrderedTypes(w, defs[i].t, master);
          forall u | u in ordered && u !in old(ordered) ensures Wanted(w, master, ns, u) {
            if u !in before {
              if u in mid {
                WantedDirectly(w, master, ns, i, u);
              } else {
                WantedBelow(w, master, ns, i, u);
              }
            }
          }
        }
      }
      forall t | InTree(w, ns, t) && Eligible(w, master, t) ensures t in ordered {
        var i := TreeDef(w, ns, t);
      }
    }
  }

  lemma Agree(w: Table, master: nat, ordered: seq<nat>, indexed: set<nat>)
    requires Good(w, master, ordered, indexed)
    ensures forall t :: t in ordered <==> t in indexed
  {
  }

  lemma NeedsItself(w: Table, master: nat, t: nat)
    requires Valid(w) && Eligible(w, master, t)
    ensures NeededBy(w, master, t, t)
  {
  }

  lemma NeededThrough(w: Table, master: nat, t: nat, i: nat, u: nat)
    requires Valid(w) && Eligible(w, master, t) && i < |Needs(w, t)| && NeededBy(w, master, Needs(w, t)[i], u)
    ensures NeededBy(w, master, t, u)
  {
  }

  /** Needed by some type of the tree. */
  ghost predicate Wanted(w: Table, master: nat, ns: nat, u: nat)
    requires Valid(w) && ns < |w|
  {
    exists t: nat :: t < |w| && InTree(w, ns, t) && NeededBy(w, master, t, u)
  }

  /** In the tree by way of definition i. */
  ghost predicate BelowDef(w: Table, ns: nat, i: nat, t: nat)
    requires Valid(w) && ns < |w|
  {
    i < |w[ns].defs| && !w[ns].defs[i].alias && (w[ns].defs[i].t == t || InTree(w, w[ns].defs[i].t, t))
  }

  lemma TreeDef(w: Table, ns: nat, t: nat) returns (i: nat)
    requires Valid(w) && ns < |w| && InTree(w, ns, t)
    ensures i < |w[ns].defs| && BelowDef(w, ns, i, t)
  {
    i :| 0 <= i < |w[ns].defs| && !w[ns].defs[i].alias && (w[ns].defs[i].t == t || InTree(w, w[ns].defs[i].t, t));
  }

  lemma WantedDirectly(w: Table, master: nat, ns: nat, i: nat, u: nat)
    requires Valid(w) && ns < |w| && i < |w[ns].defs| && !w[ns].defs[i].alias && NeededBy(w, master, w[ns].defs[i].t, u)
    ensures Wanted(w, master, ns, u)
  {
    assert InTree(w, ns, w[ns].defs[i].t);
  }

  lemma WantedBelow(w: Table, master: nat, ns: nat, i: nat, u: nat)
    requires Valid(w) && ns < |w| && i < |w[ns].defs| && !w[ns].defs[i].alias && Wanted(w, master, w[ns].defs[i].t, u)
    ensures Wanted(w, master, ns, u)
  {
    var t: nat :| t < |w| && InTree(w, w[ns].defs[i].t, t) && NeededBy(w, master, t, u);
    assert InTree(w, ns, t);
  }

  /** A complete collection is closed: with a type it holds every eligible type needed by it, so that
      reading the types back in order never meets one that is not there yet. */
  lemma {:induction false} GoodIsClosed(w: Table, master: nat, ordered: seq<nat>, indexed: set<nat>, i: nat, u: nat)
    requires Valid(w) && Good(w, master, ordered, indexed) && i < |ordered| && NeededBy(w, master, ordered[i], u)
    ensures u in ordered[..i + 1]
    decreases w[ordered[i]].rank
  {
    var t := ordered[i];
    assert t == ordered[..i + 1][i];
    if u != t {
      var k :| 0 <= k < |Needs(w, t)| && NeededBy(w, master, Needs(w, t)[k], u);
      var d := Needs(w, t)[k];
      assert d in ordered[..i];
      var j :| 0 <= j < i && ordered[j] == d;
      GoodIsClosed(w, master, ordered, indexed, j, u);
      var m :| 0 <= m < j + 1 && ordered[..j + 1][m] == u;
      assert ordered[..i + 1][m] == u;
    }
  }

  /** Every parent of type number i, and the type it is an instance of, has an earlier place unless it is
      not to be written at all. */
  ghost predicate NeedsBefore(w: Table, master: nat, ordered: seq<nat>, i: nat)
    requires i < |ordered| && ordered[i] < |w|
  {
    var t := w[ordered[i]];
    forall u :: (u in t.parents || t.template == Some(u)) && u < |w| && w[u].master == master && w[u].serializable ==>
      u in ordered[..i]
  }

  lemma GoodNeedsBefore(w: Table, master: nat, ordered: seq<nat>, indexed: set<nat>, i: nat)
    requires Good(w, master, ordered, indexed) && i < |ordered|
    ensures NeedsBefore(w, master, ordered, i)
  {
    var t := w[ordered[i]];
    forall u: nat | (u in t.parents || t.template == Some(u)) && Eligible(w, master, u) ensures u in ordered[..i] {
      assert t.template == Some(u) ==> Needs(w, ordered[i])[|t.parents|] == u;
      assert u in Needs(w, ordered[i]);
    }
  }

  /** The types of a module, ready to be written. */
  method OrderTypes(w: Table, ns: nat, master: nat) returns (ordered: seq<nat>)
    requires Valid(w) && ns < |w|
    ensures Good(w, master, ordered, set t | t in ordered)
    ensures forall u :: u in ordered <==> Wanted(w, master, ns, u)
    // spelled out: no type of another group, none twice, and parents and the template come before a type
    ensures forall i :: 0 <= i < |ordered| ==>
      ordered[i] < |w| && w[ordered[i]].master == master && w[ordered[i]].serializable
    ensures forall i, j :: 0 <= i < j < |ordered| ==> ordered[i] != ordered[j]
    ensures forall i :: 0 <= i < |ordered| ==> NeedsBefore(w, master, ordered, i)
  {
    var types := new Collection();
    types.GetOrderedTypes(w, ns, master);
    ordered := types.ordered;
    assert types.indexed == set t | t in ordered;
    forall i | 0 <= i < |ordered| ensures NeedsBefore(w, master, ordered, i) {
      GoodNeedsBefore(w, master, ordered, types.indexed, i);
    }
    forall u | Wanted(w, master, ns, u) ensures u in ordered {
      var t: nat :| t < |w| && InTree(w, ns, t) && NeededBy(w, master, t, u);
      assert Eligible(w, master, t);
      var i :| 0 <= i < |ordered| && ordered[i] == t;
      GoodIsClosed(w, master, ordered, types.indexed, i, u);
    }
  }
}
