/** Splitting and joining canonical module names (model/ModuleDef.cc: parseCanonicalName, joinName). */
module CanonicalName {
  import opened Wire

  datatype Option<+T> = None | Some(value: T)

  type Name = seq<Byte>

  const DOT: Byte := 46
  const OPEN: Byte := 91
  const CLOSE: Byte := 93

  /** The bracket depth after one more character; None where the code asserts: a closing bracket at the
      outer level. */
  function Step(c: Byte, depth: nat): Option<nat> {
    if c == OPEN then Some(depth + 1)
    else if c == CLOSE then if depth == 0 then None else Some(depth - 1)
    else Some(depth)
  }

  /** The parts of `s`, the first of which starts at the given depth.  Only dots outside brackets split. */
  function Split(s: Name, depth: nat): (r: Option<seq<Name>>)
    ensures r.Some? ==> r.value != []
  {
    if s == [] then Some([[]])
    else if s[0] == DOT && depth == 0 then
      match Split(s[1..], 0)
      case None => None
      case Some(ps) => Some([[]] + ps)
    else
      match Step(s[0], depth)
      case None => None
      case Some(d) =>
        match Split(s[1..], d)
        case None => None
        case Some(ps) => Some([[s[0]] + ps[0]] + ps[1..])
  }

  function Parse(s: Name): Option<seq<Name>> {
    Split(s, 0)
  }

  function Join(ps: seq<Name>): Name {
    if ps == [] then [] else if |ps| == 1 then ps[0] else ps[0] + [DOT] + Join(ps[1..])
  }

  /** `a.b[c.d]` has the parts `a` and `b[c.d]`. */
  lemma SampleParts()
    ensures Parse([97, 46, 98, 91, 99, 46, 100, 93]) == Some([[97], [98, 91, 99, 46, 100, 93]])
    ensures Join([[97], [98, 91, 99, 46, 100, 93]]) == [97, 46, 98, 91, 99, 46, 100, 93]
  {
    var t, whole := [98, 91, 99, 46, 100, 93], [97, 46, 98, 91, 99, 46, 100, 93];
    SamplePart();
    assert whole == [97, 46] + t;
    DotSplits(97, t);
    assert [97] + [DOT] + t == whole;
  }

  lemma SamplePart()
    ensures Split([98, 91, 99, 46, 100, 93], 0) == Some([[98, 91, 99, 46, 100, 93]])
  {
    hide Split;
    var t := [98, 91, 99, 46, 100, 93];
    NoSplit(t[6..], 0);
    NoSplit(t[5..], 1);
    NoSplit(t[4..], 1);
    NoSplit(t[3..], 1);
    NoSplit(t[2..], 1);
    NoSplit(t[1..], 0);
    NoSplit(t, 0);
  }

  lemma DotSplits(c: Byte, t: Name)
    requires c != DOT && c != OPEN && c != CLOSE && Split(t, 0) == Some([t])
    ensures Split([c, DOT] + t, 0) == Some([[c], t])
  {
    var whole := [c, DOT] + t;
    assert whole[1..][1..] == t && Split(whole[1..], 0) == Some([[]] + [t]);
    var ps: seq<Name> := [[], t];
    assert [[]] + [t] == ps && ps[1..] == [t] && [c] + [] == [c];
    assert [[c]] + [t] == [[c], t];
  }

  /** No dot splits at the first character, and the rest is a single part. */
  lemma NoSplit(s: Name, depth: nat)
    requires s != [] ==>
      (s[0] != DOT || depth > 0) && Step(s[0], depth).Some? && Split(s[1..], Step(s[0], depth).value) == Some([s[1..]])
    ensures Split(s, depth) == Some([s])
  {
    if s != [] {
      assert [s[1..]][1..] == [] && [s[0]] + s[1..] == s && [s] + [] == [s];
    }
  }

  // ----- Joining what was split -----

  lemma {:induction false} SplitJoins(s: Name, depth: nat)
    requires Split(s, depth).Some?
    ensures Join(Split(s, depth).value) == s
    decreases |s|
  {
    if s != [] {
      if s[0] == DOT && depth == 0 {
        SplitJoins(s[1..], 0);
        var ps := Split(s[1..], 0).value;
        assert ([[]] + ps)[1..] == ps;
        assert [] + [DOT] + s[1..] == s;
      } else {
        var d := Step(s[0], depth).value;
        SplitJoins(s[1..], d);
        var ps := Split(s[1..], d).value;
        var qs := [[s[0]] + ps[0]] + ps[1..];
        assert qs[1..] == ps[1..];
        if |ps| > 1 {
          assert [s[0]] + ps[0] + [DOT] + Join(ps[1..]) == [s[0]] + (ps[0] + [DOT] + Join(ps[1..]));
        }
        assert [s[0]] + s[1..] == s;
      }
    }
  }

  function Delta(c: Byte): int {
    if c == OPEN then 1 else if c == CLOSE then -1 else 0
  }

  function Depth(s: Name): int {
    if s == [] then 0
    else Depth(s[..|s| - 1]) + Delta(s[|s| - 1])
  }

  lemma {:induction false} DepthFromFront(c: Byte, s: Name)
    ensures Depth([c] + s) == Delta(c) + Depth(s)
    decreases |s|
  {
    if s == [] {
      assert [c] + s == [c] && [c][..0] == [];
    } else {
      assert ([c] + s)[..|s|] == [c] + s[..|s| - 1];
      DepthFromFront(c, s[..|s| - 1]);
    }
  }

  /** Starting at a depth, no prefix closes more brackets than have been opened. */
  predicate Matched(s: Name, depth: int) {
    forall i :: 0 <= i <= |s| ==> depth + Depth(s[..i]) >= 0
  }

  lemma MatchedStep(s: Name, depth: nat)
    requires s != []
    ensures Matched(s, depth) <==> Matched(s[1..], depth + Delta(s[0]))
  {
    var t, d := s[1..], depth + Delta(s[0]);
    forall i | 0 <= i <= |t| ensures depth + Depth(s[..i + 1]) == d + Depth(t[..i]) {
      assert s[..i + 1] == [s[0]] + t[..i];
      DepthFromFront(s[0], t[..i]);
    }
    assert s[..0] == [];
    if Matched(t, d) {
      forall i | 0 <= i <= |s| ensures depth + Depth(s[..i]) >= 0 {
        if i > 0 {
          assert d + Depth(t[..i - 1]) >= 0;
          assert s[..i] == s[..i - 1 + 1];
        }
      }
    }
    if Matched(s, depth) {
      forall i | 0 <= i <= |t| ensures d + Depth(t[..i]) >= 0 {
        assert depth + Depth(s[..i + 1]) >= 0;
      }
    }
  }

  /** Splitting succeeds exactly when every closing bracket has a match. */
  lemma {:induction false} SplitsIff(s: Name, depth: nat)
    ensures Split(s, depth).Some? <==> Matched(s, depth)
    decreases |s|
  {
    hide Matched;
    if s == [] {
      EmptyMatched(depth);
    } else {
      MatchedStep(s, depth);
      if depth + Delta(s[0]) >= 0 {
        SplitsIff(s[1..], depth + Delta(s[0]));
      } else {
        Unmatched(s[1..], depth + Delta(s[0]));
      }
    }
  }

  lemma EmptyMatched(depth: nat)
    ensures Matched([], depth)
  {
    var s: Name := [];
    assert s[..0] == [] && Depth(s[..0]) == 0;
  }

  lemma Unmatched(s: Name, depth: int)
    requires depth < 0
    ensures !Matched(s, depth)
  {
    assert s[..0] == [];
    assert depth + Depth(s[..0]) < 0;
  }

  /** joinName undoes parseCanonicalName wherever the latter has an answer. */
  lemma ParseThenJoin(s: Name)
    requires Matched(s, 0)
    ensures Parse(s).Some? && Join(Parse(s).value) == s
  {
    SplitsIff(s, 0);
    SplitJoins(s, 0);
  }

  // ----- Splitting what was joined -----

  /** The depth after a part without dots outside brackets or unmatched closing brackets. */
  function Scan(p: Name, depth: nat): Option<nat> {
    if p == [] then Some(depth)
    else if p[0] == DOT && depth == 0 then None
    else match Step(p[0], depth) case None => None case Some(d) => Scan(p[1..], d)
  }

  /** Parts that can be told apart again: no dot outside brackets, and brackets closed in every part but
      perhaps the last. */
  predicate Separable(ps: seq<Name>) {
    && ps != []
    && (forall i :: 0 <= i < |ps| ==> Scan(ps[i], 0).Some?)
    && forall i :: 0 <= i < |ps| - 1 ==> Scan(ps[i], 0) == Some(0)
  }

  /** A part in front. */
  lemma {:induction false} SplitPart(p: Name, rest: Name, depth: nat)
    requires Scan(p, depth).Some?
    ensures var r := Split(rest, Scan(p, depth).value);
      Split(p + rest, depth) == if r.Some? then Some([p + r.value[0]] + r.value[1..]) else None
    decreases |p|
  {
    if p == [] {
      assert p + rest == rest;
      var r := Split(rest, depth);
      if r.Some? {
        assert [] + r.value[0] == r.value[0] && [r.value[0]] + r.value[1..] == r.value;
      }
    } else {
      assert (p + rest)[0] == p[0] && (p + rest)[1..] == p[1..] + rest;
      var d := Step(p[0], depth).value;
      SplitPart(p[1..], rest, d);
      var r := Split(rest, Scan(p, depth).value);
      if r.Some? {
        assert [p[0]] + (p[1..] + r.value[0]) == p + r.value[0];
        assert ([p[1..] + r.value[0]] + r.value[1..])[1..] == r.value[1..];
      }
    }
  }

  lemma {:induction false} SeparableSplits(ps: seq<Name>)
    requires Separable(ps)
    ensures Parse(Join(ps)) == Some(ps)
    decreases |ps|
  {
    var p := ps[0];
    if |ps| == 1 {
      SplitPart(p, [], 0);
      assert p + [] == p && Split([], Scan(p, 0).value) == Some([[]]);
      assert [p + []] + [[]][1..] == ps;
    } else {
      var rest := [DOT] + Join(ps[1..]);
      SeparableSplits(ps[1..]);
      assert rest[1..] == Join(ps[1..]);
      assert Split(rest, 0) == Some([[]] + ps[1..]);
      SplitPart(p, rest, 0);
      assert p + [DOT] + Join(ps[1..]) == p + rest;
      assert p + [] == p && ([[]] + ps[1..])[1..] == ps[1..] && [p] + ps[1..] == ps;
    }
  }

  /** The first part split off scans, and what follows it is a dot and the rest. */
  lemma {:induction false} FirstPart(s: Name, depth: nat)
    requires Split(s, depth).Some?
    ensures var ps := Split(s, depth).value;
      && Scan(ps[0], depth).Some?
      && (|ps| > 1 ==> Scan(ps[0], depth) == Some(0) && |ps[0]| < |s|
                       && s[..|ps[0]|] == ps[0] && s[|ps[0]|] == DOT && Split(s[|ps[0]| + 1..], 0) == Some(ps[1..]))
    decreases |s|
  {
    if s != [] {
      if s[0] == DOT && depth == 0 {
        var ps := Split(s[1..], 0).value;
        assert ([[]] + ps)[1..] == ps && s[..0] == [];
      } else {
        var d := Step(s[0], depth).value;
        FirstPart(s[1..], d);
        var ps := Split(s[1..], d).value;
        var q := [s[0]] + ps[0];
        assert q[1..] == ps[0] && ([q] + ps[1..])[1..] == ps[1..];
        if |ps| > 1 {
          assert s[..|q|] == [s[0]] + s[1..][..|ps[0]|];
          assert s[|q| + 1..] == s[1..][|ps[0]| + 1..];
        }
      }
    }
  }

  lemma {:induction false} SplitsToSeparable(ps: seq<Name>)
    requires Parse(Join(ps)) == Some(ps)
    ensures Separable(ps)
    decreases |ps|
  {
    FirstPart(Join(ps), 0);
    if |ps| > 1 {
      assert Join(ps)[|ps[0]| + 1..] == Join(ps[1..]);
      SplitsToSeparable(ps[1..]);
      forall i | 0 <= i < |ps| ensures Scan(ps[i], 0).Some? && (i < |ps| - 1 ==> Scan(ps[i], 0) == Some(0)) {
        if i > 0 {
          assert ps[i] == ps[1..][i - 1];
        }
      }
    }
  }

  /** parseCanonicalName undoes joinName for exactly the separable lists of parts. */
  lemma JoinThenParseIff(ps: seq<Name>)
    ensures Parse(Join(ps)) == Some(ps) <==> Separable(ps)
  {
    if Separable(ps) {
      SeparableSplits(ps);
    }
    if Parse(Join(ps)) == Some(ps) {
      SplitsToSeparable(ps);
    }
  }

  // ----- The code -----

  /** What the loop still has to add: the part begun, and the rest. */
  function Finish(done: seq<Name>, part: Name, rest: Option<seq<Name>>): Option<seq<Name>>
    requires rest.Some? ==> rest.value != []
  {
    match rest
    case None => None
    case Some(ps) => Some(done + [part + ps[0]] + ps[1..])
  }

  method ParseCanonicalName(name: Name) returns (r: Option<seq<Name>>)
    ensures r == Parse(name)
  {
    var result: seq<Name> := [];
    var nested, last := 0, 0;
    FinishStart(name);
    for i := 0 to |name|
      invariant 0 <= last <= i && nested >= 0
      invariant Finish(result, name[last..i], Split(name[i..], nested)) == Parse(name)
    {
      var c := name[i];
      assert name[i..][0] == c && name[i..][1..] == name[i + 1..];
      FinishStep(result, name[last..i], c, nested, name[i + 1..]);
      if nested == 0 && c == DOT {
        result := result + [name[last..i]];
        last := i + 1;
        assert name[last..i + 1] == [];
      } else {
        assert name[last..i + 1] == name[last..i] + [c];
        if c == OPEN {
          nested := nested + 1;
        } else if c == CLOSE {
          if nested == 0 {
            return None;
          }
          nested := nested - 1;
        }
      }
    }
    assert name[|name|..] == [] && name[last..|name|] + [] == name[last..];
    result := result + [name[last..]];
    assert result + [] == result;
    r := Some(result);
  }

  lemma FinishStart(name: Name)
    ensures Finish([], name[0..0], Split(name[0..], 0)) == Parse(name)
  {
    assert name[0..] == name && name[0..0] == [];
    var r := Split(name, 0);
    if r.Some? {
      assert [] + r.value[0] == r.value[0];
      assert [] + [r.value[0]] + r.value[1..] == r.value;
    }
  }

  lemma FinishStep(done: seq<Name>, part: Name, c: Byte, depth: nat, rest: Name)
    ensures var here := Finish(done, part, Split([c] + rest, depth));
      if depth == 0 && c == DOT then here == Finish(done + [part], [], Split(rest, 0))
      else match Step(c, depth)
           case None => here == None
           case Some(d) => here == Finish(done, part + [c], Split(rest, d))
  {
    assert ([c] + rest)[0] == c && ([c] + rest)[1..] == rest;
    if depth == 0 && c == DOT {
      var r := Split(rest, 0);
      if r.Some? {
        assert ([[]] + r.value)[1..] == r.value && [] + r.value[0] == r.value[0] && part + [] == part;
        assert done + [part] + r.value == done + [part] + [r.value[0]] + r.value[1..];
      }
    } else if Step(c, depth).Some? {
      var r := Split(rest, Step(c, depth).value);
      if r.Some? {
        assert part + ([c] + r.value[0]) == part + [c] + r.value[0];
        assert ([[c] + r.value[0]] + r.value[1..])[1..] == r.value[1..];
      }
    }
  }

  method JoinName(parts: seq<Name>) returns (r: Name)
    ensures r == Join(parts)
  {
    r := [];
    var first := true;
    for i := 0 to |parts|
      invariant first <==> i == 0
      invariant i > 0 ==> r == Join(parts[..i])
      invariant i == 0 ==> r == []
    {
      if first {
        first := false;
        assert parts[..1] == [parts[0]];
      } else {
        JoinMore(parts[..i], parts[i]);
        assert parts[..i + 1] == parts[..i] + [parts[i]];
        r := r + [DOT];
      }
      r := r + parts[i];
    }
    assert parts[..|parts|] == parts;
  }

  lemma {:induction false} JoinMore(ps: seq<Name>, p: Name)
    requires ps != []
    ensures Join(ps + [p]) == Join(ps) + [DOT] + p
    decreases |ps|
  {
    assert (ps + [p])[1..] == ps[1..] + [p];
    if |ps| == 1 {
      assert ps + [p] == [ps[0], p] && [ps[0], p][1..] == [p];
    } else {
      JoinMore(ps[1..], p);
    }
  }
}
