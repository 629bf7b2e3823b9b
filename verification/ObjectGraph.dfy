/**
 * Sharing-preserving serialization of an object graph: writeObject/readObject and the object maps
 * behind them (model/Serializer.cc, model/Deserializer.cc), with nested "optional" sections that
 * share the maps of their parent (model/NestedDeserializer.h, model/ProtoBuf.h).
 *
 * The class-specific bodies are represented by one shape: a data blob, a counted list of object
 * references, and an optional section holding further references behind field headers.
 */
module ObjectGraph {
  import opened Wire

  /** An address stands for the pointer that identifies an object. */
  datatype Node = Node(data: seq<Byte>, children: seq<nat>, optional: seq<nat>)

  type Graph = map<nat, Node>

  /** CRACK_PB_KEY(3, ref) */
  const REF_FIELD: UInt32 := 27

  ghost predicate Acyclic(g: Graph, rank: map<nat, nat>) {
    forall o :: o in g ==>
                  && o in rank
                  && Below(g, rank, g[o].children, rank[o])
                  && Below(g, rank, g[o].optional, rank[o])
  }

  ghost predicate Below(g: Graph, rank: map<nat, nat>, objs: seq<nat>, bound: nat) {
    forall i :: 0 <= i < |objs| ==> objs[i] in g && objs[i] in rank && rank[objs[i]] < bound
  }

  // ----- Writing -----

  /** The writer's object map: ids are handed out in order, before the body is written. */
  datatype Enc = Enc(ids: map<nat, nat>, last: nat)

  ghost predicate Grows(e: Enc, e': Enc, bytes: seq<Byte>) {
    && (forall o :: o in e.ids ==> o in e'.ids && e'.ids[o] == e.ids[o])
    && e.last <= e'.last && 4 * (e'.last - e.last) <= |bytes|
  }

  ghost function EncodeObj(g: Graph, rank: map<nat, nat>, o: nat, e: Enc): (r: (seq<Byte>, Enc))
    requires Acyclic(g, rank) && o in g
    ensures Grows(e, r.1, r.0) && r.0 != []
    decreases rank[o], 2, 0
  {
    if o in e.ids then (Varint(e.ids[o] * 2 % WORD), e)
    else
      var body := EncodeBody(g, rank, o, Enc(e.ids[o := e.last], e.last + 1));
      (Varint((e.last * 2 + 1) % WORD) + body.0, body.1)
  }

  ghost function EncodeBody(g: Graph, rank: map<nat, nat>, o: nat, e: Enc): (r: (seq<Byte>, Enc))
    requires Acyclic(g, rank) && o in g
    ensures |r.0| >= 3 && Grows(e, r.1, r.0[3..])
    decreases rank[o], 1, 0
  {
    var kids := EncodeAll(g, rank, g[o].children, rank[o], e);
    var section := EncodeFields(g, rank, g[o].optional, rank[o], kids.1);
    (Body(g[o], kids.0, section.0), section.1)
  }

  function Body(n: Node, kids: seq<Byte>, section: seq<Byte>): (r: seq<Byte>)
    ensures |r| >= 3 + |n.data| + |kids| + |section|
  {
    Blob(n.data) + (Varint(|n.children| % WORD) + (kids + Blob(section)))
  }

  ghost function EncodeAll(g: Graph, rank: map<nat, nat>, objs: seq<nat>, bound: nat, e: Enc)
    : (r: (seq<Byte>, Enc))
    requires Acyclic(g, rank) && Below(g, rank, objs, bound)
    ensures Grows(e, r.1, r.0) && |r.0| >= |objs|
    decreases bound, 0, |objs|
  {
    if objs == [] then ([], e)
    else
      var first := EncodeObj(g, rank, objs[0], e);
      var others := EncodeAll(g, rank, objs[1..], bound, first.1);
      (first.0 + others.0, others.1)
  }

  ghost function EncodeFields(g: Graph, rank: map<nat, nat>, objs: seq<nat>, bound: nat, e: Enc)
    : (r: (seq<Byte>, Enc))
    requires Acyclic(g, rank) && Below(g, rank, objs, bound)
    ensures Grows(e, r.1, r.0)
    decreases bound, 0, |objs|
  {
    if objs == [] then ([], e)
    else
      var first := EncodeObj(g, rank, objs[0], e);
      var others := EncodeFields(g, rank, objs[1..], bound, first.1);
      (Varint(REF_FIELD) + (first.0 + others.0), others.1)
  }

  /** The bytes of an object 5 with data 09 that refers to object 6 twice and, in its optional section, once
      more: 5 is new and gets id 0, 6 is new and gets id 1, and the other references are to id 1. */
  lemma SampleBytes(g: Graph, rank: map<nat, nat>)
    requires g == map[5 := Node([9], [6, 6], [6]), 6 := Node([], [], [])] && Acyclic(g, rank)
    ensures EncodeObj(g, rank, 5, Enc(map[], 0)).0 == [1, 1, 9, 2, 3, 0, 0, 0, 2, 2, 27, 2]
  {
    hide EncodeAll, EncodeFields, Body, Varint;
    var e1, e2 := Enc(map[5 := 0], 1), Enc(map[5 := 0, 6 := 1], 2);
    SampleLeaf(g, rank, e1, e2);
    SampleNumbers();
    SampleLists(g, rank, e1, e2);
    SampleBody();
    assert [1] + [1, 9, 2, 3, 0, 0, 0, 2, 2, 27, 2] == [1, 1, 9, 2, 3, 0, 0, 0, 2, 2, 27, 2];
  }

  lemma SampleNumbers()
    ensures Varint(0) == [0] && Varint(1) == [1] && Varint(2) == [2] && Varint(3) == [3] && Varint(27) == [27]
  {
  }

  lemma SampleBody()
    ensures Body(Node([], [], []), [], []) == [0, 0, 0]
    ensures Body(Node([9], [6, 6], [6]), [3, 0, 0, 0, 2], [27, 2]) == [1, 9, 2, 3, 0, 0, 0, 2, 2, 27, 2]
  {
    hide Varint;
    SampleNumbers();
  }

  lemma SampleLeaf(g: Graph, rank: map<nat, nat>, e1: Enc, e2: Enc)
    requires Acyclic(g, rank) && 6 in g && g[6] == Node([], [], [])
    requires e1 == Enc(map[5 := 0], 1) && e2 == Enc(map[5 := 0, 6 := 1], 2)
    ensures EncodeObj(g, rank, 6, e1) == ([3, 0, 0, 0], e2) && EncodeObj(g, rank, 6, e2) == ([2], e2)
  {
    hide Body, Varint;
    SampleNumbers();
    SampleBody();
    assert e1.ids[6 := 1] == e2.ids;
    assert EncodeAll(g, rank, g[6].children, rank[6], e2) == ([], e2);
    assert EncodeFields(g, rank, g[6].optional, rank[6], e2) == ([], e2);
    assert EncodeBody(g, rank, 6, e2) == ([0, 0, 0], e2);
    assert [3] + [0, 0, 0] == [3, 0, 0, 0];
  }

  lemma SampleLists(g: Graph, rank: map<nat, nat>, e1: Enc, e2: Enc)
    requires Acyclic(g, rank) && 5 in g && 6 in g && g[5] == Node([9], [6, 6], [6])
    requires EncodeObj(g, rank, 6, e1) == ([3, 0, 0, 0], e2) && EncodeObj(g, rank, 6, e2) == ([2], e2)
    ensures EncodeAll(g, rank, g[5].children, rank[5], e1) == ([3, 0, 0, 0, 2], e2)
    ensures EncodeFields(g, rank, g[5].optional, rank[5], e2) == ([27, 2], e2)
  {
    hide EncodeObj, Varint;
    SampleNumbers();
    var bound := rank[5];
    assert Below(g, rank, [6, 6], bound) && Below(g, rank, [6], bound);
    assert [6, 6][1..] == [6] && [6][1..] == [];
    assert EncodeAll(g, rank, [6], bound, e2) == ([2], e2) by { assert [2] + [] == [2]; }
    assert [3, 0, 0, 0] + [2] == [3, 0, 0, 0, 2];
    assert [27] + ([2] + []) == [27, 2];
  }

  // ----- Reading -----

  /** The reader's object map, and the objects it has built so far. */
  datatype Dec = Dec(table: map<nat, nat>, heap: Graph, next: nat)

  /** Corrupt stands for the DeserializationError and for the failed assertion on an unknown id. */
  datatype Parsed<+T> = Ok(value: T, dec: Dec, rest: seq<Byte>) | Corrupt

  function DecodeObj(src: seq<Byte>, d: Dec): (r: Parsed<nat>)
    ensures r.Ok? ==> |r.rest| < |src|
    decreases |src|, 0, 0
  {
    match ReadVarint(src)
    case Got(id, rest) =>
      if id % 2 == 1 then DecodeBody(rest, id / 2, d)
      else if id / 2 in d.table then Ok(d.table[id / 2], d, rest)
      else Corrupt
    case _ => Corrupt
  }

  /** The object enters the table only once its body has been read. */
  function DecodeBody(src: seq<Byte>, id: nat, d: Dec): (r: Parsed<nat>)
    ensures r.Ok? ==> |r.rest| < |src|
    decreases |src|, 1, 0
  {
    match ReadBlob(src)
    case Got(data, src1) =>
      (match ReadVarint(src1)
       case Got(n, src2) =>
         (match DecodeAll(src2, n, d)
          case Ok(kids, d1, src3) =>
            (match ReadBlob(src3)
             case Got(section, src4) =>
               (match DecodeFields(section, d1)
                case Ok(opts, d2, _) => Ok(d2.next, Define(d2, id, Node(data, kids, opts)), src4)
                case Corrupt => Corrupt)
             case _ => Corrupt)
          case Corrupt => Corrupt)
       case _ => Corrupt)
    case _ => Corrupt
  }

  function Define(d: Dec, id: nat, n: Node): Dec {
    Dec(d.table[id := d.next], d.heap[d.next := n], d.next + 1)
  }

  function DecodeAll(src: seq<Byte>, n: nat, d: Dec): (r: Parsed<seq<nat>>)
    ensures r.Ok? ==> |r.rest| <= |src|
    decreases |src|, 1, n
  {
    if n == 0 then Ok([], d, src)
    else
      match DecodeObj(src, d)
      case Ok(first, d1, rest) =>
        (match DecodeAll(rest, n - 1, d1)
         case Ok(others, d2, rest2) => Ok([first] + others, d2, rest2)
         case Corrupt => Corrupt)
      case Corrupt => Corrupt
  }

  /** The field loop: it ends with the section, and passes over headers it does not know without
      skipping their payload. */
  function DecodeFields(src: seq<Byte>, d: Dec): (r: Parsed<seq<nat>>)
    ensures r.Ok? ==> |r.rest| <= |src|
    decreases |src|, 1, 0
  {
    match ReadVarint(src)
    case EndOfData => Ok([], d, [])
    case Overlong => Corrupt
    case Got(header, rest) =>
      if header != REF_FIELD then DecodeFields(rest, d)
      else
        match DecodeObj(rest, d)
        case Ok(first, d1, rest1) =>
          (match DecodeFields(rest1, d1)
           case Ok(others, d2, rest2) => Ok([first] + others, d2, rest2)
           case Corrupt => Corrupt)
        case Corrupt => Corrupt
  }

  // ----- The round trip -----

  // One unfolding of each reading loop, so that the proofs below never open more than one.

  lemma ReadsReference(src: seq<Byte>, d: Dec, id: UInt32, rest: seq<Byte>)
    requires ReadVarint(src) == Got(id, rest) && id % 2 == 0 && id / 2 in d.table
    ensures DecodeObj(src, d) == Ok(d.table[id / 2], d, rest)
  {
  }

  lemma ReadsDefinition(src: seq<Byte>, d: Dec, id: nat, data: seq<Byte>, n: UInt32, section: seq<Byte>,
                        kids: seq<nat>, opts: seq<nat>, d1: Dec, d2: Dec,
                        src0: seq<Byte>, src1: seq<Byte>, src2: seq<Byte>, src3: seq<Byte>, src4: seq<Byte>,
                        src5: seq<Byte>)
    requires id * 2 + 1 < WORD && ReadVarint(src) == Got(id * 2 + 1, src0)
    requires ReadBlob(src0) == Got(data, src1) && ReadVarint(src1) == Got(n, src2)
    requires DecodeAll(src2, n, d) == Ok(kids, d1, src3) && ReadBlob(src3) == Got(section, src4)
    requires DecodeFields(section, d1) == Ok(opts, d2, src5)
    ensures DecodeObj(src, d) == Ok(d2.next, Define(d2, id, Node(data, kids, opts)), src4)
  {
    hide ReadVarint, ReadBlob, DecodeAll, DecodeFields;
    assert (id * 2 + 1) % 2 == 1 && (id * 2 + 1) / 2 == id;
  }

  lemma ReadsNext(src: seq<Byte>, n: nat, d: Dec, first: nat, d1: Dec, rest: seq<Byte>,
                  others: seq<nat>, d2: Dec, rest2: seq<Byte>)
    requires n > 0 && DecodeObj(src, d) == Ok(first, d1, rest) && DecodeAll(rest, n - 1, d1) == Ok(others, d2, rest2)
    ensures DecodeAll(src, n, d) == Ok([first] + others, d2, rest2)
  {
    hide DecodeObj;
  }

  lemma ReadsField(src: seq<Byte>, d: Dec, src1: seq<Byte>, first: nat, d1: Dec, rest: seq<Byte>,
                   others: seq<nat>, d2: Dec, rest2: seq<Byte>)
    requires ReadVarint(src) == Got(REF_FIELD, src1) && DecodeObj(src1, d) == Ok(first, d1, rest)
    requires DecodeFields(rest, d1) == Ok(others, d2, rest2)
    ensures DecodeFields(src, d) == Ok([first] + others, d2, rest2)
  {
    hide DecodeObj, ReadVarint;
  }

  function Image(phi: map<nat, nat>, objs: seq<nat>): (r: seq<nat>)
    requires forall i :: 0 <= i < |objs| ==> objs[i] in phi
    ensures |r| == |objs| && forall i :: 0 <= i < |objs| ==> r[i] == phi[objs[i]]
  {
    seq(|objs|, i requires 0 <= i < |objs| => phi[objs[i]])
  }

  ghost predicate Within(objs: seq<nat>, s: set<nat>) {
    forall i :: 0 <= i < |objs| ==> objs[i] in s
  }

  /** `phi` maps a part of `g` closed under references one-to-one onto the whole of `heap`, keeping
      data and references. */
  ghost predicate Isomorphism(g: Graph, heap: Graph, phi: map<nat, nat>) {
    && (forall o :: o in phi ==> o in g && phi[o] in heap)
    && (forall o, p :: o in phi && p in phi && phi[o] == phi[p] ==> o == p)
    && (forall a :: a in heap ==> exists o :: o in phi && phi[o] == a)
    && (forall o :: o in phi ==> Copied(g, heap, phi, o))
  }

  ghost predicate Copied(g: Graph, heap: Graph, phi: map<nat, nat>, o: nat)
    requires o in phi && o in g && phi[o] in heap
  {
    && Within(g[o].children, phi.Keys) && Within(g[o].optional, phi.Keys)
    && heap[phi[o]] == Node(g[o].data, Image(phi, g[o].children), Image(phi, g[o].optional))
  }

  /** What both maps agree on while the objects in `open` have an id but are still being read. */
  ghost predicate InStep(g: Graph, e: Enc, d: Dec, open: set<nat>, phi: map<nat, nat>) {
    && open <= e.ids.Keys && phi.Keys == e.ids.Keys - open
    && (forall o :: o in e.ids ==> e.ids[o] < e.last)
    && (forall o, p :: o in e.ids && p in e.ids && e.ids[o] == e.ids[p] ==> o == p)
    && (forall o :: o in phi ==> e.ids[o] in d.table && d.table[e.ids[o]] == phi[o])
    && (forall a :: a in d.heap ==> a < d.next)
    && Isomorphism(g, d.heap, phi)
  }

  ghost predicate Extends(phi: map<nat, nat>, phi': map<nat, nat>) {
    forall o :: o in phi ==> o in phi' && phi'[o] == phi[o]
  }

  ghost predicate Above(rank: map<nat, nat>, open: set<nat>, bound: nat) {
    forall p :: p in open ==> p in rank && rank[p] >= bound
  }

  lemma {:induction false} ObjRoundTrip(g: Graph, rank: map<nat, nat>, o: nat, e: Enc, d: Dec, open: set<nat>,
                                        phi: map<nat, nat>, tail: seq<Byte>)
    returns (d': Dec, phi': map<nat, nat>)
    requires Acyclic(g, rank) && o in g && InStep(g, e, d, open, phi) && Above(rank, open, rank[o] + 1)
    requires 4 * e.last + |EncodeObj(g, rank, o, e).0| < WORD
    ensures o in phi' && DecodeObj(EncodeObj(g, rank, o, e).0 + tail, d) == Ok(phi'[o], d', tail)
    ensures InStep(g, EncodeObj(g, rank, o, e).1, d', open, phi') && Extends(phi, phi')
    decreases rank[o], 3, 0
  {
    hide Extends, InStep, Acyclic, Varint, DecodeObj, EncodeAll, EncodeFields;
    if o in e.ids {
      KnownObject(g, o, e, d, open, phi, tail);
      d', phi' := d, phi;
    } else {
      hide EncodeObj;
      d', phi' := BodyRoundTrip(g, rank, o, e, d, open, phi, tail, EncodeObj(g, rank, o, e));
    }
  }

  lemma ImageStable(phi: map<nat, nat>, phi': map<nat, nat>, objs: seq<nat>)
    requires Within(objs, phi.Keys) && Extends(phi, phi')
    ensures Within(objs, phi'.Keys) && Image(phi', objs) == Image(phi, objs)
  {
  }

  lemma ExtendsTransitive(phi0: map<nat, nat>, phi1: map<nat, nat>, phi2: map<nat, nat>, phi3: map<nat, nat>)
    requires Extends(phi0, phi1) && Extends(phi1, phi2) && Extends(phi2, phi3)
    ensures Extends(phi0, phi3)
  {
  }

  lemma KnownObject(g: Graph, o: nat, e: Enc, d: Dec, open: set<nat>, phi: map<nat, nat>, tail: seq<Byte>)
    requires InStep(g, e, d, open, phi) && o in e.ids && o !in open && 4 * e.last < WORD
    ensures o in phi && Extends(phi, phi)
    ensures DecodeObj(Varint(e.ids[o] * 2 % WORD) + tail, d) == Ok(phi[o], d, tail)
  {
    hide Isomorphism, Varint, ReadVarint, DecodeObj;
    var id := e.ids[o] * 2;
    VarintRoundTrip(id, tail);
    ReadsReference(Varint(id) + tail, d, id, tail);
  }

  lemma EncodesDefinition(g: Graph, rank: map<nat, nat>, o: nat, e: Enc, kids: (seq<Byte>, Enc),
                          section: (seq<Byte>, Enc))
    requires Acyclic(g, rank) && o in g && o !in e.ids
    requires Below(g, rank, g[o].children, rank[o]) && Below(g, rank, g[o].optional, rank[o])
    requires kids == EncodeAll(g, rank, g[o].children, rank[o], Enc(e.ids[o := e.last], e.last + 1))
    requires section == EncodeFields(g, rank, g[o].optional, rank[o], kids.1)
    requires 4 * e.last + |EncodeObj(g, rank, o, e).0| < WORD
    ensures e.last * 2 + 1 < WORD && |g[o].data| < WORD && |g[o].children| < WORD && |section.0| < WORD
    ensures 4 * (e.last + 1) + |kids.0| < WORD && 4 * kids.1.last + |section.0| < WORD
    ensures EncodeObj(g, rank, o, e) == (Varint(e.last * 2 + 1) + Body(g[o], kids.0, section.0), section.1)
    ensures o in section.1.ids && section.1.ids[o] == e.last
  {
    hide Acyclic, EncodeAll, EncodeFields, Varint, Body, Below;
    var r := EncodeObj(g, rank, o, e);
    assert r == (Varint((e.last * 2 + 1) % WORD) + Body(g[o], kids.0, section.0), section.1);
    hide EncodeObj;
    assert |r.0| >= 4 + |g[o].data| + |kids.0| + |section.0|;
    assert (e.last * 2 + 1) % WORD == e.last * 2 + 1;
  }

  lemma BelowOwn(g: Graph, rank: map<nat, nat>, o: nat)
    requires Acyclic(g, rank) && o in g
    ensures o in rank && Below(g, rank, g[o].children, rank[o]) && Below(g, rank, g[o].optional, rank[o])
  {
  }

  lemma {:induction false} BodyRoundTrip(g: Graph, rank: map<nat, nat>, o: nat, e: Enc, d: Dec, open: set<nat>,
                                         phi: map<nat, nat>, tail: seq<Byte>, r: (seq<Byte>, Enc))
    returns (d': Dec, phi': map<nat, nat>)
    requires Acyclic(g, rank) && o in g && InStep(g, e, d, open, phi) && Above(rank, open, rank[o] + 1)
    requires o !in e.ids && r == EncodeObj(g, rank, o, e) && 4 * e.last + |r.0| < WORD
    ensures o in phi' && DecodeObj(r.0 + tail, d) == Ok(phi'[o], d', tail)
    ensures InStep(g, r.1, d', open, phi') && Extends(phi, phi')
    decreases rank[o], 2, 0
  {
    hide Extends, InStep, Below, Acyclic, Varint, Blob, Body, DecodeObj, DecodeAll, DecodeFields;
    hide EncodeObj, EncodeAll, EncodeFields;
    BelowOwn(g, rank, o);
    ReserveInStep(g, o, e, d, open, phi);
    var n := g[o];
    var e0 := Enc(e.ids[o := e.last], e.last + 1);
    var kids := EncodeAll(g, rank, n.children, rank[o], e0);
    var section := EncodeFields(g, rank, n.optional, rank[o], kids.1);
    EncodesDefinition(g, rank, o, e, kids, section);
    var d1, phi1 := AllRoundTrip(g, rank, n.children, rank[o], e0, d, open + {o}, phi, Blob(section.0) + tail);
    var d2, phi2 := FieldsRoundTrip(g, rank, n.optional, rank[o], kids.1, d1, open + {o}, phi1);
    d', phi' := CompleteDefinition(g, o, e.last, kids.0, section.0, section.1, d, d1, d2, open, phi1, phi2, tail);
    ExtendsTransitive(phi, phi1, phi2, phi');
    assert DecodeObj(r.0 + tail, d) == Ok(phi'[o], d', tail);
  }

  /** The definition of an object is read once its two lists of references can be. */
  lemma CompleteDefinition(g: Graph, o: nat, id: nat, kids: seq<Byte>, section: seq<Byte>, e2: Enc,
                           d: Dec, d1: Dec, d2: Dec, open: set<nat>, phi1: map<nat, nat>, phi2: map<nat, nat>,
                           tail: seq<Byte>)
    returns (d': Dec, phi': map<nat, nat>)
    requires o in g && o !in open && |g[o].data| < WORD && |g[o].children| < WORD && |section| < WORD &&
      id * 2 + 1 < WORD
    requires InStep(g, e2, d2, open + {o}, phi2) && o in e2.ids && e2.ids[o] == id && Extends(phi1, phi2)
    requires Within(g[o].children, phi1.Keys) && Within(g[o].optional, phi2.Keys)
    requires DecodeAll(kids + (Blob(section) + tail), |g[o].children|, d)
             == Ok(Image(phi1, g[o].children), d1, Blob(section) + tail)
    requires DecodeFields(section, d1) == Ok(Image(phi2, g[o].optional), d2, [])
    ensures o in phi' && Extends(phi2, phi') && InStep(g, e2, d', open, phi')
    ensures DecodeObj(Varint(id * 2 + 1) + Body(g[o], kids, section) + tail, d) == Ok(phi'[o], d', tail)
  {
    hide InStep, Varint, ReadVarint, Blob, ReadBlob, Body, DecodeObj, DecodeAll, DecodeFields;
    var n := g[o];
    ImageStable(phi1, phi2, n.children);
    var node := Node(n.data, Image(phi2, n.children), Image(phi2, n.optional));
    d', phi' := Define(d2, id, node), phi2[o := d2.next];
    DefineInStep(g, o, e2, d2, open, phi2, node);
    BodyReads(n, id, kids, section, tail);
    var src2 := kids + (Blob(section) + tail);
    ReadsDefinition(Varint(id * 2 + 1) + Body(n, kids, section) + tail, d, id, n.data, |n.children|, section,
                    node.children, node.optional, d1, d2, Body(n, kids, section) + tail,
                    Varint(|n.children|) + src2, src2, Blob(section) + tail, tail, []);
  }

  /** Handing out an id opens the object. */
  lemma ReserveInStep(g: Graph, o: nat, e: Enc, d: Dec, open: set<nat>, phi: map<nat, nat>)
    requires InStep(g, e, d, open, phi) && o !in e.ids
    ensures InStep(g, Enc(e.ids[o := e.last], e.last + 1), d, open + {o}, phi)
  {
  }

  /** The pieces of a definition are found again one after the other. */
  lemma BodyReads(n: Node, id: nat, kids: seq<Byte>, section: seq<Byte>, tail: seq<Byte>)
    requires |n.data| < WORD && |n.children| < WORD && |section| < WORD && id * 2 + 1 < WORD
    ensures var src2 := kids + (Blob(section) + tail);
            var src1 := Varint(|n.children|) + src2;
            && ReadVarint(Varint(id * 2 + 1) + Body(n, kids, section) + tail)
               == Got(id * 2 + 1, Body(n, kids, section) + tail)
            && ReadBlob(Body(n, kids, section) + tail) == Got(n.data, src1)
            && ReadVarint(src1) == Got(|n.children|, src2)
            && ReadBlob(Blob(section) + tail) == Got(section, tail)
  {
    hide Varint, ReadVarint, Blob, ReadBlob;
    var body := Body(n, kids, section);
    var src2 := kids + (Blob(section) + tail);
    var src1 := Varint(|n.children|) + src2;
    assert Varint(id * 2 + 1) + body + tail == Varint(id * 2 + 1) + (body + tail);
    VarintRoundTrip(id * 2 + 1, body + tail);
    assert body + tail == Blob(n.data) + src1;
    BlobRoundTrip(n.data, src1);
    VarintRoundTrip(|n.children|, src2);
    BlobRoundTrip(section, tail);
  }

  /** Registering the object under the id it was given keeps the two maps in step. */
  lemma DefineInStep(g: Graph, o: nat, e: Enc, d: Dec, open: set<nat>, phi: map<nat, nat>, node: Node)
    requires o in g && o in e.ids && o !in open && InStep(g, e, d, open + {o}, phi)
    requires Within(g[o].children, phi.Keys) && Within(g[o].optional, phi.Keys)
    requires node == Node(g[o].data, Image(phi, g[o].children), Image(phi, g[o].optional))
    ensures InStep(g, e, Define(d, e.ids[o], node), open, phi[o := d.next])
    ensures Extends(phi, phi[o := d.next])
  {
    hide Isomorphism, Image;
    GrowIsomorphism(g, d.heap, phi, o, d.next, node);
    assert phi[o := d.next].Keys == e.ids.Keys - open;
  }

  lemma GrowIsomorphism(g: Graph, heap: Graph, phi: map<nat, nat>, o: nat, a: nat, node: Node)
    requires Isomorphism(g, heap, phi) && o in g && o !in phi && a !in heap
    requires Within(g[o].children, phi.Keys) && Within(g[o].optional, phi.Keys)
    requires node == Node(g[o].data, Image(phi, g[o].children), Image(phi, g[o].optional))
    ensures Isomorphism(g, heap[a := node], phi[o := a])
  {
    var phi', heap' := phi[o := a], heap[a := node];
    forall b | b in heap'
      ensures exists p :: p in phi' && phi'[p] == b
    {
      if b == a {
        assert phi'[o] == b;
      } else {
        var p :| p in phi && phi[p] == b;
        assert phi'[p] == b;
      }
    }
    forall p | p in phi'
      ensures Copied(g, heap', phi', p)
    {
      assert p != o ==> Copied(g, heap, phi, p);
      assert Image(phi', g[p].children) == Image(phi, g[p].children);
      assert Image(phi', g[p].optional) == Image(phi, g[p].optional);
    }
  }

  lemma {:induction false} AllRoundTrip(g: Graph, rank: map<nat, nat>, objs: seq<nat>, bound: nat, e: Enc, d: Dec,
                                        open: set<nat>, phi: map<nat, nat>, tail: seq<Byte>)
    returns (d': Dec, phi': map<nat, nat>)
    requires Acyclic(g, rank) && Below(g, rank, objs, bound)
    requires InStep(g, e, d, open, phi) && Above(rank, open, bound)
    requires 4 * e.last + |EncodeAll(g, rank, objs, bound, e).0| < WORD
    ensures Within(objs, phi'.Keys)
    ensures DecodeAll(EncodeAll(g, rank, objs, bound, e).0 + tail, |objs|, d) == Ok(Image(phi', objs), d', tail)
    ensures InStep(g, EncodeAll(g, rank, objs, bound, e).1, d', open, phi') && Extends(phi, phi')
    decreases bound, 1, |objs|
  {
    hide Acyclic, InStep, Varint, ReadVarint, EncodeObj, DecodeObj;
    if objs == [] {
      d', phi' := d, phi;
      assert EncodeAll(g, rank, objs, bound, e).0 + tail == tail;
    } else {
      hide DecodeAll;
      var (first, e1) := EncodeObj(g, rank, objs[0], e);
      var others := EncodeAll(g, rank, objs[1..], bound, e1).0;
      var d1, phi1 := ObjRoundTrip(g, rank, objs[0], e, d, open, phi, others + tail);
      d', phi' := AllRoundTrip(g, rank, objs[1..], bound, e1, d1, open, phi1, tail);
      assert (first + others) + tail == first + (others + tail);
      ReadsNext(first + (others + tail), |objs|, d, phi1[objs[0]], d1, others + tail,
                Image(phi', objs[1..]), d', tail);
      assert Image(phi', objs) == [phi1[objs[0]]] + Image(phi', objs[1..]);
    }
  }

  lemma {:induction false} FieldsRoundTrip(g: Graph, rank: map<nat, nat>, objs: seq<nat>, bound: nat, e: Enc, d: Dec,
                                           open: set<nat>, phi: map<nat, nat>)
    returns (d': Dec, phi': map<nat, nat>)
    requires Acyclic(g, rank) && Below(g, rank, objs, bound)
    requires InStep(g, e, d, open, phi) && Above(rank, open, bound)
    requires 4 * e.last + |EncodeFields(g, rank, objs, bound, e).0| < WORD
    ensures Within(objs, phi'.Keys)
    ensures DecodeFields(EncodeFields(g, rank, objs, bound, e).0, d) == Ok(Image(phi', objs), d', [])
    ensures InStep(g, EncodeFields(g, rank, objs, bound, e).1, d', open, phi') && Extends(phi, phi')
    decreases bound, 1, |objs|
  {
    hide Acyclic, InStep, Varint, EncodeObj, DecodeObj;
    if objs == [] {
      d', phi' := d, phi;
    } else {
      hide DecodeFields, ReadVarint;
      var (first, e1) := EncodeObj(g, rank, objs[0], e);
      var others := EncodeFields(g, rank, objs[1..], bound, e1).0;
      VarintRoundTrip(REF_FIELD, first + others);
      var d1, phi1 := ObjRoundTrip(g, rank, objs[0], e, d, open, phi, others);
      d', phi' := FieldsRoundTrip(g, rank, objs[1..], bound, e1, d1, open, phi1);
      ReadsField(Varint(REF_FIELD) + (first + others), d, first + others, phi1[objs[0]], d1, others,
                 Image(phi', objs[1..]), d', []);
      assert Image(phi', objs) == [phi1[objs[0]]] + Image(phi', objs[1..]);
    }
  }

  /** Reading back what was written for `root` yields an isomorphic graph: nothing lost, nothing
      added, and two references meet in the copy exactly when they met in the original. */
  lemma GraphRoundTrip(g: Graph, rank: map<nat, nat>, root: nat, tail: seq<Byte>) returns (d: Dec, phi: map<nat, nat>)
    requires Acyclic(g, rank) && root in g
    requires |EncodeObj(g, rank, root, Enc(map[], 0)).0| < WORD
    ensures root in phi && Isomorphism(g, d.heap, phi)
    ensures DecodeObj(EncodeObj(g, rank, root, Enc(map[], 0)).0 + tail, Dec(map[], map[], 0)) == Ok(phi[root], d, tail)
  {
    d, phi := ObjRoundTrip(g, rank, root, Enc(map[], 0), Dec(map[], map[], 0), {}, map[], tail);
  }

  // ----- The code that reads and writes -----

  ghost function State(m: ObjMap): Enc
    reads m
  {
    Enc(m.ids, m.lastId)
  }

  ghost predicate Wrote(dst: seq<Byte>, hashed: seq<Byte>, out: Serializer, r: (seq<Byte>, Enc))
    reads out, out.objMap
  {
    && State(out.objMap) == r.1 && out.dst == dst + r.0
    && out.hashed == hashed + Digested(out.digestEnabled, r.0)
  }

  method SerializeObj(out: Serializer, g: Graph, ghost rank: map<nat, nat>, o: nat)
    requires Acyclic(g, rank) && o in g
    modifies out, out.objMap
    ensures Wrote(old(out.dst), old(out.hashed), out, old(EncodeObj(g, rank, o, State(out.objMap))))
    ensures out.digestEnabled == old(out.digestEnabled)
    decreases rank[o], 2, 0
  {
    hide Acyclic, Varint, EncodeBody;
    var isNew := out.WriteObject(o);
    if isNew {
      SerializeBody(out, g, rank, o);
    }
  }

  method SerializeBody(out: Serializer, g: Graph, ghost rank: map<nat, nat>, o: nat)
    requires Acyclic(g, rank) && o in g
    modifies out, out.objMap
    ensures Wrote(old(out.dst), old(out.hashed), out, old(EncodeBody(g, rank, o, State(out.objMap))))
    ensures out.digestEnabled == old(out.digestEnabled)
    decreases rank[o], 1, 0
  {
    hide Varint, Blob, EncodeAll, EncodeFields, Acyclic;
    BelowOwn(g, rank, o);
    out.WriteBlob(g[o].data);
    out.WriteUInt(|g[o].children| % WORD);
    SerializeAll(out, g, rank, g[o].children, rank[o]);
    ghost var kids := old(EncodeAll(g, rank, g[o].children, rank[o], State(out.objMap))).0;
    var sub := new Serializer(out.objMap);
    SerializeFields(sub, g, rank, g[o].optional, rank[o]);
    ghost var section := sub.dst;
    out.WriteBlob(sub.dst);
    Regroup(old(out.dst), Blob(g[o].data), Varint(|g[o].children| % WORD), kids, Blob(section));
    Regroup(old(out.hashed), Blob(g[o].data), Varint(|g[o].children| % WORD), kids, Blob(section));
    assert sub.dst == [] + section;
    assert out.dst == old(out.dst) + Body(g[o], kids, section);
    assert section == EncodeFields(g, rank, g[o].optional, rank[o],
                                   old(EncodeAll(g, rank, g[o].children, rank[o], State(out.objMap))).1).0;
    assert out.hashed == old(out.hashed) + Digested(out.digestEnabled, Body(g[o], kids, section));
  }

  lemma Regroup(s: seq<Byte>, a: seq<Byte>, b: seq<Byte>, c: seq<Byte>, d: seq<Byte>)
    ensures s + a + b + c + d == s + (a + (b + (c + d)))
    ensures s + [] + [] + [] + [] == s
  {
  }

  method SerializeAll(out: Serializer, g: Graph, ghost rank: map<nat, nat>, objs: seq<nat>, ghost bound: nat)
    requires Acyclic(g, rank) && Below(g, rank, objs, bound)
    modifies out, out.objMap
    ensures Wrote(old(out.dst), old(out.hashed), out, old(EncodeAll(g, rank, objs, bound, State(out.objMap))))
    ensures out.digestEnabled == old(out.digestEnabled)
    decreases bound, 0, |objs|
  {
    hide Acyclic, EncodeObj;
    ghost var all := EncodeAll(g, rank, objs, bound, State(out.objMap));
    ghost var done: seq<Byte> := [];
    assert objs[0..] == objs;
    for i := 0 to |objs|
      invariant out.digestEnabled == old(out.digestEnabled)
      invariant all.0 == done + EncodeAll(g, rank, objs[i..], bound, State(out.objMap)).0
      invariant all.1 == EncodeAll(g, rank, objs[i..], bound, State(out.objMap)).1
      invariant Wrote(old(out.dst), old(out.hashed), out, (done, State(out.objMap)))
    {
      ghost var now := EncodeObj(g, rank, objs[i], State(out.objMap));
      assert objs[i..][0] == objs[i] && objs[i..][1..] == objs[i + 1..];
      SerializeObj(out, g, rank, objs[i]);
      done := done + now.0;
    }
  }

  lemma FieldsStep(g: Graph, rank: map<nat, nat>, objs: seq<nat>, i: nat, bound: nat, e: Enc)
    requires Acyclic(g, rank) && Below(g, rank, objs, bound) && i < |objs|
    ensures var now := EncodeObj(g, rank, objs[i], e); var rest := EncodeFields(g, rank, objs[i + 1..], bound, now.1);
      EncodeFields(g, rank, objs[i..], bound, e) == (Varint(REF_FIELD) + (now.0 + rest.0), rest.1)
  {
    hide Acyclic, EncodeObj, Varint;
    assert objs[i..][0] == objs[i] && objs[i..][1..] == objs[i + 1..];
  }

  lemma NoFields(g: Graph, rank: map<nat, nat>, bound: nat, e: Enc)
    requires Acyclic(g, rank)
    ensures EncodeFields(g, rank, [], bound, e) == ([], e)
  {
  }

  method SerializeFields(out: Serializer, g: Graph, ghost rank: map<nat, nat>, objs: seq<nat>, ghost bound: nat)
    requires Acyclic(g, rank) && Below(g, rank, objs, bound)
    modifies out, out.objMap
    ensures Wrote(old(out.dst), old(out.hashed), out, old(EncodeFields(g, rank, objs, bound, State(out.objMap))))
    ensures out.digestEnabled == old(out.digestEnabled)
    decreases bound, 0, |objs|
  {
    hide Acyclic, EncodeObj, EncodeFields, Varint;
    ghost var all := EncodeFields(g, rank, objs, bound, State(out.objMap));
    ghost var done: seq<Byte> := [];
    assert objs[0..] == objs;
    for i := 0 to |objs|
      invariant out.digestEnabled == old(out.digestEnabled)
      invariant all.0 == done + EncodeFields(g, rank, objs[i..], bound, State(out.objMap)).0
      invariant all.1 == EncodeFields(g, rank, objs[i..], bound, State(out.objMap)).1
      invariant Wrote(old(out.dst), old(out.hashed), out, (done, State(out.objMap)))
    {
      ghost var now := EncodeObj(g, rank, objs[i], State(out.objMap));
      FieldsStep(g, rank, objs, i, bound, State(out.objMap));
      out.WriteUInt(REF_FIELD);
      SerializeObj(out, g, rank, objs[i]);
      done := done + (Varint(REF_FIELD) + now.0);
    }
    assert objs[|objs|..] == [];
    NoFields(g, rank, bound, State(out.objMap));
  }

  /** The reader's object map together with the objects allocated so far. */
  class Loader {
    var table: map<nat, nat>
    var heap: Graph
    var next: nat

    constructor ()
      ensures Value() == Dec(map[], map[], 0)
    {
      table, heap, next := map[], map[], 0;
    }

    ghost function Value(): Dec
      reads this
    {
      Dec(table, heap, next)
    }
  }

  lemma ConsumesNothing(all: seq<Byte>, hashed: seq<Byte>, enabled: bool)
    ensures Consumes(all, hashed, enabled, all, hashed)
  {
  }

  /** `None` where the source throws or asserts. */
  datatype Option<+T> = None | Some(value: T)

  ghost predicate Reads<T>(spec: Parsed<T>, r: Option<T>, src: Deserializer, m: Loader)
    reads src, m
  {
    match spec
    case Ok(v, d, rest) => r == Some(v) && m.Value() == d && src.src == rest
    case Corrupt => r == None
  }

  method DeserializeObj(src: Deserializer, m: Loader) returns (r: Option<nat>)
    requires !src.eof
    modifies src, m
    ensures Reads(old(DecodeObj(src.src, m.Value())), r, src, m)
    ensures r.Some? ==> !src.eof && Consumes(old(src.src), old(src.hashed), src.digestEnabled, src.src, src.hashed)
    ensures src.digestEnabled == old(src.digestEnabled)
    decreases |src.src|, 0, 0
  {
    hide ReadVarint, DecodeBody;
    var id := src.ReadUInt();
    if !id.Got? {
      return None;
    }
    if id.value % 2 == 1 {
      ghost var mid, h := src.src, src.hashed;
      r := DeserializeBody(src, m, id.value / 2);
      if r.Some? {
        ConsumesFurther(old(src.src), old(src.hashed), src.digestEnabled, mid, h, src.src, src.hashed);
      }
    } else if id.value / 2 in m.table {
      r := Some(m.table[id.value / 2]);
    } else {
      r := None;
    }
  }

  method DeserializeBody(src: Deserializer, m: Loader, id: nat) returns (r: Option<nat>)
    requires !src.eof
    modifies src, m
    ensures Reads(old(DecodeBody(src.src, id, m.Value())), r, src, m)
    ensures r.Some? ==> !src.eof && Consumes(old(src.src), old(src.hashed), src.digestEnabled, src.src, src.hashed)
    ensures src.digestEnabled == old(src.digestEnabled)
    decreases |src.src|, 1, 0
  {
    hide ReadVarint, ReadBlob, DecodeAll, DecodeFields, Consumes;
    var data := src.ReadBytes();
    if !data.Got? {
      return None;
    }
    ghost var src1, h1 := src.src, src.hashed;
    var n := src.ReadUInt();
    if !n.Got? {
      return None;
    }
    ConsumesFurther(old(src.src), old(src.hashed), src.digestEnabled, src1, h1, src.src, src.hashed);
    ghost var src2, h2 := src.src, src.hashed;
    var kids := DeserializeAll(src, m, n.value);
    if kids.None? {
      return None;
    }
    ConsumesFurther(old(src.src), old(src.hashed), src.digestEnabled, src2, h2, src.src, src.hashed);
    ghost var src3, h3 := src.src, src.hashed;
    var section := src.ReadBytes();
    if !section.Got? {
      return None;
    }
    ConsumesFurther(old(src.src), old(src.hashed), src.digestEnabled, src3, h3, src.src, src.hashed);
    var sub := new Deserializer(section.value);
    var opts := DeserializeFields(sub, m);
    if opts.None? {
      return None;
    }
    r := Some(m.next);
    m.heap := m.heap[m.next := Node(data.value, kids.value, opts.value)];
    m.table := m.table[id := m.next];
    m.next := m.next + 1;
  }

  method DeserializeAll(src: Deserializer, m: Loader, n: nat) returns (r: Option<seq<nat>>)
    requires !src.eof
    modifies src, m
    ensures Reads(old(DecodeAll(src.src, n, m.Value())), r, src, m)
    ensures r.Some? ==> !src.eof && Consumes(old(src.src), old(src.hashed), src.digestEnabled, src.src, src.hashed)
    ensures src.digestEnabled == old(src.digestEnabled)
    decreases |src.src|, 1, n
  {
    hide DecodeObj, Consumes;
    var objs: seq<nat> := [];
    ConsumesNothing(src.src, src.hashed, src.digestEnabled);
    ghost var all := DecodeAll(src.src, n, m.Value());
    for i := 0 to n
      invariant |objs| == i && src.digestEnabled == old(src.digestEnabled)
      invariant !src.eof && Consumes(old(src.src), old(src.hashed), src.digestEnabled, src.src, src.hashed)
      invariant |src.src| <= |old(src.src)|
      invariant Continues(all, objs, DecodeAll(src.src, n - i, m.Value()))
    {
      ghost var mid, h := src.src, src.hashed;
      var obj := DeserializeObj(src, m);
      if obj.None? {
        return None;
      }
      ConsumesFurther(old(src.src), old(src.hashed), src.digestEnabled, mid, h, src.src, src.hashed);
      objs := objs + [obj.value];
    }
    assert objs + [] == objs;
    r := Some(objs);
  }

  /** What the whole list reads as, given the part already read. */
  ghost predicate Continues(all: Parsed<seq<nat>>, read: seq<nat>, others: Parsed<seq<nat>>) {
    match others
    case Ok(v, d, rest) => all.Ok? && all.value == read + v && all.dec == d && all.rest == rest
    case Corrupt => all.Corrupt?
  }

  method DeserializeFields(src: Deserializer, m: Loader) returns (r: Option<seq<nat>>)
    requires !src.eof
    modifies src, m
    ensures match old(DecodeFields(src.src, m.Value()))
            case Ok(v, d, _) => r == Some(v) && m.Value() == d
            case Corrupt => r == None
    decreases |src.src|, 1, 0
  {
    hide DecodeObj, ReadVarint;
    var objs: seq<nat> := [];
    ghost var all := DecodeFields(src.src, m.Value());
    while true
      invariant !src.eof && |src.src| <= |old(src.src)|
      invariant Continues(all, objs, DecodeFields(src.src, m.Value()))
      decreases |src.src|
    {
      var header := src.ReadUInt();
      match header {
        case EndOfData =>
          assert objs + [] == objs;
          return Some(objs);
        case Overlong => return None;
        case Got(h, _) =>
          if h == REF_FIELD {
            var obj := DeserializeObj(src, m);
            if obj.None? {
              return None;
            }
            objs := objs + [obj.value];
          }
      }
    }
  }
}
