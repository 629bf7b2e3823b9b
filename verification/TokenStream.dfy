/**
 * The token stream of a generic's body (model/Generic.cc) and of an annotation's token list
 * (compiler/TokSerializer.cc): one record per token, with extra records where the file name or the
 * line changes.  Columns are kept out of the digest.
 */
module TokenStream {
  import opened Wire

  type Int32 = n: int | -0x8000_0000 <= n < 0x8000_0000

  /** Conversions between int and unsigned int. */
  function Unsigned(n: Int32): UInt32 {
    n % WORD
  }

  function Signed(u: UInt32): Int32 {
    if u < 0x8000_0000 then u else u - WORD
  }

  datatype Location = Location(file: seq<Byte>, line: Int32, start: Int32, end: int)

  /** A token; its type is the persisted number of the enumeration in parser/Token.h. */
  datatype Token = Token(kind: UInt32, data: seq<Byte>, loc: Location)

  const END: UInt32 := 50
  const FILE_NAME: UInt32 := 125
  const LINE_NUMBER: UInt32 := 126
  const NOWHERE := Location([], 0, 0, 0)

  /** identifiers, integers, strings, and float, octal, hexadecimal and binary literals. */
  predicate HasData(kind: UInt32) {
    kind in {54, 56, 72, 78, 79, 80, 81}
  }

  /** The text a token of a type without data is read back with (the TOKTXT table). */
  function Text(kind: UInt32): seq<Byte> {
    match kind
    case 0 => [64] case 1 => [38] case 2 => [60, 60] case 3 => [124] case 4 => [62, 62] case 5 => [94]
    case 13 => [36] case 20 => [105, 115]
    case 32 => [61] case 33 => [38, 61] case 34 => [42, 61] case 35 => [60, 60, 61] case 36 => [124, 61]
    case 37 => [62, 62, 61] case 38 => [94, 61] case 39 => [45, 61] case 40 => [37, 61] case 41 => [43, 61]
    case 42 => [47, 61] case 43 => [42] case 44 => [33] case 45 => [58] case 46 => [44] case 47 => [45, 45]
    case 48 => [58, 61] case 49 => [46] case 51 => [61, 61] case 52 => [62, 61] case 53 => [62]
    case 55 => [43, 43] case 57 => [91] case 58 => [123] case 59 => [60, 61] case 60 => [40] case 61 => [60]
    case 62 => [45] case 63 => [33, 61] case 64 => [37] case 65 => [43] case 66 => [63] case 67 => [93]
    case 68 => [125] case 69 => [41] case 70 => [59] case 71 => [47] case 73 => [126] case 76 => [38, 38]
    case 77 => [124, 124] case 82 => [58, 58]
    case _ => []
  }

  /** The file name and line the records so far have established. */
  datatype Cursor = Cursor(file: seq<Byte>, line: Int32)

  // ----- Writing -----

  /** The part of a token's record that is digested. */
  function Head(t: Token): seq<Byte> {
    Varint(t.kind) + if HasData(t.kind) then Blob(t.data) else []
  }

  function Column(t: Token): seq<Byte> {
    Varint(Unsigned(t.loc.start))
  }

  function FileRecord(file: seq<Byte>): seq<Byte> {
    Varint(FILE_NAME) + Blob(file)
  }

  function LineRecord(line: Int32): seq<Byte> {
    Varint(LINE_NUMBER) + Varint(Unsigned(line))
  }

  /** The records before a token's own. */
  function Moves(t: Token, cur: Cursor): seq<Byte> {
    (if t.loc.file != cur.file then FileRecord(t.loc.file) else [])
    + if t.loc.line != cur.line then LineRecord(t.loc.line) else []
  }

  function MoveCount(t: Token, cur: Cursor): nat {
    (if t.loc.file != cur.file then 1 else 0) + if t.loc.line != cur.line then 1 else 0
  }

  function At(t: Token): Cursor {
    Cursor(t.loc.file, t.loc.line)
  }

  function EncodeTokens(ts: seq<Token>, cur: Cursor): seq<Byte> {
    if ts == [] then []
    else Moves(ts[0], cur) + Head(ts[0]) + Column(ts[0]) + EncodeTokens(ts[1..], At(ts[0]))
  }

  /** The digested part. */
  function HashTokens(ts: seq<Token>, cur: Cursor): seq<Byte> {
    if ts == [] then [] else Moves(ts[0], cur) + Head(ts[0]) + HashTokens(ts[1..], At(ts[0]))
  }

  function Records(ts: seq<Token>, cur: Cursor): nat {
    if ts == [] then 0 else MoveCount(ts[0], cur) + 1 + Records(ts[1..], At(ts[0]))
  }

  // ----- Reading -----

  /** One record: the token, the cursor after it, and what was digested. */
  datatype Item = Item(tok: Token, cur: Cursor, hashed: seq<Byte>)

  function Before(src: seq<Byte>, rest: seq<Byte>): seq<Byte> {
    if |rest| <= |src| then src[..|src| - |rest|] else []
  }

  function DecodeToken(src: seq<Byte>, cur: Cursor): (r: Read<Item>)
    ensures r.Got? ==> |r.rest| < |src|
  {
    match ReadVarint(src)
    case EndOfData => EndOfData
    case Overlong => Overlong
    case Got(kind, r1) =>
      if kind == FILE_NAME then
        match ReadBlob(r1)
        case EndOfData => EndOfData
        case Overlong => Overlong
        case Got(file, r2) => Got(Item(Token(kind, [], NOWHERE), cur.(file := file), Before(src, r2)), r2)
      else if kind == LINE_NUMBER then
        match ReadVarint(r1)
        case EndOfData => EndOfData
        case Overlong => Overlong
        case Got(n, r2) => Got(Item(Token(kind, [], NOWHERE), cur.(line := Signed(n)), Before(src, r2)), r2)
      else if HasData(kind) then
        match ReadBlob(r1)
        case EndOfData => EndOfData
        case Overlong => Overlong
        case Got(data, r2) => DecodeColumn(src, cur, kind, data, r2)
      else DecodeColumn(src, cur, kind, Text(kind), r1)
  }

  function DecodeColumn(src: seq<Byte>, cur: Cursor, kind: UInt32, data: seq<Byte>, r: seq<Byte>): (q: Read<Item>)
    ensures q.Got? ==> |q.rest| < |r|
  {
    match ReadVarint(r)
    case EndOfData => EndOfData
    case Overlong => Overlong
    case Got(n, rest) =>
      var c := Signed(n);
      Got(Item(Token(kind, data, Location(cur.file, cur.line, c, c + |data|)), cur, Before(src, r)), rest)
  }

  datatype Body = Body(tokens: seq<Token>, hashed: seq<Byte>)

  /** Generic::deserialize: a given number of records, of which only the tokens proper are kept. */
  function DecodeBody(src: seq<Byte>, cur: Cursor, count: nat): Read<Body>
    decreases count
  {
    if count == 0 then Got(Body([], []), src)
    else
      match DecodeToken(src, cur)
      case EndOfData => EndOfData
      case Overlong => Overlong
      case Got(i, rest) => Join(i, DecodeBody(rest, i.cur, count - 1))
  }

  function Join(i: Item, r: Read<Body>): Read<Body> {
    match r
    case Got(b,
      rest) => Got(Body((if i.tok.kind < FILE_NAME then [i.tok] else []) + b.tokens, i.hashed + b.hashed), rest)
    case _ => r
  }

  // ----- Round trips -----

  /** The end column is recomputed from the text. */
  function Normal(t: Token): Token {
    t.(loc := t.loc.(end := t.loc.start + |t.data|))
  }

  function Normals(ts: seq<Token>): seq<Token> {
    seq(|ts|, i requires 0 <= i < |ts| => Normal(ts[i]))
  }

  /** Tokens whose text the format can carry: any text where it is written, else the fixed one. */
  predicate Carried(t: Token) {
    if HasData(t.kind) then |t.data| < WORD else t.data == Text(t.kind)
  }

  lemma SignedUnsigned(n: Int32)
    ensures Signed(Unsigned(n)) == n
  {
  }

  lemma PrefixBefore(a: seq<Byte>, b: seq<Byte>)
    ensures Before(a + b, b) == a
  {
  }

  lemma ColumnRoundTrip(t: Token, src: seq<Byte>, cur: Cursor, data: seq<Byte>, tail: seq<Byte>)
    requires src == Head(t) + (Column(t) + tail)
    ensures DecodeColumn(src, cur, t.kind, data, Column(t) + tail)
         == Got(Item(Token(t.kind, data, Location(cur.file, cur.line, t.loc.start, t.loc.start + |data|)), cur,
                     Head(t)), tail)
  {
    hide Varint, ReadVarint, Head;
    VarintRoundTrip(Unsigned(t.loc.start), tail);
    SignedUnsigned(t.loc.start);
    PrefixBefore(Head(t), Column(t) + tail);
  }

  /** A record is read back as the token it was written for exactly when the format carries its text. */
  lemma TokenRoundTripIff(t: Token, cur: Cursor, tail: seq<Byte>)
    requires t.kind != FILE_NAME && t.kind != LINE_NUMBER
    ensures DecodeToken(Head(t) + Column(t) + tail, cur)
         == Got(Item(Token(t.kind, t.data, Location(cur.file, cur.line, t.loc.start, t.loc.start + |t.data|)), cur,
                     Head(t)), tail)
       <==> Carried(t)
  {
    hide Varint, ReadVarint, ReadBlob, Text, Before, DecodeColumn;
    var rest := Column(t) + tail;
    var src := Head(t) + Column(t) + tail;
    assert src == Head(t) + rest;
    if HasData(t.kind) {
      assert src == Varint(t.kind) + (Blob(t.data) + rest);
      VarintRoundTrip(t.kind, Blob(t.data) + rest);
      BlobRoundTrip(t.data, rest);
      if |t.data| < WORD {
        ColumnRoundTrip(t, src, cur, t.data, tail);
      } else {
        LongData(t, src, cur, rest);
      }
    } else {
      assert src == Varint(t.kind) + rest;
      VarintRoundTrip(t.kind, rest);
      ColumnRoundTrip(t, src, cur, Text(t.kind), tail);
    }
  }

  /** Over-long data comes back shorter, if at all. */
  lemma LongData(t: Token, src: seq<Byte>, cur: Cursor, rest: seq<Byte>)
    requires |t.data| >= WORD
    ensures var r := ReadBlob(Blob(t.data) + rest);
      r.Got? ==> var q := DecodeColumn(src, cur, t.kind, r.value, r.rest); q.Got? ==> q.value.tok.data != t.data
  {
    hide Varint, ReadVarint;
    var n := |t.data| % WORD;
    assert Blob(t.data) + rest == Varint(n) + (t.data + rest);
    VarintRoundTrip(n, t.data + rest);
  }

  lemma FileRoundTrip(file: seq<Byte>, cur: Cursor, tail: seq<Byte>)
    requires |file| < WORD
    ensures DecodeToken(FileRecord(file) + tail, cur)
         == Got(Item(Token(FILE_NAME, [], NOWHERE), cur.(file := file), FileRecord(file)), tail)
  {
    hide Varint, ReadVarint, ReadBlob, Text, DecodeColumn;
    assert FileRecord(file) + tail == Varint(FILE_NAME) + (Blob(file) + tail);
    VarintRoundTrip(FILE_NAME, Blob(file) + tail);
    BlobRoundTrip(file, tail);
    PrefixBefore(FileRecord(file), tail);
  }

  lemma LineRoundTrip(line: Int32, cur: Cursor, tail: seq<Byte>)
    ensures DecodeToken(LineRecord(line) + tail, cur)
         == Got(Item(Token(LINE_NUMBER, [], NOWHERE), cur.(line := line), LineRecord(line)), tail)
  {
    hide Varint, ReadVarint, ReadBlob, Text, DecodeColumn;
    assert LineRecord(line) + tail == Varint(LINE_NUMBER) + (Varint(Unsigned(line)) + tail);
    VarintRoundTrip(LINE_NUMBER, Varint(Unsigned(line)) + tail);
    VarintRoundTrip(Unsigned(line), tail);
    SignedUnsigned(line);
    PrefixBefore(LineRecord(line), tail);
  }

  /** Reader and writer agree on where they are; the reader may start with any line, because the
      writer starts with line -1, which no token has. */
  predicate Together(t: Token, cur: Cursor, at: Cursor) {
    cur.file == at.file && (cur.line == at.line || t.loc.line != cur.line)
  }

  predicate Writable(t: Token) {
    t.kind < FILE_NAME && Carried(t) && |t.loc.file| < WORD
  }

  lemma MovesRoundTrip(t: Token, cur: Cursor, at: Cursor, tail: seq<Byte>, count: nat)
    requires Together(t, cur, at) && |t.loc.file| < WORD
    ensures DecodeBody(Moves(t, cur) + tail, at, MoveCount(t, cur) + count)
         == Prepend([], Moves(t, cur), DecodeBody(tail, At(t), count))
  {
    hide DecodeToken, Varint, ReadVarint, Blob;
    var f := if t.loc.file != cur.file then FileRecord(t.loc.file) else [];
    var l := if t.loc.line != cur.line then LineRecord(t.loc.line) else [];
    var rest := DecodeBody(tail, At(t), count);
    var mid := Cursor(t.loc.file, at.line);
    assert DecodeBody(l + tail, mid, (if l == [] then 0 else 1) + count) == Prepend([], l, rest) by {
      RecordsNotEmpty(t);
      if t.loc.line != cur.line {
        LineRoundTrip(t.loc.line, mid, tail);
        assert mid.(line := t.loc.line) == At(t);
      } else {
        assert l + tail == tail && mid == At(t);
        PrependNothing(rest);
      }
    }
    RecordsNotEmpty(t);
    assert Moves(t, cur) + tail == f + (l + tail);
    if t.loc.file != cur.file {
      FileRoundTrip(t.loc.file, at, l + tail);
    } else {
      assert f + (l + tail) == l + tail && mid == at;
      PrependNothing(Prepend([], l, rest));
    }
    PrependTwice(f, l, rest);
  }

  lemma RecordsNotEmpty(t: Token)
    ensures FileRecord(t.loc.file) != [] && LineRecord(t.loc.line) != []
  {
  }

  function Prepend(ts: seq<Token>, hashed: seq<Byte>, r: Read<Body>): Read<Body> {
    match r
    case Got(b, rest) => Got(Body(ts + b.tokens, hashed + b.hashed), rest)
    case _ => r
  }

  lemma PrependTwice(a: seq<Byte>, b: seq<Byte>, r: Read<Body>)
    ensures Prepend([], a, Prepend([], b, r)) == Prepend([], a + b, r)
  {
    if r.Got? {
      assert a + (b + r.value.hashed) == a + b + r.value.hashed;
      assert [] + r.value.tokens == r.value.tokens;
    }
  }

  lemma PrependNothing(r: Read<Body>)
    ensures Prepend([], [], r) == r
  {
    if r.Got? {
      assert [] + r.value.tokens == r.value.tokens && [] + r.value.hashed == r.value.hashed;
    }
  }

  lemma TokenThenRest(t: Token, cur: Cursor, tail: seq<Byte>, count: nat)
    requires Writable(t) && cur == At(t)
    ensures DecodeBody(Head(t) + Column(t) + tail, cur, 1 + count) ==
      Prepend([Normal(t)], Head(t), DecodeBody(tail, cur, count))
  {
    hide DecodeToken, Head, Column, Carried;
    TokenRoundTripIff(t, cur, tail);
  }

  /** Every token list whose tokens are writable comes back, with file, line and start column, after
      exactly as many records as the separate count announces; and the reader digests the same bytes. */
  lemma {:induction false} BodyRoundTrip(ts: seq<Token>, cur: Cursor, at: Cursor, tail: seq<Byte>)
    requires forall i :: 0 <= i < |ts| ==> Writable(ts[i])
    requires ts != [] ==> Together(ts[0], cur, at)
    ensures DecodeBody(EncodeTokens(ts, cur) + tail, at, Records(ts, cur)) ==
      Got(Body(Normals(ts), HashTokens(ts, cur)), tail)
    decreases |ts|
  {
    hide DecodeToken, Head, Column, Moves, MoveCount, Writable;
    if ts == [] {
      assert EncodeTokens(ts, cur) + tail == tail;
    } else {
      var t, more := ts[0], EncodeTokens(ts[1..], At(ts[0]));
      var own := Head(t) + Column(t) + (more + tail);
      assert EncodeTokens(ts, cur) + tail == Moves(t, cur) + own;
      BodyRoundTrip(ts[1..], At(t), At(t), tail);
      TokenThenRest(t, At(t), more + tail, Records(ts[1..], At(t)));
      Files(t);
      MovesRoundTrip(t, cur, at, own, 1 + Records(ts[1..], At(t)));
      assert Normals(ts) == [Normal(t)] + Normals(ts[1..]);
      assert [] + ([Normal(t)] + Normals(ts[1..])) == Normals(ts);
      assert HashTokens(ts, cur) == Moves(t, cur) + (Head(t) + HashTokens(ts[1..], At(t)));
    }
  }

  lemma Files(t: Token)
    requires Writable(t)
    ensures |t.loc.file| < WORD
  {
  }

  // ----- Columns and the digest -----

  predicate SameButColumns(ts: seq<Token>, us: seq<Token>) {
    && |ts| == |us|
    && forall i :: 0 <= i < |ts| ==>
         && ts[i].kind == us[i].kind && ts[i].data == us[i].data
         && ts[i].loc.file == us[i].loc.file && ts[i].loc.line == us[i].loc.line
  }

  /** Moving tokens along their lines changes nothing that is digested. */
  lemma {:induction false} DigestIgnoresColumns(ts: seq<Token>, us: seq<Token>, cur: Cursor)
    requires SameButColumns(ts, us)
    ensures HashTokens(ts, cur) == HashTokens(us, cur) && Records(ts, cur) == Records(us, cur)
    decreases |ts|
  {
    if ts != [] {
      DigestIgnoresColumns(ts[1..], us[1..], At(ts[0]));
    }
  }
}
