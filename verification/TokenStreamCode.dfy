/** The loops over the stream: Generic's token functions and TokSerializer. */
module TokenStreamCode {
  import opened Wire
  import opened TokenStream

  /** Generic::serializeToken. */
  method SerializeToken(out: Serializer, tok: Token)
    modifies out
    ensures out.digestEnabled == old(out.digestEnabled)
    ensures out.dst == old(out.dst) + Head(tok) + Column(tok)
    ensures out.hashed == old(out.hashed) + Digested(out.digestEnabled, Head(tok))
  {
    hide Varint, Blob, Head, Digested;
    ghost var d0, h0 := out.dst, out.hashed;
    out.WriteUInt(tok.kind);
    if HasData(tok.kind) {
      out.WriteBlob(tok.data);
      RegroupHash(h0, out.digestEnabled, Varint(tok.kind), Blob(tok.data));
    }
    HeadParts(d0, tok);
    assert out.dst == d0 + Head(tok) && out.hashed == h0 + Digested(out.digestEnabled, Head(tok));
    var saved := out.digestEnabled;
    out.digestEnabled := false;
    ghost var h1 := out.hashed;
    out.WriteUInt(Unsigned(tok.loc.start));
    NotDigested(h1, Varint(Unsigned(tok.loc.start)));
    out.digestEnabled := saved;
  }

  lemma HeadParts(a: seq<Byte>, t: Token)
    ensures HasData(t.kind) ==>
      a + Varint(t.kind) + Blob(t.data) == a + Head(t) && Head(t) == Varint(t.kind) + Blob(t.data)
    ensures !HasData(t.kind) ==> Varint(t.kind) == Head(t)
  {
    hide Varint, Blob;
  }

  lemma NotDigested(h: seq<Byte>, bytes: seq<Byte>)
    ensures h + Digested(false, bytes) == h
  {
  }

  /** Generic::serializeFullToken: answers how many records it wrote. */
  method SerializeFullToken(out: Serializer, cur: Cursor, tok: Token) returns (cur': Cursor, recount: nat)
    modifies out
    ensures out.digestEnabled == old(out.digestEnabled)
    ensures out.dst == old(out.dst) + Moves(tok, cur) + Head(tok) + Column(tok)
    ensures out.hashed == old(out.hashed) + Digested(out.digestEnabled, Moves(tok, cur) + Head(tok))
    ensures cur' == At(tok) && recount == MoveCount(tok, cur) + 1
  {
    hide Varint, Blob, Head, Column, Digested, Moves;
    ghost var d0, h0 := out.dst, out.hashed;
    cur', recount := cur, 0;
    if tok.loc.file != cur'.file {
      cur' := cur'.(file := tok.loc.file);
      out.WriteUInt(FILE_NAME);
      out.WriteBlob(cur'.file);
      RegroupHash(h0, out.digestEnabled, Varint(FILE_NAME), Blob(cur'.file));
      recount := recount + 1;
    }
    ghost var d1, h1 := out.dst, out.hashed;
    if tok.loc.line != cur'.line {
      cur' := cur'.(line := tok.loc.line);
      out.WriteUInt(LINE_NUMBER);
      out.WriteUInt(Unsigned(cur'.line));
      RegroupHash(h1, out.digestEnabled, Varint(LINE_NUMBER), Varint(Unsigned(cur'.line)));
      recount := recount + 1;
    }
    MoveParts(d0, d1, out.dst, tok, cur, true);
    MoveParts(h0, h1, out.hashed, tok, cur, out.digestEnabled);
    DigestedAll(d0, Moves(tok, cur));
    SerializeToken(out, tok);
    RegroupHash(h0, out.digestEnabled, Moves(tok, cur), Head(tok));
    recount := recount + 1;
  }

  lemma DigestedAll(d: seq<Byte>, bytes: seq<Byte>)
    ensures d + Digested(true, bytes) == d + bytes
  {
  }

  lemma MoveParts(d0: seq<Byte>, d1: seq<Byte>, d2: seq<Byte>, t: Token, cur: Cursor, enabled: bool)
    requires t.loc.file != cur.file ==> d1 == d0 + Digested(enabled, Varint(FILE_NAME) + Blob(t.loc.file))
                                        || (enabled && d1 == d0 + Varint(FILE_NAME) + Blob(t.loc.file))
    requires t.loc.file == cur.file ==> d1 == d0
    requires t.loc.line != cur.line ==> d2 == d1 + Digested(enabled, Varint(LINE_NUMBER) + Varint(Unsigned(t.loc.line)))
                                        || (enabled && d2 == d1 + Varint(LINE_NUMBER) + Varint(Unsigned(t.loc.line)))
    requires t.loc.line == cur.line ==> d2 == d1
    ensures d2 == d0 + Digested(enabled, Moves(t, cur))
  {
    hide Varint, Blob;
    var f := if t.loc.file != cur.file then FileRecord(t.loc.file) else [];
    var l := if t.loc.line != cur.line then LineRecord(t.loc.line) else [];
    assert d1 == d0 + Digested(enabled, f);
    assert d2 == d1 + Digested(enabled, l);
    assert Moves(t, cur) == f + l;
  }

  /** The token part of Generic::serialize.  The tokens and the moves between them are counted first;
      the check that as many records are then written never fails. */
  method SerializeBody(out: Serializer, body: seq<Token>)
    modifies out
    ensures out.digestEnabled == old(out.digestEnabled)
    ensures out.dst == old(out.dst) + EncodeBody(body)
    ensures out.hashed == old(out.hashed) + Digested(out.digestEnabled, HashBody(body))
  {
    hide Varint, Head, Column, Moves, MoveCount, Digested;
    ghost var enabled, dst, hashed := out.digestEnabled, out.dst, out.hashed;
    var cur, numTokens := START, |body|;
    assert body[0..] == body;
    for i := 0 to |body|
      invariant out.digestEnabled == enabled && out.dst == dst && out.hashed == hashed
      invariant numTokens >= 0 && numTokens + Records(body[i..], cur) == Records(body, START) + |body[i..]|
    {
      assert body[i..][0] == body[i] && body[i..][1..] == body[i + 1..];
      numTokens := CountMoves(body[i], cur, numTokens);
      cur := At(body[i]);
    }
    assert numTokens == Records(body, START);
    out.WriteUInt(numTokens % WORD);
    var recount := 0;
    cur := START;
    ghost var dst0, hash0 := out.dst, out.hashed;
    for i := 0 to |body|
      invariant out.digestEnabled == enabled
      invariant recount + Records(body[i..], cur) == numTokens
      invariant out.dst + EncodeTokens(body[i..], cur) == dst0 + EncodeTokens(body, START)
      invariant out.hashed + Digested(out.digestEnabled, HashTokens(body[i..], cur))
             == hash0 + Digested(out.digestEnabled, HashTokens(body, START))
    {
      ghost var more := body[i + 1..];
      assert body[i..][0] == body[i] && body[i..][1..] == more;
      ghost var dst1, hash1, cur1 := out.dst, out.hashed, cur;
      var n;
      cur, n := SerializeFullToken(out, cur, body[i]);
      recount := recount + n;
      Regroup(dst1, Moves(body[i], cur1), Head(body[i]), Column(body[i]), EncodeTokens(more, cur));
      RegroupHash(hash1, out.digestEnabled, Moves(body[i], cur1) + Head(body[i]), HashTokens(more, cur));
    }
    assert recount == numTokens;
    BodyParts(dst, Varint(numTokens % WORD), EncodeTokens(body, START), out.dst);
    RegroupHash(hashed, enabled, Varint(numTokens % WORD), HashTokens(body, START));
    NothingMore(out.hashed, enabled);
  }

  lemma BodyParts(a: seq<Byte>, b: seq<Byte>, c: seq<Byte>, d: seq<Byte>)
    requires d + [] == a + b + c
    ensures d == a + (b + c)
  {
    assert d + [] == d && a + b + c == a + (b + c);
  }

  lemma NothingMore(h: seq<Byte>, enabled: bool)
    ensures h + Digested(enabled, []) == h
  {
  }

  /** The writer starts with no file and line -1. */
  const START := Cursor([], -1)

  function EncodeBody(body: seq<Token>): seq<Byte> {
    Varint(Records(body, START) % WORD) + EncodeTokens(body, START)
  }

  function HashBody(body: seq<Token>): seq<Byte> {
    Varint(Records(body, START) % WORD) + HashTokens(body, START)
  }

  lemma Regroup(a: seq<Byte>, b: seq<Byte>, c: seq<Byte>, d: seq<Byte>, e: seq<Byte>)
    ensures a + b + c + d + e == a + (b + c + d + e)
  {
  }

  lemma RegroupHash(a: seq<Byte>, enabled: bool, b: seq<Byte>, c: seq<Byte>)
    ensures a + Digested(enabled, b) + Digested(enabled, c) == a + Digested(enabled, b + c)
  {
  }

  method CountMoves(tok: Token, cur: Cursor, n: nat) returns (m: nat)
    ensures m == n + MoveCount(tok, cur)
  {
    m := n;
    if tok.loc.file != cur.file {
      m := m + 1;
    }
    if tok.loc.line != cur.line {
      m := m + 1;
    }
  }

  /** Generic::deserializeToken. */
  method DeserializeToken(src: Deserializer, cur: Cursor) returns (r: Read<Item>)
    modifies src
    ensures src.digestEnabled == old(src.digestEnabled)
    ensures !old(src.eof) ==> r == DecodeToken(old(src.src), cur)
    ensures old(src.eof) ==> !r.Got?
    ensures r.Got? ==> src.src == r.rest && !src.eof
    ensures r.Got? ==> src.hashed == old(src.hashed) + Digested(src.digestEnabled, r.value.hashed)
  {
    hide ReadVarint, ReadBlob, Text;
    var all := src.src;
    ghost var h0 := src.hashed;
    var kind := src.ReadUInt();
    match kind {
      case EndOfData => return EndOfData;
      case Overlong => return Overlong;
      case Got(k, _) =>
        var text := Text(k);
        ghost var r1, h1 := src.src, src.hashed;
        if k == LINE_NUMBER {
          var n := src.ReadUInt();
          match n {
            case EndOfData => return EndOfData;
            case Overlong => return Overlong;
            case Got(line, rest) =>
              ConsumesFurther(all, h0, src.digestEnabled, r1, h1, src.src, src.hashed);
              return Got(Item(Token(k, [], NOWHERE), cur.(line := Signed(line)), Before(all, src.src)), src.src);
          }
        }
        if HasData(k) || k == FILE_NAME {
          var data := src.ReadBytes();
          match data {
            case EndOfData => return EndOfData;
            case Overlong => return Overlong;
            case Got(d, rest) =>
              ConsumesFurther(all, h0, src.digestEnabled, r1, h1, src.src, src.hashed);
              if k == FILE_NAME {
                return Got(Item(Token(k, [], NOWHERE), cur.(file := d), Before(all, src.src)), src.src);
              }
              text := d;
          }
        }
        var r2 := src.src;
        assert Consumes(all, h0, src.digestEnabled, r2, src.hashed);
        var saved := src.digestEnabled;
        src.digestEnabled := false;
        var column := src.ReadUInt();
        src.digestEnabled := saved;
        match column {
          case EndOfData => return EndOfData;
          case Overlong => return Overlong;
          case Got(n, rest) =>
            var c := Signed(n);
            r := Got(Item(Token(k, text, Location(cur.file, cur.line, c, c + |text|)), cur, Before(all, r2)), src.src);
        }
    }
  }

  /** The token part of Generic::deserialize; `line` is whatever the uninitialized variable holds. */
  method DeserializeBody(src: Deserializer, line: Int32) returns (r: Read<Body>)
    requires !src.eof
    modifies src
    ensures src.digestEnabled == old(src.digestEnabled)
    ensures r == DecodeCounted(old(src.src), Cursor([], line))
    ensures r.Got? ==> src.src == r.rest && src.hashed == old(src.hashed) + Digested(src.digestEnabled, r.value.hashed)
  {
    hide ReadVarint, DecodeToken, Digested, Prepend, Join, Before;
    var all := src.src;
    ghost var h0, enabled := src.hashed, src.digestEnabled;
    var count := src.ReadUInt();
    match count {
      case EndOfData => return EndOfData;
      case Overlong => return Overlong;
      case Got(n, rest) =>
        var start := Before(all, rest);
        ghost var expected := DecodeBody(rest, Cursor([], line), n);
        var cur, body, hashed := Cursor([], line), [], [];
        PrependNothing(expected);
        CountDigested(all, h0, enabled, rest, src.hashed);
        for i := 0 to n
          invariant src.digestEnabled == enabled && !src.eof
          invariant expected == Prepend(body, hashed, DecodeBody(src.src, cur, n - i))
          invariant src.hashed == h0 + Digested(enabled, start) + Digested(enabled, hashed)
        {
          PrependFailure(body, hashed, DecodeBody(src.src, cur, n - i));
          var item := DeserializeToken(src, cur);
          match item {
            case EndOfData => return EndOfData;
            case Overlong => return Overlong;
            case Got(it, more) =>
              Extend(body, hashed, it, DecodeBody(more, it.cur, n - i - 1));
              RegroupHash(h0 + Digested(enabled, start), enabled, hashed, it.hashed);
              cur := it.cur;
              hashed := hashed + it.hashed;
              if it.tok.kind < FILE_NAME {
                body := body + [it.tok];
              }
          }
        }
        PrependEnd(body, hashed, src.src);
        RegroupHash(h0, enabled, start, hashed);
        r := Got(Body(body, start + hashed), src.src);
    }
  }

  lemma CountDigested(all: seq<Byte>, h0: seq<Byte>, enabled: bool, rest: seq<Byte>, h1: seq<Byte>)
    requires Consumes(all, h0, enabled, rest, h1)
    ensures h1 == h0 + Digested(enabled, Before(all, rest)) + Digested(enabled, [])
  {
  }

  lemma PrependFailure(ts: seq<Token>, hashed: seq<Byte>, r: Read<Body>)
    ensures !r.Got? ==> Prepend(ts, hashed, r) == r
  {
  }

  lemma PrependEnd(ts: seq<Token>, hashed: seq<Byte>, rest: seq<Byte>)
    ensures Prepend(ts, hashed, Got(Body([], []), rest)) == Got(Body(ts, hashed), rest)
  {
    assert ts + [] == ts && hashed + [] == hashed;
  }

  lemma Extend(body: seq<Token>, hashed: seq<Byte>, i: Item, r: Read<Body>)
    ensures Prepend(body, hashed, Join(i, r))
         == Prepend(if i.tok.kind < FILE_NAME then body + [i.tok] else body, hashed + i.hashed, r)
  {
    if r.Got? {
      var own := if i.tok.kind < FILE_NAME then [i.tok] else [];
      assert body + (own + r.value.tokens) == body + own + r.value.tokens;
      assert hashed + (i.hashed + r.value.hashed) == hashed + i.hashed + r.value.hashed;
      assert body + [] == body;
    }
  }

  function DecodeCounted(src: seq<Byte>, cur: Cursor): Read<Body> {
    match ReadVarint(src)
    case EndOfData => EndOfData
    case Overlong => Overlong
    case Got(n, rest) =>
      match DecodeBody(rest, cur, n)
      case Got(b, r) => Got(Body(b.tokens, Before(src, rest) + b.hashed), r)
      case EndOfData => EndOfData
      case Overlong => Overlong
  }

  /** What a generic's body is written as is read back as the same body, whatever the reader's line
      variable held, with the same bytes digested. */
  lemma GenericRoundTrip(body: seq<Token>, line: Int32, tail: seq<Byte>)
    requires (forall i :: 0 <= i < |body| ==> Writable(body[i])) && Records(body, START) < WORD
    requires body != [] ==> body[0].loc.line != -1
    ensures DecodeCounted(EncodeBody(body) + tail, Cursor([], line)) == Got(Body(Normals(body), HashBody(body)), tail)
  {
    hide Varint, ReadVarint, DecodeBody, DecodeCounted, Writable, EncodeTokens, HashTokens, Records, Normals;
    var n := Records(body, START);
    BodyRoundTrip(body, START, Cursor([], line), tail);
    CountedRoundTrip(n, EncodeTokens(body, START), Cursor([], line), tail,
      Body(Normals(body), HashTokens(body, START)));
  }

  lemma CountedRoundTrip(n: UInt32, code: seq<Byte>, cur: Cursor, tail: seq<Byte>, b: Body)
    requires DecodeBody(code + tail, cur, n) == Got(b, tail)
    ensures DecodeCounted(Varint(n) + code + tail, cur) == Got(Body(b.tokens, Varint(n) + b.hashed), tail)
  {
    hide Varint, ReadVarint, DecodeBody, Before;
    VarintRoundTrip(n, code + tail);
    PrefixBefore(Varint(n), code + tail);
    assert Varint(n) + code + tail == Varint(n) + (code + tail);
  }

  // ----- TokSerializer -----

  datatype Option<+T> = None | Some(value: T)

  /** Reads tokens until an end token, whose location becomes the list's. */
  function Collect(src: seq<Byte>, cur: Cursor): Read<(seq<Token>, Location)>
    decreases |src|
  {
    match DecodeToken(src, cur)
    case EndOfData => EndOfData
    case Overlong => Overlong
    case Got(i, rest) =>
      if i.tok.kind == END then Got(([], i.tok.loc), rest)
      else
        match Collect(rest, i.cur)
        case Got(p, r) => Got(((if IsMove(i.tok) then [] else [i.tok]) + p.0, p.1), r)
        case EndOfData => EndOfData
        case Overlong => Overlong
  }

  predicate IsMove(t: Token) {
    t.kind == FILE_NAME || t.kind == LINE_NUMBER
  }

  /** A result with tokens in front. */
  function Led(ts: seq<Token>, r: Read<(seq<Token>, Location)>): Read<(seq<Token>, Location)> {
    match r
    case Got(p, rest) => Got((ts + p.0, p.1), rest)
    case _ => r
  }

  lemma LedByNothing(r: Read<(seq<Token>, Location)>)
    ensures Led([], r) == r
  {
    if r.Got? {
      assert [] + r.value.0 == r.value.0;
    }
  }

  lemma LedMore(ts: seq<Token>, us: seq<Token>, r: Read<(seq<Token>, Location)>)
    ensures Led(ts, Led(us, r)) == Led(ts + us, r)
  {
    if r.Got? {
      assert ts + (us + r.value.0) == ts + us + r.value.0;
    }
  }

  lemma CollectNext(src: seq<Byte>, cur: Cursor)
    ensures match DecodeToken(src, cur)
            case EndOfData => Collect(src, cur) == EndOfData
            case Overlong => Collect(src, cur) == Overlong
            case Got(i, rest) =>
              Collect(src, cur) == if i.tok.kind == END then Got(([], i.tok.loc), rest)
                                   else Led(if IsMove(i.tok) then [] else [i.tok], Collect(rest, i.cur))
  {
    hide DecodeToken;
  }

  /** One token of the loop. */
  lemma CollectStep(ts: seq<Token>, src: seq<Byte>, cur: Cursor)
    ensures var d := DecodeToken(src, cur);
      Led(ts, Collect(src, cur))
        == match d
           case EndOfData => EndOfData
           case Overlong => Overlong
           case Got(i, rest) =>
             if i.tok.kind == END then Got((ts, i.tok.loc), rest)
             else Led(if IsMove(i.tok) then ts else ts + [i.tok], Collect(rest, i.cur))
  {
    hide DecodeToken, Collect;
    CollectNext(src, cur);
    assert ts + [] == ts;
    match DecodeToken(src, cur)
    case Got(i, rest) => LedMore(ts, if IsMove(i.tok) then [] else [i.tok], Collect(rest, i.cur));
    case _ =>
  }

  /** What getToken will deliver: the tokens before the first end token. */
  function Readable(ts: seq<Token>): seq<Token> {
    if ts == [] || ts[0].kind == END then [] else [ts[0]] + Readable(ts[1..])
  }

  /** A list that was read in has no end token left in it: all of it will be delivered. */
  lemma {:induction false} CollectedIsReadable(src: seq<Byte>, cur: Cursor)
    ensures var r := Collect(src, cur); r.Got? ==> Readable(r.value.0) == r.value.0
    decreases |src|
  {
    hide DecodeToken;
    match DecodeToken(src, cur)
    case Got(i, rest) =>
      if i.tok.kind != END {
        CollectedIsReadable(rest, i.cur);
        var r := Collect(rest, i.cur);
        if r.Got? {
          assert ([i.tok] + r.value.0)[1..] == r.value.0 && [] + r.value.0 == r.value.0;
        }
      }
    case _ =>
  }

  class TokSerializer {
    var tokens: seq<Token>
    var loc: Option<Location>

    constructor ()
      ensures tokens == [] && loc == None
    {
      tokens, loc := [], None;
    }

    /** TokSerializer::create: false if the data ends or is damaged before an end token. */
    method Load(data: seq<Byte>) returns (ok: bool)
      modifies this
      ensures var r := Collect(data, Cursor([], 0));
        ok == r.Got? && (ok ==> tokens == r.value.0 && loc == Some(r.value.1))
      ensures ok ==> Readable(tokens) == tokens
    {
      CollectedIsReadable(data, Cursor([], 0));
      hide DecodeToken, Digested, Collect, Led;
      var deser := new Deserializer(data);
      var cur := Cursor([], 0);
      tokens, loc := [], None;
      ghost var all := Collect(data, cur);
      LedByNothing(all);
      while true
        invariant fresh(deser) && !deser.eof
        invariant all == Led(tokens, Collect(deser.src, cur))
        decreases |deser.src|
      {
        CollectStep(tokens, deser.src, cur);
        var item := DeserializeToken(deser, cur);
        if !item.Got? {
          return false;
        }
        var tok := item.value.tok;
        cur := item.value.cur;
        if tok.kind == END {
          loc := Some(tok.loc);
          return true;
        }
        if tok.kind != FILE_NAME && tok.kind != LINE_NUMBER {
          tokens := tokens + [tok];
        }
      }
    }

    method Insert(tok: Token)
      modifies this`tokens
      ensures tokens == [tok] + old(tokens)
      ensures tok.kind != END ==> Readable(tokens) == [tok] + Readable(old(tokens))
    {
      tokens := [tok] + tokens;
    }

    /** None for no token, and for an end token, which stays where it is. */
    method GetToken() returns (t: Option<Token>)
      modifies this`tokens
      ensures match t
              case None => Readable(old(tokens)) == [] && tokens == old(tokens)
              case Some(tok) => Readable(old(tokens)) == [tok] + Readable(tokens) && old(tokens) == [tok] + tokens
    {
      if tokens == [] {
        return None;
      }
      var first := tokens[0];
      if first.kind == END {
        return None;
      }
      tokens := tokens[1..];
      t := Some(first);
    }

    /** Writes the tokens, taking the first one's location for the list if it has none, and an end
        token so that a reader knows where to stop. */
    method Serialize() returns (data: seq<Byte>)
      modifies this`loc
      ensures loc == Option.Some(ListLocation(tokens, old(loc)))
              || (tokens == [] && old(loc).None? && loc.None?)
      ensures old(loc).Some? ==> loc == old(loc)
      ensures old(loc).None? && tokens != [] ==> loc == Option.Some(tokens[0].loc)
      ensures data == EncodeTokens(tokens + [EndToken(ListLocation(tokens, old(loc)))], START)
    {
      hide Head, Column, Moves;
      var ids := new ObjMap();
      var ser := new Serializer(ids);
      var cur := START;
      ghost var end := EndToken(ListLocation(tokens, loc));
      ghost var all := tokens + [end];
      assert all[0..] == all;
      for i := 0 to |tokens|
        invariant fresh(ser)
        invariant tokens == old(tokens) && (i == 0 ==> loc == old(loc))
        invariant i > 0 ==> loc == Some(ListLocation(tokens, old(loc)))
        invariant ser.dst + EncodeTokens(all[i..], cur) == EncodeTokens(all, START)
      {
        ghost var dst0, cur0 := ser.dst, cur;
        assert all[i..][0] == tokens[i] && all[i..][1..] == all[i + 1..];
        var n;
        cur, n := SerializeFullToken(ser, cur, tokens[i]);
        Regroup(dst0, Moves(tokens[i], cur0), Head(tokens[i]), Column(tokens[i]), EncodeTokens(all[i + 1..], cur));
        if loc.None? {
          loc := Some(tokens[i].loc);
        }
      }
      assert all[|tokens|..] == [end];
      ghost var dst0, cur0 := ser.dst, cur;
      var _, _ := SerializeFullToken(ser, cur, EndToken(if loc.Some? then loc.value else NOWHERE));
      Regroup(dst0, Moves(end, cur0), Head(end), Column(end), []);
      data := ser.dst;
    }
  }

  function EndToken(loc: Location): Token {
    Token(END, [], loc)
  }

  function ListLocation(tokens: seq<Token>, loc: Option<Location>): Location {
    if loc.Some? then loc.value else if tokens != [] then tokens[0].loc else NOWHERE
  }

  predicate Listable(t: Token) {
    Writable(t) && t.kind != END && t.loc.line != -1
  }

  /** Moves and one token at the head of a list being collected. */
  lemma CollectMoves(t: Token, cur: Cursor, at: Cursor, tail: seq<Byte>)
    requires Together(t, cur, at) && |t.loc.file| < WORD
    ensures Collect(Moves(t, cur) + tail, at) == Collect(tail, At(t))
  {
    hide DecodeToken, Varint;
    var f := if t.loc.file != cur.file then FileRecord(t.loc.file) else [];
    var l := if t.loc.line != cur.line then LineRecord(t.loc.line) else [];
    var mid := Cursor(t.loc.file, at.line);
    assert Collect(l + tail, mid) == Collect(tail, At(t)) by {
      if t.loc.line != cur.line {
        LineRoundTrip(t.loc.line, mid, tail);
        CollectMove(Token(LINE_NUMBER, [], NOWHERE), At(t), l, l + tail, mid, tail);
      } else {
        assert l + tail == tail && mid == At(t);
      }
    }
    assert Moves(t, cur) + tail == f + (l + tail);
    if t.loc.file != cur.file {
      FileRoundTrip(t.loc.file, at, l + tail);
      CollectMove(Token(FILE_NAME, [], NOWHERE), mid, f, f + (l + tail), at, l + tail);
    } else {
      assert f + (l + tail) == l + tail;
    }
  }

  lemma CollectMove(tok: Token, after: Cursor, hashed: seq<Byte>, src: seq<Byte>, cur: Cursor, rest: seq<Byte>)
    requires DecodeToken(src, cur) == Got(Item(tok, after, hashed), rest) && IsMove(tok)
    ensures Collect(src, cur) == Collect(rest, after)
  {
    hide DecodeToken;
    var r := Collect(rest, after);
    if r.Got? {
      assert [] + r.value.0 == r.value.0;
    }
  }

  /** What Serialize writes, Load reads back: the tokens, and the list's location. */
  lemma {:induction false} TokenListRoundTrip(ts: seq<Token>, loc: Location, cur: Cursor, at: Cursor)
    requires (forall i :: 0 <= i < |ts| ==> Listable(ts[i])) && |loc.file| < WORD && loc.line != -1
    requires cur.file == at.file && (cur.line == at.line || cur.line == -1)
    ensures Collect(EncodeTokens(ts + [EndToken(loc)], cur), at)
         == Got((Normals(ts), loc.(end := loc.start)), [])
    decreases |ts|
  {
    hide DecodeToken, Head, Column, Moves, Collect, Carried;
    var all := ts + [EndToken(loc)];
    var t, more := all[0], EncodeTokens(all[1..], At(all[0]));
    var own := Head(t) + Column(t) + more;
    assert EncodeTokens(all, cur) == Moves(t, cur) + own;
    CollectMoves(t, cur, at, own);
    if ts == [] {
      assert all[1..] == [];
      assert Carried(t) by { EndCarried(loc); }
      TokenRoundTripIff(t, At(t), more);
      CollectEnd(t, own, At(t), loc, Head(t), more);
    } else {
      assert all[1..] == ts[1..] + [EndToken(loc)];
      TokenRoundTripIff(t, At(t), more);
      TokenListRoundTrip(ts[1..], loc, At(t), At(t));
      CollectOne(Normal(t), Head(t), own, At(t), more, Normals(ts[1..]), loc.(end := loc.start));
      assert Normals(ts) == [Normal(t)] + Normals(ts[1..]);
    }
  }

  lemma EndCarried(loc: Location)
    ensures Carried(EndToken(loc))
  {
  }

  lemma CollectEnd(t: Token, src: seq<Byte>, cur: Cursor, loc: Location, hashed: seq<Byte>, rest: seq<Byte>)
    requires t == EndToken(loc)
    requires DecodeToken(src, cur)
          == Got(Item(Token(t.kind, t.data, Location(cur.file, cur.line, loc.start, loc.start + |t.data|)), cur,
                      hashed), rest)
    requires cur == At(t)
    ensures Collect(src, cur) == Got(([], loc.(end := loc.start)), rest)
  {
    hide DecodeToken;
  }

  lemma CollectOne(t: Token, hashed: seq<Byte>, src: seq<Byte>, cur: Cursor, rest: seq<Byte>, ts: seq<Token>,
                   loc: Location)
    requires DecodeToken(src, cur) == Got(Item(t, cur, hashed), rest) && t.kind != END && !IsMove(t)
    requires Collect(rest, cur) == Got((ts, loc), [])
    ensures Collect(src, cur) == Got(([t] + ts, loc), [])
  {
    hide DecodeToken;
  }
}
