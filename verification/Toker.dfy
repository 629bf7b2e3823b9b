/**
 * What the tokenizer produces (parser/Toker.cc) against what the token stream gives back: the type and
 * the spelling of every symbol, the keywords, and the tokens whose text is free.
 */
module Toker {
  import opened Wire
  import opened TokenStream
  import opened TokenStreamCode

  /** Characters of a source file are bytes. */
  type Char = c: char | c as int < 256 witness 'a'

  function Bytes(s: seq<Char>): (r: seq<Byte>)
    ensures |r| == |s|
  {
    seq(|s|, i requires 0 <= i < |s| => s[i] as int)
  }

  /** What readToken returns, apart from the location. */
  datatype Lexeme = Lexeme(kind: UInt32, text: seq<Char>)

  // ----- The persisted numbers (parser/Token.h:42) -----

  const ANN := 0
  const BIT_AND := 1
  const BIT_LSH := 2
  const BIT_OR := 3
  const BIT_RSH := 4
  const BIT_XOR := 5
  const DOLLAR := 13
  const IS_KW := 20
  const ASSIGN := 32
  const ASSIGN_AND := 33
  const ASSIGN_ASTERISK := 34
  const ASSIGN_LSH := 35
  const ASSIGN_OR := 36
  const ASSIGN_RSH := 37
  const ASSIGN_XOR := 38
  const ASSIGN_MINUS := 39
  const ASSIGN_PERCENT := 40
  const ASSIGN_PLUS := 41
  const ASSIGN_SLASH := 42
  const ASTERISK := 43
  const BANG := 44
  const COLON := 45
  const COMMA := 46
  const DECR := 47
  const DEFINE := 48
  const DOT := 49
  const EQ := 51
  const GE := 52
  const GT := 53
  const IDENT := 54
  const INCR := 55
  const INTEGER := 56
  const LBRACKET := 57
  const LCURLY := 58
  const LE := 59
  const LPAREN := 60
  const LT := 61
  const MINUS := 62
  const NE := 63
  const PERCENT := 64
  const PLUS := 65
  const QUEST := 66
  const RBRACKET := 67
  const RCURLY := 68
  const RPAREN := 69
  const SEMI := 70
  const SLASH := 71
  const STRING := 72
  const TILDE := 73
  const ISTR_BEGIN := 74
  const ISTR_END := 75
  const LOGIC_AND := 76
  const LOGIC_OR := 77
  const FLOAT_LIT := 78
  const OCTAL_LIT := 79
  const HEX_LIT := 80
  const BIN_LIT := 81
  const SCOPING := 82
  const DOC := 84

  /** The keywords (Toker::fixIdent), each with its number; any other word is an identifier. */
  function FixIdent(word: seq<Char>): UInt32 {
    match word
    case "alias" => 6 case "break" => 7 case "case" => 8 case "catch" => 9 case "class" => 10 case "const" => 11
    case "continue" => 12 case "enum" => 14 case "for" => 15 case "else" => 16 case "if" => 17 case "import" => 18
    case "in" => 19 case "is" => IS_KW case "lambda" => 21 case "module" => 22 case "null" => 23 case "on" => 24
    case "oper" => 25 case "return" => 26 case "switch" => 27 case "throw" => 28 case "try" => 29
    case "typeof" => 30 case "while" => 31 case "do" => 83
    case _ => IDENT
  }

  // ----- Symbols -----

  /** A symbol of one character: `kind`, or nothing if no symbol is just that character. */
  function Single(c: Char): Option<UInt32> {
    match c
    case ';' => Some(SEMI)
    case ',' => Some(COMMA)
    case '(' => Some(LPAREN)
    case ')' => Some(RPAREN)
    case '{' => Some(LCURLY)
    case '}' => Some(RCURLY)
    case '[' => Some(LBRACKET)
    case ']' => Some(RBRACKET)
    case '$' => Some(DOLLAR)
    case '@' => Some(ANN)
    case '~' => Some(TILDE)
    case '?' => Some(QUEST)
    case _ => None
  }

  /** st_digram and st_postaug: c alone, or c and an equals sign. */
  function Augmented(text: seq<Char>, next: Char, alone: UInt32, assign: UInt32): Lexeme {
    if next == '=' then Lexeme(assign, text + ['=']) else Lexeme(alone, text)
  }

  /** st_amp, st_pipe, st_plus, st_minus: twice the character, or one with or without an equals sign. */
  function Doubled(c: Char, next: Char, alone: UInt32, assign: UInt32, twice: UInt32): Lexeme {
    if next == c then Lexeme(twice, [c, c]) else Augmented([c], next, alone, assign)
  }

  /** st_ltgt: the same with a third character after the doubled one. */
  function Shift(src: seq<Char>, alone: UInt32, equal: UInt32, twice: UInt32, assign: UInt32): Option<Lexeme>
    requires |src| > 1
  {
    if src[1] != src[0] then Some(Augmented([src[0]], src[1], alone, equal))
    else if |src| == 2 then None
    else Some(Augmented([src[0], src[0]], src[2], twice, assign))
  }

  predicate IsDigit(c: Char) {
    '0' <= c <= '9'
  }

  /** The symbol that readToken finds at the front of the input, if one stands there; but for the symbols of
      one character, the input has to go on.  (After `=` and `!` the variable t3 of readToken has not been
      set: as if it were not `scoping`.) */
  function ReadSymbol(src: seq<Char>): Option<Lexeme> {
    if src == [] then None
    else if Single(src[0]).Some? then Some(Lexeme(Single(src[0]).value, [src[0]]))
    else if |src| == 1 then None
    else
      var c, next := src[0], src[1];
      match c
      case '=' => Some(Augmented("=", next, ASSIGN, EQ))
      case '!' => Some(Augmented("!", next, BANG, NE))
      case ':' => Some(Doubled(c, next, COLON, DEFINE, SCOPING))
      case '<' => Shift(src, LT, LE, BIT_LSH, ASSIGN_LSH)
      case '>' => Shift(src, GT, GE, BIT_RSH, ASSIGN_RSH)
      case '+' => Some(Doubled(c, next, PLUS, ASSIGN_PLUS, INCR))
      case '-' => Some(Doubled(c, next, MINUS, ASSIGN_MINUS, DECR))
      case '&' => Some(Doubled(c, next, BIT_AND, ASSIGN_AND, LOGIC_AND))
      case '|' => Some(Doubled(c, next, BIT_OR, ASSIGN_OR, LOGIC_OR))
      case '*' => Some(Augmented("*", next, ASTERISK, ASSIGN_ASTERISK))
      case '%' => Some(Augmented("%", next, PERCENT, ASSIGN_PERCENT))
      case '^' => Some(Augmented("^", next, BIT_XOR, ASSIGN_XOR))
      case '/' => if next == '/' || next == '*' then None else Some(Augmented("/", next, SLASH, ASSIGN_SLASH))
      case '.' => if IsDigit(next) then None else Some(Lexeme(DOT, "."))
      case _ => None
  }

  /** A symbol is spelled as in the source. */
  lemma SymbolIsPrefix(src: seq<Char>)
    ensures ReadSymbol(src).Some? ==> var text := ReadSymbol(src).value.text; 0 < |text| <= 3 && text <= src
  {
  }

  // ----- All tokens -----

  /** Identifiers, strings and numbers: the text is whatever stood in the source. */
  predicate IsFree(kind: UInt32) {
    kind in {IDENT, STRING, INTEGER, FLOAT_LIT, OCTAL_LIT, HEX_LIT, BIN_LIT}
  }

  /** The tokens readToken can return. */
  ghost predicate Produced(x: Lexeme) {
    || (exists src :: ReadSymbol(src) == Some(x))
    || x.kind == FixIdent(x.text)
    || IsFree(x.kind)
    || x.kind == DOC
    || ((x.kind == ISTR_BEGIN || x.kind == ISTR_END) && x.text == "`")
    || (x.kind == END && x.text == "")
  }

  /** The tokens whose text is lost: all keywords but `is`, documentation and interpolation marks. */
  predicate IsLost(x: Lexeme) {
    (x.kind == FixIdent(x.text) && x.kind != IDENT && x.kind != IS_KW) || x.kind in {DOC, ISTR_BEGIN, ISTR_END}
  }

  /** The token as it comes back. */
  function Restored(x: Lexeme): seq<Char> {
    if IsLost(x) then "" else x.text
  }

  lemma SymbolText(src: seq<Char>)
    ensures ReadSymbol(src).Some? ==> var x := ReadSymbol(src).value;
      && !HasData(x.kind) && !IsFree(x.kind) && Text(x.kind) == Bytes(x.text)
      && (x.kind <= BIT_XOR || x.kind == DOLLAR || ASSIGN <= x.kind <= TILDE || LOGIC_AND <= x.kind <= SCOPING)
  {
  }

  lemma KeywordText(word: seq<Char>)
    ensures var kind := FixIdent(word);
      && (kind == IDENT || kind == 83 || (BIT_XOR < kind < ASSIGN && kind != DOLLAR))
      && (kind == IDENT || (!HasData(kind) && Text(kind) == Bytes(if kind == IS_KW then "is" else "")))
      && (kind == IS_KW ==> word == "is")
  {
  }

  lemma OtherText()
    ensures Text(DOC) == Text(ISTR_BEGIN) == Text(ISTR_END) == Text(END) == []
  {
  }

  /** A token of the tokenizer, read from its record, has its own text, or none if it is lost. */
  lemma ProducedText(x: Lexeme)
    requires Produced(x)
    ensures HasData(x.kind) <==> IsFree(x.kind)
    ensures !IsFree(x.kind) ==> Text(x.kind) == Bytes(Restored(x))
    ensures IsFree(x.kind) ==> Restored(x) == x.text
    ensures x.kind <= DOC
  {
    hide ReadSymbol, FixIdent, Text;
    KeywordText(x.text);
    OtherText();
    if exists src :: ReadSymbol(src) == Some(x) {
      var src :| ReadSymbol(src) == Some(x);
      SymbolText(src);
    }
  }

  // ----- Written and read back -----

  function AsToken(x: Lexeme, loc: Location): Token {
    Token(x.kind, Bytes(x.text), loc)
  }

  /** The token with the text it comes back with. */
  function Kept(x: Lexeme, loc: Location): Token {
    Token(x.kind, Bytes(Restored(x)), loc)
  }

  lemma KeptIsWritable(x: Lexeme, loc: Location)
    requires Produced(x) && |x.text| < WORD && |loc.file| < WORD
    ensures Writable(Kept(x, loc)) && Head(AsToken(x, loc)) == Head(Kept(x, loc))
  {
    hide Produced, IsLost, Text, Varint, Blob;
    ProducedText(x);
  }

  /** One record: the token comes back with its type, its place and its spelling, or with no text if it is
      lost. */
  lemma RecordComesBack(x: Lexeme, loc: Location, cur: Cursor, tail: seq<Byte>)
    requires Produced(x) && |x.text| < WORD && |loc.file| < WORD
    ensures var t, text := AsToken(x, loc), if IsLost(x) then [] else Bytes(x.text);
      var r := DecodeToken(Head(t) + Column(t) + tail, cur);
      && r.Got? && r.rest == tail && r.value.cur == cur
      && r.value.tok == Token(x.kind, text, Location(cur.file, cur.line, loc.start, loc.start + |text|))
  {
    hide Produced, IsLost, Head, DecodeToken, Bytes, Carried;
    KeptIsWritable(x, loc);
    TokenRoundTripIff(Kept(x, loc), cur, tail);
    Nothing();
  }

  lemma Nothing()
    ensures Bytes("") == []
  {
  }

  /** What is written for a token does not depend on a text that is not written. */
  lemma {:induction false} SameCode(ts: seq<Token>, us: seq<Token>, cur: Cursor)
    requires |ts| == |us|
    requires forall i :: 0 <= i < |ts| ==> Head(ts[i]) == Head(us[i]) && ts[i].loc == us[i].loc
    ensures EncodeTokens(ts, cur) == EncodeTokens(us, cur) && Records(ts, cur) == Records(us, cur)
    decreases |ts|
  {
    hide Head;
    if ts != [] {
      SameCode(ts[1..], us[1..], At(ts[0]));
    }
  }

  function AsTokens(xs: seq<Lexeme>, locs: seq<Location>): seq<Token>
    requires |xs| == |locs|
  {
    seq(|xs|, i requires 0 <= i < |xs| => AsToken(xs[i], locs[i]))
  }

  /** A tokenized body is read back with the same tokens in the same places, each with its spelling, but
      for those that are lost. */
  lemma BodyComesBack(xs: seq<Lexeme>, locs: seq<Location>, line: Int32, tail: seq<Byte>)
    requires |xs| == |locs| && forall i :: 0 <= i < |xs| ==> Produced(xs[i]) && |xs[i].text| < WORD
    requires forall i :: 0 <= i < |locs| ==> |locs[i].file| < WORD
    requires Records(AsTokens(xs, locs), START) < WORD && (locs != [] ==> locs[0].line != -1)
    ensures var r := DecodeCounted(EncodeBody(AsTokens(xs, locs)) + tail, Cursor([], line));
      && r.Got? && r.rest == tail && |r.value.tokens| == |xs|
      && forall i :: 0 <= i < |xs| ==>
           var text := if IsLost(xs[i]) then [] else Bytes(xs[i].text);
           r.value.tokens[i] == Token(xs[i].kind, text, locs[i].(end := locs[i].start + |text|))
  {
    hide Produced, IsLost, Head, DecodeCounted, Bytes, Writable, Varint, EncodeTokens, Records;
    var body := AsTokens(xs, locs);
    var kept := seq(|xs|, i requires 0 <= i < |xs| => Kept(xs[i], locs[i]));
    forall i | 0 <= i < |xs|
      ensures Writable(kept[i]) && Head(body[i]) == Head(kept[i])
    {
      KeptIsWritable(xs[i], locs[i]);
    }
    SameCode(body, kept, START);
    GenericRoundTrip(kept, line, tail);
    Nothing();
  }

  /** Two records by their bytes: a minus and a plus sign in column 0. */
  lemma SignComesBack(kind: UInt32, cur: Cursor)
    requires kind == 62 || kind == 65
    ensures var r := DecodeToken([kind, 0], cur);
      r.Got? && r.value.tok.data == Bytes(if kind == 62 then "-" else "+")
  {
  }

  /** The bytes of two tokens, `-x` from line 1 of the file `a`: the file, the line, the sign with its
      column, and the identifier with its length, text and column. */
  lemma SampleBytes()
    ensures var x, y := Lexeme(MINUS, "-"), Lexeme(IDENT, "x");
      EncodeTokens(AsTokens([x, y], [Location([97], 1, 3, 4), Location([97], 1, 4, 5)]), START)
        == [125, 1, 97, 126, 1, 62, 3, 54, 1, 120, 4]
  {
    hide Moves, Head, Column;
    var x, y, l, m := Lexeme(MINUS, "-"), Lexeme(IDENT, "x"), Location([97], 1, 3, 4), Location([97], 1, 4, 5);
    var t, u := AsToken(x, l), AsToken(y, m);
    SampleParts(t, u);
    assert AsTokens([x, y], [l, m]) == [t, u] && [t, u][1..] == [u];
    assert EncodeTokens([u], At(t)) == [54, 1, 120, 4] by { assert EncodeTokens([u][1..], At(u)) == []; }
  }

  lemma SampleParts(t: Token, u: Token)
    requires t == Token(62, Bytes("-"), Location([97], 1, 3, 4)) && u == Token(54, Bytes("x"), Location([97], 1, 4, 5))
    ensures Moves(t, START) == [125, 1, 97, 126, 1] && Head(t) == [62] && Column(t) == [3]
    ensures Moves(u, At(t)) == [] && Head(u) == [54, 1, 120] && Column(u) == [4]
  {
    assert Bytes("x") == [120];
  }
}
