/** The byte-cursor scanner (lexer/lexer.go). The pure functions below
    specify one call of `NextToken`; the `Lexer` class is the scanner itself,
    whose methods move the cursor in place and are proved against them. */
module Lexer {
  import opened Wrappers
  import opened Strings
  import opened Token

  /** The byte at a cursor position, or 0 past the end of the input. */
  function ByteAt(input: seq<byte>, p: int): byte {
    if 0 <= p < |input| then input[p] else 0
  }

  predicate IsWhitespace(b: byte) {
    b == ' ' as int || b == '\t' as int || b == '\n' as int || b == '\r' as int
  }

  /** `esLetra`: ASCII letters and underscore. */
  predicate IsLetter(b: byte) {
    'a' as int <= b <= 'z' as int || 'A' as int <= b <= 'Z' as int || b == '_' as int
  }

  /** `esDigito`. */
  predicate IsDigit(b: byte) {
    '0' as int <= b <= '9' as int
  }

  /** The text of `input[a:b]`, each byte read as one character. */
  function Slice(input: seq<byte>, a: int, b: int): (s: string)
    requires 0 <= a <= b <= |input|
    ensures |s| == b - a
    ensures forall i :: 0 <= i < |s| ==> s[i] as int == input[a + i]
  {
    seq(b - a, i requires 0 <= i < b - a => input[a + i] as char)
  }

  /** The first non-whitespace position at or after `p`. */
  function SkipFrom(input: seq<byte>, p: nat): (q: nat)
    ensures p <= q
    ensures !IsWhitespace(ByteAt(input, q))
    ensures forall k :: p <= k < q ==> IsWhitespace(ByteAt(input, k))
    ensures q == p || q <= |input|
    decreases |input| - p
  {
    if IsWhitespace(ByteAt(input, p)) then SkipFrom(input, p + 1) else p
  }

  /** The end of the maximal run of letters starting at `p`. */
  function LetterRunEnd(input: seq<byte>, p: nat): (q: nat)
    ensures p <= q
    ensures !IsLetter(ByteAt(input, q))
    ensures forall k :: p <= k < q ==> IsLetter(ByteAt(input, k))
    ensures q == p || q <= |input|
    decreases |input| - p
  {
    if IsLetter(ByteAt(input, p)) then LetterRunEnd(input, p + 1) else p
  }

  /** The end of the maximal run of digits starting at `p`. */
  function DigitRunEnd(input: seq<byte>, p: nat): (q: nat)
    ensures p <= q
    ensures !IsDigit(ByteAt(input, q))
    ensures forall k :: p <= k < q ==> IsDigit(ByteAt(input, k))
    ensures q == p || q <= |input|
    decreases |input| - p
  {
    if IsDigit(ByteAt(input, p)) then DigitRunEnd(input, p + 1) else p
  }

  /** The one-byte operators and delimiters other than `=` and `!`. */
  function SingleByteKind(c: byte): Option<TokenType> {
    if c == '+' as int then Some(Plus)
    else if c == '-' as int then Some(Minus)
    else if c == '/' as int then Some(Divides)
    else if c == '*' as int then Some(Times)
    else if c == '<' as int then Some(Lt)
    else if c == '>' as int then Some(Gt)
    else if c == ';' as int then Some(Semicolon)
    else if c == ',' as int then Some(Comma)
    else if c == '(' as int then Some(LParen)
    else if c == ')' as int then Some(RParen)
    else if c == '{' as int then Some(LBrace)
    else if c == '}' as int then Some(RBrace)
    else None
  }

  /** A token read from a single byte (`newToken`). */
  function OneByte(kind: TokenType, c: byte): Token {
    Token(kind, [c as char])
  }

  /** A number starting at digit position `s`: INT, FLOAT, or ILLEGAL for a
      dot not followed by a digit. Returns the token and the new cursor. */
  function ScanNumber(input: seq<byte>, s: nat): (Token, nat)
    requires IsDigit(ByteAt(input, s))
  {
    var e := DigitRunEnd(input, s);
    var whole := Slice(input, s, e);
    if ByteAt(input, e) == '.' as int then
      var c := ByteAt(input, e + 1);
      if IsDigit(c) then
        var f := DigitRunEnd(input, e + 1);
        (Token(Float, whole + "." + Slice(input, e + 1, f)), f)
      else
        (OneByte(Illegal, c), e + 1)
    else
      (Token(Int, whole), e)
  }

  /** One call of `NextToken` from cursor position `p`: the token returned
      and the cursor position afterwards. */
  function Scan(input: seq<byte>, p: nat): (Token, nat) {
    var s := SkipFrom(input, p);
    var c := ByteAt(input, s);
    if c == '=' as int then
      if ByteAt(input, s + 1) == '=' as int then (Token(Eq, "=="), s + 2) else (OneByte(Assign, c), s + 1)
    else if c == '!' as int then
      if ByteAt(input, s + 1) == '=' as int then (Token(NotEq, "!="), s + 2) else (OneByte(Excl, c), s + 1)
    else if SingleByteKind(c).Some? then
      (OneByte(SingleByteKind(c).value, c), s + 1)
    else if c == 0 then
      (Token(Eof, ""), s + 1)
    else if IsLetter(c) then
      var e := LetterRunEnd(input, s);
      var word := Slice(input, s, e);
      (Token(CheckIdentificador(word), word), e)
    else if IsDigit(c) then
      ScanNumber(input, s)
    else
      (OneByte(Illegal, c), s + 1)
  }

  class Lexer {
    const input: seq<byte>
    var position: int
    var readPosition: int
    var ch: byte

    /** The cursor invariant: `readPosition` is one ahead of `position` and
        `ch` is the byte under the cursor (0 past the end). */
    ghost predicate Valid()
      reads this
    {
      0 <= position && readPosition == position + 1 && ch == ByteAt(input, position)
    }

    /** `New`: the cursor starts on the first byte. */
    constructor (input: seq<byte>)
      ensures Valid() && this.input == input
      ensures position == 0 && readPosition == 1
      ensures ch == if |input| > 0 then input[0] else 0
    {
      this.input := input;
      position, readPosition, ch := 0, 0, 0;
      new;
      ReadChar();
    }

    /** `readChar`: moves the cursor one byte forward. */
    method ReadChar()
      requires 0 <= readPosition
      modifies this
      ensures position == old(readPosition) && readPosition == position + 1
      ensures ch == ByteAt(input, position)
    {
      if readPosition >= |input| {
        ch := 0;
      } else {
        ch := input[readPosition];
      }
      position := readPosition;
      readPosition := readPosition + 1;
    }

    /** `peekChar`: the byte after the cursor, without moving. */
    method PeekChar() returns (c: byte)
      requires Valid()
      ensures c == ByteAt(input, position + 1)
      ensures position + 1 < |input| ==> c == input[position + 1]
    {
      if readPosition >= |input| {
        c := 0;
      } else {
        c := input[readPosition];
      }
    }

    /** `skipWhitespace`. */
    method SkipWhitespace()
      requires Valid()
      modifies this
      ensures Valid()
      ensures position == SkipFrom(input, old(position))
    {
      while IsWhitespace(ch)
        invariant Valid()
        invariant old(position) <= position <= SkipFrom(input, old(position))
        invariant SkipFrom(input, position) == SkipFrom(input, old(position))
        decreases |input| - position
      {
        ReadChar();
      }
    }

    /** `readIdentificador`: the maximal run of letters under the cursor. */
    method ReadIdentificador() returns (word: string)
      requires Valid()
      modifies this
      ensures Valid()
      ensures position == LetterRunEnd(input, old(position))
      ensures old(position) < |input| ==> word == Slice(input, old(position), position)
    {
      var start := position;
      while IsLetter(ch)
        invariant Valid()
        invariant start <= position <= LetterRunEnd(input, start)
        invariant LetterRunEnd(input, position) == LetterRunEnd(input, start)
        decreases |input| - position
      {
        ReadChar();
      }
      if start < |input| {
        word := Slice(input, start, position);
      } else {
        word := "";
      }
    }

    /** `readNumero`: the maximal run of digits under the cursor. */
    method ReadNumero() returns (digits: string)
      requires Valid()
      modifies this
      ensures Valid()
      ensures position == DigitRunEnd(input, old(position))
      ensures old(position) < |input| ==> digits == Slice(input, old(position), position)
    {
      var start := position;
      while IsDigit(ch)
        invariant Valid()
        invariant start <= position <= DigitRunEnd(input, start)
        invariant DigitRunEnd(input, position) == DigitRunEnd(input, start)
        decreases |input| - position
      {
        ReadChar();
      }
      if start < |input| {
        digits := Slice(input, start, position);
      } else {
        digits := "";
      }
    }

    /** `NextToken`: skips whitespace and reads one token. */
    method NextToken() returns (tok: Token)
      requires Valid()
      modifies this
      ensures Valid()
      ensures (tok, position) == Scan(input, old(position))
    {
      SkipWhitespace();
      var s := position;
      if ch == '=' as int {
        var next := PeekChar();
        if next == '=' as int {
          ReadChar();
          tok := Token(Eq, "==");
        } else {
          tok := OneByte(Assign, ch);
        }
      } else if ch == '!' as int {
        var next := PeekChar();
        if next == '=' as int {
          ReadChar();
          tok := Token(NotEq, "!=");
        } else {
          tok := OneByte(Excl, ch);
        }
      } else if SingleByteKind(ch).Some? {
        tok := OneByte(SingleByteKind(ch).value, ch);
      } else if ch == 0 {
        tok := Token(Eof, "");
      } else if IsLetter(ch) {
        var word := ReadIdentificador();
        tok := Token(CheckIdentificador(word), word);
        return;
      } else if IsDigit(ch) {
        var whole := ReadNumero();
        if ch == '.' as int {
          ReadChar();
          if IsDigit(ch) {
            var frac := ReadNumero();
            tok := Token(Float, whole + "." + frac);
          } else {
            tok := OneByte(Illegal, ch);
          }
        } else {
          tok := Token(Int, whole);
        }
        return;
      } else {
        tok := OneByte(Illegal, ch);
      }
      ReadChar();
    }
  }

  /** The tokens of `n` successive calls of `NextToken` from cursor `p`. */
  function Tokens(input: seq<byte>, p: nat, n: nat): (ts: seq<Token>)
    ensures |ts| == n
    decreases n
  {
    if n == 0 then [] else [Scan(input, p).0] + Tokens(input, Scan(input, p).1, n - 1)
  }

  /** The bytes of an ASCII text. */
  function Bytes(s: string): (bs: seq<byte>)
    requires forall i :: 0 <= i < |s| ==> s[i] as int < 256
    ensures |bs| == |s|
  {
    seq(|s|, i requires 0 <= i < |s| => s[i] as int as byte)
  }

  /** A literal cut from the input reads back, byte for byte, as exactly
      that stretch of the input. */
  lemma SliceBytes(input: seq<byte>, a: int, b: int)
    requires 0 <= a <= b <= |input|
    ensures Bytes(Slice(input, a, b)) == input[a..b]
  {
  }

  /** Every call moves the cursor strictly forward, so a token stream never
      stalls. */
  lemma ScanAdvances(input: seq<byte>, p: nat)
    ensures Scan(input, p).1 > p
  {
  }

  /** Past the end of the input every call returns EOF with an empty literal. */
  lemma ScanPastEnd(input: seq<byte>, p: nat)
    requires p >= |input|
    ensures Scan(input, p) == (Token(Eof, ""), p + 1)
  {
  }

  /** Once the input is exhausted, every later call returns EOF again. */
  lemma {:induction false} EofForever(input: seq<byte>, p: nat, n: nat)
    requires p >= |input|
    ensures forall i :: 0 <= i < n ==> Tokens(input, p, n)[i] == Token(Eof, "")
    decreases n
  {
    if n > 0 {
      ScanPastEnd(input, p);
      EofForever(input, p + 1, n - 1);
    }
  }

  /** EOF is returned exactly when the first non-blank byte is 0: the end of
      the input or an embedded NUL byte. */
  lemma EofIffZeroByte(input: seq<byte>, p: nat)
    ensures var s := SkipFrom(input, p);
      Scan(input, p).0.kind == Eof <==> ByteAt(input, s) == 0
    ensures Scan(input, p).0.kind == Eof ==>
      Scan(input, p) == (Token(Eof, ""), SkipFrom(input, p) + 1)
  {
  }

  /** `==` and `!=` are read with one byte of lookahead; a lone `=` or `!` is
      ASSIGN or EXCL. */
  lemma TwoByteOperators(input: seq<byte>, p: nat)
    ensures var s := SkipFrom(input, p);
      ByteAt(input, s) == '=' as int ==>
        Scan(input, p) == if ByteAt(input, s + 1) == '=' as int then (Token(Eq, "=="), s + 2)
                          else (Token(Assign, "="), s + 1)
    ensures var s := SkipFrom(input, p);
      ByteAt(input, s) == '!' as int ==>
        Scan(input, p) == if ByteAt(input, s + 1) == '=' as int then (Token(NotEq, "!="), s + 2)
                          else (Token(Excl, "!"), s + 1)
  {
  }

  /** An identifier or keyword token is exactly the maximal run of letters at
      the start position, classified by `CheckIdentificador`; the cursor stops
      on the first byte that is not a letter. A letter at the start position
      always gives such a token. */
  lemma ScanWord(input: seq<byte>, p: nat)
    ensures var s := SkipFrom(input, p);
      var (tok, q) := Scan(input, p);
      (tok.kind == Id || IsKeyword(tok.kind)) <==> IsLetter(ByteAt(input, s))
    ensures var s := SkipFrom(input, p);
      var (tok, q) := Scan(input, p);
      tok.kind == Id || IsKeyword(tok.kind) ==>
        && s < q <= |input|
        && tok.literal == Slice(input, s, q)
        && (forall k :: s <= k < q ==> IsLetter(input[k]))
        && !IsLetter(ByteAt(input, q))
        && tok.kind == CheckIdentificador(tok.literal)
  {
    var s := SkipFrom(input, p);
    if IsLetter(ByteAt(input, s)) {
      assert SingleByteKind(ByteAt(input, s)).None?;
      var q := LetterRunEnd(input, s);
      forall k | s <= k < q ensures IsLetter(input[k]) {
        assert ByteAt(input, k) == input[k];
      }
    }
  }

  /** An INT token is a maximal non-empty digit run not followed by a dot. */
  lemma ScanInt(input: seq<byte>, p: nat)
    requires Scan(input, p).0.kind == Int
    ensures var s := SkipFrom(input, p);
      var (tok, q) := Scan(input, p);
      && s < q <= |input|
      && tok.literal == Slice(input, s, q)
      && (forall k :: s <= k < q ==> IsDigit(input[k]))
      && !IsDigit(ByteAt(input, q)) && ByteAt(input, q) != '.' as int
  {
    var s := SkipFrom(input, p);
    if IsDigit(ByteAt(input, s)) {
      assert SingleByteKind(ByteAt(input, s)).None?;
      var q := DigitRunEnd(input, s);
      forall k | s <= k < q ensures IsDigit(input[k]) {
        assert ByteAt(input, k) == input[k];
      }
    }
  }

  /** A FLOAT token is digits, a dot and digits, both runs non-empty and
      maximal; its literal is the integer part, ".", and the fraction. */
  lemma ScanFloat(input: seq<byte>, p: nat)
    requires Scan(input, p).0.kind == Float
    ensures var s := SkipFrom(input, p);
      var e := DigitRunEnd(input, s);
      var (tok, q) := Scan(input, p);
      && s < e && e + 1 < q <= |input|
      && input[e] == '.' as int
      && tok.literal == Slice(input, s, e) + "." + Slice(input, e + 1, q)
      && (forall k :: s <= k < e ==> IsDigit(input[k]))
      && (forall k :: e + 1 <= k < q ==> IsDigit(input[k]))
      && !IsDigit(ByteAt(input, q))
  {
    var s := SkipFrom(input, p);
    FloatStartsWithDigit(input, p);
    NumberScan(input, p);
    var e := DigitRunEnd(input, s);
    forall k | s <= k < e ensures IsDigit(input[k]) {
      assert ByteAt(input, k) == input[k];
    }
    var q := DigitRunEnd(input, e + 1);
    forall k | e + 1 <= k < q ensures IsDigit(input[k]) {
      assert ByteAt(input, k) == input[k];
    }
  }

  /** Only the number branch of `NextToken` makes FLOAT tokens. */
  lemma FloatStartsWithDigit(input: seq<byte>, p: nat)
    requires Scan(input, p).0.kind == Float
    ensures IsDigit(ByteAt(input, SkipFrom(input, p)))
  {
  }

  /** Under a digit, a call of `NextToken` is a call of `ScanNumber`. */
  lemma NumberScan(input: seq<byte>, p: nat)
    requires IsDigit(ByteAt(input, SkipFrom(input, p)))
    ensures Scan(input, p) == ScanNumber(input, SkipFrom(input, p))
  {
    assert SingleByteKind(ByteAt(input, SkipFrom(input, p))).None?;
  }

  /** Digits and a dot not followed by a digit give ILLEGAL whose literal is
      the byte after the dot; the cursor is left on that byte. */
  lemma ScanDanglingDot(input: seq<byte>, p: nat)
    requires var s := SkipFrom(input, p);
      IsDigit(ByteAt(input, s)) && ByteAt(input, DigitRunEnd(input, s)) == '.' as int
      && !IsDigit(ByteAt(input, DigitRunEnd(input, s) + 1))
    ensures var e := DigitRunEnd(input, SkipFrom(input, p));
      Scan(input, p) == (Token(Illegal, [ByteAt(input, e + 1) as char]), e + 1)
  {
    var s := SkipFrom(input, p);
    assert SingleByteKind(ByteAt(input, s)).None?;
  }

  /** A byte that starts no token is a one-byte ILLEGAL token, and the cursor
      moves past it. */
  lemma ScanUnknownByte(input: seq<byte>, p: nat)
    requires var c := ByteAt(input, SkipFrom(input, p));
      c != 0 && c != '=' as int && c != '!' as int && SingleByteKind(c).None?
      && !IsLetter(c) && !IsDigit(c)
    ensures var s := SkipFrom(input, p);
      Scan(input, p) == (Token(Illegal, [ByteAt(input, s) as char]), s + 1)
  {
  }

  /** The lexer never produces the STRING, COLON, LBRACKET or RBRACKET kinds. */
  lemma ScanKinds(input: seq<byte>, p: nat)
    ensures var k := Scan(input, p).0.kind;
      !k.String? && !k.Colon? && !k.LBracket? && !k.RBracket?
  {
  }

  /** Whitespace is skipped before every token: only the ILLEGAL token of a
      dangling dot (whose literal is the byte after the dot) can start with a
      blank. */
  lemma LiteralNotLedByWhitespace(input: seq<byte>, p: nat)
    requires Scan(input, p).0.kind != Illegal
    ensures var lit := Scan(input, p).0.literal;
      lit == [] || !IsWhitespace(lit[0] as int)
  {
    var s := SkipFrom(input, p);
    var c := ByteAt(input, s);
    if IsLetter(c) || IsDigit(c) {
      assert SingleByteKind(c).None?;
    }
  }

  /** The exception to the rule above: in `1. ` the ILLEGAL literal is the
      blank after the dot. */
  lemma DanglingDotBeforeBlank()
    ensures Scan(Bytes("1. "), 0).0 == Token(Illegal, " ")
  {
    var input := Bytes("1. ");
    assert DigitRunEnd(input, 1) == 1;
    assert DigitRunEnd(input, 0) == 1;
  }

  /** From the first line of the lexer's own test: a reserved word. */
  lemma KeywordToken()
    ensures Scan(Bytes("enchanted five"), 0) == (Token(Let, "enchanted"), 9)
  {
    var input := Bytes("enchanted five");
    assert input[9] == ' ' as int;
    assert LetterRunEnd(input, 9) == 9;
    assert LetterRunEnd(input, 6) == 9;
    assert LetterRunEnd(input, 3) == 9;
    assert LetterRunEnd(input, 0) == 9;
    assert Slice(input, 0, 9) == "enchanted";
    assert CheckIdentificador("enchanted") == Let;
  }

  /** From the first line of the lexer's own test: a float literal. */
  lemma FloatToken()
    ensures Scan(Bytes(" 5.5;"), 0) == (Token(Float, "5.5"), 4)
  {
    var text := " 5.5;";
    var input := Bytes(text);
    assert forall i :: 0 <= i < |text| ==> input[i] == text[i] as int;
    assert SkipFrom(input, 0) == 1;
    assert DigitRunEnd(input, 1) == 2;
    assert DigitRunEnd(input, 3) == 4;
    assert Slice(input, 1, 2) == "5";
    assert Slice(input, 3, 4) == "5";
    assert Slice(input, 1, 2) + "." + Slice(input, 3, 4) == "5.5";
  }

  /** A digit run that no dot follows is an INT token holding the run. */
  lemma IntegerToken(input: seq<byte>, p: nat)
    requires IsDigit(ByteAt(input, SkipFrom(input, p)))
    requires ByteAt(input, DigitRunEnd(input, SkipFrom(input, p))) != '.' as int
    ensures var s := SkipFrom(input, p);
      var e := DigitRunEnd(input, s);
      && s < e <= |input|
      && Scan(input, p) == (Token(Int, Slice(input, s, e)), e)
  {
    var c := ByteAt(input, SkipFrom(input, p));
    assert SingleByteKind(c).None?;
  }

  /** A byte of the delimiter table is a token of its own. */
  lemma DelimiterToken(input: seq<byte>, p: nat)
    requires SingleByteKind(ByteAt(input, SkipFrom(input, p))).Some?
    ensures var s := SkipFrom(input, p);
      var c := ByteAt(input, s);
      Scan(input, p) == (OneByte(SingleByteKind(c).value, c), s + 1)
  {
  }

  /** Runs of known length, stated once so that the examples below need
      only the bytes of their input. */
  lemma OneDigitRun(input: seq<byte>, p: nat)
    requires p < |input| && IsDigit(input[p]) && !IsDigit(ByteAt(input, p + 1))
    ensures DigitRunEnd(input, p) == p + 1
  {
    assert DigitRunEnd(input, p + 1) == p + 1;
  }

  lemma TwoDigitRun(input: seq<byte>, p: nat)
    requires p + 1 < |input| && IsDigit(input[p]) && IsDigit(input[p + 1])
    requires !IsDigit(ByteAt(input, p + 2))
    ensures DigitRunEnd(input, p) == p + 2
  {
    OneDigitRun(input, p + 1);
  }

  lemma OneBlankRun(input: seq<byte>, p: nat)
    requires p < |input| && IsWhitespace(input[p]) && !IsWhitespace(ByteAt(input, p + 1))
    ensures SkipFrom(input, p) == p + 1
  {
    assert SkipFrom(input, p + 1) == p + 1;
  }

  /** The operator lines `10 == 10;` and `10 != 9;` of the lexer's own test:
      each call's token and the cursor it leaves, chained position to
      position. */
  lemma FirstLine()
    ensures var input := Bytes("10 == 10;\n\t10 != 9;");
      && Scan(input, 0) == (Token(Int, "10"), 2)
      && Scan(input, 2) == (Token(Eq, "=="), 5)
      && Scan(input, 5) == (Token(Int, "10"), 8)
      && Scan(input, 8) == (Token(Semicolon, ";"), 9)
  {
    var input := Bytes("10 == 10;\n\t10 != 9;");
    assert input[..9] == [49, 48, 32, 61, 61, 32, 49, 48, 59];
    EqualityLine(input);
  }

  /** `FirstLine` for any input that starts with those nine bytes. */
  lemma EqualityLine(input: seq<byte>)
    requires |input| > 9 && input[..9] == [49, 48, 32, 61, 61, 32, 49, 48, 59]
    ensures Scan(input, 0) == (Token(Int, "10"), 2)
    ensures Scan(input, 2) == (Token(Eq, "=="), 5)
    ensures Scan(input, 5) == (Token(Int, "10"), 8)
    ensures Scan(input, 8) == (Token(Semicolon, ";"), 9)
  {
    assert input[0] == 49 && input[1] == 48 && input[2] == 32 && input[3] == 61 && input[4] == 61;
    assert input[5] == 32 && input[6] == 49 && input[7] == 48 && input[8] == 59;
    TwoDigitRun(input, 0);
    IntegerToken(input, 0);
    assert Slice(input, 0, 2) == "10";
    OneBlankRun(input, 2);
    OneBlankRun(input, 5);
    TwoDigitRun(input, 6);
    IntegerToken(input, 5);
    assert Slice(input, 6, 8) == "10";
    DelimiterToken(input, 8);
    assert OneByte(Semicolon, 59) == Token(Semicolon, ";");
  }

  /** Continuation of `FirstLine` from cursor 9, ending with EOF. */
  lemma SecondLine()
    ensures var input := Bytes("10 == 10;\n\t10 != 9;");
      && Scan(input, 9) == (Token(Int, "10"), 13)
      && Scan(input, 13) == (Token(NotEq, "!="), 16)
      && Scan(input, 16) == (Token(Int, "9"), 18)
      && Scan(input, 18) == (Token(Semicolon, ";"), 19)
      && Scan(input, 19) == (Token(Eof, ""), 20)
  {
    var input := Bytes("10 == 10;\n\t10 != 9;");
    assert |input| == 19 && input[9..] == [10, 9, 49, 48, 32, 33, 61, 32, 57, 59];
    InequalityLine(input);
  }

  /** `SecondLine` for any 19-byte input that ends with those ten bytes. */
  lemma InequalityLine(input: seq<byte>)
    requires |input| == 19 && input[9..] == [10, 9, 49, 48, 32, 33, 61, 32, 57, 59]
    ensures Scan(input, 9) == (Token(Int, "10"), 13)
    ensures Scan(input, 13) == (Token(NotEq, "!="), 16)
    ensures Scan(input, 16) == (Token(Int, "9"), 18)
    ensures Scan(input, 18) == (Token(Semicolon, ";"), 19)
    ensures Scan(input, 19) == (Token(Eof, ""), 20)
  {
    assert input[9] == 10 && input[10] == 9 && input[11] == 49 && input[12] == 48 && input[13] == 32;
    assert input[14] == 33 && input[15] == 61 && input[16] == 32 && input[17] == 57 && input[18] == 59;
    OneBlankRun(input, 10);
    assert SkipFrom(input, 9) == 11;
    TwoDigitRun(input, 11);
    IntegerToken(input, 9);
    assert Slice(input, 11, 13) == "10";
    OneBlankRun(input, 13);
    OneBlankRun(input, 16);
    OneDigitRun(input, 17);
    IntegerToken(input, 16);
    assert Slice(input, 17, 18) == "9";
    DelimiterToken(input, 18);
    assert OneByte(Semicolon, 59) == Token(Semicolon, ";");
  }
}
