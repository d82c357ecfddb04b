/** Token kinds and the reserved-word table (token/token.go). */
module Token {

  /** The token kinds. The source represents each kind by a string constant;
      `Name` gives that constant. */
  datatype TokenType =
    | Illegal | Eof
    | Id | Int | Float
    | Assign | Plus | Minus | Excl | Times | Divides | Colon
    | Lt | Gt | Eq | NotEq
    | Comma | Semicolon
    | LParen | RParen | LBrace | RBrace | LBracket | RBracket
    | Function | Let | True | False | If | Else | Return
    | String

  datatype Token = Token(kind: TokenType, literal: string)

  /** The string constant the source uses for each kind. */
  function Name(t: TokenType): string {
    match t
    case Illegal => "ILEGAL"
    case Eof => "EOF"
    case Id => "ID"
    case Int => "INT"
    case Float => "FLOAT"
    case Assign => "="
    case Plus => "+"
    case Minus => "-"
    case Excl => "!"
    case Times => "*"
    case Divides => "/"
    case Colon => ":"
    case Lt => "<"
    case Gt => ">"
    case Eq => "=="
    case NotEq => "!="
    case Comma => ","
    case Semicolon => ";"
    case LParen => "("
    case RParen => ")"
    case LBrace => "{"
    case RBrace => "}"
    case LBracket => "["
    case RBracket => "]"
    case Function => "FUNCTION"
    case Let => "LET"
    case True => "TRUE"
    case False => "FALSE"
    case If => "IF"
    case Else => "ELSE"
    case Return => "RETURN"
    case String => "STRING"
  }

  /** The seven kinds a reserved word can map to. */
  predicate IsKeyword(t: TokenType) {
    t.Function? || t.Let? || t.True? || t.False? || t.If? || t.Else? || t.Return?
  }

  /** The reserved-word table `palabras_reservadas`. */
  const ReservedWords: map<string, TokenType> := map[
    "isme" := Function,
    "enchanted" := Let,
    "SparksFly" := True,
    "BadBlood" := False,
    "LoverEra" := If,
    "RepEra" := Else,
    "hi" := Return
  ]

  /** Reclassifies an identifier spelling: a reserved word gets its keyword
      kind, every other spelling is an identifier. */
  function CheckIdentificador(identificador: string): (r: TokenType)
    ensures r == Id || IsKeyword(r)
    ensures r == Id <==> identificador !in ReservedWords
  {
    if identificador in ReservedWords then ReservedWords[identificador] else Id
  }

  /** The fixed spelling-to-kind mapping. */
  lemma KeywordMapping()
    ensures CheckIdentificador("isme") == Function
    ensures CheckIdentificador("enchanted") == Let
    ensures CheckIdentificador("SparksFly") == True
    ensures CheckIdentificador("BadBlood") == False
    ensures CheckIdentificador("LoverEra") == If
    ensures CheckIdentificador("RepEra") == Else
    ensures CheckIdentificador("hi") == Return
  {
  }

  /** Lookup is exact: a keyword kind comes from exactly one spelling. */
  lemma KeywordSpellingUnique(a: string, b: string)
    requires CheckIdentificador(a) == CheckIdentificador(b) != Id
    ensures a == b
  {
  }

  /** Case matters: other capitalisations of reserved words are identifiers. */
  lemma LookupIsCaseSensitive()
    ensures CheckIdentificador("sparksfly") == Id
    ensures CheckIdentificador("Isme") == Id
    ensures CheckIdentificador("HI") == Id
  {
  }

  /** The string constants of distinct kinds are distinct, so comparing kinds
      by their constant (as the source does) is comparing kinds. */
  lemma NameInjective(a: TokenType, b: TokenType)
    requires Name(a) == Name(b)
    ensures a == b
  {
    if |Name(a)| == 1 {
      SymbolNameInjective(a, b);
    } else {
      WordNameInjective(a, b);
    }
  }

  lemma SymbolNameInjective(a: TokenType, b: TokenType)
    requires Name(a) == Name(b) && |Name(a)| == 1
    ensures a == b
  {
    assert Name(a)[0] == Name(b)[0];
  }

  lemma WordNameInjective(a: TokenType, b: TokenType)
    requires Name(a) == Name(b) && |Name(a)| != 1
    ensures a == b
  {
    assert Name(a)[0] == Name(b)[0] && Name(a)[|Name(a)| - 1] == Name(b)[|Name(b)| - 1];
  }
}
