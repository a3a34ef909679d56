/** Token kinds, the keyword table and the shape of a token (compiler/include/token.h,
    and the keyword table of compiler/lexer.c). */
module Tokens {

  /** A keyword kind is represented by its spelling: the table is one-to-one. */
  datatype Tok =
    | Ident | Int | Hex | BinLit | Str | BoolTrue | BoolFalse
    | Kw(word: string)
    | LBrace | RBrace | LParen | RParen | LBracket | RBracket
    | Semicolon | Colon | Comma | Dot | At | Eq | EqEq | Neq | Lt | Le | Gt | Ge
    | Plus | Minus | Star | Slash | Percent | Amp | Pipe | Caret | Tilde | Bang
    | AmpAmp | PipePipe | Shl | Shr | DotDot | Arrow
    | EOF

  /** The position-free part of a token: kind, source text and literal value. */
  datatype Lexeme = Lexeme(kind: Tok, text: string, ival: int)

  /** A token as the lexer emits it: `start` is the offset of its text in the source. */
  datatype Token = Token(lex: Lexeme, start: nat, line: nat, col: nat) {
    function End(): nat { start + |lex.text| }
  }

  const DEVICE_WORDS: seq<string> := [
    "kdal_version", "import", "as", "device", "class", "registers", "signals", "capabilities",
    "power", "config", "bitfield", "ro", "wo", "rw", "rc"]

  const SIGNAL_WORDS: seq<string> := [
    "in", "edge", "level", "rising", "falling", "any", "high", "low", "completion", "allowed",
    "forbidden", "default", "on", "off", "suspend"]

  const DRIVER_WORDS: seq<string> := [
    "backend", "driver", "for", "probe", "remove", "read", "write", "signal", "timeout", "emit",
    "wait", "arm", "cancel", "let", "return", "log", "if", "elif", "else"]

  const TYPE_WORDS: seq<string> := [
    "true", "false", "u8", "u16", "u32", "u64", "i8", "i16", "i32", "i64", "bool", "str", "buf"]

  /** The keyword table, in its order. */
  const KW_TABLE: seq<string> := DEVICE_WORDS + SIGNAL_WORDS + DRIVER_WORDS + TYPE_WORDS

  /** The kind of an identifier-shaped word. */
  function Classify(word: string): (k: Tok)
    ensures k.Ident? <==> word !in KW_TABLE
    ensures k.Ident? || k.BoolTrue? || k.BoolFalse? || k == Kw(word)
  {
    if word !in KW_TABLE then Ident
    else if word == "true" then BoolTrue
    else if word == "false" then BoolFalse
    else Kw(word)
  }

  /** The linear search over the keyword table. */
  method ClassifyIdent(word: string) returns (k: Tok)
    ensures k == Classify(word)
  {
    hide KW_TABLE;
    for i := 0 to |KW_TABLE|
      invariant word !in KW_TABLE[..i]
    {
      if KW_TABLE[i] == word {
        return if word == "true" then BoolTrue else if word == "false" then BoolFalse else Kw(word);
      }
    }
    k := Ident;
  }
}
