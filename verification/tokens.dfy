/** Tokens of basic.py (`class Token` and the `TOKEN_TYPE_*` tags) and the
    character classes the lexer dispatches on. */
module Tokens {
  import opened Wrappers
  import opened Decimal

  datatype TokenType = INT | FLOAT | PLUS | MINUS | MUL | DIV | LPAREN | RPAREN

  /** A literal payload. A FLOAT keeps its lexeme (digits and one dot) instead
      of a floating-point number. */
  datatype Value = IntValue(n: nat) | FloatValue(lexeme: string)

  datatype Token = Token(kind: TokenType, value: Option<Value>)

  /** A value is present exactly for INT and FLOAT, and of the matching sort. */
  predicate WellFormed(t: Token) {
    match t.kind
    case INT => t.value.Some? && t.value.value.IntValue?
    case FLOAT => t.value.Some? && t.value.value.FloatValue?
    case _ => t.value.None?
  }

  /** Space or tab: skipped by the scanning loop. */
  predicate IsBlank(c: char) {
    c == ' ' || c == '\t'
  }

  /** A character number scanning may take: a digit or a dot. */
  predicate IsNumberChar(c: char) {
    IsDigit(c) || c == '.'
  }

  /** The single-character token each of `+ - * / ( )` stands for. */
  function OperatorKind(c: char): (k: Option<TokenType>)
    ensures k.Some? ==> k.value !in {INT, FLOAT}
    ensures k.Some? ==> !IsBlank(c) && !IsDigit(c) && c != '.'
  {
    match c
    case '+' => Some(PLUS)
    case '-' => Some(MINUS)
    case '*' => Some(MUL)
    case '/' => Some(DIV)
    case '(' => Some(LPAREN)
    case ')' => Some(RPAREN)
    case _ => None
  }

  /** A character that can begin a lexeme or be skipped; anything else is illegal
      where the scanning loop meets it. */
  predicate IsLegalStart(c: char) {
    IsBlank(c) || IsDigit(c) || OperatorKind(c).Some?
  }

  predicate AtMostOneDot(s: string) {
    forall i, j :: 0 <= i < j < |s| ==> !(s[i] == '.' && s[j] == '.')
  }

  /** What number scanning can produce: a digit, then digits and at most one dot. */
  predicate IsNumberLexeme(s: string) {
    && |s| >= 1
    && IsDigit(s[0])
    && (forall i :: 0 <= i < |s| ==> IsNumberChar(s[i]))
    && AtMostOneDot(s)
  }

  /** The token for a number lexeme: INT of its decimal value when it has no
      dot, FLOAT of the lexeme otherwise. */
  function NumberToken(lexeme: string): (t: Token)
    requires IsNumberLexeme(lexeme)
    ensures WellFormed(t) && t.kind in {INT, FLOAT}
  {
    if '.' in lexeme then Token(FLOAT, Some(FloatValue(lexeme)))
    else Token(INT, Some(IntValue(DecimalValue(lexeme))))
  }
}
