/** The error model of basic.py (`class Error`, `class IllegalCharError`):
    a name, a details text and the span of positions it covers. */
module Errors {
  import opened Positions
  import opened Decimal

  datatype Error = Error(posStart: Position, posEnd: Position, errorName: string, details: string)

  const IllegalCharName: string := "Illegal Character"

  /** The one error kind the lexer raises. */
  function IllegalCharError(posStart: Position, posEnd: Position, details: string): (e: Error)
    ensures e.errorName == IllegalCharName && e.details == details
    ensures e.posStart == posStart && e.posEnd == posEnd
  {
    Error(posStart, posEnd, IllegalCharName, details)
  }

  /** The offending character between single quotes. */
  function Quote(c: char): (s: string)
    ensures |s| == 3 && s[1] == c
    ensures s[0] == '\'' && s[2] == '\''
  {
    "'" + [c] + "'"
  }

  /** `Error.as_string()`: the name and details, then the file name and the
      1-based line of the start position. */
  function AsString(e: Error): string {
    e.errorName + ": " + e.details + "\nFile " + e.posStart.fn + ", line " + IntToString(e.posStart.ln + 1)
  }
}
