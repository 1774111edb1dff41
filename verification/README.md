# Lexer of basic.py, modelled in Dafny

`basic.py` is the lexer of a small arithmetic language. `run(fn, text)` builds a
`Lexer` over the whole text and calls `make_tokens`. That method walks a
`Position` cursor over the text one character at a time and does one of four
things with each character:

- it skips spaces and tabs;
- it scans a number: a digit run with at most one dot, giving `INT` or `FLOAT`;
- it emits a single-character token for each of `+ - * / ( )`;
- on any other character it stops, returns no tokens and returns an
  `Illegal Character` error spanning that character.

The model has nine modules:

- `Wrappers`: the `Option` type used for `current_char` and the optional
  token value and error.
- `Positions`: the cursor (`Position`, its `advance` and `copy`). It also gives
  a closed form `PosAt` for the cursor reached after consuming a prefix.
- `Tokens`: token types, tokens, and the character classes the lexer
  dispatches on.
- `Errors`: `Error`, `IllegalCharError` and `as_string`.
- `Decimal`: the digits, the `int(...)` of a digit string, and the `str(...)`
  used when an error is rendered.
- `LexSpec`: `Lex`, a reference definition of the scan by recursion on the
  unread suffix. It has no cursor, no line or column, and no `current_char`.
- `Scanner`: the `Lexer` class method by method. `Init`, `Advance`,
  `NumberLoop`/`MakeNumber`, one loop iteration `Step`, the loop `Loop`,
  `MakeTokens` and `Run` follow the source's branches and state updates.
  `LoopAgrees` proves the loop equal to the reference scan.
- `Laws`: whole-scan properties. They cover outcome facts, blank-only texts,
  single operators and numbers, concatenation, blank insertion and error
  rendering.
- `Scenarios`: concrete texts and the exact result `run` gives for each.

Each Python method that mutates the lexer becomes a pure function from the old
lexer value to the new one.

## Model

| member | source | states |
|---|---|---|
| Positions.AdvanceTracksPrefix | basic.py:111-119 | Advancing the cursor over the character at index k, from the position after k characters, gives the position after k+1 characters. The index grows by one. Leaving a newline moves to the next line at column 0; leaving any other character keeps the line and moves the column on by one. So line and column depend only on the consumed prefix. |
| Positions.AdvancePos | basic.py:111-119 | Advancing moves the index on by exactly one and keeps the file name and text. Leaving a newline moves to the next line at column 0; leaving anything else, or no character, keeps the line and moves the column on by one. |
| Positions.CopyPos | basic.py:121-122 | The snapshot has the same index, line, column, file name and text as the cursor it was taken from. Positions are values, so later advances of the lexer's cursor cannot change it. |
| Positions.OriginAdvance | basic.py:23-28 | The cursor starts at index -1, line 0, column -1. Its first advance, with no current character, lands on index 0, line 0, column 0. |
| Positions.NoNewlineFirstLine | basic.py:111-119 | Over a prefix without newlines the cursor stays on line 0, and its column equals its index. |
| Scanner.Init | basic.py:22-32 | A new lexer is positioned at index 0, line 0, column 0. Its current character is the first character of the text, or none for the empty text. The lexer invariant holds. |
| Scanner.Advance | basic.py:30-32 | The index moves on by one. The current character becomes the one at the new index, or none past the end. Validity is preserved. |
| Scanner.NumberLoop | basic.py:72-79 | The loop of `make_number` keeps the lexer invariant, never changes the text or file name, and never moves the cursor backwards. `Scanner.NumberLoopScans` states exactly what it takes. |
| Scanner.MakeNumber | basic.py:68-84 | Entered on a digit, number scanning consumes exactly the characters the reference measure `NumberLength` gives, and at least one. What it consumes is a number lexeme. The token is the number token of that lexeme. |
| Scanner.NumberLoopScans | basic.py:72-79 | The loop of `make_number` consumes exactly `NumberLength` characters and appends exactly those characters to the gathered string. It ends with one dot counted exactly when a dot was counted before or was taken by it. |
| Scanner.MakeNumberScans | basic.py:68-84 | The lexeme is a digit followed by digits and at most one dot. Scanning stops at the end of the text, at a character that is neither digit nor dot, or at a second dot. The token is INT exactly when the lexeme has no dot, with the lexeme's decimal value; otherwise it is FLOAT of the lexeme. |
| Scanner.Step | basic.py:37-64 | One loop iteration does one of three things. It skips exactly on a blank. It fails exactly on a character that cannot start a lexeme. Otherwise it emits the operator's valueless token and advances one character, or scans a number. A failure is an Illegal Character error from the current position to the one after it, with the quoted character as details. A step that does not fail moves the cursor strictly forward. |
| Scanner.Loop | basic.py:34-66 | The loop returns no tokens whenever it returns an error. Otherwise its tokens extend the ones gathered so far. |
| Scanner.LoopAgrees | basic.py:34-66 | The loop from any valid, tracked state equals the reference scan of the unread suffix. That is the gathered tokens followed by the suffix's tokens, or no tokens and the error for the suffix's first illegal character at its absolute position. |
| Scanner.MakeTokens | basic.py:34-66 | `make_tokens` returns what the reference scan from the cursor says, and never both tokens and an error. |
| Scanner.Run | basic.py:124-128 | `run` returns all tokens of the reference scan and no error, or no tokens and the Illegal Character error. That error spans the first illegal character's position after the consumed prefix and the position one character further. |
| LexSpec.Lex | basic.py:37-66 | An illegal outcome names a character of the text, at its offset, that cannot start a lexeme. |
| LexSpec.NumberLengthFacts | basic.py:72-79 | The measured number prefix is made of digits and dots, has at most one dot (none if a dot was already taken) and cannot be extended by the next character. |
| LexSpec.LexIllegalPrefix | basic.py:37-64 | Every character before the first illegal one was consumable: a blank, a digit, an operator, or a dot inside a number. |
| LexSpec.LexedFacts | basic.py:37-66 | A successful scan consumed only consumable characters and produced only well-formed tokens: a value exactly on INT and FLOAT, of the matching sort. |
| Tokens.OperatorKind | basic.py:42-59 | The operator characters map to their token types. None of them is INT or FLOAT, a blank, a digit or a dot. |
| Tokens.NumberToken | basic.py:81-84 | A number lexeme becomes a well-formed INT or FLOAT token. |
| Errors.IllegalCharError | basic.py:87-101 | The error carries the name "Illegal Character", the given details and the given span. |
| Errors.Quote | basic.py:64 | The details are three characters: the offending character between two single quotes. |
| Decimal.DecimalValue | basic.py:82 | The value of a digit string of length n is below 10^n. |
| Decimal.NatToString | basic.py:96 | `str(n)` of a natural number is a non-empty digit string with no leading zero unless it is the single digit 0. `Decimal.DecimalOfNatToString` shows that it reads back as `n`. |
| Decimal.IntToString | basic.py:96 | `str(i)` of a non-negative `i` is a digit string with no leading zero (unless it is just 0) whose decimal value is `i`. For a negative `i` it is a minus sign followed by such a digit string whose value is `-i`. |
| Decimal.DecimalOfNatToString | basic.py:82 | Reading back the decimal text of a number gives the number. |
| Decimal.LeadingZeroIgnored | basic.py:82 | A leading zero does not change the value of a digit string. |
| Laws.RunSucceeds | basic.py:124-128 | A run without error returns the reference tokens, all well-formed. Every character of the text was consumable, and the text has no newline. |
| Laws.RunFails | basic.py:60-64 | A failed run returns no tokens. Its error is an Illegal Character error at index k of a character that cannot start a lexeme, with that character quoted as details. Every character before k is consumable. The error starts on line 0 at column k, ends at index k+1, and carries the run's file name and text. |
| Laws.RunFailureRendering | basic.py:94-97 | The rendered failure reads "Illegal Character: " and the details, then a newline, then "File " and the file name, then ", line 1". |
| Laws.NewlineFails | basic.py:38-64 | A text containing a newline always fails: a newline is not a blank. |
| Laws.BlankOnlyLexesEmpty | basic.py:37-66 | Text made only of spaces and tabs scans to no tokens. |
| Laws.BlankRun | basic.py:124-128 | A run over spaces and tabs only, including the empty text, gives no tokens and no error. |
| Laws.OperatorRun | basic.py:42-59 | A lone operator character gives exactly its one valueless token and no error. |
| Laws.NumberRun | basic.py:68-84 | A text that is one number lexeme gives exactly one token. It is INT of the lexeme's decimal value when there is no dot, and FLOAT of the lexeme otherwise. |
| Laws.NumberLengthOfLexeme | basic.py:72-79 | Number scanning takes a whole number lexeme. |
| Laws.NumberLengthAppend | basic.py:72-79 | What follows a number does not change its length when the number stops inside its own text, or when the follower cannot continue a number. |
| Laws.LexConcat | basic.py:34-66 | Take a cleanly scanning text `a` followed by `b`, where the seam does not join two numbers. The scan of `a + b` is `a`'s tokens followed by `b`'s, or `b`'s first illegal character shifted by the length of `a`. |
| Laws.LexErrorPrefix | basic.py:60-64 | The first illegal character of `a` is also the first illegal character of `a + b`, whatever `b` is. |
| Laws.BlankInsertion | basic.py:38-39 | Inserting spaces and tabs at a seam that does not join two numbers changes neither success nor the tokens. |
| Scenarios.ArithmeticExpression | basic.py:37-59 | "3 + 4 * 2" gives INT 3, PLUS, INT 4, MUL, INT 2 and no error. |
| Scenarios.FloatLiteral | basic.py:68-84 | "3.14" gives one FLOAT token carrying "3.14" and no error. |
| Scenarios.ParenthesisedDifference | basic.py:45-59 | "(1 - 2)" gives LPAREN, INT 1, MINUS, INT 2, RPAREN and no error. |
| Scenarios.IllegalDollar | basic.py:60-64 | "5 $ 3" gives no tokens and an Illegal Character error with details "'$'", spanning index 2 to index 3. |
| Scenarios.LexDoubleDot | basic.py:72-79 | In "1..2" the number stops after "1." because of the second dot. The scan then fails at index 2. |
| Scenarios.DoubleDot | basic.py:60-84 | "1..2" fails with an Illegal Character error for "'.'" at index 2. The number "1." scanned before it is discarded. |
| Scenarios.EmptyText | basic.py:34-66 | The empty text gives no tokens and no error. |

## Left out

- `float(num_str)`: a FLOAT token carries its lexeme (`FloatValue`) rather than a binary floating-point value. Floating-point rounding is not modelled.
- `Token.__repr__` (basic.py:18-20) is not modelled. It is display only. It tests the value for truthiness, so `INT:0` would print as `INT`.
- `int(num_str)` is modelled by `Decimal.DecimalValue` on the digit string. No dot is present on that path.
- Scanner.MakeNumber: treats Python's `int` as having no length limit. Python 3.11 and later, and the patched 3.7 to 3.10 releases, raise `ValueError` when a dot-free digit run is longer than 4300 digits (`sys.get_int_max_str_digits()`), and `basic.py` does not catch it. The model gives an INT token for such a run, and so do `Scanner.Run`, `Laws.RunSucceeds` and `Laws.NumberRun`. The limit is a setting of the interpreter, not of the lexer.
- `Position.advance` returns the cursor itself so calls can be chained. Positions here are immutable values, so `Positions.AdvancePos` returns the new position and there is no aliasing.
- The error's end position: the source passes the lexer's own cursor object, which later advances would change. `make_tokens` returns at once, so the cursor is never advanced again. The model stores that position's value.
- `Scanner.Advance` requires the cursor index to be at least -1. Python's negative indexing would otherwise read from the end of the text, but the index starts at -1 and only grows.
- `Scanner.MakeNumber` requires the current character to be a digit. `make_number` is only called there, so `int('')`, which would raise, cannot happen.
- `Errors.AsString` has no contract of its own. Its format is stated, for every error a run can return, by `Laws.RunFailureRendering`.
- The file name and text carried by a position are opaque strings that are never read while scanning.
- Input and output: the text is a parameter, and nothing is read from a console or file.
