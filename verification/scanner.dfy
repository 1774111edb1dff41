/** The lexer of basic.py (`class Lexer` and `run`): a cursor over a fully
    resident text, the character under it, and the scanning loop. Each Python
    method that mutates the lexer becomes a function from the old lexer value
    to the new one. */
module Scanner {
  import opened Wrappers
  import opened Decimal
  import opened Positions
  import opened Tokens
  import opened Errors
  import opened LexSpec

  datatype Lexer = Lexer(fn: string, text: string, pos: Position, current: Option<char>)

  /** The character at index `i`, or `None` past the end. */
  function CharAt(text: string, i: nat): Option<char> {
    if i < |text| then Some(text[i]) else None
  }

  /** The scanning invariant: the cursor is inside the text (or just past it),
      belongs to this file and text, and `current` is the character under it. */
  predicate Valid(lx: Lexer) {
    && 0 <= lx.pos.idx <= |lx.text|
    && lx.pos.fn == lx.fn && lx.pos.ftxt == lx.text
    && lx.current == CharAt(lx.text, lx.pos.idx)
  }

  /** The line and column of the cursor are those of the consumed prefix.
      Kept apart from `Valid` because only the error positions depend on it. */
  predicate Tracked(lx: Lexer) {
    && 0 <= lx.pos.idx <= |lx.text|
    && lx.pos.ln == Lines(lx.text, lx.pos.idx)
    && lx.pos.col == Col(lx.text, lx.pos.idx)
  }

  /** `Lexer.advance()`: move the cursor over the current character and read
      the next one. The cursor index is never below -1, its starting value, so
      the source's read never uses a negative index. */
  function Advance(lx: Lexer): (r: Lexer)
    requires lx.pos.idx >= -1
    ensures r.pos.idx == lx.pos.idx + 1 && r.text == lx.text && r.fn == lx.fn
    ensures r.current == CharAt(lx.text, r.pos.idx)
    ensures Valid(lx) && lx.current.Some? ==> Valid(r)
  {
    var p := AdvancePos(lx.pos, lx.current);
    Lexer(lx.fn, lx.text, p, if p.idx < |lx.text| then Some(lx.text[p.idx]) else None)
  }

  /** Advancing over a present character keeps line and column in step with
      the consumed prefix. */
  lemma {:induction false} AdvanceTracked(lx: Lexer)
    requires Valid(lx) && lx.current.Some? && Tracked(lx)
    ensures Tracked(Advance(lx))
  {
    AdvanceTracksPrefix(lx.fn, lx.text, lx.pos.idx);
  }

  /** `Lexer.__init__`: start one step before the text and advance once. */
  function Init(fn: string, text: string): (lx: Lexer)
    ensures Valid(lx) && Tracked(lx) && lx.fn == fn && lx.text == text
    ensures lx.pos.idx == 0 && lx.pos.ln == 0 && lx.pos.col == 0
    ensures lx.current == (if |text| > 0 then Some(text[0]) else None)
  {
    OriginAdvance(fn, text);
    Advance(Lexer(fn, text, Origin(fn, text), None))
  }

  /** Unfolding `NumberLength` on a suffix by one character. */
  lemma {:induction false} NumberLengthStep(text: string, i: nat, seenDot: bool)
    requires i < |text|
    ensures NumberLength(text[i..], seenDot)
            == if IsDigit(text[i]) then 1 + NumberLength(text[i + 1..], seenDot)
               else if text[i] == '.' && !seenDot then 1 + NumberLength(text[i + 1..], true)
               else 0
  {
    assert text[i..][1..] == text[i + 1..];
  }

  /** Taking the character at `i` in front of the rest of the number. */
  lemma {:induction false} NumberTextStep(text: string, i: nat, j: nat, numStr: string, dots: nat)
    requires i < j <= |text|
    ensures numStr + [text[i]] + text[i + 1..j] == numStr + text[i..j]
    ensures ((if text[i] == '.' then 1 else dots) == 1 || '.' in text[i + 1..j])
            <==> (dots == 1 || '.' in text[i..j])
  {
    assert text[i..j] == [text[i]] + text[i + 1..j];
  }

  /** The characters number scanning takes from a digit at `i` form a number
      lexeme, and the character after them (if any) cannot extend it. */
  lemma {:induction false} NumberLexemeAt(text: string, i: nat, j: nat)
    requires i < |text| && IsDigit(text[i])
    requires j == i + NumberLength(text[i..], false)
    ensures i < j <= |text|
    ensures IsNumberLexeme(text[i..j])
    ensures j < |text| ==> !IsDigit(text[j]) && (text[j] == '.' ==> '.' in text[i..j])
  {
    NumberLengthFacts(text[i..], false);
    assert text[i..][..j - i] == text[i..j];
  }

  /** The loop of `Lexer.make_number`, from a lexer state with the digits
      gathered so far in `numStr` and `dots` dots taken. */
  function NumberLoop(lx: Lexer, numStr: string, dots: nat): (r: (string, nat, Lexer))
    requires Valid(lx) && dots <= 1
    decreases |lx.text| - lx.pos.idx
    ensures Valid(r.2) && r.2.text == lx.text && r.2.fn == lx.fn && r.2.pos.idx >= lx.pos.idx
  {
    if lx.current.Some? && IsNumberChar(lx.current.value) && !(lx.current.value == '.' && dots == 1) then
      var c := lx.current.value;
      NumberLoop(Advance(lx), numStr + [c], if c == '.' then 1 else dots)
    else
      (numStr, dots, lx)
  }

  /** The number loop takes exactly the `NumberLength` characters ahead of the
      cursor, appends them to `numStr`, and ends with one dot taken exactly
      when a dot was taken before or among them. */
  lemma {:induction false} NumberLoopScans(lx: Lexer, numStr: string, dots: nat)
    requires Valid(lx) && dots <= 1
    decreases |lx.text| - lx.pos.idx
    ensures var r := NumberLoop(lx, numStr, dots);
            && r.2.pos.idx == lx.pos.idx + NumberLength(lx.text[lx.pos.idx..], dots == 1)
            && r.0 == numStr + lx.text[lx.pos.idx..r.2.pos.idx]
            && r.1 == (if dots == 1 || '.' in lx.text[lx.pos.idx..r.2.pos.idx] then 1 else 0)
  {
    var i := lx.pos.idx;
    var r := NumberLoop(lx, numStr, dots);
    if lx.current.Some? && IsNumberChar(lx.current.value) && !(lx.current.value == '.' && dots == 1) {
      var c := lx.current.value;
      var d := if c == '.' then 1 else dots;
      NumberLengthStep(lx.text, i, dots == 1);
      assert NumberLength(lx.text[i..], dots == 1) == 1 + NumberLength(lx.text[i + 1..], d == 1);
      assert r == NumberLoop(Advance(lx), numStr + [c], d);
      NumberLoopScans(Advance(lx), numStr + [c], d);
      NumberTextStep(lx.text, i, r.2.pos.idx, numStr, dots);
    } else if i < |lx.text| {
      NumberLengthStep(lx.text, i, dots == 1);
      assert numStr + lx.text[i..i] == numStr;
    } else {
      assert lx.text[i..] == [] && numStr + lx.text[i..i] == numStr;
    }
  }

  /** The number loop keeps line and column in step with the consumed prefix. */
  lemma {:induction false} NumberLoopTracked(lx: Lexer, numStr: string, dots: nat)
    requires Valid(lx) && Tracked(lx) && dots <= 1
    decreases |lx.text| - lx.pos.idx
    ensures Tracked(NumberLoop(lx, numStr, dots).2)
  {
    if lx.current.Some? && IsNumberChar(lx.current.value) && !(lx.current.value == '.' && dots == 1) {
      AdvanceTracked(lx);
      NumberLoopTracked(Advance(lx), numStr + [lx.current.value], if lx.current.value == '.' then 1 else dots);
    }
  }

  /** `Lexer.make_number`, entered on a digit: run the number loop from an
      empty lexeme, then build INT from the digits if no dot was taken and
      FLOAT from the lexeme otherwise. */
  function MakeNumber(lx: Lexer): (r: (Token, Lexer))
    requires Valid(lx) && lx.current.Some? && IsDigit(lx.current.value)
    ensures Valid(r.1) && r.1.text == lx.text && r.1.fn == lx.fn
    ensures r.1.pos.idx == lx.pos.idx + NumberLength(lx.text[lx.pos.idx..], false)
    ensures && lx.pos.idx < r.1.pos.idx <= |lx.text|
            && IsNumberLexeme(lx.text[lx.pos.idx..r.1.pos.idx])
            && r.0 == NumberToken(lx.text[lx.pos.idx..r.1.pos.idx])
  {
    NumberLoopScans(lx, "", 0);
    var loop := NumberLoop(lx, "", 0);
    var lexeme := lx.text[lx.pos.idx..loop.2.pos.idx];
    NumberLexemeAt(lx.text, lx.pos.idx, loop.2.pos.idx);
    assert loop.0 == lexeme && IsNumberLexeme(lexeme);
    if loop.1 == 0 then
      (Token(INT, Some(IntValue(DecimalValue(loop.0)))), loop.2)
    else
      (Token(FLOAT, Some(FloatValue(loop.0))), loop.2)
  }

  /** Number scanning from a digit takes a digit-led run of digits with at
      most one dot, and stops without consuming at the end of the text, at a
      character that is neither digit nor dot, or at a second dot. The token
      is INT exactly when no dot was taken, valued by the digits, and FLOAT
      of the lexeme otherwise. */
  lemma {:induction false} MakeNumberScans(lx: Lexer)
    requires Valid(lx) && lx.current.Some? && IsDigit(lx.current.value)
    ensures var t, next := MakeNumber(lx).0, MakeNumber(lx).1;
            var lexeme := lx.text[lx.pos.idx..next.pos.idx];
            && |lexeme| >= 1 && IsDigit(lexeme[0])
            && (forall i :: 0 <= i < |lexeme| ==> IsDigit(lexeme[i]) || lexeme[i] == '.')
            && AtMostOneDot(lexeme)
            && (next.current.None?
                || (!IsDigit(next.current.value) && (next.current.value == '.' ==> '.' in lexeme)))
            && (t.kind == INT <==> '.' !in lexeme)
            && (t.kind == INT ==> t.value == Some(IntValue(DecimalValue(lexeme))))
            && (t.kind == FLOAT ==> t.value == Some(FloatValue(lexeme)))
  {
    NumberLexemeAt(lx.text, lx.pos.idx, MakeNumber(lx).1.pos.idx);
  }

  /** What one iteration of the loop in `make_tokens` does with the current
      character. */
  datatype StepResult = Skip(next: Lexer) | Emit(token: Token, next: Lexer) | Fail(error: Error)

  /** One iteration of `make_tokens` on a present character: skip a blank,
      scan a number, emit an operator token, or fail on an illegal character
      with the span from its position to the position after it. */
  function Step(lx: Lexer): (r: StepResult)
    requires Valid(lx) && lx.current.Some?
    ensures r.Skip? <==> IsBlank(lx.current.value)
    ensures r.Fail? <==> !IsLegalStart(lx.current.value)
    ensures !r.Fail? ==> Valid(r.next) && r.next.text == lx.text && r.next.fn == lx.fn
                         && r.next.pos.idx > lx.pos.idx
    ensures r.Skip? ==> r.next == Advance(lx)
    ensures r.Emit? && OperatorKind(lx.current.value).Some? ==>
              r.token == Token(OperatorKind(lx.current.value).value, None) && r.next == Advance(lx)
    ensures r.Emit? && IsDigit(lx.current.value) ==>
              && r.next == MakeNumber(lx).1
              && r.next.pos.idx == lx.pos.idx + NumberLength(lx.text[lx.pos.idx..], false)
              && IsNumberLexeme(lx.text[lx.pos.idx..r.next.pos.idx])
              && r.token == NumberToken(lx.text[lx.pos.idx..r.next.pos.idx])
    ensures r.Fail? ==>
              r.error == IllegalCharError(lx.pos, AdvancePos(lx.pos, lx.current), Quote(lx.current.value))
  {
    var c := lx.current.value;
    if c == ' ' || c == '\t' then Skip(Advance(lx))
    else if IsDigit(c) then
      var made := MakeNumber(lx);
      Emit(made.0, made.1)
    else if c == '+' then Emit(Token(PLUS, None), Advance(lx))
    else if c == '-' then Emit(Token(MINUS, None), Advance(lx))
    else if c == '*' then Emit(Token(MUL, None), Advance(lx))
    else if c == '/' then Emit(Token(DIV, None), Advance(lx))
    else if c == '(' then Emit(Token(LPAREN, None), Advance(lx))
    else if c == ')' then Emit(Token(RPAREN, None), Advance(lx))
    else
      var posStart := CopyPos(lx.pos);
      var after := Advance(lx);
      Fail(IllegalCharError(posStart, after.pos, Quote(c)))
  }

  /** A step that does not fail keeps line and column in step with the
      consumed prefix. */
  lemma {:induction false} StepTracked(lx: Lexer)
    requires Valid(lx) && lx.current.Some? && Tracked(lx) && !Step(lx).Fail?
    ensures Tracked(Step(lx).next)
  {
    if IsDigit(lx.current.value) {
      NumberLoopTracked(lx, "", 0);
    } else {
      AdvanceTracked(lx);
    }
  }

  /** The `while` loop of `make_tokens` from lexer state `lx`, with `tokens`
      gathered so far: on an illegal character it drops the gathered tokens
      and returns the error alone. */
  function Loop(lx: Lexer, tokens: seq<Token>): (r: (seq<Token>, Option<Error>))
    requires Valid(lx)
    decreases |lx.text| - lx.pos.idx
    ensures r.1.Some? ==> r.0 == []
    ensures r.1.None? ==> |r.0| >= |tokens| && r.0[..|tokens|] == tokens
  {
    if lx.current.None? then (tokens, None)
    else
      var step := Step(lx);
      if step.Fail? then ([], Some(step.error))
      else if step.Skip? then Loop(step.next, tokens)
      else
        var r := Loop(step.next, tokens + [step.token]);
        assert r.1.None? ==> r.0[..|tokens|] == (tokens + [step.token])[..|tokens|];
        r
  }

  /** The outcome a scan of `text` reaching index `i` with `tokens` gathered
      must have, given the reference outcome `o` of the unread suffix. */
  function Outcome(fn: string, text: string, i: nat, tokens: seq<Token>, o: LexOutcome): (seq<Token>, Option<Error>)
    requires i <= |text| && (o.Illegal? ==> i + o.offset < |text|)
  {
    match o
    case Lexed(ts) => (tokens + ts, None)
    case Illegal(k, c) =>
      ([], Some(IllegalCharError(PosAt(fn, text, i + k), PosAt(fn, text, i + k + 1), Quote(c))))
  }

  /** The outcome the scan of `text` from index `i` must have, given the
      reference outcome of the suffix there and the tokens gathered before it. */
  function Expected(fn: string, text: string, i: nat, tokens: seq<Token>): (seq<Token>, Option<Error>)
    requires i <= |text|
  {
    Outcome(fn, text, i, tokens, Lex(text[i..]))
  }

  /** Moving the index on by `n` characters that produced `emitted` leaves
      the outcome unchanged. */
  lemma {:induction false} OutcomeAdvance(fn: string, text: string, i: nat, n: nat, tokens: seq<Token>, emitted: seq<Token>, o: LexOutcome)
    requires i + n <= |text| && (o.Illegal? ==> i + n + o.offset < |text|)
    ensures Outcome(fn, text, i, tokens, Prepend(emitted, n, o)) == Outcome(fn, text, i + n, tokens + emitted, o)
  {
    match o
    case Lexed(ts) =>
      assert tokens + (emitted + ts) == tokens + emitted + ts;
    case Illegal(k, c) =>
      assert i + (n + k) == i + n + k;
  }

  /** Consuming `n` characters that produce `emitted` moves the expected
      outcome forward by `n` characters with `emitted` gathered. */
  lemma {:induction false} ExpectedAdvance(fn: string, text: string, i: nat, j: nat, tokens: seq<Token>, emitted: seq<Token>)
    requires i <= j <= |text|
    requires Lex(text[i..]) == Prepend(emitted, j - i, Lex(text[j..]))
    ensures Expected(fn, text, i, tokens) == Expected(fn, text, j, tokens + emitted)
  {
    var o := Lex(text[j..]);
    assert o.Illegal? ==> o.offset < |text[j..]|;
    OutcomeAdvance(fn, text, i, j - i, tokens, emitted, o);
    assert i + (j - i) == j;
  }

  /** The reference scan of a suffix that starts with a blank or an operator. */
  lemma {:induction false} LexAtSingle(text: string, i: nat)
    requires i < |text| && (IsBlank(text[i]) || OperatorKind(text[i]).Some?)
    ensures IsBlank(text[i]) ==> Lex(text[i..]) == Prepend([], 1, Lex(text[i + 1..]))
    ensures OperatorKind(text[i]).Some? ==>
              Lex(text[i..]) == Prepend([Token(OperatorKind(text[i]).value, None)], 1, Lex(text[i + 1..]))
  {
    assert text[i..][0] == text[i] && text[i..][1..] == text[i + 1..];
  }

  /** The reference scan of a suffix that starts with a digit. */
  lemma {:induction false} LexAtDigit(text: string, i: nat, j: nat)
    requires i < |text| && IsDigit(text[i])
    requires j == i + NumberLength(text[i..], false)
    ensures i < j <= |text| && IsNumberLexeme(text[i..j])
    ensures Lex(text[i..]) == Prepend([NumberToken(text[i..j])], j - i, Lex(text[j..]))
  {
    NumberLexemeAt(text, i, j);
    assert text[i..][0] == text[i];
    assert text[i..][..j - i] == text[i..j];
    assert text[i..][j - i..] == text[j..];
  }

  /** The reference scan of a suffix that starts with an illegal character. */
  lemma {:induction false} LexAtIllegal(text: string, i: nat)
    requires i < |text| && !IsLegalStart(text[i])
    ensures Lex(text[i..]) == Illegal(0, text[i])
  {
    assert text[i..][0] == text[i];
  }

  /** The tokens a step that does not fail adds to the gathered ones. */
  function Emitted(step: StepResult): seq<Token> {
    if step.Emit? then [step.token] else []
  }

  /** A step that does not fail moves the loop on with its token gathered. */
  lemma {:induction false} LoopStep(lx: Lexer, tokens: seq<Token>)
    requires Valid(lx) && lx.current.Some? && !Step(lx).Fail?
    ensures Loop(lx, tokens) == Loop(Step(lx).next, tokens + Emitted(Step(lx)))
  {
    assert tokens + [] == tokens;
  }

  /** A step that does not fail moves the expected outcome on by the same
      characters and token. */
  lemma {:induction false} ExpectedStep(lx: Lexer, tokens: seq<Token>)
    requires Valid(lx) && lx.current.Some? && !Step(lx).Fail?
    ensures Expected(lx.fn, lx.text, lx.pos.idx, tokens)
            == Expected(lx.fn, lx.text, Step(lx).next.pos.idx, tokens + Emitted(Step(lx)))
  {
    var step := Step(lx);
    var i, j := lx.pos.idx, step.next.pos.idx;
    if step.Skip? {
      LexAtSingle(lx.text, i);
    } else if IsDigit(lx.current.value) {
      LexAtDigit(lx.text, i, j);
    } else {
      LexAtSingle(lx.text, i);
    }
    ExpectedAdvance(lx.fn, lx.text, i, j, tokens, Emitted(step));
  }

  /** A failing step ends the loop with the expected error. */
  lemma {:induction false} LoopFailAgrees(lx: Lexer, tokens: seq<Token>)
    requires Valid(lx) && Tracked(lx) && lx.current.Some? && Step(lx).Fail?
    ensures Loop(lx, tokens) == Expected(lx.fn, lx.text, lx.pos.idx, tokens)
  {
    var i := lx.pos.idx;
    LexAtIllegal(lx.text, i);
    AdvanceTracksPrefix(lx.fn, lx.text, i);
    assert lx.pos == PosAt(lx.fn, lx.text, i);
  }

  /** The scanning loop agrees with the reference scan of the unread suffix:
      the gathered tokens followed by the suffix's tokens, or no tokens and
      the illegal-character error spanning the suffix's first illegal
      character. */
  lemma {:induction false} LoopAgrees(lx: Lexer, tokens: seq<Token>)
    requires Valid(lx) && Tracked(lx)
    decreases |lx.text| - lx.pos.idx
    ensures Loop(lx, tokens) == Expected(lx.fn, lx.text, lx.pos.idx, tokens)
  {
    if lx.current.None? {
      assert lx.text[lx.pos.idx..] == [] && tokens + [] == tokens;
    } else if Step(lx).Fail? {
      LoopFailAgrees(lx, tokens);
    } else {
      var step := Step(lx);
      StepTracked(lx);
      LoopStep(lx, tokens);
      ExpectedStep(lx, tokens);
      LoopAgrees(step.next, tokens + Emitted(step));
    }
  }

  /** `Lexer.make_tokens()`. */
  function MakeTokens(lx: Lexer): (r: (seq<Token>, Option<Error>))
    requires Valid(lx) && Tracked(lx)
    ensures r.1.Some? ==> r.0 == []
    ensures r == Expected(lx.fn, lx.text, lx.pos.idx, [])
  {
    LoopAgrees(lx, []);
    Loop(lx, [])
  }

  /** `run(fn, text)`: a fresh lexer scanned once. The result is the reference
      scan of the whole text: all tokens and no error, or no tokens and the
      error for the first illegal character. */
  function Run(fn: string, text: string): (r: (seq<Token>, Option<Error>))
    ensures r.1.Some? ==> r.0 == []
    ensures Lex(text).Lexed? ==> r == (Lex(text).tokens, None)
    ensures Lex(text).Illegal? ==>
              var k := Lex(text).offset;
              r == ([], Some(IllegalCharError(PosAt(fn, text, k), PosAt(fn, text, k + 1), Quote(Lex(text).c))))
  {
    var lx := Init(fn, text);
    assert text[0..] == text;
    assert Lex(text).Lexed? ==> [] + Lex(text).tokens == Lex(text).tokens;
    MakeTokens(lx)
  }
}
