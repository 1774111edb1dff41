/** Concrete inputs and the outcome `run` gives for each. Each text is scanned
    from its last lexeme backwards, one step of the reference scan at a time. */
module Scenarios {
  import opened Wrappers
  import opened Decimal
  import opened Positions
  import opened Tokens
  import opened Errors
  import opened LexSpec
  import opened Scanner
  import opened Laws

  function Int(n: nat): Token {
    Token(INT, Some(IntValue(n)))
  }

  function Op(k: TokenType): Token {
    Token(k, None)
  }

  /** One step of the reference scan over a leading blank. */
  lemma {:induction false} LexBlank(s: string, rest: string)
    requires |s| >= 1 && s[1..] == rest && IsBlank(s[0])
    ensures Lex(s) == Prepend([], 1, Lex(rest))
  {
  }

  /** One step of the reference scan over a leading operator of kind `k`. */
  lemma {:induction false} LexOp(s: string, rest: string, k: TokenType)
    requires |s| >= 1 && s[1..] == rest && OperatorKind(s[0]) == Some(k)
    ensures Lex(s) == Prepend([Op(k)], 1, Lex(rest))
  {
  }

  /** One step of the reference scan over a leading one-digit number of value
      `d`, followed by a character that cannot continue it. */
  lemma {:induction false} LexDigit(s: string, rest: string, d: nat)
    requires |s| >= 2 && s[1..] == rest && IsDigit(s[0]) && DigitValue(s[0]) == d && !IsNumberChar(s[1])
    ensures Lex(s) == Prepend([Int(d)], 1, Lex(rest))
  {
    assert s[1..][0] == s[1];
    assert NumberLength(s, false) == 1;
    assert s[..1] == [s[0]] && [s[0]][..0] == [];
  }

  lemma {:induction false} QuoteOf(c: char, q: string)
    requires |q| == 3 && q[0] == '\'' && q[1] == c && q[2] == '\''
    ensures Quote(c) == q
  {
  }

  /** A run returns what the reference scan of its text says. */
  lemma {:induction false} RunOfLexed(fn: string, text: string, ts: seq<Token>)
    requires Lex(text) == Lexed(ts)
    ensures Run(fn, text) == (ts, None)
  {
  }

  lemma {:induction false} RunOfIllegal(fn: string, text: string, k: nat, c: char)
    requires Lex(text) == Illegal(k, c)
    ensures k < |text|
    ensures Run(fn, text) == ([], Some(IllegalCharError(PosAt(fn, text, k), PosAt(fn, text, k + 1), Quote(c))))
  {
  }

  /* "3 + 4 * 2" */

  lemma LexTwo()
    ensures Lex("2") == Lexed([Int(2)])
  {
    NumberLengthOfLexeme("2", false);
    assert "2"[..1] == "2" && "2"[1..] == [] && '.' !in "2";
    assert DecimalValue("2") == 2 by { assert "2"[..0] == ""; }
  }

  lemma LexBlankTwo()
    ensures Lex(" 2") == Lexed([Int(2)])
  {
    LexTwo();
    LexBlank(" 2", "2");
  }

  lemma LexTimesTwo()
    ensures Lex("* 2") == Lexed([Op(MUL), Int(2)])
  {
    LexBlankTwo();
    LexOp("* 2", " 2", MUL);
  }

  lemma LexBlankTimesTwo()
    ensures Lex(" * 2") == Lexed([Op(MUL), Int(2)])
  {
    LexTimesTwo();
    LexBlank(" * 2", "* 2");
  }

  lemma LexFourTimesTwo()
    ensures Lex("4 * 2") == Lexed([Int(4), Op(MUL), Int(2)])
  {
    LexBlankTimesTwo();
    LexDigit("4 * 2", " * 2", 4);
  }

  lemma LexBlankFourTimesTwo()
    ensures Lex(" 4 * 2") == Lexed([Int(4), Op(MUL), Int(2)])
  {
    LexFourTimesTwo();
    LexBlank(" 4 * 2", "4 * 2");
  }

  lemma LexPlusFour()
    ensures Lex("+ 4 * 2") == Lexed([Op(PLUS), Int(4), Op(MUL), Int(2)])
  {
    LexBlankFourTimesTwo();
    LexOp("+ 4 * 2", " 4 * 2", PLUS);
  }

  lemma LexBlankPlusFour()
    ensures Lex(" + 4 * 2") == Lexed([Op(PLUS), Int(4), Op(MUL), Int(2)])
  {
    LexPlusFour();
    LexBlank(" + 4 * 2", "+ 4 * 2");
  }

  lemma LexArithmetic()
    ensures Lex("3 + 4 * 2") == Lexed([Int(3)] + [Op(PLUS), Int(4), Op(MUL), Int(2)])
  {
    LexBlankPlusFour();
    LexDigit("3 + 4 * 2", " + 4 * 2", 3);
  }

  /** Blanks between lexemes are dropped; each digit run is one INT. */
  lemma {:induction false} ArithmeticExpression(fn: string)
    ensures Run(fn, "3 + 4 * 2").1 == None
    ensures |Run(fn, "3 + 4 * 2").0| == 5
    ensures Run(fn, "3 + 4 * 2").0[0] == Int(3) && Run(fn, "3 + 4 * 2").0[1] == Op(PLUS)
    ensures Run(fn, "3 + 4 * 2").0[2] == Int(4) && Run(fn, "3 + 4 * 2").0[3] == Op(MUL)
    ensures Run(fn, "3 + 4 * 2").0[4] == Int(2)
  {
    LexArithmetic();
    RunOfLexed(fn, "3 + 4 * 2", [Int(3)] + [Op(PLUS), Int(4), Op(MUL), Int(2)]);
  }

  /* "3.14" */

  /** A digit run with one dot is one FLOAT carrying its lexeme. */
  lemma {:induction false} FloatLiteral(fn: string)
    ensures Run(fn, "3.14") == ([Token(FLOAT, Some(FloatValue("3.14")))], None)
  {
    assert IsNumberLexeme("3.14");
    assert '.' in "3.14" by { assert "3.14"[1] == '.'; }
    NumberRun(fn, "3.14");
  }

  /* "(1 - 2)" */

  lemma LexClose()
    ensures Lex(")") == Lexed([Op(RPAREN)])
  {
    assert Lex("") == Lexed([]);
    LexOp(")", "", RPAREN);
  }

  lemma LexTwoClose()
    ensures Lex("2)") == Lexed([Int(2), Op(RPAREN)])
  {
    LexClose();
    LexDigit("2)", ")", 2);
  }

  lemma LexBlankTwoClose()
    ensures Lex(" 2)") == Lexed([Int(2), Op(RPAREN)])
  {
    LexTwoClose();
    LexBlank(" 2)", "2)");
  }

  lemma LexMinusTwoClose()
    ensures Lex("- 2)") == Lexed([Op(MINUS), Int(2), Op(RPAREN)])
  {
    LexBlankTwoClose();
    LexOp("- 2)", " 2)", MINUS);
  }

  lemma LexBlankMinusTwoClose()
    ensures Lex(" - 2)") == Lexed([Op(MINUS), Int(2), Op(RPAREN)])
  {
    LexMinusTwoClose();
    LexBlank(" - 2)", "- 2)");
  }

  lemma LexOneMinusTwoClose()
    ensures Lex("1 - 2)") == Lexed([Int(1), Op(MINUS), Int(2), Op(RPAREN)])
  {
    LexBlankMinusTwoClose();
    LexDigit("1 - 2)", " - 2)", 1);
  }

  lemma LexParenthesised()
    ensures Lex("(1 - 2)") == Lexed([Op(LPAREN)] + [Int(1), Op(MINUS), Int(2), Op(RPAREN)])
  {
    LexOneMinusTwoClose();
    LexOp("(1 - 2)", "1 - 2)", LPAREN);
  }

  /** Parentheses and minus are single-character tokens. */
  lemma {:induction false} ParenthesisedDifference(fn: string)
    ensures Run(fn, "(1 - 2)").1 == None
    ensures |Run(fn, "(1 - 2)").0| == 5
    ensures Run(fn, "(1 - 2)").0[0] == Op(LPAREN) && Run(fn, "(1 - 2)").0[1] == Int(1)
    ensures Run(fn, "(1 - 2)").0[2] == Op(MINUS) && Run(fn, "(1 - 2)").0[3] == Int(2)
    ensures Run(fn, "(1 - 2)").0[4] == Op(RPAREN)
  {
    LexParenthesised();
    RunOfLexed(fn, "(1 - 2)", [Op(LPAREN)] + [Int(1), Op(MINUS), Int(2), Op(RPAREN)]);
  }

  /* "5 $ 3" */

  lemma LexDollar()
    ensures Lex("5 $ 3") == Illegal(2, '$')
  {
    assert Lex("$ 3") == Illegal(0, '$');
    LexBlank(" $ 3", "$ 3");
    LexDigit("5 $ 3", " $ 3", 5);
  }

  /** An illegal character discards the tokens before it and is reported
      quoted, spanning its own index and the next. */
  lemma {:induction false} IllegalDollar(fn: string)
    ensures Run(fn, "5 $ 3") == ([], Some(IllegalCharError(PosAt(fn, "5 $ 3", 2), PosAt(fn, "5 $ 3", 3), "'$'")))
  {
    LexDollar();
    RunOfIllegal(fn, "5 $ 3", 2, '$');
    QuoteOf('$', "'$'");
  }

  /* "1..2" */

  lemma LexDoubleDot()
    ensures NumberLength("1..2", false) == 2
    ensures Lex("1..2") == Illegal(2, '.')
  {
    var s := "1..2";
    assert s[1..] == "..2" && s[1..][1..] == ".2";
    assert NumberLength(".2", true) == 0;
    assert NumberLength("..2", false) == 1;
    assert NumberLength(s, false) == 2;
    assert s[2..] == ".2";
    assert Lex(".2") == Illegal(0, '.');
  }

  /** The number stops before the second dot, which then fails as an illegal
      character of its own. */
  lemma {:induction false} DoubleDot(fn: string)
    ensures Run(fn, "1..2") == ([], Some(IllegalCharError(PosAt(fn, "1..2", 2), PosAt(fn, "1..2", 3), "'.'")))
  {
    LexDoubleDot();
    RunOfIllegal(fn, "1..2", 2, '.');
    QuoteOf('.', "'.'");
  }

  /* "" */

  /** The empty text yields no tokens and no error. */
  lemma {:induction false} EmptyText(fn: string)
    ensures Run(fn, "") == ([], None)
  {
    BlankRun(fn, "");
  }
}
