/** Whole-scan laws of the lexer of basic.py, stated on the reference scan
    `Lex` and carried to `run` through the agreement proved in Scanner:
    outcome facts, blanks, concatenation, and concrete inputs. */
module Laws {
  import opened Wrappers
  import opened Decimal
  import opened Positions
  import opened Tokens
  import opened Errors
  import opened LexSpec
  import opened Scanner

  /** Text made only of spaces and tabs (including the empty text) scans to no tokens. */
  lemma {:induction false} BlankOnlyLexesEmpty(s: string)
    requires forall i :: 0 <= i < |s| ==> IsBlank(s[i])
    decreases |s|
    ensures Lex(s) == Lexed([])
  {
    if s != [] {
      BlankOnlyLexesEmpty(s[1..]);
    }
  }

  /** A number lexeme is taken whole by number scanning. */
  lemma {:induction false} NumberLengthOfLexeme(s: string, seenDot: bool)
    requires forall i :: 0 <= i < |s| ==> IsNumberChar(s[i])
    requires AtMostOneDot(s)
    requires seenDot ==> '.' !in s
    decreases |s|
    ensures NumberLength(s, seenDot) == |s|
  {
    if s != [] {
      var rest := s[1..];
      assert AtMostOneDot(rest) by {
        forall i, j | 0 <= i < j < |rest|
          ensures !(rest[i] == '.' && rest[j] == '.')
        {
          assert rest[i] == s[i + 1] && rest[j] == s[j + 1];
        }
      }
      if s[0] == '.' {
        assert '.' !in rest by {
          forall j | 0 <= j < |rest|
            ensures rest[j] != '.'
          {
            assert rest[j] == s[j + 1];
          }
        }
        NumberLengthOfLexeme(rest, true);
      } else {
        assert seenDot ==> '.' !in rest;
        NumberLengthOfLexeme(rest, seenDot);
      }
    }
  }

  /** Number scanning over `a + b` stops where it stops over `a` when it
      stops inside `a`, or when `b` cannot continue a number. */
  lemma {:induction false} NumberLengthAppend(a: string, b: string, seenDot: bool)
    requires NumberLength(a, seenDot) < |a| || b == [] || !IsNumberChar(b[0])
    decreases |a|
    ensures NumberLength(a + b, seenDot) == NumberLength(a, seenDot)
  {
    if b == [] {
      assert a + b == a;
    } else if a != [] {
      assert (a + b)[0] == a[0] && (a + b)[1..] == a[1..] + b;
      if IsDigit(a[0]) {
        NumberLengthAppend(a[1..], b, seenDot);
      } else if a[0] == '.' && !seenDot {
        NumberLengthAppend(a[1..], b, true);
      }
    }
  }

  lemma {:induction false} SliceAppend(a: string, b: string, n: nat)
    requires n <= |a|
    ensures (a + b)[..n] == a[..n] && (a + b)[n..] == a[n..] + b
  {
  }

  /** Two texts can be joined without one's number running into the other's. */
  predicate Boundary(a: string, b: string) {
    a == [] || b == [] || !IsNumberChar(a[|a| - 1]) || !IsNumberChar(b[0])
  }

  lemma {:induction false} PrependPrepend(x: seq<Token>, m: nat, y: seq<Token>, p: nat, o: LexOutcome)
    ensures Prepend(x, m, Prepend(y, p, o)) == Prepend(x + y, m + p, o)
  {
    match o
    case Lexed(ts) =>
      assert x + (y + ts) == x + y + ts;
    case Illegal(k, c) =>
  }

  /** How many characters the first lexeme of `s` takes, and what it emits. */
  function FirstWidth(s: string): (n: nat)
    requires s != [] && IsLegalStart(s[0])
    ensures 1 <= n <= |s|
  {
    if IsDigit(s[0]) then NumberLength(s, false) else 1
  }

  function FirstEmitted(s: string): seq<Token>
    requires s != [] && IsLegalStart(s[0])
  {
    if IsBlank(s[0]) then []
    else if IsDigit(s[0]) then NumberLexemePrefix(s); [NumberToken(s[..NumberLength(s, false)])]
    else [Token(OperatorKind(s[0]).value, None)]
  }

  lemma {:induction false} LexFirst(s: string)
    requires s != [] && IsLegalStart(s[0])
    ensures Lex(s) == Prepend(FirstEmitted(s), FirstWidth(s), Lex(s[FirstWidth(s)..]))
  {
  }

  /** Concatenation law: scanning `a + b`, where `a` scans cleanly and the
      seam does not join two numbers, gives `a`'s tokens followed by `b`'s,
      or `b`'s first illegal character shifted past `a`. */
  lemma {:induction false} LexConcat(a: string, b: string)
    requires Lex(a).Lexed? && Boundary(a, b)
    decreases |a|
    ensures Lex(a + b) == Prepend(Lex(a).tokens, |a|, Lex(b))
  {
    if a == [] {
      assert a + b == b;
      match Lex(b)
      case Lexed(ts) => assert [] + ts == ts;
      case Illegal(k, c) =>
    } else {
      var ab := a + b;
      assert ab[0] == a[0];
      var n := FirstWidth(a);
      if IsDigit(a[0]) {
        NumberLengthFacts(a, false);
        NumberLengthAppend(a, b, false);
      }
      assert FirstWidth(ab) == n;
      SliceAppend(a, b, n);
      assert FirstEmitted(ab) == FirstEmitted(a);
      LexFirst(a);
      LexFirst(ab);
      LexConcat(a[n..], b);
      PrependPrepend(FirstEmitted(a), n, Lex(a[n..]).tokens, |a| - n, Lex(b));
    }
  }

  /** An illegal character in `a` is found in `a + b` too, at the same offset,
      whatever follows. */
  lemma {:induction false} LexErrorPrefix(a: string, b: string)
    requires Lex(a).Illegal?
    decreases |a|
    ensures Lex(a + b) == Lex(a)
  {
    var ab := a + b;
    assert ab[0] == a[0];
    if IsLegalStart(a[0]) {
      var n := FirstWidth(a);
      LexFirst(a);
      assert Lex(a[n..]).Illegal?;
      if IsDigit(a[0]) {
        NumberLengthAppend(a, b, false);
      }
      assert FirstWidth(ab) == n;
      SliceAppend(a, b, n);
      assert FirstEmitted(ab) == FirstEmitted(a);
      LexFirst(ab);
      LexErrorPrefix(a[n..], b);
    }
  }

  /** Inserting a run of spaces and tabs at a seam that does not join two
      numbers changes neither whether the scan succeeds nor its tokens. */
  lemma {:induction false} BlankInsertion(a: string, w: string, b: string)
    requires forall i :: 0 <= i < |w| ==> IsBlank(w[i])
    requires Boundary(a, b)
    ensures Lex(a + w + b).Lexed? <==> Lex(a + b).Lexed?
    ensures Lex(a + b).Lexed? ==> Lex(a + w + b).tokens == Lex(a + b).tokens
  {
    assert a + w + b == a + (w + b);
    if Lex(a).Illegal? {
      LexErrorPrefix(a, w + b);
      LexErrorPrefix(a, b);
    } else {
      BlankOnlyLexesEmpty(w);
      LexConcat(w, b);
      assert w == [] ==> w + b == b;
      LexConcat(a, w + b);
      LexConcat(a, b);
      match Lex(b)
      case Lexed(ts) => assert [] + ts == ts;
      case Illegal(k, c) =>
    }
  }

  /** A successful run produced well-formed tokens from a text made only of
      consumable characters; in particular the text has no newline. */
  lemma {:induction false} RunSucceeds(fn: string, text: string)
    requires Run(fn, text).1.None?
    ensures Lex(text).Lexed? && Run(fn, text).0 == Lex(text).tokens
    ensures forall i :: 0 <= i < |Run(fn, text).0| ==> WellFormed(Run(fn, text).0[i])
    ensures forall j :: 0 <= j < |text| ==> Consumable(text[j])
    ensures '\n' !in text
  {
    LexedFacts(text);
  }

  /** A failed run returns no tokens and one Illegal Character error: the
      offending character quoted, spanning from its own position to the next,
      on line 0 at a column equal to its index. Every character before it was
      consumable. */
  lemma {:induction false} RunFails(fn: string, text: string)
    requires Run(fn, text).1.Some?
    ensures var e := Run(fn, text).1.value;
            var k := e.posStart.idx;
            && Run(fn, text).0 == []
            && 0 <= k < |text| && !IsLegalStart(text[k])
            && (forall j :: 0 <= j < k ==> Consumable(text[j]))
            && e.errorName == "Illegal Character"
            && e.details == "'" + [text[k]] + "'"
            && e.posStart.ln == 0 && e.posStart.col == k
            && e.posEnd.idx == k + 1
            && e.posStart.fn == fn && e.posStart.ftxt == text
  {
    var k := Lex(text).offset;
    var e := Run(fn, text).1.value;
    assert e.posStart == PosAt(fn, text, k);
    LexIllegalPrefix(text);
    NoNewlineFirstLine(text, k);
  }

  /** The rendered error of a failed run names the character and always
      reports line 1, since a newline can never be passed over. */
  lemma {:induction false} RunFailureRendering(fn: string, text: string)
    requires Run(fn, text).1.Some?
    ensures var e := Run(fn, text).1.value;
            AsString(e) == "Illegal Character: " + e.details + "\nFile " + fn + ", line 1"
  {
    RunFails(fn, text);
    var e := Run(fn, text).1.value;
    assert IntToString(e.posStart.ln + 1) == "1";
    assert e.errorName + ": " == "Illegal Character: ";
  }

  /** A newline anywhere makes the run fail: it is not a blank. */
  lemma {:induction false} NewlineFails(fn: string, text: string)
    requires '\n' in text
    ensures Run(fn, text).1.Some? && Run(fn, text).0 == []
  {
    if Run(fn, text).1.None? {
      RunSucceeds(fn, text);
    }
  }

  /** Only spaces and tabs, including the empty text: no tokens and no error. */
  lemma {:induction false} BlankRun(fn: string, text: string)
    requires forall i :: 0 <= i < |text| ==> IsBlank(text[i])
    ensures Run(fn, text) == ([], None)
  {
    BlankOnlyLexesEmpty(text);
  }

  /** A lone operator character yields its one token with no value. */
  lemma {:induction false} OperatorRun(fn: string, c: char)
    requires OperatorKind(c).Some?
    ensures Run(fn, [c]) == ([Token(OperatorKind(c).value, None)], None)
  {
    var t := Token(OperatorKind(c).value, None);
    assert [c][1..] == [] && Lex([c][1..]) == Lexed([]);
    assert [t] + [] == [t];
  }

  /** A text that is one number lexeme yields exactly its number token: INT of
      its decimal value when it has no dot, FLOAT of the text otherwise. */
  lemma {:induction false} NumberRun(fn: string, s: string)
    requires IsNumberLexeme(s)
    ensures Run(fn, s) == ([NumberToken(s)], None)
    ensures '.' !in s ==> Run(fn, s).0[0] == Token(INT, Some(IntValue(DecimalValue(s))))
    ensures '.' in s ==> Run(fn, s).0[0] == Token(FLOAT, Some(FloatValue(s)))
  {
    NumberLengthOfLexeme(s, false);
    assert s[..|s|] == s && s[|s|..] == [] && Lex(s[|s|..]) == Lexed([]);
    assert [NumberToken(s)] + [] == [NumberToken(s)];
  }
}
