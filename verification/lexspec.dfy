/** A position-free reference definition of what the lexer of basic.py
    computes, by recursion on the unread suffix of the text. The scanner in
    module Scanner, which follows the source's loop, cursor and
    `current_char`, is proved to agree with it. */
module LexSpec {
  import opened Wrappers
  import opened Decimal
  import opened Tokens

  /** Length of the longest prefix of `s` made of digits and dots with at most
      one dot in all, where `seenDot` says a dot was already taken. */
  function NumberLength(s: string, seenDot: bool): (n: nat)
    ensures n <= |s|
    ensures |s| > 0 && IsDigit(s[0]) ==> n >= 1
  {
    if s == [] then 0
    else if IsDigit(s[0]) then 1 + NumberLength(s[1..], seenDot)
    else if s[0] == '.' && !seenDot then 1 + NumberLength(s[1..], true)
    else 0
  }

  /** The prefix `NumberLength` measures is made of digits and dots, holds at
      most one dot (none if one was already taken), and cannot be extended. */
  lemma {:induction false} NumberLengthFacts(s: string, seenDot: bool)
    decreases |s|
    ensures var n := NumberLength(s, seenDot);
            && (forall j :: 0 <= j < n ==> IsNumberChar(s[j]))
            && AtMostOneDot(s[..n])
            && (seenDot ==> '.' !in s[..n])
            && (n < |s| ==> !IsDigit(s[n]) && (s[n] != '.' || seenDot || '.' in s[..n]))
  {
    if s != [] && (IsDigit(s[0]) || (s[0] == '.' && !seenDot)) {
      var seen := seenDot || s[0] == '.';
      var rest := s[1..];
      NumberLengthFacts(rest, seen);
      var m := NumberLength(rest, seen);
      var n := 1 + m;
      assert NumberLength(s, seenDot) == n;
      assert s[..n] == [s[0]] + rest[..m];
      forall j | 1 <= j < n
        ensures IsNumberChar(s[j])
      {
        assert s[j] == rest[j - 1];
      }
      forall a, b | 0 <= a < b < n
        ensures !(s[..n][a] == '.' && s[..n][b] == '.')
      {
        assert s[..n][b] == rest[..m][b - 1];
        if a > 0 {
          assert s[..n][a] == rest[..m][a - 1];
        } else if s[0] == '.' {
          assert '.' !in rest[..m];
        }
      }
      if n < |s| {
        assert s[n] == rest[m];
        if rest[m] == '.' && !seen {
          assert '.' in rest[..m];
          var t :| 0 <= t < m && rest[..m][t] == '.';
          assert s[..n][t + 1] == '.';
        }
      }
      if seenDot {
        assert '.' !in rest[..m];
        assert s[0] != '.';
      }
    }
  }

  /** Number scanning from a digit takes a number lexeme. */
  lemma {:induction false} NumberLexemePrefix(s: string)
    requires s != [] && IsDigit(s[0])
    ensures IsNumberLexeme(s[..NumberLength(s, false)])
  {
    NumberLengthFacts(s, false);
  }

  /** The whole outcome of a scan: all tokens, or the first illegal character
      together with its offset. */
  datatype LexOutcome = Lexed(tokens: seq<Token>) | Illegal(offset: nat, c: char)

  /** The outcome of a text that starts with `n` characters producing `ts`
      followed by a rest whose outcome is `rest`. */
  function Prepend(ts: seq<Token>, n: nat, rest: LexOutcome): LexOutcome {
    match rest
    case Lexed(more) => Lexed(ts + more)
    case Illegal(k, c) => Illegal(n + k, c)
  }

  /** A character the scan can get past: one that may start a lexeme, or a dot
      inside a number. */
  predicate Consumable(c: char) {
    IsLegalStart(c) || c == '.'
  }

  /** Scan `s` from its first character. An illegal outcome names a
      character of `s` that cannot start a lexeme. */
  function Lex(s: string): (r: LexOutcome)
    decreases |s|
    ensures r.Illegal? ==> r.offset < |s| && s[r.offset] == r.c && !IsLegalStart(r.c)
  {
    if s == [] then Lexed([])
    else if IsBlank(s[0]) then Prepend([], 1, Lex(s[1..]))
    else if IsDigit(s[0]) then
      var n := NumberLength(s, false);
      NumberLexemePrefix(s);
      Prepend([NumberToken(s[..n])], n, Lex(s[n..]))
    else if OperatorKind(s[0]).Some? then
      Prepend([Token(OperatorKind(s[0]).value, None)], 1, Lex(s[1..]))
    else Illegal(0, s[0])
  }

  /** Joining a consumable prefix of `s` with a consumable prefix of the suffix
      after it. */
  lemma {:induction false} ConsumableJoin(s: string, n: nat, m: nat)
    requires n + m <= |s|
    requires forall j :: 0 <= j < n ==> Consumable(s[j])
    requires forall j :: 0 <= j < m ==> Consumable(s[n..][j])
    ensures forall j :: 0 <= j < n + m ==> Consumable(s[j])
  {
    forall j | n <= j < n + m
      ensures Consumable(s[j])
    {
      assert s[j] == s[n..][j - n];
    }
  }

  /** Before the first illegal character every character was consumable. */
  lemma {:induction false} LexIllegalPrefix(s: string)
    requires Lex(s).Illegal?
    decreases |s|
    ensures forall j :: 0 <= j < Lex(s).offset ==> Consumable(s[j])
  {
    if IsLegalStart(s[0]) {
      var n := if IsDigit(s[0]) then NumberLength(s, false) else 1;
      var rest := s[n..];
      assert Lex(s) == Illegal(n + Lex(rest).offset, Lex(rest).c);
      LexIllegalPrefix(rest);
      if IsDigit(s[0]) {
        NumberLengthFacts(s, false);
      }
      assert forall j :: 0 <= j < n ==> Consumable(s[j]);
      ConsumableJoin(s, n, Lex(rest).offset);
    }
  }

  /** A scan that succeeds has consumed only consumable characters and
      produced only well-formed tokens. */
  lemma {:induction false} LexedFacts(s: string)
    requires Lex(s).Lexed?
    decreases |s|
    ensures forall j :: 0 <= j < |s| ==> Consumable(s[j])
    ensures forall i :: 0 <= i < |Lex(s).tokens| ==> WellFormed(Lex(s).tokens[i])
  {
    if s != [] {
      if IsDigit(s[0]) {
        var n := NumberLength(s, false);
        NumberLengthFacts(s, false);
        LexedFacts(s[n..]);
        forall j | n <= j < |s|
          ensures Consumable(s[j])
        {
          assert s[j] == s[n..][j - n];
        }
      } else {
        LexedFacts(s[1..]);
        forall j | 1 <= j < |s|
          ensures Consumable(s[j])
        {
          assert s[j] == s[1..][j - 1];
        }
      }
    }
  }
}
