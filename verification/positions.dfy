/** The cursor of basic.py (`class Position`): an absolute index, a 0-based
    line and a 0-based column, plus the file name and full text it belongs to,
    which are carried along for diagnostics and never read while scanning. */
module Positions {
  import opened Wrappers

  datatype Position = Position(idx: int, ln: int, col: int, fn: string, ftxt: string)

  /** `Position.advance(current_char)`: step over the character being left.
      Leaving a newline moves to column 0 of the next line. */
  function AdvancePos(p: Position, current: Option<char>): (q: Position)
    ensures q.idx == p.idx + 1 && q.fn == p.fn && q.ftxt == p.ftxt
    ensures current == Some('\n') ==> q.ln == p.ln + 1 && q.col == 0
    ensures current != Some('\n') ==> q.ln == p.ln && q.col == p.col + 1
  {
    if current == Some('\n') then Position(p.idx + 1, p.ln + 1, 0, p.fn, p.ftxt)
    else Position(p.idx + 1, p.ln, p.col + 1, p.fn, p.ftxt)
  }

  /** `Position.copy()`: a snapshot. Positions are values here, so a later
      advance builds a new position and the snapshot keeps its fields. */
  function CopyPos(p: Position): (q: Position)
    ensures q.idx == p.idx && q.ln == p.ln && q.col == p.col
    ensures q.fn == p.fn && q.ftxt == p.ftxt
  {
    Position(p.idx, p.ln, p.col, p.fn, p.ftxt)
  }

  /** The cursor the lexer starts from, one step before the first character. */
  function Origin(fn: string, text: string): Position {
    Position(-1, 0, -1, fn, text)
  }

  /** Number of newline characters among the first `k` characters of `text`. */
  function Lines(text: string, k: nat): nat
    requires k <= |text|
  {
    if k == 0 then 0
    else Lines(text, k - 1) + (if text[k - 1] == '\n' then 1 else 0)
  }

  /** Number of characters among the first `k` of `text` that follow the last
      newline among them (all `k` if there is none). */
  function Col(text: string, k: nat): nat
    requires k <= |text|
  {
    if k == 0 then 0
    else if text[k - 1] == '\n' then 0
    else Col(text, k - 1) + 1
  }

  /** The position reached after consuming exactly the first `k` characters of
      `text`: line and column are a function of the consumed prefix only. */
  function PosAt(fn: string, text: string, k: nat): Position
    requires k <= |text|
  {
    Position(k, Lines(text, k), Col(text, k), fn, text)
  }

  /** Advancing over the character at `k` from the position after `k`
      characters gives the position after `k + 1` characters: the source's
      index, line and column updates track the consumed prefix exactly. */
  lemma {:induction false} AdvanceTracksPrefix(fn: string, text: string, k: nat)
    requires k < |text|
    ensures AdvancePos(PosAt(fn, text, k), Some(text[k])) == PosAt(fn, text, k + 1)
    ensures text[k] == '\n' ==>
              PosAt(fn, text, k + 1).ln == PosAt(fn, text, k).ln + 1 && PosAt(fn, text, k + 1).col == 0
    ensures text[k] != '\n' ==>
              PosAt(fn, text, k + 1).ln == PosAt(fn, text, k).ln && PosAt(fn, text, k + 1).col == PosAt(fn, text, k).col + 1
  {
  }

  /** The first advance, made by the lexer's constructor before any character
      is current, lands on index 0, line 0, column 0. */
  lemma {:induction false} OriginAdvance(fn: string, text: string)
    ensures AdvancePos(Origin(fn, text), None) == PosAt(fn, text, 0)
    ensures PosAt(fn, text, 0).idx == 0 && PosAt(fn, text, 0).ln == 0 && PosAt(fn, text, 0).col == 0
  {
  }

  /** On a prefix without newlines the cursor is on line 0 and its column equals its index. */
  lemma {:induction false} NoNewlineFirstLine(text: string, k: nat)
    requires k <= |text|
    requires forall i :: 0 <= i < k ==> text[i] != '\n'
    ensures Lines(text, k) == 0 && Col(text, k) == k
  {
    if k > 0 {
      NoNewlineFirstLine(text, k - 1);
    }
  }
}
