/**
  Cursor motions over a sequence of lines. The cursor is 1-based in both
  coordinates; each motion is a single clamped step, and a counted motion is
  that step repeated. Moving between lines keeps the column as it is, even
  when the new line is shorter, and `$` puts the column on the length of the
  line, which is 0 on an empty line.
 */
module Cursor {
  import opened Motions

  datatype Pos = Pos(line: nat, col: nat)

  /** The cursor's line is one of the lines. */
  predicate OnLine(lines: seq<string>, p: Pos)
  {
    1 <= p.line <= |lines|
  }

  function Min(a: int, b: int): int { if a <= b then a else b }

  function Max(a: int, b: int): int { if a <= b then b else a }

  /** The length of the cursor's line. */
  function LineLength(lines: seq<string>, p: Pos): nat
    requires OnLine(lines, p)
  {
    |lines[p.line - 1]|
  }

  /** One step of a motion. */
  function Step(lines: seq<string>, p: Pos, m: Motion): (q: Pos)
    requires OnLine(lines, p)
    ensures OnLine(lines, q)
  {
    match m
    case Left => if p.col > 1 then Pos(p.line, p.col - 1) else p
    case Down => if p.line < |lines| then Pos(p.line + 1, p.col) else p
    case Up => if p.line > 1 then Pos(p.line - 1, p.col) else p
    case Right => if p.col < LineLength(lines, p) then Pos(p.line, p.col + 1) else p
    case LineEnd => Pos(p.line, LineLength(lines, p))
  }

  /** The step of `m` taken `n` times. */
  function Repeat(lines: seq<string>, p: Pos, m: Motion, n: nat): (q: Pos)
    requires OnLine(lines, p)
    ensures OnLine(lines, q)
    decreases n
  {
    if n == 0 then p else Step(lines, Repeat(lines, p, m, n - 1), m)
  }

  /** `h` leaves the line alone and lowers the column by the count, but not below 1. */
  lemma {:induction false} RepeatLeft(lines: seq<string>, p: Pos, n: nat)
    requires OnLine(lines, p)
    ensures Repeat(lines, p, Left, n)
            == Pos(p.line, if p.col <= 1 then p.col else Max(p.col - n, 1))
    decreases n
  {
    if n > 0 {
      RepeatLeft(lines, p, n - 1);
    }
  }

  /** `l` leaves the line alone and raises the column by the count, but only up to the line's length. */
  lemma {:induction false} RepeatRight(lines: seq<string>, p: Pos, n: nat)
    requires OnLine(lines, p)
    ensures var len := LineLength(lines, p);
            Repeat(lines, p, Right, n)
            == Pos(p.line, if p.col >= len then p.col else Min(p.col + n, len))
    decreases n
  {
    if n > 0 {
      RepeatRight(lines, p, n - 1);
    }
  }

  /** `j` leaves the column alone and moves down by the count, but not past the last line. */
  lemma {:induction false} RepeatDown(lines: seq<string>, p: Pos, n: nat)
    requires OnLine(lines, p)
    ensures Repeat(lines, p, Down, n) == Pos(Min(p.line + n, |lines|), p.col)
    decreases n
  {
    if n > 0 {
      RepeatDown(lines, p, n - 1);
    }
  }

  /** `k` leaves the column alone and moves up by the count, but not above the first line. */
  lemma {:induction false} RepeatUp(lines: seq<string>, p: Pos, n: nat)
    requires OnLine(lines, p)
    ensures Repeat(lines, p, Up, n) == Pos(Max(p.line - n, 1), p.col)
    decreases n
  {
    if n > 0 {
      RepeatUp(lines, p, n - 1);
    }
  }

  /** Any positive count of `$` lands on the line's length, so `3$` is `$`; a count of 0 does nothing. */
  lemma {:induction false} RepeatLineEnd(lines: seq<string>, p: Pos, n: nat)
    requires OnLine(lines, p)
    ensures Repeat(lines, p, LineEnd, n)
            == if n == 0 then p else Pos(p.line, LineLength(lines, p))
    decreases n
  {
    if n > 1 {
      RepeatLineEnd(lines, p, n - 1);
    }
  }

  /** Only `j` and `k` change the line, and they change nothing else. */
  lemma {:induction false} RepeatKeepsAxis(lines: seq<string>, p: Pos, m: Motion, n: nat)
    requires OnLine(lines, p)
    ensures m in {Left, Right, LineEnd} ==> Repeat(lines, p, m, n).line == p.line
    ensures m in {Down, Up} ==> Repeat(lines, p, m, n).col == p.col
    decreases n
  {
    if n > 0 {
      RepeatKeepsAxis(lines, p, m, n - 1);
    }
  }

  /**
    `h` and `l` keep a column that lies in `[1, max(1, length)]` there. (`$`
    does not: on an empty line it gives column 0.)
   */
  lemma HorizontalStaysInLine(lines: seq<string>, p: Pos, m: Motion, n: nat)
    requires OnLine(lines, p)
    requires m == Left || m == Right
    requires 1 <= p.col <= Max(1, LineLength(lines, p))
    ensures var q := Repeat(lines, p, m, n);
            1 <= q.col <= Max(1, LineLength(lines, q))
  {
    if m == Left {
      RepeatLeft(lines, p, n);
    } else {
      RepeatRight(lines, p, n);
    }
  }
}
