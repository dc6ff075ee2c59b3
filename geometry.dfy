/**
 * Board geometry shared by every part of the game: cells, the four directions
 * of travel, and the square board of side N.
 */
module Geometry {

  /** A board cell: the origin is the top-left corner, x grows rightward, y downward. */
  datatype Coord = Coord(x: int, y: int)

  /** The four directions a snake can travel in. */
  datatype Direction = Up | Down | Left | Right

  /** The cell `m` units from `c` along `d`; a negative `m` goes the other way. */
  function Shift(c: Coord, d: Direction, m: int): Coord
  {
    match d
    case Right => Coord(c.x + m, c.y)
    case Left => Coord(c.x - m, c.y)
    case Up => Coord(c.x, c.y - m)
    case Down => Coord(c.x, c.y + m)
  }

  /** The cell next to `c` along `d`: right is x + 1, left x - 1, up y - 1, down y + 1. */
  function Step(c: Coord, d: Direction): (r: Coord)
    ensures r == Shift(c, d, 1)
    ensures (r.x - c.x) * (r.x - c.x) + (r.y - c.y) * (r.y - c.y) == 1
  {
    match d
    case Right => c.(x := c.x + 1)
    case Left => c.(x := c.x - 1)
    case Up => c.(y := c.y - 1)
    case Down => c.(y := c.y + 1)
  }

  /** The direction that reverses `d`. */
  function Opposite(d: Direction): (r: Direction)
    ensures r != d
  {
    match d
    case Up => Down
    case Down => Up
    case Left => Right
    case Right => Left
  }

  /** Reversing twice gives the original direction, and a step back undoes a step. */
  lemma OppositeUndoesStep(c: Coord, d: Direction)
    ensures Opposite(Opposite(d)) == d
    ensures Step(Step(c, d), Opposite(d)) == c
  {
  }

  /** Shifts along one direction compose by adding their distances. */
  lemma ShiftAdds(c: Coord, d: Direction, a: int, b: int)
    ensures Shift(Shift(c, d, a), d, b) == Shift(c, d, a + b)
  {
  }

  /** Two shifts of one cell along one direction meet only when the distances agree. */
  lemma ShiftInjective(c: Coord, d: Direction, a: int, b: int)
    ensures Shift(c, d, a) == Shift(c, d, b) <==> a == b
  {
  }

  /** The cell lies on the N x N board, that is in [0, N-1] on both axes. */
  predicate InBoard(n: int, c: Coord)
  {
    0 <= c.x < n && 0 <= c.y < n
  }

  /** The cells of a w x h rectangle anchored at the origin. */
  function Rect(w: nat, h: nat): set<Coord>
  {
    set x, y | 0 <= x < w && 0 <= y < h :: Coord(x, y)
  }

  /** The first w cells of row y. */
  function Row(w: nat, y: int): set<Coord>
  {
    set x | 0 <= x < w :: Coord(x, y)
  }

  lemma {:induction false} RowSize(w: nat, y: int)
    ensures |Row(w, y)| == w
  {
    if w == 0 {
      assert Row(w, y) == {};
    } else {
      RowSize(w - 1, y);
      assert Row(w, y) == Row(w - 1, y) + {Coord(w - 1, y)};
    }
  }

  lemma {:induction false} RectSize(w: nat, h: nat)
    ensures |Rect(w, h)| == w * h
  {
    if h == 0 {
      assert Rect(w, h) == {};
    } else {
      RectSize(w, h - 1);
      RowSize(w, h - 1);
      assert Rect(w, h) == Rect(w, h - 1) + Row(w, h - 1);
      assert Rect(w, h - 1) !! Row(w, h - 1);
      assert w * h == w * (h - 1) + w;
    }
  }

  /** The set of cells of the N x N board. */
  function Board(n: nat): (b: set<Coord>)
    ensures forall c :: c in b <==> InBoard(n, c)
    ensures |b| == n * n
  {
    RectSize(n, n);
    Rect(n, n)
  }

  lemma SubsetSize<T>(a: set<T>, b: set<T>)
    requires a <= b
    ensures |a| <= |b|
  {
    assert b == a + (b - a);
  }

  /** A set of fewer than N*N cells leaves some cell of the board free. */
  lemma FreeCellExists(n: nat, cells: set<Coord>) returns (c: Coord)
    requires |cells| < n * n
    ensures InBoard(n, c) && c !in cells
  {
    var b := Board(n);
    if b <= cells {
      SubsetSize(b, cells);
      assert false;
    }
    var w :| w in b && w !in cells;
    c := w;
  }
}
