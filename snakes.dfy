/**
 * A snake: a sequence of grid positions with the head first, a direction,
 * a score, and the two cell types it paints onto the map for its head and
 * for the rest of its body.
 */
module Snakes {
  import opened Board

  /** The four directions, written 'r', 'l', 'u' and 'd' in the game. */
  datatype Direction = Right | Left | Up | Down

  function Abs(n: int): nat
  {
    if n < 0 then -n else n
  }

  /** The position one step from `p` in direction `d`; up is towards row 0. */
  function Ahead(p: Pos, d: Direction): (q: Pos)
    ensures Abs(q.x - p.x) + Abs(q.y - p.y) == 1
    ensures (d == Right || d == Left) <==> q.y == p.y
    ensures d == Right ==> q.x > p.x
    ensures d == Left ==> q.x < p.x
    ensures d == Up ==> q.y < p.y
    ensures d == Down ==> q.y > p.y
  {
    match d
    case Right => Position(p.y, p.x + 1)
    case Left => Position(p.y, p.x - 1)
    case Up => Position(p.y - 1, p.x)
    case Down => Position(p.y + 1, p.x)
  }

  /** A step from an interior position stays on the grid (possibly on the border). */
  lemma AheadOnGrid(g: Grid, rows: int, cols: int, p: Pos, d: Direction)
    requires IsGrid(g, rows, cols) && Interior(rows, cols, p)
    ensures InGrid(g, Ahead(p, d).y, Ahead(p, d).x)
  {
  }

  /** The value a snake object holds. */
  datatype Player = Player(body: seq<Pos>, dir: Direction, score: int, head: Cell, tail: Cell)

  /** The body after a step with the tail segment dropped. */
  function Moved(body: seq<Pos>, d: Direction): seq<Pos>
    requires |body| >= 1
  {
    [Ahead(body[0], d)] + body[..|body| - 1]
  }

  /** `p`'s cell exists on `g`. */
  predicate Placed(g: Grid, p: Pos)
  {
    InGrid(g, p.y, p.x)
  }

  /** Every segment lies strictly inside the border ring. */
  predicate AllInterior(rows: int, cols: int, body: seq<Pos>)
  {
    forall i :: 0 <= i < |body| ==> Interior(rows, cols, body[i])
  }

  /** Every segment's cell exists on `g`. */
  predicate AllPlaced(g: Grid, body: seq<Pos>)
  {
    forall i :: 0 <= i < |body| ==> Placed(g, body[i])
  }

  /** Paints `tail` on the cells of `body[1..n]`, in that order. */
  function PaintTail(g: Grid, body: seq<Pos>, n: nat, tail: Cell): (h: Grid)
    requires 1 <= n <= |body|
    requires forall i :: 1 <= i < n ==> Placed(g, body[i])
    ensures |h| == |g| && forall r :: 0 <= r < |g| ==> |h[r]| == |g[r]|
    decreases n
  {
    if n == 1 then g
    else
      var h := PaintTail(g, body, n - 1, tail);
      assert Placed(g, body[n - 1]);
      Write(h, body[n - 1].y, body[n - 1].x, tail)
  }

  /**
   * The grid after a step of a snake whose body is now `body` and whose
   * dropped tail segment was `last`: `last` is emptied, then the head is
   * painted, then every later segment.
   */
  function Repaint(g: Grid, last: Pos, body: seq<Pos>, head: Cell, tail: Cell): (h: Grid)
    requires |body| >= 1 && Placed(g, last) && AllPlaced(g, body)
    ensures |h| == |g| && forall r :: 0 <= r < |g| ==> |h[r]| == |g[r]|
  {
    var g1 := Write(g, last.y, last.x, Empty);
    assert Placed(g, body[0]);
    var g2 := Write(g1, body[0].y, body[0].x, head);
    assert forall i :: 1 <= i < |body| ==> Placed(g, body[i]);
    PaintTail(g2, body, |body|, tail)
  }

  /** Each cell after `PaintTail`: `tail` on a painted segment, unchanged elsewhere. */
  lemma {:induction false} PaintTailAt(g: Grid, body: seq<Pos>, n: nat, tail: Cell, r: int, c: int)
    requires 1 <= n <= |body|
    requires forall i :: 1 <= i < n ==> Placed(g, body[i])
    requires InGrid(g, r, c)
    ensures PaintTail(g, body, n, tail)[r][c] == if Pos(c, r) in body[1..n] then tail else g[r][c]
  {
    if n > 1 {
      PaintTailAt(g, body, n - 1, tail, r, c);
      assert body[1..n] == body[1..n - 1] + [body[n - 1]];
    }
  }

  /**
   * Each cell after a repaint: a later segment wins over the head, the head
   * wins over the emptied tail cell, and a cell no segment covers keeps
   * its old content.
   */
  lemma RepaintAt(g: Grid, last: Pos, body: seq<Pos>, head: Cell, tail: Cell, r: int, c: int)
    requires |body| >= 1 && Placed(g, last) && AllPlaced(g, body)
    requires InGrid(g, r, c)
    ensures Repaint(g, last, body, head, tail)[r][c] ==
      if Pos(c, r) in body[1..] then tail
      else if Pos(c, r) == body[0] then head
      else if Pos(c, r) == last then Empty
      else g[r][c]
  {
    var g1 := Write(g, last.y, last.x, Empty);
    assert Placed(g, body[0]);
    var g2 := Write(g1, body[0].y, body[0].x, head);
    assert forall i :: 1 <= i < |body| ==> Placed(g, body[i]);
    PaintTailAt(g2, body, |body|, tail, r, c);
    assert body[1..|body|] == body[1..];
  }

  /**
   * On a snake whose segments and dropped tail cell are pairwise distinct,
   * a repaint leaves the head cell `head`, every other segment `tail`, the
   * dropped cell `Empty`, and every other cell unchanged.
   */
  lemma RepaintDistinct(g: Grid, last: Pos, body: seq<Pos>, head: Cell, tail: Cell)
    requires |body| >= 1 && Placed(g, last) && AllPlaced(g, body)
    requires last !in body
    requires forall i, j :: 0 <= i < j < |body| ==> body[i] != body[j]
    ensures Repaint(g, last, body, head, tail)[body[0].y][body[0].x] == head
    ensures forall i :: 1 <= i < |body| ==> Repaint(g, last, body, head, tail)[body[i].y][body[i].x] == tail
    ensures Repaint(g, last, body, head, tail)[last.y][last.x] == Empty
    ensures forall r, c :: InGrid(g, r, c) && Pos(c, r) !in body && Pos(c, r) != last ==>
              Repaint(g, last, body, head, tail)[r][c] == g[r][c]
  {
    var h := Repaint(g, last, body, head, tail);
    RepaintAt(g, last, body, head, tail, body[0].y, body[0].x);
    assert body[0] !in body[1..] by {
      forall i | 1 <= i < |body| ensures body[i] != body[0] { }
    }
    forall i | 1 <= i < |body|
      ensures h[body[i].y][body[i].x] == tail
    {
      assert body[i] in body;
      RepaintAt(g, last, body, head, tail, body[i].y, body[i].x);
      assert body[i] == body[1..][i - 1];
    }
    RepaintAt(g, last, body, head, tail, last.y, last.x);
    forall r, c | InGrid(g, r, c) && Pos(c, r) !in body && Pos(c, r) != last
      ensures h[r][c] == g[r][c]
    {
      RepaintAt(g, last, body, head, tail, r, c);
    }
  }

  /** A repaint of interior segments with non-food colours keeps the walls and adds no food. */
  lemma RepaintKeeps(g: Grid, rows: int, cols: int, last: Pos, body: seq<Pos>, head: Cell, tail: Cell, fr: int, fc: int)
    requires IsGrid(g, rows, cols) && |body| >= 1
    requires Interior(rows, cols, last) && AllInterior(rows, cols, body)
    requires head != Food && tail != Food
    ensures IsGrid(Repaint(g, last, body, head, tail), rows, cols)
    ensures Walled(g, rows, cols) ==> Walled(Repaint(g, last, body, head, tail), rows, cols)
    ensures FoodOnlyAt(g, fr, fc) ==> FoodOnlyAt(Repaint(g, last, body, head, tail), fr, fc)
  {
    assert AllPlaced(g, body);
    var h := Repaint(g, last, body, head, tail);
    forall r, c | 0 <= r < rows && 0 <= c < cols
      ensures OnBorder(rows, cols, r, c) ==> h[r][c] == g[r][c]
      ensures h[r][c] == Food ==> g[r][c] == Food
    {
      RepaintAt(g, last, body, head, tail, r, c);
      if Pos(c, r) in body[1..] {
        var i :| 1 <= i < |body| && body[i] == Pos(c, r);
        assert Interior(rows, cols, body[i]);
      } else if Pos(c, r) == body[0] {
        assert Interior(rows, cols, body[0]);
      }
    }
  }

  /** A snake object. */
  class Snake {
    var body: seq<Pos>
    var direction: Direction
    var score: int
    var head: Cell
    var tail: Cell

    function Model(): Player
      reads this
    {
      Player(body, direction, score, head, tail)
    }

    /** A one-segment snake at (row, col) with score 0. */
    constructor (row: int, col: int, dir: Direction, head: Cell, tail: Cell)
      ensures Model() == Player([Position(row, col)], dir, 0, head, tail)
    {
      body := [Position(row, col)];
      direction := dir;
      score := 0;
      this.head := head;
      this.tail := tail;
    }

    method SetDirection(dir: Direction)
      modifies this`direction
      ensures direction == dir
    {
      direction := dir;
    }

    method SetScore(i: int)
      modifies this`score
      ensures score == i
    {
      score := i;
    }

    method IncScore(i: int)
      modifies this`score
      ensures score == old(score) + i
    {
      score := score + i;
    }

    method DecScore(i: int)
      modifies this`score
      ensures score == old(score) - i
    {
      score := score - i;
    }

    /** Pushes a new head one step ahead; nothing is dropped and the map is not touched. */
    method Grow()
      requires |body| >= 1
      modifies this`body
      ensures body == [Ahead(old(body)[0], direction)] + old(body)
      ensures |body| == |old(body)| + 1 && body[1..] == old(body)
    {
      var newPosition := Ahead(body[0], direction);
      body := [newPosition] + body;
    }

    /**
     * Pushes a new head one step ahead, drops the tail segment, empties the
     * dropped cell and repaints the head and the rest of the body.
     */
    method Move(m: Map)
      requires |body| >= 1 && m.Valid()
      requires AllPlaced(m.grid, body)
      requires Placed(m.grid, Ahead(body[0], direction))
      modifies this`body, m`grid
      ensures m.Valid()
      ensures body == Moved(old(body), direction)
      ensures |body| == |old(body)| && body[1..] == old(body)[..|old(body)| - 1]
      ensures m.grid == Repaint(old(m.grid), old(body)[|old(body)| - 1], body, head, tail)
    {
      var newPosition := Ahead(body[0], direction);
      body := [newPosition] + body;
      var last := body[|body| - 1];
      body := body[..|body| - 1];
      assert body == Moved(old(body), direction);
      assert Placed(m.grid, last) && AllPlaced(m.grid, body);
      m.SetMapPointTo(last.y, last.x, Empty);
      m.SetMapPointTo(body[0].y, body[0].x, head);
      PaintBody(m);
    }

    /** The last part of a move: paints `tail` on every segment after the head, in order. */
    method PaintBody(m: Map)
      requires |body| >= 1 && m.Valid()
      requires forall k :: 1 <= k < |body| ==> Placed(m.grid, body[k])
      modifies m`grid
      ensures m.Valid() && m.grid == PaintTail(old(m.grid), body, |body|, tail)
    {
      var i := 1;
      while i < |body|
        invariant 1 <= i <= |body|
        invariant m.Valid() && IsGrid(old(m.grid), m.rows, m.cols)
        invariant m.grid == PaintTail(old(m.grid), body, i, tail)
      {
        m.SetMapPointTo(body[i].y, body[i].x, tail);
        i := i + 1;
      }
    }
  }
}
