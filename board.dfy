/**
 * The playing field of Two Snakes: cell types, grid positions, the
 * rectangular grid of cells, and the Map object that owns the grid and
 * the position of the current food.
 */
module Board {

  /** The cell types, in the order of the game's enumeration. */
  datatype Cell = Empty | Food | Snake | Wall | Snake2 | SnakeTail | Snake2Tail

  /** A grid position: `x` is the column and `y` is the row. */
  datatype Pos = Pos(x: int, y: int)

  /**
   * The game's two-argument position constructor: it is called with a row
   * and a column and stores the column in `x` and the row in `y`.
   */
  function Position(row: int, col: int): Pos
  {
    Pos(col, row)
  }

  /**
   * The two numbers the C library's `rand()` hands to `createFood`: the
   * first picks the column, the second the row.
   */
  datatype Draw = Draw(col: nat, row: nat)

  /** The grid, row by row; `g[row][col]` is one cell. */
  type Grid = seq<seq<Cell>>

  /** `g` has `rows` rows of `cols` cells each. */
  predicate IsGrid(g: Grid, rows: int, cols: int)
  {
    |g| == rows && forall r :: 0 <= r < |g| ==> |g[r]| == cols
  }

  /** (row, col) names a cell of `g`. */
  predicate InGrid(g: Grid, row: int, col: int)
  {
    0 <= row < |g| && 0 <= col < |g[row]|
  }

  /** Overwrites one cell; the shape and every other cell stay as they were. */
  function Write(g: Grid, row: int, col: int, v: Cell): (h: Grid)
    requires InGrid(g, row, col)
    ensures |h| == |g| && forall r :: 0 <= r < |g| ==> |h[r]| == |g[r]|
    ensures h[row][col] == v
    ensures forall r, c :: InGrid(g, r, c) && (r != row || c != col) ==> h[r][c] == g[r][c]
  {
    g[row := g[row][col := v]]
  }

  /** Row 0, row rows-1, column 0 and column cols-1 form the border ring. */
  predicate OnBorder(rows: int, cols: int, row: int, col: int)
  {
    row == 0 || row == rows - 1 || col == 0 || col == cols - 1
  }

  /** `p` lies strictly inside the border ring. */
  predicate Interior(rows: int, cols: int, p: Pos)
  {
    1 <= p.y <= rows - 2 && 1 <= p.x <= cols - 2
  }

  /** Every border cell is a wall. */
  predicate Walled(g: Grid, rows: int, cols: int)
    requires IsGrid(g, rows, cols)
  {
    forall r, c :: 0 <= r < rows && 0 <= c < cols && OnBorder(rows, cols, r, c) ==> g[r][c] == Wall
  }

  /** No cell of `g` holds food except, possibly, the cell (row, col). */
  ghost predicate FoodOnlyAt(g: Grid, row: int, col: int)
  {
    forall r, c :: InGrid(g, r, c) && g[r][c] == Food ==> r == row && c == col
  }

  /** The grid a new map starts from: walls on the border ring, empty cells inside. */
  function InitialGrid(rows: nat, cols: nat): Grid
  {
    seq(rows, r => seq(cols, c => if OnBorder(rows, cols, r, c) then Wall else Empty))
  }

  /**
   * Where a stored food position may lie. Because the food is stored through
   * `Position(x, y)` with the column passed as the row, the stored `x` holds
   * the ROW of the food cell and the stored `y` its COLUMN; both keep a
   * distance of at least two from the border.
   */
  predicate FoodSpot(rows: int, cols: int, f: Pos)
  {
    2 <= f.x <= rows - 3 && 2 <= f.y <= cols - 3
  }

  /** The food position `createFood` stores for the draws `d`. */
  function FoodPos(rows: int, cols: int, d: Draw): (f: Pos)
    requires rows > 4 && cols > 4
    ensures FoodSpot(rows, cols, f)
  {
    var x := d.col % (cols - 4) + 2;
    var y := d.row % (rows - 4) + 2;
    Position(x, y)
  }

  /**
   * Food placed with `FoodPos` on a grid holding no food leaves exactly one
   * food cell, and that cell is off the border.
   */
  lemma CreateFoodExactlyOne(g: Grid, rows: int, cols: int, d: Draw)
    requires IsGrid(g, rows, cols) && rows > 4 && cols > 4
    requires forall r, c :: InGrid(g, r, c) ==> g[r][c] != Food
    ensures var f := FoodPos(rows, cols, d);
      InGrid(g, f.x, f.y) && !OnBorder(rows, cols, f.x, f.y)
      && Write(g, f.x, f.y, Food)[f.x][f.y] == Food
      && FoodOnlyAt(Write(g, f.x, f.y, Food), f.x, f.y)
  {
    var f := FoodPos(rows, cols, d);
    var h := Write(g, f.x, f.y, Food);
    forall r, c | InGrid(h, r, c) && h[r][c] == Food
      ensures r == f.x && c == f.y
    {
    }
  }

  lemma InitialGridShape(rows: nat, cols: nat)
    ensures IsGrid(InitialGrid(rows, cols), rows, cols)
    ensures Walled(InitialGrid(rows, cols), rows, cols)
    ensures forall r, c :: 0 <= r < rows && 0 <= c < cols && !OnBorder(rows, cols, r, c) ==>
              InitialGrid(rows, cols)[r][c] == Empty
    ensures forall r, c :: InGrid(InitialGrid(rows, cols), r, c) ==> InitialGrid(rows, cols)[r][c] != Food
  {
  }

  /** The map: a rows × cols grid of cells and the position of the current food. */
  class Map {
    var grid: Grid
    var rows: int
    var cols: int
    var food: Pos

    ghost predicate Valid()
      reads this
    {
      rows >= 2 && cols >= 2 && IsGrid(grid, rows, cols)
    }

    /** Builds the top wall, `rows - 2` rows of wall, empty cells and wall, and the bottom wall. */
    constructor (rows: int, cols: int)
      requires rows >= 2 && cols >= 2
      ensures Valid() && this.rows == rows && this.cols == cols
      ensures grid == InitialGrid(rows, cols)
      ensures food == Pos(3, 3)
    {
      var cells: Grid := [];
      // top wall
      var vec1: seq<Cell> := [];
      for j := 0 to cols
        invariant |vec1| == j && forall k :: 0 <= k < j ==> vec1[k] == Wall
      {
        vec1 := vec1 + [Wall];
      }
      cells := cells + [vec1];
      ghost var top := vec1;
      // left and right walls
      vec1 := [Wall];
      for j := 1 to cols - 1
        invariant |vec1| == j && vec1[0] == Wall && forall k :: 1 <= k < j ==> vec1[k] == Empty
      {
        vec1 := vec1 + [Empty];
      }
      vec1 := vec1 + [Wall];
      for i := 1 to rows - 1
        invariant |cells| == i && cells[0] == top
        invariant forall k :: 1 <= k < i ==> cells[k] == vec1
      {
        cells := cells + [vec1];
      }
      // bottom wall
      ghost var middle := vec1;
      vec1 := [];
      for j := 0 to cols
        invariant |vec1| == j && forall k :: 0 <= k < j ==> vec1[k] == Wall
      {
        vec1 := vec1 + [Wall];
      }
      cells := cells + [vec1];
      forall r | 0 <= r < rows
        ensures cells[r] == InitialGrid(rows, cols)[r]
      {
        if r == 0 {
          assert cells[r] == top;
        } else if r == rows - 1 {
          assert cells[r] == vec1;
        } else {
          assert cells[r] == middle;
        }
      }
      this.rows := rows;
      this.cols := cols;
      food := Pos(3, 3);
      grid := cells;
    }

    /** Writes one cell; there is no bounds check, so the cell must exist. */
    method SetMapPointTo(row: int, col: int, v: Cell)
      requires Valid() && InGrid(grid, row, col)
      modifies this`grid
      ensures Valid() && grid == Write(old(grid), row, col, v)
    {
      grid := grid[row := grid[row][col := v]];
    }

    /**
     * Puts food on the cell picked by the draws `d`, at least two cells away
     * from the border, and stores its position.
     */
    method CreateFood(d: Draw)
      requires Valid() && rows > 4 && cols > 4
      modifies this`grid, this`food
      ensures Valid() && food == FoodPos(rows, cols, d)
      ensures grid == Write(old(grid), food.x, food.y, Food)
    {
      var x := d.col % (cols - 4) + 2;
      var y := d.row % (rows - 4) + 2;
      food := Position(x, y);
      grid := grid[y := grid[y][x := Food]];
    }

    /**
     * Overwrites the stored food cell with `Snake`, indexing the grid by the
     * stored `x` as the row and the stored `y` as the column.
     */
    method DeleteFood()
      requires Valid() && InGrid(grid, food.x, food.y)
      modifies this`grid
      ensures Valid() && grid == Write(old(grid), food.x, food.y, Snake)
    {
      grid := grid[food.x := grid[food.x][food.y := Snake]];
    }
  }
}
