/**
 * The rules of one game tick, on values: what `willCollide`, `eatFood`,
 * `move` and `moveSnake` do to the map and the snakes, and the facts the
 * game keeps from tick to tick. The Game object in module TwoSnakes is
 * proved to follow these functions.
 */
module Rules {
  import opened Board
  import opened Snakes

  const StartPower := 200
  const HitPower := 25
  const HitScore := 150
  const FoodScore := 100

  /** What resolving one snake leaves: the grid, the stored food, the snake, and whether it collided. */
  datatype Outcome = Outcome(grid: Grid, food: Pos, player: Player, hit: bool)

  /** Everything a game holds apart from its clock. */
  datatype World = World(grid: Grid, rows: int, cols: int, food: Pos,
                         p1: Player, p2: Player, power: int, power2: int, over: bool)

  /** Names one of the two snakes. */
  datatype Which = One | Two

  /** The end-of-game verdict. */
  datatype Verdict = PlayerOneWins | PlayerTwoWins | NobodyWins

  /** The facts about the map and one snake that resolving that snake relies on. */
  ghost predicate Fits(grid: Grid, rows: int, cols: int, food: Pos, p: Player)
  {
    rows > 4 && cols > 4 && IsGrid(grid, rows, cols) && Walled(grid, rows, cols)
    && FoodSpot(rows, cols, food) && FoodOnlyAt(grid, food.x, food.y)
    && |p.body| >= 1 && AllInterior(rows, cols, p.body)
  }

  /** A cell that is neither empty nor food stops a snake. */
  predicate Blocks(c: Cell)
  {
    c != Empty && c != Food
  }

  /** The cell one step ahead of the snake's head. */
  function NextCell(grid: Grid, rows: int, cols: int, p: Player): Cell
    requires IsGrid(grid, rows, cols) && |p.body| >= 1 && Interior(rows, cols, p.body[0])
  {
    var a := Ahead(p.body[0], p.dir);
    grid[a.y][a.x]
  }

  /**
   * eatFood: the snake grows by a head one step ahead and gains 100 points,
   * the stored food cell is overwritten with `Snake`, and new food is placed.
   */
  function Feed(grid: Grid, rows: int, cols: int, food: Pos, p: Player, d: Draw): Outcome
    requires rows > 4 && cols > 4 && IsGrid(grid, rows, cols) && FoodSpot(rows, cols, food)
    requires |p.body| >= 1
  {
    var grown := p.(body := [Ahead(p.body[0], p.dir)] + p.body, score := p.score + FoodScore);
    var g1 := Write(grid, food.x, food.y, Snake);
    var f := FoodPos(rows, cols, d);
    Outcome(Write(g1, f.x, f.y, Food), f, grown, false)
  }

  /**
   * willCollide: a collision when the cell ahead blocks; when it holds food
   * the snake eats it and no collision is reported.
   */
  function Look(grid: Grid, rows: int, cols: int, food: Pos, p: Player, d: Draw): Outcome
    requires Fits(grid, rows, cols, food, p)
  {
    var c := NextCell(grid, rows, cols, p);
    if Blocks(c) then Outcome(grid, food, p, true)
    else if c == Food then Feed(grid, rows, cols, food, p, d)
    else Outcome(grid, food, p, false)
  }

  /**
   * willCollide reports a collision exactly when the cell ahead is neither
   * empty nor food, and then changes neither the map nor the snake; on an
   * empty cell it changes nothing either.
   */
  lemma LookCollides(grid: Grid, rows: int, cols: int, food: Pos, p: Player, d: Draw)
    requires Fits(grid, rows, cols, food, p)
    ensures var o := Look(grid, rows, cols, food, p, d); var c := NextCell(grid, rows, cols, p);
      (o.hit <==> c != Empty && c != Food)
      && (c != Food ==> o.grid == grid && o.food == food && o.player == p)
  {
  }

  /** move: a step forward, dropping the tail segment, with the map repainted. */
  function Step(grid: Grid, food: Pos, p: Player): Outcome
    requires |p.body| >= 1 && AllPlaced(grid, p.body) && Placed(grid, Ahead(p.body[0], p.dir))
  {
    var b := Moved(p.body, p.dir);
    assert AllPlaced(grid, b) by {
      forall i | 0 <= i < |b| ensures Placed(grid, b[i]) {
        if i > 0 { assert b[i] == p.body[i - 1]; }
      }
    }
    Outcome(Repaint(grid, p.body[|p.body| - 1], b, p.head, p.tail), food, p.(body := b), false)
  }

  /** Facts about `Look` that the following step needs. */
  lemma LookKeeps(grid: Grid, rows: int, cols: int, food: Pos, p: Player, d: Draw)
    requires Fits(grid, rows, cols, food, p)
    ensures var o := Look(grid, rows, cols, food, p, d);
      Fits(o.grid, rows, cols, o.food, o.player)
      && o.player.head == p.head && o.player.tail == p.tail && o.player.dir == p.dir
      && (!o.hit ==> Interior(rows, cols, Ahead(o.player.body[0], o.player.dir)))
  {
    var a := Ahead(p.body[0], p.dir);
    var c := NextCell(grid, rows, cols, p);
    var o := Look(grid, rows, cols, food, p, d);
    if c == Food {
      FoodAheadIsStored(grid, rows, cols, food, p);
      FeedPlacesOneFood(grid, rows, cols, food, p, d);
      var g1 := Write(grid, food.x, food.y, Snake);
      assert Walled(o.grid, rows, cols) by {
        forall r, c | 0 <= r < rows && 0 <= c < cols && OnBorder(rows, cols, r, c)
          ensures o.grid[r][c] == Wall
        {
          assert g1[r][c] == grid[r][c];
        }
      }
      assert AllInterior(rows, cols, o.player.body) by {
        forall i | 0 <= i < |o.player.body| ensures Interior(rows, cols, o.player.body[i]) {
          if i > 0 { assert o.player.body[i] == p.body[i - 1]; }
        }
      }
    } else if c == Empty {
      assert !OnBorder(rows, cols, a.y, a.x);
    }
  }

  /** Facts about `Step` that the rest of the game needs. */
  lemma StepKeeps(grid: Grid, rows: int, cols: int, food: Pos, p: Player)
    requires Fits(grid, rows, cols, food, p) && Interior(rows, cols, Ahead(p.body[0], p.dir))
    requires p.head != Food && p.tail != Food
    ensures AllPlaced(grid, p.body)
    ensures var o := Step(grid, food, p);
      Fits(o.grid, rows, cols, o.food, o.player)
      && o.player.head == p.head && o.player.tail == p.tail && o.player.dir == p.dir
  {
    var b := Moved(p.body, p.dir);
    assert AllInterior(rows, cols, b) by {
      forall i | 0 <= i < |b| ensures Interior(rows, cols, b[i]) {
        if i > 0 { assert b[i] == p.body[i - 1]; }
      }
    }
    RepaintKeeps(grid, rows, cols, p.body[|p.body| - 1], b, p.head, p.tail, food.x, food.y);
  }

  /** One snake's part of moveSnake: willCollide, then move when no collision was reported. */
  function Resolve(grid: Grid, rows: int, cols: int, food: Pos, p: Player, d: Draw): Outcome
    requires Fits(grid, rows, cols, food, p)
  {
    var o := Look(grid, rows, cols, food, p, d);
    LookKeeps(grid, rows, cols, food, p, d);
    if o.hit then o else Step(o.grid, o.food, o.player)
  }

  /** Resolve in two stages: Look, and then, when it reports no collision, Step on what Look left. */
  lemma ResolveStages(grid: Grid, rows: int, cols: int, food: Pos, p: Player, d: Draw)
    requires Fits(grid, rows, cols, food, p)
    ensures var o := Look(grid, rows, cols, food, p, d);
      |o.player.body| >= 1 && AllPlaced(o.grid, o.player.body)
      && o.player.head == p.head && o.player.tail == p.tail
      && (o.hit ==> Resolve(grid, rows, cols, food, p, d) == o)
      && (!o.hit ==> Placed(o.grid, Ahead(o.player.body[0], o.player.dir))
                     && Resolve(grid, rows, cols, food, p, d) == Step(o.grid, o.food, o.player))
  {
    LookKeeps(grid, rows, cols, food, p, d);
  }

  /** When the cell ahead holds food, that cell is the stored food cell. */
  lemma FoodAheadIsStored(grid: Grid, rows: int, cols: int, food: Pos, p: Player)
    requires Fits(grid, rows, cols, food, p) && NextCell(grid, rows, cols, p) == Food
    ensures Ahead(p.body[0], p.dir) == Pos(food.y, food.x)
  {
    var a := Ahead(p.body[0], p.dir);
    assert InGrid(grid, a.y, a.x);
  }

  /**
   * Eating overwrites the old food cell with `Snake` and then puts food on
   * exactly one cell, the new stored one; the old food cell shows `Snake`
   * unless the new food landed on it again.
   */
  lemma FeedPlacesOneFood(grid: Grid, rows: int, cols: int, food: Pos, p: Player, d: Draw)
    requires rows > 4 && cols > 4 && IsGrid(grid, rows, cols) && FoodSpot(rows, cols, food)
    requires FoodOnlyAt(grid, food.x, food.y) && |p.body| >= 1
    ensures var o := Feed(grid, rows, cols, food, p, d);
      IsGrid(o.grid, rows, cols) && FoodSpot(rows, cols, o.food)
      && o.grid[o.food.x][o.food.y] == Food && FoodOnlyAt(o.grid, o.food.x, o.food.y)
      && o.grid[food.x][food.y] == (if o.food == food then Food else Snake)
      && o.player.score == p.score + FoodScore && |o.player.body| == |p.body| + 1
      && o.player.body[1..] == p.body
  {
    var g1 := Write(grid, food.x, food.y, Snake);
    var o := Feed(grid, rows, cols, food, p, d);
    forall r, c | InGrid(o.grid, r, c) && o.grid[r][c] == Food
      ensures r == o.food.x && c == o.food.y
    {
    }
  }

  /** moveSnake's score penalty: a positive score loses 150, clamped at 0. */
  function Penalized(score: int): (r: int)
    ensures score >= 0 ==> r >= 0 && r == if score >= HitScore then score - HitScore else 0
    ensures score < 0 ==> r == score
  {
    if score > 0 then
      (if score - HitScore < 0 then 0 else score - HitScore)
    else score
  }

  function PlayerOf(w: World, who: Which): Player
  {
    if who == One then w.p1 else w.p2
  }

  function PowerOf(w: World, who: Which): int
  {
    if who == One then w.power else w.power2
  }

  /** What a running game keeps true from tick to tick. */
  ghost predicate Sound(w: World)
  {
    w.rows > 4 && w.cols > 4 && IsGrid(w.grid, w.rows, w.cols) && Walled(w.grid, w.rows, w.cols)
    && FoodSpot(w.rows, w.cols, w.food) && FoodOnlyAt(w.grid, w.food.x, w.food.y)
    && |w.p1.body| >= 1 && |w.p2.body| >= 1
    && w.p1.head == Snake && w.p1.tail == SnakeTail
    && w.p2.head == Snake2 && w.p2.tail == Snake2Tail
    && w.p1.score >= 0 && w.p2.score >= 0
    && (w.over <==> (w.power <= 0 || w.power2 <= 0))
  }

  /**
   * Every segment of both snakes lies inside the walls. Only the debug grow
   * key can break this; a tick needs it for its map accesses to exist.
   */
  ghost predicate Inside(w: World)
  {
    AllInterior(w.rows, w.cols, w.p1.body) && AllInterior(w.rows, w.cols, w.p2.body)
  }

  /** In a sound game each snake, with the map, meets what resolving it needs. */
  lemma SoundFits(w: World, who: Which)
    requires Sound(w) && Inside(w)
    ensures Fits(w.grid, w.rows, w.cols, w.food, PlayerOf(w, who))
    ensures PlayerOf(w, who).head != Food && PlayerOf(w, who).tail != Food
  {
  }

  /** The world with one snake's resolution put in: the map, the stored food and that snake. */
  function Place(w: World, who: Which, o: Outcome): World
  {
    if who == One then w.(grid := o.grid, food := o.food, p1 := o.player)
    else w.(grid := o.grid, food := o.food, p2 := o.player)
  }

  /**
   * moveSnake's collision branch for one snake: its power drops by 25, its
   * score is penalised, and the game is over once that power is at most 0.
   */
  function Punish(w: World, who: Which): World
  {
    var pw := PowerOf(w, who) - HitPower;
    var q := PlayerOf(w, who).(score := Penalized(PlayerOf(w, who).score));
    var over := w.over || pw <= 0;
    if who == One then w.(p1 := q, power := pw, over := over)
    else w.(p2 := q, power2 := pw, over := over)
  }

  /**
   * One snake's half of moveSnake: resolve it, and on a collision apply
   * the penalty.
   */
  function Turn(w: World, who: Which, d: Draw): World
    requires Sound(w) && Inside(w)
  {
    var o := Resolve(w.grid, w.rows, w.cols, w.food, PlayerOf(w, who), d);
    var v := Place(w, who, o);
    if o.hit then Punish(v, who) else v
  }

  /** A half tick keeps the game sound and both snakes inside the walls. */
  lemma TurnSound(w: World, who: Which, d: Draw)
    requires Sound(w) && Inside(w)
    ensures var t := Turn(w, who, d);
      Sound(t) && Inside(t) && t.rows == w.rows && t.cols == w.cols
  {
    var p := PlayerOf(w, who);
    var o := Look(w.grid, w.rows, w.cols, w.food, p, d);
    LookKeeps(w.grid, w.rows, w.cols, w.food, p, d);
    if !o.hit {
      StepKeeps(o.grid, w.rows, w.cols, o.food, o.player);
    }
  }

  /** moveSnake: snake 1 is resolved completely, then snake 2 on the map snake 1 left. */
  function Tick(w: World, d1: Draw, d2: Draw): World
    requires Sound(w) && Inside(w)
  {
    var w1 := Turn(w, One, d1);
    TurnSound(w, One, d1);
    Turn(w1, Two, d2)
  }

  function Other(who: Which): Which
  {
    if who == One then Two else One
  }

  /**
   * A collision: the snake and the map stay as they were, the snake's power
   * drops by exactly 25, its score is penalised, the other snake is not
   * touched, and the game is over exactly when it was already or that power
   * is now at most 0.
   */
  lemma TurnCollision(w: World, who: Which, d: Draw)
    requires Sound(w) && Inside(w)
    requires Blocks(NextCell(w.grid, w.rows, w.cols, PlayerOf(w, who)))
    ensures var t := Turn(w, who, d);
      t.grid == w.grid && t.food == w.food
      && PlayerOf(t, who) == PlayerOf(w, who).(score := Penalized(PlayerOf(w, who).score))
      && PowerOf(t, who) == PowerOf(w, who) - HitPower
      && PlayerOf(t, Other(who)) == PlayerOf(w, Other(who))
      && PowerOf(t, Other(who)) == PowerOf(w, Other(who))
      && (t.over <==> w.over || PowerOf(t, who) <= 0)
  {
  }

  /**
   * A step onto an empty cell: the snake moves (same length, one step on),
   * its score and power stay, the stored food stays, and the map is repainted.
   */
  lemma TurnMove(w: World, who: Which, d: Draw)
    requires Sound(w) && Inside(w)
    requires NextCell(w.grid, w.rows, w.cols, PlayerOf(w, who)) == Empty
    ensures var t := Turn(w, who, d); var p := PlayerOf(w, who);
      PlayerOf(t, who) == p.(body := Moved(p.body, p.dir))
      && |PlayerOf(t, who).body| == |p.body|
      && PowerOf(t, who) == PowerOf(w, who) && t.over == w.over && t.food == w.food
      && PlayerOf(t, Other(who)) == PlayerOf(w, Other(who))
    ensures var t := Turn(w, who, d); var p := PlayerOf(w, who); var b := Moved(p.body, p.dir);
      Placed(w.grid, p.body[|p.body| - 1]) && AllPlaced(w.grid, b)
      && t.grid == Repaint(w.grid, p.body[|p.body| - 1], b, p.head, p.tail)
  {
    var p := PlayerOf(w, who);
    SoundFits(w, who);
    StepKeeps(w.grid, w.rows, w.cols, w.food, p);
  }

  /**
   * Eating, for one snake: it grows onto the food cell and then also moves,
   * so its head ends two cells ahead, its length grows by exactly one and
   * its score by exactly 100, and new food is stored.
   */
  lemma ResolveEat(grid: Grid, rows: int, cols: int, food: Pos, p: Player, d: Draw)
    requires Fits(grid, rows, cols, food, p) && p.head != Food && p.tail != Food
    requires NextCell(grid, rows, cols, p) == Food
    ensures var o := Resolve(grid, rows, cols, food, p, d); var a := Ahead(p.body[0], p.dir);
      !o.hit && a == Pos(food.y, food.x)
      && o.player == p.(body := [Ahead(a, p.dir), a] + p.body[..|p.body| - 1], score := p.score + FoodScore)
      && o.food == FoodPos(rows, cols, d) && IsGrid(o.grid, rows, cols)
  {
    FoodAheadIsStored(grid, rows, cols, food, p);
    var e := Look(grid, rows, cols, food, p, d);
    LookKeeps(grid, rows, cols, food, p, d);
    FeedPlacesOneFood(grid, rows, cols, food, p, d);
    StepKeeps(e.grid, rows, cols, e.food, e.player);
  }

  /**
   * After eating, the new food cell shows food exactly when neither the
   * moved snake nor its emptied tail cell lies on it: new food drawn under
   * the snake is painted over.
   */
  lemma EatenFoodCell(grid: Grid, rows: int, cols: int, food: Pos, p: Player, d: Draw)
    requires Fits(grid, rows, cols, food, p) && p.head != Food && p.tail != Food
    requires NextCell(grid, rows, cols, p) == Food
    ensures var o := Resolve(grid, rows, cols, food, p, d);
      InGrid(o.grid, o.food.x, o.food.y) && InGrid(o.grid, food.x, food.y)
      && o.grid[food.x][food.y] == p.tail
      && (o.grid[o.food.x][o.food.y] == Food <==>
            Pos(o.food.y, o.food.x) !in o.player.body && Pos(o.food.y, o.food.x) != p.body[|p.body| - 1])
  {
    var e := Look(grid, rows, cols, food, p, d);
    LookKeeps(grid, rows, cols, food, p, d);
    FeedPlacesOneFood(grid, rows, cols, food, p, d);
    StepKeeps(e.grid, rows, cols, e.food, e.player);
    var b := Moved(e.player.body, e.player.dir);
    var last := e.player.body[|e.player.body| - 1];
    assert last == p.body[|p.body| - 1];
    var f := e.food;
    assert InGrid(e.grid, f.x, f.y);
    RepaintAt(e.grid, last, b, p.head, p.tail, f.x, f.y);
    FoodAheadIsStored(grid, rows, cols, food, p);
    assert InGrid(e.grid, food.x, food.y);
    RepaintAt(e.grid, last, b, p.head, p.tail, food.x, food.y);
    assert b[1..][0] == Pos(food.y, food.x);
    assert Pos(f.y, f.x) in b[1..] ==> Pos(f.y, f.x) in b;
    assert Pos(f.y, f.x) in b ==> Pos(f.y, f.x) in b[1..] || Pos(f.y, f.x) == b[0] by {
      if Pos(f.y, f.x) in b && Pos(f.y, f.x) != b[0] {
        var i :| 0 <= i < |b| && b[i] == Pos(f.y, f.x);
        assert b[1..][i - 1] == b[i];
      }
    }
  }

  /** Eating, in the game: on top of ResolveEat, power and the game-over flag stay. */
  lemma TurnEat(w: World, who: Which, d: Draw)
    requires Sound(w) && Inside(w)
    requires NextCell(w.grid, w.rows, w.cols, PlayerOf(w, who)) == Food
    ensures var t := Turn(w, who, d); var p := PlayerOf(w, who); var q := PlayerOf(t, who);
      var a := Ahead(p.body[0], p.dir);
      q == p.(body := [Ahead(a, p.dir), a] + p.body[..|p.body| - 1], score := p.score + FoodScore)
      && |q.body| == |p.body| + 1
      && PowerOf(t, who) == PowerOf(w, who) && t.over == w.over
      && t.food == FoodPos(w.rows, w.cols, d)
      && PlayerOf(t, Other(who)) == PlayerOf(w, Other(who))
  {
    ResolveEat(w.grid, w.rows, w.cols, w.food, PlayerOf(w, who), d);
  }

  /** A whole tick keeps the game sound; power only falls, by 0 or 25 per snake; a game once over stays over. */
  lemma TickKeeps(w: World, d1: Draw, d2: Draw)
    requires Sound(w) && Inside(w)
    ensures var t := Tick(w, d1, d2);
      Sound(t) && Inside(t) && t.rows == w.rows && t.cols == w.cols
      && (w.over ==> t.over)
      && (t.power == w.power || t.power == w.power - HitPower)
      && (t.power2 == w.power2 || t.power2 == w.power2 - HitPower)
  {
    TurnSound(w, One, d1);
    TurnSound(Turn(w, One, d1), Two, d2);
  }

  /** A run of ticks, one pair of draws per tick. */
  function Run(w: World, draws: seq<(Draw, Draw)>): World
    requires Sound(w) && Inside(w)
    decreases |draws|
  {
    if draws == [] then w
    else
      TickKeeps(w, draws[0].0, draws[0].1);
      Run(Tick(w, draws[0].0, draws[0].1), draws[1..])
  }

  /**
   * Over any number of ticks the border stays walled, scores stay
   * non-negative, every segment stays inside, power never rises, and a game
   * once over stays over.
   */
  lemma {:induction false} RunKeeps(w: World, draws: seq<(Draw, Draw)>)
    requires Sound(w) && Inside(w)
    ensures var t := Run(w, draws);
      Sound(t) && Inside(t) && t.rows == w.rows && t.cols == w.cols
      && Walled(t.grid, w.rows, w.cols) && t.p1.score >= 0 && t.p2.score >= 0
      && (w.over ==> t.over) && t.power <= w.power && t.power2 <= w.power2
    decreases |draws|
  {
    if draws != [] {
      var t1 := Tick(w, draws[0].0, draws[0].1);
      TickKeeps(w, draws[0].0, draws[0].1);
      RunKeeps(t1, draws[1..]);
      assert Run(w, draws) == Run(t1, draws[1..]);
    }
  }

  /**
   * A new game: a walled map with one food cell, snake 1 at row 6, column 6
   * heading right, snake 2 at row 6, column cols-6 heading left, both with
   * score 0 and power 200.
   */
  function NewGame(rows: int, cols: int, d: Draw): World
    requires rows >= 8 && cols >= 8
  {
    var f := FoodPos(rows, cols, d);
    InitialGridShape(rows, cols);
    World(Write(InitialGrid(rows, cols), f.x, f.y, Food), rows, cols, f,
          Player([Position(6, 6)], Right, 0, Snake, SnakeTail),
          Player([Position(6, cols - 6)], Left, 0, Snake2, Snake2Tail),
          StartPower, StartPower, false)
  }

  /**
   * A new game is sound, both snakes start inside the walls, and exactly one
   * cell holds food. The snakes' start cells are not painted: each holds
   * nothing, or the first food.
   */
  lemma NewGameSound(rows: int, cols: int, d: Draw)
    requires rows >= 8 && cols >= 8
    ensures var w := NewGame(rows, cols, d);
      Sound(w) && Inside(w) && !w.over
      && w.grid[w.food.x][w.food.y] == Food && FoodOnlyAt(w.grid, w.food.x, w.food.y)
    ensures var w := NewGame(rows, cols, d);
      w.grid[6][6] in {Empty, Food} && w.grid[6][cols - 6] in {Empty, Food}
  {
    InitialGridShape(rows, cols);
    CreateFoodExactlyOne(InitialGrid(rows, cols), rows, cols, d);
  }

  /**
   * A start on a 10 × 10 map: snake 1 at row 3, column 3 heading right, the
   * food right of it at row 3, column 4, and snake 2 at row 3, column 5.
   */
  function CrossingStart(): World
  {
    InitialGridShape(10, 10);
    var g := Write(Write(Write(InitialGrid(10, 10), 3, 4, Food), 3, 3, Snake), 3, 5, Snake2);
    World(g, 10, 10, Pos(3, 4),
          Player([Position(3, 3)], Right, 0, Snake, SnakeTail),
          Player([Position(3, 5)], Left, 0, Snake2, Snake2Tail),
          StartPower, StartPower, false)
  }

  /**
   * The step after eating is not checked: from CrossingStart snake 1 eats
   * and then moves onto snake 2's head, with no collision reported and no
   * power lost.
   */
  lemma EatRunsOver()
    ensures Sound(CrossingStart()) && Inside(CrossingStart())
    ensures var w := CrossingStart(); var t := Turn(w, One, Draw(0, 0));
      t.p1.body[0] == t.p2.body[0] == Position(3, 5) && t.power == w.power && !t.over
  {
    var w := CrossingStart();
    InitialGridShape(10, 10);
    assert FoodOnlyAt(w.grid, 3, 4) by {
      var g1 := Write(InitialGrid(10, 10), 3, 4, Food);
      var g2 := Write(g1, 3, 3, Snake);
      forall r, c | InGrid(w.grid, r, c) && w.grid[r][c] == Food ensures r == 3 && c == 4 {
        assert g2[r][c] == Food;
        assert g1[r][c] == Food;
      }
    }
    assert NextCell(w.grid, w.rows, w.cols, w.p1) == Food;
    TurnEat(w, One, Draw(0, 0));
  }

  /**
   * processKeyboardInput: a, d, w, s steer snake 1 left, right, up, down;
   * h, k, u, j steer snake 2; b grows snake 1; any other key changes nothing.
   */
  function KeyPress(w: World, c: char): (r: World)
    requires |w.p1.body| >= 1
    ensures r.grid == w.grid && r.food == w.food && r.rows == w.rows && r.cols == w.cols
    ensures r.power == w.power && r.power2 == w.power2 && r.over == w.over
    ensures r.p1.score == w.p1.score && r.p2.score == w.p2.score
    ensures r.p1.head == w.p1.head && r.p1.tail == w.p1.tail
    ensures r.p2 == w.p2.(dir := r.p2.dir)
    ensures c != 'b' ==> r.p1 == w.p1.(dir := r.p1.dir)
    ensures c == 'b' ==> r.p1 == w.p1.(body := [Ahead(w.p1.body[0], w.p1.dir)] + w.p1.body)
    ensures c !in "adwshkujb" ==> r == w
  {
    if c == 'a' then w.(p1 := w.p1.(dir := Left))
    else if c == 'd' then w.(p1 := w.p1.(dir := Right))
    else if c == 'w' then w.(p1 := w.p1.(dir := Up))
    else if c == 's' then w.(p1 := w.p1.(dir := Down))
    else if c == 'h' then w.(p2 := w.p2.(dir := Left))
    else if c == 'k' then w.(p2 := w.p2.(dir := Right))
    else if c == 'u' then w.(p2 := w.p2.(dir := Up))
    else if c == 'j' then w.(p2 := w.p2.(dir := Down))
    else if c == 'b' then w.(p1 := w.p1.(body := [Ahead(w.p1.body[0], w.p1.dir)] + w.p1.body))
    else w
  }

  /** A key press keeps the game sound; a key other than b also keeps both snakes inside. */
  lemma KeyPressKeeps(w: World, c: char)
    requires Sound(w)
    ensures Sound(KeyPress(w, c))
    ensures c != 'b' && Inside(w) ==> Inside(KeyPress(w, c))
    ensures c == 'b' && Inside(w) && Interior(w.rows, w.cols, Ahead(w.p1.body[0], w.p1.dir)) ==>
      Inside(KeyPress(w, c))
  {
    if c == 'b' && Inside(w) && Interior(w.rows, w.cols, Ahead(w.p1.body[0], w.p1.dir)) {
      var b := KeyPress(w, c).p1.body;
      forall i | 0 <= i < |b| ensures Interior(w.rows, w.cols, b[i]) {
        if i > 0 { assert b[i] == w.p1.body[i - 1]; }
      }
    }
  }

  /** The end screen: the higher score wins, equal scores mean nobody wins. */
  function Winner(score1: int, score2: int): (v: Verdict)
    ensures v == PlayerOneWins <==> score1 > score2
    ensures v == PlayerTwoWins <==> score1 < score2
    ensures v == NobodyWins <==> score1 == score2
  {
    if score1 > score2 then PlayerOneWins
    else if score1 < score2 then PlayerTwoWins
    else NobodyWins
  }

  /** Swapping the two scores swaps the winner. */
  lemma WinnerSwap(score1: int, score2: int)
    ensures Winner(score2, score1) ==
      match Winner(score1, score2)
      case PlayerOneWins => PlayerTwoWins
      case PlayerTwoWins => PlayerOneWins
      case NobodyWins => NobodyWins
  {
  }
}
