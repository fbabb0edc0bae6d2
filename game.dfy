/**
 * The Game object: the map, the two snakes, their power and the game-over
 * flag. Each method is proved to change the game exactly as the matching
 * function of module Rules says, so the facts proved there about ticks,
 * key presses and the verdict hold of the object.
 */
module TwoSnakes {
  import opened Board
  import opened Snakes
  import opened Rules

  class Game {
    var board: Map
    var snake1: Snake
    var snake2: Snake
    var power: int
    var power2: int
    var isOver: bool

    /** The game as a value. */
    ghost function State(): World
      reads this, board, snake1, snake2
    {
      World(board.grid, board.rows, board.cols, board.food,
            snake1.Model(), snake2.Model(), power, power2, isOver)
    }

    ghost predicate Valid()
      reads this, board, snake1, snake2
    {
      snake1 != snake2 && board.Valid() && Sound(State())
    }

    /**
     * A new game on a rows × cols map: both snakes placed, power 200 each,
     * and the first food drawn with `d`.
     */
    constructor (rows: int, cols: int, d: Draw)
      requires rows >= 8 && cols >= 8
      ensures Valid() && Inside(State()) && State() == NewGame(rows, cols, d)
      ensures fresh(board) && fresh(snake1) && fresh(snake2)
    {
      board := new Map(rows, cols);
      power := StartPower;
      power2 := StartPower;
      snake1 := new Snake(6, 6, Right, Cell.Snake, SnakeTail);
      snake2 := new Snake(6, cols - 6, Left, Snake2, Snake2Tail);
      isOver := false;
      new;
      board.CreateFood(d);
      NewGameSound(rows, cols, d);
    }

    /** The main loop's test: the game goes on while both powers are positive. */
    method NotOver() returns (b: bool)
      requires Valid()
      ensures b <==> power > 0 && power2 > 0
    {
      b := !isOver;
    }

    /**
     * willCollide: reports whether the cell ahead of `s` blocks it; when
     * that cell holds food, `s` eats it first.
     */
    method WillCollide(s: Snake, d: Draw) returns (hit: bool)
      requires board.Valid() && Fits(board.grid, board.rows, board.cols, board.food, s.Model())
      modifies s`body, s`score, board`grid, board`food
      ensures board.Valid()
      ensures Outcome(board.grid, board.food, s.Model(), hit)
           == Look(old(board.grid), board.rows, board.cols, old(board.food), old(s.Model()), d)
    {
      var next := Ahead(s.body[0], s.direction);
      var c := board.grid[next.y][next.x];
      if c != Empty && c != Food {
        return true;
      }
      if c == Food {
        EatFood(s, d);
        return false;
      }
      return false;
    }

    /** eatFood: grow, gain 100 points, overwrite the eaten food and draw new food. */
    method EatFood(s: Snake, d: Draw)
      requires board.Valid() && board.rows > 4 && board.cols > 4
      requires FoodSpot(board.rows, board.cols, board.food) && |s.body| >= 1
      modifies s`body, s`score, board`grid, board`food
      ensures board.Valid()
      ensures Outcome(board.grid, board.food, s.Model(), false)
           == Feed(old(board.grid), board.rows, board.cols, old(board.food), old(s.Model()), d)
    {
      s.Grow();
      s.IncScore(FoodScore);
      board.DeleteFood();
      board.CreateFood(d);
    }

    /** willCollide followed, when it reports no collision, by move. */
    method Advance(s: Snake, d: Draw) returns (hit: bool)
      requires board.Valid() && Fits(board.grid, board.rows, board.cols, board.food, s.Model())
      requires s.head != Food && s.tail != Food
      modifies s`body, s`score, board`grid, board`food
      ensures board.Valid()
      ensures Outcome(board.grid, board.food, s.Model(), hit)
           == Resolve(old(board.grid), board.rows, board.cols, old(board.food), old(s.Model()), d)
    {
      ResolveStages(board.grid, board.rows, board.cols, board.food, s.Model(), d);
      hit := WillCollide(s, d);
      if !hit {
        s.Move(board);
      }
    }

    /**
     * moveSnake's collision branch: the snake's power drops by 25, a
     * positive score loses 150 and is clamped at 0, and a power at or below
     * 0 ends the game.
     */
    method Penalize(who: Which)
      requires snake1 != snake2
      modifies this`power, this`power2, this`isOver, snake1`score, snake2`score
      ensures State() == Punish(old(State()), who)
    {
      var s := if who == One then snake1 else snake2;
      if who == One {
        power := power - HitPower;
      } else {
        power2 := power2 - HitPower;
      }
      if s.score > 0 {
        s.DecScore(HitScore);
        if s.score < 0 {
          s.SetScore(0);
        }
      }
      if (who == One && power <= 0) || (who == Two && power2 <= 0) {
        isOver := true;
      }
    }

    /** Resolves snake 1 or snake 2 on the map; nothing else changes. */
    method AdvancePlayer(who: Which, d: Draw) returns (hit: bool)
      requires Valid() && Inside(State())
      modifies board`grid, board`food, snake1`body, snake1`score, snake2`body, snake2`score
      ensures snake1 != snake2 && board.Valid()
      ensures var o := Resolve(old(board.grid), board.rows, board.cols, old(board.food), PlayerOf(old(State()), who), d);
        hit == o.hit && State() == Place(old(State()), who, o)
    {
      SoundFits(State(), who);
      if who == One {
        hit := Advance(snake1, d);
      } else {
        hit := Advance(snake2, d);
      }
    }

    /** One snake's half of moveSnake. */
    method TakeTurn(who: Which, d: Draw)
      requires Valid() && Inside(State())
      modifies this`power, this`power2, this`isOver, board`grid, board`food
      modifies snake1`body, snake1`score, snake2`body, snake2`score
      ensures snake1 != snake2 && board.Valid()
      ensures State() == Turn(old(State()), who, d)
    {
      var hit := AdvancePlayer(who, d);
      if hit {
        Penalize(who);
      }
    }

    /** moveSnake: snake 1 is resolved completely, then snake 2 on the map snake 1 left. */
    method MoveSnake(d1: Draw, d2: Draw)
      requires Valid() && Inside(State())
      modifies this`power, this`power2, this`isOver, board`grid, board`food
      modifies snake1`body, snake1`score, snake2`body, snake2`score
      ensures Valid() && Inside(State())
      ensures State() == Tick(old(State()), d1, d2)
    {
      TurnSound(State(), One, d1);
      TakeTurn(One, d1);
      TurnSound(State(), Two, d2);
      TakeTurn(Two, d2);
    }

    /** processKeyboardInput: steer either snake, or grow snake 1 with b. */
    method ProcessKeyboardInput(c: char)
      requires Valid()
      modifies snake1`direction, snake1`body, snake2`direction
      ensures Valid() && State() == KeyPress(old(State()), c)
    {
      if c == 'a' { snake1.SetDirection(Left); }
      if c == 'd' { snake1.SetDirection(Right); }
      if c == 'w' { snake1.SetDirection(Up); }
      if c == 's' { snake1.SetDirection(Down); }
      if c == 'h' { snake2.SetDirection(Left); }
      if c == 'k' { snake2.SetDirection(Right); }
      if c == 'u' { snake2.SetDirection(Up); }
      if c == 'j' { snake2.SetDirection(Down); }
      if c == 'b' { snake1.Grow(); }
      KeyPressKeeps(old(State()), c);
    }

    /** The end screen's verdict on the two scores. */
    method EndVerdict() returns (v: Verdict)
      ensures v == Winner(snake1.score, snake2.score)
    {
      v := NobodyWins;
      if snake1.score > snake2.score { v := PlayerOneWins; }
      if snake1.score < snake2.score { v := PlayerTwoWins; }
      if snake1.score == snake2.score { v := NobodyWins; }
    }
  }
}
