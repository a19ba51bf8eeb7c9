/** The snake game of testdisplay.py. The field spans columns 0 to `Width`
    and rows 0 to `Height`, both ends included. The snake's head moves
    one step per tick and comes back in on the far side when it has left
    the field. Each tick lays a segment where the head was, and the body
    is kept no longer than the snake's length, which grows by one for each
    piece of food eaten. The terminal's size, the random choices and the
    colour strings are parameters. */
module Snake {

  /** The terminal's size, read once when the game starts. */
  const Width: int := 80
  const Height: int := 24

  datatype Position = Position(x: int, y: int)

  /** A colour, as the escape string that selects it. */
  type Color = string

  /** A character drawn at a position in a colour. */
  datatype Pixel = Pixel(ch: char, loc: Position, fg: Color)

  /** `Position.__iadd__`: the componentwise sum, as a new position. */
  function Add(p: Position, q: Position): Position
  {
    Position(p.x + q.x, p.y + q.y)
  }

  function Neg(p: Position): Position
  {
    Position(-p.x, -p.y)
  }

  /** Moving by a step and then by its opposite comes back to the start;
      positions are equal exactly when both coordinates are. */
  lemma AddNeg(p: Position, d: Position)
    ensures Add(Add(p, d), Neg(d)) == p
    ensures Add(p, d) == p <==> d == Position(0, 0)
  {
  }

  const Up := Position(0, -1)
  const Down := Position(0, 1)
  const Left := Position(-1, 0)
  const Right := Position(1, 0)

  predicate IsUnit(d: Position)
  {
    d == Up || d == Down || d == Left || d == Right
  }

  predicate InField(p: Position)
  {
    0 <= p.x <= Width && 0 <= p.y <= Height
  }

  /** The escape sequences the arrow keys send. */
  const Esc: char := 27 as char
  const ArrowUp: string := [Esc, '[', 'A']
  const ArrowDown: string := [Esc, '[', 'B']
  const ArrowRight: string := [Esc, '[', 'C']
  const ArrowLeft: string := [Esc, '[', 'D']

  /** The direction after `change_direction(key)`: an arrow turns the
      snake its way, any other key leaves the direction as it was. */
  function Turned(d: Position, key: string): (r: Position)
    ensures key == ArrowLeft ==> r == Left
    ensures key == ArrowRight ==> r == Right
    ensures key == ArrowUp ==> r == Up
    ensures key == ArrowDown ==> r == Down
    ensures key !in {ArrowLeft, ArrowRight, ArrowUp, ArrowDown} ==> r == d
    ensures IsUnit(d) ==> IsUnit(r)
  {
    if key == ArrowLeft then Left
    else if key == ArrowRight then Right
    else if key == ArrowUp then Up
    else if key == ArrowDown then Down
    else d
  }

  /** Where the head is put back before a tick: a head left of the field
      goes to its right edge and the other way round; only when the
      column is in range is the row looked at, the same way. At most one
      coordinate changes, and a head in the field stays where it is. */
  function Wrapped(p: Position): (r: Position)
    ensures r.x == p.x || r.y == p.y
    ensures InField(p) ==> r == p
    ensures p.x < 0 ==> r == Position(Width, p.y)
    ensures p.x > Width ==> r == Position(0, p.y)
    ensures 0 <= p.x <= Width && p.y < 0 ==> r == Position(p.x, Height)
    ensures 0 <= p.x <= Width && p.y > Height ==> r == Position(p.x, 0)
  {
    if p.x < 0 then Position(Width, p.y)
    else if p.x > Width then Position(0, p.y)
    else if p.y < 0 then Position(p.x, Height)
    else if p.y > Height then Position(p.x, 0)
    else p
  }

  /** One step out of the field is undone by wrapping. */
  lemma WrapAfterStep(q: Position, d: Position)
    requires InField(q) && IsUnit(d)
    ensures InField(Wrapped(Add(q, d)))
  {
  }

  /** The body after a new segment went in front: the last segment is
      dropped once, if the body is then longer than `length`. */
  function Trimmed(body: seq<Pixel>, length: nat): (r: seq<Pixel>)
    ensures |r| <= |body| && r == body[..|r|]
    ensures |body| <= length + 1 ==> |r| <= length
    ensures |r| == |body| || |r| == |body| - 1
    ensures |body| <= length ==> r == body
    ensures length < |body| <==> |r| == |body| - 1
  {
    if length < |body| then body[..|body| - 1] else body
  }

  /** Whether some segment of `body` is at `p`. */
  predicate Bitten(body: seq<Pixel>, p: Position)
  {
    exists i :: 0 <= i < |body| && body[i].loc == p
  }

  /** `fg(255, 0, 0)`: the colour of the snake's head. */
  const HeadColor: Color := [Esc] + "[38;2;255;0;0m"

  class Food {
    var pixel: Pixel

    /** `Food()`: a first spawn. */
    constructor (loc: Position, fg: Color)
      requires InField(loc)
      ensures pixel == Pixel('0', loc, fg)
    {
      pixel := Pixel('0', loc, fg);
    }

    /** `spawn()`: the food is put at a place and in a colour chosen at
        random; `loc` and `fg` stand for that choice. */
    method Spawn(loc: Position, fg: Color)
      requires InField(loc)
      modifies this
      ensures pixel == Pixel('0', loc, fg)
    {
      pixel := Pixel('0', loc, fg);
    }
  }

  class Snake {
    var head: Pixel
    var direction: Position
    var length: nat
    var body: seq<Pixel>
    var colors: seq<Color>

    /** There is one colour per unit of length, so `draw` finds a colour
        for every segment; the snake moves one step at a time; once
        wrapped, the head is in the field, and so is every segment. */
    ghost predicate Valid()
      reads this
    {
      |colors| == length && |body| <= length
      && IsUnit(direction)
      && InField(Wrapped(head.loc))
      && forall i :: 0 <= i < |body| ==> InField(body[i].loc)
    }

    /** `Snake()`: a snake of length 0 at a random place, heading right. */
    constructor (start: Position)
      requires InField(start)
      ensures Valid()
      ensures head == Pixel('@', start, HeadColor) && direction == Right
      ensures length == 0 && body == [] && colors == []
    {
      head := Pixel('@', start, HeadColor);
      direction := Right;
      length := 0;
      body := [];
      colors := [];
    }

    /** `change_direction(key)`. */
    method ChangeDirection(key: string)
      requires Valid()
      modifies this
      ensures Valid()
      ensures direction == Turned(old(direction), key)
      ensures head == old(head) && length == old(length) && body == old(body) && colors == old(colors)
    {
      if key == ArrowLeft {
        direction := Left;
      } else if key == ArrowRight {
        direction := Right;
      } else if key == ArrowUp {
        direction := Up;
      } else if key == ArrowDown {
        direction := Down;
      }
    }

    /** `eat_food(food)`: when the food is where the head is, the snake
        grows by one, takes the food's colour at the front of its colours
        and the food respawns at `loc` in colour `fg`; otherwise nothing
        changes. */
    method EatFood(food: Food, loc: Position, fg: Color) returns (ate: bool)
      requires Valid() && InField(loc)
      modifies this, food
      ensures Valid()
      ensures ate <==> old(food.pixel.loc) == head.loc
      ensures ate ==> colors == [old(food.pixel.fg)] + old(colors) && length == old(length) + 1
      ensures ate ==> food.pixel == Pixel('0', loc, fg)
      ensures !ate ==> colors == old(colors) && length == old(length) && food.pixel == old(food.pixel)
      ensures head == old(head) && body == old(body) && direction == old(direction)
    {
      if food.pixel.loc == head.loc {
        colors := [food.pixel.fg] + colors;
        food.Spawn(loc, fg);
        length := length + 1;
        return true;
      } else {
        return false;
      }
    }

    /** `eat_self()`: whether a segment of the body is where the head is. */
    method EatSelf() returns (bitten: bool)
      ensures bitten <==> Bitten(body, head.loc)
    {
      var i := 0;
      while i < |body|
        invariant i <= |body|
        invariant forall j :: 0 <= j < i ==> body[j].loc != head.loc
      {
        if body[i].loc == head.loc {
          return true;
        }
        i := i + 1;
      }
      return false;
    }

    /** `update(food)`: wrap the head, lay a segment in the food's colour
        where it now is, drop the last segment if the body has become
        longer than the snake, then move the head one step. */
    method Update(food: Food)
      requires Valid()
      modifies this
      ensures Valid()
      ensures body == Trimmed([Pixel('#', Wrapped(old(head.loc)), food.pixel.fg)] + old(body), length)
      ensures head == old(head).(loc := Add(Wrapped(old(head.loc)), direction))
      ensures direction == old(direction) && length == old(length) && colors == old(colors)
    {
      var loc := head.loc;
      if loc.x < 0 {
        loc := Position(Width, loc.y);
      } else if loc.x > Width {
        loc := Position(0, loc.y);
      } else if loc.y < 0 {
        loc := Position(loc.x, Height);
      } else if loc.y > Height {
        loc := Position(loc.x, 0);
      }
      head := head.(loc := loc);
      body := [Pixel('#', head.loc, food.pixel.fg)] + body;
      if length < |body| {
        body := body[..|body| - 1];
      }
      head := head.(loc := Add(head.loc, direction));
      WrapAfterStep(loc, direction);
    }
  }

  class Game {
    var snake: Snake
    var food: Food

    ghost predicate Valid()
      reads this, snake
    {
      snake.Valid()
    }

    /** `Game()`: a new snake and a first piece of food, each at a place
        chosen at random. */
    constructor (start: Position, foodLoc: Position, foodColor: Color)
      requires InField(start) && InField(foodLoc)
      ensures Valid() && fresh(snake) && fresh(food)
      ensures snake.head == Pixel('@', start, HeadColor) && snake.direction == Right
      ensures snake.length == 0 && snake.body == [] && snake.colors == []
      ensures food.pixel == Pixel('0', foodLoc, foodColor)
    {
      snake := new Snake(start);
      food := new Food(foodLoc, foodColor);
    }

    /** `Game.update()` without the tick rate: move the snake, let it eat,
        and report whether it has run into itself, which ends the game.
        `loc` and `fg` stand for where and in which colour the food
        respawns if it is eaten. */
    method Update(loc: Position, fg: Color) returns (over: bool)
      requires Valid() && InField(loc)
      modifies snake, food
      ensures Valid()
      ensures snake.head == old(snake.head).(loc := Add(Wrapped(old(snake.head.loc)), old(snake.direction)))
      ensures snake.direction == old(snake.direction)
      ensures snake.body ==
        Trimmed([Pixel('#', Wrapped(old(snake.head.loc)), old(food.pixel.fg))] + old(snake.body), old(snake.length))
      ensures old(food.pixel.loc) == snake.head.loc ==>
        snake.length == old(snake.length) + 1 && snake.colors == [old(food.pixel.fg)] + old(snake.colors)
        && food.pixel == Pixel('0', loc, fg)
      ensures old(food.pixel.loc) != snake.head.loc ==>
        snake.length == old(snake.length) && snake.colors == old(snake.colors) && food.pixel == old(food.pixel)
      ensures over <==> Bitten(snake.body, snake.head.loc)
    {
      snake.Update(food);
      var ate := snake.EatFood(food, loc, fg);
      over := snake.EatSelf();
    }
  }
}
