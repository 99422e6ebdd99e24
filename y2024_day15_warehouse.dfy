/** The warehouse of 2024 day 15: a robot walks a grid of walls and boxes,
    pushing a line of boxes when the cell beyond it is free; in the second
    part every cell is doubled in width and boxes two cells wide can push
    whole trees of boxes up and down. */
module WarehouseWoes {
  import opened Prelude

  datatype Point = Point(x: int, y: int)

  function Add(a: Point, b: Point): Point
  {
    Point(a.x + b.x, a.y + b.y)
  }

  datatype Direction = Up | Down | Left | Right

  /** The unit vector of an instruction; y grows downwards. */
  function Delta(d: Direction): (r: Point)
    ensures (r.x == 0) != (r.y == 0) && -1 <= r.x <= 1 && -1 <= r.y <= 1
  {
    match d
    case Up => Point(0, -1)
    case Down => Point(0, 1)
    case Left => Point(-1, 0)
    case Right => Point(1, 0)
  }

  function Symbol(d: Direction): char
  {
    match d
    case Up => '^'
    case Down => 'v'
    case Left => '<'
    case Right => '>'
  }

  /** The instruction a character stands for, if any. */
  function DirectionOf(c: char): (r: Option<Direction>)
    ensures r.Some? ==> Symbol(r.value) == c
  {
    if c == '^' then Some(Up)
    else if c == 'v' then Some(Down)
    else if c == '<' then Some(Left)
    else if c == '>' then Some(Right)
    else None
  }

  /** The instructions of the text after the grid: every other character,
      newlines included, is dropped. */
  function Instructions(s: string): (r: seq<Direction>)
    ensures |r| <= |s|
  {
    if s == [] then []
    else
      var last := DirectionOf(s[|s| - 1]);
      Instructions(s[..|s| - 1]) + (if last.Some? then [last.value] else [])
  }

  lemma {:induction false} InstructionsAppend(a: string, b: string)
    ensures Instructions(a + b) == Instructions(a) + Instructions(b)
    decreases |b|
  {
    if b == [] {
      assert a + b == a;
    } else {
      assert (a + b)[..|a + b| - 1] == a + b[..|b| - 1];
      InstructionsAppend(a, b[..|b| - 1]);
    }
  }

  /** The symbols written out read back as the same instructions. */
  lemma {:induction false} InstructionsOfSymbols(ds: seq<Direction>)
    ensures Instructions(seq(|ds|, i requires 0 <= i < |ds| => Symbol(ds[i]))) == ds
  {
    var s := seq(|ds|, i requires 0 <= i < |ds| => Symbol(ds[i]));
    if ds != [] {
      var n := |ds| - 1;
      assert s[..n] == seq(n, i requires 0 <= i < n => Symbol(ds[..n][i]));
      InstructionsOfSymbols(ds[..n]);
      assert DirectionOf(Symbol(ds[n])) == Some(ds[n]);
    }
  }

  type Grid = seq<seq<char>>

  /** grid[p.y][p.x], or None where the index panics: a negative
      coordinate cast to usize is out of range as well. */
  function At(g: Grid, p: Point): Option<char>
  {
    if 0 <= p.y < |g| && 0 <= p.x < |g[p.y]| then Some(g[p.y][p.x]) else None
  }

  predicate SameShape(g: Grid, h: Grid)
  {
    |g| == |h| && forall y :: 0 <= y < |g| ==> |g[y]| == |h[y]|
  }

  /** grid[p.y][p.x] = c. */
  function Set(g: Grid, p: Point, c: char): (r: Grid)
    requires At(g, p).Some?
    ensures SameShape(g, r)
    ensures forall q :: At(r, q) == if q == p then Some(c) else At(g, q)
  {
    g[p.y := g[p.y][p.x := c]]
  }

  /** The longest row. */
  function MaxWidth(g: Grid): (r: nat)
    ensures forall y :: 0 <= y < |g| ==> |g[y]| <= r
  {
    if g == [] then 0 else Max(MaxWidth(g[..|g| - 1]), |g[|g| - 1]|)
  }

  /** How many more cells a walk from p along d can find in the grid. */
  function Remaining(g: Grid, p: Point, d: Direction): nat
  {
    match d
    case Right => if p.x < MaxWidth(g) then MaxWidth(g) - p.x else 0
    case Left => if p.x >= 0 then p.x + 1 else 0
    case Down => if p.y < |g| then |g| - p.y else 0
    case Up => if p.y >= 0 then p.y + 1 else 0
  }

  // Counting cells, and the GPS coordinate sums of the answers.

  function CountRow(row: seq<char>, c: char): nat
  {
    if row == [] then 0 else CountRow(row[..|row| - 1], c) + (if row[|row| - 1] == c then 1 else 0)
  }

  /** The cells of the grid holding c. */
  function Count(g: Grid, c: char): nat
  {
    if g == [] then 0 else Count(g[..|g| - 1], c) + CountRow(g[|g| - 1], c)
  }

  lemma {:induction false} CountRowSet(row: seq<char>, i: nat, b: char, c: char)
    requires i < |row|
    ensures CountRow(row[i := b], c) == CountRow(row, c) - (if row[i] == c then 1 else 0) + (if b == c then 1 else 0)
  {
    var n := |row| - 1;
    if i < n {
      assert row[i := b][..n] == row[..n][i := b];
      CountRowSet(row[..n], i, b, c);
    } else {
      assert row[i := b][..n] == row[..n];
    }
  }

  /** Writing b over a cell holding a changes the count of c by what the
      two contribute. */
  lemma {:induction false} CountSet(g: Grid, p: Point, b: char, c: char)
    requires At(g, p).Some?
    ensures Count(Set(g, p, b), c) == Count(g, c) - (if At(g, p) == Some(c) then 1 else 0) + (if b == c then 1 else 0)
  {
    var n := |g| - 1;
    var h := Set(g, p, b);
    if p.y < n {
      assert h[..n] == Set(g[..n], p, b);
      CountSet(g[..n], p, b, c);
    } else {
      assert h[..n] == g[..n];
      CountRowSet(g[n], p.x, b, c);
    }
  }

  /** 100 times the row plus the column, summed over the cells of a row
      holding c. */
  function GpsRow(row: seq<char>, c: char, y: int): int
  {
    if row == [] then 0
    else GpsRow(row[..|row| - 1], c, y) + (if row[|row| - 1] == c then 100 * y + (|row| - 1) else 0)
  }

  /** The sum part_one and part_two compute, for 'O' and for '['. */
  function GpsSum(g: Grid, c: char): int
  {
    if g == [] then 0 else GpsSum(g[..|g| - 1], c) + GpsRow(g[|g| - 1], c, |g| - 1)
  }

  lemma {:induction false} GpsRowSet(row: seq<char>, i: nat, b: char, c: char, y: int)
    requires i < |row|
    ensures GpsRow(row[i := b], c, y) == GpsRow(row, c, y) - (if row[i] == c then 100 * y + i else 0) + (if b == c then 100 * y + i else 0)
  {
    var n := |row| - 1;
    if i < n {
      assert row[i := b][..n] == row[..n][i := b];
      GpsRowSet(row[..n], i, b, c, y);
    } else {
      assert row[i := b][..n] == row[..n];
    }
  }

  /** Writing b over a cell changes the sum by that cell's coordinate,
      as it holds c before or after. */
  lemma {:induction false} GpsSet(g: Grid, p: Point, b: char, c: char)
    requires At(g, p).Some?
    ensures GpsSum(Set(g, p, b), c) == GpsSum(g, c) - (if At(g, p) == Some(c) then 100 * p.y + p.x else 0) + (if b == c then 100 * p.y + p.x else 0)
  {
    var n := |g| - 1;
    var h := Set(g, p, b);
    if p.y < n {
      assert h[..n] == Set(g[..n], p, b);
      GpsSet(g[..n], p, b, c);
    } else {
      assert h[..n] == g[..n];
      GpsRowSet(g[n], p.x, b, c, n);
    }
  }

  // Part one.

  /** The robot's position and the grid, where its cell holds '.'. */
  datatype State = State(grid: Grid, robot: Point)

  /** The while loop of run_instructions: the first cell from p along d
      that holds no box, or None when the walk leaves the grid. */
  function Scan(g: Grid, p: Point, d: Direction): Option<Point>
    decreases Remaining(g, p, d)
  {
    match At(g, p)
    case None => None
    case Some(c) => if c == 'O' then Scan(g, Add(p, Delta(d)), d) else Some(p)
  }

  /** The cell k steps from p along d. */
  function Along(p: Point, d: Direction, k: nat): Point
  {
    match d
    case Up => Point(p.x, p.y - k)
    case Down => Point(p.x, p.y + k)
    case Left => Point(p.x - k, p.y)
    case Right => Point(p.x + k, p.y)
  }

  /** The boxes the scan passes. */
  function ScanLength(g: Grid, p: Point, d: Direction): nat
    decreases Remaining(g, p, d)
  {
    if At(g, p) == Some('O') then 1 + ScanLength(g, Add(p, Delta(d)), d) else 0
  }

  /** The scan passes a line of boxes and ends right after it, at a cell
      of the grid that holds none. */
  lemma {:induction false} ScanSound(g: Grid, p: Point, d: Direction)
    requires Scan(g, p, d).Some?
    ensures Scan(g, p, d).value == Along(p, d, ScanLength(g, p, d))
    ensures forall j :: 0 <= j < ScanLength(g, p, d) ==> At(g, Along(p, d, j)) == Some('O')
    ensures At(g, Scan(g, p, d).value).Some? && At(g, Scan(g, p, d).value) != Some('O')
    decreases Remaining(g, p, d)
  {
    if At(g, p) == Some('O') {
      var q := Add(p, Delta(d));
      ScanSound(g, q, d);
      forall j | 0 <= j < ScanLength(g, p, d)
        ensures At(g, Along(p, d, j)) == Some('O')
      {
        if j > 0 {
          assert Along(p, d, j) == Along(q, d, j - 1);
        }
      }
    }
  }

  /** One instruction of run_instructions; None where an index panics. */
  function Step(s: State, d: Direction): Option<State>
  {
    var next := Add(s.robot, Delta(d));
    match At(s.grid, next)
    case None => None
    case Some(c) =>
      if c == '.' then Some(State(s.grid, next))
      else if c == 'O' then
        match Scan(s.grid, next, d)
        case None => None
        case Some(free) =>
          if At(s.grid, free) == Some('.') then
            Some(State(Set(Set(s.grid, next, '.'), free, 'O'), next))
          else Some(s)
      else Some(s)
  }

  // Part two: the grid doubled in width, with boxes two cells wide.

  /** The copy of a cell in the grid of part two. */
  function WidenCell(c: char): (r: seq<char>)
    ensures |r| == if IsTile(c) then 2 else 1
  {
    if c == '#' then "##"
    else if c == 'O' then "[]"
    else if c == '.' then ".."
    else if c == '@' then "@."
    else [c]
  }

  function WidenRow(row: seq<char>): seq<char>
  {
    if row == [] then [] else WidenRow(row[..|row| - 1]) + WidenCell(row[|row| - 1])
  }

  /** The grid of to_part_2. */
  function Widen(g: Grid): (r: Grid)
    ensures |r| == |g|
  {
    seq(|g|, y requires 0 <= y < |g| => WidenRow(g[y]))
  }

  /** The cells a grid as read is made of. */
  predicate IsTile(c: char)
  {
    c == '#' || c == 'O' || c == '.' || c == '@'
  }

  predicate IsPart(c: char)
  {
    c == '[' || c == ']'
  }

  /** The other half of the box whose half at p holds c. */
  function OtherHalf(p: Point, c: char): (r: Point)
    ensures r.y == p.y
  {
    if c == '[' then Add(p, Point(1, 0)) else Add(p, Point(-1, 0))
  }

  /** The found halves put before what a further walk finds. */
  function Extend(found: seq<Point>, r: Option<(seq<Point>, Point)>): Option<(seq<Point>, Point)>
  {
    match r
    case None => None
    case Some(rest) => Some((found + rest.0, rest.1))
  }

  /** The while loop of a push to the left or right: the box halves from p
      on along d, and the first cell after them; None when the walk leaves
      the grid. */
  function ScanHalves(g: Grid, p: Point, d: Direction): Option<(seq<Point>, Point)>
    decreases Remaining(g, p, d)
  {
    match At(g, p)
    case None => None
    case Some(c) => if IsPart(c) then Extend([p], ScanHalves(g, Add(p, Delta(d)), d)) else Some(([], p))
  }

  /** The for loop over one row of halves of a push up or down: a wall in
      front of any of them blocks the push; a half in front that is not yet
      in the next row is added, with its other half, to the next row and to
      the boxes to move. The result is the next row, the boxes to move and
      whether the push is blocked. */
  function Round(g: Grid, current: seq<Point>, d: Direction, nextRow: seq<Point>, boxes: seq<Point>): Option<(seq<Point>, seq<Point>, bool)>
    decreases |current|
  {
    if current == [] then Some((nextRow, boxes, false))
    else
      var nextBox := Add(current[0], Delta(d));
      match At(g, nextBox)
      case None => None
      case Some(c) =>
        if c == '#' then Some((nextRow, boxes, true))
        else if IsPart(c) && nextBox !in nextRow then
          var other := OtherHalf(nextBox, c);
          Round(g, current[1..], d, nextRow + [nextBox, other], boxes + [nextBox, other])
        else Round(g, current[1..], d, nextRow, boxes)
  }

  /** The last row of halves keeps its row; the next one lies one row on,
      and it is only there when that row is in the grid. */
  lemma {:induction false} RoundRows(g: Grid, current: seq<Point>, d: Direction, nextRow: seq<Point>, boxes: seq<Point>, row: int)
    requires d == Up || d == Down
    requires forall i :: 0 <= i < |current| ==> current[i].y == row
    requires forall i :: 0 <= i < |nextRow| ==> nextRow[i].y == row + Delta(d).y
    requires nextRow != [] ==> 0 <= row + Delta(d).y < |g|
    requires Round(g, current, d, nextRow, boxes).Some?
    ensures var r := Round(g, current, d, nextRow, boxes).value;
      && (forall i :: 0 <= i < |r.0| ==> r.0[i].y == row + Delta(d).y)
      && (r.0 != [] ==> 0 <= row + Delta(d).y < |g|)
    decreases |current|
  {
    if current != [] {
      var nextBox := Add(current[0], Delta(d));
      var c := At(g, nextBox).value;
      if c != '#' {
        if IsPart(c) && nextBox !in nextRow {
          var more := nextRow + [nextBox, OtherHalf(nextBox, c)];
          assert forall i :: 0 <= i < |more| ==> more[i].y == row + Delta(d).y;
          RoundRows(g, current[1..], d, more, boxes + [nextBox, OtherHalf(nextBox, c)], row);
        } else {
          RoundRows(g, current[1..], d, nextRow, boxes, row);
        }
      }
    }
  }

  /** The while loop of a push up or down: rounds from the row of current
      onwards until a row is empty or a wall blocks. The result is the
      boxes to move and whether the push is blocked. */
  function Collect(g: Grid, current: seq<Point>, d: Direction, boxes: seq<Point>, row: int): Option<(seq<Point>, bool)>
    requires d == Up || d == Down
    requires forall i :: 0 <= i < |current| ==> current[i].y == row
    requires current != [] ==> 0 <= row < |g|
    decreases if d == Down then |g| - row else row + 1
  {
    if current == [] then Some((boxes, false))
    else
      match Round(g, current, d, [], boxes)
      case None => None
      case Some(r) =>
        if r.2 then Some((r.1, true))
        else
          RoundRows(g, current, d, [], boxes, row);
          Collect(g, r.0, d, r.1, row + Delta(d).y)
  }

  /** The boxes a push from the half at next holding c moves, and whether
      it is blocked: along the row the halves behind the first box up to a
      cell holding none, blocked when that cell is a wall; up or down the
      rounds of Collect. */
  function Pushed(g: Grid, next: Point, c: char, d: Direction): Option<(seq<Point>, bool)>
    requires At(g, next) == Some(c)
  {
    var first := [next, OtherHalf(next, c)];
    if d == Left || d == Right then
      match ScanHalves(g, Along(next, d, 2), d)
      case None => None
      case Some(r) => Some((first + r.0, At(g, r.1) == Some('#')))
    else Collect(g, first, d, first, next.y)
  }

  /** The reverse for loop that moves the boxes: the last one first, each
      cell's content copied one cell along d and the cell left free; None
      where an index panics. */
  function MoveAll(g: Grid, boxes: seq<Point>, d: Direction): Option<Grid>
    decreases |boxes|
  {
    if boxes == [] then Some(g)
    else
      var b := boxes[|boxes| - 1];
      if At(g, b).Some? && At(g, Add(b, Delta(d))).Some? then
        MoveAll(MoveCell(g, b, d), boxes[..|boxes| - 1], d)
      else None
  }

  /** The last of the first k boxes moves first; a panic there stops the
      move. */
  lemma MoveAllStep(g: Grid, boxes: seq<Point>, d: Direction, k: nat)
    requires 0 < k <= |boxes|
    ensures var b := boxes[k - 1];
      MoveAll(g, boxes[..k], d) ==
        if At(g, b).Some? && At(g, Add(b, Delta(d))).Some? then MoveAll(MoveCell(g, b, d), boxes[..k - 1], d) else None
  {
    assert boxes[..k][..k - 1] == boxes[..k - 1];
  }

  /** One pass of that loop: the content of b copied one cell along d, and
      b left free. */
  function MoveCell(g: Grid, b: Point, d: Direction): (r: Grid)
    requires At(g, b).Some? && At(g, Add(b, Delta(d))).Some?
    ensures SameShape(g, r)
    ensures forall q :: At(r, q) == if q == b then Some('.') else if q == Add(b, Delta(d)) then At(g, b) else At(g, q)
  {
    Set(Set(g, Add(b, Delta(d)), At(g, b).value), b, '.')
  }

  /** One instruction of run_instructions_part2; None where an index
      panics. */
  function StepWide(s: State, d: Direction): Option<State>
  {
    var next := Add(s.robot, Delta(d));
    match At(s.grid, next)
    case None => None
    case Some(c) =>
      if c == '.' then Some(State(s.grid, next))
      else if IsPart(c) then
        match Pushed(s.grid, next, c, d)
        case None => None
        case Some(r) =>
          if r.1 then Some(s)
          else
            match MoveAll(s.grid, r.0, d)
            case None => None
            case Some(h) => Some(State(h, next))
      else Some(s)
  }

  /** The two sets of rules: run_instructions on the grid as read, and
      run_instructions_part2 on the grid doubled in width. */
  datatype Rules = SingleWidth | DoubleWidth

  function StepBy(rules: Rules, s: State, d: Direction): Option<State>
  {
    match rules
    case SingleWidth => Step(s, d)
    case DoubleWidth => StepWide(s, d)
  }

  /** The instructions in order, stopping at the first panic. */
  function Run(rules: Rules, s: State, instructions: seq<Direction>): Option<State>
  {
    if instructions == [] then Some(s)
    else
      match Run(rules, s, instructions[..|instructions| - 1])
      case None => None
      case Some(t) => StepBy(rules, t, instructions[|instructions| - 1])
  }

  /** One more instruction is one more step. */
  lemma RunNext(rules: Rules, s: State, instructions: seq<Direction>, i: nat, t: State)
    requires i < |instructions| && Run(rules, s, instructions[..i]) == Some(t)
    ensures Run(rules, s, instructions[..i + 1]) == StepBy(rules, t, instructions[i])
  {
    assert instructions[..i + 1][..i] == instructions[..i];
  }

  lemma {:induction false} RunPanicked(rules: Rules, s: State, instructions: seq<Direction>, k: nat)
    requires k <= |instructions| && Run(rules, s, instructions[..k]) == None
    ensures Run(rules, s, instructions) == None
    decreases |instructions| - k
  {
    if k < |instructions| {
      assert instructions[..k + 1][..k] == instructions[..k];
      RunPanicked(rules, s, instructions, k + 1);
    } else {
      assert instructions[..k] == instructions;
    }
  }

  /** A move into a free cell moves only the robot. */
  lemma StepFree(s: State, d: Direction)
    requires At(s.grid, Add(s.robot, Delta(d))) == Some('.')
    ensures Step(s, d) == Some(State(s.grid, Add(s.robot, Delta(d))))
  {
  }

  /** A move into a wall, or into boxes with a wall behind them, changes
      nothing; a walk off the grid panics. */
  lemma StepBlocked(s: State, d: Direction)
    requires At(s.grid, Add(s.robot, Delta(d))).Some?
    requires At(s.grid, Add(s.robot, Delta(d))) != Some('.')
    requires At(s.grid, Add(s.robot, Delta(d))) == Some('O') ==>
      Scan(s.grid, Add(s.robot, Delta(d)), d).Some? && At(s.grid, Scan(s.grid, Add(s.robot, Delta(d)), d).value) != Some('.')
    ensures Step(s, d) == Some(s)
  {
  }

  /** A push: the robot steps into the first box's cell, which is left
      free, and a box appears in the free cell beyond the line; every
      other cell stays. The boxes keep their number, and the GPS sum
      changes by the two cells' coordinates. */
  lemma StepPush(s: State, d: Direction)
    requires At(s.grid, Add(s.robot, Delta(d))) == Some('O')
    requires Scan(s.grid, Add(s.robot, Delta(d)), d).Some?
    requires At(s.grid, Scan(s.grid, Add(s.robot, Delta(d)), d).value) == Some('.')
    ensures var next := Add(s.robot, Delta(d)); var free := Scan(s.grid, next, d).value;
      && Step(s, d).Some? && Step(s, d).value.robot == next
      && (forall q :: At(Step(s, d).value.grid, q) ==
            if q == next then Some('.') else if q == free then Some('O') else At(s.grid, q))
      && Count(Step(s, d).value.grid, 'O') == Count(s.grid, 'O')
      && GpsSum(Step(s, d).value.grid, 'O') == GpsSum(s.grid, 'O') - (100 * next.y + next.x) + (100 * free.y + free.x)
  {
    var next := Add(s.robot, Delta(d));
    var free := Scan(s.grid, next, d).value;
    var mid := Set(s.grid, next, '.');
    CountSet(s.grid, next, '.', 'O');
    CountSet(mid, free, 'O', 'O');
    GpsSet(s.grid, next, '.', 'O');
    GpsSet(mid, free, 'O', 'O');
  }

  /** What every step keeps: the robot's cell is free, the grid keeps its
      shape, walls stay where they are, and the boxes keep their number. */
  ghost predicate Keeps(s: State, t: State)
  {
    && SameShape(s.grid, t.grid)
    && (forall q :: At(s.grid, q) == Some('#') <==> At(t.grid, q) == Some('#'))
    && Count(t.grid, 'O') == Count(s.grid, 'O')
  }

  predicate Valid(s: State)
  {
    At(s.grid, s.robot) == Some('.')
  }

  lemma StepKeeps(s: State, d: Direction)
    requires Valid(s) && Step(s, d).Some?
    ensures Valid(Step(s, d).value) && Keeps(s, Step(s, d).value)
  {
    var next := Add(s.robot, Delta(d));
    if At(s.grid, next) == Some('O') && At(s.grid, Scan(s.grid, next, d).value) == Some('.') {
      StepPush(s, d);
    }
  }

  lemma {:induction false} RunKeeps(s: State, instructions: seq<Direction>)
    requires Valid(s) && Run(SingleWidth, s, instructions).Some?
    ensures Valid(Run(SingleWidth, s, instructions).value) && Keeps(s, Run(SingleWidth, s, instructions).value)
  {
    if instructions != [] {
      var n := |instructions| - 1;
      RunKeeps(s, instructions[..n]);
      StepKeeps(Run(SingleWidth, s, instructions[..n]).value, instructions[n]);
    }
  }

  // Parsing.

  /** The grid of Warehouse::from: the lines of the text before the blank
      line, the robot's '@' read as a free cell. */
  function ParseGrid(lines: seq<string>): (r: Grid)
    ensures SameShape(lines, r)
    ensures forall p :: At(r, p) == if At(lines, p) == Some('@') then Some('.') else At(lines, p)
  {
    seq(|lines|, y requires 0 <= y < |lines| =>
      seq(|lines[y]|, x requires 0 <= x < |lines[y]| => if lines[y][x] == '@' then '.' else lines[y][x]))
  }

  /** The column of the last '@' of a row. */
  function LastRobot(row: string): (r: Option<nat>)
    ensures r.Some? ==> r.value < |row| && row[r.value] == '@' && forall x :: r.value < x < |row| ==> row[x] != '@'
    ensures r.None? ==> forall x :: 0 <= x < |row| ==> row[x] != '@'
  {
    if row == [] then None
    else if row[|row| - 1] == '@' then Some(|row| - 1)
    else LastRobot(row[..|row| - 1])
  }

  /** The '@' the closure of Warehouse::from records last. */
  function RobotIn(lines: seq<string>): Option<Point>
  {
    if lines == [] then None
    else
      var n := |lines| - 1;
      match LastRobot(lines[n])
      case Some(x) => Some(Point(x, n))
      case None => RobotIn(lines[..n])
  }

  /** It is an '@', and the last one in reading order; there is none when
      the grid holds no '@'. */
  lemma {:induction false} RobotInSound(lines: seq<string>)
    ensures var r := RobotIn(lines);
      && (r.Some? ==> At(lines, r.value) == Some('@'))
      && (r.Some? ==> forall q :: At(lines, q) == Some('@') ==> q.y < r.value.y || (q.y == r.value.y && q.x <= r.value.x))
      && (r.None? ==> forall q :: At(lines, q) != Some('@'))
  {
    if lines != [] {
      var n := |lines| - 1;
      RobotInSound(lines[..n]);
      assert forall q: Point :: q.y < n ==> At(lines[..n], q) == At(lines, q);
    }
  }

  /** The robot's start: Point2::new(0, 0) when there is no '@'. */
  function StartRobot(lines: seq<string>): Point
  {
    match RobotIn(lines)
    case None => Point(0, 0)
    case Some(p) => p
  }

  /** With an '@' in the grid, the robot starts on a free cell of a grid
      that holds no '@'. */
  lemma ParseValid(lines: seq<string>)
    requires RobotIn(lines).Some?
    ensures Valid(State(ParseGrid(lines), StartRobot(lines)))
    ensures forall q :: At(ParseGrid(lines), q) != Some('@')
  {
    RobotInSound(lines);
  }

  /** The sum an answer reports for the state a run ends in. */
  function Answer(o: Option<State>, c: char): Option<int>
  {
    match o
    case None => None
    case Some(t) => Some(GpsSum(t.grid, c))
  }

  // The grid of part two.

  lemma {:induction false} CountRowAppend(a: seq<char>, b: seq<char>, c: char)
    ensures CountRow(a + b, c) == CountRow(a, c) + CountRow(b, c)
    decreases |b|
  {
    if b == [] {
      assert a + b == a;
    } else {
      assert (a + b)[..|a + b| - 1] == a + b[..|b| - 1];
      CountRowAppend(a, b[..|b| - 1], c);
    }
  }

  lemma CellCounts(c: char)
    ensures CountRow(WidenCell(c), '[') == (if c == 'O' || c == '[' then 1 else 0)
    ensures CountRow(WidenCell(c), '#') == (if c == '#' then 2 else 0)
  {
    var w := WidenCell(c);
    if |w| == 2 {
      assert w[..1][..0] == [];
      assert CountRow(w, '[') == CountRow(w[..1], '[') + (if w[1] == '[' then 1 else 0);
      assert CountRow(w, '#') == CountRow(w[..1], '#') + (if w[1] == '#' then 1 else 0);
    } else {
      assert w[..0] == [];
    }
  }

  /** Each box becomes one '[', each wall two '#'. */
  lemma {:induction false} WidenRowCounts(row: seq<char>)
    ensures CountRow(WidenRow(row), '[') == CountRow(row, 'O') + CountRow(row, '[')
    ensures CountRow(WidenRow(row), '#') == 2 * CountRow(row, '#')
  {
    if row != [] {
      var n := |row| - 1;
      WidenRowCounts(row[..n]);
      CellCounts(row[n]);
      CountRowAppend(WidenRow(row[..n]), WidenCell(row[n]), '[');
      CountRowAppend(WidenRow(row[..n]), WidenCell(row[n]), '#');
    }
  }

  lemma {:induction false} WidenCounts(g: Grid)
    ensures Count(Widen(g), '[') == Count(g, 'O') + Count(g, '[')
    ensures Count(Widen(g), '#') == 2 * Count(g, '#')
  {
    if g != [] {
      var n := |g| - 1;
      assert Widen(g)[..n] == Widen(g[..n]);
      WidenCounts(g[..n]);
      WidenRowCounts(g[n]);
    }
  }

  /** A row of tiles doubles in length, cell x becoming cells 2x and
      2x + 1. */
  lemma {:induction false} WidenRowCells(row: seq<char>)
    requires forall x :: 0 <= x < |row| ==> IsTile(row[x])
    ensures |WidenRow(row)| == 2 * |row|
    ensures forall x :: 0 <= x < |row| ==>
      WidenRow(row)[2 * x] == WidenCell(row[x])[0] && WidenRow(row)[2 * x + 1] == WidenCell(row[x])[1]
  {
    if row != [] {
      var n := |row| - 1;
      WidenRowCells(row[..n]);
      var w := WidenRow(row[..n]);
      assert WidenRow(row) == w + WidenCell(row[n]);
      forall x | 0 <= x < |row|
        ensures WidenRow(row)[2 * x] == WidenCell(row[x])[0] && WidenRow(row)[2 * x + 1] == WidenCell(row[x])[1]
      {
        if x < n {
          assert row[..n][x] == row[x];
        }
      }
    }
  }

  /** Every cell of the grid as read holds a tile. */
  ghost predicate AllTiles(g: Grid)
  {
    forall y, x :: 0 <= y < |g| && 0 <= x < |g[y]| ==> IsTile(g[y][x])
  }

  /** Cell (x, y) of a row of tiles becomes cells (2x, y) and (2x + 1, y)
      of the grid of to_part_2. */
  lemma WidenAt(g: Grid, x: int, y: int)
    requires 0 <= y < |g| && 0 <= x < |g[y]|
    requires forall i :: 0 <= i < |g[y]| ==> IsTile(g[y][i])
    ensures At(Widen(g), Point(x * 2, y)) == Some(WidenCell(g[y][x])[0])
    ensures At(Widen(g), Point(x * 2 + 1, y)) == Some(WidenCell(g[y][x])[1])
  {
    WidenRowCells(g[y]);
    assert Widen(g)[y] == WidenRow(g[y]);
  }

  /** In the grid of to_part_2 the robot, at twice its column, stands on
      the left half of its free cell, and the other half is free too. */
  lemma WidenValid(s: State)
    requires Valid(s) && AllTiles(s.grid)
    ensures var t := State(Widen(s.grid), Point(s.robot.x * 2, s.robot.y));
      Valid(t) && At(t.grid, Add(t.robot, Point(1, 0))) == Some('.')
  {
    WidenAt(s.grid, s.robot.x, s.robot.y);
  }

  // The effect of a push to the left or right in part two.

  lemma AlongNext(p: Point, d: Direction, k: nat)
    ensures Add(Along(p, d, k), Delta(d)) == Along(p, d, k + 1)
  {
  }

  /** A walk never comes back to a cell. */
  lemma AlongDistinct(p: Point, d: Direction, i: nat, j: nat)
    requires i != j
    ensures Along(p, d, i) != Along(p, d, j)
  {
  }

  /** The sideways scan collects the line of halves it walks, all of them
      cells of the grid, and ends at the cell right after them. */
  lemma {:induction false} ScanHalvesLine(g: Grid, p: Point, d: Direction)
    requires ScanHalves(g, p, d).Some?
    ensures var r := ScanHalves(g, p, d).value;
      && (forall i :: 0 <= i < |r.0| ==> r.0[i] == Along(p, d, i) && At(g, r.0[i]).Some?)
      && r.1 == Along(p, d, |r.0|) && At(g, r.1).Some?
    decreases Remaining(g, p, d)
  {
    if At(g, p).Some? && IsPart(At(g, p).value) {
      var q := Add(p, Delta(d));
      ScanHalvesLine(g, q, d);
    }
  }

  /** q is one of the k + 1 cells from p on along d. */
  predicate OnLine(q: Point, p: Point, d: Direction, k: nat)
  {
    match d
    case Up => q.x == p.x && p.y - k <= q.y <= p.y
    case Down => q.x == p.x && p.y <= q.y <= p.y + k
    case Left => q.y == p.y && p.x - k <= q.x <= p.x
    case Right => q.y == p.y && p.x <= q.x <= p.x + k
  }

  lemma OnLineAlong(p: Point, d: Direction, j: nat, k: nat)
    ensures OnLine(Along(p, d, j), p, d, k) <==> j <= k
  {
  }

  /** Moving a line of cells from p on along d, last first: each cell's
      content lands one cell further along d, the first cell is left free,
      and every cell off the line stays. */
  lemma {:induction false} MoveLine(g: Grid, boxes: seq<Point>, p: Point, d: Direction)
    requires d == Left || d == Right
    requires forall i :: 0 <= i < |boxes| ==> boxes[i] == Along(p, d, i)
    requires At(g, p).Some? && At(g, Along(p, d, |boxes|)).Some?
    ensures MoveAll(g, boxes, d).Some?
    ensures Moved(g, MoveAll(g, boxes, d).value, p, d, |boxes|)
    decreases |boxes|
  {
    var k := |boxes|;
    if k > 0 {
      var b := Along(p, d, k - 1);
      AlongNext(p, d, k - 1);
      var g1 := MoveCell(g, b, d);
      assert At(g1, p).Some? && At(g1, b).Some?;
      MoveLine(g1, boxes[..k - 1], p, d);
      var h := MoveAll(g1, boxes[..k - 1], d).value;
      assert MoveAll(g, boxes, d) == Some(h) by {
        assert boxes[..k] == boxes;
        MoveAllStep(g, boxes, d, k);
      }
      MovedOneMore(g, g1, h, p, d, k);
    }
  }

  /** h is g with the line of k cells from p moved one cell along d. */
  ghost predicate Moved(g: Grid, h: Grid, p: Point, d: Direction, k: nat)
  {
    && (forall j :: 0 <= j < k ==> At(h, Along(p, d, j + 1)) == At(g, Along(p, d, j)))
    && (k > 0 ==> At(h, p) == Some('.'))
    && (forall q :: (k == 0 || !OnLine(q, p, d, k)) ==> At(h, q) == At(g, q))
  }

  /** Moving the last cell of a line of k, then the other k - 1, moves the
      line. */
  lemma MovedOneMore(g: Grid, g1: Grid, h: Grid, p: Point, d: Direction, k: nat)
    requires k > 0
    requires At(g, Along(p, d, k - 1)).Some? && At(g, Add(Along(p, d, k - 1), Delta(d))).Some?
    requires Add(Along(p, d, k - 1), Delta(d)) == Along(p, d, k)
    requires g1 == MoveCell(g, Along(p, d, k - 1), d)
    requires Moved(g1, h, p, d, k - 1)
    ensures Moved(g, h, p, d, k)
  {
    forall j | 0 <= j < k
      ensures At(h, Along(p, d, j + 1)) == At(g, Along(p, d, j))
    {
      if j < k - 1 {
        AlongDistinct(p, d, j, k);
        AlongDistinct(p, d, j, k - 1);
        assert At(h, Along(p, d, j + 1)) == At(g1, Along(p, d, j));
      } else {
        OnLineAlong(p, d, k, k - 1);
        assert At(h, Along(p, d, k)) == At(g1, Along(p, d, k));
      }
    }
    if k == 1 {
      assert At(h, p) == At(g1, p);
    }
    forall q | !OnLine(q, p, d, k)
      ensures At(h, q) == At(g, q)
    {
      OnLineAlong(p, d, k, k);
      OnLineAlong(p, d, k - 1, k);
      assert k - 1 == 0 || !OnLine(q, p, d, k - 1);
    }
  }

  /** A push to the left or right against a box whose other half lies
      beyond the one the robot meets, and not blocked: the robot steps into
      the first half, which is left free, and every cell of the line of
      halves up to the free cell after them shifts one cell along d; every
      other cell stays. */
  lemma StepWideSideways(s: State, d: Direction)
    requires d == Left || d == Right
    requires var next := Add(s.robot, Delta(d));
      && At(s.grid, next).Some? && IsPart(At(s.grid, next).value)
      && OtherHalf(next, At(s.grid, next).value) == Along(next, d, 1)
      && Pushed(s.grid, next, At(s.grid, next).value, d).Some?
      && !Pushed(s.grid, next, At(s.grid, next).value, d).value.1
    ensures var next := Add(s.robot, Delta(d));
      var k := |Pushed(s.grid, next, At(s.grid, next).value, d).value.0|;
      && StepWide(s, d).Some?
      && StepWide(s, d).value.robot == next
      && k >= 2
      && Moved(s.grid, StepWide(s, d).value.grid, next, d, k)
  {
    var next := Add(s.robot, Delta(d));
    var c := At(s.grid, next).value;
    var boxes := Pushed(s.grid, next, c, d).value.0;
    SidewaysLine(s.grid, next, c, d);
    MoveLine(s.grid, boxes, next, d);
    assert StepWide(s, d) == Some(State(MoveAll(s.grid, boxes, d).value, next));
  }

  /** The boxes of such a push are the line of cells from the first half
      on, and the line up to the cell after it lies in the grid. */
  lemma SidewaysLine(g: Grid, next: Point, c: char, d: Direction)
    requires d == Left || d == Right
    requires At(g, next) == Some(c) && OtherHalf(next, c) == Along(next, d, 1)
    requires Pushed(g, next, c, d).Some?
    ensures var boxes := Pushed(g, next, c, d).value.0;
      && |boxes| >= 2
      && (forall i :: 0 <= i < |boxes| ==> boxes[i] == Along(next, d, i))
      && At(g, Along(next, d, |boxes|)).Some?
  {
    var start := Along(next, d, 2);
    var r := ScanHalves(g, start, d).value;
    ScanHalvesLine(g, start, d);
    var boxes := [next, OtherHalf(next, c)] + r.0;
    assert Pushed(g, next, c, d).value.0 == boxes;
    forall i | 2 <= i < |boxes|
      ensures boxes[i] == Along(next, d, i)
    {
      assert boxes[i] == r.0[i - 2];
    }
  }

  /** A move into a free cell moves only the robot. */
  lemma StepWideFree(s: State, d: Direction)
    requires At(s.grid, Add(s.robot, Delta(d))) == Some('.')
    ensures StepWide(s, d) == Some(State(s.grid, Add(s.robot, Delta(d))))
  {
  }

  /** A move into a wall, or a push a wall blocks, changes nothing. */
  lemma StepWideBlocked(s: State, d: Direction)
    requires var next := Add(s.robot, Delta(d));
      && At(s.grid, next).Some? && At(s.grid, next) != Some('.')
      && (IsPart(At(s.grid, next).value) ==>
            Pushed(s.grid, next, At(s.grid, next).value, d).Some? && Pushed(s.grid, next, At(s.grid, next).value, d).value.1)
    ensures StepWide(s, d) == Some(s)
  {
  }

  lemma {:induction false} SameShapeTrans(f: Grid, g: Grid, h: Grid)
    requires SameShape(f, g) && SameShape(g, h)
    ensures SameShape(f, h)
  {
  }

  /** Moving boxes keeps the grid's shape and leaves the first one's cell
      free. */
  lemma {:induction false} MoveAllKeeps(g: Grid, boxes: seq<Point>, d: Direction)
    requires MoveAll(g, boxes, d).Some?
    ensures SameShape(g, MoveAll(g, boxes, d).value)
    ensures boxes != [] ==> At(MoveAll(g, boxes, d).value, boxes[0]) == Some('.')
    decreases |boxes|
  {
    if boxes != [] {
      var n := |boxes| - 1;
      var g1 := MoveCell(g, boxes[n], d);
      MoveAllKeeps(g1, boxes[..n], d);
      SameShapeTrans(g, g1, MoveAll(g1, boxes[..n], d).value);
    }
  }

  /** The boxes a round and the rounds collect start with those already
      collected. */
  lemma {:induction false} RoundFirst(g: Grid, current: seq<Point>, d: Direction, nextRow: seq<Point>, boxes: seq<Point>)
    requires boxes != [] && Round(g, current, d, nextRow, boxes).Some?
    ensures var r := Round(g, current, d, nextRow, boxes).value; r.1 != [] && r.1[0] == boxes[0]
    decreases |current|
  {
    if current != [] {
      var nextBox := Add(current[0], Delta(d));
      var c := At(g, nextBox).value;
      if c != '#' {
        if IsPart(c) && nextBox !in nextRow {
          var other := OtherHalf(nextBox, c);
          RoundFirst(g, current[1..], d, nextRow + [nextBox, other], boxes + [nextBox, other]);
        } else {
          RoundFirst(g, current[1..], d, nextRow, boxes);
        }
      }
    }
  }

  lemma {:induction false} CollectFirst(g: Grid, current: seq<Point>, d: Direction, boxes: seq<Point>, row: int)
    requires d == Up || d == Down
    requires forall i :: 0 <= i < |current| ==> current[i].y == row
    requires current != [] ==> 0 <= row < |g|
    requires boxes != [] && Collect(g, current, d, boxes, row).Some?
    ensures var r := Collect(g, current, d, boxes, row).value; r.0 != [] && r.0[0] == boxes[0]
    decreases if d == Down then |g| - row else row + 1
  {
    if current != [] {
      RoundFirst(g, current, d, [], boxes);
      var r := Round(g, current, d, [], boxes).value;
      if !r.2 {
        RoundRows(g, current, d, [], boxes, row);
        CollectFirst(g, r.0, d, r.1, row + Delta(d).y);
      }
    }
  }

  /** The first box a push moves is the half the robot steps into. */
  lemma PushedFirst(g: Grid, next: Point, c: char, d: Direction)
    requires At(g, next) == Some(c) && Pushed(g, next, c, d).Some?
    ensures var r := Pushed(g, next, c, d).value; r.0 != [] && r.0[0] == next
  {
    if d == Up || d == Down {
      var first := [next, OtherHalf(next, c)];
      CollectFirst(g, first, d, first, next.y);
    }
  }

  /** Every step of part two keeps the robot on a free cell and the grid's
      shape. */
  lemma StepWideKeeps(s: State, d: Direction)
    requires Valid(s) && StepWide(s, d).Some?
    ensures Valid(StepWide(s, d).value) && SameShape(s.grid, StepWide(s, d).value.grid)
  {
    var next := Add(s.robot, Delta(d));
    var c := At(s.grid, next).value;
    if IsPart(c) && !Pushed(s.grid, next, c, d).value.1 {
      PushedFirst(s.grid, next, c, d);
      MoveAllKeeps(s.grid, Pushed(s.grid, next, c, d).value.0, d);
    }
  }

  lemma {:induction false} RunWideKeeps(s: State, instructions: seq<Direction>)
    requires Valid(s) && Run(DoubleWidth, s, instructions).Some?
    ensures Valid(Run(DoubleWidth, s, instructions).value) && SameShape(s.grid, Run(DoubleWidth, s, instructions).value.grid)
  {
    if instructions != [] {
      var n := |instructions| - 1;
      RunWideKeeps(s, instructions[..n]);
      var t := Run(DoubleWidth, s, instructions[..n]).value;
      StepWideKeeps(t, instructions[n]);
      SameShapeTrans(s.grid, t.grid, StepWide(t, instructions[n]).value.grid);
    }
  }

  /** The Warehouse struct. */
  class Warehouse {
    var grid: Grid
    var robot: Point
    var instructions: seq<Direction>

    constructor(grid: Grid, robot: Point, instructions: seq<Direction>)
      ensures this.grid == grid && this.robot == robot && this.instructions == instructions
    {
      this.grid := grid;
      this.robot := robot;
      this.instructions := instructions;
    }

    /** The body of the for loop of run_instructions: one instruction;
        false where an index panics. */
    method StepPart1(instruction: Direction) returns (ok: bool)
      modifies this
      ensures instructions == old(instructions)
      ensures ok <==> Step(State(old(grid), old(robot)), instruction).Some?
      ensures ok ==> Step(State(old(grid), old(robot)), instruction) == Some(State(grid, robot))
    {
      var next := Add(robot, Delta(instruction));
      var cell := At(grid, next);
      if cell.None? {
        return false;
      }
      if cell.value == '.' {
        robot := next;
      } else if cell.value == 'O' {
        var nextBox := next;
        while At(grid, nextBox) == Some('O')
          invariant Scan(grid, nextBox, instruction) == Scan(grid, next, instruction)
          decreases Remaining(grid, nextBox, instruction)
        {
          nextBox := Add(nextBox, Delta(instruction));
        }
        if At(grid, nextBox).None? {
          return false;
        }
        if At(grid, nextBox) == Some('.') {
          robot := next;
          grid := Set(grid, next, '.');
          grid := Set(grid, nextBox, 'O');
        }
      }
      return true;
    }

    /** Warehouse::run_instructions; false where an index panics. */
    method RunInstructions() returns (ok: bool)
      modifies this
      ensures instructions == old(instructions)
      ensures ok <==> Run(SingleWidth, State(old(grid), old(robot)), instructions).Some?
      ensures ok ==> Run(SingleWidth, State(old(grid), old(robot)), instructions) == Some(State(grid, robot))
    {
      ghost var start := State(grid, robot);
      for i := 0 to |instructions|
        invariant instructions == old(instructions)
        invariant Run(SingleWidth, start, instructions[..i]) == Some(State(grid, robot))
      {
        RunNext(SingleWidth, start, instructions, i, State(grid, robot));
        var stepped := StepPart1(instructions[i]);
        if !stepped {
          RunPanicked(SingleWidth, start, instructions, i + 1);
          return false;
        }
      }
      assert instructions[..|instructions|] == instructions;
      return true;
    }

    /** Warehouse::to_part_2: the grid doubled in width, the robot on the
        left half of its doubled cell. */
    method ToPart2() returns (w: Warehouse)
      ensures fresh(w)
      ensures w.grid == Widen(grid) && w.robot == Point(robot.x * 2, robot.y) && w.instructions == instructions
    {
      w := new Warehouse(Widen(grid), Point(robot.x * 2, robot.y), instructions);
    }

    /** The reverse for loop of run_instructions_part2 that moves the
        boxes; false where an index panics. */
    method MoveBoxes(boxes: seq<Point>, d: Direction) returns (ok: bool)
      modifies this
      ensures robot == old(robot) && instructions == old(instructions)
      ensures ok <==> MoveAll(old(grid), boxes, d).Some?
      ensures ok ==> grid == MoveAll(old(grid), boxes, d).value
    {
      var k := |boxes|;
      assert boxes[..k] == boxes;
      while k > 0
        invariant 0 <= k <= |boxes|
        invariant robot == old(robot) && instructions == old(instructions)
        invariant MoveAll(old(grid), boxes, d) == MoveAll(grid, boxes[..k], d)
      {
        var boxPos := boxes[k - 1];
        var nextBox := Add(boxPos, Delta(d));
        var here := At(grid, boxPos);
        MoveAllStep(grid, boxes, d, k);
        if here.None? || At(grid, nextBox).None? {
          return false;
        }
        ghost var before := grid;
        grid := Set(grid, nextBox, here.value);
        grid := Set(grid, boxPos, '.');
        assert grid == MoveCell(before, boxPos, d);
        k := k - 1;
      }
      return true;
    }

    /** The body of the for loop of run_instructions_part2: one
        instruction; false where an index panics. */
    method StepPart2(instruction: Direction) returns (ok: bool)
      modifies this
      ensures instructions == old(instructions)
      ensures ok <==> StepWide(State(old(grid), old(robot)), instruction).Some?
      ensures ok ==> StepWide(State(old(grid), old(robot)), instruction) == Some(State(grid, robot))
    {
      var next := Add(robot, Delta(instruction));
      var cell := At(grid, next);
      if cell.None? {
        return false;
      }
      if cell.value == '.' {
        robot := next;
      } else if IsPart(cell.value) {
        var boxes, blocked, found := BoxesToMove(grid, next, cell.value, instruction);
        if !found {
          return false;
        }
        if !blocked {
          var moved := MoveBoxes(boxes, instruction);
          if !moved {
            return false;
          }
          robot := next;
        }
      }
      return true;
    }

    /** Warehouse::run_instructions_part2; false where an index panics. */
    method RunInstructionsPart2() returns (ok: bool)
      modifies this
      ensures instructions == old(instructions)
      ensures ok <==> Run(DoubleWidth, State(old(grid), old(robot)), instructions).Some?
      ensures ok ==> Run(DoubleWidth, State(old(grid), old(robot)), instructions) == Some(State(grid, robot))
    {
      ghost var start := State(grid, robot);
      for i := 0 to |instructions|
        invariant instructions == old(instructions)
        invariant Run(DoubleWidth, start, instructions[..i]) == Some(State(grid, robot))
      {
        RunNext(DoubleWidth, start, instructions, i, State(grid, robot));
        var stepped := StepPart2(instructions[i]);
        if !stepped {
          RunPanicked(DoubleWidth, start, instructions, i + 1);
          return false;
        }
      }
      assert instructions[..|instructions|] == instructions;
      return true;
    }
  }

  /** The boxes run_instructions_part2 collects for a push from the half
      at next holding part, and whether the push is blocked; false where an
      index panics. */
  method BoxesToMove(g: Grid, next: Point, part: char, d: Direction) returns (boxes: seq<Point>, blocked: bool, ok: bool)
    requires At(g, next) == Some(part)
    ensures ok <==> Pushed(g, next, part, d).Some?
    ensures ok ==> Pushed(g, next, part, d) == Some((boxes, blocked))
  {
    if d == Left || d == Right {
      boxes, blocked, ok := SidewaysBoxes(g, next, part, d);
    } else {
      boxes, blocked, ok := UpDownBoxes(g, next, part, d);
    }
  }

  /** The while loop of a push to the left or right. */
  method SidewaysBoxes(g: Grid, next: Point, part: char, d: Direction) returns (boxes: seq<Point>, blocked: bool, ok: bool)
    requires At(g, next) == Some(part)
    requires d == Left || d == Right
    ensures ok <==> Pushed(g, next, part, d).Some?
    ensures ok ==> Pushed(g, next, part, d) == Some((boxes, blocked))
  {
    boxes := [next, OtherHalf(next, part)];
    blocked := false;
    var nextBox := Add(Add(next, Delta(d)), Delta(d));
    assert nextBox == Along(next, d, 2);
    ghost var first := boxes;
    ghost var found := [];
    ExtendNothing(ScanHalves(g, nextBox, d));
    while At(g, nextBox).Some? && IsPart(At(g, nextBox).value)
      invariant boxes == first + found
      invariant ScanHalves(g, Along(next, d, 2), d) == Extend(found, ScanHalves(g, nextBox, d))
      decreases Remaining(g, nextBox, d)
    {
      ExtendTwice(found, [nextBox], ScanHalves(g, Add(nextBox, Delta(d)), d));
      boxes := boxes + [nextBox];
      found := found + [nextBox];
      nextBox := Add(nextBox, Delta(d));
    }
    if At(g, nextBox).None? {
      return boxes, blocked, false;
    }
    assert found + [] == found;
    blocked := At(g, nextBox) == Some('#');
    return boxes, blocked, true;
  }

  /** The while loop of a push up or down, row by row. */
  method UpDownBoxes(g: Grid, next: Point, part: char, d: Direction) returns (boxes: seq<Point>, blocked: bool, ok: bool)
    requires At(g, next) == Some(part)
    requires d == Up || d == Down
    ensures ok <==> Pushed(g, next, part, d).Some?
    ensures ok ==> Pushed(g, next, part, d) == Some((boxes, blocked))
  {
    boxes := [next, OtherHalf(next, part)];
    blocked := false;
    var current := boxes;
    ghost var row := next.y;
    while current != [] && !blocked
      invariant !blocked ==> forall i :: 0 <= i < |current| ==> current[i].y == row
      invariant !blocked ==> current != [] ==> 0 <= row < |g|
      invariant Pushed(g, next, part, d) == if blocked then Some((boxes, true)) else Collect(g, current, d, boxes, row)
      decreases if d == Down then |g| - row else row + 1
    {
      var nextBoxes, more, wall, fine := NextRow(g, current, d, boxes);
      if !fine {
        return boxes, blocked, false;
      }
      if !wall {
        RoundRows(g, current, d, [], boxes, row);
      }
      boxes := more;
      blocked := wall;
      current := nextBoxes;
      row := row + Delta(d).y;
    }
    return boxes, blocked, true;
  }

  lemma ExtendNothing(r: Option<(seq<Point>, Point)>)
    ensures Extend([], r) == r
  {
    if r.Some? {
      assert [] + r.value.0 == r.value.0;
    }
  }

  lemma ExtendTwice(a: seq<Point>, b: seq<Point>, r: Option<(seq<Point>, Point)>)
    ensures Extend(a, Extend(b, r)) == Extend(a + b, r)
  {
    if r.Some? {
      assert a + (b + r.value.0) == (a + b) + r.value.0;
    }
  }

  /** The for loop over one row of halves of a push up or down; false where
      an index panics. */
  method NextRow(g: Grid, current: seq<Point>, d: Direction, boxes0: seq<Point>) returns (nextBoxes: seq<Point>, boxes: seq<Point>, blocked: bool, ok: bool)
    ensures ok <==> Round(g, current, d, [], boxes0).Some?
    ensures ok ==> Round(g, current, d, [], boxes0) == Some((nextBoxes, boxes, blocked))
  {
    nextBoxes := [];
    boxes := boxes0;
    blocked := false;
    for i := 0 to |current|
      invariant Round(g, current, d, [], boxes0) == Round(g, current[i..], d, nextBoxes, boxes)
    {
      assert current[i..][1..] == current[i + 1..];
      var nextBox := Add(current[i], Delta(d));
      var cell := At(g, nextBox);
      if cell.None? {
        return nextBoxes, boxes, blocked, false;
      }
      if cell.value == '#' {
        blocked := true;
        return nextBoxes, boxes, blocked, true;
      }
      if IsPart(cell.value) && nextBox !in nextBoxes {
        var other := OtherHalf(nextBox, cell.value);
        boxes := boxes + [nextBox, other];
        nextBoxes := nextBoxes + [nextBox, other];
      }
    }
    assert current[|current|..] == [];
    return nextBoxes, boxes, blocked, true;
  }

  /** part_one: read the warehouse, run the instructions and add up the
      boxes' GPS coordinates; None where an index panics. */
  method PartOne(lines: seq<string>, moves: string) returns (r: Option<int>)
    ensures r == Answer(Run(SingleWidth, State(ParseGrid(lines), StartRobot(lines)), Instructions(moves)), 'O')
  {
    var warehouse := new Warehouse(ParseGrid(lines), StartRobot(lines), Instructions(moves));
    var ok := warehouse.RunInstructions();
    if !ok {
      return None;
    }
    return Some(GpsSum(warehouse.grid, 'O'));
  }

  /** part_two: the same on the grid of to_part_2, adding up the left
      halves of the boxes. */
  method PartTwo(lines: seq<string>, moves: string) returns (r: Option<int>)
    ensures var robot := StartRobot(lines);
      r == Answer(Run(DoubleWidth, State(Widen(ParseGrid(lines)), Point(robot.x * 2, robot.y)), Instructions(moves)), '[')
  {
    var read := new Warehouse(ParseGrid(lines), StartRobot(lines), Instructions(moves));
    var warehouse := read.ToPart2();
    ghost var start := State(warehouse.grid, warehouse.robot);
    assert start == State(Widen(ParseGrid(lines)), Point(StartRobot(lines).x * 2, StartRobot(lines).y));
    var ok := warehouse.RunInstructionsPart2();
    ghost var run := Run(DoubleWidth, start, Instructions(moves));
    if !ok {
      assert run == None;
      return None;
    }
    assert run == Some(State(warehouse.grid, warehouse.robot));
    return Some(GpsSum(warehouse.grid, '['));
  }
}
