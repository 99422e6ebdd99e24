/**
  Pyroclastic Flow (2022, day 17), part one.  Rocks of five shapes fall in
  turn into a chamber seven cells wide.  Each step a jet of gas pushes the
  falling rock left or right (when nothing is in the way) and then the rock
  falls one row; when it cannot fall, it comes to rest and its cells become
  solid.  The chamber keeps one row of seven cells per level of the tower,
  and the answer is the number of rows after 2022 rocks.
*/
module PyroclasticFlow {
  import opened Prelude
  import opened Modular

  datatype Point = Point(x: int, y: int)

  function Add(a: Point, b: Point): Point
  {
    Point(a.x + b.x, a.y + b.y)
  }

  datatype Movement = Down | Left | Right

  /** A rock shape: its cells relative to its lower left corner, and its
      largest y. */
  datatype Block = Block(points: seq<Point>, height: int)

  // ---------------------------------------------------------------------
  // Blocks

  /** The largest y among points[i..]. */
  function MaxYFrom(points: seq<Point>, i: nat): int
    requires i < |points|
    decreases |points| - i
  {
    if i == |points| - 1 then points[i].y
    else
      var m := MaxYFrom(points, i + 1);
      if points[i].y >= m then points[i].y else m
  }

  lemma {:induction false} MaxYFromSpec(points: seq<Point>, i: nat)
    requires i < |points|
    ensures var m := MaxYFrom(points, i);
      (exists j :: i <= j < |points| && points[j].y == m)
      && forall j :: i <= j < |points| ==> points[j].y <= m
    decreases |points| - i
  {
    if i < |points| - 1 {
      MaxYFromSpec(points, i + 1);
      if points[i].y < MaxYFrom(points, i + 1) {
        var j :| i + 1 <= j < |points| && points[j].y == MaxYFrom(points, i + 1);
        assert points[j].y == MaxYFrom(points, i);
      } else {
        assert points[i].y == MaxYFrom(points, i);
      }
    } else {
      assert points[i].y == MaxYFrom(points, i);
    }
  }

  /** Block::new: the height is the largest y of the points; the unwrap of
      the maximum panics (None) when there are no points. */
  function NewBlock(points: seq<Point>): (r: Option<Block>)
    ensures r.None? <==> |points| == 0
    ensures r.Some? ==> r.value.points == points
    ensures r.Some? ==> exists j :: 0 <= j < |points| && points[j].y == r.value.height
    ensures r.Some? ==> forall j :: 0 <= j < |points| ==> points[j].y <= r.value.height
  {
    if |points| == 0 then None
    else
      MaxYFromSpec(points, 0);
      Some(Block(points, MaxYFrom(points, 0)))
  }

  /** A block the chamber can drop: at least one cell, every cell at x in
      0..4 (so it fits at x offset 2) and at y in 0..height. */
  ghost predicate Fits(b: Block)
  {
    |b.points| > 0
    && forall j :: 0 <= j < |b.points| ==> 0 <= b.points[j].x <= 4 && 0 <= b.points[j].y <= b.height
  }

  /** The cells of the five rock shapes, in falling order: line, plus, L,
      column, box. */
  function Shapes(): (r: seq<seq<Point>>)
    ensures |r| == 5
  {
    [ [Point(0, 0), Point(1, 0), Point(2, 0), Point(3, 0)],
      [Point(1, 0), Point(0, 1), Point(1, 1), Point(2, 1), Point(1, 2)],
      [Point(0, 0), Point(1, 0), Point(2, 0), Point(2, 1), Point(2, 2)],
      [Point(0, 0), Point(0, 1), Point(0, 2), Point(0, 3)],
      [Point(0, 0), Point(1, 0), Point(0, 1), Point(1, 1)] ]
  }

  /** The five blocks built from the shapes. */
  function Blocks(): (r: seq<Block>)
    ensures |r| == 5
  {
    seq(5, i requires 0 <= i < 5 => NewBlock(Shapes()[i]).value)
  }

  /** A shape whose cells lie in columns 0..4, at y between 0 and h, with
      some cell at y h, makes a block of height h that fits. */
  lemma ShapeFits(points: seq<Point>, h: int, top: nat)
    requires top < |points| && points[top].y == h
    requires forall j :: 0 <= j < |points| ==> 0 <= points[j].x <= 4 && 0 <= points[j].y <= h
    ensures NewBlock(points).Some? && NewBlock(points).value.height == h && Fits(NewBlock(points).value)
  {
    var b := NewBlock(points).value;
    var j :| 0 <= j < |points| && points[j].y == b.height;
    assert points[top].y <= b.height;
  }

  /** Shape i makes a block of height h that fits. */
  lemma BlockFits(i: nat, h: int, top: nat)
    requires i < 5 && top < |Shapes()[i]| && Shapes()[i][top].y == h
    requires forall j :: 0 <= j < |Shapes()[i]| ==> 0 <= Shapes()[i][j].x <= 4 && 0 <= Shapes()[i][j].y <= h
    ensures Blocks()[i].height == h && Fits(Blocks()[i])
  {
    ShapeFits(Shapes()[i], h, top);
  }

  /** The line is one row high: height 0. */
  lemma LineFits()
    ensures Blocks()[0].height == 0 && Fits(Blocks()[0])
  {
    BlockFits(0, 0, 0);
  }

  /** The plus: height 2. */
  lemma PlusFits()
    ensures Blocks()[1].height == 2 && Fits(Blocks()[1])
  {
    BlockFits(1, 2, 4);
  }

  /** The L: height 2. */
  lemma CornerFits()
    ensures Blocks()[2].height == 2 && Fits(Blocks()[2])
  {
    BlockFits(2, 2, 4);
  }

  /** The column: height 3. */
  lemma ColumnFits()
    ensures Blocks()[3].height == 3 && Fits(Blocks()[3])
  {
    BlockFits(3, 3, 3);
  }

  /** The box: height 1. */
  lemma BoxFits()
    ensures Blocks()[4].height == 1 && Fits(Blocks()[4])
  {
    BlockFits(4, 1, 2);
  }

  /** Every shape fits the chamber. */
  lemma BlocksFit(i: nat)
    requires i < 5
    ensures Fits(Blocks()[i])
  {
    if i == 0 { LineFits(); }
    else if i == 1 { PlusFits(); }
    else if i == 2 { CornerFits(); }
    else if i == 3 { ColumnFits(); }
    else { BoxFits(); }
  }

  // ---------------------------------------------------------------------
  // Collisions

  /** Every row has the chamber's seven cells. */
  ghost predicate Rows(cells: seq<seq<bool>>)
  {
    forall y :: 0 <= y < |cells| ==> |cells[y]| == 7
  }

  /** A cell is blocked when it is outside the walls or the floor, or is a
      solid cell of a materialized row. */
  predicate Blocked(cells: seq<seq<bool>>, x: int, y: int)
  {
    x < 0 || x >= 7 || y < 0 || (y < |cells| && x < |cells[y]| && cells[y][x])
  }

  /** Some cell of points[i..], placed at `at`, is blocked. */
  function AnyBlocked(cells: seq<seq<bool>>, points: seq<Point>, at: Point, i: nat): bool
    requires i <= |points|
    decreases |points| - i
  {
    if i == |points| then false
    else Blocked(cells, points[i].x + at.x, points[i].y + at.y) || AnyBlocked(cells, points, at, i + 1)
  }

  lemma {:induction false} AnyBlockedSpec(cells: seq<seq<bool>>, points: seq<Point>, at: Point, i: nat)
    requires i <= |points|
    ensures AnyBlocked(cells, points, at, i) <==> exists j :: i <= j < |points| && Blocked(cells, points[j].x + at.x, points[j].y + at.y)
    decreases |points| - i
  {
    if i < |points| {
      AnyBlockedSpec(cells, points, at, i + 1);
    }
  }

  /** The position one move away. */
  function Moved(pos: Point, movement: Movement): Point
  {
    match movement
    case Down => Point(pos.x, pos.y - 1)
    case Left => Point(pos.x - 1, pos.y)
    case Right => Point(pos.x + 1, pos.y)
  }

  /** has_collision on the materialized rows `cells`. */
  function Collides(cells: seq<seq<bool>>, block: Block, pos: Point, movement: Movement): bool
  {
    AnyBlocked(cells, block.points, Moved(pos, movement), 0)
  }

  /** No cell of the block at `pos` is blocked. */
  predicate Free(cells: seq<seq<bool>>, block: Block, pos: Point)
  {
    !AnyBlocked(cells, block.points, pos, 0)
  }

  /** has_collision is true exactly when some cell of the moved block is
      left of the wall, right of the wall, below the floor or on a solid
      cell. */
  lemma CollidesIff(cells: seq<seq<bool>>, block: Block, pos: Point, movement: Movement)
    ensures Collides(cells, block, pos, movement) <==>
      exists j :: 0 <= j < |block.points| &&
        var x, y := block.points[j].x + Moved(pos, movement).x, block.points[j].y + Moved(pos, movement).y;
        x < 0 || x >= 7 || y < 0 || (y < |cells| && x < |cells[y]| && cells[y][x])
  {
    AnyBlockedSpec(cells, block.points, Moved(pos, movement), 0);
  }

  /** The has_collision test cases: a line block over the row ..#....;
      moving down from (2, 1) hits the solid cell, from (2, 2) or (3, 1)
      it does not, and from (3, 0) both a move left and a move down hit. */
  lemma CollisionExamples()
    ensures var cells, line := [[false, false, true, false, false, false, false]], Blocks()[0];
      Collides(cells, line, Point(2, 1), Down)
      && !Collides(cells, line, Point(2, 2), Down)
      && !Collides(cells, line, Point(3, 1), Down)
      && Collides(cells, line, Point(3, 0), Left)
      && Collides(cells, line, Point(3, 0), Down)
  {
    var cells := [[false, false, true, false, false, false, false]];
    var line := Blocks()[0];
    assert line == Block([Point(0, 0), Point(1, 0), Point(2, 0), Point(3, 0)], 0);
    assert AnyBlocked(cells, line.points, Point(2, 0), 0);
    assert AnyBlocked(cells, line.points, Point(2, -1), 0);
    assert AnyBlocked(cells, line.points, Point(3, -1), 0);
    assert !AnyBlocked(cells, line.points, Point(2, 1), 0);
    assert !AnyBlocked(cells, line.points, Point(3, 0), 0);
  }

  // ---------------------------------------------------------------------
  // Materializing a block

  /** The cells of a block placed at `pos`. */
  function Placed(block: Block, pos: Point): (r: seq<Point>)
    ensures |r| == |block.points| && forall j :: 0 <= j < |r| ==> r[j] == Add(block.points[j], pos)
  {
    seq(|block.points|, j requires 0 <= j < |block.points| => Add(block.points[j], pos))
  }

  /** The rows after materializing: enough rows to hold the block's top row,
      and a cell is solid when it was solid before or is a cell of the block. */
  function Place(cells: seq<seq<bool>>, block: Block, pos: Point): (r: seq<seq<bool>>)
    ensures |r| == Max(|cells|, block.height + pos.y + 1) && Rows(r)
  {
    seq(Max(|cells|, block.height + pos.y + 1), y requires 0 <= y =>
      seq(7, x requires 0 <= x => (y < |cells| && x < |cells[y]| && cells[y][x]) || Point(x, y) in Placed(block, pos)))
  }

  /** Materializing keeps every solid cell, makes every cell of the block
      solid, and makes no other cell solid. */
  lemma PlaceCells(cells: seq<seq<bool>>, block: Block, pos: Point)
    requires Rows(cells) && Free(cells, block, pos) && forall j :: 0 <= j < |block.points| ==> block.points[j].y <= block.height
    ensures var r := Place(cells, block, pos);
      (forall y, x :: 0 <= y < |cells| && 0 <= x < 7 && cells[y][x] ==> r[y][x])
      && (forall j :: 0 <= j < |block.points| ==>
            var c := Add(block.points[j], pos); 0 <= c.y < |r| && 0 <= c.x < 7 && r[c.y][c.x])
      && (forall y, x :: 0 <= y < |r| && 0 <= x < 7 && r[y][x] && !(y < |cells| && cells[y][x]) ==>
            exists j :: 0 <= j < |block.points| && Add(block.points[j], pos) == Point(x, y))
  {
    var r := Place(cells, block, pos);
    FreeInside(cells, block, pos);
    forall j | 0 <= j < |block.points|
      ensures var c := Add(block.points[j], pos); 0 <= c.y < |r| && 0 <= c.x < 7 && r[c.y][c.x]
    {
      var c := Add(block.points[j], pos);
      assert Placed(block, pos)[j] == c;
    }
    forall y, x | 0 <= y < |r| && 0 <= x < 7 && r[y][x] && !(y < |cells| && cells[y][x])
      ensures exists j :: 0 <= j < |block.points| && Add(block.points[j], pos) == Point(x, y)
    {
      assert Point(x, y) in Placed(block, pos);
    }
  }

  // ---------------------------------------------------------------------
  // Dropping a block

  /** Where a falling block comes to rest, and the jet clock after it. */
  datatype Landing = Landing(pos: Point, time: nat, pushes: nat)

  /** No movement of the jet stream is Down: the parser only emits Left
      and Right. */
  ghost predicate Jets(jets: seq<Movement>)
  {
    forall i :: 0 <= i < |jets| ==> jets[i] != Down
  }

  /** The next jet index, (t + 1) mod n, without the division. */
  function NextJet(t: nat, n: nat): (r: nat)
    requires t < n
    ensures r < n && r == (t + 1) % n
  {
    if t + 1 < n then ModSmall(t + 1, n); t + 1
    else ModSmall(0, n); ModAddMul(0, 1, n); 0
  }

  /** The jet push, when it is free; otherwise the block stays. */
  function Push(cells: seq<seq<bool>>, block: Block, pos: Point, movement: Movement): (r: Point)
    requires Free(cells, block, pos)
    ensures Free(cells, block, r)
  {
    if !Collides(cells, block, pos, movement) then Moved(pos, movement) else pos
  }

  /** The drop_block loop from a free position at jet time t: push if the
      push is free, fall if the fall is free, otherwise stop. */
  function Fall(cells: seq<seq<bool>>, jets: seq<Movement>, t: nat, block: Block, pos: Point): (r: Landing)
    requires t < |jets| && |block.points| > 0 && Free(cells, block, pos)
    ensures Free(cells, block, r.pos) && Collides(cells, block, r.pos, Down)
    ensures r.time < |jets| && r.pushes >= 1
    decreases pos.y + block.points[0].y
  {
    assert !Blocked(cells, block.points[0].x + pos.x, block.points[0].y + pos.y);
    var pos' := Push(cells, block, pos, jets[t]);
    if !Collides(cells, block, pos', Down) then
      var l := Fall(cells, jets, NextJet(t, |jets|), block, Moved(pos', Down));
      Landing(l.pos, l.time, l.pushes + 1)
    else
      Landing(pos', NextJet(t, |jets|), 1)
  }

  /** Each push advances the jet clock by one, modulo the stream length. */
  lemma {:induction false} FallTime(cells: seq<seq<bool>>, jets: seq<Movement>, t: nat, block: Block, pos: Point)
    requires t < |jets| && |block.points| > 0 && Free(cells, block, pos)
    ensures var l := Fall(cells, jets, t, block, pos); l.time == (t + l.pushes) % |jets|
    decreases pos.y + block.points[0].y
  {
    assert !Blocked(cells, block.points[0].x + pos.x, block.points[0].y + pos.y);
    var n := |jets|;
    var t' := NextJet(t, n);
    var pos' := Push(cells, block, pos, jets[t]);
    if !Collides(cells, block, pos', Down) {
      var l := Fall(cells, jets, t', block, Moved(pos', Down));
      FallTime(cells, jets, t', block, Moved(pos', Down));
      if t + 1 == n {
        ModAddMul(l.pushes, 1, n);
      }
    }
  }

  /** One round of the drop_block loop when the pushed block can fall: the
      landing is that of the block one row lower at the next jet. */
  lemma FallContinues(cells: seq<seq<bool>>, jets: seq<Movement>, t: nat, block: Block, pos: Point)
    requires t < |jets| && |block.points| > 0 && Free(cells, block, pos)
    requires !Collides(cells, block, Push(cells, block, pos, jets[t]), Down)
    ensures var next := Fall(cells, jets, NextJet(t, |jets|), block, Moved(Push(cells, block, pos, jets[t]), Down));
      Fall(cells, jets, t, block, pos).pos == next.pos && Fall(cells, jets, t, block, pos).time == next.time
  {
    assert !Blocked(cells, block.points[0].x + pos.x, block.points[0].y + pos.y);
  }

  /** The last round of the drop_block loop: when the pushed block cannot
      fall, it rests where the push left it, at the next jet. */
  lemma FallStops(cells: seq<seq<bool>>, jets: seq<Movement>, t: nat, block: Block, pos: Point)
    requires t < |jets| && |block.points| > 0 && Free(cells, block, pos)
    requires Collides(cells, block, Push(cells, block, pos, jets[t]), Down)
    ensures Fall(cells, jets, t, block, pos).pos == Push(cells, block, pos, jets[t])
    ensures Fall(cells, jets, t, block, pos).time == NextJet(t, |jets|)
  {
    assert !Blocked(cells, block.points[0].x + pos.x, block.points[0].y + pos.y);
  }

  /** The tower after n + 1 blocks is the tower after n with block n
      dropped. */
  lemma TowersNext(jets: seq<Movement>, n: nat)
    requires |jets| > 0
    ensures Fits(Blocks()[n % 5])
    ensures Towers(jets, n + 1) == Drop(Towers(jets, n).cells, jets, Towers(jets, n).time, Blocks()[n % 5])
  {
    BlocksFit(n % 5);
  }

  /** A block always falls into contact: it comes to rest no higher than
      the top of the tower, and never above where it started. */
  lemma {:induction false} FallLands(cells: seq<seq<bool>>, jets: seq<Movement>, t: nat, block: Block, pos: Point)
    requires t < |jets| && Fits(block) && Free(cells, block, pos)
    ensures Fall(cells, jets, t, block, pos).pos.y <= pos.y
    ensures pos.y <= |cells| ==> Fall(cells, jets, t, block, pos).pos.y <= |cells|
    ensures pos.y > |cells| ==> Fall(cells, jets, t, block, pos).pos.y <= |cells|
    decreases pos.y + block.points[0].y
  {
    assert !Blocked(cells, block.points[0].x + pos.x, block.points[0].y + pos.y);
    var pos' := Push(cells, block, pos, jets[t]);
    assert pos'.y <= pos.y;
    if !Collides(cells, block, pos', Down) {
      FallLands(cells, jets, NextJet(t, |jets|), block, Moved(pos', Down));
    } else {
      FreeInside(cells, block, pos');
      AnyBlockedSpec(cells, block.points, Moved(pos', Down), 0);
    }
  }

  /** A block that fits starts free at x 2, three rows above the tower. */
  lemma StartFree(cells: seq<seq<bool>>, block: Block)
    requires Fits(block)
    ensures Free(cells, block, Point(2, |cells| + 3))
  {
    var pos := Point(2, |cells| + 3);
    AnyBlockedSpec(cells, block.points, pos, 0);
    forall j | 0 <= j < |block.points|
      ensures !Blocked(cells, block.points[j].x + pos.x, block.points[j].y + pos.y)
    {
    }
  }

  /** A free position of a fitting block keeps every cell inside the
      chamber's walls and above its floor. */
  lemma FreeInside(cells: seq<seq<bool>>, block: Block, pos: Point)
    requires Free(cells, block, pos)
    ensures forall j :: 0 <= j < |block.points| ==>
      0 <= Add(block.points[j], pos).x < 7 && 0 <= Add(block.points[j], pos).y
  {
    AnyBlockedSpec(cells, block.points, pos, 0);
  }

  // ---------------------------------------------------------------------
  // Dropping many blocks

  /** The chamber's rows and jet clock. */
  datatype Tower = Tower(cells: seq<seq<bool>>, time: nat)

  /** drop_block on values: the block falls from x 2, three rows above the
      tower, and is materialized where it comes to rest. */
  function Drop(cells: seq<seq<bool>>, jets: seq<Movement>, t: nat, block: Block): (r: Tower)
    requires Rows(cells) && t < |jets| && Fits(block)
    ensures Rows(r.cells) && r.time < |jets|
  {
    StartFree(cells, block);
    var l := Fall(cells, jets, t, block, Point(2, |cells| + 3));
    Tower(Place(cells, block, l.pos), l.time)
  }

  /** A dropped block never lowers the tower and raises it by at most its
      own height plus one. */
  lemma DropGrowth(cells: seq<seq<bool>>, jets: seq<Movement>, t: nat, block: Block)
    requires Rows(cells) && t < |jets| && Fits(block)
    ensures |cells| <= |Drop(cells, jets, t, block).cells| <= |cells| + block.height + 1
  {
    StartFree(cells, block);
    FallLands(cells, jets, t, block, Point(2, |cells| + 3));
  }

  /** The chamber after the first n blocks of the cycle line, plus, L,
      column, box, line, ... have fallen into an empty chamber. */
  function Towers(jets: seq<Movement>, n: nat): (r: Tower)
    requires |jets| > 0
    ensures Rows(r.cells) && r.time < |jets|
  {
    if n == 0 then Tower([], 0)
    else
      var prev := Towers(jets, n - 1);
      BlocksFit((n - 1) % 5);
      Drop(prev.cells, jets, prev.time, Blocks()[(n - 1) % 5])
  }

  /** The height never decreases, and each block adds at most four rows. */
  lemma {:induction false} TowersHeight(jets: seq<Movement>, n: nat)
    requires |jets| > 0
    ensures |Towers(jets, n).cells| <= 4 * n
    ensures n > 0 ==> |Towers(jets, n - 1).cells| <= |Towers(jets, n).cells|
  {
    if n > 0 {
      TowersHeight(jets, n - 1);
      var prev := Towers(jets, n - 1);
      var i := (n - 1) % 5;
      BlocksFit(i);
      DropGrowth(prev.cells, jets, prev.time, Blocks()[i]);
      if i == 0 { LineFits(); }
      else if i == 1 { PlusFits(); }
      else if i == 2 { CornerFits(); }
      else if i == 3 { ColumnFits(); }
      else { BoxFits(); }
    }
  }

  // ---------------------------------------------------------------------
  // Parsing the jet stream

  /** char::is_whitespace: the characters with Unicode's White_Space
      property. */
  predicate IsWhitespace(c: char)
  {
    ('\t' <= c <= '\r') || c == ' ' || c == '\U{0085}' || c == '\U{00A0}' || c == '\U{1680}'
    || ('\U{2000}' <= c <= '\U{200A}') || c == '\U{2028}' || c == '\U{2029}' || c == '\U{202F}'
    || c == '\U{205F}' || c == '\U{3000}'
  }

  /** The jet stream of Chamber::from_str: whitespace is skipped, '<' is a
      push left, '>' a push right, and any other character panics (None). */
  function ParseJets(input: string): (r: Option<seq<Movement>>)
    ensures r.None? <==> exists i :: 0 <= i < |input| && !IsWhitespace(input[i]) && input[i] != '<' && input[i] != '>'
    ensures r.Some? ==> Jets(r.value) && |r.value| <= |input|
  {
    if input == [] then Some([])
    else
      var rest := ParseJets(input[1..]);
      assert forall i :: 1 <= i < |input| ==> input[i] == input[1..][i - 1];
      if IsWhitespace(input[0]) then rest
      else if input[0] != '<' && input[0] != '>' then None
      else if rest.None? then None
      else Some([if input[0] == '<' then Left else Right] + rest.value)
  }

  /** The text of a jet stream. */
  function JetText(jets: seq<Movement>): (r: string)
    requires Jets(jets)
    ensures |r| == |jets|
  {
    if jets == [] then "" else [if jets[0] == Left then '<' else '>'] + JetText(jets[1..])
  }

  /** Reading the text of a jet stream, with or without the trailing
      newline of the input file, gives the stream back. */
  lemma {:induction false} ParseJetText(jets: seq<Movement>)
    requires Jets(jets)
    ensures ParseJets(JetText(jets)) == Some(jets)
    ensures ParseJets(JetText(jets) + "\n") == Some(jets)
  {
    if jets == [] {
      assert ParseJets("\n") == ParseJets("");
    } else {
      ParseJetText(jets[1..]);
      var text := JetText(jets);
      assert text[1..] == JetText(jets[1..]);
      assert (text + "\n")[1..] == JetText(jets[1..]) + "\n";
      assert jets == [jets[0]] + jets[1..];
    }
  }

  /** Whitespace alone gives an empty jet stream, pushes are read in order,
      and an unknown character panics. */
  lemma ParseExamples()
    ensures ParseJets(" \n") == Some([])
    ensures ParseJets("<>") == Some([Left, Right])
    ensures ParseJets("<x>").None?
  {
    var space, pushes, bad := " \n", "<>", "<x>";
    assert IsWhitespace(space[0]) && IsWhitespace(space[1]);
    assert space[1..][1..] == [];
    assert ParseJets(space[1..]) == Some([]);
    assert pushes[0] == '<' && pushes[1..][0] == '>' && pushes[1..][1..] == [];
    assert !IsWhitespace(pushes[0]) && !IsWhitespace(pushes[1..][0]);
    assert ParseJets(pushes[1..]) == Some([Right] + []);
    assert [Right] + [] == [Right];
    assert ParseJets(pushes) == Some([Left] + [Right]);
    assert [Left] + [Right] == [Left, Right];
    assert !IsWhitespace(bad[1]) && bad[1] == 'x';
  }

  // ---------------------------------------------------------------------
  // The chamber

  class Chamber {
    /** One row of seven cells per level, from the floor up. */
    var materialized: seq<seq<bool>>
    var jetStream: seq<Movement>
    /** The index of the next jet. */
    var time: nat

    ghost predicate Valid()
      reads this
    {
      Rows(materialized) && Jets(jetStream) && (time == 0 || time < |jetStream|)
    }

    /** An empty chamber with the jet stream and the clock at 0. */
    constructor (jets: seq<Movement>)
      requires Jets(jets)
      ensures Valid() && materialized == [] && jetStream == jets && time == 0
    {
      materialized := [];
      jetStream := jets;
      time := 0;
    }

    /** has_collision: some cell of the block, moved one step from `pos`,
        is outside the walls or the floor or on a solid cell. */
    function HasCollision(block: Block, pos: Point, movement: Movement): (r: bool)
      reads this
      ensures r == Collides(materialized, block, pos, movement)
    {
      Collides(materialized, block, pos, movement)
    }

    /** The first half of materialize: push empty rows until row topRow
        exists. */
    method GrowTo(topRow: int)
      requires Valid()
      modifies this
      ensures Valid() && jetStream == old(jetStream) && time == old(time)
      ensures |materialized| == Max(|old(materialized)|, topRow + 1)
      ensures materialized[..|old(materialized)|] == old(materialized)
      ensures forall y :: |old(materialized)| <= y < |materialized| ==> materialized[y] == seq(7, x => false)
    {
      ghost var cells := materialized;
      while |materialized| <= topRow
        invariant Valid() && |cells| <= |materialized| <= Max(|cells|, topRow + 1)
        invariant materialized[..|cells|] == cells
        invariant forall y :: |cells| <= y < |materialized| ==> materialized[y] == seq(7, x => false)
        invariant jetStream == old(jetStream) && time == old(time)
        decreases topRow + 1 - |materialized|
      {
        materialized := materialized + [seq(7, x => false)];
      }
    }

    /** The second half of materialize: make each cell of the block at
        `pos` solid. */
    method SetCells(block: Block, pos: Point)
      requires Valid()
      requires forall j :: 0 <= j < |block.points| ==>
        0 <= Add(block.points[j], pos).x < 7 && 0 <= Add(block.points[j], pos).y < |materialized|
      modifies this
      ensures Valid() && jetStream == old(jetStream) && time == old(time)
      ensures |materialized| == |old(materialized)|
      ensures forall y, x :: 0 <= y < |materialized| && 0 <= x < 7 ==>
        materialized[y][x] == (old(materialized)[y][x] || Point(x, y) in Placed(block, pos))
    {
      ghost var cells := materialized;
      var i := 0;
      while i < |block.points|
        invariant i <= |block.points| && Valid() && |materialized| == |cells|
        invariant forall y, x :: 0 <= y < |materialized| && 0 <= x < 7 ==>
          materialized[y][x] == (cells[y][x] || Point(x, y) in Placed(block, pos)[..i])
        invariant jetStream == old(jetStream) && time == old(time)
      {
        var p := Add(block.points[i], pos);
        assert Placed(block, pos)[..i + 1] == Placed(block, pos)[..i] + [p];
        materialized := materialized[p.y := materialized[p.y][p.x := true]];
        i := i + 1;
      }
      assert Placed(block, pos)[..i] == Placed(block, pos);
    }

    /** materialize: push empty rows until the block's top row exists, then
        make each of its cells solid. */
    method Materialize(block: Block, pos: Point)
      requires Valid() && Fits(block) && Free(materialized, block, pos)
      modifies this
      ensures Valid() && materialized == Place(old(materialized), block, pos)
      ensures jetStream == old(jetStream) && time == old(time)
    {
      FreeInside(materialized, block, pos);
      ghost var cells := materialized;
      var topRow := block.height + pos.y;
      GrowTo(topRow);
      ghost var grown := materialized;
      SetCells(block, pos);
      ghost var r := Place(cells, block, pos);
      forall y | 0 <= y < |r|
        ensures materialized[y] == r[y]
      {
        assert |materialized[y]| == 7 == |r[y]|;
        forall x | 0 <= x < 7
          ensures materialized[y][x] == r[y][x]
        {
          if y < |cells| {
            assert grown[y] == cells[y];
          }
        }
      }
    }

    /** The loop of drop_block: from a free position, push and fall until
        the block cannot fall, advancing the jet clock once per push. */
    method Settle(block: Block, start: Point) returns (blockPosition: Point)
      requires Valid() && |jetStream| > 0 && |block.points| > 0 && Free(materialized, block, start)
      modifies this
      ensures Valid() && jetStream == old(jetStream) && materialized == old(materialized)
      ensures var l := Fall(materialized, jetStream, old(time), block, start);
        time == l.time && blockPosition == l.pos
    {
      blockPosition := start;
      ghost var cells, jets := materialized, jetStream;
      assert Rows(cells) && Jets(jets);
      ghost var landing := Fall(cells, jets, time, block, blockPosition);
      while true
        invariant materialized == cells && jetStream == jets && time < |jets|
        invariant Free(cells, block, blockPosition)
        invariant Fall(cells, jets, time, block, blockPosition).pos == landing.pos
        invariant Fall(cells, jets, time, block, blockPosition).time == landing.time
        decreases blockPosition.y + block.points[0].y
      {
        ghost var t0, p0 := time, blockPosition;
        assert !Blocked(cells, block.points[0].x + p0.x, block.points[0].y + p0.y);
        var movement := jetStream[time];
        assert movement == Left || movement == Right;
        time := (time + 1) % |jetStream|;
        assert time == NextJet(t0, |jets|);
        if !HasCollision(block, blockPosition, movement) {
          blockPosition := Point(blockPosition.x + if movement == Movement.Left then -1 else 1, blockPosition.y);
        }
        ghost var p1 := Push(cells, block, p0, movement);
        assert blockPosition == p1;
        if !HasCollision(block, blockPosition, Down) {
          blockPosition := Point(blockPosition.x, blockPosition.y - 1);
          assert blockPosition == Moved(p1, Down);
          FallContinues(cells, jets, t0, block, p0);
        } else {
          FallStops(cells, jets, t0, block, p0);
          assert blockPosition == landing.pos && time == landing.time;
          break;
        }
      }
    }

    /** drop_block: start at x 2, three rows above the tower, and alternate
        jet pushes and falls until the block cannot fall; then materialize. */
    method DropBlock(block: Block)
      requires Valid() && |jetStream| > 0 && Fits(block)
      modifies this
      ensures Valid() && jetStream == old(jetStream)
      ensures Tower(materialized, time) == Drop(old(materialized), jetStream, old(time), block)
    {
      StartFree(materialized, block);
      var blockPosition := Settle(block, Point(2, |materialized| + 3));
      Materialize(block, blockPosition);
    }
  }

  /** part_one: parse the jets, drop 2022 blocks cycling through the five
      shapes, and report the number of rows.  A bad character panics in the
      parser, and an empty stream panics at its first index (None). */
  method PartOne(input: string) returns (r: Option<nat>)
    ensures r.Some? <==> ParseJets(input).Some? && |ParseJets(input).value| > 0
    ensures r.Some? ==> r.value == |Towers(ParseJets(input).value, 2022).cells| && r.value <= 8088
  {
    var parsed := ParseJets(input);
    if parsed.None? || |parsed.value| == 0 {
      return None;
    }
    var jets := parsed.value;
    var chamber := new Chamber(jets);
    for i := 0 to 2022
      invariant chamber.Valid() && chamber.jetStream == jets
      invariant chamber.materialized == Towers(jets, i).cells && chamber.time == Towers(jets, i).time
    {
      TowersNext(jets, i);
      chamber.DropBlock(Blocks()[i % 5]);
    }
    TowersHeight(jets, 2022);
    return Some(|chamber.materialized|);
  }
}
