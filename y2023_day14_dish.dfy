/** The parabolic reflector dish of 2023 day 14: a grid of empty cells '.',
    cube-shaped blocks '#' that never move and rounded rocks 'O' that roll
    when the dish is tilted, and the load the rocks put on its north side. */
module ParabolicDish {
  import opened Prelude

  /** The three things a cell of the dish can hold. */
  datatype Tile = Empty | Block | Rock

  /** Number of rounded rocks on a line. */
  function RockCount(s: seq<Tile>): (r: nat)
    ensures r <= |s|
  {
    if s == [] then 0 else RockCount(s[..|s|-1]) + (if s[|s|-1] == Rock then 1 else 0)
  }

  lemma RockCountSnoc(s: seq<Tile>, t: Tile)
    ensures RockCount(s + [t]) == RockCount(s) + (if t == Rock then 1 else 0)
  {
    assert (s + [t])[..|s|] == s;
  }

  /** Turning one empty cell into a rock adds one rock. */
  lemma {:induction false} RockCountPlace(s: seq<Tile>, i: nat)
    requires i < |s| && s[i] == Empty
    ensures RockCount(s[i := Rock]) == RockCount(s) + 1
    decreases |s|
  {
    var p := s[..|s|-1];
    assert s[i := Rock][..|s|-1] == if i == |s| - 1 then p else p[i := Rock];
    if i < |s| - 1 {
      RockCountPlace(p, i);
    }
  }

  /**
   * Where the next rock of `s` comes to rest when `s` is tilted towards index 0:
   * the moving cursor of the tilt loops. A block moves it just past the block,
   * a rock that has come to rest moves it on by one.
   */
  function Top(s: seq<Tile>): (r: nat)
    ensures r <= |s|
  {
    if s == [] then 0
    else match s[|s|-1]
      case Block => |s|
      case Rock => Top(s[..|s|-1]) + 1
      case Empty => Top(s[..|s|-1])
  }

  /**
   * The line `s` after tilting it towards index 0, cell by cell as the tilt
   * loops visit it: a rock is lifted from its cell and put down at the cursor.
   */
  function Settle(s: seq<Tile>): (r: seq<Tile>)
    ensures |r| == |s|
  {
    if s == [] then []
    else
      var p := s[..|s|-1];
      if s[|s|-1] == Rock then (Settle(p) + [Empty])[Top(p) := Rock] else Settle(p) + [s[|s|-1]]
  }

  lemma SettleSnoc(s: seq<Tile>, t: Tile)
    ensures Top(s + [t]) == match t case Block => |s| + 1 case Rock => Top(s) + 1 case Empty => Top(s)
    ensures t != Rock ==> Settle(s + [t]) == Settle(s) + [t]
    ensures t == Rock ==> Settle(s + [t]) == (Settle(s) + [Empty])[Top(s) := Rock]
  {
    assert (s + [t])[..|s|] == s;
  }

  /** No empty cell lies directly in front of a rock: every rock has rolled as far as it can. */
  ghost predicate Settled(r: seq<Tile>)
  {
    forall i :: 0 < i < |r| && r[i] == Rock ==> r[i-1] != Empty
  }

  /**
   * Where the cursor stands in the tilted line: the cells from the cursor on
   * are empty, the cell before it is not, and every block lies before it.
   */
  lemma {:induction false} CursorShape(s: seq<Tile>)
    ensures forall i :: Top(s) <= i < |s| ==> Settle(s)[i] == Empty
    ensures Top(s) > 0 ==> Settle(s)[Top(s) - 1] != Empty
    ensures forall i :: 0 <= i < |s| && s[i] == Block ==> i < Top(s)
    decreases |s|
  {
    if s != [] {
      var p := s[..|s|-1];
      var t := s[|s|-1];
      assert s == p + [t];
      CursorShape(p);
      SettleSnoc(p, t);
      forall i | 0 <= i < |s| && s[i] == Block
        ensures i < Top(s)
      {
        if i < |p| {
          assert p[i] == Block;
        }
      }
    }
  }

  /** Tilting leaves every block where it is and never puts a block anywhere else. */
  lemma {:induction false} SettleBlocks(s: seq<Tile>)
    ensures forall i :: 0 <= i < |s| ==> (Settle(s)[i] == Block <==> s[i] == Block)
    decreases |s|
  {
    if s != [] {
      var p := s[..|s|-1];
      var t := s[|s|-1];
      assert s == p + [t];
      SettleBlocks(p);
      SettleSnoc(p, t);
      CursorShape(p);
      forall i | 0 <= i < |s|
        ensures Settle(s)[i] == Block <==> s[i] == Block
      {
        if i < |p| {
          assert s[i] == p[i];
          if t == Rock && i == Top(p) {
            assert Settle(p)[i] == Empty;
          }
        }
      }
    }
  }

  /** After tilting, no rock has an empty cell in front of it. */
  lemma {:induction false} SettleSettles(s: seq<Tile>)
    ensures Settled(Settle(s))
    decreases |s|
  {
    if s != [] {
      var p := s[..|s|-1];
      var t := s[|s|-1];
      assert s == p + [t];
      SettleSettles(p);
      SettleSnoc(p, t);
      CursorShape(p);
      var r := Settle(s);
      forall i | 0 < i < |r| && r[i] == Rock
        ensures r[i-1] != Empty
      {
        if t == Rock && i == Top(p) {
          assert r[i-1] == Settle(p)[i-1];
        } else if t == Rock && i - 1 == Top(p) {
        } else if t == Rock {
          assert i < |p|;
          assert r[i] == Settle(p)[i] && r[i-1] == Settle(p)[i-1];
        } else {
          assert i < |p|;
        }
      }
    }
  }

  /** Tilting keeps the number of rocks on the line. */
  lemma {:induction false} SettleRockCount(s: seq<Tile>)
    ensures RockCount(Settle(s)) == RockCount(s)
    decreases |s|
  {
    if s != [] {
      var p := s[..|s|-1];
      var t := s[|s|-1];
      assert s == p + [t];
      SettleRockCount(p);
      SettleSnoc(p, t);
      RockCountSnoc(p, t);
      RockCountSnoc(Settle(p), if t == Rock then Empty else t);
      if t == Rock {
        CursorShape(p);
        RockCountPlace(Settle(p) + [Empty], Top(p));
      }
    }
  }

  /** No rock crosses a block: the part before any block keeps its number of rocks. */
  lemma {:induction false} SettleBeforeBlock(s: seq<Tile>, i: nat)
    requires i < |s| && s[i] == Block
    ensures RockCount(Settle(s)[..i]) == RockCount(s[..i])
    decreases |s|
  {
    var p := s[..|s|-1];
    var t := s[|s|-1];
    assert s == p + [t];
    SettleSnoc(p, t);
    if i == |s| - 1 {
      assert Settle(s)[..i] == Settle(p);
      assert s[..i] == p;
      SettleRockCount(p);
    } else {
      SettleBeforeBlock(p, i);
      CursorShape(p);
      assert s[..i] == p[..i];
      assert Settle(s)[..i] == Settle(p)[..i];
    }
  }

  /** A settled line whose last cell is not empty has its cursor at its end. */
  lemma {:induction false} SettledTop(s: seq<Tile>)
    requires Settled(s)
    requires s == [] || s[|s|-1] != Empty
    ensures Top(s) == |s|
    decreases |s|
  {
    if s != [] && s[|s|-1] == Rock {
      var p := s[..|s|-1];
      assert Settled(p);
      SettledTop(p);
    }
  }

  /** A line that is already settled does not change. */
  lemma {:induction false} SettleSettled(s: seq<Tile>)
    requires Settled(s)
    ensures Settle(s) == s
    decreases |s|
  {
    if s != [] {
      var p := s[..|s|-1];
      var t := s[|s|-1];
      assert s == p + [t];
      assert Settled(p);
      SettleSettled(p);
      SettleSnoc(p, t);
      if t == Rock {
        SettledTop(p);
      }
    }
  }

  /** Tilting twice is tilting once. */
  lemma SettleIdempotent(s: seq<Tile>)
    ensures Settle(Settle(s)) == Settle(s)
  {
    SettleSettles(s);
    SettleSettled(Settle(s));
  }
  /** `s` back to front. */
  function Reversed(s: seq<Tile>): (r: seq<Tile>)
    ensures |r| == |s|
    ensures forall i :: 0 <= i < |s| ==> r[i] == s[|s| - 1 - i]
  {
    if s == [] then [] else [s[|s|-1]] + Reversed(s[..|s|-1])
  }

  lemma ReversedFacts(s: seq<Tile>, t: Tile)
    ensures Reversed([t] + s) == Reversed(s) + [t]
    ensures Reversed(s + [t]) == [t] + Reversed(s)
    ensures Reversed(Reversed(s)) == s
  {
  }

  lemma ReversedUpdate(s: seq<Tile>, i: nat, t: Tile)
    requires i < |s|
    ensures Reversed(s[i := t]) == Reversed(s)[|s| - 1 - i := t]
  {
  }

  lemma {:induction false} ReversedRockCount(s: seq<Tile>)
    ensures RockCount(Reversed(s)) == RockCount(s)
    decreases |s|
  {
    if s != [] {
      var q := s[1..];
      assert s == [s[0]] + q;
      ReversedFacts(q, s[0]);
      ReversedRockCount(q);
      RockCountSnoc(Reversed(q), s[0]);
      RockCountCons(s[0], q);
    }
  }

  lemma {:induction false} RockCountCons(t: Tile, s: seq<Tile>)
    ensures RockCount([t] + s) == RockCount(s) + (if t == Rock then 1 else 0)
    decreases |s|
  {
    if s != [] {
      var p := s[..|s|-1];
      assert ([t] + s)[..|s|] == [t] + p;
      RockCountCons(t, p);
    }
  }

  /**
   * The line `s` after tilting it towards its last index: the same as turning
   * it round, tilting towards index 0 and turning it back.
   */
  function SettleBack(s: seq<Tile>): (r: seq<Tile>)
    ensures |r| == |s|
  {
    Reversed(Settle(Reversed(s)))
  }

  /** How many cells at the end of `s` are taken once it is tilted towards its last index. */
  function Depth(s: seq<Tile>): (r: nat)
    ensures r <= |s|
  {
    Top(Reversed(s))
  }

  /** One more cell at the front, as the backward tilt loops visit the line. */
  lemma SettleBackCons(t: Tile, s: seq<Tile>)
    ensures Depth([t] + s) == match t case Block => |s| + 1 case Rock => Depth(s) + 1 case Empty => Depth(s)
    ensures t != Rock ==> SettleBack([t] + s) == [t] + SettleBack(s)
    ensures t == Rock ==> SettleBack([t] + s) == ([Empty] + SettleBack(s))[|s| - Depth(s) := Rock]
  {
    var r := Reversed(s);
    ReversedFacts(s, t);
    assert Reversed([t] + s) == r + [t];
    SettleSnoc(r, t);
    var q := Settle(r);
    assert Reversed(q) == SettleBack(s);
    if t == Rock {
      assert Settle(r + [t]) == (q + [Empty])[Top(r) := Rock];
      ReversedUpdate(q + [Empty], Top(r), Rock);
      ReversedFacts(q, Empty);
      assert Reversed(q + [Empty]) == [Empty] + SettleBack(s);
    } else {
      assert Settle(r + [t]) == q + [t];
      ReversedFacts(q, t);
    }
  }

  /** Tilting towards the last index leaves every block where it is and puts none elsewhere. */
  lemma SettleBackBlocks(s: seq<Tile>)
    ensures forall i :: 0 <= i < |s| ==> (SettleBack(s)[i] == Block <==> s[i] == Block)
  {
    SettleBlocks(Reversed(s));
  }

  /** Tilting towards the last index keeps the number of rocks. */
  lemma SettleBackRockCount(s: seq<Tile>)
    ensures RockCount(SettleBack(s)) == RockCount(s)
  {
    var r := Reversed(s);
    SettleRockCount(r);
    ReversedRockCount(s);
    ReversedRockCount(Settle(r));
  }

  /** After tilting towards the last index, no rock has an empty cell behind it. */
  lemma SettleBackSettles(s: seq<Tile>)
    ensures forall i :: 0 <= i < |s| - 1 && SettleBack(s)[i] == Rock ==> SettleBack(s)[i+1] != Empty
  {
    var r := Reversed(s);
    SettleSettles(r);
    var b := SettleBack(s);
    forall i | 0 <= i < |s| - 1 && b[i] == Rock
      ensures b[i+1] != Empty
    {
      assert Settle(r)[|s| - 1 - i] == Rock;
      assert Settle(r)[|s| - 1 - i - 1] == b[i+1];
    }
  }
  /** Every row of `g` is `w` cells wide. */
  predicate Rectangular(g: seq<seq<Tile>>, w: nat)
  {
    forall y :: 0 <= y < |g| ==> |g[y]| == w
  }

  /** Column `x` of the grid, read from the top row down. */
  function Column(g: seq<seq<Tile>>, w: nat, x: nat): (r: seq<Tile>)
    requires Rectangular(g, w) && x < w
    ensures |r| == |g|
  {
    seq(|g|, y requires 0 <= y < |g| => g[y][x])
  }

  /** The grid with cell (`x`, `y`) set to `t`. */
  function Put(g: seq<seq<Tile>>, w: nat, y: nat, x: nat, t: Tile): (r: seq<seq<Tile>>)
    requires Rectangular(g, w) && y < |g| && x < w
    ensures Rectangular(r, w) && |r| == |g|
    ensures Column(r, w, x) == Column(g, w, x)[y := t]
    ensures forall y', x' :: 0 <= y' < |g| && 0 <= x' < w && x' != x ==> r[y'][x'] == g[y'][x']
    ensures r[y] == g[y][x := t] && forall y' :: 0 <= y' < |g| && y' != y ==> r[y'] == g[y']
  {
    g[y := g[y][x := t]]
  }

  /** Two grids of the same shape whose columns agree are equal. */
  lemma SameColumns(a: seq<seq<Tile>>, b: seq<seq<Tile>>, w: nat)
    requires Rectangular(a, w) && Rectangular(b, w) && |a| == |b|
    requires forall x :: 0 <= x < w ==> Column(a, w, x) == Column(b, w, x)
    ensures a == b
  {
    forall y | 0 <= y < |a|
      ensures a[y] == b[y]
    {
      forall x | 0 <= x < w
        ensures a[y][x] == b[y][x]
      {
        assert Column(a, w, x)[y] == Column(b, w, x)[y];
      }
    }
  }

  /** The grid after every rock has rolled north: each column tilted towards row 0. */
  function TiltedNorth(g: seq<seq<Tile>>, w: nat): (r: seq<seq<Tile>>)
    requires Rectangular(g, w)
    ensures Rectangular(r, w) && |r| == |g|
  {
    seq(|g|, y requires 0 <= y < |g| => seq(w, x requires 0 <= x < w => Settle(Column(g, w, x))[y]))
  }

  /** The grid after every rock has rolled south: each column tilted towards the last row. */
  function TiltedSouth(g: seq<seq<Tile>>, w: nat): (r: seq<seq<Tile>>)
    requires Rectangular(g, w)
    ensures Rectangular(r, w) && |r| == |g|
  {
    seq(|g|, y requires 0 <= y < |g| => seq(w, x requires 0 <= x < w => SettleBack(Column(g, w, x))[y]))
  }

  /** The grid after every rock has rolled west: each row tilted towards column 0. */
  function TiltedWest(g: seq<seq<Tile>>): (r: seq<seq<Tile>>)
    ensures |r| == |g|
  {
    seq(|g|, y requires 0 <= y < |g| => Settle(g[y]))
  }

  /** The grid after every rock has rolled east: each row tilted towards its last column. */
  function TiltedEast(g: seq<seq<Tile>>): (r: seq<seq<Tile>>)
    ensures |r| == |g|
  {
    seq(|g|, y requires 0 <= y < |g| => SettleBack(g[y]))
  }

  /** Each column of the grid tilted north is that column tilted towards row 0. */
  lemma NorthColumns(g: seq<seq<Tile>>, w: nat)
    requires Rectangular(g, w)
    ensures forall x :: 0 <= x < w ==> Column(TiltedNorth(g, w), w, x) == Settle(Column(g, w, x))
  {
  }

  /** Each column of the grid tilted south is that column tilted towards the last row. */
  lemma SouthColumns(g: seq<seq<Tile>>, w: nat)
    requires Rectangular(g, w)
    ensures forall x :: 0 <= x < w ==> Column(TiltedSouth(g, w), w, x) == SettleBack(Column(g, w, x))
  {
  }

  /** The four directions the dish can be tilted in. */
  datatype Direction = North | West | South | East

  /** The grid tilted in direction `d`. */
  function Tilted(g: seq<seq<Tile>>, w: nat, d: Direction): (r: seq<seq<Tile>>)
    requires Rectangular(g, w)
    ensures Rectangular(r, w) && |r| == |g|
  {
    match d
    case North => TiltedNorth(g, w)
    case West => var e := TiltedWest(g); assert Rectangular(e, w); e
    case South => TiltedSouth(g, w)
    case East => var e := TiltedEast(g); assert Rectangular(e, w); e
  }

  /** The grid tilted in each of the directions `ds` in turn. */
  function TiltedAll(g: seq<seq<Tile>>, w: nat, ds: seq<Direction>): (r: seq<seq<Tile>>)
    requires Rectangular(g, w)
    ensures Rectangular(r, w) && |r| == |g|
    decreases |ds|
  {
    if ds == [] then g else TiltedAll(Tilted(g, w, ds[0]), w, ds[1..])
  }

  /** The order of the tilts in one spin cycle. */
  const SpinOrder: seq<Direction> := [North, West, South, East]

  /** One spin cycle: north, west, south, east. */
  function CycleOf(g: seq<seq<Tile>>, w: nat): (r: seq<seq<Tile>>)
    requires Rectangular(g, w)
    ensures Rectangular(r, w) && |r| == |g|
  {
    TiltedAll(g, w, SpinOrder)
  }

  /** A spin cycle is the four tilts one after the other. */
  lemma CycleSteps(g: seq<seq<Tile>>, w: nat)
    requires Rectangular(g, w)
    ensures CycleOf(g, w) == TiltedEast(TiltedSouth(TiltedWest(TiltedNorth(g, w)), w))
  {
    var n := Tilted(g, w, North);
    var e := Tilted(n, w, West);
    var s := Tilted(e, w, South);
    var t := Tilted(s, w, East);
    assert SpinOrder[1..][1..][1..][1..] == [];
    calc {
      CycleOf(g, w);
      TiltedAll(n, w, SpinOrder[1..]);
      TiltedAll(e, w, SpinOrder[1..][1..]);
      TiltedAll(s, w, SpinOrder[1..][1..][1..]);
      TiltedAll(t, w, []);
    }
  }

  /** Tilting north keeps the blocks and the number of rocks of every column and settles each column. */
  lemma TiltedNorthColumns(g: seq<seq<Tile>>, w: nat)
    requires Rectangular(g, w)
    ensures forall x :: 0 <= x < w ==> RockCount(Column(TiltedNorth(g, w), w, x)) == RockCount(Column(g, w, x))
    ensures forall x :: 0 <= x < w ==> Settled(Column(TiltedNorth(g, w), w, x))
    ensures forall y, x :: 0 <= y < |g| && 0 <= x < w ==> (TiltedNorth(g, w)[y][x] == Block <==> g[y][x] == Block)
  {
    var n := TiltedNorth(g, w);
    NorthColumns(g, w);
    forall x | 0 <= x < w
      ensures RockCount(Column(n, w, x)) == RockCount(Column(g, w, x))
      ensures Settled(Column(n, w, x))
    {
      SettleRockCount(Column(g, w, x));
      SettleSettles(Column(g, w, x));
    }
    forall y, x | 0 <= y < |g| && 0 <= x < w
      ensures n[y][x] == Block <==> g[y][x] == Block
    {
      SettleBlocks(Column(g, w, x));
      assert Column(n, w, x)[y] == n[y][x];
      assert Column(g, w, x)[y] == g[y][x];
    }
  }

  /** Tilting south keeps the blocks and the number of rocks of every column. */
  lemma TiltedSouthColumns(g: seq<seq<Tile>>, w: nat)
    requires Rectangular(g, w)
    ensures forall x :: 0 <= x < w ==> RockCount(Column(TiltedSouth(g, w), w, x)) == RockCount(Column(g, w, x))
    ensures forall y, x :: 0 <= y < |g| && 0 <= x < w ==> (TiltedSouth(g, w)[y][x] == Block <==> g[y][x] == Block)
  {
    var n := TiltedSouth(g, w);
    SouthColumns(g, w);
    forall x | 0 <= x < w
      ensures RockCount(Column(n, w, x)) == RockCount(Column(g, w, x))
    {
      SettleBackRockCount(Column(g, w, x));
    }
    forall y, x | 0 <= y < |g| && 0 <= x < w
      ensures n[y][x] == Block <==> g[y][x] == Block
    {
      SettleBackBlocks(Column(g, w, x));
      assert Column(n, w, x)[y] == n[y][x];
      assert Column(g, w, x)[y] == g[y][x];
    }
  }

  /** Tilting west or east keeps the blocks and the number of rocks of every row. */
  lemma TiltedRows(g: seq<seq<Tile>>)
    ensures forall y :: 0 <= y < |g| ==> RockCount(TiltedWest(g)[y]) == RockCount(g[y]) && RockCount(TiltedEast(g)[y]) == RockCount(g[y])
    ensures forall y, x :: 0 <= y < |g| && 0 <= x < |g[y]| ==> (TiltedWest(g)[y][x] == Block <==> g[y][x] == Block)
    ensures forall y, x :: 0 <= y < |g| && 0 <= x < |g[y]| ==> (TiltedEast(g)[y][x] == Block <==> g[y][x] == Block)
  {
    forall y | 0 <= y < |g|
      ensures RockCount(TiltedWest(g)[y]) == RockCount(g[y]) && RockCount(TiltedEast(g)[y]) == RockCount(g[y])
      ensures forall x :: 0 <= x < |g[y]| ==> (TiltedWest(g)[y][x] == Block <==> g[y][x] == Block)
      ensures forall x :: 0 <= x < |g[y]| ==> (TiltedEast(g)[y][x] == Block <==> g[y][x] == Block)
    {
      SettleRockCount(g[y]);
      SettleBackRockCount(g[y]);
      SettleBlocks(g[y]);
      SettleBackBlocks(g[y]);
    }
  }

  /** A spin cycle never moves, adds or removes a block. */
  lemma CycleKeepsBlocks(g: seq<seq<Tile>>, w: nat)
    requires Rectangular(g, w)
    ensures forall y, x :: 0 <= y < |g| && 0 <= x < w ==> (CycleOf(g, w)[y][x] == Block <==> g[y][x] == Block)
  {
    CycleSteps(g, w);
    var n := TiltedNorth(g, w);
    var e := TiltedWest(n);
    var s := TiltedSouth(e, w);
    TiltedNorthColumns(g, w);
    TiltedRows(n);
    TiltedSouthColumns(e, w);
    TiltedRows(s);
  }

  /** Tilting north a second time changes nothing. */
  lemma TiltedNorthIdempotent(g: seq<seq<Tile>>, w: nat)
    requires Rectangular(g, w)
    ensures TiltedNorth(TiltedNorth(g, w), w) == TiltedNorth(g, w)
  {
    var n := TiltedNorth(g, w);
    NorthColumns(g, w);
    NorthColumns(n, w);
    forall x | 0 <= x < w
      ensures Column(TiltedNorth(n, w), w, x) == Column(n, w, x)
    {
      SettleIdempotent(Column(g, w, x));
    }
    SameColumns(TiltedNorth(n, w), n, w);
  }

  /**
   * The load of the rows of `g` on the north support beams of a dish `height`
   * rows tall: every rock in row `y` weighs `height - y`.
   */
  function Load(g: seq<seq<Tile>>, height: nat): nat
    requires |g| <= height
  {
    if g == [] then 0
    else Load(g[..|g|-1], height) + (height - (|g| - 1)) * RockCount(g[|g|-1])
  }

  /** The load depends only on the number of rocks in each row. */
  lemma {:induction false} LoadByRowCounts(a: seq<seq<Tile>>, b: seq<seq<Tile>>, height: nat)
    requires |a| == |b| <= height
    requires forall y :: 0 <= y < |a| ==> RockCount(a[y]) == RockCount(b[y])
    ensures Load(a, height) == Load(b, height)
    decreases |a|
  {
    if a != [] {
      LoadByRowCounts(a[..|a|-1], b[..|b|-1], height);
    }
  }

  /** Tilting west or east does not change the load on the north beams. */
  lemma TiltedRowsLoad(g: seq<seq<Tile>>, height: nat)
    requires |g| <= height
    ensures Load(TiltedWest(g), height) == Load(g, height)
    ensures Load(TiltedEast(g), height) == Load(g, height)
  {
    TiltedRows(g);
    LoadByRowCounts(TiltedWest(g), g, height);
    LoadByRowCounts(TiltedEast(g), g, height);
  }

  lemma ScaleBelow(a: nat, b: nat, c: nat)
    requires a <= b
    ensures a * c <= b * c
  {
  }

  lemma Distribute(a: nat, b: nat, c: nat)
    ensures a * (b + c) == a * b + a * c
  {
  }

  /** Each rock weighs at most `height`. */
  lemma {:induction false} LoadBound(g: seq<seq<Tile>>, height: nat)
    requires |g| <= height
    ensures Load(g, height) <= height * RockTotal(g)
    decreases |g|
  {
    if g != [] {
      var p, c := g[..|g|-1], RockCount(g[|g|-1]);
      LoadBound(p, height);
      ScaleBelow(height - |p|, height, c);
      assert Load(g, height) == Load(p, height) + (height - |p|) * c;
      assert RockTotal(g) == RockTotal(p) + c;
      Distribute(height, RockTotal(p), c);
    }
  }

  /** The number of rocks on the whole dish. */
  function RockTotal(g: seq<seq<Tile>>): nat
  {
    if g == [] then 0 else RockTotal(g[..|g|-1]) + RockCount(g[|g|-1])
  }

  /** The tile a character of the input stands for; None is the panic on any other character. */
  function TileOf(c: char): (r: Option<Tile>)
    ensures r.Some? <==> c in ".#O"
  {
    match c
    case '.' => Some(Empty)
    case '#' => Some(Block)
    case 'O' => Some(Rock)
    case _ => None
  }

  /** The character `Display` writes for a tile. */
  function CharOf(t: Tile): (c: char)
    ensures TileOf(c) == Some(t)
  {
    match t
    case Empty => '.'
    case Block => '#'
    case Rock => 'O'
  }

  /** One line of input as a row of tiles. */
  function ParseRow(line: string): (r: Option<seq<Tile>>)
    ensures r.Some? ==> |r.value| == |line| && forall i :: 0 <= i < |line| ==> TileOf(line[i]) == Some(r.value[i])
    ensures r.None? <==> exists i :: 0 <= i < |line| && TileOf(line[i]).None?
  {
    if line == [] then Some([])
    else
      match ParseRow(line[..|line|-1])
      case None => None
      case Some(front) =>
        match TileOf(line[|line|-1])
        case None => None
        case Some(t) => Some(front + [t])
  }

  /** Every line as a row of tiles. */
  function ParseRows(lines: seq<string>): (r: Option<seq<seq<Tile>>>)
    ensures r.Some? ==> |r.value| == |lines| && forall y :: 0 <= y < |lines| ==> ParseRow(lines[y]) == Some(r.value[y])
    ensures r.None? <==> exists y :: 0 <= y < |lines| && ParseRow(lines[y]).None?
  {
    if lines == [] then Some([])
    else
      match ParseRows(lines[..|lines|-1])
      case None => None
      case Some(front) =>
        match ParseRow(lines[|lines|-1])
        case None => None
        case Some(row) => Some(front + [row])
  }

  /**
   * ReflectorDish::from: one row per input line, the width taken from the
   * first line. None stands for the panics, on an input without lines and on
   * an unknown character, and for rows of different widths.
   */
  function Parse(input: string): (r: Option<seq<seq<Tile>>>)
    ensures r.Some? ==> |r.value| >= 1 && Rectangular(r.value, |r.value[0]|)
    ensures r.Some? ==> |r.value| == |Lines(input)| && forall y :: 0 <= y < |Lines(input)| ==> ParseRow(Lines(input)[y]) == Some(r.value[y])
  {
    var lines := Lines(input);
    if lines == [] then None
    else
      match ParseRows(lines)
      case None => None
      case Some(rows) => if Rectangular(rows, |rows[0]|) then Some(rows) else None
  }

  /** A row as `Display` writes it. */
  function RowText(row: seq<Tile>): (r: string)
    ensures |r| == |row| && forall i :: 0 <= i < |row| ==> r[i] == CharOf(row[i])
  {
    seq(|row|, i requires 0 <= i < |row| => CharOf(row[i]))
  }

  /** The dish as `Display` writes it: every row followed by a newline. */
  function Render(g: seq<seq<Tile>>): (r: string)
  {
    if g == [] then [] else RowText(g[0]) + "\n" + Render(g[1..])
  }

  lemma {:induction false} RenderLength(g: seq<seq<Tile>>, w: nat)
    requires Rectangular(g, w)
    ensures |Render(g)| == |g| * (w + 1)
    decreases |g|
  {
    if g != [] {
      RenderLength(g[1..], w);
      assert |Render(g)| == |g[0]| + 1 + |Render(g[1..])|;
      assert |g| * (w + 1) == (|g| - 1) * (w + 1) + (w + 1);
    }
  }

  /** Grids of one width with the same text are the same grid, so the text can key a map of grids. */
  lemma {:induction false} RenderInjective(a: seq<seq<Tile>>, b: seq<seq<Tile>>, w: nat)
    requires Rectangular(a, w) && Rectangular(b, w) && Render(a) == Render(b)
    ensures a == b
    decreases |a|
  {
    RenderLength(a, w);
    RenderLength(b, w);
    assert |a| * (w + 1) == |b| * (w + 1);
    assert |a| == |b|;
    if a != [] {
      var ra := RowText(a[0]);
      var rb := RowText(b[0]);
      assert Render(a)[..w] == ra;
      assert Render(b)[..w] == rb;
      forall i | 0 <= i < w
        ensures a[0][i] == b[0][i]
      {
        assert TileOf(ra[i]) == Some(a[0][i]);
        assert TileOf(rb[i]) == Some(b[0][i]);
      }
      assert a[0] == b[0];
      assert Render(a)[w + 1..] == Render(a[1..]);
      assert Render(b)[w + 1..] == Render(b[1..]);
      RenderInjective(a[1..], b[1..], w);
      assert a == [a[0]] + a[1..];
      assert b == [b[0]] + b[1..];
    }
  }

  /**
   * One step of a forward tilt loop on a line whose first `y` cells are
   * tilted already and whose cursor is `top`.
   */
  lemma ForwardStep(c: seq<Tile>, line: seq<Tile>, y: nat, top: nat)
    requires y < |line| && c == Settle(line[..y]) + line[y..] && top == Top(line[..y])
    ensures c[y] == line[y] && top <= y
    ensures Top(line[..y+1]) == match line[y] case Block => y + 1 case Rock => top + 1 case Empty => top
    ensures line[y] != Rock ==> c == Settle(line[..y+1]) + line[y+1..]
    ensures line[y] == Rock ==> c[y := Empty][top := Rock] == Settle(line[..y+1]) + line[y+1..]
  {
    assert line[..y+1] == line[..y] + [line[y]];
    SettleSnoc(line[..y], line[y]);
    assert line[y..] == [line[y]] + line[y+1..];
  }

  /** Grids of the same shape that agree off column `x` agree on every other column. */
  lemma OtherColumns(a: seq<seq<Tile>>, b: seq<seq<Tile>>, w: nat, x: nat)
    requires Rectangular(a, w) && Rectangular(b, w) && |a| == |b|
    requires forall y, x' :: 0 <= y < |a| && 0 <= x' < w && x' != x ==> a[y][x'] == b[y][x']
    ensures forall x' :: 0 <= x' < w && x' != x ==> Column(a, w, x') == Column(b, w, x')
  {
  }

  /**
   * One step of a backward tilt loop on a line whose cells after `i` are
   * tilted already and whose cursor is `bottom`.
   */
  lemma BackwardStep(c: seq<Tile>, line: seq<Tile>, i: nat, bottom: nat)
    requires i < |line| && c == line[..i+1] + SettleBack(line[i+1..])
    requires bottom + Depth(line[i+1..]) == |line| - 1
    ensures c[i] == line[i] && i <= bottom < |line|
    ensures Depth(line[i..]) == match line[i] case Block => |line| - i case Rock => Depth(line[i+1..]) + 1 case Empty => Depth(line[i+1..])
    ensures line[i] != Rock ==> c == line[..i] + SettleBack(line[i..])
    ensures line[i] == Rock ==> c[i := Empty][bottom := Rock] == line[..i] + SettleBack(line[i..])
  {
    var q := line[i+1..];
    assert line[i..] == [line[i]] + q;
    assert line[..i+1] == line[..i] + [line[i]];
    SettleBackCons(line[i], q);
    if line[i] == Rock {
      BackwardRock(c, line, i, bottom);
    }
  }

  /** The rock case of a backward step: the rock is lifted and put down at the cursor. */
  lemma BackwardRock(c: seq<Tile>, line: seq<Tile>, i: nat, bottom: nat)
    requires i < |line| && line[i] == Rock && c == line[..i+1] + SettleBack(line[i+1..])
    requires bottom + Depth(line[i+1..]) == |line| - 1
    ensures i <= bottom < |line|
    ensures c[i := Empty][bottom := Rock] == line[..i] + SettleBack(line[i..])
  {
    var q := line[i+1..];
    assert line[i..] == [Rock] + q;
    SettleBackCons(Rock, q);
    var sunk := [Empty] + SettleBack(q);
    assert c == line[..i] + ([Rock] + SettleBack(q));
    assert c[i := Empty] == line[..i] + sunk;
    UpdateAfter(line[..i], sunk, bottom - i, Rock);
  }

  /** Setting a cell past the prefix `p` sets it in the rest. */
  lemma UpdateAfter(p: seq<Tile>, s: seq<Tile>, k: nat, t: Tile)
    requires k < |s|
    ensures (p + s)[|p| + k := t] == p + s[k := t]
  {
  }

  /** `f` applied `n` times to `x`. */
  function Iterate<T>(f: T -> T, x: T, n: nat): T
  {
    if n == 0 then x else f(Iterate(f, x, n - 1))
  }

  /** `m` steps and then `k` more are `m + k` steps. */
  lemma {:induction false} IterateAdd<T>(f: T -> T, x: T, m: nat, k: nat)
    ensures Iterate(f, x, m + k) == Iterate(f, Iterate(f, x, m), k)
    decreases k
  {
    if k > 0 {
      IterateAdd(f, x, m, k - 1);
    }
  }

  /**
   * Once the value after `a + p` steps is the value after `a` steps, the
   * values from `a` on repeat with period `p`: `q` more periods change nothing.
   */
  lemma {:induction false} IteratePeriodic<T>(f: T -> T, x: T, a: nat, p: nat, q: nat, k: nat)
    requires Iterate(f, x, a + p) == Iterate(f, x, a)
    ensures Iterate(f, x, a + q * p + k) == Iterate(f, x, a + k)
    decreases q
  {
    if q > 0 {
      IteratePeriodic(f, x, a, p, q - 1, k);
      assert a + q * p + k == a + p + ((q - 1) * p + k);
      IterateAdd(f, x, a + p, (q - 1) * p + k);
      IterateAdd(f, x, a, (q - 1) * p + k);
    }
  }

  /** One spin cycle of a dish `w` cells wide, as a total function on grids. */
  function Spinner(w: nat): seq<seq<Tile>> -> seq<seq<Tile>>
  {
    g => if Rectangular(g, w) then CycleOf(g, w) else g
  }

  /** The grid after `n` spin cycles. */
  function Spin(g: seq<seq<Tile>>, w: nat, n: nat): seq<seq<Tile>>
  {
    Iterate(Spinner(w), g, n)
  }

  /** A spin cycle more is one more cycle of the grid. */
  lemma SpinStep(g: seq<seq<Tile>>, w: nat, n: nat)
    requires Rectangular(Spin(g, w, n), w)
    ensures Spin(g, w, n + 1) == CycleOf(Spin(g, w, n), w)
  {
  }

  /** Spinning keeps the shape of the grid. */
  lemma {:induction false} SpinShape(g: seq<seq<Tile>>, w: nat, n: nat)
    requires Rectangular(g, w)
    ensures Rectangular(Spin(g, w, n), w) && |Spin(g, w, n)| == |g|
    decreases n
  {
    if n > 0 {
      SpinShape(g, w, n - 1);
      SpinStep(g, w, n - 1);
    }
  }

  /**
   * Once the grid after `last` spins is the grid after `first`, the grid
   * after `n` spins is reached by `(n - first) % (last - first)` spins more.
   */
  lemma SkipPeriods(g: seq<seq<Tile>>, w: nat, first: nat, last: nat, n: nat)
    requires first < last <= n
    requires Spin(g, w, last) == Spin(g, w, first)
    ensures Spin(g, w, last + (n - first) % (last - first)) == Spin(g, w, n)
  {
    var cycle := last - first;
    var periods := (n - first) / cycle;
    var remaining := (n - first) % cycle;
    assert n == first + periods * cycle + remaining;
    IteratePeriodic(Spinner(w), g, first, cycle, periods, remaining);
    IteratePeriodic(Spinner(w), g, first, cycle, 1, remaining);
  }

  /** The load on the north beams after `n` spin cycles. */
  function LoadAfter(g: seq<seq<Tile>>, w: nat, n: nat): nat
    requires Rectangular(g, w)
  {
    SpinShape(g, w, n);
    Load(Spin(g, w, n), |g|)
  }

  /** The number of spin cycles part two asks for. */
  const Iterations: nat := 1_000_000_000

  class Dish {
    var data: seq<seq<Tile>>
    var width: nat
    var height: nat

    /** The dish has at least one row, it has `height` rows, and they are all `width` wide. */
    predicate Valid()
      reads this
    {
      height >= 1 && |data| == height && Rectangular(data, width)
    }

    /** A dish holding the parsed rows: its width is that of the first row. */
    constructor (rows: seq<seq<Tile>>)
      requires |rows| >= 1 && Rectangular(rows, |rows[0]|)
      ensures Valid() && data == rows && width == |rows[0]| && height == |rows|
    {
      data := rows;
      width := |rows[0]|;
      height := |rows|;
    }

    /** The load on the north support beams: each rock weighs the number of rows from it to the south edge. */
    function Weight(): (r: nat)
      requires Valid()
      reads this
      ensures r <= height * RockTotal(data)
    {
      LoadBound(data, height);
      Load(data, height)
    }

    /** One spin cycle of a dish that has been spun `n` times from `g`. */
    method SpinOnce(ghost g: seq<seq<Tile>>, ghost n: nat)
      requires Spun(g) && data == Spin(g, width, n)
      modifies this
      ensures width == old(width) && height == old(height)
      ensures data == Spin(g, width, n + 1)
    {
      SpinShape(g, width, n);
      Cycle();
      SpinStep(g, width, n);
    }

    /** `k` spin cycles more of a dish that has been spun `n` times from `g`. */
    method SpinMore(ghost g: seq<seq<Tile>>, ghost n: nat, k: nat)
      requires Spun(g) && data == Spin(g, width, n)
      modifies this
      ensures width == old(width) && height == old(height)
      ensures data == Spin(g, width, n + k)
    {
      for step := 0 to k
        invariant width == old(width) && height == old(height)
        invariant data == Spin(g, width, n + step)
      {
        SpinOnce(g, n + step);
      }
    }

    /**
     * The load after `n` spins of a dish spun `last` times, once the grid after
     * `last` spins is the one after `first`: only the spins past the last
     * whole period are done.
     */
    method SkipToEnd(ghost g: seq<seq<Tile>>, first: nat, last: nat, n: nat) returns (load: nat)
      requires Spun(g) && data == Spin(g, width, last)
      requires first < last <= n && Spin(g, width, last) == Spin(g, width, first)
      modifies this
      ensures width == old(width) && height == old(height)
      ensures load == LoadAfter(g, width, n)
    {
      var remaining := (n - first) % (last - first);
      SpinMore(g, last, remaining);
      SkipPeriods(g, width, first, last, n);
      load := SpunWeight(g, n);
    }

    /** The load of a dish spun `n` times from `g`. */
    method SpunWeight(ghost g: seq<seq<Tile>>, ghost n: nat) returns (load: nat)
      requires Spun(g) && data == Spin(g, width, n)
      ensures load == LoadAfter(g, width, n)
    {
      SpinShape(g, width, n);
      load := Weight();
    }

    /** The dish has the shape of `g`, at least one cell wide, so it can be spun. */
    ghost predicate Spun(g: seq<seq<Tile>>)
      reads this
    {
      height >= 1 && |g| == height && width >= 1 && Rectangular(g, width)
    }

    /** Tilts the dish so that every rock rolls north. */
    method TiltNorth()
      requires Valid()
      modifies this
      ensures Valid() && width == old(width) && height == old(height)
      ensures data == TiltedNorth(old(data), width)
    {
      ghost var start := data;
      for x := 0 to width
        invariant Valid() && width == old(width) && height == old(height)
        invariant forall x' :: 0 <= x' < x ==> Column(data, width, x') == Settle(Column(start, width, x'))
        invariant forall x' :: x <= x' < width ==> Column(data, width, x') == Column(start, width, x')
      {
        TiltColumnNorth(x);
      }
      NorthColumns(start, width);
      SameColumns(data, TiltedNorth(start, width), width);
    }

    /** The inner loop of `TiltNorth`: rolls the rocks of column `x` north, with a cursor at the top free cell. */
    method TiltColumnNorth(x: nat)
      requires Valid() && x < width
      modifies this
      ensures Valid() && width == old(width) && height == old(height)
      ensures Column(data, width, x) == Settle(Column(old(data), width, x))
      ensures forall x' :: 0 <= x' < width && x' != x ==> Column(data, width, x') == Column(old(data), width, x')
    {
      var g := data;
      ghost var start := g;
      var w, h := width, height;
      ghost var col := Column(g, w, x);
      var top := 0;
      for y := 0 to h
        invariant |g| == h && Rectangular(g, w) && width == w && height == h
        invariant forall y', x' :: 0 <= y' < h && 0 <= x' < w && x' != x ==> g[y'][x'] == start[y'][x']
        invariant Column(g, w, x) == Settle(col[..y]) + col[y..]
        invariant top == Top(col[..y])
      {
        ForwardStep(Column(g, w, x), col, y, top);
        match g[y][x]
        case Rock =>
          g := Put(g, w, y, x, Empty);
          g := Put(g, w, top, x, Rock);
          top := top + 1;
        case Block =>
          top := y + 1;
        case Empty =>
      }
      assert col[..h] == col;
      OtherColumns(g, start, w, x);
      data := g;
    }

    /** Tilts the dish so that every rock rolls south. */
    method TiltSouth()
      requires Valid()
      modifies this
      ensures Valid() && width == old(width) && height == old(height)
      ensures data == TiltedSouth(old(data), width)
    {
      ghost var start := data;
      for x := 0 to width
        invariant Valid() && width == old(width) && height == old(height)
        invariant forall x' :: 0 <= x' < x ==> Column(data, width, x') == SettleBack(Column(start, width, x'))
        invariant forall x' :: x <= x' < width ==> Column(data, width, x') == Column(start, width, x')
      {
        TiltColumnSouth(x);
      }
      SouthColumns(start, width);
      SameColumns(data, TiltedSouth(start, width), width);
    }

    /**
     * The inner loop of `TiltSouth`: rolls the rocks of column `x` south, from
     * the bottom row up, with a cursor at the lowest free cell that stops at row 0.
     */
    method TiltColumnSouth(x: nat)
      requires Valid() && x < width
      modifies this
      ensures Valid() && width == old(width) && height == old(height)
      ensures Column(data, width, x) == SettleBack(Column(old(data), width, x))
      ensures forall x' :: 0 <= x' < width && x' != x ==> Column(data, width, x') == Column(old(data), width, x')
    {
      var g := data;
      ghost var start := g;
      var w, h := width, height;
      ghost var col := Column(g, w, x);
      var bottom := h - 1;
      var y := h;
      assert col[h..] == [] && col[..h] == col;
      while y > 0
        invariant 0 <= y <= h
        invariant |g| == h && Rectangular(g, w) && width == w && height == h
        invariant forall y', x' :: 0 <= y' < h && 0 <= x' < w && x' != x ==> g[y'][x'] == start[y'][x']
        invariant Column(g, w, x) == col[..y] + SettleBack(col[y..])
        invariant y > 0 ==> bottom + Depth(col[y..]) == h - 1
      {
        y := y - 1;
        BackwardStep(Column(g, w, x), col, y, bottom);
        match g[y][x]
        case Rock =>
          g := Put(g, w, y, x, Empty);
          g := Put(g, w, bottom, x, Rock);
          bottom := if bottom == 0 then 0 else bottom - 1;
        case Block =>
          if y > 0 {
            bottom := y - 1;
          }
        case Empty =>
      }
      assert col[0..] == col;
      OtherColumns(g, start, w, x);
      data := g;
    }

    /** Tilts the dish so that every rock rolls west. */
    method TiltWest()
      requires Valid()
      modifies this
      ensures Valid() && width == old(width) && height == old(height)
      ensures data == TiltedWest(old(data))
    {
      ghost var start := data;
      for y := 0 to height
        invariant Valid() && width == old(width) && height == old(height)
        invariant forall y' :: 0 <= y' < y ==> data[y'] == Settle(start[y'])
        invariant forall y' :: y <= y' < height ==> data[y'] == start[y']
      {
        TiltRowWest(y);
      }
    }

    /** The inner loop of `TiltWest`: rolls the rocks of row `y` west, with a cursor at the leftmost free cell. */
    method TiltRowWest(y: nat)
      requires Valid() && y < height
      modifies this
      ensures Valid() && width == old(width) && height == old(height)
      ensures data == old(data)[y := Settle(old(data)[y])]
    {
      var g, w := data, width;
      var line := g[y];
      ghost var row := line;
      var left := 0;
      for x := 0 to w
        invariant unchanged(this) && |line| == w
        invariant line == Settle(row[..x]) + row[x..]
        invariant left == Top(row[..x])
      {
        ForwardStep(line, row, x, left);
        match line[x]
        case Rock =>
          line := line[x := Empty][left := Rock];
          left := left + 1;
        case Block =>
          left := x + 1;
        case Empty =>
      }
      assert row[..w] == row && row[w..] == [];
      assert line == Settle(row);
      data := g[y := line];
    }

    /** Tilts the dish so that every rock rolls east. */
    method TiltEast()
      requires Valid() && width >= 1
      modifies this
      ensures Valid() && width == old(width) && height == old(height)
      ensures data == TiltedEast(old(data))
    {
      ghost var start := data;
      for y := 0 to height
        invariant Valid() && width == old(width) && height == old(height)
        invariant forall y' :: 0 <= y' < y ==> data[y'] == SettleBack(start[y'])
        invariant forall y' :: y <= y' < height ==> data[y'] == start[y']
      {
        TiltRowEast(y);
      }
    }

    /**
     * The inner loop of `TiltEast`: rolls the rocks of row `y` east, from the
     * last column back, with a cursor at the rightmost free cell that stops at column 0.
     */
    method TiltRowEast(y: nat)
      requires Valid() && width >= 1 && y < height
      modifies this
      ensures Valid() && width == old(width) && height == old(height)
      ensures data == old(data)[y := SettleBack(old(data)[y])]
    {
      var g, w := data, width;
      var line := g[y];
      ghost var row := line;
      var right := w - 1;
      var x := w;
      assert row[w..] == [] && row[..w] == row;
      while x > 0
        invariant 0 <= x <= w && unchanged(this) && |line| == w
        invariant line == row[..x] + SettleBack(row[x..])
        invariant x > 0 ==> right + Depth(row[x..]) == w - 1
      {
        x := x - 1;
        BackwardStep(line, row, x, right);
        match line[x]
        case Rock =>
          line := line[x := Empty][right := Rock];
          right := if right == 0 then 0 else right - 1;
        case Block =>
          if x > 0 {
            right := x - 1;
          }
        case Empty =>
      }
      assert row[0..] == row && row[..0] == [];
      assert line == SettleBack(row);
      data := g[y := line];
    }

    /** One spin cycle: the four tilts in the order north, west, south, east. */
    method Cycle()
      requires Valid() && width >= 1
      modifies this
      ensures Valid() && width == old(width) && height == old(height)
      ensures data == CycleOf(old(data), width)
    {
      CycleSteps(data, width);
      TiltNorth();
      TiltWest();
      TiltSouth();
      TiltEast();
    }
  }

  /** part_one: the load after tilting north. None stands for the parse panics. */
  method PartOne(input: string) returns (r: Option<nat>)
    ensures Parse(input).None? ==> r.None?
    ensures Parse(input).Some? ==> var g := Parse(input).value; r == Some(Load(TiltedNorth(g, |g[0]|), |g|))
  {
    var rows := Parse(input);
    if rows.None? {
      return None;
    }
    var dish := new Dish(rows.value);
    dish.TiltNorth();
    r := Some(dish.Weight());
  }

  /**
   * part_two: the load after one billion spin cycles. None stands for the
   * panics: on parsing, on a dish zero cells wide (the east tilt underflows),
   * and on a division by zero when no grid repeats within the cycles.
   */
  method PartTwo(input: string) returns (r: Option<nat>)
    ensures Parse(input).None? ==> r.None?
    ensures Parse(input).Some? ==>
              var g := Parse(input).value;
              var w := |g[0]|;
              (r.Some? ==> w >= 1 && r.value == LoadAfter(g, w, Iterations)) &&
              (w >= 1 ==> (r.None? <==> forall j, k :: 0 <= j < k <= Iterations ==> Spin(g, w, j) != Spin(g, w, k)))
  {
    var rows := Parse(input);
    if rows.None? {
      return None;
    }
    r := SpinLoad(rows.value, Iterations);
  }

  /**
   * Spins `dish` until a grid repeats or `n` cycles are done, remembering
   * every grid seen: `i` is the number of cycles done and `first` the cycle
   * after which the last grid was first seen (`first == i` when none repeated).
   */
  method FirstRepeat(dish: Dish, ghost g: seq<seq<Tile>>, n: nat) returns (first: nat, i: nat)
    requires dish.Spun(g) && dish.data == g
    modifies dish
    ensures dish.width == old(dish.width) && dish.height == old(dish.height)
    ensures first <= i <= n && dish.data == Spin(g, dish.width, i)
    ensures first < i ==> Spin(g, dish.width, first) == Spin(g, dish.width, i)
    ensures first == i ==> forall j, k :: 0 <= j < k <= n ==> Spin(g, dish.width, j) != Spin(g, dish.width, k)
  {
    ghost var w := dish.width;
    var seen: map<seq<seq<Tile>>, nat> := map[dish.data := 0];
    i := 0;
    var repeated := false;
    while i < n
      invariant dish.width == w && dish.height == old(dish.height)
      invariant i <= n && dish.data == Spin(g, w, i)
      invariant SeenUpTo(seen, g, w, i)
      invariant !repeated
      decreases n - i
    {
      dish.SpinOnce(g, i);
      i := i + 1;
      if dish.data in seen {
        SeenFirst(seen, g, w, i - 1, dish.data);
        first := seen[dish.data];
        repeated := true;
        break;
      }
      seen := seen[dish.data := i];
    }
    if !repeated {
      SeenFirst(seen, g, w, i, dish.data);
      first := seen[dish.data];
      SeenDistinct(seen, g, w, n);
    }
  }

  /** `seen` maps exactly the grids after 0 to `i` spins to the number of spins. */
  ghost predicate SeenUpTo(seen: map<seq<seq<Tile>>, nat>, g: seq<seq<Tile>>, w: nat, i: nat)
  {
    (forall grid :: grid in seen ==> exists j :: 0 <= j <= i && grid == Spin(g, w, j)) &&
    (forall j :: 0 <= j <= i ==> Spin(g, w, j) in seen && seen[Spin(g, w, j)] == j)
  }

  /** A grid in `seen` is the grid after the number of spins it maps to. */
  lemma SeenFirst(seen: map<seq<seq<Tile>>, nat>, g: seq<seq<Tile>>, w: nat, i: nat, grid: seq<seq<Tile>>)
    requires SeenUpTo(seen, g, w, i) && grid in seen
    ensures seen[grid] <= i && Spin(g, w, seen[grid]) == grid
  {
  }

  /** Grids that `seen` maps to different numbers of spins are different. */
  lemma SeenDistinct(seen: map<seq<seq<Tile>>, nat>, g: seq<seq<Tile>>, w: nat, n: nat)
    requires SeenUpTo(seen, g, w, n)
    ensures forall j, k :: 0 <= j < k <= n ==> Spin(g, w, j) != Spin(g, w, k)
  {
    forall j, k | 0 <= j < k <= n
      ensures Spin(g, w, j) != Spin(g, w, k)
    {
      assert seen[Spin(g, w, j)] == j && seen[Spin(g, w, k)] == k;
    }
  }

  /**
   * The load after `n` spin cycles: at the first repeat, whole periods are
   * skipped. None when the dish is zero cells wide or when no grid repeats
   * within `n` cycles.
   */
  method SpinLoad(g: seq<seq<Tile>>, n: nat) returns (r: Option<nat>)
    requires |g| >= 1 && Rectangular(g, |g[0]|)
    ensures var w := |g[0]|;
            (r.Some? ==> w >= 1 && r.value == LoadAfter(g, w, n)) &&
            (w >= 1 ==> (r.None? <==> forall j, k :: 0 <= j < k <= n ==> Spin(g, w, j) != Spin(g, w, k)))
  {
    var dish := new Dish(g);
    if dish.width == 0 {
      return None;
    }
    var first, i := FirstRepeat(dish, g, n);
    if first == i {
      return None;
    }
    var load := dish.SkipToEnd(g, first, i, n);
    r := Some(load);
    assert !(forall j, k :: 0 <= j < k <= n ==> Spin(g, dish.width, j) != Spin(g, dish.width, k)) by {
      assert 0 <= first < i <= n;
    }
  }
}
