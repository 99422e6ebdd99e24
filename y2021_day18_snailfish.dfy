/** Snailfish numbers of 2021 day 18: binary trees of regular numbers,
    reduced after every addition by explosions and splits. */
module Snailfish {
  import opened Prelude

  /** A snailfish number: a regular number or a pair of snailfish numbers. */
  datatype Snail = Lit(value: nat) | Pair(left: Snail, right: Snail)

  /** How many pairs deep the deepest regular number sits. */
  function Height(x: Snail): (h: nat)
    ensures h == 0 <==> x.Lit?
  {
    match x
    case Lit(_) => 0
    case Pair(l, r) => if Height(l) >= Height(r) then 1 + Height(l) else 1 + Height(r)
  }

  /** The regular numbers, left to right. */
  function Leaves(x: Snail): (ls: seq<nat>)
    ensures |ls| > 0
  {
    match x
    case Lit(n) => [n]
    case Pair(l, r) => Leaves(l) + Leaves(r)
  }

  /** How many pairs enclose each regular number, left to right, when x
      itself is enclosed by depth pairs. Together with Leaves this fixes
      the whole tree. */
  function Depths(x: Snail, depth: nat): (ds: seq<nat>)
    ensures |ds| == |Leaves(x)|
  {
    match x
    case Lit(_) => [depth]
    case Pair(l, r) => Depths(l, depth + 1) + Depths(r, depth + 1)
  }

  /** n added to the first of the regular numbers; nothing for None or []. */
  function AddFirst(s: seq<nat>, n: Option<nat>): (r: seq<nat>)
    ensures |r| == |s|
  {
    if n.None? || s == [] then s else [s[0] + n.value] + s[1..]
  }

  /** n added to the last of the regular numbers; nothing for None or []. */
  function AddLast(s: seq<nat>, n: Option<nat>): (r: seq<nat>)
    ensures |r| == |s|
  {
    if n.None? || s == [] then s else s[..|s| - 1] + [s[|s| - 1] + n.value]
  }

  lemma AddFirstConcat(s: seq<nat>, t: seq<nat>, n: Option<nat>)
    requires s != []
    ensures AddFirst(s + t, n) == AddFirst(s, n) + t
  {
    if n.Some? {
      assert (s + t)[1..] == s[1..] + t;
    }
  }

  lemma AddLastConcat(s: seq<nat>, t: seq<nat>, n: Option<nat>)
    requires t != []
    ensures AddLast(s + t, n) == s + AddLast(t, n)
  {
    if n.Some? {
      assert (s + t)[..|s + t| - 1] == s + t[..|t| - 1];
    }
  }

  // add_left and add_right

  /** add_left: n added to the leftmost regular number of the subtree. */
  function AddLeft(x: Snail, n: Option<nat>): (y: Snail)
    ensures Leaves(y) == AddFirst(Leaves(x), n)
    ensures forall depth: nat :: Depths(y, depth) == Depths(x, depth)
    ensures Height(y) == Height(x)
  {
    if n.None? then x
    else match x
      case Lit(v) => Lit(v + n.value)
      case Pair(l, r) =>
        var y := Pair(AddLeft(l, n), r);
        AddFirstConcat(Leaves(l), Leaves(r), n);
        y
  }

  /** add_right: n added to the rightmost regular number of the subtree. */
  function AddRight(x: Snail, n: Option<nat>): (y: Snail)
    ensures Leaves(y) == AddLast(Leaves(x), n)
    ensures forall depth: nat :: Depths(y, depth) == Depths(x, depth)
    ensures Height(y) == Height(x)
  {
    if n.None? then x
    else match x
      case Lit(v) => Lit(v + n.value)
      case Pair(l, r) =>
        var y := Pair(l, AddRight(r, n));
        AddLastConcat(Leaves(l), Leaves(r), n);
        y
  }

  lemma AddLeftExample()
    ensures AddLeft(Pair(Lit(1), Pair(Lit(2), Lit(3))), Some(5)) == Pair(Lit(6), Pair(Lit(2), Lit(3)))
    ensures AddLeft(Pair(Pair(Lit(1), Lit(2)), Pair(Lit(2), Lit(3))), Some(5))
      == Pair(Pair(Lit(6), Lit(2)), Pair(Lit(2), Lit(3)))
  {
  }

  lemma AddRightExample()
    ensures AddRight(Pair(Lit(1), Pair(Lit(2), Lit(3))), Some(5)) == Pair(Lit(1), Pair(Lit(2), Lit(8)))
    ensures AddRight(Pair(Pair(Lit(1), Lit(2)), Pair(Lit(2), Lit(3))), Some(5))
      == Pair(Pair(Lit(1), Lit(2)), Pair(Lit(2), Lit(8)))
  {
  }

  // explode

  /** What explode returns: whether a pair exploded, what is still to be
      added to the left of the subtree, the new subtree, and what is still
      to be added to its right. */
  datatype Explosion = Explosion(exploded: bool, leftAdd: Option<nat>, number: Snail, rightAdd: Option<nat>)

  /** explode: the leftmost pair inside four pairs becomes 0, its left
      number goes to the nearest regular number on its left and its right
      number to the nearest on its right. The reduced inputs keep every
      pair within five levels, so a pair that explodes holds two regular
      numbers. */
  function Explode(x: Snail, depth: nat): (e: Explosion)
    requires Height(x) + depth <= 5
    ensures e.exploded <==> x.Pair? && Height(x) + depth == 5
    ensures !e.exploded ==> e == Explosion(false, None, x, None)
    ensures Height(e.number) <= Height(x)
  {
    match x
    case Lit(_) => Explosion(false, None, x, None)
    case Pair(l, r) =>
      if depth >= 4 then Explosion(true, Some(l.value), Lit(0), Some(r.value))
      else
        var el := Explode(l, depth + 1);
        if el.exploded then
          Explosion(true, el.leftAdd, Pair(el.number, AddLeft(r, el.rightAdd)), None)
        else
          var er := Explode(r, depth + 1);
          if er.exploded then
            Explosion(true, None, Pair(AddRight(l, er.leftAdd), er.number), er.rightAdd)
          else Explosion(false, None, x, None)
  }

  /** What a pending addition carries, 0 for none. */
  function Pending(n: Option<nat>): nat
  {
    if n.Some? then n.value else 0
  }

  lemma {:induction false} AddLeftSum(x: Snail, n: Option<nat>)
    ensures LeafSum(AddLeft(x, n)) == LeafSum(x) + Pending(n)
  {
    if n.Some? && x.Pair? {
      AddLeftSum(x.left, n);
    }
  }

  lemma {:induction false} AddRightSum(x: Snail, n: Option<nat>)
    ensures LeafSum(AddRight(x, n)) == LeafSum(x) + Pending(n)
  {
    if n.Some? && x.Pair? {
      AddRightSum(x.right, n);
    }
  }

  /** explode loses no amount: the sum of the regular numbers after it,
      together with what it hands back on either side, is the sum before
      it. */
  lemma {:induction false} ExplodeKeepsSum(x: Snail, depth: nat)
    requires Height(x) + depth <= 5
    ensures LeafSum(Explode(x, depth).number) + Pending(Explode(x, depth).leftAdd)
      + Pending(Explode(x, depth).rightAdd) == LeafSum(x)
  {
    match x
    case Lit(_) =>
    case Pair(l, r) =>
      if depth >= 4 {
        assert x == Pair(Lit(l.value), Lit(r.value));
      } else if Explode(l, depth + 1).exploded {
        ExplodeKeepsSum(l, depth + 1);
        AddLeftSum(r, Explode(l, depth + 1).rightAdd);
      } else if Explode(r, depth + 1).exploded {
        ExplodeKeepsSum(r, depth + 1);
        AddRightSum(l, Explode(r, depth + 1).leftAdd);
      }
  }

  /** An explosion turns two regular numbers into one. */
  lemma {:induction false} ExplodeCount(x: Snail, depth: nat)
    requires Height(x) + depth <= 5 && Explode(x, depth).exploded
    ensures |Leaves(Explode(x, depth).number)| + 1 == |Leaves(x)|
  {
    var l, r := x.left, x.right;
    if depth >= 4 {
      assert x == Pair(Lit(l.value), Lit(r.value));
    } else if Explode(l, depth + 1).exploded {
      ExplodeCount(l, depth + 1);
    } else {
      ExplodeCount(r, depth + 1);
    }
  }

  lemma ExplodeExamples()
    ensures Explode(Pair(Pair(Pair(Pair(Pair(Lit(9), Lit(8)), Lit(1)), Lit(2)), Lit(3)), Lit(4)), 0)
      == Explosion(true, Some(9), Pair(Pair(Pair(Pair(Lit(0), Lit(9)), Lit(2)), Lit(3)), Lit(4)), None)
    ensures Explode(Pair(Lit(7), Pair(Lit(6), Pair(Lit(5), Pair(Lit(4), Pair(Lit(3), Lit(2)))))), 0)
      == Explosion(true, None, Pair(Lit(7), Pair(Lit(6), Pair(Lit(5), Pair(Lit(7), Lit(0))))), Some(2))
    ensures Explode(Pair(Pair(Lit(6), Pair(Lit(5), Pair(Lit(4), Pair(Lit(3), Lit(2))))), Lit(1)), 0)
      == Explosion(true, None, Pair(Pair(Lit(6), Pair(Lit(5), Pair(Lit(7), Lit(0)))), Lit(3)), None)
  {
  }

  // split

  /** k is the index of the first regular number of ten or more, |ls|
      when there is none. */
  predicate FirstBigAt(ls: seq<nat>, k: nat)
  {
    k <= |ls| && (forall i :: 0 <= i < k ==> ls[i] < 10) && (k < |ls| ==> ls[k] >= 10)
  }

  /** The first number of ten or more. */
  function FirstBig(ls: seq<nat>): (k: nat)
    ensures FirstBigAt(ls, k)
  {
    if ls == [] then 0 else if ls[0] >= 10 then 0 else 1 + FirstBig(ls[1..])
  }

  lemma FirstBigSplit(ll: seq<nat>, lr: seq<nat>, k: nat)
    requires FirstBigAt(ll + lr, k)
    ensures k < |ll| ==> FirstBigAt(ll, k)
    ensures k >= |ll| ==> FirstBigAt(ll, |ll|) && FirstBigAt(lr, k - |ll|)
  {
    if k < |ll| {
      assert (ll + lr)[k] == ll[k];
      forall i | 0 <= i < k
        ensures ll[i] < 10
      {
        assert (ll + lr)[i] == ll[i];
      }
    } else {
      forall i | 0 <= i < |ll|
        ensures ll[i] < 10
      {
        assert (ll + lr)[i] == ll[i];
      }
      forall i | 0 <= i < k - |ll|
        ensures lr[i] < 10
      {
        assert (ll + lr)[|ll| + i] == lr[i];
      }
      if k < |ll + lr| {
        assert (ll + lr)[k] == lr[k - |ll|];
      }
    }
  }

  /** split: the first regular number of ten or more, unless one was
      already split (hasSplit), becomes the pair of its halves rounded
      down and up; the flag says whether a split has happened. */
  function Split(x: Snail, hasSplit: bool): (r: (Snail, bool))
    ensures hasSplit ==> r == (x, true)
    ensures Height(r.0) <= Height(x) + 1
  {
    match x
    case Lit(n) =>
      if n >= 10 && !hasSplit then (Pair(Lit(n / 2), Lit((n + 1) / 2)), true)
      else (x, hasSplit)
    case Pair(l, r) =>
      var sl := Split(l, hasSplit);
      var sr := Split(r, sl.1);
      (Pair(sl.0, sr.0), sr.1)
  }

  /** The numbers after splitting the one at index k. */
  function SplitRow(ls: seq<nat>, k: nat): seq<nat>
    requires k < |ls|
  {
    ls[..k] + [ls[k] / 2, (ls[k] + 1) / 2] + ls[k + 1..]
  }

  /** The depths after splitting the number at index k. */
  function SplitDepths(ds: seq<nat>, k: nat): seq<nat>
    requires k < |ds|
  {
    ds[..k] + [ds[k] + 1, ds[k] + 1] + ds[k + 1..]
  }

  /** The split as seen on the rows of regular numbers ls and of their
      depths ds, for k the first number of ten or more: s says whether there
      is one, and if so the rows become nls and nds, with that number
      replaced by its two halves one level deeper. */
  predicate SplitsRow(ls: seq<nat>, ds: seq<nat>, k: nat, s: bool, nls: seq<nat>, nds: seq<nat>)
  {
    && k <= |ls| == |ds|
    && (s <==> k < |ls|)
    && (k < |ls| ==> (nls, nds) == (SplitRow(ls, k), SplitDepths(ds, k)))
  }

  /** The split of the subtree x, enclosed by depth pairs, on its rows. */
  predicate SplitsAt(x: Snail, depth: nat, y: (Snail, bool), k: nat)
  {
    SplitsRow(Leaves(x), Depths(x, depth), k, y.1, Leaves(y.0), Depths(y.0, depth))
  }

  lemma SplitRowInLeft(s: seq<nat>, t: seq<nat>, k: nat)
    requires k < |s|
    ensures SplitRow(s + t, k) == SplitRow(s, k) + t
  {
    assert (s + t)[k] == s[k];
    assert (s + t)[..k] == s[..k];
    assert (s + t)[k + 1..] == s[k + 1..] + t;
  }

  lemma SplitDepthsInLeft(s: seq<nat>, t: seq<nat>, k: nat)
    requires k < |s|
    ensures SplitDepths(s + t, k) == SplitDepths(s, k) + t
  {
    assert (s + t)[k] == s[k];
    assert (s + t)[..k] == s[..k];
    assert (s + t)[k + 1..] == s[k + 1..] + t;
  }

  lemma SplitRowInRight(s: seq<nat>, t: seq<nat>, k: nat)
    requires k < |t|
    ensures SplitRow(s + t, |s| + k) == s + SplitRow(t, k)
  {
    assert (s + t)[|s| + k] == t[k];
    assert (s + t)[..|s| + k] == s + t[..k];
    assert (s + t)[|s| + k + 1..] == t[k + 1..];
  }

  lemma SplitDepthsInRight(s: seq<nat>, t: seq<nat>, k: nat)
    requires k < |t|
    ensures SplitDepths(s + t, |s| + k) == s + SplitDepths(t, k)
  {
    assert (s + t)[|s| + k] == t[k];
    assert (s + t)[..|s| + k] == s + t[..k];
    assert (s + t)[|s| + k + 1..] == t[k + 1..];
  }

  /** A split in the left part of a row leaves the right part as it is. */
  lemma SplitsRowLeft(ll: seq<nat>, lr: seq<nat>, dl: seq<nat>, dr: seq<nat>, k: nat,
                      nls: seq<nat>, nds: seq<nat>)
    requires SplitsRow(ll, dl, k, true, nls, nds) && |lr| == |dr|
    ensures SplitsRow(ll + lr, dl + dr, k, true, nls + lr, nds + dr)
  {
    SplitRowInLeft(ll, lr, k);
    SplitDepthsInLeft(dl, dr, k);
  }

  /** A split in the right part of a row, or none at all, leaves the left
      part as it is. */
  lemma SplitsRowRight(ll: seq<nat>, lr: seq<nat>, dl: seq<nat>, dr: seq<nat>, k: nat, s: bool,
                       nls: seq<nat>, nds: seq<nat>)
    requires SplitsRow(lr, dr, k, s, nls, nds) && |ll| == |dl|
    ensures SplitsRow(ll + lr, dl + dr, |ll| + k, s, ll + nls, dl + nds)
  {
    if k < |lr| {
      SplitRowInRight(ll, lr, k);
      SplitDepthsInRight(dl, dr, k);
    }
  }

  /** split agrees with its description on the row of numbers. */
  lemma {:induction false} SplitLeaves(x: Snail, depth: nat, k: nat)
    requires FirstBigAt(Leaves(x), k)
    ensures SplitsAt(x, depth, Split(x, false), k)
    decreases x, 1
  {
    match x
    case Lit(n) =>
      assert Leaves(x) == [n] && Depths(x, depth) == [depth];
      if n >= 10 {
        assert Leaves(x)[0] >= 10;
        assert k == 0;
        assert SplitRow([n], 0) == [n / 2, (n + 1) / 2];
        assert SplitDepths([depth], 0) == [depth + 1, depth + 1];
        assert Leaves(Split(x, false).0) == [n / 2, (n + 1) / 2];
        assert Depths(Split(x, false).0, depth) == [depth + 1, depth + 1];
      } else {
        assert Leaves(x)[0] < 10;
      }
    case Pair(l, r) =>
      if k < |Leaves(l)| {
        SplitLeavesLeft(x, depth, k);
      } else {
        SplitLeavesRight(x, depth, k - |Leaves(l)|, k);
      }
  }

  lemma {:induction false} SplitLeavesLeft(x: Snail, depth: nat, k: nat)
    requires x.Pair? && FirstBigAt(Leaves(x), k) && k < |Leaves(x.left)|
    ensures SplitsAt(x, depth, Split(x, false), k)
    decreases x, 0
  {
    var l, r := x.left, x.right;
    assert x == Pair(l, r);
    var sl := Split(l, false);
    assert FirstBigAt(Leaves(l), k) by {
      FirstBigSplit(Leaves(l), Leaves(r), k);
    }
    SplitLeaves(l, depth + 1, k);
    assert Split(x, false) == (Pair(sl.0, r), true);
    SplitInLeft(x, depth, k, sl, Split(x, false));
  }

  lemma {:induction false} SplitLeavesRight(x: Snail, depth: nat, kr: nat, k: nat)
    requires x.Pair? && FirstBigAt(Leaves(x), k) && k == |Leaves(x.left)| + kr
    ensures SplitsAt(x, depth, Split(x, false), k)
    decreases x, 0
  {
    var l, r := x.left, x.right;
    assert x == Pair(l, r);
    var sr := Split(r, false);
    assert FirstBigAt(Leaves(l), |Leaves(l)|) && FirstBigAt(Leaves(r), kr) by {
      FirstBigSplit(Leaves(l), Leaves(r), k);
    }
    SplitNone(l);
    SplitLeaves(r, depth + 1, kr);
    assert Split(x, false) == (Pair(l, sr.0), sr.1);
    SplitInRight(x, depth, kr, sr, Split(x, false));
    SplitsAtIndex(x, depth, Split(x, false), |Leaves(x.left)| + kr, k);
  }

  lemma SplitsAtIndex(x: Snail, depth: nat, y: (Snail, bool), k: nat, j: nat)
    requires SplitsAt(x, depth, y, k) && j == k
    ensures SplitsAt(x, depth, y, j)
  {
  }

  lemma SplitInLeft(x: Snail, depth: nat, k: nat, sl: (Snail, bool), y: (Snail, bool))
    requires x.Pair? && k < |Leaves(x.left)| && SplitsAt(x.left, depth + 1, sl, k)
    requires y == (Pair(sl.0, x.right), true)
    ensures SplitsAt(x, depth, y, k)
  {
    var l, r := x.left, x.right;
    assert x == Pair(l, r);
    var lr, dr := Leaves(r), Depths(r, depth + 1);
    SplitsRowLeft(Leaves(l), lr, Depths(l, depth + 1), dr, k, Leaves(sl.0), Depths(sl.0, depth + 1));
    assert Leaves(x) == Leaves(l) + lr && Depths(x, depth) == Depths(l, depth + 1) + dr;
    assert Leaves(y.0) == Leaves(sl.0) + lr && Depths(y.0, depth) == Depths(sl.0, depth + 1) + dr;
  }

  lemma SplitInRight(x: Snail, depth: nat, k: nat, sr: (Snail, bool), y: (Snail, bool))
    requires x.Pair? && SplitsAt(x.right, depth + 1, sr, k)
    requires y == (Pair(x.left, sr.0), sr.1)
    ensures SplitsAt(x, depth, y, |Leaves(x.left)| + k)
  {
    var l, r := x.left, x.right;
    assert x == Pair(l, r);
    var ll, dl := Leaves(l), Depths(l, depth + 1);
    SplitsRowRight(ll, Leaves(r), dl, Depths(r, depth + 1), k, sr.1, Leaves(sr.0), Depths(sr.0, depth + 1));
    assert Leaves(x) == ll + Leaves(r) && Depths(x, depth) == dl + Depths(r, depth + 1);
    assert Leaves(y.0) == ll + Leaves(sr.0) && Depths(y.0, depth) == dl + Depths(sr.0, depth + 1);
  }

  /** With no number of ten or more, split changes nothing. */
  lemma {:induction false} SplitNone(x: Snail)
    requires FirstBigAt(Leaves(x), |Leaves(x)|)
    ensures Split(x, false) == (x, false)
  {
    match x
    case Lit(_) =>
      assert Leaves(x)[0] < 10;
    case Pair(l, r) =>
      FirstBigSplit(Leaves(l), Leaves(r), |Leaves(x)|);
      SplitNone(l);
      SplitNone(r);
  }

  lemma SplitFirstExample()
    ensures Split(Pair(Pair(Pair(Pair(Lit(0), Lit(7)), Lit(4)), Pair(Lit(15), Pair(Lit(0), Lit(13)))), Pair(Lit(1), Lit(1))), false)
      == (Pair(Pair(Pair(Pair(Lit(0), Lit(7)), Lit(4)), Pair(Pair(Lit(7), Lit(8)), Pair(Lit(0), Lit(13)))), Pair(Lit(1), Lit(1))), true)
  {
    var a := Pair(Pair(Lit(0), Lit(7)), Lit(4));
    assert Split(Pair(Lit(0), Lit(7)), false) == (Pair(Lit(0), Lit(7)), false);
    assert Split(a, false) == (a, false);
    assert Split(Lit(15), false) == (Pair(Lit(7), Lit(8)), true);
    var b := Pair(Lit(15), Pair(Lit(0), Lit(13)));
    assert Split(b, false) == (Pair(Pair(Lit(7), Lit(8)), Pair(Lit(0), Lit(13))), true);
  }

  lemma SplitSecondExample()
    ensures Split(Pair(Pair(Pair(Pair(Lit(0), Lit(7)), Lit(4)), Pair(Pair(Lit(7), Lit(8)), Pair(Lit(0), Lit(13)))), Pair(Lit(1), Lit(1))), false)
      == (Pair(Pair(Pair(Pair(Lit(0), Lit(7)), Lit(4)), Pair(Pair(Lit(7), Lit(8)), Pair(Lit(0), Pair(Lit(6), Lit(7))))), Pair(Lit(1), Lit(1))), true)
  {
    var a := Pair(Pair(Lit(0), Lit(7)), Lit(4));
    assert Split(Pair(Lit(0), Lit(7)), false) == (Pair(Lit(0), Lit(7)), false);
    assert Split(a, false) == (a, false);
    assert Split(Pair(Lit(7), Lit(8)), false) == (Pair(Lit(7), Lit(8)), false);
    assert Split(Lit(13), false) == (Pair(Lit(6), Lit(7)), true);
    assert Split(Pair(Lit(0), Lit(13)), false) == (Pair(Lit(0), Pair(Lit(6), Lit(7))), true);
  }


  // add

  /** Neither an explosion nor a split applies. */
  predicate Reduced(x: Snail)
  {
    Height(x) <= 4 && forall i :: 0 <= i < |Leaves(x)| ==> Leaves(x)[i] < 10
  }

  /** One round of the reduction loop of add: the number after exploding
      or, when nothing explodes, after splitting, and whether either
      applied. */
  function Round(x: Snail): (y: (Snail, bool))
    requires Height(x) <= 5
    ensures Height(y.0) <= 5
  {
    var e := Explode(x, 0);
    if e.exploded then (e.number, true) else Split(x, false)
  }

  /** The reduction loop of add: rounds until neither an explosion nor a
      split applies; None once fuel rounds have been spent. */
  function Reduce(x: Snail, fuel: nat): Option<Snail>
    requires Height(x) <= 5
    decreases fuel
  {
    if fuel == 0 then None
    else
      var y := Round(x);
      if y.1 then Reduce(y.0, fuel - 1) else Some(y.0)
  }

  /** Whatever the reduction ends with is reduced. */
  lemma {:induction false} ReduceSound(x: Snail, fuel: nat)
    requires Height(x) <= 5
    ensures Reduce(x, fuel).Some? ==> Reduced(Reduce(x, fuel).value)
    decreases fuel
  {
    if fuel > 0 {
      var y := Round(x);
      if y.1 {
        ReduceSound(y.0, fuel - 1);
      } else {
        assert !Explode(x, 0).exploded && y == Split(x, false);
        SplitLeaves(x, 0, FirstBig(Leaves(x)));
        SplitNone(x);
      }
    }
  }

  /** A reduced number is left as it is. */
  lemma ReduceReduced(x: Snail, fuel: nat)
    requires Reduced(x) && fuel > 0
    ensures Reduce(x, fuel) == Some(x)
  {
    SplitNone(x);
  }

  /** More rounds never change an outcome that was reached. */
  lemma {:induction false} ReduceMoreFuel(x: Snail, fuel: nat, more: nat)
    requires Height(x) <= 5 && fuel <= more
    requires Reduce(x, fuel).Some?
    ensures Reduce(x, more) == Reduce(x, fuel)
    decreases fuel
  {
    var y := Round(x);
    if y.1 {
      ReduceMoreFuel(y.0, fuel - 1, more - 1);
    }
  }

  /** add: the pair of the two numbers, reduced. The numbers added are
      reduced, as every puzzle input and every sum is. */
  method Add(a: Snail, b: Snail, fuel: nat) returns (r: Option<Snail>)
    requires Height(a) <= 4 && Height(b) <= 4
    ensures r == Reduce(Pair(a, b), fuel)
    ensures r.Some? ==> Reduced(r.value)
  {
    var number := Pair(a, b);
    var reduced := true;
    var rounds := fuel;
    ReduceSound(number, fuel);
    while reduced
      invariant Height(number) <= 5
      invariant reduced ==> Reduce(Pair(a, b), fuel) == Reduce(number, rounds)
      invariant !reduced ==> Reduce(Pair(a, b), fuel) == Some(number)
      decreases rounds
    {
      if rounds == 0 {
        return None;
      }
      var e := Explode(number, 0);
      reduced := e.exploded;
      if reduced {
        number := e.number;
      } else {
        var split := Split(number, false);
        number, reduced := split.0, split.1;
      }
      rounds := rounds - 1;
    }
    return Some(number);
  }

  lemma AddFirstExample()
    ensures Reduce(Pair(Pair(Pair(Pair(Pair(Lit(1), Lit(1)), Pair(Lit(2), Lit(2))), Pair(Lit(3), Lit(3))), Pair(Lit(4), Lit(4))), Pair(Lit(5), Lit(5))), 3)
      == Some(Pair(Pair(Pair(Pair(Lit(3), Lit(0)), Pair(Lit(5), Lit(3))), Pair(Lit(4), Lit(4))), Pair(Lit(5), Lit(5))))
  {
    var p33, p44, p55 := Pair(Lit(3), Lit(3)), Pair(Lit(4), Lit(4)), Pair(Lit(5), Lit(5));
    var x0 := Pair(Pair(Pair(Pair(Pair(Lit(1), Lit(1)), Pair(Lit(2), Lit(2))), p33), p44), p55);
    var x1 := Pair(Pair(Pair(Pair(Lit(0), Pair(Lit(3), Lit(2))), p33), p44), p55);
    var x2 := Pair(Pair(Pair(Pair(Lit(3), Lit(0)), Pair(Lit(5), Lit(3))), p44), p55);
    assert Explode(Pair(Lit(1), Lit(1)), 4) == Explosion(true, Some(1), Lit(0), Some(1));
    assert Explode(Pair(Pair(Lit(1), Lit(1)), Pair(Lit(2), Lit(2))), 3)
      == Explosion(true, Some(1), Pair(Lit(0), Pair(Lit(3), Lit(2))), None);
    assert Explode(x0, 0) == Explosion(true, Some(1), x1, None);
    assert Explode(Pair(Lit(3), Lit(2)), 4) == Explosion(true, Some(3), Lit(0), Some(2));
    assert Explode(Pair(Lit(0), Pair(Lit(3), Lit(2))), 3)
      == Explosion(true, None, Pair(Lit(3), Lit(0)), Some(2));
    assert Explode(Pair(Pair(Lit(0), Pair(Lit(3), Lit(2))), p33), 2)
      == Explosion(true, None, Pair(Pair(Lit(3), Lit(0)), Pair(Lit(5), Lit(3))), None);
    assert Explode(x1, 0) == Explosion(true, None, x2, None);
    assert !Explode(x2.left.left.left, 3).exploded && !Explode(x2.left.left.right, 3).exploded;
    assert !Explode(x2, 0).exploded;
    assert Split(x2, false) == (x2, false);
  }

  lemma AddSecondExample()
    ensures Reduce(Pair(Pair(Pair(Pair(Pair(Lit(3), Lit(0)), Pair(Lit(5), Lit(3))), Pair(Lit(4), Lit(4))), Pair(Lit(5), Lit(5))), Pair(Lit(6), Lit(6))), 3)
      == Some(Pair(Pair(Pair(Pair(Lit(5), Lit(0)), Pair(Lit(7), Lit(4))), Pair(Lit(5), Lit(5))), Pair(Lit(6), Lit(6))))
  {
    var p44, p55, p66 := Pair(Lit(4), Lit(4)), Pair(Lit(5), Lit(5)), Pair(Lit(6), Lit(6));
    var x0 := Pair(Pair(Pair(Pair(Pair(Lit(3), Lit(0)), Pair(Lit(5), Lit(3))), p44), p55), p66);
    var x1 := Pair(Pair(Pair(Pair(Lit(0), Pair(Lit(5), Lit(3))), p44), p55), p66);
    var x2 := Pair(Pair(Pair(Pair(Lit(5), Lit(0)), Pair(Lit(7), Lit(4))), p55), p66);
    assert Explode(Pair(Lit(3), Lit(0)), 4) == Explosion(true, Some(3), Lit(0), Some(0));
    assert Explode(Pair(Pair(Lit(3), Lit(0)), Pair(Lit(5), Lit(3))), 3)
      == Explosion(true, Some(3), Pair(Lit(0), Pair(Lit(5), Lit(3))), None);
    assert Explode(x0, 0) == Explosion(true, Some(3), x1, None);
    assert Explode(Pair(Lit(5), Lit(3)), 4) == Explosion(true, Some(5), Lit(0), Some(3));
    assert Explode(Pair(Lit(0), Pair(Lit(5), Lit(3))), 3)
      == Explosion(true, None, Pair(Lit(5), Lit(0)), Some(3));
    assert Explode(Pair(Pair(Lit(0), Pair(Lit(5), Lit(3))), p44), 2)
      == Explosion(true, None, Pair(Pair(Lit(5), Lit(0)), Pair(Lit(7), Lit(4))), None);
    assert Explode(x1, 0) == Explosion(true, None, x2, None);
    assert !Explode(x2.left.left.left, 3).exploded && !Explode(x2.left.left.right, 3).exploded;
    assert !Explode(x2, 0).exploded;
    assert Split(x2, false) == (x2, false);
  }




  // magnitude

  /** magnitude: three times the left half plus twice the right half. */
  function Magnitude(x: Snail): nat
  {
    match x
    case Lit(n) => n
    case Pair(l, r) => 3 * Magnitude(l) + 2 * Magnitude(r)
  }

  function LeafSum(x: Snail): nat
  {
    match x
    case Lit(n) => n
    case Pair(l, r) => LeafSum(l) + LeafSum(r)
  }

  /** Each regular number counts at least once and at most 3^Height times. */
  lemma {:induction false} MagnitudeBounds(x: Snail)
    ensures LeafSum(x) <= Magnitude(x) <= Pow(3, Height(x)) * LeafSum(x)
  {
    match x
    case Lit(n) =>
    case Pair(l, r) =>
      MagnitudeBounds(l);
      MagnitudeBounds(r);
      var h := Height(x) - 1;
      PowMonotone(Height(l), h);
      PowMonotone(Height(r), h);
      MagnitudeStep(Magnitude(l), Magnitude(r), LeafSum(l), LeafSum(r),
                    Pow(3, Height(l)), Pow(3, Height(r)), Pow(3, h));
      assert Pow(3, h + 1) == 3 * Pow(3, h);
  }

  /** The step of MagnitudeBounds on plain numbers: m for magnitudes, s for
      leaf sums, p for powers of three. */
  lemma MagnitudeStep(ml: nat, mr: nat, sl: nat, sr: nat, pl: nat, pr: nat, p: nat)
    requires sl <= ml <= pl * sl && sr <= mr <= pr * sr
    requires pl <= p && pr <= p
    ensures sl + sr <= 3 * ml + 2 * mr <= (3 * p) * (sl + sr)
  {
    MulMonotone(pl, p, sl);
    MulMonotone(pr, p, sr);
    assert 3 * ml + 2 * mr <= 3 * (p * sl) + 3 * (p * sr);
    assert 3 * (p * sl) + 3 * (p * sr) == (3 * p) * (sl + sr);
  }

  lemma MulMonotone(a: nat, b: nat, c: nat)
    requires a <= b
    ensures a * c <= b * c
  {
  }

  lemma {:induction false} PowMonotone(m: nat, n: nat)
    requires m <= n
    ensures 1 <= Pow(3, m) <= Pow(3, n)
    decreases n
  {
    if m < n {
      PowMonotone(m, n - 1);
    } else {
      PowPositive(3, n);
    }
  }

  lemma MagnitudeFirstExample()
    ensures Magnitude(Pair(Pair(Lit(1), Lit(2)), Pair(Pair(Lit(3), Lit(4)), Lit(5)))) == 143
  {
    assert Magnitude(Pair(Pair(Lit(3), Lit(4)), Lit(5))) == 61;
  }

  lemma MagnitudeSecondExample()
    ensures Magnitude(Pair(Pair(Pair(Pair(Lit(0), Lit(7)), Lit(4)), Pair(Pair(Lit(7), Lit(8)), Pair(Lit(6), Lit(0)))), Pair(Lit(8), Lit(1)))) == 1384
  {
    assert Magnitude(Pair(Pair(Lit(0), Lit(7)), Lit(4))) == 50;
    assert Magnitude(Pair(Pair(Lit(7), Lit(8)), Pair(Lit(6), Lit(0)))) == 147;
  }

  lemma MagnitudeThirdExample()
    ensures Magnitude(Pair(Pair(Pair(Pair(Lit(5), Lit(0)), Pair(Lit(7), Lit(4))), Pair(Lit(5), Lit(5))), Pair(Lit(6), Lit(6)))) == 1137
  {
    assert Magnitude(Pair(Pair(Lit(5), Lit(0)), Pair(Lit(7), Lit(4)))) == 103;
  }



  // part_one and part_two

  /** reduce(add, numbers): the running sum from the left; None for no
      numbers (reduce of an empty list raises) or when fuel runs out. */
  function SumAll(numbers: seq<Snail>, fuel: nat): (r: Option<Snail>)
    requires forall i :: 0 <= i < |numbers| ==> Height(numbers[i]) <= 4
    ensures numbers == [] ==> r.None?
    ensures r.Some? && |numbers| > 1 ==> Reduced(r.value)
  {
    if numbers == [] then None
    else if |numbers| == 1 then Some(numbers[0])
    else
      match SumAll(numbers[..|numbers| - 1], fuel)
      case None => None
      case Some(front) =>
        var r := Reduce(Pair(front, numbers[|numbers| - 1]), fuel);
        ReduceSound(Pair(front, numbers[|numbers| - 1]), fuel);
        r
  }

  /** part_one: the magnitude of the sum. Being reduced, the sum counts
      each of its regular numbers at most 3^4 times. */
  function PartOne(numbers: seq<Snail>, fuel: nat): (r: Option<nat>)
    requires forall i :: 0 <= i < |numbers| ==> Height(numbers[i]) <= 4
    ensures r.Some? <==> SumAll(numbers, fuel).Some?
    ensures r.Some? && |numbers| > 1 ==> r.value <= 81 * LeafSum(SumAll(numbers, fuel).value)
  {
    match SumAll(numbers, fuel)
    case None => None
    case Some(total) =>
      MagnitudeBounds(total);
      PowMonotone(Height(total), 4);
      assert Pow(3, 4) == 81;
      MulMonotone(Pow(3, Height(total)), 81, LeafSum(total));
      Some(Magnitude(total))
  }
}
