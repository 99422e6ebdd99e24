/** The seed almanac of 2023 day 5: each map shifts the values of its
    source ranges and leaves every other value as it is; the almanac sends
    a seed through its maps in order. Values are u64 in the source and
    naturals here. */
module SeedAlmanac {
  import opened Prelude

  /** A range with inclusive bounds. */
  datatype Range = Range(start: nat, end: nat)

  /** Range::contains. */
  predicate Contains(r: Range, value: nat)
  {
    value >= r.start && value <= r.end
  }

  /** Range::overlaps: self holds other's start, or other's end, or lies
      inside other. */
  predicate Overlaps(self: Range, other: Range)
  {
    || (self.start <= other.start && self.end >= other.start)
    || (self.start <= other.end && self.end >= other.end)
    || (self.start >= other.start && self.end <= other.end)
  }

  /** For non-empty ranges, overlaps holds exactly when the two share a
      value. */
  lemma OverlapsMeaning(self: Range, other: Range)
    requires self.start <= self.end && other.start <= other.end
    ensures Overlaps(self, other) <==> exists v :: Contains(self, v) && Contains(other, v)
  {
    if Overlaps(self, other) {
      if self.start <= other.start && self.end >= other.start {
        assert Contains(self, other.start);
      } else if self.start <= other.end && self.end >= other.end {
        assert Contains(self, other.end);
      } else {
        assert Contains(self, self.start) && Contains(other, self.start);
      }
    }
  }

  /** test_overlap_range. */
  lemma OverlapTests()
    ensures Overlaps(Range(5, 5), Range(0, 5))
    ensures Overlaps(Range(0, 4), Range(0, 5))
    ensures Overlaps(Range(0, 4), Range(2, 3))
    ensures !Overlaps(Range(0, 4), Range(6, 7))
    ensures !Overlaps(Range(10, 14), Range(6, 7))
  {
  }

  /** A mapping shifts its range up by diff, or down when negative; a
      downward shift never goes below the range start. */
  datatype RawMapping = Mapping(range: Range, diff: nat, negative: bool)

  type Mapping = m: RawMapping | m.negative ==> m.diff <= m.range.start witness Mapping(Range(0, 0), 0, false)

  /** Mapping::from on the three numbers of a line, destination start,
      source start and length. None is the u64 underflow of
      source_start + range - 1 at 0. */
  function MappingFrom(destinationStart: nat, sourceStart: nat, length: nat): (r: Option<Mapping>)
    ensures r.Some? <==> sourceStart + length >= 1
    ensures r.Some? ==> r.value.range == Range(sourceStart, sourceStart + length - 1)
    ensures r.Some? && length > 0 ==> ApplyMapping(r.value, sourceStart) == Some(destinationStart)
    ensures r.Some? ==> forall v: nat :: Contains(r.value.range, v) ==> ApplyMapping(r.value, v) == Some(v - sourceStart + destinationStart)
  {
    if sourceStart + length < 1 then None
    else
      var negative := destinationStart < sourceStart;
      var diff := if negative then sourceStart - destinationStart else destinationStart - sourceStart;
      var m: Mapping := Mapping(Range(sourceStart, sourceStart + length - 1), diff, negative);
      Some(m)
  }

  /** Mapping::apply: the shifted value inside the range, None outside. */
  function ApplyMapping(m: Mapping, value: nat): (r: Option<nat>)
    ensures r.None? <==> !Contains(m.range, value)
    ensures r.Some? ==> r.value == if m.negative then value - m.diff else value + m.diff
  {
    if !Contains(m.range, value) then None
    else if m.negative then Some(value - m.diff) else Some(value + m.diff)
  }

  /** Map::apply: the first mapping whose range holds the value decides;
      a value no mapping holds is unchanged. */
  function MapApply(mappings: seq<Mapping>, value: nat): (r: nat)
    ensures (forall i :: 0 <= i < |mappings| ==> !Contains(mappings[i].range, value)) ==> r == value
  {
    if mappings == [] then value
    else if Contains(mappings[0].range, value) then ApplyMapping(mappings[0], value).value
    else MapApply(mappings[1..], value)
  }

  /** The mapping Map::apply uses is the first whose range holds the value. */
  lemma {:induction false} MapApplyFirst(mappings: seq<Mapping>, value: nat, i: nat)
    requires i < |mappings| && Contains(mappings[i].range, value)
    requires forall j :: 0 <= j < i ==> !Contains(mappings[j].range, value)
    ensures MapApply(mappings, value) == ApplyMapping(mappings[i], value).value
  {
    if i > 0 {
      MapApplyFirst(mappings[1..], value, i - 1);
    }
  }

  /** Mappings ordered by the start of their ranges. */
  predicate SortedByStart(mappings: seq<Mapping>)
  {
    forall i, j :: 0 <= i < j < |mappings| ==> mappings[i].range.start <= mappings[j].range.start
  }

  /** One mapping put in its place among sorted ones, after those with the
      same start. */
  function Insert(m: Mapping, sorted: seq<Mapping>): (r: seq<Mapping>)
    requires SortedByStart(sorted)
    ensures SortedByStart(r)
    ensures multiset(r) == multiset(sorted) + multiset{m}
    ensures |r| == |sorted| + 1
    ensures forall x :: x in r ==> x == m || x in sorted
  {
    if sorted == [] then [m]
    else if m.range.start < sorted[0].range.start then
      SortedCons(m, sorted);
      [m] + sorted
    else
      SortedTail(sorted);
      var rest := Insert(m, sorted[1..]);
      assert sorted == [sorted[0]] + sorted[1..];
      SortedCons(sorted[0], rest);
      [sorted[0]] + rest
  }

  /** The rest of a sorted sequence is sorted and starts no lower than its head. */
  lemma SortedTail(sorted: seq<Mapping>)
    requires sorted != [] && SortedByStart(sorted)
    ensures SortedByStart(sorted[1..])
    ensures forall x :: x in sorted[1..] ==> sorted[0].range.start <= x.range.start
  {
  }

  /** A mapping starting no later than every element of a sorted sequence
      can go in front of it. */
  lemma SortedCons(m: Mapping, sorted: seq<Mapping>)
    requires SortedByStart(sorted)
    requires forall x :: x in sorted ==> m.range.start <= x.range.start
    ensures SortedByStart([m] + sorted)
  {
    var r := [m] + sorted;
    forall i, j | 0 <= i < j < |r|
      ensures r[i].range.start <= r[j].range.start
    {
      assert r[j] == sorted[j - 1];
      if i > 0 {
        assert r[i] == sorted[i - 1];
      }
    }
  }

  /** The sort of Map::from: by range start. */
  function SortByStart(mappings: seq<Mapping>): (r: seq<Mapping>)
    ensures SortedByStart(r)
    ensures multiset(r) == multiset(mappings)
  {
    if mappings == [] then []
    else
      var n := |mappings| - 1;
      assert mappings == mappings[..n] + [mappings[n]];
      Insert(mappings[n], SortByStart(mappings[..n]))
  }

  /** Almanac::apply: every map in order. */
  function ApplyAll(maps: seq<seq<Mapping>>, seed: nat): nat
  {
    if maps == [] then seed else ApplyAll(maps[1..], MapApply(maps[0], seed))
  }

  /** Running maps a and then maps b is running their concatenation. */
  lemma {:induction false} ApplyAllAppend(a: seq<seq<Mapping>>, b: seq<seq<Mapping>>, seed: nat)
    ensures ApplyAll(a + b, seed) == ApplyAll(b, ApplyAll(a, seed))
  {
    if a != [] {
      assert (a + b)[1..] == a[1..] + b && (a + b)[0] == a[0];
      ApplyAllAppend(a[1..], b, MapApply(a[0], seed));
    } else {
      assert a + b == b;
    }
  }

  /** Almanac::apply: the for_each loop updating current. */
  method AlmanacApply(maps: seq<seq<Mapping>>, seed: nat) returns (current: nat)
    ensures current == ApplyAll(maps, seed)
  {
    current := seed;
    var i := 0;
    while i < |maps|
      invariant i <= |maps|
      invariant ApplyAll(maps, seed) == ApplyAll(maps[i..], current)
    {
      assert maps[i..][1..] == maps[i + 1..];
      current := MapApply(maps[i], current);
      i := i + 1;
    }
  }

  /** A value inside the mapping's range moved by the mapping. */
  function Shift(m: Mapping, value: nat): (r: nat)
    requires value >= m.range.start
    ensures Contains(m.range, value) ==> ApplyMapping(m, value) == Some(r)
  {
    if m.negative then value - m.diff else value + m.diff
  }

  /** The ranges hold a value. */
  ghost predicate InRanges(ranges: seq<Range>, w: nat)
  {
    exists k :: 0 <= k < |ranges| && Contains(ranges[k], w)
  }

  lemma InRangesConcat(a: seq<Range>, b: seq<Range>, w: nat)
    ensures InRanges(a + b, w) <==> InRanges(a, w) || InRanges(b, w)
  {
    if InRanges(a + b, w) {
      var k :| 0 <= k < |a + b| && Contains((a + b)[k], w);
      if k >= |a| {
        assert Contains(b[k - |a|], w);
      }
    }
    if InRanges(b, w) {
      var k :| 0 <= k < |b| && Contains(b[k], w);
      assert (a + b)[|a| + k] == b[k];
    }
    if InRanges(a, w) {
      var k :| 0 <= k < |a| && Contains(a[k], w);
      assert (a + b)[k] == a[k];
    }
  }

  /** Map::apply_map as written, for one range, over the mappings from the
      first on: the part before an overlapping mapping goes through
      unchanged, the part inside it is shifted, and the scan goes on from
      the end of the shifted part; what is left after the last mapping goes
      through when its start is below the range end. None is a panic of the
      unwrap on Mapping::apply. */
  function SegmentsAsWritten(ms: seq<Mapping>, r: Range, start: nat): Option<seq<Range>>
  {
    if ms == [] then Some(if start < r.end then [Range(start, r.end)] else [])
    else if !Overlaps(ms[0].range, r) then SegmentsAsWritten(ms[1..], r, start)
    else
      var m := ms[0];
      var gap := if start < m.range.start then [Range(start, m.range.start - 1)] else [];
      var from := if start < m.range.start then m.range.start else start;
      var end := Min(m.range.end, r.end);
      match (ApplyMapping(m, from), ApplyMapping(m, end), SegmentsAsWritten(ms[1..], r, end))
      case (Some(a), Some(b), Some(rest)) => Some(gap + [Range(a, b)] + rest)
      case _ => None
  }

  /** The ranges of o, unless it is a panic, after prefix. */
  function After(prefix: seq<Range>, o: Option<seq<Range>>): (r: Option<seq<Range>>)
    ensures r.None? <==> o.None?
    ensures prefix == [] ==> r == o
  {
    match o
    case None => None
    case Some(rest) =>
      assert prefix == [] ==> prefix + rest == rest;
      Some(prefix + rest)
  }

  lemma AfterAfter(a: seq<Range>, b: seq<Range>, o: Option<seq<Range>>)
    ensures After(a, After(b, o)) == After(a + b, o)
  {
    if o.Some? {
      assert a + (b + o.value) == a + b + o.value;
    }
  }

  /** Map::apply_map as written over all ranges. */
  function ApplyMapAsWritten(ms: seq<Mapping>, ranges: seq<Range>): Option<seq<Range>>
  {
    if ranges == [] then Some([])
    else
      match (SegmentsAsWritten(ms, ranges[0], ranges[0].start), ApplyMapAsWritten(ms, ranges[1..]))
      case (Some(first), Some(rest)) => Some(first + rest)
      case _ => None
  }

  /** Map::apply_map: the loop over the ranges and, inside it, over the
      overlapping mappings with a mutable start. */
  method ApplyMap(ms: seq<Mapping>, ranges: seq<Range>) returns (output: Option<seq<Range>>)
    ensures output == ApplyMapAsWritten(ms, ranges)
  {
    var out: seq<Range> := [];
    assert ranges[0..] == ranges;
    for i := 0 to |ranges|
      invariant ApplyMapAsWritten(ms, ranges) == After(out, ApplyMapAsWritten(ms, ranges[i..]))
    {
      assert ranges[i..][0] == ranges[i] && ranges[i..][1..] == ranges[i + 1..];
      var range := ranges[i];
      var start: nat := range.start;
      var pushed: seq<Range> := [];
      var j := 0;
      assert ms[0..] == ms;
      while j < |ms|
        invariant j <= |ms|
        invariant SegmentsAsWritten(ms, range, range.start) == After(pushed, SegmentsAsWritten(ms[j..], range, start))
      {
        var m := ms[j];
        assert ms[j..][0] == m && ms[j..][1..] == ms[j + 1..];
        ghost var startBefore := start;
        if Overlaps(m.range, range) {
          var gap: seq<Range> := [];
          if start < m.range.start {
            gap := [Range(start, m.range.start - 1)];
            start := m.range.start;
          }
          var end: nat := Min(m.range.end, range.end);
          var mappedStart := ApplyMapping(m, start);
          var mappedEnd := ApplyMapping(m, end);
          if mappedStart.None? || mappedEnd.None? {
            return None;
          }
          var piece := gap + [Range(mappedStart.value, mappedEnd.value)];
          assert SegmentsAsWritten(ms[j..], range, startBefore) == After(piece, SegmentsAsWritten(ms[j + 1..], range, end));
          AfterAfter(pushed, piece, SegmentsAsWritten(ms[j + 1..], range, end));
          pushed := pushed + piece;
          start := end;
        }
        j := j + 1;
      }
      assert ms[|ms|..] == [];
      if start < range.end {
        pushed := pushed + [Range(start, range.end)];
      } else {
        assert pushed + [] == pushed;
      }
      AfterAfter(out, pushed, ApplyMapAsWritten(ms, ranges[i + 1..]));
      out := out + pushed;
    }
    assert ranges[|ranges|..] == [] && out + [] == out;
    return Some(out);
  }

  /** The values before the mapping, which pass through unchanged. */
  function Gap(m: Mapping, start: nat): seq<Range>
  {
    if start < m.range.start then [Range(start, m.range.start - 1)] else []
  }

  /** The first value the mapping shifts. */
  function From(m: Mapping, start: nat): nat
  {
    if start < m.range.start then m.range.start else start
  }

  /** Map::apply_map as evidently intended, for one range: the scan goes on
      from the value after the shifted part, and what is left after the
      last mapping goes through whenever it is not empty. */
  function Segments(ms: seq<Mapping>, r: Range, start: nat): seq<Range>
  {
    if ms == [] then (if start <= r.end then [Range(start, r.end)] else [])
    else if !Overlaps(ms[0].range, r) then Segments(ms[1..], r, start)
    else
      var m := ms[0];
      var from := From(m, start);
      var end := Min(m.range.end, r.end);
      if from <= end then Gap(m, start) + [Range(Shift(m, from), Shift(m, end))] + Segments(ms[1..], r, end + 1)
      else Gap(m, start) + Segments(ms[1..], r, start)
  }

  /** No value lies in the ranges of two mappings. */
  ghost predicate Disjoint(ms: seq<Mapping>)
  {
    forall i, j, v: nat :: 0 <= i < j < |ms| && Contains(ms[i].range, v) ==> !Contains(ms[j].range, v)
  }

  predicate NonEmpty(ms: seq<Mapping>)
  {
    forall i :: 0 <= i < |ms| ==> ms[i].range.start <= ms[i].range.end
  }

  /** The mappings before k touch no value of start..end. */
  ghost predicate Settled(ms: seq<Mapping>, k: nat, start: nat, end: nat)
    requires k <= |ms|
  {
    forall i, v: nat :: 0 <= i < k && Contains(ms[i].range, v) ==> v < start || v > end
  }

  /** With disjoint mappings, a value is moved by the mapping that holds
      it. */
  lemma MappedBy(ms: seq<Mapping>, k: nat, v: nat)
    requires Disjoint(ms) && k < |ms| && Contains(ms[k].range, v)
    ensures MapApply(ms, v) == Shift(ms[k], v)
  {
    MapApplyFirst(ms, v, k);
  }

  /** A value of the window below the next mapping is held by no mapping. */
  lemma Unmapped(ms: seq<Mapping>, k: nat, start: nat, end: nat, v: nat)
    requires SortedByStart(ms) && k < |ms| && Settled(ms, k, start, end)
    requires start <= v <= end && v < ms[k].range.start
    ensures MapApply(ms, v) == v
  {
    forall i | 0 <= i < |ms|
      ensures !Contains(ms[i].range, v)
    {
      if i > k {
        assert ms[k].range.start <= ms[i].range.start;
      }
    }
  }

  /** What the gap and the shifted part of an overlapping mapping hold is
      exactly what Map::apply gives for start..end, where end is where the
      mapping or the range ends. */
  lemma StepPieces(ms: seq<Mapping>, k: nat, r: Range, start: nat, w: nat)
    requires SortedByStart(ms) && Disjoint(ms) && k < |ms|
    requires Settled(ms, k, start, r.end)
    requires ms[k].range.start <= r.end
    requires From(ms[k], start) <= Min(ms[k].range.end, r.end)
    ensures var m := ms[k]; var end := Min(m.range.end, r.end);
      InRanges(Gap(m, start) + [Range(Shift(m, From(m, start)), Shift(m, end))], w) <==>
        exists v :: start <= v <= end && MapApply(ms, v) == w
  {
    var m := ms[k];
    var end := Min(m.range.end, r.end);
    var gap := Gap(m, start);
    var mapped := [Range(Shift(m, From(m, start)), Shift(m, end))];
    InRangesConcat(gap, mapped, w);
    if InRanges(gap, w) {
      Unmapped(ms, k, start, r.end, w);
      assert start <= w <= end && MapApply(ms, w) == w;
    }
    if InRanges(mapped, w) {
      var v := if m.negative then w + m.diff else w - m.diff;
      MappedBy(ms, k, v);
      assert start <= v <= end && MapApply(ms, v) == w;
    }
    if exists v :: start <= v <= end && MapApply(ms, v) == w {
      var v :| start <= v <= end && MapApply(ms, v) == w;
      if v < m.range.start {
        Unmapped(ms, k, start, r.end, v);
        assert Contains(gap[0], w);
      } else {
        MappedBy(ms, k, v);
        assert Contains(mapped[0], w);
      }
    }
  }

  /** Splitting the window start..r.end at end. */
  lemma WindowSplit(ms: seq<Mapping>, start: nat, end: nat, last: nat, w: nat)
    requires start <= end <= last
    ensures (exists v :: start <= v <= last && MapApply(ms, v) == w) <==>
      (exists v :: start <= v <= end && MapApply(ms, v) == w) || (exists v :: end + 1 <= v <= last && MapApply(ms, v) == w)
  {
  }

  /** Past the last mapping, the rest of the window is passed through unchanged. */
  lemma SegmentsBase(ms: seq<Mapping>, r: Range, start: nat, w: nat)
    requires Settled(ms, |ms|, start, r.end)
    ensures InRanges(Segments([], r, start), w) <==> exists v :: start <= v <= r.end && MapApply(ms, v) == w
  {
    var out := Segments([], r, start);
    if start <= r.end {
      assert out == [Range(start, r.end)];
      if InRanges(out, w) {
        assert MapApply(ms, w) == w;
      }
      if exists v :: start <= v <= r.end && MapApply(ms, v) == w {
        var v :| start <= v <= r.end && MapApply(ms, v) == w;
        assert MapApply(ms, v) == v;
        assert Contains(out[0], w);
      }
    } else {
      assert out == [];
    }
  }

  /** One overlapping mapping's pieces, followed by what the scan of the
      rest yields for the window after it. */
  lemma SegmentsOverlap(ms: seq<Mapping>, k: nat, r: Range, start: nat, w: nat)
    requires SortedByStart(ms) && Disjoint(ms) && k < |ms|
    requires Settled(ms, k, start, r.end) && Overlaps(ms[k].range, r)
    requires From(ms[k], start) <= Min(ms[k].range.end, r.end)
    requires var end := Min(ms[k].range.end, r.end);
      InRanges(Segments(ms[k + 1..], r, end + 1), w) <==> exists v :: end + 1 <= v <= r.end && MapApply(ms, v) == w
    ensures InRanges(Segments(ms[k..], r, start), w) <==> exists v :: start <= v <= r.end && MapApply(ms, v) == w
  {
    var m := ms[k];
    assert ms[k..][0] == m && ms[k..][1..] == ms[k + 1..];
    var end := Min(m.range.end, r.end);
    var pieces := Gap(m, start) + [Range(Shift(m, From(m, start)), Shift(m, end))];
    assert Segments(ms[k..], r, start) == pieces + Segments(ms[k + 1..], r, end + 1);
    StepPieces(ms, k, r, start, w);
    InRangesConcat(pieces, Segments(ms[k + 1..], r, end + 1), w);
    WindowSplit(ms, start, end, r.end, w);
  }

  /** With the correction, for sorted, disjoint, non-empty mappings, the
      ranges the scan produces for one non-empty range hold exactly the
      values Map::apply gives for the values of the range. */
  lemma {:induction false} SegmentsMeaning(ms: seq<Mapping>, k: nat, r: Range, start: nat, w: nat)
    requires SortedByStart(ms) && Disjoint(ms) && NonEmpty(ms)
    requires k <= |ms| && r.start <= r.end && r.start <= start
    requires Settled(ms, k, start, r.end)
    ensures InRanges(Segments(ms[k..], r, start), w) <==> exists v :: start <= v <= r.end && MapApply(ms, v) == w
    decreases |ms| - k
  {
    if k == |ms| {
      assert ms[k..] == [];
      SegmentsBase(ms, r, start, w);
    } else {
      var m := ms[k];
      assert ms[k..][0] == m && ms[k..][1..] == ms[k + 1..];
      OverlapsMeaning(m.range, r);
      if !Overlaps(m.range, r) {
        SegmentsMeaning(ms, k + 1, r, start, w);
      } else {
        var from := From(m, start);
        var end := Min(m.range.end, r.end);
        if from <= end {
          SegmentsMeaning(ms, k + 1, r, end + 1, w);
          SegmentsOverlap(ms, k, r, start, w);
        } else {
          assert Gap(m, start) == [];
          assert Segments(ms[k..], r, start) == Segments(ms[k + 1..], r, start);
          SegmentsMeaning(ms, k + 1, r, start, w);
        }
      }
    }
  }

  /** The corrected scan of a non-empty range over sorted, disjoint,
      non-empty mappings yields exactly the image of the range under
      Map::apply. */
  lemma SegmentsExact(ms: seq<Mapping>, r: Range, w: nat)
    requires SortedByStart(ms) && Disjoint(ms) && NonEmpty(ms) && r.start <= r.end
    ensures InRanges(Segments(ms, r, r.start), w) <==> exists v :: Contains(r, v) && MapApply(ms, v) == w
  {
    assert ms[0..] == ms;
    SegmentsMeaning(ms, 0, r, r.start, w);
  }

  /** The mapping "100 0 5" and the range 0..10. */
  const Example: Mapping := Mapping(Range(0, 4), 100, false)

  /** As written, 0..10 comes out as 100..104 and 4..10: 4 is no value
      Map::apply gives for 0..10, so part two would report 4 where the
      lowest value is 5. A single-value range no mapping touches, 7..7,
      comes out as nothing. */
  lemma ApplyMapAsWrittenExample()
    ensures MappingFrom(100, 0, 5) == Some(Example)
    ensures ApplyMapAsWritten([Example], [Range(0, 10)]) == Some([Range(100, 104), Range(4, 10)])
    ensures forall v :: 0 <= v <= 10 ==> MapApply([Example], v) != 4
    ensures ApplyMapAsWritten([Example], [Range(7, 7)]) == Some([])
  {
    assert [Example][1..] == [];
    assert [Range(0, 10)][1..] == [];
    assert [Range(7, 7)][1..] == [];
    assert ApplyMapping(Example, 0) == Some(100) && ApplyMapping(Example, 4) == Some(104);
    assert SegmentsAsWritten([], Range(0, 10), 4) == Some([Range(4, 10)]);
    assert Overlaps(Example.range, Range(0, 10)) && Min(4, 10) == 4;
    assert [Example][0] == Example;
    assert [] + [Range(100, 104)] + [Range(4, 10)] == [Range(100, 104), Range(4, 10)];
    assert SegmentsAsWritten([Example], Range(0, 10), 0) == Some([Range(100, 104), Range(4, 10)]);
    assert !Overlaps(Example.range, Range(7, 7));
    assert SegmentsAsWritten([Example], Range(7, 7), 7) == Some([]);
    assert ApplyMapAsWritten([Example], []) == Some([]);
    var none: seq<Range> := [];
    assert none + none == none;
    assert [Range(100, 104), Range(4, 10)] + [] == [Range(100, 104), Range(4, 10)];
    forall v | 0 <= v <= 10
      ensures MapApply([Example], v) != 4
    {
      if v <= 4 {
        assert MapApply([Example], v) == v + 100;
      }
    }
  }

  /** With the correction the same range comes out as 100..104 and
      5..10, exactly the values Map::apply gives. */
  lemma SegmentsExample()
    ensures Segments([Example], Range(0, 10), 0) == [Range(100, 104), Range(5, 10)]
    ensures Segments([Example], Range(7, 7), 7) == [Range(7, 7)]
  {
    assert [Example][1..] == [];
  }
}
