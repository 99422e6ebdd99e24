/** The hot-spring records of 2023 day 12: a row of springs that are
    operational '.', damaged '#' or unknown '?', and the lengths of the runs
    of damaged springs. combinations counts the ways to fill in the unknown
    springs, with a memo table keyed by how many groups and how many
    springs are left. */
module HotSprings {
  import opened Prelude

  /** _combinations without the memo. None is the panic on a character
      other than '.', '#' and '?'. */
  function Count(record: seq<char>, groups: seq<nat>): (r: Option<nat>)
    ensures record == [] ==> r == Some(if groups == [] then 1 else 0)
    ensures record != [] && record[0] == '#' && groups == [] ==> r == Some(0)
    decreases if record == [] then 0 else 2 * |record| + 3
  {
    if record == [] then Some(if groups == [] then 1 else 0)
    else if record[0] == '.' then Count(record[1..], groups)
    else if record[0] == '#' then
      if groups == [] then Some(0) else TryPlace(groups[0], record, groups[1..])
    else if record[0] == '?' then
      if groups == [] then Count(record[1..], groups)
      else match TryPlace(groups[0], record, groups[1..])
        case None => None
        case Some(broken) =>
          match Count(record[1..], groups)
          case None => None
          case Some(unbroken) => Some(broken + unbroken)
    else None
  }

  /** The group cannot start at the front of the record: too few springs
      left, an operational spring inside it, or a damaged one right after
      it. */
  predicate Blocked(groupLen: nat, record: seq<char>)
  {
    |record| < groupLen || '.' in record[..groupLen] || (|record| > groupLen && record[groupLen] == '#')
  }

  /** _try_place: a group of groupLen damaged springs at the front of the
      record, followed by an operational one unless the record ends. */
  function TryPlace(groupLen: nat, record: seq<char>, groups: seq<nat>): (r: Option<nat>)
    ensures Blocked(groupLen, record) ==> r == Some(0)
    decreases 2 * |record| + 2
  {
    if Blocked(groupLen, record) then Some(0)
    else Count(record[Min(groupLen + 1, |record|)..], groups)
  }

  // The reference: every way of filling in the record, and the runs of
  // damaged springs of each.

  /** The springs with c put in front of each. */
  function Prefixed(c: char, fills: seq<seq<char>>): (r: seq<seq<char>>)
    ensures |r| == |fills| && forall i :: 0 <= i < |r| ==> r[i] == [c] + fills[i]
  {
    seq(|fills|, i requires 0 <= i < |fills| => [c] + fills[i])
  }

  /** Every row of '.' and '#' the record can stand for: a '?' is either. A
      record with another character stands for no row. */
  function Fillings(record: seq<char>): seq<seq<char>>
  {
    if record == [] then [[]]
    else
      var rest := Fillings(record[1..]);
      if record[0] == '.' then Prefixed('.', rest)
      else if record[0] == '#' then Prefixed('#', rest)
      else if record[0] == '?' then Prefixed('.', rest) + Prefixed('#', rest)
      else []
  }

  /** The lengths of the runs of '#' in a row, after a run of length run
      already seen. */
  function Runs(row: seq<char>, run: nat): seq<nat>
  {
    if row == [] then (if run > 0 then [run] else [])
    else if row[0] == '#' then Runs(row[1..], run + 1)
    else (if run > 0 then [run] else []) + Runs(row[1..], 0)
  }

  /** The group sizes a row shows. */
  function GroupsOf(row: seq<char>): seq<nat>
  {
    Runs(row, 0)
  }

  /** The rows whose runs after one of length run are the groups. */
  function CountRuns(rows: seq<seq<char>>, run: nat, groups: seq<nat>): nat
  {
    if rows == [] then 0
    else (if Runs(rows[0], run) == groups then 1 else 0) + CountRuns(rows[1..], run, groups)
  }

  /** The number of rows the record stands for that show the groups. */
  function Arrangements(record: seq<char>, groups: seq<nat>): nat
  {
    CountRuns(Fillings(record), 0, groups)
  }

  lemma {:induction false} CountRunsAppend(a: seq<seq<char>>, b: seq<seq<char>>, run: nat, groups: seq<nat>)
    ensures CountRuns(a + b, run, groups) == CountRuns(a, run, groups) + CountRuns(b, run, groups)
  {
    if a == [] {
      assert a + b == b;
    } else {
      assert (a + b)[1..] == a[1..] + b;
      CountRunsAppend(a[1..], b, run, groups);
    }
  }

  /** A damaged spring in front lengthens the current run. */
  lemma {:induction false} CountRunsDamaged(rows: seq<seq<char>>, run: nat, groups: seq<nat>)
    ensures CountRuns(Prefixed('#', rows), run, groups) == CountRuns(rows, run + 1, groups)
  {
    if rows != [] {
      assert Prefixed('#', rows)[1..] == Prefixed('#', rows[1..]);
      assert ([ '#' ] + rows[0])[1..] == rows[0];
      CountRunsDamaged(rows[1..], run, groups);
    }
  }

  /** An operational spring in front ends the current run, which must then
      be the next group. */
  lemma {:induction false} CountRunsOperational(rows: seq<seq<char>>, run: nat, groups: seq<nat>)
    ensures run == 0 ==> CountRuns(Prefixed('.', rows), run, groups) == CountRuns(rows, 0, groups)
    ensures run > 0 && groups != [] && groups[0] == run ==>
      CountRuns(Prefixed('.', rows), run, groups) == CountRuns(rows, 0, groups[1..])
    ensures run > 0 && (groups == [] || groups[0] != run) ==> CountRuns(Prefixed('.', rows), run, groups) == 0
  {
    if rows != [] {
      assert Prefixed('.', rows)[1..] == Prefixed('.', rows[1..]);
      assert (['.'] + rows[0])[1..] == rows[0];
      CountRunsOperational(rows[1..], run, groups);
      if run > 0 && groups != [] && groups[0] == run {
        assert groups == [run] + groups[1..];
      }
    }
  }

  /** The arrangement counts of a record from its first spring on. */
  function Ways(record: seq<char>, run: nat, groups: seq<nat>): nat
  {
    CountRuns(Fillings(record), run, groups)
  }

  /** Ways at the end of the record: the last run closes the groups. */
  lemma WaysEnd(run: nat, groups: seq<nat>)
    ensures Ways([], run, groups) == if (if run > 0 then [run] else []) == groups then 1 else 0
  {
    assert Fillings([]) == [[]];
    assert CountRuns([[]], run, groups) == (if Runs([], run) == groups then 1 else 0) + CountRuns([], run, groups);
  }

  /** Ways on a non-empty record of '.', '#' and '?', by its first spring. */
  lemma WaysStep(record: seq<char>, run: nat, groups: seq<nat>)
    requires record != [] && record[0] in ".#?"
    ensures record[0] == '#' ==> Ways(record, run, groups) == Ways(record[1..], run + 1, groups)
    ensures record[0] == '.' ==> Ways(record, run, groups) == Dot(record[1..], run, groups)
    ensures record[0] == '?' ==> Ways(record, run, groups) == Dot(record[1..], run, groups) + Ways(record[1..], run + 1, groups)
  {
    var rest := Fillings(record[1..]);
    CountRunsDamaged(rest, run, groups);
    CountRunsOperational(rest, run, groups);
    if record[0] == '?' {
      CountRunsAppend(Prefixed('.', rest), Prefixed('#', rest), run, groups);
    }
  }

  /** The count when the next spring is operational. */
  function Dot(rest: seq<char>, run: nat, groups: seq<nat>): nat
  {
    if run == 0 then Ways(rest, 0, groups)
    else if groups != [] && groups[0] == run then Ways(rest, 0, groups[1..])
    else 0
  }

  /** The springs are all '.', '#' or '?'. */
  predicate WellFormed(record: seq<char>)
  {
    forall i :: 0 <= i < |record| ==> record[i] in ".#?"
  }

  /** Every group is at least one spring long. */
  predicate Positive(groups: seq<nat>)
  {
    forall i :: 0 <= i < |groups| ==> groups[i] > 0
  }

  /** A group that still needs need > 0 damaged springs, on a record whose
      first spring can be damaged, needs need - 1 after it. */
  lemma BlockedShift(need: nat, record: seq<char>)
    requires need > 0 && record != [] && record[0] != '.'
    ensures Blocked(need, record) <==> Blocked(need - 1, record[1..])
    ensures record[Min(need + 1, |record|)..] == record[1..][Min(need, |record| - 1)..]
  {
    var rest := record[1..];
    if |record| >= need {
      assert record[..need][1..] == rest[..need - 1];
      if '.' in record[..need] {
        var i :| 0 <= i < need && record[..need][i] == '.';
        assert i > 0 && rest[..need - 1][i - 1] == '.';
      }
      if '.' in rest[..need - 1] {
        var i :| 0 <= i < need - 1 && rest[..need - 1][i] == '.';
        assert record[..need][i + 1] == '.';
      }
      if |record| > need {
        assert record[need] == rest[need - 1];
      }
    }
  }

  /** In the middle of a run of length run, the count is that of finishing
      the first group with the damaged springs it still needs: zero when the
      run is already too long or there is no group. */
  lemma {:induction false} WaysInRun(record: seq<char>, run: nat, groups: seq<nat>)
    requires WellFormed(record) && run > 0
    ensures groups == [] || groups[0] < run ==> Ways(record, run, groups) == 0
    ensures groups != [] && groups[0] >= run ==> Ways(record, run, groups) == Rest(groups[0] - run, record, groups[1..])
  {
    if record == [] {
      WaysEnd(run, groups);
      if groups != [] && groups[0] == run {
        assert groups == [run] + groups[1..];
        WaysEnd(0, groups[1..]);
        assert !Blocked(0, record) && record[Min(1, 0)..] == [];
      }
    } else {
      WellFormedDrop(record, 1);
      WaysStep(record, run, groups);
      if record[0] != '.' {
        WaysInRun(record[1..], run + 1, groups);
      }
      if groups != [] && groups[0] > run {
        if record[0] != '.' {
          BlockedShift(groups[0] - run, record);
        } else if |record| >= groups[0] - run {
          assert record[..groups[0] - run][0] == '.';
        }
      }
    }
  }

  /** The count once the first group still needs need damaged springs at
      the front of the record, and the groups after it are groups. */
  function Rest(need: nat, record: seq<char>, groups: seq<nat>): nat
  {
    if Blocked(need, record) then 0 else Ways(record[Min(need + 1, |record|)..], 0, groups)
  }

  lemma WellFormedDrop(record: seq<char>, k: nat)
    requires WellFormed(record) && k <= |record|
    ensures WellFormed(record[k..])
  {
    forall i | 0 <= i < |record[k..]| ensures record[k..][i] in ".#?" {
      assert record[k..][i] == record[i + k];
    }
  }

  lemma PositiveTail(groups: seq<nat>)
    requires Positive(groups) && groups != []
    ensures Positive(groups[1..])
  {
    forall i | 0 <= i < |groups[1..]| ensures groups[1..][i] > 0 {
      assert groups[1..][i] == groups[i + 1];
    }
  }

  /** The arrangements of a non-empty record by its first spring: an
      operational one is skipped, a damaged one starts the first group. */
  lemma ArrangementsStep(record: seq<char>, groups: seq<nat>)
    requires WellFormed(record) && Positive(groups) && record != []
    ensures var placed := if groups == [] then 0 else Rest(groups[0] - 1, record[1..], groups[1..]);
      && (record[0] == '.' ==> Arrangements(record, groups) == Arrangements(record[1..], groups))
      && (record[0] == '#' ==> Arrangements(record, groups) == placed)
      && (record[0] == '?' ==> Arrangements(record, groups) == Arrangements(record[1..], groups) + placed)
  {
    WellFormedDrop(record, 1);
    WaysStep(record, 0, groups);
    WaysInRun(record[1..], 1, groups);
    if groups != [] {
      assert groups[0] >= 1;
    }
  }

  /** The memo-free count is the number of ways to fill in the unknown
      springs so that the runs of damaged springs are the groups, for a
      record of '.', '#' and '?' and groups of positive length. */
  lemma {:induction false} CountIsArrangements(record: seq<char>, groups: seq<nat>)
    requires WellFormed(record) && Positive(groups)
    ensures Count(record, groups) == Some(Arrangements(record, groups))
    decreases |record|
  {
    if record == [] {
      WaysEnd(0, groups);
    } else {
      WellFormedDrop(record, 1);
      ArrangementsStep(record, groups);
      if record[0] != '#' {
        CountIsArrangements(record[1..], groups);
      }
      if record[0] != '.' && groups != [] {
        TryPlaceIsRest(record, groups);
      }
    }
  }

  /** Placing the first group at the front of a record whose first spring
      can be damaged counts the ways to finish that group. */
  lemma {:induction false} TryPlaceIsRest(record: seq<char>, groups: seq<nat>)
    requires WellFormed(record) && Positive(groups) && record != [] && groups != [] && record[0] != '.'
    ensures TryPlace(groups[0], record, groups[1..]) == Some(Rest(groups[0] - 1, record[1..], groups[1..]))
    decreases |record|, 0
  {
    var g := groups[0];
    var rest := record[1..];
    assert g > 0;
    BlockedShift(g, record);
    if !Blocked(g, record) {
      var offset := Min(g + 1, |record|);
      WellFormedDrop(record, offset);
      PositiveTail(groups);
      CountIsArrangements(record[offset..], groups[1..]);
    }
  }

  // The memoized computation.

  /** s is what is left of full once some of its front is consumed. */
  ghost predicate Suffix<T>(s: seq<T>, full: seq<T>)
  {
    |s| <= |full| && full[|full| - |s|..] == s
  }

  lemma SuffixDrop<T>(s: seq<T>, full: seq<T>, k: nat)
    requires Suffix(s, full) && k <= |s|
    ensures Suffix(s[k..], full)
  {
    assert full[|full| - |s[k..]|..] == full[|full| - |s|..][k..];
  }

  /** Every filled entry of the memo table, indexed by the numbers of
      groups and springs left, holds the count for those suffixes. */
  ghost predicate MemoSound(memo: array2<Option<nat>>, full: seq<char>, fullGroups: seq<nat>)
    reads memo
  {
    && memo.Length0 == |fullGroups| + 1 && memo.Length1 == |full| + 1
    && forall g, r :: 0 <= g < memo.Length0 && 0 <= r < memo.Length1 && memo[g, r].Some? ==>
         memo[g, r] == Count(full[|full| - r..], fullGroups[|fullGroups| - g..])
  }

  /** _combinations with the memo table: the result is the memo-free count,
      and the table stays sound. */
  method Combinations(ghost full: seq<char>, ghost fullGroups: seq<nat>, record: seq<char>, groups: seq<nat>, memo: array2<Option<nat>>)
    returns (r: Option<nat>)
    requires MemoSound(memo, full, fullGroups) && Suffix(record, full) && Suffix(groups, fullGroups)
    modifies memo
    ensures MemoSound(memo, full, fullGroups)
    ensures r == Count(record, groups)
    decreases if record == [] then 0 else 2 * |record| + 3
  {
    if memo[|groups|, |record|].Some? {
      MemoLookup(memo, full, fullGroups, record, groups);
      return memo[|groups|, |record|];
    }
    var outcome: Option<nat>;
    if record == [] {
      outcome := Some(if groups == [] then 1 else 0);
    } else if record[0] == '.' {
      SuffixDrop(record, full, 1);
      outcome := Combinations(full, fullGroups, record[1..], groups, memo);
    } else if record[0] == '#' {
      if groups == [] {
        outcome := Some(0);
      } else {
        SuffixDrop(groups, fullGroups, 1);
        outcome := TryPlaceMemo(full, fullGroups, groups[0], record, groups[1..], memo);
      }
    } else if record[0] == '?' {
      SuffixDrop(record, full, 1);
      if groups == [] {
        outcome := Combinations(full, fullGroups, record[1..], groups, memo);
      } else {
        SuffixDrop(groups, fullGroups, 1);
        var broken := TryPlaceMemo(full, fullGroups, groups[0], record, groups[1..], memo);
        if broken.None? {
          return None;
        }
        var unbroken := Combinations(full, fullGroups, record[1..], groups, memo);
        if unbroken.None? {
          return None;
        }
        outcome := Some(broken.value + unbroken.value);
      }
    } else {
      return None;
    }
    if outcome.Some? {
      Store(full, fullGroups, record, groups, outcome, memo);
    }
    return outcome;
  }

  /** A filled entry for the suffixes record and groups holds their count. */
  lemma MemoLookup(memo: array2<Option<nat>>, full: seq<char>, fullGroups: seq<nat>, record: seq<char>, groups: seq<nat>)
    requires MemoSound(memo, full, fullGroups) && Suffix(record, full) && Suffix(groups, fullGroups)
    requires memo[|groups|, |record|].Some?
    ensures memo[|groups|, |record|] == Count(record, groups)
  {
  }

  /** Filling the entry for the suffixes record and groups with their count
      keeps the table sound. */
  method Store(ghost full: seq<char>, ghost fullGroups: seq<nat>, record: seq<char>, groups: seq<nat>, outcome: Option<nat>, memo: array2<Option<nat>>)
    requires MemoSound(memo, full, fullGroups) && Suffix(record, full) && Suffix(groups, fullGroups)
    requires outcome == Count(record, groups)
    modifies memo
    ensures MemoSound(memo, full, fullGroups)
    ensures memo[|groups|, |record|] == outcome
  {
    memo[|groups|, |record|] := outcome;
  }

  /** _try_place with the memo table. */
  method TryPlaceMemo(ghost full: seq<char>, ghost fullGroups: seq<nat>, groupLen: nat, record: seq<char>, groups: seq<nat>, memo: array2<Option<nat>>)
    returns (r: Option<nat>)
    requires MemoSound(memo, full, fullGroups) && Suffix(record, full) && Suffix(groups, fullGroups)
    modifies memo
    ensures MemoSound(memo, full, fullGroups)
    ensures r == TryPlace(groupLen, record, groups)
    decreases 2 * |record| + 2
  {
    if |record| < groupLen || '.' in record[..groupLen] || (|record| > groupLen && record[groupLen] == '#') {
      return Some(0);
    }
    var offset := Min(groupLen + 1, |record|);
    SuffixDrop(record, full, offset);
    r := Combinations(full, fullGroups, record[offset..], groups, memo);
  }

  /** combinations: a fresh table of (groups + 1) by (springs + 1) empty
      entries; None is the panic on an unexpected character. */
  method CombinationsOf(record: seq<char>, groups: seq<nat>) returns (r: Option<nat>)
    ensures r == Count(record, groups)
    ensures WellFormed(record) && Positive(groups) ==> r == Some(Arrangements(record, groups))
  {
    var memo := new Option<nat>[|groups| + 1, |record| + 1]((_, _) => None);
    assert record[..] == record && groups[..] == groups;
    r := Combinations(record, groups, record, groups, memo);
    if WellFormed(record) && Positive(groups) {
      CountIsArrangements(record, groups);
    }
  }

  // expand.

  /** The first n elements of s repeated without end. */
  function Cycle<T>(s: seq<T>, n: nat): (r: seq<T>)
    requires s != [] || n == 0
    ensures |r| == n
    decreases n
  {
    if n <= |s| then s[..n] else s + Cycle(s, n - |s|)
  }

  /** The record copied factor times, joined with '?'. */
  function Joined(record: seq<char>, factor: nat): seq<char>
    requires factor >= 1
  {
    if factor == 1 then record else record + ['?'] + Joined(record, factor - 1)
  }

  /** The groups copied factor times. */
  function Repeated(groups: seq<nat>, factor: nat): seq<nat>
  {
    if factor == 0 then [] else groups + Repeated(groups, factor - 1)
  }

  /** expand: the record with '?' pushed, cycled to (length + 1) * factor - 1
      springs, and the groups cycled to length * factor. A factor of 0
      makes the usize subtraction underflow: None. */
  function Expand(record: seq<char>, groups: seq<nat>, factor: nat): (r: Option<(seq<char>, seq<nat>)>)
    ensures r.None? <==> factor == 0
  {
    if factor == 0 then None
    else
      var pushed := record + ['?'];
      Some((Cycle(pushed, |pushed| * factor - 1), Cycle(groups, |groups| * factor)))
  }

  lemma {:induction false} CycleJoined(record: seq<char>, factor: nat)
    requires factor >= 1
    ensures Cycle(record + ['?'], (|record| + 1) * factor - 1) == Joined(record, factor)
  {
    var pushed := record + ['?'];
    if factor > 1 {
      CycleJoined(record, factor - 1);
      assert (|record| + 1) * factor - 1 - |pushed| == (|record| + 1) * (factor - 1) - 1;
    } else {
      assert pushed[..|record|] == record;
    }
  }

  lemma {:induction false} CycleRepeated(groups: seq<nat>, factor: nat)
    ensures Cycle(groups, |groups| * factor) == Repeated(groups, factor)
  {
    if factor > 0 {
      CycleRepeated(groups, factor - 1);
      if groups == [] {
        assert Repeated(groups, factor) == [] + Repeated(groups, factor - 1);
      } else if factor == 1 {
        assert groups[..|groups|] == groups && Repeated(groups, 0) == [];
        assert groups + [] == groups;
      } else {
        assert |groups| * factor - |groups| == |groups| * (factor - 1);
      }
    }
  }

  /** expand(factor) joins factor copies of the record with '?' and repeats
      the groups factor times. */
  lemma ExpandMeaning(record: seq<char>, groups: seq<nat>, factor: nat)
    requires factor >= 1
    ensures Expand(record, groups, factor) == Some((Joined(record, factor), Repeated(groups, factor)))
  {
    CycleJoined(record, factor);
    CycleRepeated(groups, factor);
    assert |record + ['?']| == |record| + 1;
  }

  /** The first simple schematic: "???.### 1,1,3" has exactly one
      arrangement. */
  lemma SimpleSchematic()
    ensures Count("???.###", [1, 1, 3]) == Some(1)
  {
    assert "###"[1..] == "##";
    assert ".###"[1..] == "###";
    assert "?.###"[1..] == ".###";
    assert "??.###"[1..] == "?.###";
    assert "???.###"[1..] == "??.###";
    assert "###"[..3] == "###";
    assert "###"[3..] == "";
    assert "###"[..1] == "#";
    assert "###"[2..] == "#";
    assert "??.###"[..1] == "?";
    assert "??.###"[2..] == ".###";
    assert "?.###"[..1] == "?";
    assert "?.###"[2..] == "###";
    assert "???.###"[..1] == "?";
    assert "???.###"[2..] == "?.###";
    assert "###"[..1] == "#";
    assert "###"[2..] == "#";
    assert "?.###"[..1] == "?";
    assert "?.###"[2..] == "###";
    assert [1, 1, 3][1..] == [1, 3];
    assert [1, 3][1..] == [3];
    assert [3][1..] == [];
    assert Count("", []) == Some(1);
    assert TryPlace(3, "###", []) == Some(1);
    assert TryPlace(1, "###", [3]) == Some(0);
    assert TryPlace(1, "###", [1, 3]) == Some(0);
    assert Count("###", [3]) == Some(1);
    assert Count("###", [1, 3]) == Some(0);
    assert Count("###", [1, 1, 3]) == Some(0);
    assert Count(".###", [1, 1, 3]) == Some(0);
    assert Count(".###", [1, 3]) == Some(0);
    assert TryPlace(1, "?.###", [3]) == Some(1);
    assert TryPlace(1, "?.###", [1, 3]) == Some(0);
    assert Count("?.###", [1, 1, 3]) == Some(0);
    assert Count("?.###", [1, 3]) == Some(1);
    assert TryPlace(1, "??.###", [1, 3]) == Some(0);
    assert Count("??.###", [1, 1, 3]) == Some(0);
    assert TryPlace(1, "???.###", [1, 3]) == Some(1);
    assert Count("???.###", [1, 1, 3]) == Some(1);
  }

  /** expand(2) on "#" with groups 1: "#?#" with groups 1, 1. */
  lemma ExpandExample()
    ensures Expand("#", [1], 2) == Some(("#?#", [1, 1]))
  {
    ExpandMeaning("#", [1], 2);
    assert Joined("#", 2) == "#" + ['?'] + "#" == "#?#";
    assert Repeated([1], 2) == [1] + ([1] + []) == [1, 1];
  }
}
