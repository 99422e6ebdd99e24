/** The disk fragmenter of 2024 day 9: a dense disk map whose digits
    alternate between file sizes and free-space sizes, the block-by-block
    compaction of part one, the whole-file compaction of part two, and the
    filesystem checksum of each. */
module DiskFragmenter {
  import opened Prelude

  /** One block of the disk: part of the file with an id, or free. */
  datatype DiskBlock = File(id: nat) | Free

  /** A whole file: its id, its first block and its number of blocks. */
  datatype FileBlock = FileBlock(id: nat, start: nat, size: nat)

  // Disk::from

  /** c.to_digit(10).unwrap() on every character of the disk map; None is
      the panic on a character that is not a decimal digit. */
  function DigitSizes(value: string): (r: Option<seq<nat>>)
    ensures r.Some? <==> AllDigits(value)
    ensures r.Some? ==> (|r.value| == |value| &&
      forall i :: 0 <= i < |value| ==> r.value[i] == value[i] as int - '0' as int)
  {
    if AllDigits(value) then Some(seq(|value|, i requires 0 <= i < |value| => value[i] as int - '0' as int)) else None
  }

  /** What a digit of the disk map stands for: the digit at an even
      position is the file numbered by half that position, the digit at an
      odd position is free space. */
  function KindAt(idx: nat): (b: DiskBlock)
    ensures b.File? <==> idx % 2 == 0
    ensures b.File? ==> b.id == idx / 2
  {
    if idx % 2 == 0 then File(idx / 2) else Free
  }

  /** n copies of one block. */
  function Fill(b: DiskBlock, n: nat): (r: seq<DiskBlock>)
    ensures |r| == n && forall i :: 0 <= i < n ==> r[i] == b
  {
    seq(n, _ => b)
  }

  /** The blocks of the disk map: each digit gives that many blocks of its
      kind, in order. */
  function Layout(sizes: seq<nat>): seq<DiskBlock>
  {
    if sizes == [] then []
    else
      var n := |sizes| - 1;
      Layout(sizes[..n]) + Fill(KindAt(n), sizes[n])
  }

  /** The files of the disk map, one per even position, each starting
      where the blocks before it end. */
  function FileList(sizes: seq<nat>): seq<FileBlock>
  {
    if sizes == [] then []
    else
      var n := |sizes| - 1;
      FileList(sizes[..n]) + if n % 2 == 0 then [FileBlock(n / 2, |Layout(sizes[..n])|, sizes[n])] else []
  }

  /** One more digit adds its value to the blocks before it. */
  lemma LayoutNext(sizes: seq<nat>, k: nat)
    requires k < |sizes|
    ensures |Layout(sizes[..k + 1])| == |Layout(sizes[..k])| + sizes[k]
  {
    assert sizes[..k + 1][..k] == sizes[..k];
  }

  /** The disk has as many blocks as the digits of the map add up to. */
  lemma {:induction false} LayoutLength(sizes: seq<nat>)
    ensures |Layout(sizes)| == Sum(sizes)
  {
    if sizes != [] {
      LayoutLength(sizes[..|sizes| - 1]);
    }
  }

  /** Digit idx of the map fills, with its kind, the blocks that follow
      those of the digits before it. */
  lemma {:induction false} LayoutBlocks(sizes: seq<nat>, idx: nat, j: nat)
    requires idx < |sizes| && j < sizes[idx]
    ensures |Layout(sizes[..idx])| + j < |Layout(sizes)|
    ensures Layout(sizes)[|Layout(sizes[..idx])| + j] == KindAt(idx)
    decreases |sizes|
  {
    var n := |sizes| - 1;
    var front := sizes[..n];
    if idx < n {
      assert front[..idx] == sizes[..idx];
      LayoutBlocks(front, idx, j);
    } else {
      assert sizes[..idx] == front;
    }
  }

  /** One file per even position of the disk map. */
  lemma {:induction false} FileListLength(sizes: seq<nat>)
    ensures |FileList(sizes)| == (|sizes| + 1) / 2
  {
    if sizes != [] {
      FileListLength(sizes[..|sizes| - 1]);
    }
  }

  /** File k of the list is the file of digit 2k: id k, its size that
      digit and its start the number of blocks before that digit. */
  lemma {:induction false} FileListAt(sizes: seq<nat>, k: nat)
    requires 2 * k < |sizes|
    ensures k < |FileList(sizes)|
    ensures FileList(sizes)[k] == FileBlock(k, |Layout(sizes[..2 * k])|, sizes[2 * k])
  {
    var n := |sizes| - 1;
    var front := sizes[..n];
    FileListLength(front);
    FileListLength(sizes);
    if 2 * k < n {
      FileListAt(front, k);
      assert front[..2 * k] == sizes[..2 * k];
    } else {
      assert sizes[..2 * k] == front;
    }
  }

  // Part one: block by block.

  /** No free block comes before a file block. */
  ghost predicate Compacted(data: seq<DiskBlock>)
  {
    forall i, j :: 0 <= i < j < |data| && data[i] == Free ==> data[j] == Free
  }

  /** The two ways compact panics: `data.len() - 1` on an empty disk, and
      `right_idx -= 1` below zero once the scan from the right has found
      nothing but free blocks. */
  ghost predicate CompactFails(data: seq<DiskBlock>)
  {
    data == [] || (|data| >= 2 && forall i :: 0 <= i < |data| ==> data[i] == Free)
  }

  /** Blocks that are all files up to some point and all free after it
      are compacted. */
  lemma SplitCompacted(data: seq<DiskBlock>, m: nat)
    requires m <= |data|
    requires forall k :: 0 <= k < m ==> data[k].File?
    requires forall k :: m < k < |data| ==> data[k] == Free
    ensures Compacted(data)
  {
  }

  /** A disk of two or more blocks with no file block is the one that makes
      the right cursor underflow. */
  lemma AllFreeFails(before: seq<DiskBlock>, data: seq<DiskBlock>)
    requires 2 <= |data| && multiset(data) == multiset(before)
    requires forall k :: 0 <= k < |data| ==> data[k] == Free
    ensures CompactFails(before)
  {
    assert |before| == |multiset(before)| == |data|;
    forall i | 0 <= i < |before|
      ensures before[i] == Free
    {
      assert before[i] in multiset(data);
    }
  }

  /** A permutation of a disk with a file block on it, or of a single
      block, is not one compact panics on. */
  lemma FileSurvives(before: seq<DiskBlock>, data: seq<DiskBlock>, k: nat)
    requires multiset(data) == multiset(before) && k < |data|
    requires data[k].File? || |data| == 1
    ensures !CompactFails(before)
  {
    assert |before| == |multiset(before)| == |data|;
    if data[k].File? {
      assert data[k] in multiset(before);
    }
  }

  /** What the block at position pos adds to the checksum. */
  function Weight(b: DiskBlock, pos: nat): nat
  {
    match b
    case File(id) => pos * id
    case Free => 0
  }

  /** Disk::checksum: each file block's position times its file id, summed. */
  function Checksum(data: seq<DiskBlock>): nat
  {
    if data == [] then 0 else Checksum(data[..|data| - 1]) + Weight(data[|data| - 1], |data| - 1)
  }

  /** One more block adds its position times its id, or nothing when free. */
  lemma ChecksumSnoc(data: seq<DiskBlock>, b: DiskBlock)
    ensures Checksum(data + [b]) == Checksum(data) + Weight(b, |data|)
  {
    assert (data + [b])[..|data|] == data;
  }

  /** The positions start..start+size-1, each times id, summed. */
  function RunChecksum(start: nat, size: nat, id: nat): nat
  {
    if size == 0 then 0 else RunChecksum(start, size - 1, id) + (start + size - 1) * id
  }

  /** A run of free blocks adds nothing to the checksum; a run of blocks of
      one file adds its positions times its id. */
  lemma {:induction false} ChecksumFill(data: seq<DiskBlock>, b: DiskBlock, n: nat)
    ensures Checksum(data + Fill(b, n)) == Checksum(data) + if b.File? then RunChecksum(|data|, n, b.id) else 0
  {
    if n > 0 {
      var front := data + Fill(b, n - 1);
      ChecksumFill(data, b, n - 1);
      assert data + Fill(b, n) == front + [b];
      ChecksumSnoc(front, b);
      assert |front| == |data| + n - 1;
    } else {
      assert data + Fill(b, 0) == data;
    }
  }

  /** Disk::block_checksum: the checksum of each file's run of blocks,
      summed over the file list. */
  function BlockChecksum(files: seq<FileBlock>): nat
  {
    if files == [] then 0
    else
      var n := |files| - 1;
      BlockChecksum(files[..n]) + RunChecksum(files[n].start, files[n].size, files[n].id)
  }

  /** On the disk as read, the block checksum of the files and the
      checksum of the blocks agree. */
  lemma {:induction false} LayoutChecksums(sizes: seq<nat>)
    ensures BlockChecksum(FileList(sizes)) == Checksum(Layout(sizes))
  {
    if sizes != [] {
      var n := |sizes| - 1;
      var front := sizes[..n];
      LayoutChecksums(front);
      ChecksumFill(Layout(front), KindAt(n), sizes[n]);
      if n % 2 == 0 {
        var files := FileList(front);
        var last := FileBlock(n / 2, |Layout(front)|, sizes[n]);
        assert (files + [last])[..|files|] == files;
      } else {
        assert FileList(sizes) == FileList(front);
      }
    }
  }

  // Part two: whole files.

  /** The free blocks between file r and file r + 1, as an integer; the
      usize subtraction of the source underflows when it is negative. */
  function Gap(files: seq<FileBlock>, r: nat): int
    requires r + 1 < |files|
  {
    files[r + 1].start - files[r].start - files[r].size
  }

  /** Each file ends no later than the next one starts. */
  ghost predicate Ordered(files: seq<FileBlock>)
  {
    forall i :: 0 <= i < |files| - 1 ==> Gap(files, i) >= 0
  }

  ghost predicate DistinctIds(files: seq<FileBlock>)
  {
    forall i, j :: 0 <= i < j < |files| ==> files[i].id != files[j].id
  }

  /** A file list describes a disk: files in order, none overlapping the
      next, no id twice. */
  ghost predicate ValidFiles(files: seq<FileBlock>)
  {
    Ordered(files) && DistinctIds(files)
  }

  /** In an ordered list an earlier file ends no later than a later one
      starts. */
  lemma {:induction false} OrderedBefore(files: seq<FileBlock>, i: nat, j: nat)
    requires Ordered(files) && i < j < |files|
    ensures files[i].start + files[i].size <= files[j].start
    decreases j - i
  {
    assert Gap(files, i) >= 0;
    if i + 1 < j {
      OrderedBefore(files, i + 1, j);
    }
  }

  /** The files of the disk map as read describe a disk. */
  lemma FileListValid(sizes: seq<nat>)
    ensures ValidFiles(FileList(sizes))
  {
    var files := FileList(sizes);
    FileListLength(sizes);
    forall i | 0 <= i < |files|
      ensures files[i] == FileBlock(i, |Layout(sizes[..2 * i])|, sizes[2 * i])
    {
      FileListAt(sizes, i);
    }
    forall i | 0 <= i < |files| - 1
      ensures Gap(files, i) >= 0
    {
      LayoutNext(sizes, 2 * i);
      LayoutNext(sizes, 2 * i + 1);
    }
  }

  /** How the search for a gap ends. */
  datatype Fit = Fits(r: nat) | NoRoom | Underflow

  /** The inner loop of compact_blocks from r_idx = r: it skips the
      neighbours that do not start to the left of the file and stops at the
      first gap with room for it. */
  function FirstFit(files: seq<FileBlock>, file: FileBlock, r: nat): (f: Fit)
    ensures f.Fits? ==> r <= f.r && f.r + 1 < |files|
    ensures f.Fits? ==> files[f.r].start < file.start && Gap(files, f.r) >= file.size
    ensures f.Fits? ==> forall k {:trigger Gap(files, k)} :: r <= k < f.r && files[k].start < file.start ==> 0 <= Gap(files, k) < file.size
    ensures f.NoRoom? ==> forall k {:trigger Gap(files, k)} :: r <= k && k + 1 < |files| && files[k].start < file.start ==> 0 <= Gap(files, k) < file.size
    ensures f.Underflow? ==> exists k {:trigger Gap(files, k)} :: r <= k && k + 1 < |files| && files[k].start < file.start && Gap(files, k) < 0
    decreases |files| - r
  {
    if r + 1 >= |files| then NoRoom
    else if files[r].start >= file.start then FirstFit(files, file, r + 1)
    else if Gap(files, r) < 0 then Underflow
    else if Gap(files, r) >= file.size then Fits(r)
    else FirstFit(files, file, r + 1)
  }

  /** Iterator::position: the index of the first file with the id. */
  function Position(files: seq<FileBlock>, id: nat): (r: Option<nat>)
    ensures r.Some? ==> r.value < |files| && files[r.value].id == id && forall k :: 0 <= k < r.value ==> files[k].id != id
    ensures r.None? ==> forall k :: 0 <= k < |files| ==> files[k].id != id
  {
    if files == [] then None
    else if files[0].id == id then Some(0)
    else match Position(files[1..], id)
      case None => None
      case Some(k) => Some(k + 1)
  }

  /** One file of compact_blocks' stack: taken out of the list and put
      back right after the first file with a gap that fits it, at the end
      of that file; moved nowhere when no gap fits. None is a panic. */
  function MoveFile(files: seq<FileBlock>, file: FileBlock): Option<seq<FileBlock>>
  {
    if |files| == 0 then None else Place(files, file, FirstFit(files, file, 0))
  }

  /** What MoveFile does once the search has ended. */
  function Place(files: seq<FileBlock>, file: FileBlock, fit: Fit): Option<seq<FileBlock>>
    requires fit.Fits? ==> fit.r + 1 < |files|
  {
    match fit
    case NoRoom => Some(files)
    case Underflow => None
    case Fits(r) =>
      match Position(files, file.id)
      case None => None
      case Some(idx) => Some(RemoveInsert(files, idx, r + 1, FileBlock(file.id, files[r].start + files[r].size, file.size)))
  }

  /** Vec::remove at p followed by Vec::insert of x at q. */
  function RemoveInsert(files: seq<FileBlock>, p: nat, q: nat, x: FileBlock): (moved: seq<FileBlock>)
    requires p < |files| && q < |files|
    ensures |moved| == |files| && moved[q] == x
  {
    var rest := files[..p] + files[p + 1..];
    rest[..q] + [x] + rest[q..]
  }

  /** The files of the stack moved in turn. */
  function MoveAll(files: seq<FileBlock>, stack: seq<FileBlock>): Option<seq<FileBlock>>
    decreases |stack|
  {
    if stack == [] then Some(files)
    else match MoveFile(files, stack[0])
      case None => None
      case Some(next) => MoveAll(next, stack[1..])
  }

  function Reversed(s: seq<FileBlock>): (r: seq<FileBlock>)
    ensures |r| == |s| && forall i :: 0 <= i < |s| ==> r[i] == s[|s| - 1 - i]
  {
    if s == [] then [] else [s[|s| - 1]] + Reversed(s[..|s| - 1])
  }

  /** b is a, moved no further right. */
  predicate Settles(a: FileBlock, b: FileBlock)
  {
    a.id == b.id && a.size == b.size && b.start <= a.start
  }

  /** x is a file of the list, or that file moved to the left. */
  ghost predicate FromList(x: FileBlock, files: seq<FileBlock>)
  {
    exists i :: 0 <= i < |files| && Settles(files[i], x)
  }

  /** The list holds x, or x moved to the left. */
  ghost predicate KeptIn(x: FileBlock, files: seq<FileBlock>)
  {
    exists j :: 0 <= j < |files| && Settles(x, files[j])
  }

  /** after holds the files of before, each where it was or further left. */
  ghost predicate Shifted(before: seq<FileBlock>, after: seq<FileBlock>)
  {
    && |after| == |before|
    && (forall j {:trigger FromList(after[j], before)} :: 0 <= j < |after| ==> FromList(after[j], before))
    && (forall i {:trigger KeptIn(before[i], after)} :: 0 <= i < |before| ==> KeptIn(before[i], after))
  }

  lemma ShiftedRefl(files: seq<FileBlock>)
    ensures Shifted(files, files)
  {
    forall j | 0 <= j < |files|
      ensures FromList(files[j], files) && KeptIn(files[j], files)
    {
      assert Settles(files[j], files[j]);
    }
  }

  lemma ShiftedTrans(a: seq<FileBlock>, b: seq<FileBlock>, c: seq<FileBlock>)
    requires Shifted(a, b) && Shifted(b, c)
    ensures Shifted(a, c)
  {
    forall j | 0 <= j < |c|
      ensures FromList(c[j], a)
    {
      assert FromList(c[j], b);
      var i :| 0 <= i < |b| && Settles(b[i], c[j]);
      assert FromList(b[i], a);
      var m :| 0 <= m < |a| && Settles(a[m], b[i]);
    }
    forall i | 0 <= i < |a|
      ensures KeptIn(a[i], c)
    {
      assert KeptIn(a[i], b);
      var j :| 0 <= j < |b| && Settles(a[i], b[j]);
      assert KeptIn(b[j], c);
      var m :| 0 <= m < |c| && Settles(b[j], c[m]);
    }
  }

  /** In an ordered list no gap is negative, so the search never
      underflows. */
  lemma {:induction false} FitNoUnderflow(files: seq<FileBlock>, file: FileBlock, r: nat)
    requires Ordered(files)
    ensures !FirstFit(files, file, r).Underflow?
    decreases |files| - r
  {
    if r + 1 < |files| {
      FitNoUnderflow(files, file, r + 1);
    }
  }

  /** After the file at p is put right after file r (r < p), the index of
      the old list that index k of the new list holds. */
  function Origin(r: nat, p: nat, k: nat): nat
  {
    if k <= r || p < k then k else if k == r + 1 then p else k - 1
  }

  /** The inverse of Origin: where index i of the old list ends up. */
  function Dest(r: nat, p: nat, i: nat): (k: nat)
    requires r < p
    ensures Origin(r, p, k) == i
  {
    if i <= r || p < i then i else if i == p then r + 1 else i + 1
  }

  /** moved is files with the file at p taken out and x put in right after
      file r. */
  ghost predicate MovedFrom(files: seq<FileBlock>, moved: seq<FileBlock>, p: nat, r: nat, x: FileBlock)
  {
    && r < p < |files| == |moved|
    && moved[r + 1] == x
    && forall k :: 0 <= k < |moved| && k != r + 1 ==> moved[k] == files[Origin(r, p, k)]
  }

  /** remove(p) then insert(r + 1, x) is such a move. */
  lemma MovedShape(files: seq<FileBlock>, p: nat, r: nat, x: FileBlock)
    requires r < p < |files|
    ensures MovedFrom(files, RemoveInsert(files, p, r + 1, x), p, r, x)
  {
  }

  /** The moved list is ordered when x fits in the gap after file r. */
  lemma MovedOrdered(files: seq<FileBlock>, moved: seq<FileBlock>, p: nat, r: nat, x: FileBlock)
    requires Ordered(files) && MovedFrom(files, moved, p, r, x)
    requires x.start == files[r].start + files[r].size && x.start + x.size <= files[r + 1].start
    ensures Ordered(moved)
  {
    forall k | 0 <= k < |moved| - 1
      ensures Gap(moved, k) >= 0
    {
      if k == r + 1 && r + 1 == p {
        OrderedBefore(files, r + 1, p + 1);
      } else if k != r && k != r + 1 {
        OrderedBefore(files, Origin(r, p, k), Origin(r, p, k + 1));
      }
    }
  }

  /** No two files of the moved list share an id. */
  lemma MovedDistinct(files: seq<FileBlock>, moved: seq<FileBlock>, p: nat, r: nat, x: FileBlock)
    requires DistinctIds(files) && MovedFrom(files, moved, p, r, x) && x.id == files[p].id
    ensures DistinctIds(moved)
  {
    forall i, j | 0 <= i < j < |moved|
      ensures moved[i].id != moved[j].id
    {
      var oi, oj := Origin(r, p, i), Origin(r, p, j);
      assert moved[i].id == files[oi].id && moved[j].id == files[oj].id;
      assert oi != oj;
    }
  }

  /** Every file of the moved list is a file of the list, the moved one no
      further right, and every other file is kept where it was. */
  lemma MovedShifted(files: seq<FileBlock>, moved: seq<FileBlock>, p: nat, r: nat, x: FileBlock)
    requires MovedFrom(files, moved, p, r, x) && Settles(files[p], x)
    ensures Shifted(files, moved)
    ensures forall k :: 0 <= k < |files| && k != p ==> files[k] in moved
  {
    forall j | 0 <= j < |moved|
      ensures FromList(moved[j], files)
    {
      assert Settles(files[Origin(r, p, j)], moved[j]);
    }
    forall i | 0 <= i < |files|
      ensures KeptIn(files[i], moved) && (i != p ==> files[i] in moved)
    {
      var k := Dest(r, p, i);
      assert Settles(files[i], moved[k]);
    }
  }

  /** With distinct ids the file is found at its own index. */
  lemma PositionOf(files: seq<FileBlock>, p: nat)
    requires DistinctIds(files) && p < |files|
    ensures Position(files, files[p].id) == Some(p)
  {
  }

  /** A gap that fits the file lies before it. */
  lemma FitBefore(files: seq<FileBlock>, p: nat, r: nat)
    requires Ordered(files) && p < |files| && r + 1 < |files| && files[r].start < files[p].start
    ensures r < p
  {
    if p < r {
      OrderedBefore(files, p, r);
    }
  }

  /** Where the search finds a gap and the file is found, MoveFile puts it
      right after that gap's file. */
  lemma MoveFileFits(files: seq<FileBlock>, file: FileBlock, r: nat, p: nat)
    requires files != [] && FirstFit(files, file, 0) == Fits(r) && Position(files, file.id) == Some(p)
    ensures MoveFile(files, file) == Some(RemoveInsert(files, p, r + 1, FileBlock(file.id, files[r].start + files[r].size, file.size)))
  {
    var moved := RemoveInsert(files, p, r + 1, FileBlock(file.id, files[r].start + files[r].size, file.size));
    assert Place(files, file, Fits(r)) == Some(moved);
    assert MoveFile(files, file) == Place(files, file, Fits(r));
  }

  /** The move into a gap that fits keeps a valid list valid. */
  lemma MoveIntoGap(files: seq<FileBlock>, p: nat, r: nat)
    requires ValidFiles(files) && p < |files| && FirstFit(files, files[p], 0) == Fits(r)
    ensures var moved := RemoveInsert(files, p, r + 1, FileBlock(files[p].id, files[r].start + files[r].size, files[p].size));
      && MoveFile(files, files[p]) == Some(moved)
      && ValidFiles(moved) && Shifted(files, moved)
      && forall k :: 0 <= k < |files| && k != p ==> files[k] in moved
  {
    var file := files[p];
    FitBefore(files, p, r);
    PositionOf(files, p);
    MoveFileFits(files, file, r, p);
    var x := FileBlock(file.id, files[r].start + files[r].size, file.size);
    var moved := RemoveInsert(files, p, r + 1, x);
    MovedShape(files, p, r, x);
    MovedOrdered(files, moved, p, r, x);
    MovedDistinct(files, moved, p, r, x);
    OrderedBefore(files, r, p);
    MovedShifted(files, moved, p, r, x);
  }

  /** Moving a file of a valid list keeps it valid, keeps every other
      file where it is, and moves that file no further right. */
  lemma MoveFileSound(files: seq<FileBlock>, file: FileBlock)
    requires ValidFiles(files) && file in files
    ensures MoveFile(files, file).Some?
    ensures ValidFiles(MoveFile(files, file).value) && Shifted(files, MoveFile(files, file).value)
    ensures forall x :: x in files && x.id != file.id ==> x in MoveFile(files, file).value
  {
    FitNoUnderflow(files, file, 0);
    var p :| 0 <= p < |files| && files[p] == file;
    var fit := FirstFit(files, file, 0);
    if fit.NoRoom? {
      ShiftedRefl(files);
    } else {
      MoveIntoGap(files, p, fit.r);
    }
  }

  /** Moving, in turn, files of a valid list that are distinct by id
      never panics, keeps the list valid and moves no file right. */
  lemma {:induction false} MoveAllSound(files: seq<FileBlock>, stack: seq<FileBlock>)
    requires ValidFiles(files)
    requires forall k :: 0 <= k < |stack| ==> stack[k] in files
    requires forall i, j :: 0 <= i < j < |stack| ==> stack[i].id != stack[j].id
    ensures MoveAll(files, stack).Some?
    ensures ValidFiles(MoveAll(files, stack).value) && Shifted(files, MoveAll(files, stack).value)
    decreases |stack|
  {
    if stack == [] {
      ShiftedRefl(files);
    } else {
      MoveFileSound(files, stack[0]);
      var next := MoveFile(files, stack[0]).value;
      forall k | 0 <= k < |stack[1..]|
        ensures stack[1..][k] in next
      {
        assert stack[k + 1].id != stack[0].id;
      }
      MoveAllSound(next, stack[1..]);
      ShiftedTrans(files, next, MoveAll(next, stack[1..]).value);
    }
  }

  /** part two never panics on a disk map: the compacted list describes a
      disk and holds the same files, none moved right. */
  lemma CompactBlocksSound(sizes: seq<nat>)
    ensures var files := FileList(sizes);
      && MoveAll(files, Reversed(files)).Some?
      && ValidFiles(MoveAll(files, Reversed(files)).value)
      && Shifted(files, MoveAll(files, Reversed(files)).value)
  {
    var files := FileList(sizes);
    FileListValid(sizes);
    var stack := Reversed(files);
    forall k | 0 <= k < |stack|
      ensures stack[k] in files
    {
      assert stack[k] == files[|files| - 1 - k];
    }
    MoveAllSound(files, stack);
  }

  class Disk {
    var data: seq<DiskBlock>
    var files: seq<FileBlock>

    /** Disk::from on the digit values of the disk map. */
    constructor (sizes: seq<nat>)
      ensures data == Layout(sizes) && files == FileList(sizes)
    {
      var blocks: seq<DiskBlock> := [];
      var list: seq<FileBlock> := [];
      for idx := 0 to |sizes|
        invariant blocks == Layout(sizes[..idx]) && list == FileList(sizes[..idx])
      {
        var blockSize := sizes[idx];
        var file;
        if idx % 2 == 0 {
          list := list + [FileBlock(idx / 2, |blocks|, blockSize)];
          file := File(idx / 2);
        } else {
          file := Free;
        }
        ghost var before := blocks;
        for j := 0 to blockSize
          invariant blocks == before + Fill(file, j)
        {
          assert Fill(file, j) + [file] == Fill(file, j + 1);
          blocks := blocks + [file];
        }
        assert sizes[..idx + 1][..idx] == sizes[..idx];
      }
      assert sizes[..|sizes|] == sizes;
      data := blocks;
      files := list;
    }

    /** Vec::swap on the blocks. */
    method Swap(i: nat, j: nat)
      requires i < |data| && j < |data|
      modifies this
      ensures data == old(data)[i := old(data)[j]][j := old(data)[i]] && files == old(files)
      ensures multiset(data) == multiset(old(data))
    {
      data := data[i := data[j]][j := data[i]];
    }

    /** Disk::compact: a left cursor looks for free blocks, a right cursor
        for file blocks, and the two are swapped until the cursors meet. */
    method Compact() returns (ok: bool)
      modifies this
      ensures files == old(files)
      ensures ok <==> !CompactFails(old(data))
      ensures !ok ==> data == old(data)
      ensures ok ==> multiset(data) == multiset(old(data)) && Compacted(data)
    {
      if |data| == 0 {
        return false;
      }
      var left := 0;
      var right := |data| - 1;
      while left < right
        invariant 0 <= left <= right + 1 <= |data|
        invariant forall k :: 0 <= k < left ==> data[k].File?
        invariant forall k :: right < k < |data| ==> data[k] == Free
        invariant multiset(data) == multiset(old(data)) && files == old(files)
        invariant left == 0 ==> data == old(data) && right == |data| - 1
        decreases right - left
      {
        if data[left] == Free {
          while data[right] == Free
            invariant 0 <= right < |data| && left <= right + 1 && 2 <= |data|
            invariant forall k :: right < k < |data| ==> data[k] == Free
            decreases right
          {
            if right == 0 {
              AllFreeFails(old(data), data);
              return false;
            }
            right := right - 1;
          }
          if left >= right {
            FileSurvives(old(data), data, right);
            SplitCompacted(data, left);
            return true;
          }
          Swap(left, right);
        }
        left := left + 1;
      }
      FileSurvives(old(data), data, 0);
      SplitCompacted(data, left);
      return true;
    }

    /** The body of compact_blocks' loop for one file of the stack: look
        behind it for the first gap with room, and move it there. */
    method Relocate(file: FileBlock) returns (ok: bool)
      modifies this
      ensures data == old(data)
      ensures ok <==> MoveFile(old(files), file).Some?
      ensures ok ==> files == MoveFile(old(files), file).value
    {
      if |files| == 0 {
        return false;
      }
      var rIdx := 0;
      while rIdx < |files| - 1
        invariant files == old(files) && data == old(data) && rIdx < |files|
        invariant FirstFit(files, file, 0) == FirstFit(files, file, rIdx)
      {
        var leftFile := files[rIdx];
        var rightFile := files[rIdx + 1];
        if leftFile.start < file.start {
          var freeSpace := rightFile.start - leftFile.start - leftFile.size;
          if freeSpace < 0 {
            return false;
          }
          if freeSpace >= file.size {
            var idx := Position(files, file.id);
            if idx.None? {
              return false;
            }
            MoveFileFits(files, file, rIdx, idx.value);
            files := RemoveInsert(files, idx.value, rIdx + 1, FileBlock(file.id, leftFile.start + leftFile.size, file.size));
            return true;
          }
        }
        rIdx := rIdx + 1;
      }
      return true;
    }

    /** Disk::compact_blocks: each file of the original list, last first,
        is moved into the first gap to its left with room for it. */
    method CompactBlocks() returns (ok: bool)
      modifies this
      ensures data == old(data)
      ensures ok <==> MoveAll(old(files), Reversed(old(files))).Some?
      ensures ok ==> files == MoveAll(old(files), Reversed(old(files))).value
    {
      var stack := Reversed(files);
      for s := 0 to |stack|
        invariant data == old(data)
        invariant MoveAll(old(files), stack) == MoveAll(files, stack[s..])
      {
        assert stack[s..][0] == stack[s] && stack[s..][1..] == stack[s + 1..];
        var moved := Relocate(stack[s]);
        if !moved {
          return false;
        }
      }
      return true;
    }
  }

  /** part_one: None when the disk map has a non-digit or compact panics. */
  method PartOne(input: string) returns (r: Option<nat>)
    ensures DigitSizes(input).None? ==> r.None?
    ensures DigitSizes(input).Some? ==> var blocks := Layout(DigitSizes(input).value);
      && (r.None? <==> CompactFails(blocks))
      && (r.Some? ==> exists data :: multiset(data) == multiset(blocks) && Compacted(data) && r.value == Checksum(data))
  {
    var sizes := DigitSizes(input);
    if sizes.None? {
      return None;
    }
    var disk := new Disk(sizes.value);
    var ok := disk.Compact();
    if !ok {
      return None;
    }
    r := Some(Checksum(disk.data));
  }

  /** part_two: None when the disk map has a non-digit. */
  method PartTwo(input: string) returns (r: Option<nat>)
    ensures DigitSizes(input).None? <==> r.None?
    ensures r.Some? ==> var files := FileList(DigitSizes(input).value);
      MoveAll(files, Reversed(files)).Some? && r.value == BlockChecksum(MoveAll(files, Reversed(files)).value)
  {
    var sizes := DigitSizes(input);
    if sizes.None? {
      return None;
    }
    var disk := new Disk(sizes.value);
    CompactBlocksSound(sizes.value);
    var ok := disk.CompactBlocks();
    r := Some(BlockChecksum(disk.files));
  }
}
