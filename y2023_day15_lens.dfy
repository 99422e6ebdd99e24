/** The lens library of 2023 day 15: the HASH of a string, the checksum of
    an initialization sequence, and the 256 boxes of lenses that the steps
    "label-" and "label=focal" rearrange. */
module LensLibrary {
  import opened Prelude

  /** One HASH step on a character: add its code, multiply by 17, keep the
      remainder modulo 256. */
  function HashStep(h: nat, c: char): nat
  {
    (h + c as nat) * 17 % 256
  }

  /** InitializationSequence::hash: the HASH steps over the characters from
      the first to the last, starting at 0. */
  function HashOf(s: string): (r: nat)
    ensures r < 256
  {
    if s == [] then 0 else HashStep(HashOf(s[..|s| - 1]), s[|s| - 1])
  }

  /** Before each step the hash is below 256, so the u32 sum and product of
      the source never overflow (a char is at most 0x10FFFF). */
  lemma HashStepFitsU32(h: nat, c: char)
    requires h < 256
    ensures (h + c as nat) * 17 < 0x1_0000_0000
  {
    assert c as nat <= 0x10FFFF;
  }

  /** InitializationSequence::hash: the loop over the characters. */
  method Hash(value: string) returns (hash: nat)
    ensures hash == HashOf(value) && hash < 256
  {
    hash := 0;
    for i := 0 to |value|
      invariant hash == HashOf(value[..i])
    {
      var ascii := value[i] as nat;
      HashStepFitsU32(hash, value[i]);
      hash := hash + ascii;
      hash := hash * 17;
      hash := hash % 256;
      assert value[..i + 1][..i] == value[..i];
    }
    assert value[..|value|] == value;
  }

  /** The hashes of the parts, added up. */
  function ChecksumOf(parts: seq<string>): nat
  {
    if parts == [] then 0 else ChecksumOf(parts[..|parts| - 1]) + HashOf(parts[|parts| - 1])
  }

  /** Each part adds less than 256 to the checksum. */
  lemma {:induction false} ChecksumBound(parts: seq<string>)
    ensures ChecksumOf(parts) <= 255 * |parts|
  {
    if parts != [] {
      ChecksumBound(parts[..|parts| - 1]);
    }
  }

  /** InitializationSequence::checksum. */
  method Checksum(parts: seq<string>) returns (sum: nat)
    ensures sum == ChecksumOf(parts)
  {
    sum := 0;
    for i := 0 to |parts|
      invariant sum == ChecksumOf(parts[..i])
    {
      var h := Hash(parts[i]);
      assert parts[..i + 1][..i] == parts[..i];
      sum := sum + h;
    }
    assert parts[..|parts|] == parts;
  }

  /** InitializationSequence::from: the comma-separated parts, trimmed. */
  function PartsOf(text: string): (r: seq<string>)
    ensures |r| == |Split(text, ',')|
    ensures forall i :: 0 <= i < |r| ==> r[i] == Trim(Split(text, ',')[i])
  {
    var pieces := Split(text, ',');
    seq(|pieces|, i requires 0 <= i < |pieces| => Trim(pieces[i]))
  }

  /** A lens: its label and its focal length. */
  datatype Lens = Lens(name: string, focalLength: nat)

  /** The box holds a lens with the label. */
  predicate HasLens(box: seq<Lens>, name: string)
  {
    exists i :: 0 <= i < |box| && box[i].name == name
  }

  /** No label occurs twice in a box. */
  predicate Distinct(box: seq<Lens>)
  {
    forall i, j :: 0 <= i < j < |box| ==> box[i].name != box[j].name
  }

  /** Boxes with the same labels in the same places hold the same labels
      and are distinct together. */
  lemma SameNames(a: seq<Lens>, b: seq<Lens>, name: string)
    requires |a| == |b| && forall i :: 0 <= i < |a| ==> a[i].name == b[i].name
    ensures HasLens(a, name) <==> HasLens(b, name)
    ensures Distinct(a) <==> Distinct(b)
  {
    if HasLens(a, name) {
      var k :| 0 <= k < |a| && a[k].name == name;
      assert b[k].name == name;
    }
    if HasLens(b, name) {
      var k :| 0 <= k < |b| && b[k].name == name;
      assert a[k].name == name;
    }
  }

  /** Vec::retain keeping the lenses whose label differs. */
  function Retain(box: seq<Lens>, name: string): (r: seq<Lens>)
    ensures !HasLens(r, name)
    ensures !HasLens(box, name) ==> r == box
  {
    if box == [] then []
    else if box[0].name == name then Retain(box[1..], name)
    else
      var rest := Retain(box[1..], name);
      assert !HasLens(box, name) ==> !HasLens(box[1..], name) by {
        if HasLens(box[1..], name) {
          var k :| 0 <= k < |box[1..]| && box[1..][k].name == name;
          assert box[k + 1].name == name;
        }
      }
      [box[0]] + rest
  }

  /** Retain keeps exactly the lenses with another label. */
  lemma {:induction false} RetainMembers(box: seq<Lens>, name: string)
    ensures forall lens :: lens in Retain(box, name) <==> lens in box && lens.name != name
  {
    if box != [] {
      RetainMembers(box[1..], name);
      assert box == [box[0]] + box[1..];
    }
  }

  /** Retain keeps the labels distinct. */
  lemma {:induction false} RetainDistinct(box: seq<Lens>, name: string)
    requires Distinct(box)
    ensures Distinct(Retain(box, name))
  {
    if box != [] {
      DistinctTail(box);
      RetainDistinct(box[1..], name);
      if box[0].name != name {
        var rest := Retain(box[1..], name);
        RetainMembers(box[1..], name);
        forall j | 0 <= j < |rest|
          ensures rest[j].name != box[0].name
        {
          assert rest[j] in box[1..];
          var m :| 0 <= m < |box[1..]| && box[1..][m] == rest[j];
        }
        assert Retain(box, name) == [box[0]] + rest;
      }
    }
  }

  /** The tail of a box with distinct labels has distinct labels and
      lacks the label of the head. */
  lemma DistinctTail(box: seq<Lens>)
    requires Distinct(box) && box != []
    ensures Distinct(box[1..]) && !HasLens(box[1..], box[0].name)
  {
    forall a, b | 0 <= a < b < |box[1..]|
      ensures box[1..][a].name != box[1..][b].name
    {
      assert box[1..][a] == box[a + 1] && box[1..][b] == box[b + 1];
    }
    forall k | 0 <= k < |box[1..]|
      ensures box[1..][k].name != box[0].name
    {
      assert box[1..][k] == box[k + 1];
    }
  }

  /** Removing the one lens with a label from a box with distinct labels
      cuts it out and keeps the others in order. */
  lemma {:induction false} RetainOne(box: seq<Lens>, i: nat, name: string)
    requires Distinct(box) && i < |box| && box[i].name == name
    ensures Retain(box, name) == box[..i] + box[i + 1..]
  {
    DistinctTail(box);
    if i == 0 {
      assert Retain(box, name) == Retain(box[1..], name) == box[1..];
      assert box[..0] + box[1..] == box[1..];
    } else {
      var tail := box[1..];
      assert box[0].name != name;
      assert Retain(box, name) == [box[0]] + Retain(tail, name);
      assert tail[i - 1].name == name;
      RetainOne(tail, i - 1, name);
      CutCons(box, i);
    }
  }

  /** Cutting out an element after the head keeps the head in front. */
  lemma CutCons<T>(s: seq<T>, i: nat)
    requires 0 < i < |s|
    ensures s[..i] + s[i + 1..] == [s[0]] + (s[1..][..i - 1] + s[1..][i..])
  {
    assert s[..i] == [s[0]] + s[1..][..i - 1];
    assert s[i + 1..] == s[1..][i..];
  }

  /** Updating an element after the head keeps the head in front. */
  lemma UpdateCons<T>(s: seq<T>, i: nat, v: T)
    requires 0 < i < |s|
    ensures s[i := v] == [s[0]] + s[1..][i - 1 := v]
  {
  }

  /** The find-and-update of add_lens: the first lens with the label gets
      the new focal length; the labels stay where they are. */
  function SetFocal(box: seq<Lens>, name: string, focal: nat): (r: seq<Lens>)
    requires HasLens(box, name)
    ensures |r| == |box| && forall i :: 0 <= i < |box| ==> r[i].name == box[i].name
  {
    if box[0].name == name then [Lens(name, focal)] + box[1..]
    else
      assert HasLens(box[1..], name) by {
        var k :| 0 <= k < |box| && box[k].name == name;
        assert box[1..][k - 1].name == name;
      }
      [box[0]] + SetFocal(box[1..], name, focal)
  }

  /** SetFocal changes exactly the first lens with the label. */
  lemma {:induction false} SetFocalAt(box: seq<Lens>, i: nat, name: string, focal: nat)
    requires i < |box| && box[i].name == name
    requires forall j :: 0 <= j < i ==> box[j].name != name
    ensures HasLens(box, name)
    ensures SetFocal(box, name, focal) == box[i := Lens(name, focal)]
  {
    if i > 0 {
      var tail := box[1..];
      assert tail[i - 1].name == name;
      assert forall j :: 0 <= j < i - 1 ==> tail[j].name != name by {
        forall j | 0 <= j < i - 1
          ensures tail[j].name != name
        {
          assert tail[j] == box[j + 1];
        }
      }
      SetFocalAt(tail, i - 1, name, focal);
      assert box[0].name != name;
      assert SetFocal(box, name, focal) == [box[0]] + SetFocal(tail, name, focal);
      UpdateCons(box, i, Lens(name, focal));
    }
  }

  /** The boxes and the index from label to box number. */
  datatype Slots = Slots(boxes: seq<seq<Lens>>, index: map<string, nat>)

  /** Every label in the index names the box its hash gives, which holds
      it. */
  ghost predicate IndexSound(st: Slots)
  {
    forall l :: l in st.index ==> st.index[l] == HashOf(l) && HashOf(l) < |st.boxes| && HasLens(st.boxes[HashOf(l)], l)
  }

  /** Every lens is in the index and in the box its hash gives. */
  ghost predicate BoxesSound(st: Slots)
  {
    forall b, i :: 0 <= b < |st.boxes| && 0 <= i < |st.boxes[b]| ==>
      st.boxes[b][i].name in st.index && HashOf(st.boxes[b][i].name) == b
  }

  ghost predicate BoxesDistinct(st: Slots)
  {
    forall b :: 0 <= b < |st.boxes| ==> Distinct(st.boxes[b])
  }

  /** The invariant the operations keep: 256 boxes, the index holds exactly
      the labels in the boxes, each at the box its hash names, and no box
      holds a label twice. */
  ghost predicate ValidSlots(st: Slots)
  {
    |st.boxes| == 256 && IndexSound(st) && BoxesSound(st) && BoxesDistinct(st)
  }

  /** A box other than the one a label hashes to does not hold it. */
  lemma OnlyHome(st: Slots, name: string, c: nat)
    requires BoxesSound(st) && c < |st.boxes| && c != HashOf(name)
    ensures !HasLens(st.boxes[c], name)
  {
    forall k | 0 <= k < |st.boxes[c]|
      ensures st.boxes[c][k].name != name
    {
      assert HashOf(st.boxes[c][k].name) == c;
    }
  }

  /** A label missing from the index is in no box. */
  lemma Unindexed(st: Slots, name: string, c: nat)
    requires BoxesSound(st) && c < |st.boxes| && name !in st.index
    ensures !HasLens(st.boxes[c], name)
  {
    forall k | 0 <= k < |st.boxes[c]|
      ensures st.boxes[c][k].name != name
    {
      assert st.boxes[c][k].name in st.index;
    }
  }

  /** LensSlots::new: 256 empty boxes and an empty index. */
  const Empty := Slots(seq(256, _ => []), map[])

  lemma EmptyValid()
    ensures ValidSlots(Empty)
  {
  }

  /** remove_lens on values: a label in the index is deleted from its box
      and from the index; any other label changes nothing. */
  function RemoveLensOn(st: Slots, name: string): (r: Slots)
    requires ValidSlots(st)
    ensures ValidSlots(r)
    ensures r.index == st.index - {name}
    ensures |r.boxes| == 256 && forall b :: 0 <= b < 256 ==> r.boxes[b] == Retain(st.boxes[b], name)
    ensures name !in st.index ==> r == st
  {
    if name in st.index then
      var b := st.index[name];
      var r := Slots(st.boxes[b := Retain(st.boxes[b], name)], st.index - {name});
      assert forall c :: 0 <= c < 256 ==> r.boxes[c] == Retain(st.boxes[c], name) by {
        forall c | 0 <= c < 256 && c != b
          ensures r.boxes[c] == Retain(st.boxes[c], name)
        {
          OnlyHome(st, name, c);
        }
      }
      RemoveKeepsValid(st, name, r);
      r
    else
      assert forall c :: 0 <= c < 256 ==> st.boxes[c] == Retain(st.boxes[c], name) by {
        forall c | 0 <= c < 256
          ensures st.boxes[c] == Retain(st.boxes[c], name)
        {
          Unindexed(st, name, c);
        }
      }
      st
  }

  lemma RemoveKeepsValid(st: Slots, name: string, r: Slots)
    requires ValidSlots(st) && name in st.index
    requires r == Slots(st.boxes[st.index[name] := Retain(st.boxes[st.index[name]], name)], st.index - {name})
    ensures ValidSlots(r)
  {
    var b := st.index[name];
    RetainMembers(st.boxes[b], name);
    RetainDistinct(st.boxes[b], name);
    RemoveIndexSound(st, name, r);
    RemoveBoxesSound(st, name, r);
  }

  lemma RemoveIndexSound(st: Slots, name: string, r: Slots)
    requires ValidSlots(st) && name in st.index
    requires r == Slots(st.boxes[st.index[name] := Retain(st.boxes[st.index[name]], name)], st.index - {name})
    ensures IndexSound(r)
  {
    var b := st.index[name];
    forall l | l in r.index
      ensures r.index[l] == HashOf(l) && HashOf(l) < |r.boxes| && HasLens(r.boxes[HashOf(l)], l)
    {
      if HashOf(l) == b {
        RetainKeeps(st.boxes[b], name, l);
      }
    }
  }

  /** Retain keeps every other label the box holds. */
  lemma RetainKeeps(box: seq<Lens>, name: string, l: string)
    requires HasLens(box, l) && l != name
    ensures HasLens(Retain(box, name), l)
  {
    RetainMembers(box, name);
    var k :| 0 <= k < |box| && box[k].name == l;
    assert box[k] in Retain(box, name);
    var m :| 0 <= m < |Retain(box, name)| && Retain(box, name)[m] == box[k];
  }

  lemma RemoveBoxesSound(st: Slots, name: string, r: Slots)
    requires ValidSlots(st) && name in st.index
    requires r == Slots(st.boxes[st.index[name] := Retain(st.boxes[st.index[name]], name)], st.index - {name})
    ensures BoxesSound(r)
  {
    var b := st.index[name];
    RetainMembers(st.boxes[b], name);
    forall c, i | 0 <= c < |r.boxes| && 0 <= i < |r.boxes[c]|
      ensures r.boxes[c][i].name in r.index && HashOf(r.boxes[c][i].name) == c
    {
      if c == b {
        assert r.boxes[c][i] in st.boxes[c];
        var m :| 0 <= m < |st.boxes[c]| && st.boxes[c][m] == r.boxes[c][i];
      }
    }
  }

  /** add_lens on values: a label in the index gets the new focal length in
      place; a new label is appended to the box its hash names and
      recorded in the index. */
  function AddLensOn(st: Slots, name: string, focal: nat): (r: Slots)
    requires ValidSlots(st)
    ensures ValidSlots(r)
    ensures |r.boxes| == 256
    ensures forall b :: 0 <= b < 256 && b != HashOf(name) ==> r.boxes[b] == st.boxes[b]
    ensures name in st.index ==> var h := HashOf(name);
      && r.index == st.index && |r.boxes[h]| == |st.boxes[h]|
      && forall i :: 0 <= i < |r.boxes[h]| ==>
        r.boxes[h][i] == if st.boxes[h][i].name == name then Lens(name, focal) else st.boxes[h][i]
    ensures name !in st.index ==>
      && r.index == st.index[name := HashOf(name)]
      && r.boxes[HashOf(name)] == st.boxes[HashOf(name)] + [Lens(name, focal)]
  {
    var h := HashOf(name);
    if name in st.index then
      var r := Slots(st.boxes[h := SetFocal(st.boxes[h], name, focal)], st.index);
      AddExistingKeepsValid(st, name, focal, r);
      r
    else
      var r := Slots(st.boxes[h := st.boxes[h] + [Lens(name, focal)]], st.index[name := h]);
      AddNewKeepsValid(st, name, focal, r);
      r
  }

  /** Setting the focal length of the lens at k, the only one with its
      label, changes that lens alone and no label. */
  lemma FocalUpdate(box: seq<Lens>, k: nat, name: string, focal: nat)
    requires Distinct(box) && k < |box| && box[k].name == name
    ensures var nb := box[k := Lens(name, focal)];
      && |nb| == |box|
      && (forall i :: 0 <= i < |box| ==> nb[i].name == box[i].name)
      && (forall i :: 0 <= i < |box| ==> nb[i] == if box[i].name == name then Lens(name, focal) else box[i])
  {
  }

  lemma AddExistingKeepsValid(st: Slots, name: string, focal: nat, r: Slots)
    requires ValidSlots(st) && name in st.index
    requires r == Slots(st.boxes[HashOf(name) := SetFocal(st.boxes[HashOf(name)], name, focal)], st.index)
    ensures ValidSlots(r)
    ensures forall i :: 0 <= i < |r.boxes[HashOf(name)]| ==>
      r.boxes[HashOf(name)][i] == if st.boxes[HashOf(name)][i].name == name then Lens(name, focal) else st.boxes[HashOf(name)][i]
  {
    var h := HashOf(name);
    var box := st.boxes[h];
    var k :| 0 <= k < |box| && box[k].name == name;
    assert Distinct(box);
    SetFocalAt(box, k, name, focal);
    var nb := box[k := Lens(name, focal)];
    FocalUpdate(box, k, name, focal);
    KeepNames(st, h, nb, r);
  }

  /** Replacing one box by one with the same labels in the same places
      keeps the invariant. */
  lemma KeepNames(st: Slots, h: nat, nb: seq<Lens>, r: Slots)
    requires ValidSlots(st) && h < 256
    requires |nb| == |st.boxes[h]| && forall i :: 0 <= i < |nb| ==> nb[i].name == st.boxes[h][i].name
    requires r == Slots(st.boxes[h := nb], st.index)
    ensures ValidSlots(r)
  {
    forall l | l in r.index
      ensures HasLens(r.boxes[HashOf(l)], l)
    {
      SameNames(r.boxes[HashOf(l)], st.boxes[HashOf(l)], l);
    }
    forall c | 0 <= c < |r.boxes|
      ensures Distinct(r.boxes[c])
    {
      if c == h {
        SameNames(nb, st.boxes[c], "");
      }
    }
    forall c, i | 0 <= c < |r.boxes| && 0 <= i < |r.boxes[c]|
      ensures r.boxes[c][i].name in r.index && HashOf(r.boxes[c][i].name) == c
    {
      if c == h {
        assert r.boxes[c][i].name == st.boxes[c][i].name;
      }
    }
  }

  lemma AddNewKeepsValid(st: Slots, name: string, focal: nat, r: Slots)
    requires ValidSlots(st) && name !in st.index
    requires r == Slots(st.boxes[HashOf(name) := st.boxes[HashOf(name)] + [Lens(name, focal)]], st.index[name := HashOf(name)])
    ensures ValidSlots(r)
  {
    AddNewIndexSound(st, name, focal, r);
    AddNewBoxesSound(st, name, focal, r);
    Unindexed(st, name, HashOf(name));
    forall c | 0 <= c < 256
      ensures Distinct(r.boxes[c])
    {
      if c == HashOf(name) {
        AppendDistinct(st.boxes[c], Lens(name, focal));
      }
    }
  }

  lemma AddNewIndexSound(st: Slots, name: string, focal: nat, r: Slots)
    requires ValidSlots(st) && name !in st.index
    requires r == Slots(st.boxes[HashOf(name) := st.boxes[HashOf(name)] + [Lens(name, focal)]], st.index[name := HashOf(name)])
    ensures IndexSound(r)
  {
    var h := HashOf(name);
    assert r.boxes[h][|st.boxes[h]|].name == name;
    forall l | l in r.index && l != name
      ensures HasLens(r.boxes[HashOf(l)], l)
    {
      var k :| 0 <= k < |st.boxes[HashOf(l)]| && st.boxes[HashOf(l)][k].name == l;
      assert r.boxes[HashOf(l)][k].name == l;
    }
  }

  lemma AddNewBoxesSound(st: Slots, name: string, focal: nat, r: Slots)
    requires ValidSlots(st) && name !in st.index
    requires r == Slots(st.boxes[HashOf(name) := st.boxes[HashOf(name)] + [Lens(name, focal)]], st.index[name := HashOf(name)])
    ensures BoxesSound(r)
  {
    var h := HashOf(name);
    forall c, i | 0 <= c < 256 && 0 <= i < |r.boxes[c]|
      ensures r.boxes[c][i].name in r.index && HashOf(r.boxes[c][i].name) == c
    {
      if c == h && i == |st.boxes[h]| {
        assert r.boxes[c][i] == Lens(name, focal);
      } else {
        assert r.boxes[c][i] == st.boxes[c][i];
      }
    }
  }

  /** Appending a lens whose label the box lacks keeps the labels distinct. */
  lemma AppendDistinct(box: seq<Lens>, lens: Lens)
    requires Distinct(box) && !HasLens(box, lens.name)
    ensures Distinct(box + [lens])
  {
    var nb := box + [lens];
    forall i, j | 0 <= i < j < |nb|
      ensures nb[i].name != nb[j].name
    {
      assert nb[i] == box[i];
      if j < |box| {
        assert nb[j] == box[j];
      }
    }
  }

  /** One step of the initialization sequence. */
  datatype Step = Remove(name: string) | Add(name: string, focal: nat)

  /** The parse in LensSlots::initialize: a part holding '-' removes the
      label before the first '-'; any other part must split at '=' into
      exactly a label and a u32. None is one of its unwrap panics. */
  function ParseStep(part: string): (r: Option<Step>)
    ensures '-' in part ==> r == Some(Remove(part[..IndexOf(part, '-')]))
    ensures '-' !in part && r.Some? ==> var pieces := Split(part, '=');
      && |pieces| == 2 && r.value.Add? && r.value.name == pieces[0]
      && ParseUnsigned(pieces[1], 0x1_0000_0000) == Some(r.value.focal)
    ensures '-' !in part && r.None? ==> var pieces := Split(part, '=');
      |pieces| != 2 || ParseUnsigned(pieces[1], 0x1_0000_0000).None?
  {
    if '-' in part then Some(Remove(part[..IndexOf(part, '-')]))
    else
      var pieces := Split(part, '=');
      if |pieces| != 2 then None
      else match ParseUnsigned(pieces[1], 0x1_0000_0000)
        case None => None
        case Some(focal) => Some(Add(pieces[0], focal))
  }

  /** The parts parsed in order; None when one of them does not parse. */
  function ParseSteps(parts: seq<string>): (r: Option<seq<Step>>)
    ensures r.Some? <==> forall i :: 0 <= i < |parts| ==> ParseStep(parts[i]).Some?
    ensures r.Some? ==> |r.value| == |parts| && forall i :: 0 <= i < |parts| ==> r.value[i] == ParseStep(parts[i]).value
  {
    if parts == [] then Some([])
    else
      var n := |parts| - 1;
      var front := ParseSteps(parts[..n]);
      var last := ParseStep(parts[n]);
      assert forall i :: 0 <= i < n ==> parts[..n][i] == parts[i];
      if front.None? || last.None? then None
      else Some(front.value + [last.value])
  }

  /** One step: remove_lens or add_lens. */
  function ApplyStep(st: Slots, step: Step): (r: Slots)
    requires ValidSlots(st)
    ensures ValidSlots(r)
  {
    match step
    case Remove(name) => RemoveLensOn(st, name)
    case Add(name, focal) => AddLensOn(st, name, focal)
  }

  /** The state after the steps, in order. */
  function RunSteps(st: Slots, steps: seq<Step>): (r: Slots)
    requires ValidSlots(st)
    ensures ValidSlots(r)
  {
    if steps == [] then st else ApplyStep(RunSteps(st, steps[..|steps| - 1]), steps[|steps| - 1])
  }

  /** One more part parsed is one more step run. */
  lemma ParseThenRun(start: Slots, parts: seq<string>, i: nat)
    requires ValidSlots(start) && i < |parts|
    requires ParseSteps(parts[..i]).Some? && ParseStep(parts[i]).Some?
    ensures ParseSteps(parts[..i + 1]) == Some(ParseSteps(parts[..i]).value + [ParseStep(parts[i]).value])
    ensures RunSteps(start, ParseSteps(parts[..i + 1]).value)
      == ApplyStep(RunSteps(start, ParseSteps(parts[..i]).value), ParseStep(parts[i]).value)
  {
    assert parts[..i + 1][..i] == parts[..i];
    var steps := ParseSteps(parts[..i + 1]).value;
    assert steps[..i] == ParseSteps(parts[..i]).value;
  }

  /** What one lens contributes: box number times slot number times focal
      length, both numbered from 1. */
  function LensPower(b: nat, s: nat, lens: Lens): nat
  {
    (b + 1) * (s + 1) * lens.focalLength
  }

  /** The powers of the lenses of box b, added up. */
  function BoxPower(b: nat, box: seq<Lens>): nat
  {
    if box == [] then 0 else BoxPower(b, box[..|box| - 1]) + LensPower(b, |box| - 1, box[|box| - 1])
  }

  /** The powers of all boxes, added up. */
  function PowerOf(boxes: seq<seq<Lens>>): nat
  {
    if boxes == [] then 0 else PowerOf(boxes[..|boxes| - 1]) + BoxPower(|boxes| - 1, boxes[|boxes| - 1])
  }

  /** Appending a new lens to box b adds its power, with the slot number
      one past the box's last. */
  lemma {:induction false} PowerAppend(boxes: seq<seq<Lens>>, b: nat, lens: Lens)
    requires b < |boxes|
    ensures PowerOf(boxes[b := boxes[b] + [lens]]) == PowerOf(boxes) + LensPower(b, |boxes[b]|, lens)
  {
    var n := |boxes| - 1;
    var after := boxes[b := boxes[b] + [lens]];
    assert after[..n] == if b < n then boxes[..n][b := boxes[b] + [lens]] else boxes[..n];
    if b < n {
      PowerAppend(boxes[..n], b, lens);
    } else {
      assert (boxes[b] + [lens])[..|boxes[b]|] == boxes[b];
    }
  }

  /** Boxes that are all empty have no power. */
  lemma {:induction false} PowerOfEmpty(boxes: seq<seq<Lens>>)
    requires forall b :: 0 <= b < |boxes| ==> boxes[b] == []
    ensures PowerOf(boxes) == 0
  {
    if boxes != [] {
      PowerOfEmpty(boxes[..|boxes| - 1]);
    }
  }

  /** The power of boxes whose later boxes are empty is that of the
      leading ones. */
  lemma {:induction false} PowerOfPrefix(boxes: seq<seq<Lens>>, k: nat)
    requires k <= |boxes|
    requires forall b :: k <= b < |boxes| ==> boxes[b] == []
    ensures PowerOf(boxes) == PowerOf(boxes[..k])
  {
    if |boxes| > k {
      var n := |boxes| - 1;
      assert boxes[..n][..k] == boxes[..k];
      PowerOfPrefix(boxes[..n], k);
    } else {
      assert boxes[..k] == boxes;
    }
  }

  /** The find of add_lens: the index of the first lens with the label. */
  method FindLens(box: seq<Lens>, name: string) returns (i: nat)
    requires HasLens(box, name)
    ensures i < |box| && box[i].name == name
    ensures forall j :: 0 <= j < i ==> box[j].name != name
  {
    i := 0;
    while box[i].name != name
      invariant i < |box| && forall j :: 0 <= j < i ==> box[j].name != name
      decreases |box| - i
    {
      assert i + 1 < |box| by {
        var k :| 0 <= k < |box| && box[k].name == name;
        assert k > i;
      }
      i := i + 1;
    }
  }

  /** LensSlots: the boxes and the label index it mutates. */
  class LensSlots {
    var slots: seq<seq<Lens>>
    var lensSlots: map<string, nat>

    function Snapshot(): Slots
      reads this
    {
      Slots(slots, lensSlots)
    }

    ghost predicate Valid()
      reads this
    {
      ValidSlots(Snapshot())
    }

    /** LensSlots::new. */
    constructor()
      ensures Valid() && Snapshot() == Empty
    {
      slots := seq(256, _ => []);
      lensSlots := map[];
    }

    /** LensSlots::remove_lens. */
    method RemoveLens(name: string)
      requires Valid()
      modifies this
      ensures Valid() && Snapshot() == RemoveLensOn(old(Snapshot()), name)
    {
      if name in lensSlots {
        var slot := lensSlots[name];
        slots := slots[slot := Retain(slots[slot], name)];
        lensSlots := lensSlots - {name};
        assert Snapshot() == RemoveLensOn(old(Snapshot()), name);
      }
    }

    /** LensSlots::add_lens: the search for the lens to update is the loop
      of find. */
    method AddLens(name: string, focal: nat)
      requires Valid()
      modifies this
      ensures Valid() && Snapshot() == AddLensOn(old(Snapshot()), name, focal)
    {
      var hash := Hash(name);
      if name in lensSlots {
        var box := slots[hash];
        var i := FindLens(box, name);
        SetFocalAt(box, i, name, focal);
        slots := slots[hash := box[i := box[i].(focalLength := focal)]];
      } else {
        slots := slots[hash := slots[hash] + [Lens(name, focal)]];
        lensSlots := lensSlots[name := hash];
        assert Snapshot() == AddLensOn(old(Snapshot()), name, focal);
      }
    }

    /** LensSlots::initialize on the parts: every part is parsed and
      applied in order; false is a parse panic. */
    method Initialize(parts: seq<string>) returns (ok: bool)
      requires Valid()
      modifies this
      ensures Valid()
      ensures ok <==> ParseSteps(parts).Some?
      ensures ok ==> Snapshot() == RunSteps(old(Snapshot()), ParseSteps(parts).value)
    {
      ghost var start := Snapshot();
      for i := 0 to |parts|
        invariant Valid()
        invariant ParseSteps(parts[..i]).Some?
        invariant Snapshot() == RunSteps(start, ParseSteps(parts[..i]).value)
      {
        var step := ParseStep(parts[i]);
        if step.None? {
          assert !ParseSteps(parts).Some?;
          return false;
        }
        ParseThenRun(start, parts, i);
        ghost var before := Snapshot();
        match step.value {
          case Remove(name) => RemoveLens(name);
          case Add(name, focal) => AddLens(name, focal);
        }
        assert Snapshot() == ApplyStep(before, step.value);
      }
      assert parts[..|parts|] == parts;
      return true;
    }

    /** LensSlots::power. */
    method Power() returns (total: nat)
      ensures total == PowerOf(slots)
    {
      total := 0;
      for b := 0 to |slots|
        invariant total == PowerOf(slots[..b])
      {
        var box := slots[b];
        var inner := 0;
        for s := 0 to |box|
          invariant inner == BoxPower(b, box[..s])
        {
          assert box[..s + 1][..s] == box[..s];
          inner := inner + (b + 1) * (s + 1) * box[s].focalLength;
        }
        assert box[..|box|] == box;
        assert slots[..b + 1][..b] == slots[..b];
        total := total + inner;
      }
      assert slots[..|slots|] == slots;
    }
  }

  /** part_one: the checksum of the parts of the input. */
  method PartOne(input: string) returns (sum: nat)
    ensures sum == ChecksumOf(PartsOf(input))
    ensures sum <= 255 * |Split(input, ',')|
  {
    sum := Checksum(PartsOf(input));
    ChecksumBound(PartsOf(input));
  }

  /** part_two: run the parts on 256 empty boxes and take the focusing
      power; None is a parse panic. */
  method PartTwo(input: string) returns (r: Option<nat>)
    ensures r.Some? <==> ParseSteps(PartsOf(input)).Some?
    ensures r.Some? ==> r.value == PowerOf(RunSteps(Empty, ParseSteps(PartsOf(input)).value).boxes)
  {
    var lensSlots := new LensSlots();
    var ok := lensSlots.Initialize(PartsOf(input));
    if !ok {
      return None;
    }
    var total := lensSlots.Power();
    return Some(total);
  }

  /** The worked example of the puzzle text: HASH hashes to 52. */
  lemma HashExample()
    ensures HashOf("HASH") == 52
  {
    assert "HASH"[..3] == "HAS";
    assert "HAS"[..2] == "HA";
    assert "HA"[..1] == "H";
    assert "H"[..0] == "";
    assert HashOf("H") == 200;
    assert HashOf("HA") == 153;
    assert HashOf("HAS") == 172;
  }

  /** The hashes of the first four parts of the example sequence. */
  lemma ExampleHashesFirst()
    ensures HashOf("rn=1") == 30 && HashOf("cm-") == 253 && HashOf("qp=3") == 97 && HashOf("cm=2") == 47
  {
    assert "rn=1"[..3] == "rn=";
    assert "rn="[..2] == "rn";
    assert "rn"[..1] == "r";
    assert "r"[..0] == "";
    assert HashOf("r") == 146;
    assert HashOf("rn") == 0;
    assert HashOf("rn=") == 13;
    assert "cm-"[..2] == "cm";
    assert "cm"[..1] == "c";
    assert "c"[..0] == "";
    assert HashOf("c") == 147;
    assert HashOf("cm") == 0;
    assert "qp=3"[..3] == "qp=";
    assert "qp="[..2] == "qp";
    assert "qp"[..1] == "q";
    assert "q"[..0] == "";
    assert HashOf("q") == 129;
    assert HashOf("qp") == 1;
    assert HashOf("qp=") == 30;
    assert "cm=2"[..3] == "cm=";
    assert "cm="[..2] == "cm";
    assert HashOf("cm=") == 13;
  }

  /** The hashes of the next four parts. */
  lemma ExampleHashesMiddle()
    ensures HashOf("qp-") == 14 && HashOf("pc=4") == 180 && HashOf("ot=9") == 9 && HashOf("ab=5") == 197
  {
    assert "qp-"[..2] == "qp";
    assert "qp"[..1] == "q";
    assert "q"[..0] == "";
    assert HashOf("q") == 129;
    assert HashOf("qp") == 1;
    assert "pc=4"[..3] == "pc=";
    assert "pc="[..2] == "pc";
    assert "pc"[..1] == "p";
    assert "p"[..0] == "";
    assert HashOf("p") == 112;
    assert HashOf("pc") == 3;
    assert HashOf("pc=") == 64;
    assert "ot=9"[..3] == "ot=";
    assert "ot="[..2] == "ot";
    assert "ot"[..1] == "o";
    assert "o"[..0] == "";
    assert HashOf("o") == 95;
    assert HashOf("ot") == 3;
    assert HashOf("ot=") == 64;
    assert "ab=5"[..3] == "ab=";
    assert "ab="[..2] == "ab";
    assert "ab"[..1] == "a";
    assert "a"[..0] == "";
    assert HashOf("a") == 113;
    assert HashOf("ab") == 3;
    assert HashOf("ab=") == 64;
  }

  /** The hashes of the last three parts. */
  lemma ExampleHashesLast()
    ensures HashOf("pc-") == 48 && HashOf("pc=6") == 214 && HashOf("ot=7") == 231
  {
    assert "pc-"[..2] == "pc";
    assert "pc"[..1] == "p";
    assert "p"[..0] == "";
    assert HashOf("p") == 112;
    assert HashOf("pc") == 3;
    assert "pc=6"[..3] == "pc=";
    assert "pc="[..2] == "pc";
    assert HashOf("pc=") == 64;
    assert "ot=7"[..3] == "ot=";
    assert "ot="[..2] == "ot";
    assert "ot"[..1] == "o";
    assert "o"[..0] == "";
    assert HashOf("o") == 95;
    assert HashOf("ot") == 3;
    assert HashOf("ot=") == 64;
  }

  /** The example sequence of the puzzle text, split at the commas. */
  const ExampleParts := ["rn=1", "cm-", "qp=3", "cm=2", "qp-", "pc=4", "ot=9", "ab=5", "pc-", "pc=6", "ot=7"]

  /** part_one on the example: the checksum is 1320. */
  lemma ExampleChecksum()
    ensures ChecksumOf(ExampleParts) == 1320
  {
    ExampleHashesFirst();
    ExampleHashesMiddle();
    ExampleHashesLast();
    assert ExampleParts[..0] == [];
    assert ExampleParts[..1][..0] == ExampleParts[..0];
    assert ChecksumOf(ExampleParts[..1]) == 30;
    assert ExampleParts[..2][..1] == ExampleParts[..1];
    assert ChecksumOf(ExampleParts[..2]) == 283;
    assert ExampleParts[..3][..2] == ExampleParts[..2];
    assert ChecksumOf(ExampleParts[..3]) == 380;
    assert ExampleParts[..4][..3] == ExampleParts[..3];
    assert ChecksumOf(ExampleParts[..4]) == 427;
    assert ExampleParts[..5][..4] == ExampleParts[..4];
    assert ChecksumOf(ExampleParts[..5]) == 441;
    assert ExampleParts[..6][..5] == ExampleParts[..5];
    assert ChecksumOf(ExampleParts[..6]) == 621;
    assert ExampleParts[..7][..6] == ExampleParts[..6];
    assert ChecksumOf(ExampleParts[..7]) == 630;
    assert ExampleParts[..8][..7] == ExampleParts[..7];
    assert ChecksumOf(ExampleParts[..8]) == 827;
    assert ExampleParts[..9][..8] == ExampleParts[..8];
    assert ChecksumOf(ExampleParts[..9]) == 875;
    assert ExampleParts[..10][..9] == ExampleParts[..9];
    assert ChecksumOf(ExampleParts[..10]) == 1089;
    assert ExampleParts[..11][..10] == ExampleParts[..10];
    assert ChecksumOf(ExampleParts[..11]) == 1320;
    assert ExampleParts[..11] == ExampleParts;
  }

  /** Parsing a removal of the example. */
  lemma ParseRemoveExample()
    ensures ParseStep("cm-") == Some(Remove("cm"))
  {
    assert IndexOf("cm-", '-') == 2 && "cm-"[..2] == "cm";
  }

  /** Parsing an addition of the example. */
  lemma ParseAddExample()
    ensures ParseStep("rn=1") == Some(Add("rn", 1))
  {
    assert '-' !in "rn=1";
    assert IndexOf("rn=1", '=') == 2 && "rn=1"[..2] == "rn" && "rn=1"[3..] == "1";
    assert IndexOf("1", '=') == 1;
    assert Split("rn=1", '=') == ["rn", "1"];
    assert "1"[..0] == [] && DigitsValue("1") == 1;
  }

  /** A part with no focal length is a panic. */
  lemma ParseMissingFocal()
    ensures ParseStep("rn=") == None
  {
    assert '-' !in "rn=";
    assert IndexOf("rn=", '=') == 2 && "rn="[..2] == "rn" && "rn="[3..] == "";
    assert Split("rn=", '=') == ["rn", ""];
  }

  /** The example sequence of the puzzle text, parsed. */
  const ExampleSteps := [Add("rn", 1), Remove("cm"), Add("qp", 3), Add("cm", 2), Remove("qp"), Add("pc", 4), Add("ot", 9), Add("ab", 5), Remove("pc"), Add("pc", 6), Add("ot", 7)]

  /** The hash of a two-character label is two HASH steps from 0. */
  lemma HashOfPair(x: char, y: char)
    ensures HashOf([x, y]) == HashStep(HashStep(0, x), y)
  {
    assert [x, y][..1] == [x] && [x][..0] == [];
    assert HashOf([x]) == HashStep(0, x);
  }

  lemma ExampleLabelHashes()
    ensures HashOf("rn") == 0 && HashOf("cm") == 0 && HashOf("qp") == 1
    ensures HashOf("pc") == 3 && HashOf("ot") == 3 && HashOf("ab") == 3
  {
    ExampleHashesBoxZero();
    ExampleHashesBoxThree();
    HashOfPair('q', 'p');
  }

  lemma ExampleHashesBoxZero()
    ensures HashOf("rn") == 0 && HashOf("cm") == 0
  {
    HashOfPair('r', 'n');
    HashOfPair('c', 'm');
  }

  lemma ExampleHashesBoxThree()
    ensures HashOf("pc") == 3 && HashOf("ot") == 3 && HashOf("ab") == 3
  {
    HashOfPair('p', 'c');
    HashOfPair('o', 't');
    HashOfPair('a', 'b');
  }

  /** Boxes 0 to 3 hold b0 to b3 and every later box is empty. */
  ghost predicate Shows(st: Slots, b0: seq<Lens>, b1: seq<Lens>, b2: seq<Lens>, b3: seq<Lens>)
  {
    && |st.boxes| == 256 && st.boxes[0] == b0 && st.boxes[1] == b1 && st.boxes[2] == b2 && st.boxes[3] == b3
    && forall b :: 4 <= b < 256 ==> st.boxes[b] == []
  }

  /** A label is in the index exactly when the box its hash names holds
      it. */
  lemma IndexedIff(st: Slots, name: string)
    requires ValidSlots(st)
    ensures name in st.index <==> HasLens(st.boxes[HashOf(name)], name)
  {
    if HasLens(st.boxes[HashOf(name)], name) {
      var k :| 0 <= k < |st.boxes[HashOf(name)]| && st.boxes[HashOf(name)][k].name == name;
      assert st.boxes[HashOf(name)][k].name in st.index;
    }
  }

  /** A step changes only the box its label hashes to: a removal filters
      the label out of it, an addition sets the focal length of the lens
      already there or appends a new lens. */
  lemma StepEffect(st: Slots, step: Step)
    requires ValidSlots(st)
    ensures var r := ApplyStep(st, step); var h := HashOf(step.name);
      && (forall b :: 0 <= b < 256 && b != h ==> r.boxes[b] == st.boxes[b])
      && (step.Remove? ==> r.boxes[h] == Retain(st.boxes[h], step.name))
      && (step.Add? && !HasLens(st.boxes[h], step.name) ==> r.boxes[h] == st.boxes[h] + [Lens(step.name, step.focal)])
      && (step.Add? && HasLens(st.boxes[h], step.name) ==> r.boxes[h] == SetFocal(st.boxes[h], step.name, step.focal))
  {
    var r := ApplyStep(st, step);
    IndexedIff(st, step.name);
    if step.Remove? {
      forall b | 0 <= b < 256 && b != HashOf(step.name)
        ensures r.boxes[b] == st.boxes[b]
      {
        OnlyHome(st, step.name, b);
      }
    }
  }

  /** One more step of a run is one more ApplyStep. */
  lemma RunStepsSnoc(st: Slots, steps: seq<Step>, k: nat)
    requires ValidSlots(st) && k < |steps|
    ensures RunSteps(st, steps[..k + 1]) == ApplyStep(RunSteps(st, steps[..k]), steps[k])
  {
    assert steps[..k + 1][..k] == steps[..k];
  }

  /** Step 1 of the example, rn=1. */
  lemma ExampleStep1(st: Slots)
    requires ValidSlots(st) && Shows(st, [], [], [], [])
    ensures Shows(ApplyStep(st, Add("rn", 1)), [Lens("rn", 1)], [], [], [])
  {
    ExampleLabelHashes();
    StepEffect(st, Add("rn", 1));
    assert !HasLens([], "rn");
    assert [] + [Lens("rn", 1)] == [Lens("rn", 1)];
  }

  /** Step 2 of the example, cm-. */
  lemma ExampleStep2(st: Slots)
    requires ValidSlots(st) && Shows(st, [Lens("rn", 1)], [], [], [])
    ensures Shows(ApplyStep(st, Remove("cm")), [Lens("rn", 1)], [], [], [])
  {
    ExampleLabelHashes();
    StepEffect(st, Remove("cm"));
    assert Retain([Lens("rn", 1)], "cm") == [Lens("rn", 1)];
  }

  /** Step 3 of the example, qp=3. */
  lemma ExampleStep3(st: Slots)
    requires ValidSlots(st) && Shows(st, [Lens("rn", 1)], [], [], [])
    ensures Shows(ApplyStep(st, Add("qp", 3)), [Lens("rn", 1)], [Lens("qp", 3)], [], [])
  {
    ExampleLabelHashes();
    StepEffect(st, Add("qp", 3));
    assert !HasLens([], "qp");
    assert [] + [Lens("qp", 3)] == [Lens("qp", 3)];
  }

  /** Step 4 of the example, cm=2. */
  lemma ExampleStep4(st: Slots)
    requires ValidSlots(st) && Shows(st, [Lens("rn", 1)], [Lens("qp", 3)], [], [])
    ensures Shows(ApplyStep(st, Add("cm", 2)), [Lens("rn", 1), Lens("cm", 2)], [Lens("qp", 3)], [], [])
  {
    ExampleLabelHashes();
    StepEffect(st, Add("cm", 2));
    assert !HasLens([Lens("rn", 1)], "cm");
    assert [Lens("rn", 1)] + [Lens("cm", 2)] == [Lens("rn", 1), Lens("cm", 2)];
  }

  /** Step 5 of the example, qp-. */
  lemma ExampleStep5(st: Slots)
    requires ValidSlots(st) && Shows(st, [Lens("rn", 1), Lens("cm", 2)], [Lens("qp", 3)], [], [])
    ensures Shows(ApplyStep(st, Remove("qp")), [Lens("rn", 1), Lens("cm", 2)], [], [], [])
  {
    ExampleLabelHashes();
    StepEffect(st, Remove("qp"));
    RetainOne([Lens("qp", 3)], 0, "qp");
    assert [Lens("qp", 3)][..0] + [Lens("qp", 3)][1..] == [];
  }

  /** Step 6 of the example, pc=4. */
  lemma ExampleStep6(st: Slots)
    requires ValidSlots(st) && Shows(st, [Lens("rn", 1), Lens("cm", 2)], [], [], [])
    ensures Shows(ApplyStep(st, Add("pc", 4)), [Lens("rn", 1), Lens("cm", 2)], [], [], [Lens("pc", 4)])
  {
    ExampleLabelHashes();
    StepEffect(st, Add("pc", 4));
    assert !HasLens([], "pc");
    assert [] + [Lens("pc", 4)] == [Lens("pc", 4)];
  }

  /** Step 7 of the example, ot=9. */
  lemma ExampleStep7(st: Slots)
    requires ValidSlots(st) && Shows(st, [Lens("rn", 1), Lens("cm", 2)], [], [], [Lens("pc", 4)])
    ensures Shows(ApplyStep(st, Add("ot", 9)), [Lens("rn", 1), Lens("cm", 2)], [], [], [Lens("pc", 4), Lens("ot", 9)])
  {
    ExampleLabelHashes();
    StepEffect(st, Add("ot", 9));
    assert !HasLens([Lens("pc", 4)], "ot");
    assert [Lens("pc", 4)] + [Lens("ot", 9)] == [Lens("pc", 4), Lens("ot", 9)];
  }

  /** Step 8 of the example, ab=5. */
  lemma ExampleStep8(st: Slots)
    requires ValidSlots(st) && Shows(st, [Lens("rn", 1), Lens("cm", 2)], [], [], [Lens("pc", 4), Lens("ot", 9)])
    ensures Shows(ApplyStep(st, Add("ab", 5)), [Lens("rn", 1), Lens("cm", 2)], [], [], [Lens("pc", 4), Lens("ot", 9), Lens("ab", 5)])
  {
    ExampleLabelHashes();
    StepEffect(st, Add("ab", 5));
    assert !HasLens([Lens("pc", 4), Lens("ot", 9)], "ab");
    assert [Lens("pc", 4), Lens("ot", 9)] + [Lens("ab", 5)] == [Lens("pc", 4), Lens("ot", 9), Lens("ab", 5)];
  }

  /** Step 9 of the example, pc-. */
  lemma ExampleStep9(st: Slots)
    requires ValidSlots(st) && Shows(st, [Lens("rn", 1), Lens("cm", 2)], [], [], [Lens("pc", 4), Lens("ot", 9), Lens("ab", 5)])
    ensures Shows(ApplyStep(st, Remove("pc")), [Lens("rn", 1), Lens("cm", 2)], [], [], [Lens("ot", 9), Lens("ab", 5)])
  {
    ExampleLabelHashes();
    StepEffect(st, Remove("pc"));
    RetainOne([Lens("pc", 4), Lens("ot", 9), Lens("ab", 5)], 0, "pc");
    assert [Lens("pc", 4), Lens("ot", 9), Lens("ab", 5)][..0] + [Lens("pc", 4), Lens("ot", 9), Lens("ab", 5)][1..] == [Lens("ot", 9), Lens("ab", 5)];
  }

  /** Step 10 of the example, pc=6. */
  lemma ExampleStep10(st: Slots)
    requires ValidSlots(st) && Shows(st, [Lens("rn", 1), Lens("cm", 2)], [], [], [Lens("ot", 9), Lens("ab", 5)])
    ensures Shows(ApplyStep(st, Add("pc", 6)), [Lens("rn", 1), Lens("cm", 2)], [], [], [Lens("ot", 9), Lens("ab", 5), Lens("pc", 6)])
  {
    ExampleLabelHashes();
    StepEffect(st, Add("pc", 6));
    assert !HasLens([Lens("ot", 9), Lens("ab", 5)], "pc");
    assert [Lens("ot", 9), Lens("ab", 5)] + [Lens("pc", 6)] == [Lens("ot", 9), Lens("ab", 5), Lens("pc", 6)];
  }

  /** Step 11 of the example, ot=7. */
  lemma ExampleStep11(st: Slots)
    requires ValidSlots(st) && Shows(st, [Lens("rn", 1), Lens("cm", 2)], [], [], [Lens("ot", 9), Lens("ab", 5), Lens("pc", 6)])
    ensures Shows(ApplyStep(st, Add("ot", 7)), [Lens("rn", 1), Lens("cm", 2)], [], [], [Lens("ot", 7), Lens("ab", 5), Lens("pc", 6)])
  {
    var box := [Lens("ot", 9), Lens("ab", 5), Lens("pc", 6)];
    ExampleLabelHashes();
    SetFocalAt(box, 0, "ot", 7);
    assert st.boxes[3] == box;
    StepEffect(st, Add("ot", 7));
    assert box[0 := Lens("ot", 7)] == [Lens("ot", 7), Lens("ab", 5), Lens("pc", 6)];
  }

  /** A run of steps that are those of the example, one by one. */
  lemma ExampleChain(start: Slots, steps: seq<Step>)
    requires ValidSlots(start) && Shows(start, [], [], [], []) && |steps| == 11
    requires steps[0] == Add("rn", 1) && steps[1] == Remove("cm") && steps[2] == Add("qp", 3) && steps[3] == Add("cm", 2)
    requires steps[4] == Remove("qp") && steps[5] == Add("pc", 4) && steps[6] == Add("ot", 9) && steps[7] == Add("ab", 5)
    requires steps[8] == Remove("pc") && steps[9] == Add("pc", 6) && steps[10] == Add("ot", 7)
    ensures Shows(RunSteps(start, steps), [Lens("rn", 1), Lens("cm", 2)], [], [], [Lens("ot", 7), Lens("ab", 5), Lens("pc", 6)])
  {
    assert steps[..0] == [] && steps[..11] == steps;
    RunStepsSnoc(start, steps, 0);
    ExampleStep1(RunSteps(start, steps[..0]));
    RunStepsSnoc(start, steps, 1);
    ExampleStep2(RunSteps(start, steps[..1]));
    RunStepsSnoc(start, steps, 2);
    ExampleStep3(RunSteps(start, steps[..2]));
    RunStepsSnoc(start, steps, 3);
    ExampleStep4(RunSteps(start, steps[..3]));
    RunStepsSnoc(start, steps, 4);
    ExampleStep5(RunSteps(start, steps[..4]));
    RunStepsSnoc(start, steps, 5);
    ExampleStep6(RunSteps(start, steps[..5]));
    RunStepsSnoc(start, steps, 6);
    ExampleStep7(RunSteps(start, steps[..6]));
    RunStepsSnoc(start, steps, 7);
    ExampleStep8(RunSteps(start, steps[..7]));
    RunStepsSnoc(start, steps, 8);
    ExampleStep9(RunSteps(start, steps[..8]));
    RunStepsSnoc(start, steps, 9);
    ExampleStep10(RunSteps(start, steps[..9]));
    RunStepsSnoc(start, steps, 10);
    ExampleStep11(RunSteps(start, steps[..10]));
  }

  /** After the example sequence box 0 holds rn 1 and cm 2, box 3 holds
      ot 7, ab 5 and pc 6, and every other box is empty. */
  lemma ExampleRun()
    ensures Shows(RunSteps(Empty, ExampleSteps), [Lens("rn", 1), Lens("cm", 2)], [], [], [Lens("ot", 7), Lens("ab", 5), Lens("pc", 6)])
  {
    EmptyValid();
    ExampleChain(Empty, ExampleSteps);
  }

  /** The boxes the example ends with have focusing power 145: rn 1 and
      cm 2 give 1 + 4, and ot 7, ab 5 and pc 6 give 28 + 40 + 72. */
  lemma ExampleFinalPower(st: Slots)
    requires Shows(st, [Lens("rn", 1), Lens("cm", 2)], [], [], [Lens("ot", 7), Lens("ab", 5), Lens("pc", 6)])
    ensures PowerOf(st.boxes) == 145
  {
    PowerOfPrefix(st.boxes, 4);
    var front := st.boxes[..4];
    assert front[..1][..0] == [] && front[..2][..1] == front[..1] && front[..3][..2] == front[..2];
    var b0 := front[0];
    assert b0[..1] == [b0[0]] && [b0[0]][..0] == [];
    assert BoxPower(0, b0) == 5;
    assert BoxPower(1, front[1]) == 0 && BoxPower(2, front[2]) == 0;
    var b3 := front[3];
    assert b3[..2][..1] == b3[..1] && b3[..1][..0] == [];
    assert BoxPower(3, b3[..1]) == 28;
    assert BoxPower(3, b3[..2]) == 68;
    assert BoxPower(3, b3) == 140;
    assert PowerOf(front[..1]) == 5;
    assert PowerOf(front[..2]) == 5;
    assert PowerOf(front[..3]) == 5;
  }

  /** part_two on the example: focusing power 145. */
  lemma ExamplePower()
    ensures PowerOf(RunSteps(Empty, ExampleSteps).boxes) == 145
  {
    ExampleRun();
    ExampleFinalPower(RunSteps(Empty, ExampleSteps));
  }
}
