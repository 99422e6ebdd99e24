/** The packet decoder of 2021 day 16: a transmission of bits holds packets
    with a 3-bit version and a 3-bit type; type 4 is a literal number
    written in 5-bit groups, every other type is an operator over
    sub-packets counted either in bits or in packets. */
module PacketDecoder {
  import opened Prelude

  type Bit = b: nat | b < 2

  datatype Packet =
    | Literal(version: nat, value: nat)
    | Operator(version: nat, typeId: nat, subs: seq<Packet>)

  /** int(s, 2) on a non-empty string of bits: most significant bit first. */
  function BinValue(s: seq<Bit>): nat
  {
    if s == [] then 0 else 2 * BinValue(s[..|s| - 1]) + s[|s| - 1]
  }

  lemma {:induction false} BinValueBound(s: seq<Bit>)
    ensures BinValue(s) < Pow(2, |s|)
  {
    if s != [] {
      BinValueBound(s[..|s| - 1]);
    }
  }

  lemma {:induction false} BinValueConcat(a: seq<Bit>, b: seq<Bit>)
    ensures BinValue(a + b) == BinValue(a) * Pow(2, |b|) + BinValue(b)
  {
    if b == [] {
      assert a + b == a;
    } else {
      var init := b[..|b| - 1];
      BinValueConcat(a, init);
      assert (a + b)[..|a + b| - 1] == a + init;
      var p := Pow(2, |init|);
      assert Pow(2, |b|) == 2 * p;
      calc {
        BinValue(a + b);
        2 * (BinValue(a) * p + BinValue(init)) + b[|b| - 1];
        { TwiceProduct(BinValue(a), p); }
        BinValue(a) * (2 * p) + (2 * BinValue(init) + b[|b| - 1]);
      }
    }
  }

  lemma TwiceProduct(x: int, p: int)
    ensures 2 * (x * p) == x * (2 * p)
  {
  }

  /** The w low bits of n, most significant first (the encoder's format). */
  function ToBits(n: nat, w: nat): (s: seq<Bit>)
    ensures |s| == w
  {
    if w == 0 then [] else ToBits(n / 2, w - 1) + [n % 2]
  }

  lemma {:induction false} ToBitsValue(n: nat, w: nat)
    requires n < Pow(2, w)
    ensures BinValue(ToBits(n, w)) == n
  {
    if w > 0 {
      ToBitsValue(n / 2, w - 1);
      assert ToBits(n, w)[..w - 1] == ToBits(n / 2, w - 1);
    }
  }

  /** reader.read(n): the next n bits, or fewer at the end of the input. */
  function Read(bits: seq<Bit>, pos: nat, n: nat): (s: seq<Bit>)
    requires pos <= |bits|
    ensures |s| <= n && pos + |s| <= |bits|
    ensures |s| == n || pos + |s| == |bits|
  {
    bits[pos..if pos + n <= |bits| then pos + n else |bits|]
  }

  /** Prepending to the packets or payload of a successful parse. */
  function Prepend<T>(front: seq<T>, r: Option<(seq<T>, nat)>): Option<(seq<T>, nat)>
  {
    match r
    case None => None
    case Some((rest, end)) => Some((front + rest, end))
  }

  /** The 5-bit groups of a literal from pos: their payload bits and where
      they end; the last group is the first whose leading bit is 0. A read
      that comes back empty fails (the source indexes into it). */
  function ParseGroups(bits: seq<Bit>, pos: nat): (r: Option<(seq<Bit>, nat)>)
    requires pos <= |bits|
    ensures r.Some? ==> pos < r.value.1 <= |bits|
    decreases |bits| - pos
  {
    var g := Read(bits, pos, 5);
    if g == [] then None
    else if g[0] == 0 then Some((g[1..], pos + |g|))
    else Prepend(g[1..], ParseGroups(bits, pos + |g|))
  }

  /** Packet.parse from position pos: the packet and the position after it,
      None where the source raises. The first three bits are the version. */
  function ParseAt(bits: seq<Bit>, pos: nat): (r: Option<(Packet, nat)>)
    requires pos <= |bits|
    ensures r.Some? ==> pos + 2 <= r.value.1 <= |bits|
    decreases |bits| - pos, 0
  {
    var v := Read(bits, pos, 3);
    if v == [] then None else ParseTyped(bits, pos + |v|, BinValue(v))
  }

  /** The rest of Packet.parse once the version is read: three bits of type. */
  function ParseTyped(bits: seq<Bit>, pos: nat, version: nat): (r: Option<(Packet, nat)>)
    requires pos <= |bits|
    ensures r.Some? ==> pos + 1 < r.value.1 <= |bits|
    decreases |bits| - pos, 4
  {
    var t := Read(bits, pos, 3);
    if t == [] then None else ParseBody(bits, pos + |t|, version, BinValue(t))
  }

  /** The contents of a packet of the given version and type: literal
      groups for type 4, operator contents for any other type. */
  function ParseBody(bits: seq<Bit>, pos: nat, version: nat, typeId: nat): (r: Option<(Packet, nat)>)
    requires pos <= |bits|
    ensures r.Some? ==> pos < r.value.1 <= |bits|
    decreases |bits| - pos, 3
  {
    if typeId == 4 then
      match ParseGroups(bits, pos)
      case None => None
      case Some((payload, end)) =>
        if payload == [] then None else Some((Literal(version, BinValue(payload)), end))
    else
      match ParseOperator(bits, pos)
      case None => None
      case Some((subs, end)) => Some((Operator(version, typeId, subs), end))
  }

  /** The operator part of Packet.parse: a length-type bit "0" and a 15-bit
      count of sub-packet bits, or anything else and an 11-bit count of
      sub-packets. */
  function ParseOperator(bits: seq<Bit>, pos: nat): (r: Option<(seq<Packet>, nat)>)
    requires pos <= |bits|
    ensures r.Some? ==> pos < r.value.1 <= |bits|
    decreases |bits| - pos, 2
  {
    var lt := Read(bits, pos, 1);
    if lt == [0] then
      var l := Read(bits, pos + 1, 15);
      if l == [] then None
      else
        var start := pos + 1 + |l|;
        ParseUntil(bits, start, start + BinValue(l))
    else
      var c := Read(bits, pos + |lt|, 11);
      if c == [] then None else ParseCount(bits, pos + |lt| + |c|, BinValue(c))
  }

  /** Sub-packets parsed while the position is below the bit limit. */
  function ParseUntil(bits: seq<Bit>, pos: nat, limit: nat): (r: Option<(seq<Packet>, nat)>)
    requires pos <= |bits|
    ensures r.Some? ==> pos <= r.value.1 <= |bits|
    decreases |bits| - pos, 1
  {
    if pos >= limit then Some(([], pos))
    else
      match ParseAt(bits, pos)
      case None => None
      case Some((p, end)) => Prepend([p], ParseUntil(bits, end, limit))
  }

  /** A fixed number of sub-packets, one after the other. */
  function ParseCount(bits: seq<Bit>, pos: nat, count: nat): (r: Option<(seq<Packet>, nat)>)
    requires pos <= |bits|
    ensures r.Some? ==> pos <= r.value.1 <= |bits| && |r.value.0| == count
    decreases |bits| - pos, 1
  {
    if count == 0 then Some(([], pos))
    else
      match ParseAt(bits, pos)
      case None => None
      case Some((p, end)) => Prepend([p], ParseCount(bits, end, count - 1))
  }

  /** decode: packets are parsed one after the other until a parse raises. */
  function DecodeFrom(bits: seq<Bit>, pos: nat): seq<Packet>
    requires pos <= |bits|
    decreases |bits| - pos
  {
    match ParseAt(bits, pos)
    case None => []
    case Some((p, end)) => [p] + DecodeFrom(bits, end)
  }

  /** The StringIO that Packet.parse consumes: the bits and a position that
      only moves forward. */
  class Reader {
    const bits: seq<Bit>
    var pos: nat

    constructor (bits: seq<Bit>)
      ensures this.bits == bits && pos == 0
    {
      this.bits := bits;
      pos := 0;
    }

    /** read(n): the next n bits or fewer at the end; the position moves
        past them. */
    method ReadBits(n: nat) returns (s: seq<Bit>)
      requires pos <= |bits|
      modifies this
      ensures s == Read(bits, old(pos), n) && pos == old(pos) + |s|
    {
      var end := if pos + n <= |bits| then pos + n else |bits|;
      s := bits[pos..end];
      pos := end;
    }
  }

  /** The payload bits of the groups read so far, in order. */
  function Payload(groups: seq<seq<Bit>>): seq<Bit>
  {
    if groups == [] then []
    else Payload(groups[..|groups| - 1]) + (var g := groups[|groups| - 1]; if g == [] then [] else g[1..])
  }

  /** The literal loop of Packet.parse: read 5 bits at a time until a group
      starts with 0, then join the payloads. */
  method ParseLiteralGroups(r: Reader) returns (res: Option<seq<Bit>>)
    requires r.pos <= |r.bits|
    modifies r
    ensures r.pos <= |r.bits|
    ensures match ParseGroups(r.bits, old(r.pos))
            case None => res.None?
            case Some((payload, end)) => res == Some(payload) && r.pos == end
  {
    ghost var start := r.pos;
    var stack: seq<seq<Bit>> := [];
    PrependNothing(ParseGroups(r.bits, start));
    while |stack| == 0 || stack[|stack| - 1][0] != 0
      invariant start <= r.pos <= |r.bits|
      invariant forall i :: 0 <= i < |stack| ==> stack[i] != []
      invariant |stack| == 0 || stack[|stack| - 1][0] != 0 ==>
                  ParseGroups(r.bits, start) == Prepend(Payload(stack), ParseGroups(r.bits, r.pos))
      invariant |stack| > 0 && stack[|stack| - 1][0] == 0 ==>
                  ParseGroups(r.bits, start) == Some((Payload(stack), r.pos))
      decreases |r.bits| - r.pos
    {
      ghost var before := r.pos;
      var group := r.ReadBits(5);
      if group == [] {
        return None;
      }
      PrependTwice(Payload(stack), group[1..], ParseGroups(r.bits, r.pos));
      assert (stack + [group])[..|stack|] == stack;
      stack := stack + [group];
    }
    return Some(Payload(stack));
  }

  lemma PrependNothing<T>(r: Option<(seq<T>, nat)>)
    ensures Prepend([], r) == r
  {
    if r.Some? {
      assert [] + r.value.0 == r.value.0;
    }
  }

  lemma PrependTwice<T>(a: seq<T>, b: seq<T>, r: Option<(seq<T>, nat)>)
    ensures Prepend(a, Prepend(b, r)) == Prepend(a + b, r)
  {
    if r.Some? {
      assert a + (b + r.value.0) == (a + b) + r.value.0;
    }
  }

  /** Packet.parse, consuming the reader; None where the source raises. */
  method Parse(r: Reader) returns (res: Option<Packet>)
    requires r.pos <= |r.bits|
    modifies r
    ensures r.pos <= |r.bits|
    ensures match ParseAt(r.bits, old(r.pos))
            case None => res.None?
            case Some((p, end)) => res == Some(p) && r.pos == end
    decreases |r.bits| - r.pos, 0
  {
    ghost var start := r.pos;
    var v := r.ReadBits(3);
    if v == [] {
      return None;
    }
    var version := BinValue(v);
    assert ParseAt(r.bits, start) == ParseTyped(r.bits, r.pos, version);
    ghost var typed := r.pos;
    var t := r.ReadBits(3);
    if t == [] {
      return None;
    }
    var typeId := BinValue(t);
    ghost var body := r.pos;
    assert ParseTyped(r.bits, typed, version) == ParseBody(r.bits, body, version, typeId);
    if typeId == 4 {
      var payload := ParseLiteralGroups(r);
      if payload.None? || payload.value == [] {
        return None;
      }
      return Some(Literal(version, BinValue(payload.value)));
    } else {
      var subs := ParseSubpackets(r);
      if subs.None? {
        return None;
      }
      return Some(Operator(version, typeId, subs.value));
    }
  }

  /** The operator branch of Packet.parse: the length type, then the
      sub-packets by bit count or by packet count. */
  method ParseSubpackets(r: Reader) returns (res: Option<seq<Packet>>)
    requires r.pos <= |r.bits|
    modifies r
    ensures r.pos <= |r.bits|
    ensures match ParseOperator(r.bits, old(r.pos))
            case None => res.None?
            case Some((subs, end)) => res == Some(subs) && r.pos == end
    decreases |r.bits| - r.pos, 2
  {
    var lengthType := r.ReadBits(1);
    if lengthType == [0] {
      var l := r.ReadBits(15);
      if l == [] {
        return None;
      }
      res := ParseByBits(r, r.pos + BinValue(l));
    } else {
      var c := r.ReadBits(11);
      if c == [] {
        return None;
      }
      res := ParseByCount(r, BinValue(c));
    }
  }

  /** Length type 0: parse sub-packets while the position is below the
      limit. */
  method ParseByBits(r: Reader, limit: nat) returns (res: Option<seq<Packet>>)
    requires r.pos <= |r.bits|
    modifies r
    ensures r.pos <= |r.bits|
    ensures match ParseUntil(r.bits, old(r.pos), limit)
            case None => res.None?
            case Some((subs, end)) => res == Some(subs) && r.pos == end
    decreases |r.bits| - r.pos, 1
  {
    ghost var first := r.pos;
    var subpackets: seq<Packet> := [];
    PrependNothing(ParseUntil(r.bits, first, limit));
    while r.pos < limit
      invariant first <= r.pos <= |r.bits|
      invariant ParseUntil(r.bits, first, limit) == Prepend(subpackets, ParseUntil(r.bits, r.pos, limit))
      decreases |r.bits| - r.pos
    {
      var p := Parse(r);
      if p.None? {
        return None;
      }
      PrependTwice(subpackets, [p.value], ParseUntil(r.bits, r.pos, limit));
      subpackets := subpackets + [p.value];
    }
    assert subpackets + [] == subpackets;
    return Some(subpackets);
  }

  /** Length type 1: parse exactly count sub-packets. */
  method ParseByCount(r: Reader, count: nat) returns (res: Option<seq<Packet>>)
    requires r.pos <= |r.bits|
    modifies r
    ensures r.pos <= |r.bits|
    ensures match ParseCount(r.bits, old(r.pos), count)
            case None => res.None?
            case Some((subs, end)) => res == Some(subs) && r.pos == end
    decreases |r.bits| - r.pos, 1
  {
    ghost var first := r.pos;
    var subpackets: seq<Packet> := [];
    PrependNothing(ParseCount(r.bits, first, count));
    for k := 0 to count
      invariant first <= r.pos <= |r.bits|
      invariant ParseCount(r.bits, first, count) == Prepend(subpackets, ParseCount(r.bits, r.pos, count - k))
    {
      var p := Parse(r);
      if p.None? {
        return None;
      }
      PrependTwice(subpackets, [p.value], ParseCount(r.bits, r.pos, count - k - 1));
      subpackets := subpackets + [p.value];
    }
    assert subpackets + [] == subpackets;
    return Some(subpackets);
  }

  /** decode: parse packets until one raises. */
  method Decode(bits: seq<Bit>) returns (packets: seq<Packet>)
    ensures packets == DecodeFrom(bits, 0)
  {
    var reader := new Reader(bits);
    packets := [];
    while true
      invariant reader.bits == bits && reader.pos <= |bits|
      invariant DecodeFrom(bits, 0) == packets + DecodeFrom(bits, reader.pos)
      decreases |bits| - reader.pos
    {
      ghost var here := reader.pos;
      var p := Parse(reader);
      if p.None? {
        break;
      }
      packets := packets + [p.value];
    }
    assert packets + [] == packets;
  }


  /** Packet.version: the packet's own version plus the versions of all its
      sub-packets, recursively. */
  function VersionSum(p: Packet): (r: nat)
    ensures r >= p.version
    decreases p, 1
  {
    match p
    case Literal(v, _) => v
    case Operator(v, _, subs) => v + VersionSums(subs)
  }

  function VersionSums(ps: seq<Packet>): nat
    decreases ps, 0
  {
    if ps == [] then 0 else VersionSum(ps[0]) + VersionSums(ps[1..])
  }

  /** The versions of a packet and of every packet nested in it, in the
      order they appear in the transmission. */
  function Versions(p: Packet): (vs: seq<nat>)
    ensures |vs| >= 1 && vs[0] == p.version
    decreases p, 1
  {
    match p
    case Literal(v, _) => [v]
    case Operator(v, _, subs) => [v] + VersionsOf(subs)
  }

  function VersionsOf(ps: seq<Packet>): seq<nat>
    decreases ps, 0
  {
    if ps == [] then [] else Versions(ps[0]) + VersionsOf(ps[1..])
  }

  function Total(s: seq<nat>): nat
  {
    if s == [] then 0 else s[0] + Total(s[1..])
  }

  lemma {:induction false} TotalConcat(a: seq<nat>, b: seq<nat>)
    ensures Total(a + b) == Total(a) + Total(b)
  {
    if a == [] {
      assert a + b == b;
    } else {
      TotalConcat(a[1..], b);
      assert (a + b)[1..] == a[1..] + b;
    }
  }

  /** The version sum is the total of every version in the packet tree. */
  lemma {:induction false} VersionSumIsTotal(p: Packet)
    ensures VersionSum(p) == Total(Versions(p))
    decreases p, 1
  {
    match p
    case Literal(v, _) =>
      assert [v][1..] == [];
    case Operator(v, _, subs) =>
      VersionSumsAreTotal(subs);
      assert ([v] + VersionsOf(subs))[1..] == VersionsOf(subs);
  }

  lemma {:induction false} VersionSumsAreTotal(ps: seq<Packet>)
    ensures VersionSums(ps) == Total(VersionsOf(ps))
    decreases ps, 0
  {
    if ps != [] {
      VersionSumIsTotal(ps[0]);
      VersionSumsAreTotal(ps[1..]);
      TotalConcat(Versions(ps[0]), VersionsOf(ps[1..]));
    }
  }

  /** The values of sub-packets, None if any of them raises. */
  function Values(ps: seq<Packet>): (r: Option<seq<nat>>)
    ensures r.Some? ==> |r.value| == |ps|
    decreases ps, 0
  {
    if ps == [] then Some([])
    else
      match (Value(ps[0]), Values(ps[1..]))
      case (Some(x), Some(xs)) => Some([x] + xs)
      case _ => None
  }

  function Product(s: seq<nat>): nat
  {
    if s == [] then 1 else s[0] * Product(s[1..])
  }

  function Minimum(s: seq<nat>): (m: nat)
    requires s != []
    ensures m in s && forall i :: 0 <= i < |s| ==> m <= s[i]
  {
    if |s| == 1 then s[0] else var m := Minimum(s[1..]); if s[0] <= m then s[0] else m
  }

  function Maximum(s: seq<nat>): (m: nat)
    requires s != []
    ensures m in s && forall i :: 0 <= i < |s| ==> s[i] <= m
  {
    if |s| == 1 then s[0] else var m := Maximum(s[1..]); if s[0] >= m then s[0] else m
  }

  /** Packet.value by type: 0 sum, 1 product, 2 minimum, 3 maximum, 4 the
      literal, 5 greater, 6 less, 7 equal (1 or 0 on the first two
      sub-packets). None where the source raises: a product, minimum or
      maximum of no values, a comparison with fewer than two sub-packets,
      a type above 7. */
  function Value(p: Packet): (r: Option<nat>)
    decreases p, 1
  {
    match p
    case Literal(_, n) => Some(n)
    case Operator(_, t, subs) =>
      if 5 <= t <= 7 then
        if |subs| < 2 then None
        else
          match (Value(subs[0]), Value(subs[1]))
          case (Some(a), Some(b)) =>
            Some(if (t == 5 && a > b) || (t == 6 && a < b) || (t == 7 && a == b) then 1 else 0)
          case _ => None
      else if t > 7 || t == 4 then None
      else
        match Values(subs)
        case None => None
        case Some(vs) =>
          if t == 0 then Some(Total(vs))
          else if vs == [] then None
          else if t == 1 then Some(Product(vs))
          else if t == 2 then Some(Minimum(vs))
          else Some(Maximum(vs))
  }

  /** How a value comes out, type by type. */
  lemma ValueByType(p: Packet)
    requires p.Operator? && Value(p).Some?
    ensures p.typeId < 8 && p.typeId != 4
    ensures 1 <= p.typeId <= 3 ==> p.subs != []
    ensures 5 <= p.typeId ==> |p.subs| >= 2 && Value(p).value <= 1
    ensures p.typeId == 5 ==> (Value(p).value == 1 <==> Value(p.subs[0]).value > Value(p.subs[1]).value)
    ensures p.typeId == 6 ==> (Value(p).value == 1 <==> Value(p.subs[0]).value < Value(p.subs[1]).value)
    ensures p.typeId == 7 ==> (Value(p).value == 1 <==> Value(p.subs[0]).value == Value(p.subs[1]).value)
    ensures p.typeId == 2 ==> forall i :: 0 <= i < |p.subs| ==> Value(p).value <= Values(p.subs).value[i]
    ensures p.typeId == 3 ==> forall i :: 0 <= i < |p.subs| ==> Values(p.subs).value[i] <= Value(p).value
  {
  }

  /** Every sub-packet of a valued sum, product, minimum or maximum has a
      value, and Values lists them in order. */
  lemma {:induction false} ValuesAt(ps: seq<Packet>, i: nat)
    requires Values(ps).Some? && i < |ps|
    ensures Value(ps[i]) == Some(Values(ps).value[i])
    decreases i
  {
    if i > 0 {
      ValuesAt(ps[1..], i - 1);
    }
  }

  /** int(c, 16) for one hexadecimal digit. */
  function HexDigit(c: char): (r: Option<nat>)
    ensures r.Some? ==> r.value < 16
  {
    if '0' <= c <= '9' then Some(c as nat - '0' as nat)
    else if 'a' <= c <= 'f' then Some(c as nat - 'a' as nat + 10)
    else if 'A' <= c <= 'F' then Some(c as nat - 'A' as nat + 10)
    else None
  }

  /** The bits of the transmission: four per hexadecimal digit, None where a
      character is not one. */
  function HexBits(s: string): (r: Option<seq<Bit>>)
    ensures r.Some? ==> |r.value| == 4 * |s|
  {
    if s == [] then Some([])
    else
      match (HexDigit(s[0]), HexBits(s[1..]))
      case (Some(d), Some(rest)) => Some(ToBits(d, 4) + rest)
      case _ => None
  }

  /** part_one: the version sums of all decoded packets added up, which is
      the total of every version anywhere in the transmission. */
  function PartOne(packets: seq<Packet>): (r: nat)
    ensures r == Total(VersionsOf(packets))
  {
    VersionSumsAreTotal(packets);
    VersionSums(packets)
  }

  /** part_two: the value of the first packet, None when there is none or
      when its value raises. */
  function PartTwo(packets: seq<Packet>): Option<nat>
  {
    if packets == [] then None else Value(packets[0])
  }

  /** The packets that Packet.parse can produce: 3-bit versions and types,
      and type 4 only on literals. */
  lemma {:induction false} ParsedHeader(bits: seq<Bit>, pos: nat)
    requires pos <= |bits| && ParseAt(bits, pos).Some?
    ensures var p := ParseAt(bits, pos).value.0;
            p.version < 8 && (p.Operator? ==> p.typeId < 8 && p.typeId != 4)
  {
    var v := Read(bits, pos, 3);
    assert ParseAt(bits, pos) == ParseTyped(bits, pos + |v|, BinValue(v));
    var t := Read(bits, pos + |v|, 3);
    assert ParseTyped(bits, pos + |v|, BinValue(v)) == ParseBody(bits, pos + |v| + |t|, BinValue(v), BinValue(t));
    BinValueBound(v);
    BinValueBound(t);
    assert Pow(2, |v|) <= 8 && Pow(2, |t|) <= 8 by {
      PowMonotone(|v|, 3);
      PowMonotone(|t|, 3);
    }
  }

  lemma {:induction false} PowMonotone(m: nat, n: nat)
    requires m <= n
    ensures Pow(2, m) <= Pow(2, n)
  {
    if m < n {
      PowMonotone(m, n - 1);
      PowPositive(2, n - 1);
    }
  }

  // An encoder, the partner of the parser.

  /** The base-16 digits of n, most significant first, without leading
      zeros. */
  function HexDigitsOf(n: nat): (ds: seq<nat>)
    ensures |ds| >= 1 && forall i :: 0 <= i < |ds| ==> ds[i] < 16
  {
    if n < 16 then [n] else HexDigitsOf(n / 16) + [n % 16]
  }

  /** The number that base-16 digits stand for. */
  function HexValue(ds: seq<nat>): nat
  {
    if ds == [] then 0 else 16 * HexValue(ds[..|ds| - 1]) + ds[|ds| - 1]
  }

  lemma {:induction false} HexDigitsValue(n: nat)
    ensures HexValue(HexDigitsOf(n)) == n
  {
    if n >= 16 {
      HexDigitsValue(n / 16);
      var ds := HexDigitsOf(n);
      assert ds[..|ds| - 1] == HexDigitsOf(n / 16);
    }
  }

  /** The 4-bit payloads of the digits, joined. */
  function Nibbles(ds: seq<nat>): (s: seq<Bit>)
    ensures |s| == 4 * |ds|
  {
    if ds == [] then [] else Nibbles(ds[..|ds| - 1]) + ToBits(ds[|ds| - 1], 4)
  }

  lemma {:induction false} NibblesValue(ds: seq<nat>)
    requires forall i :: 0 <= i < |ds| ==> ds[i] < 16
    ensures BinValue(Nibbles(ds)) == HexValue(ds)
  {
    if ds != [] {
      var init, last := ds[..|ds| - 1], ds[|ds| - 1];
      var hi, lo := Nibbles(init), ToBits(last, 4);
      assert Nibbles(ds) == hi + lo;
      NibblesValue(init);
      BinValueConcat(hi, lo);
      assert Pow(2, 4) == 16;
      ToBitsValue(last, 4);
      assert BinValue(hi + lo) == BinValue(hi) * 16 + last;
    }
  }

  lemma {:induction false} NibblesCons(d: nat, ds: seq<nat>)
    ensures Nibbles([d] + ds) == ToBits(d, 4) + Nibbles(ds)
  {
    if ds == [] {
      assert [d] + ds == [d];
      assert [d][..0] == [];
    } else {
      var init := ds[..|ds| - 1];
      NibblesCons(d, init);
      assert ([d] + ds)[..|ds|] == [d] + init;
    }
  }

  /** The 5-bit groups of a literal: each digit behind a 1, the last behind
      a 0. */
  function Groups(ds: seq<nat>): (s: seq<Bit>)
    requires |ds| >= 1
    ensures |s| == 5 * |ds|
  {
    if |ds| == 1 then [0] + ToBits(ds[0], 4) else [1] + ToBits(ds[0], 4) + Groups(ds[1..])
  }

  /** The transmission of a packet, with every operator using the packet
      count (counted) or every operator using the bit count. */
  function Encode(p: Packet, counted: bool): (e: seq<Bit>)
    ensures |e| >= 6
    decreases p, 1
  {
    match p
    case Literal(v, n) => ToBits(v, 3) + ToBits(4, 3) + Groups(HexDigitsOf(n))
    case Operator(v, t, subs) =>
      var body := EncodeAll(subs, counted);
      ToBits(v, 3) + ToBits(t, 3) +
      (if counted then [1] + ToBits(|subs|, 11) + body else [0] + ToBits(|body|, 15) + body)
  }

  function EncodeAll(ps: seq<Packet>, counted: bool): seq<Bit>
    decreases ps, 0
  {
    if ps == [] then [] else Encode(ps[0], counted) + EncodeAll(ps[1..], counted)
  }

  /** The packets the encoder can write: every field fits its width. */
  predicate WellFormed(p: Packet, counted: bool)
    decreases p, 1
  {
    match p
    case Literal(v, _) => v < 8
    case Operator(v, t, subs) =>
      && v < 8 && t < 8 && t != 4
      && (if counted then |subs| < 2048 else |EncodeAll(subs, counted)| < 32768)
      && AllWellFormed(subs, counted)
  }

  predicate AllWellFormed(ps: seq<Packet>, counted: bool)
    decreases ps, 0
  {
    ps == [] || (WellFormed(ps[0], counted) && AllWellFormed(ps[1..], counted))
  }

  /** The bits from pos on start with e, compared one bit at a time. */
  predicate At(bits: seq<Bit>, pos: nat, e: seq<Bit>)
    decreases |e|
  {
    if e == [] then pos <= |bits| else pos < |bits| && bits[pos] == e[0] && At(bits, pos + 1, e[1..])
  }

  lemma {:induction false} AtSlice(bits: seq<Bit>, pos: nat, e: seq<Bit>)
    ensures At(bits, pos, e) <==> pos + |e| <= |bits| && bits[pos..pos + |e|] == e
    decreases |e|
  {
    if e != [] {
      AtSlice(bits, pos + 1, e[1..]);
      if pos + |e| <= |bits| {
        assert bits[pos..pos + |e|] == [bits[pos]] + bits[pos + 1..pos + 1 + |e[1..]|];
        assert e == [e[0]] + e[1..];
      }
    }
  }

  lemma ReadAt(bits: seq<Bit>, pos: nat, e: seq<Bit>, i: nat, n: nat)
    requires At(bits, pos, e) && i + n <= |e|
    ensures pos + |e| <= |bits| && Read(bits, pos + i, n) == e[i..i + n]
  {
    AtSlice(bits, pos, e);
    assert Read(bits, pos + i, n) == bits[pos + i..pos + i + n];
    forall k | 0 <= k < |e|
      ensures bits[pos + k] == e[k]
    {
      assert e[k] == bits[pos..pos + |e|][k];
    }
  }

  lemma AtSplit(bits: seq<Bit>, pos: nat, a: seq<Bit>, b: seq<Bit>)
    requires At(bits, pos, a + b)
    ensures At(bits, pos, a) && At(bits, pos + |a|, b)
  {
    AtSlice(bits, pos, a + b);
    AtSlice(bits, pos, a);
    AtSlice(bits, pos + |a|, b);
    assert bits[pos..pos + |a|] == (a + b)[..|a|];
    assert bits[pos + |a|..pos + |a| + |b|] == (a + b)[|a|..];
  }

  lemma {:induction false} GroupsParse(ds: seq<nat>, bits: seq<Bit>, pos: nat)
    requires |ds| >= 1 && forall i :: 0 <= i < |ds| ==> ds[i] < 16
    requires At(bits, pos, Groups(ds))
    ensures ParseGroups(bits, pos) == Some((Nibbles(ds), pos + 5 * |ds|))
  {
    var e := Groups(ds);
    ReadAt(bits, pos, e, 0, 5);
    var g := Read(bits, pos, 5);
    if |ds| == 1 {
      assert g == e;
      assert g[1..] == ToBits(ds[0], 4);
      assert Nibbles(ds) == ToBits(ds[0], 4) by {
        assert ds == [ds[0]] + [];
        NibblesCons(ds[0], []);
        assert ToBits(ds[0], 4) + [] == ToBits(ds[0], 4);
      }
    } else {
      var rest := Groups(ds[1..]);
      assert e == ([1] + ToBits(ds[0], 4)) + rest;
      AtSplit(bits, pos, [1] + ToBits(ds[0], 4), rest);
      assert g == [1] + ToBits(ds[0], 4);
      GroupsParse(ds[1..], bits, pos + 5);
      NibblesCons(ds[0], ds[1..]);
      assert [ds[0]] + ds[1..] == ds;
    }
  }

  lemma HeaderParse(bits: seq<Bit>, pos: nat, v: nat, t: nat, rest: seq<Bit>)
    requires v < 8 && t < 8 && At(bits, pos, ToBits(v, 3) + ToBits(t, 3) + rest)
    ensures Read(bits, pos, 3) == ToBits(v, 3) && BinValue(ToBits(v, 3)) == v
    ensures Read(bits, pos + 3, 3) == ToBits(t, 3) && BinValue(ToBits(t, 3)) == t
    ensures At(bits, pos + 6, rest)
  {
    var e := ToBits(v, 3) + ToBits(t, 3) + rest;
    ReadAt(bits, pos, e, 0, 3);
    ReadAt(bits, pos, e, 3, 3);
    assert e[0..3] == ToBits(v, 3) && e[3..6] == ToBits(t, 3);
    assert Pow(2, 3) == 8;
    ToBitsValue(v, 3);
    ToBitsValue(t, 3);
    AtSplit(bits, pos, ToBits(v, 3) + ToBits(t, 3), rest);
  }

  /** Parsing an encoded packet gives the packet back and stops right after
      its bits, whatever follows. */
  lemma {:induction false} EncodeParse(p: Packet, counted: bool, bits: seq<Bit>, pos: nat)
    requires WellFormed(p, counted) && At(bits, pos, Encode(p, counted))
    ensures ParseAt(bits, pos) == Some((p, pos + |Encode(p, counted)|))
    decreases p, 3
  {
    match p
    case Literal(v, n) => LiteralParse(v, n, counted, bits, pos);
    case Operator(v, t, subs) => OperatorParse(v, t, subs, counted, bits, pos);
  }

  lemma LiteralParse(v: nat, n: nat, counted: bool, bits: seq<Bit>, pos: nat)
    requires v < 8 && At(bits, pos, Encode(Literal(v, n), counted))
    ensures ParseAt(bits, pos) == Some((Literal(v, n), pos + |Encode(Literal(v, n), counted)|))
  {
    var ds := HexDigitsOf(n);
    HeaderParse(bits, pos, v, 4, Groups(ds));
    HeaderStep(bits, pos);
    GroupsParse(ds, bits, pos + 6);
    NibblesValue(ds);
    HexDigitsValue(n);
  }

  lemma {:induction false} OperatorParse(v: nat, t: nat, subs: seq<Packet>, counted: bool, bits: seq<Bit>, pos: nat)
    requires WellFormed(Operator(v, t, subs), counted) && At(bits, pos, Encode(Operator(v, t, subs), counted))
    ensures ParseAt(bits, pos) == Some((Operator(v, t, subs), pos + |Encode(Operator(v, t, subs), counted)|))
    decreases subs, 5
  {
    OperatorFields(v, t, subs, counted, bits, pos);
    var end := pos + |Encode(Operator(v, t, subs), counted)|;
    if counted {
      CountedParse(subs, bits, pos + 6);
    } else {
      LengthParse(subs, bits, pos + 6);
    }
    OperatorStep(bits, pos, v, t, subs, end);
  }

  /** The fields of an encoded operator read back as written, and its
      sub-packets follow them. */
  lemma OperatorFields(v: nat, t: nat, subs: seq<Packet>, counted: bool, bits: seq<Bit>, pos: nat)
    requires WellFormed(Operator(v, t, subs), counted) && At(bits, pos, Encode(Operator(v, t, subs), counted))
    ensures pos + 6 <= |bits| && BinValue(Read(bits, pos, 3)) == v
    ensures BinValue(Read(bits, pos + 3, 3)) == t && t != 4
    ensures counted ==> pos + 18 <= |bits| && Read(bits, pos + 6, 1) == [1]
    ensures counted ==> BinValue(Read(bits, pos + 7, 11)) == |subs| && At(bits, pos + 18, EncodeAll(subs, true))
    ensures counted ==> pos + |Encode(Operator(v, t, subs), counted)| == pos + 6 + 12 + |EncodeAll(subs, true)|
    ensures !counted ==> pos + 22 <= |bits| && Read(bits, pos + 6, 1) == [0]
    ensures !counted ==> BinValue(Read(bits, pos + 7, 15)) == |EncodeAll(subs, false)|
    ensures !counted ==> At(bits, pos + 22, EncodeAll(subs, false))
    ensures !counted ==> pos + |Encode(Operator(v, t, subs), counted)| == pos + 6 + 16 + |EncodeAll(subs, false)|
  {
    var body := EncodeAll(subs, counted);
    var tail := if counted then [1] + ToBits(|subs|, 11) + body else [0] + ToBits(|body|, 15) + body;
    HeaderParse(bits, pos, v, t, tail);
    OperatorHeader(subs, counted, bits, pos + 6);
  }

  /** An operator header followed by parsed operator contents parses as
      the operator packet. */
  lemma OperatorStep(bits: seq<Bit>, pos: nat, v: nat, t: nat, subs: seq<Packet>, end: nat)
    requires pos + 6 <= |bits| && BinValue(Read(bits, pos, 3)) == v
    requires BinValue(Read(bits, pos + 3, 3)) == t && t != 4
    requires ParseOperator(bits, pos + 6) == Some((subs, end))
    ensures ParseAt(bits, pos) == Some((Operator(v, t, subs), end))
  {
    HeaderStep(bits, pos);
  }

  /** A packet with a complete header parses as its contents from pos + 6. */
  lemma HeaderStep(bits: seq<Bit>, pos: nat)
    requires pos + 6 <= |bits|
    ensures ParseAt(bits, pos) == ParseBody(bits, pos + 6, BinValue(Read(bits, pos, 3)), BinValue(Read(bits, pos + 3, 3)))
  {
    assert |Read(bits, pos, 3)| == 3 && |Read(bits, pos + 3, 3)| == 3;
    assert ParseAt(bits, pos) == ParseTyped(bits, pos + 3, BinValue(Read(bits, pos, 3)));
  }

  /** The length type and length field of an encoded operator read back
      as written. */
  lemma OperatorHeader(subs: seq<Packet>, counted: bool, bits: seq<Bit>, pos: nat)
    requires counted ==> |subs| < 2048
    requires !counted ==> |EncodeAll(subs, counted)| < 32768
    requires var body := EncodeAll(subs, counted);
             At(bits, pos, if counted then [1] + ToBits(|subs|, 11) + body else [0] + ToBits(|body|, 15) + body)
    ensures counted ==> pos + 12 <= |bits| && Read(bits, pos, 1) == [1]
    ensures counted ==> BinValue(Read(bits, pos + 1, 11)) == |subs| && At(bits, pos + 12, EncodeAll(subs, true))
    ensures !counted ==> pos + 16 <= |bits| && Read(bits, pos, 1) == [0]
    ensures !counted ==> BinValue(Read(bits, pos + 1, 15)) == |EncodeAll(subs, false)|
    ensures !counted ==> At(bits, pos + 16, EncodeAll(subs, false))
  {
    var body := EncodeAll(subs, counted);
    if counted {
      assert Pow(2, 11) == 2048;
      LengthHeader(bits, pos, 1, |subs|, 11, body, pos + 12);
    } else {
      PowAdd(2, 11, 4);
      assert Pow(2, 11) == 2048 && Pow(2, 4) == 16;
      LengthHeader(bits, pos, 0, |body|, 15, body, pos + 16);
    }
  }

  /** The operator branch with length type 1 on encoded sub-packets. */
  lemma {:induction false} CountedParse(subs: seq<Packet>, bits: seq<Bit>, pos: nat)
    requires AllWellFormed(subs, true) && pos + 12 <= |bits| && Read(bits, pos, 1) == [1]
    requires BinValue(Read(bits, pos + 1, 11)) == |subs| && At(bits, pos + 12, EncodeAll(subs, true))
    ensures ParseOperator(bits, pos) == Some((subs, pos + 12 + |EncodeAll(subs, true)|))
    decreases subs, 2
  {
    EncodeCount(subs, bits, pos + 12);
    assert |Read(bits, pos, 1)| == 1 && |Read(bits, pos + 1, 11)| == 11;
  }

  /** The operator branch with length type 0 on encoded sub-packets. */
  lemma {:induction false} LengthParse(subs: seq<Packet>, bits: seq<Bit>, pos: nat)
    requires AllWellFormed(subs, false) && pos + 16 <= |bits| && Read(bits, pos, 1) == [0]
    requires BinValue(Read(bits, pos + 1, 15)) == |EncodeAll(subs, false)| && At(bits, pos + 16, EncodeAll(subs, false))
    ensures ParseOperator(bits, pos) == Some((subs, pos + 16 + |EncodeAll(subs, false)|))
    decreases subs, 2
  {
    EncodeUntil(subs, bits, pos + 16);
    assert |Read(bits, pos + 1, 15)| == 15;
  }

  /** The length-type bit and the width-bit count in front of the
      sub-packets read back as written. */
  lemma LengthHeader(bits: seq<Bit>, pos: nat, kind: Bit, n: nat, w: nat, body: seq<Bit>, start: nat)
    requires n < Pow(2, w) && At(bits, pos, [kind] + ToBits(n, w) + body) && start == pos + 1 + w
    ensures Read(bits, pos, 1) == [kind]
    ensures Read(bits, pos + 1, w) == ToBits(n, w) && BinValue(ToBits(n, w)) == n
    ensures At(bits, start, body)
  {
    var head := [kind] + ToBits(n, w);
    assert [kind] + ToBits(n, w) + body == head + body;
    AtSplit(bits, pos, head, body);
    ReadAt(bits, pos, head, 0, 1);
    assert head[0..1] == [kind];
    ReadAt(bits, pos, head, 1, w);
    assert head[1..1 + w] == ToBits(n, w);
    ToBitsValue(n, w);
  }

  /** Packets encoded with packet counts, one after the other, parse back
      by counting. */
  lemma {:induction false} EncodeCount(ps: seq<Packet>, bits: seq<Bit>, pos: nat)
    requires AllWellFormed(ps, true) && At(bits, pos, EncodeAll(ps, true))
    ensures ParseCount(bits, pos, |ps|) == Some((ps, pos + |EncodeAll(ps, true)|))
    decreases ps, 1
  {
    EncodeChain(ps, true, bits, pos);
    ChainCount(bits, pos, ps, pos + |EncodeAll(ps, true)|);
  }

  /** Packets encoded with bit counts, one after the other, parse back up
      to the end of their bits. */
  lemma {:induction false} EncodeUntil(ps: seq<Packet>, bits: seq<Bit>, pos: nat)
    requires AllWellFormed(ps, false) && At(bits, pos, EncodeAll(ps, false))
    ensures ParseUntil(bits, pos, pos + |EncodeAll(ps, false)|) == Some((ps, pos + |EncodeAll(ps, false)|))
    decreases ps, 1
  {
    EncodeChain(ps, false, bits, pos);
    ChainUntil(bits, pos, ps, pos + |EncodeAll(ps, false)|);
  }

  /** The packets ps parse one after the other from pos, ending at end. */
  predicate Chain(bits: seq<Bit>, pos: nat, ps: seq<Packet>, end: nat)
    decreases |ps|
  {
    if ps == [] then end == pos
    else
      && pos <= |bits| && ParseAt(bits, pos).Some? && ParseAt(bits, pos).value.0 == ps[0]
      && Chain(bits, ParseAt(bits, pos).value.1, ps[1..], end)
  }

  lemma {:induction false} ChainForward(bits: seq<Bit>, pos: nat, ps: seq<Packet>, end: nat)
    requires Chain(bits, pos, ps, end)
    ensures pos <= end && (ps != [] ==> pos < end <= |bits|)
    decreases |ps|
  {
    if ps != [] {
      ChainForward(bits, ParseAt(bits, pos).value.1, ps[1..], end);
    }
  }

  lemma {:induction false} ChainCount(bits: seq<Bit>, pos: nat, ps: seq<Packet>, end: nat)
    requires pos <= |bits| && Chain(bits, pos, ps, end)
    ensures ParseCount(bits, pos, |ps|) == Some((ps, end))
    decreases |ps|
  {
    if ps != [] {
      var next := ParseAt(bits, pos).value.1;
      ChainCount(bits, next, ps[1..], end);
      assert [ps[0]] + ps[1..] == ps;
    }
  }

  lemma {:induction false} ChainUntil(bits: seq<Bit>, pos: nat, ps: seq<Packet>, end: nat)
    requires pos <= |bits| && Chain(bits, pos, ps, end)
    ensures ParseUntil(bits, pos, end) == Some((ps, end))
    decreases |ps|
  {
    if ps != [] {
      var next := ParseAt(bits, pos).value.1;
      ChainForward(bits, pos, ps, end);
      ChainUntil(bits, next, ps[1..], end);
      assert [ps[0]] + ps[1..] == ps;
    }
  }

  /** Encoded packets written one after the other parse as a chain. */
  lemma {:induction false} EncodeChain(ps: seq<Packet>, counted: bool, bits: seq<Bit>, pos: nat)
    requires AllWellFormed(ps, counted) && At(bits, pos, EncodeAll(ps, counted))
    ensures Chain(bits, pos, ps, pos + |EncodeAll(ps, counted)|)
    decreases ps, 0
  {
    if ps != [] {
      var p, tail := ps[0], ps[1..];
      var first := Encode(p, counted);
      var rest := EncodeAll(tail, counted);
      var next := pos + |first|;
      assert EncodeAll(ps, counted) == first + rest;
      AtSplit(bits, pos, first, rest);
      EncodeChain(tail, counted, bits, next);
      EncodeParseChain(p, tail, counted, bits, pos, next + |rest|);
      assert [p] + tail == ps;
    }
  }

  /** An encoded packet in front of a chain extends the chain. */
  lemma {:induction false} EncodeParseChain(p: Packet, tail: seq<Packet>, counted: bool, bits: seq<Bit>, pos: nat, end: nat)
    requires WellFormed(p, counted) && At(bits, pos, Encode(p, counted))
    requires Chain(bits, pos + |Encode(p, counted)|, tail, end)
    ensures Chain(bits, pos, [p] + tail, end)
    decreases p, 4
  {
    EncodeParse(p, counted, bits, pos);
    AtSlice(bits, pos, Encode(p, counted));
    ChainCons(bits, pos, p, tail, pos + |Encode(p, counted)|, end);
  }

  lemma ChainCons(bits: seq<Bit>, pos: nat, p: Packet, tail: seq<Packet>, next: nat, end: nat)
    requires pos <= |bits| && ParseAt(bits, pos) == Some((p, next))
    requires Chain(bits, next, tail, end)
    ensures Chain(bits, pos, [p] + tail, end)
  {
    assert ([p] + tail)[1..] == tail;
  }

  /** The round trip on its own: the encoding followed by anything parses
      back to the packet. */
  lemma ParseEncoded(p: Packet, counted: bool, rest: seq<Bit>)
    requires WellFormed(p, counted)
    ensures ParseAt(Encode(p, counted) + rest, 0) == Some((p, |Encode(p, counted)|))
  {
    var bits := Encode(p, counted) + rest;
    assert bits[0..|Encode(p, counted)|] == Encode(p, counted);
    AtSlice(bits, 0, Encode(p, counted));
    EncodeParse(p, counted, bits, 0);
  }
}
