/** Modules as a linker spells them, byte for byte: what the stripper reads in a data segment, and
    what the image shows of the segments of a whole module. */
module WasmEncoding {
  import opened Wrappers
  import opened Leb128
  import opened WasmData
  import opened WasmModule
  import opened WasmMeaning

  const OPCODE: seq<byte> := [0x41]

  const END: seq<byte> := [0x0b]

  const ZERO: seq<byte> := [0x00]

  const ONE: seq<byte> := [0x01]

  // ---------------------------------------------------------------------------
  // One segment
  // ---------------------------------------------------------------------------

  lemma Split(s: seq<byte>, a: seq<byte>, b: seq<byte>)
    requires s == a + b
    ensures |s| == |a| + |b| && s[..|a|] == a && s[|a|..] == b
  {
  }

  lemma DropDrop(s: seq<byte>, i: nat, j: nat)
    requires i + j <= |s|
    ensures s[i..][j..] == s[i + j..]
  {
  }

  lemma TakeMore(s: seq<byte>, i: nat, j: nat)
    requires i <= j <= |s|
    ensures s[..j] == s[..i] + s[i..][..j - i]
  {
  }

  /** An integer is read from its own bytes, whatever follows. */
  lemma IntReads(s: seq<byte>, e: seq<byte>, rest: seq<byte>, v: nat)
    requires s == e + rest && ReadU(e) == Some((v, |e|))
    ensures ReadU(s) == Some((v, |e|)) && s[|e|..] == rest
  {
    hide ReadU;
    ReadULocal(e, rest);
  }

  /** vec(byte): `len` spells the number of bytes. */
  lemma VecReads(s: seq<byte>, len: seq<byte>, t: seq<byte>, data: seq<byte>, rest: seq<byte>)
    requires s == len + t && t == data + rest && ReadU(len) == Some((|data|, |len|))
    ensures ParseVec(s) == Some((data, |len| + |data|))
  {
    IntReads(s, len, t, |data|);
    hide ReadU;
    Split(t, data, rest);
    assert s[|len|..|len| + |data|] == t[..|data|];
  }

  /** An immediate, however it is spelled in at most five bytes, is its signed value modulo 2^32. */
  lemma ImmediateIs(imm: seq<byte>)
    requires LebLen(imm) == Some(|imm|) && |imm| <= 5
    ensures ReadS32(imm) == Some((SLebValue(imm) % TWO32, |imm|))
  {
    assert imm[..|imm|] == imm;
  }

  /** i32.const, its immediate and end. */
  lemma ConstSlices(s: seq<byte>, t: seq<byte>, imm: seq<byte>, u: seq<byte>, rest: seq<byte>)
    requires s == OPCODE + t && t == imm + u && u == END + rest
    ensures |s| == 2 + |imm| + |rest| && s[0] == 0x41 && s[1 + |imm|] == 0x0b && s[1..] == t
    ensures s[|imm| + 2..] == rest && s[..|imm| + 2] == OPCODE + imm + END
  {
    var k := |imm|;
    Split(s, OPCODE, t);
    Split(t, imm, u);
    Split(u, END, rest);
    assert s[1 + k] == t[k] == u[0];
    DropDrop(s, 1, k);
    DropDrop(s, 1 + k, 1);
    assert s[..k + 2] == OPCODE + imm + END;
  }

  lemma ConstReads(s: seq<byte>, t: seq<byte>, imm: seq<byte>, u: seq<byte>, tail: seq<byte>, offset: nat,
                   data: seq<byte>, m: nat)
    requires s == OPCODE + t && t == imm + u && u == END + tail && ParseVec(tail) == Some((data, m))
    requires ReadS32(imm) == Some((offset, |imm|))
    ensures ParseActive(s) == Some((Active(OPCODE + imm + END, offset, data), |imm| + 2 + m))
  {
    hide ParseVec, ParseActive, ReadS32;
    ReadS32Local(imm, u);
    ConstSlices(s, t, imm, u, tail);
    ActiveIs(s, |imm|, offset, tail, data, m);
  }

  lemma ActiveIs(s: seq<byte>, k: nat, offset: nat, tail: seq<byte>, data: seq<byte>, m: nat)
    requires k + 2 <= |s| && s[0] == 0x41 && s[1 + k] == 0x0b && s[k + 2..] == tail
    requires ReadS32(s[1..]) == Some((offset, k)) && ParseVec(tail) == Some((data, m))
    ensures ParseActive(s) == Some((Active(s[..k + 2], offset, data), k + 2 + m))
  {
    hide ReadS32, ParseVec;
  }

  /** An active segment, however its integers are spelled: the flag is 0, or 2 with memory 0 named
      after it; then come i32.const, its immediate, end and the data. It is placed at the immediate
      and takes exactly its own bytes. */
  lemma ActiveReads(s: seq<byte>, flags: seq<byte>, memory: seq<byte>, body: seq<byte>, t: seq<byte>, imm: seq<byte>,
                    u: seq<byte>, tail: seq<byte>, len: seq<byte>, v: seq<byte>, offset: nat, data: seq<byte>,
                    rest: seq<byte>)
    requires s == flags + (memory + body)
    requires body == OPCODE + t && t == imm + u && u == END + tail && tail == len + v && v == data + rest
    requires if memory == [] then ReadU(flags) == Some((0, |flags|))
             else ReadU(flags) == Some((2, |flags|)) && ReadU(memory) == Some((0, |memory|))
    requires ReadS32(imm) == Some((offset, |imm|)) && ReadU(len) == Some((|data|, |len|))
    ensures ParseSegment(s)
            == Some((Active(OPCODE + imm + END, offset, data),
                     |flags| + |memory| + (|imm| + 2 + (|len| + |data|))))
  {
    hide ReadU, ParseVec, ParseActive, ReadS32;
    VecReads(tail, len, v, data, rest);
    ConstReads(body, t, imm, u, tail, offset, data, |len| + |data|);
    FlagsRead(s, flags, memory, body);
  }

  lemma FlagsRead(s: seq<byte>, flags: seq<byte>, memory: seq<byte>, body: seq<byte>)
    requires s == flags + (memory + body) && ParseActive(body).Some?
    requires if memory == [] then ReadU(flags) == Some((0, |flags|))
             else ReadU(flags) == Some((2, |flags|)) && ReadU(memory) == Some((0, |memory|))
    ensures var (seg, n) := ParseActive(body).value;
            ParseSegment(s) == Some((seg, |flags| + |memory| + n))
  {
    hide ReadU, ParseVec, ParseActive;
    if memory == [] {
      assert memory + body == body;
      IntReads(s, flags, body, 0);
    } else {
      IntReads(s, flags, memory + body, 2);
      IntReads(memory + body, memory, body, 0);
      DropDrop(s, |flags|, |memory|);
    }
  }

  lemma PassiveReads(s: seq<byte>, flags: seq<byte>, body: seq<byte>, len: seq<byte>, v: seq<byte>, data: seq<byte>,
                     rest: seq<byte>)
    requires s == flags + body && body == len + v && v == data + rest
    requires ReadU(flags) == Some((1, |flags|)) && ReadU(len) == Some((|data|, |len|))
    ensures ParseSegment(s) == Some((Passive(flags + len + data, data), |flags| + (|len| + |data|)))
  {
    hide ReadU, ParseVec, ParseActive;
    IntReads(s, flags, body, 1);
    VecReads(body, len, v, data, rest);
    RawBytes(s, flags, len, data, rest);
  }

  lemma RawBytes(s: seq<byte>, flags: seq<byte>, len: seq<byte>, data: seq<byte>, rest: seq<byte>)
    requires s == flags + (len + (data + rest))
    ensures s[..|flags| + (|len| + |data|)] == flags + len + data
  {
    assert s == (flags + len + data) + rest;
  }

  lemma OnlyVec(s: seq<byte>) returns (len: seq<byte>)
    requires ParseVec(s).Some?
    ensures var (data, n) := ParseVec(s).value;
            ReadU(len) == Some((|data|, |len|)) && n == |len| + |data| && s[..n] == len + data
  {
    hide LebLen, ULebValue;
    ReadUTake(s);
    len := s[..ReadU(s).value.1];
  }

  lemma OnlyPlaced(s: seq<byte>) returns (imm: seq<byte>, len: seq<byte>)
    requires ParseActive(s).Some?
    ensures var (seg, n) := ParseActive(s).value;
            && seg.expr == OPCODE + imm + END && ReadS32(imm) == Some((seg.offset, |imm|))
            && ReadU(len) == Some((|seg.data|, |len|))
            && s[..n] == OPCODE + imm + END + (len + seg.data)
  {
    var k := ReadS32(s[1..]).value.1;
    imm := s[1..][..k];
    ReadS32Take(s[1..]);
    hide ParseVec, ReadU, ReadS32;
    assert s[..k + 2] == OPCODE + imm + END;
    len := OnlyVec(s[k + 2..]);
    var (seg, n) := ParseActive(s).value;
    TakeMore(s, k + 2, n);
  }

  /** What a segment that reads as `seg` is spelled like. */
  ghost predicate SpelledAs(bytes: seq<byte>, seg: Segment, flags: seq<byte>, memory: seq<byte>, imm: seq<byte>,
                            len: seq<byte>)
  {
    && ReadU(len) == Some((|seg.data|, |len|))
    && match seg
       case Passive(raw, data) =>
         ReadU(flags) == Some((1, |flags|)) && bytes == raw == flags + (len + data)
       case Active(expr, offset, data) =>
         && (if memory == [] then ReadU(flags) == Some((0, |flags|))
             else ReadU(flags) == Some((2, |flags|)) && ReadU(memory) == Some((0, |memory|)))
         && ReadS32(imm) == Some((offset, |imm|)) && expr == OPCODE + imm + END
         && bytes == flags + (memory + (expr + (len + data)))
  }

  /** And nothing else is read as a segment: another flag, another memory, another instruction or
      an expression with more in it is refused. */
  lemma OnlyThese(s: seq<byte>)
    requires ParseSegment(s).Some?
    ensures exists flags, memory, imm, len ::
              SpelledAs(s[..ParseSegment(s).value.1], ParseSegment(s).value.0, flags, memory, imm, len)
  {
    hide ReadU, ReadS32, ParseActive, ParseVec, SpelledAs;
    var v := ReadU(s).value.0;
    assert v <= 2;
    hide ParseSegment;
    if v == 1 {
      OnlyPassive(s);
    } else if v == 0 {
      OnlyPlain(s);
    } else {
      OnlyIndexed(s);
    }
  }

  lemma OnlyPassive(s: seq<byte>)
    requires ParseSegment(s).Some? && ReadU(s).value.0 == 1
    ensures exists flags, memory, imm, len ::
              SpelledAs(s[..ParseSegment(s).value.1], ParseSegment(s).value.0, flags, memory, imm, len)
  {
    hide ReadU, ReadS32, ParseActive, ParseVec;
    var f := ReadU(s).value.1;
    var flags, rest := s[..f], s[f..];
    ReadUTake(s);
    var len := OnlyVec(rest);
    var (seg, n) := ParseSegment(s).value;
    hide ParseSegment;
    TakeMore(s, f, n);
    assert SpelledAs(s[..n], seg, flags, [], [], len);
  }

  lemma OnlyPlain(s: seq<byte>)
    requires ParseSegment(s).Some? && ReadU(s).value.0 == 0
    ensures exists flags, memory, imm, len ::
              SpelledAs(s[..ParseSegment(s).value.1], ParseSegment(s).value.0, flags, memory, imm, len)
  {
    hide ReadU, ReadS32, ParseActive, ParseVec;
    var f := ReadU(s).value.1;
    var flags, rest := s[..f], s[f..];
    ReadUTake(s);
    var imm, len := OnlyPlaced(rest);
    var (seg, n) := ParseSegment(s).value;
    hide ParseSegment;
    TakeMore(s, f, n);
    assert [] + rest[..n - f] == rest[..n - f];
    assert SpelledAs(s[..n], seg, flags, [], imm, len);
  }

  lemma OnlyIndexed(s: seq<byte>)
    requires ParseSegment(s).Some? && ReadU(s).value.0 == 2
    ensures exists flags, memory, imm, len ::
              SpelledAs(s[..ParseSegment(s).value.1], ParseSegment(s).value.0, flags, memory, imm, len)
  {
    hide ReadU, ReadS32, ParseActive, ParseVec;
    var f := ReadU(s).value.1;
    var flags, rest := s[..f], s[f..];
    ReadUTake(s);
    var m := ReadU(rest).value.1;
    var memory := rest[..m];
    ReadUTake(rest);
    DropDrop(s, f, m);
    var imm, len := OnlyPlaced(s[f + m..]);
    var (seg, n) := ParseSegment(s).value;
    hide ParseSegment;
    TakeMore(s, f, n);
    TakeMore(rest, m, n - f);
    assert |memory| >= 1;
    assert SpelledAs(s[..n], seg, flags, memory, imm, len);
  }

  // ---------------------------------------------------------------------------
  // Data and memory sections
  // ---------------------------------------------------------------------------

  function Concat(parts: seq<seq<byte>>): seq<byte> {
    if parts == [] then [] else parts[0] + Concat(parts[1..])
  }

  lemma {:induction false} SegmentsRead(parts: seq<seq<byte>>, segs: seq<Segment>, rest: seq<byte>)
    requires |parts| == |segs|
    requires forall j :: 0 <= j < |segs| ==> ParseSegment(parts[j]) == Some((segs[j], |parts[j]|))
    ensures ParseSegments(Concat(parts) + rest, |segs|) == Some((segs, |Concat(parts)|))
    decreases |parts|
  {
    hide ParseSegment;
    if parts != [] {
      var more := Concat(parts[1..]) + rest;
      assert Concat(parts) + rest == parts[0] + more && (parts[0] + more)[|parts[0]|..] == more;
      assert ParseSegment(parts[0]) == Some((segs[0], |parts[0]|));
      ParseSegmentLocal(parts[0], more);
      SegmentsRead(parts[1..], segs[1..], rest);
      assert [segs[0]] + segs[1..] == segs;
    }
  }

  /** A data section lists its segments in order, however its count is spelled. */
  lemma DataReads(count: seq<byte>, parts: seq<seq<byte>>, segs: seq<Segment>)
    requires |parts| == |segs| && ReadU(count) == Some((|segs|, |count|))
    requires forall j :: 0 <= j < |segs| ==> ParseSegment(parts[j]) == Some((segs[j], |parts[j]|))
    ensures ParseData(count + Concat(parts)) == Some(segs)
  {
    hide ReadU, ParseSegment, ParseSegments;
    var all := Concat(parts);
    ReadULocal(count, all);
    SegmentsRead(parts, segs, []);
    assert (count + all)[|count|..] == all && all + [] == all;
  }

  /** A memory section: one memory, perhaps with a maximum, and at most 65536 pages. */
  lemma MemoryReads(body: seq<byte>, count: seq<byte>, t: seq<byte>, flags: seq<byte>, u: seq<byte>, pages: seq<byte>,
                    rest: seq<byte>, c: nat, f: nat, n: nat)
    requires body == count + t && t == flags + u && u == pages + rest
    requires ReadU(count) == Some((c, |count|)) && ReadU(flags) == Some((f, |flags|))
    requires ReadU(pages) == Some((n, |pages|))
    ensures MemoryPages(body) == if c == 1 && f <= 1 && n <= 65536 then Some(n) else None
  {
    hide ReadU;
    IntReads(body, count, t, c);
    IntReads(t, flags, u, f);
    IntReads(u, pages, rest, n);
    DropDrop(body, |count|, |flags|);
  }

  // ---------------------------------------------------------------------------
  // A whole module
  // ---------------------------------------------------------------------------

  /** What a linker puts in a data section: bytes placed at an address, or left for memory.init. */
  datatype Item = Placed(offset: nat, data: seq<byte>) | Loose(data: seq<byte>)

  predicate Covers(item: Item, k: nat) {
    item.Placed? && item.offset <= k < item.offset + |item.data|
  }

  predicate Fits(item: Item, size: nat) {
    item.Placed? ==> item.offset + |item.data| <= size
  }

  /** The immediate is signed, the address it stands for is not. */
  function Immediate(offset: nat): int {
    if offset < 0x8000_0000 then offset else offset - 0x1_0000_0000
  }

  function Spell(item: Item): seq<byte> {
    match item
    case Placed(offset, data) =>
      ZERO + (OPCODE + (SLebBytes(Immediate(offset)) + (END + (ULebBytes(|data|) + data))))
    case Loose(data) => ONE + (ULebBytes(|data|) + data)
  }

  function SpellAll(items: seq<Item>): seq<byte> {
    if items == [] then [] else Spell(items[0]) + SpellAll(items[1..])
  }

  function SpellSections(sections: seq<Section>): seq<byte> {
    if sections == [] then []
    else [sections[0].id] + ULebBytes(|sections[0].body|) + sections[0].body + SpellSections(sections[1..])
  }

  /** What stripping leaves of an item. */
  function Hollow(item: Item): Item {
    match item
    case Placed(offset, _) => Placed(offset, [])
    case Loose(_) => item
  }

  /** The items by their segments. */
  function Meant(item: Item): Segment {
    match item
    case Placed(offset, data) => Active(OPCODE + SLebBytes(Immediate(offset)) + END, offset, data)
    case Loose(data) => Passive(Spell(item), data)
  }

  predicate Spellable(item: Item) {
    |item.data| < TWO64 && (item.Placed? ==> item.offset < TWO32)
  }

  lemma Canonical(n: nat)
    requires n < TWO64
    ensures ReadU(ULebBytes(n)) == Some((n, |ULebBytes(n)|))
    ensures ReadU(ZERO) == Some((0, 1)) && ReadU(ONE) == Some((1, 1)) && ULebBytes(0) == ZERO
  {
    ULebRoundTrip(n, []);
    ULebRoundTrip(0, []);
    ULebRoundTrip(1, []);
    assert ULebBytes(n) + [] == ULebBytes(n) && ULebBytes(0) + [] == ZERO && ULebBytes(1) + [] == ONE;
  }

  lemma ImmediateReads(offset: nat)
    requires offset < TWO32
    ensures ReadS32(SLebBytes(Immediate(offset))) == Some((offset, |SLebBytes(Immediate(offset))|))
  {
    var imm := SLebBytes(Immediate(offset));
    SLebRoundTrip(Immediate(offset), []);
    assert imm + [] == imm;
  }

  lemma SpelledReads(item: Item)
    requires Spellable(item)
    ensures ParseSegment(Spell(item)) == Some((Meant(item), |Spell(item)|))
  {
    hide ReadU, ReadS32, ParseSegment, ULebBytes, SLebBytes, Immediate;
    Canonical(|item.data|);
    assert item.data + [] == item.data;
    match item {
      case Placed(offset, data) =>
        ImmediateReads(offset);
        PlacedSpelled(Spell(item), SLebBytes(Immediate(offset)), ULebBytes(|data|), offset, data);
      case Loose(data) =>
        var len := ULebBytes(|data|);
        PassiveReads(Spell(item), ONE, len + data, len, data, data, []);
        assert ONE + len + data == Spell(item);
    }
  }

  lemma PlacedSpelled(s: seq<byte>, imm: seq<byte>, len: seq<byte>, offset: nat, data: seq<byte>)
    requires s == ZERO + (OPCODE + (imm + (END + (len + data))))
    requires ReadS32(imm) == Some((offset, |imm|)) && ReadU(len) == Some((|data|, |len|)) && ReadU(ZERO) == Some((0, 1))
    ensures ParseSegment(s) == Some((Active(OPCODE + imm + END, offset, data), |s|))
  {
    hide ReadU, ReadS32, ParseSegment;
    var u := END + (len + data);
    var body := OPCODE + (imm + u);
    assert [] + body == body && data + [] == data;
    ActiveReads(s, ZERO, [], body, imm + u, imm, u, len + data, len, data, offset, data, []);
  }

  lemma HollowEmits(item: Item)
    requires Spellable(item)
    ensures EmitSegment(Meant(item)) == Spell(Hollow(item))
  {
    hide ULebBytes, SLebBytes, Immediate;
    Canonical(0);
    if item.Placed? {
      var imm := SLebBytes(Immediate(item.offset));
      assert ZERO + [] == ZERO;
      assert imm + (END + ZERO) == (imm + END) + ZERO;
      assert OPCODE + ((imm + END) + ZERO) == (OPCODE + imm + END) + ZERO;
      assert ZERO + ((OPCODE + imm + END) + ZERO) == ZERO + (OPCODE + imm + END) + ZERO;
    }
  }

  function Parts(items: seq<Item>): (r: seq<seq<byte>>)
    ensures |r| == |items| && forall j :: 0 <= j < |r| ==> r[j] == Spell(items[j])
  {
    if items == [] then [] else [Spell(items[0])] + Parts(items[1..])
  }

  function MeantAll(items: seq<Item>): (r: seq<Segment>)
    ensures |r| == |items| && forall j :: 0 <= j < |r| ==> r[j] == Meant(items[j])
  {
    if items == [] then [] else [Meant(items[0])] + MeantAll(items[1..])
  }

  function HollowAll(items: seq<Item>): (r: seq<Item>)
    ensures |r| == |items| && forall j :: 0 <= j < |r| ==> r[j] == Hollow(items[j])
  {
    if items == [] then [] else [Hollow(items[0])] + HollowAll(items[1..])
  }

  lemma {:induction false} SpellAllIsConcat(items: seq<Item>)
    ensures SpellAll(items) == Concat(Parts(items))
  {
    hide Spell;
    if items != [] {
      SpellAllIsConcat(items[1..]);
      assert Parts(items)[1..] == Parts(items[1..]);
    }
  }

  lemma {:induction false} EmitsHollow(items: seq<Item>)
    requires forall j :: 0 <= j < |items| ==> Spellable(items[j])
    ensures EmitSegments(MeantAll(items)) == SpellAll(HollowAll(items))
  {
    hide Spell, Meant, Hollow, EmitSegment;
    if items != [] {
      EmitsHollow(items[1..]);
      HollowEmits(items[0]);
      assert MeantAll(items)[1..] == MeantAll(items[1..]) && HollowAll(items)[1..] == HollowAll(items[1..]);
    }
  }

  lemma SpelledDataReads(items: seq<Item>)
    requires |items| < TWO64 && forall j :: 0 <= j < |items| ==> Spellable(items[j])
    ensures ParseData(ULebBytes(|items|) + SpellAll(items)) == Some(MeantAll(items))
  {
    hide ParseData, Spell, Meant, ReadU, ULebBytes, ParseSegment, Spellable;
    Canonical(|items|);
    var parts, segs := Parts(items), MeantAll(items);
    forall j | 0 <= j < |items| ensures ParseSegment(parts[j]) == Some((segs[j], |parts[j]|)) {
      SpelledReads(items[j]);
    }
    SpellAllIsConcat(items);
    hide Parts, MeantAll, SpellAll;
    DataReads(ULebBytes(|items|), parts, segs);
  }

  /** A data section as spelled, and what stripping makes of it. */
  lemma SpelledData(items: seq<Item>, size: nat, keep: bool)
    requires |items| < TWO64 && forall j :: 0 <= j < |items| ==> Spellable(items[j])
    ensures ParseData(ULebBytes(|items|) + SpellAll(items)) == Some(MeantAll(items))
    ensures Accepts(ULebBytes(|items|) + SpellAll(items), size)
            <==> forall j :: 0 <= j < |items| ==> Fits(items[j], size)
    ensures EmitData(MeantAll(items), keep)
            == if keep || exists j :: 0 <= j < |items| && items[j].Loose?
               then ULebBytes(|items|) + SpellAll(HollowAll(items)) else ZERO
  {
    hide ParseData, Spell, Meant, ULebBytes, SpellAll, EmitSegments, HasPassive, InBounds, Fits, MeantAll, HollowAll;
    SpelledDataReads(items);
    EmitsHollow(items);
    FitsIsInBounds(items, size);
    LooseIsPassive(items);
  }

  lemma FitsItem(item: Item, size: nat)
    ensures InBounds(Meant(item), size) <==> Fits(item, size)
    ensures Meant(item).Passive? <==> item.Loose?
  {
    hide SLebBytes, Spell;
  }

  lemma FitsIsInBounds(items: seq<Item>, size: nat)
    ensures (forall j :: 0 <= j < |items| ==> InBounds(MeantAll(items)[j], size))
            <==> forall j :: 0 <= j < |items| ==> Fits(items[j], size)
  {
    hide InBounds, Fits, Meant;
    var segs := MeantAll(items);
    forall j | 0 <= j < |items| ensures InBounds(segs[j], size) <==> Fits(items[j], size) {
      FitsItem(items[j], size);
    }
    hide MeantAll;
  }

  lemma LooseIsPassive(items: seq<Item>)
    ensures HasPassive(MeantAll(items)) <==> exists j :: 0 <= j < |items| && items[j].Loose?
  {
    hide Meant;
    var segs := MeantAll(items);
    forall j | 0 <= j < |items| ensures segs[j].Passive? <==> items[j].Loose? {
      FitsItem(items[j], 0);
    }
    hide MeantAll;
  }

  // ---------------------------------------------------------------------------
  // What the image shows
  // ---------------------------------------------------------------------------

  /** The byte of the last item that covers k, or zero. */
  function ByteAt(items: seq<Item>, k: nat): byte {
    if items == [] then 0
    else
      var last := items[|items| - 1];
      if Covers(last, k) then last.data[k - last.offset] else ByteAt(items[..|items| - 1], k)
  }

  lemma {:induction false} ByteAtLast(items: seq<Item>, k: nat, j: nat)
    requires j < |items| && Covers(items[j], k) && forall i :: j < i < |items| ==> !Covers(items[i], k)
    ensures ByteAt(items, k) == items[j].data[k - items[j].offset]
  {
    if j < |items| - 1 {
      ByteAtLast(items[..|items| - 1], k, j);
    }
  }

  lemma {:induction false} ByteAtNone(items: seq<Item>, k: nat)
    requires forall i :: 0 <= i < |items| ==> !Covers(items[i], k)
    ensures ByteAt(items, k) == 0
  {
    if items != [] {
      ByteAtNone(items[..|items| - 1], k);
    }
  }

  lemma MeantMore(items: seq<Item>, item: Item)
    ensures MeantAll(items + [item]) == MeantAll(items) + [Meant(item)]
  {
    hide Meant;
    var all := items + [item];
    forall j | 0 <= j < |all| ensures MeantAll(all)[j] == (MeantAll(items) + [Meant(item)])[j] {
    }
  }

  lemma PutsOfOne(item: Item)
    ensures Puts([Meant(item)]) == if item.Placed? && item.data != [] then [Put(item.offset, item.data)] else []
  {
    hide SLebBytes, Spell;
    assert [Meant(item)][1..] == [] && Puts([]) == [];
  }

  lemma {:induction false} ShowsBytes(items: seq<Item>, n: nat)
    requires forall j :: 0 <= j < |items| ==> Fits(items[j], n)
    ensures var image := WriteAll(Zeros(n), Puts(MeantAll(items)));
            |image| == n && forall k :: 0 <= k < n ==> image[k] == ByteAt(items, k)
  {
    hide Meant, Puts;
    if items == [] {
      assert Puts(MeantAll(items)) == [] by { PutsOfNone(); }
    } else {
      var init, last := items[..|items| - 1], items[|items| - 1];
      assert items == init + [last];
      ShowsBytes(init, n);
      MeantMore(init, last);
      PutsSnoc(MeantAll(init), Meant(last));
      PutsOfOne(last);
      assert Fits(last, n);
      var before := WriteAll(Zeros(n), Puts(MeantAll(init)));
      if last.Placed? && last.data != [] {
        WriteAllSnoc(Zeros(n), Puts(MeantAll(init)), Put(last.offset, last.data));
      } else {
        assert Puts(MeantAll(init)) + [] == Puts(MeantAll(init));
      }
    }
  }

  lemma LastItemShows(items: seq<Item>, n: nat, image: seq<byte>)
    requires |image| == n && forall k :: 0 <= k < n ==> image[k] == ByteAt(items, k)
    ensures forall k, j :: 0 <= k < n && 0 <= j < |items| && Covers(items[j], k)
                           && (forall i :: j < i < |items| ==> !Covers(items[i], k)) ==>
              image[k] == items[j].data[k - items[j].offset]
    ensures forall k :: 0 <= k < n && (forall i :: 0 <= i < |items| ==> !Covers(items[i], k)) ==> image[k] == 0
  {
    forall k, j | 0 <= k < n && 0 <= j < |items| && Covers(items[j], k)
                  && (forall i :: j < i < |items| ==> !Covers(items[i], k))
      ensures image[k] == items[j].data[k - items[j].offset]
    {
      ByteAtLast(items, k, j);
    }
    forall k | 0 <= k < n && (forall i :: 0 <= i < |items| ==> !Covers(items[i], k)) ensures image[k] == 0 {
      ByteAtNone(items, k);
    }
  }

  lemma PutsOfNone()
    ensures Puts([]) == []
  {
  }

  // ---------------------------------------------------------------------------
  // Stripping a spelled module
  // ---------------------------------------------------------------------------

  /** Sections that stripping copies. */
  predicate Others(sections: seq<Section>) {
    forall j :: 0 <= j < |sections| ==> sections[j].id != 5 && sections[j].id != 11 && |sections[j].body| < TWO64
  }

  /** A data count section lets the code name segments. */
  predicate Counts(sections: seq<Section>) {
    exists j :: 0 <= j < |sections| && sections[j].id == 12
  }

  lemma {:induction false} OthersStrip(a: seq<Section>, seen: Seen)
    requires Others(a)
    ensures StripSections(a, seen) == Some((a, seen.(dataCount := seen.dataCount || Counts(a))))
    ensures SectionsPuts(a) == []
  {
    if a != [] {
      var next := seen.(dataCount := seen.dataCount || a[0].id == 12);
      assert StripSection(a[0], seen) == Some((a[0], next)) && SectionPuts(a[0]) == [];
      OthersStrip(a[1..], next);
      hide StripSection, SectionPuts;
      assert [a[0]] + a[1..] == a;
      CountsFirst(a);
    }
  }

  lemma CountsFirst(a: seq<Section>)
    requires a != []
    ensures Counts(a) <==> a[0].id == 12 || Counts(a[1..])
  {
    assert forall j :: 1 <= j < |a| ==> a[j] == a[1..][j - 1];
    assert forall j :: 0 <= j < |a| - 1 ==> a[1..][j] == a[j + 1];
  }

  lemma {:induction false} SpellsAsEmitted(sections: seq<Section>)
    ensures SpellSections(sections) == EmitSections(sections)
  {
    hide ULebBytes;
    if sections != [] {
      SpellsAsEmitted(sections[1..]);
    }
  }

  /** The head of a spelled module: the sections up to and with the memory. */
  lemma HeadStrips(a: seq<Section>, mem: seq<byte>, pages: nat)
    requires Others(a) && MemoryPages(mem) == Some(pages)
    ensures StripSections(a + [Section(5, mem)], NOTHING)
            == Some((a + [Section(5, mem)], Seen(pages * 65536, Counts(a))))
    ensures SectionsPuts(a + [Section(5, mem)]) == []
  {
    hide MemoryPages, StripSections, SectionsPuts, Counts;
    var sec := Section(5, mem);
    OthersStrip(a, NOTHING);
    StripOne(sec, NOTHING.(dataCount := Counts(a)));
    StripSectionsConcat(a, [sec], NOTHING);
    OneSectionPuts(sec);
    SectionsPutsConcat(a, [sec]);
  }

  function DataBody(items: seq<Item>): seq<byte> {
    ULebBytes(|items|) + SpellAll(items)
  }

  /** What stripping makes of it. */
  function StrippedBody(items: seq<Item>, keep: bool): seq<byte> {
    if keep || exists j :: 0 <= j < |items| && items[j].Loose? then ULebBytes(|items|) + SpellAll(HollowAll(items))
    else ZERO
  }

  lemma DataStrips(items: seq<Item>, seen: Seen)
    requires |items| < TWO64 && forall j :: 0 <= j < |items| ==> Spellable(items[j])
    ensures var sec := Section(11, DataBody(items));
            && SectionPuts(sec) == Puts(MeantAll(items))
            && StripSection(sec, seen)
               == if seen.minBytes > 0 && forall j :: 0 <= j < |items| ==> Fits(items[j], seen.minBytes)
                  then Some((Section(11, StrippedBody(items, seen.dataCount)), seen)) else None
  {
    hide SpellAll, ULebBytes, ParseData, Accepts, EmitData, Puts, Fits, HollowAll, MeantAll, Spellable;
    SpelledData(items, seen.minBytes, seen.dataCount);
  }

  /** The rest: what lies between, the data, and what follows. */
  lemma TailStrips(b: seq<Section>, items: seq<Item>, c: seq<Section>, seen: Seen)
    requires Others(b) && Others(c) && |items| < TWO64 && forall j :: 0 <= j < |items| ==> Spellable(items[j])
    ensures var tail, keep := b + ([Section(11, DataBody(items))] + c), seen.dataCount || Counts(b);
            && SectionsPuts(tail) == Puts(MeantAll(items))
            && if seen.minBytes > 0 && forall j :: 0 <= j < |items| ==> Fits(items[j], seen.minBytes) then
                 StripSections(tail, seen)
                 == Some((b + ([Section(11, StrippedBody(items, keep))] + c), seen.(dataCount := keep || Counts(c))))
               else StripSections(tail, seen).None?
  {
    hide DataBody, StrippedBody, StripSection, StripSections, SectionPuts, SectionsPuts, Puts, Fits, MeantAll, Counts,
         Others, Spellable;
    var sec, mid := Section(11, DataBody(items)), seen.(dataCount := seen.dataCount || Counts(b));
    OthersStrip(b, seen);
    DataStrips(items, mid);
    OthersStrip(c, mid);
    StripOne(sec, mid);
    StripSectionsConcat([sec], c, mid);
    StripSectionsConcat(b, [sec] + c, seen);
    OneSectionPuts(sec);
    SectionsPutsConcat([sec], c);
    SectionsPutsConcat(b, [sec] + c);
    assert [] + (Puts(MeantAll(items)) + []) == Puts(MeantAll(items));
  }

  /** What does not begin like a module is refused. */
  lemma NotWasm(wasm: seq<byte>)
    requires |wasm| < 8 || wasm[..4] != [0x00, 0x61, 0x73, 0x6d]
    ensures Strip(wasm).None?
  {
  }

  /** A module without data comes back as it was, with its memory and without a put; one without
      memory is refused. */
  lemma NoDataStrips(header: seq<byte>, a: seq<Section>, mem: seq<byte>, pages: nat, b: seq<Section>)
    requires |header| == 8 && header[..4] == [0x00, 0x61, 0x73, 0x6d]
    requires Others(a) && Others(b) && |mem| < TWO64 && MemoryPages(mem) == Some(pages)
    ensures Strip(header + SpellSections(a)) == None
    ensures var wasm := header + SpellSections((a + [Section(5, mem)]) + b);
            Strip(wasm) == if pages > 0 then Some(Stripped(wasm, pages * 65536, [])) else None
  {
    hide MemoryPages, StripSections, SectionsPuts, SpellSections, EmitSections, ParseSections, Counts;
    var head := a + [Section(5, mem)];
    SpellsAsEmitted(a);
    SpellsAsEmitted(head + b);
    SectionsRead(a);
    SectionsRead(head + b);
    OthersStrip(a, NOTHING);
    HeadStrips(a, mem, pages);
    OthersStrip(b, Seen(pages * 65536, Counts(a)));
    StripSectionsConcat(head, b, NOTHING);
    SectionsPutsConcat(head, b);
    Starts(header, EmitSections(a));
    Starts(header, EmitSections(head + b));
  }

  lemma Starts(header: seq<byte>, rest: seq<byte>)
    requires |header| == 8 && header[..4] == [0x00, 0x61, 0x73, 0x6d]
    ensures IsWasm(header + rest) && (header + rest)[..8] == header && (header + rest)[8..] == rest
  {
    assert (header + rest)[..4] == header[..4];
  }

  /** A module of a memory section, a data section and any other sections between and around them,
      spelled byte for byte. It is accepted exactly when it has memory and every item fits. The
      image then shows, at each address, the byte of the last item placed over it, or zero; and
      the stripped module has the same sections, with the placed items emptied where something
      can name a segment, and without segments otherwise. */
  lemma SpelledModuleStrips(header: seq<byte>, a: seq<Section>, mem: seq<byte>, pages: nat, b: seq<Section>,
                            items: seq<Item>, c: seq<Section>, wasm: seq<byte>)
    requires |header| == 8 && header[..4] == [0x00, 0x61, 0x73, 0x6d]
    requires Others(a) && Others(b) && Others(c) && |mem| < TWO64 && MemoryPages(mem) == Some(pages)
    requires |items| < TWO64 && |DataBody(items)| < TWO64 && forall j :: 0 <= j < |items| ==> Spellable(items[j])
    requires wasm == header + SpellSections((a + [Section(5, mem)]) + (b + ([Section(11, DataBody(items))] + c)))
    ensures Strip(wasm).Some? <==> pages > 0 && forall j :: 0 <= j < |items| ==> Fits(items[j], pages * 65536)
    ensures Strip(wasm).Some? ==>
              var st, n := Strip(wasm).value, pages * 65536;
              var image, body := WriteAll(Zeros(n), st.puts), StrippedBody(items, Counts(a) || Counts(b));
              && st.minBytes == n && |image| == n
              && (forall k, j :: 0 <= k < n && 0 <= j < |items| && Covers(items[j], k)
                                 && (forall i :: j < i < |items| ==> !Covers(items[i], k)) ==>
                    image[k] == items[j].data[k - items[j].offset])
              && (forall k :: 0 <= k < n && (forall i :: 0 <= i < |items| ==> !Covers(items[i], k)) ==> image[k] == 0)
              && st.module_ == header + SpellSections((a + [Section(5, mem)]) + (b + ([Section(11, body)] + c)))
  {
    hide DataBody, StrippedBody, Puts, MeantAll, Fits, Spellable, MemoryPages, StripSections, SectionsPuts, WriteAll,
         SpellSections, EmitSections, ParseSections, Counts, Covers, ByteAt;
    var n := pages * 65536;
    var head, tail := a + [Section(5, mem)], b + ([Section(11, DataBody(items))] + c);
    var sections := head + tail;
    SpellsAsEmitted(sections);
    assert forall j :: 0 <= j < |sections| ==> |sections[j].body| < TWO64;
    SectionsRead(sections);
    assert wasm[8..] == EmitSections(sections) && wasm[..8] == header && wasm[..4] == header[..4];
    HeadStrips(a, mem, pages);
    TailStrips(b, items, c, Seen(n, Counts(a)));
    StripSectionsConcat(head, tail, NOTHING);
    SectionsPutsConcat(head, tail);
    assert [] + Puts(MeantAll(items)) == Puts(MeantAll(items));
    if Strip(wasm).Some? {
      SpellsAsEmitted(head + (b + ([Section(11, StrippedBody(items, Counts(a) || Counts(b)))] + c)));
      ShowsBytes(items, n);
      LastItemShows(items, n, WriteAll(Zeros(n), Strip(wasm).value.puts));
    }
  }
}
