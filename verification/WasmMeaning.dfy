/** What a module's data segments mean (sections 4.5.4, 5.5.14, 5.5.15 and 5.5.16 of the
    WebAssembly Core Specification 2.0), and the proof that stripping preserves it. */
module WasmMeaning {
  import opened Wrappers
  import opened Leb128
  import opened WasmData
  import opened WasmModule

  // ---------------------------------------------------------------------------
  // Order of sections and instantiation
  // ---------------------------------------------------------------------------

  /** The place of a section in the order of section 5.5.16; 0 for custom sections. */
  function Rank(id: byte): nat {
    if id == 10 then 11 else if id == DATA then 12 else if id == DATACOUNT then 10 else id
  }

  predicate StandardOrder(sections: seq<Section>) {
    && (forall j :: 0 <= j < |sections| ==> sections[j].id <= 12)
    && forall i, j :: 0 <= i < j < |sections| && sections[i].id != 0 && sections[j].id != 0
                      ==> Rank(sections[i].id) < Rank(sections[j].id)
  }

  function First(sections: seq<Section>, id: byte): (r: Option<Section>)
    ensures r.Some? ==> r.value.id == id
  {
    if sections == [] then None
    else if sections[0].id == id then Some(sections[0])
    else First(sections[1..], id)
  }

  /** The memory after instantiation and the data instances left for memory.init. */
  datatype Instance = Instance(memory: seq<byte>, datas: seq<seq<byte>>)

  /** memory.init of each active segment in order; outside the memory it traps. */
  function RunSegments(mem: seq<byte>, segments: seq<Segment>): Option<seq<byte>>
    decreases |segments|
  {
    if segments == [] then Some(mem)
    else
      match segments[0]
      case Passive(_, _) => RunSegments(mem, segments[1..])
      case Active(_, offset, data) =>
        if offset + |data| > |mem| then None
        else RunSegments(WriteAt(mem, offset, data), segments[1..])
  }

  /** data.drop leaves an active segment's instance empty. */
  function DataInstances(segments: seq<Segment>): seq<seq<byte>> {
    seq(|segments|, j requires 0 <= j < |segments| =>
      if segments[j].Active? then [] else segments[j].data)
  }

  function DataSegments(sections: seq<Section>): Option<seq<Segment>> {
    match First(sections, DATA)
    case None => Some([])
    case Some(sec) => ParseData(sec.body)
  }

  /** A data count section must announce the number of segments. */
  predicate DataCountAgrees(sections: seq<Section>, count: nat) {
    match First(sections, DATACOUNT)
    case None => true
    case Some(sec) => ReadU(sec.body).Some? && ReadU(sec.body).value.0 == count
  }

  function MinBytes(sections: seq<Section>): nat {
    match First(sections, MEMORY)
    case None => 0
    case Some(sec) => match MemoryPages(sec.body) { case None => 0 case Some(pages) => pages * PAGE }
  }

  /** Instantiation of the module over a memory that holds `mem`. */
  function Instantiate(sections: seq<Section>, mem: seq<byte>): Option<Instance> {
    match DataSegments(sections)
    case None => None
    case Some(segments) =>
      if |mem| != MinBytes(sections) || !DataCountAgrees(sections, |segments|) then None
      else
        match RunSegments(mem, segments)
        case None => None
        case Some(memory) => Some(Instance(memory, DataInstances(segments)))
  }

  function Zeros(n: nat): seq<byte> {
    seq(n, _ => 0)
  }

  /** Something in the module can refer to a data segment by its index: memory.init and
      data.drop need a data count section, and only passive segments are worth naming. */
  predicate IndicesMatter(sections: seq<Section>) {
    First(sections, DATACOUNT).Some?
    || (DataSegments(sections).Some? && HasPassive(DataSegments(sections).value))
  }

  // ---------------------------------------------------------------------------
  // Reading back what was emitted: segments
  // ---------------------------------------------------------------------------

  function Blank(seg: Segment): Segment {
    match seg
    case Active(expr, offset, _) => Active(expr, offset, [])
    case Passive(_, _) => seg
  }

  function Emptied(segments: seq<Segment>): (r: seq<Segment>)
    ensures |r| == |segments|
    ensures forall j :: 0 <= j < |r| ==> r[j] == Blank(segments[j])
  {
    if segments == [] then [] else [Blank(segments[0])] + Emptied(segments[1..])
  }

  /** A segment's kept bytes read back as the segment, emptied if it is active. */
  ghost predicate WellFormed(seg: Segment) {
    match seg
    case Active(expr, offset, _) => ParseActive(expr + [0]) == Some((Active(expr, offset, []), |expr| + 1))
    case Passive(raw, _) => ParseSegment(raw) == Some((seg, |raw|))
  }

  lemma ParseVecLocal(s: seq<byte>, t: seq<byte>)
    requires ParseVec(s).Some?
    ensures ParseVec(s + t) == ParseVec(s)
  {
    hide LebLen, ULebValue;
    ReadULocal(s, t);
    var (len, n) := ReadU(s).value;
    assert (s + t)[n..n + len] == s[n..n + len];
  }

  lemma ParseVecTake(s: seq<byte>)
    requires ParseVec(s).Some?
    ensures ParseVec(s[..ParseVec(s).value.1]) == ParseVec(s)
  {
    hide LebLen, ULebValue;
    var (len, n) := ReadU(s).value;
    ReadUTake(s);
    var t := s[..n + len];
    assert t == s[..n] + t[n..];
    ReadULocal(s[..n], t[n..]);
    assert t[n..n + len] == s[n..n + len];
  }

  lemma ParseActiveLocal(s: seq<byte>, t: seq<byte>)
    requires ParseActive(s).Some?
    ensures ParseActive(s + t) == ParseActive(s)
  {
    hide ReadS32, ParseVec;
    assert (s + t)[1..] == s[1..] + t;
    ReadS32Local(s[1..], t);
    var (_, k) := ReadS32(s[1..]).value;
    assert (s + t)[k + 2..] == s[k + 2..] + t;
    ParseVecLocal(s[k + 2..], t);
    assert (s + t)[..k + 2] == s[..k + 2];
  }

  lemma ParseSegmentLocal(s: seq<byte>, t: seq<byte>)
    requires ParseSegment(s).Some?
    ensures ParseSegment(s + t) == ParseSegment(s)
  {
    hide ReadU, ParseVec, ParseActive, EmitSegment;
    ReadULocal(s, t);
    var (flags, n) := ReadU(s).value;
    assert (s + t)[n..] == s[n..] + t;
    if flags == 1 {
      ParseVecLocal(s[n..], t);
      var (_, m) := ParseVec(s[n..]).value;
      assert (s + t)[..n + m] == s[..n + m];
    } else if flags == 0 {
      ParseActiveLocal(s[n..], t);
    } else {
      ReadULocal(s[n..], t);
      var (_, k) := ReadU(s[n..]).value;
      assert (s + t)[n + k..] == s[n + k..] + t;
      ParseActiveLocal(s[n + k..], t);
    }
  }

  /** The bytes a passive segment keeps are exactly those it was read from. */
  lemma PassiveWellFormed(s: seq<byte>)
    requires ParseSegment(s).Some? && ParseSegment(s).value.0.Passive?
    ensures WellFormed(ParseSegment(s).value.0)
  {
    hide LebLen, ULebValue, ParseVec, ParseActive, EmitSegment;
    var (flags, n) := ReadU(s).value;
    var (data, m) := ParseVec(s[n..]).value;
    var raw := s[..n + m];
    ReadUTake(s);
    assert raw == s[..n] + raw[n..];
    ReadULocal(s[..n], raw[n..]);
    ParseVecTake(s[n..]);
    assert raw[n..] == s[n..][..m];
    assert raw[..n + m] == raw;
  }

  lemma ActiveWellFormed(s: seq<byte>)
    requires ParseActive(s).Some?
    ensures WellFormed(ParseActive(s).value.0)
  {
    hide LebLen, SLebValue, ParseVec, ReadU;
    var (offset, k) := ReadS32(s[1..]).value;
    var expr := s[..k + 2];
    var e := expr + [0];
    ReadS32Take(s[1..]);
    assert e[1..] == s[1..][..k] + [0x0b, 0];
    ReadS32Local(s[1..][..k], [0x0b, 0]);
    assert e[k + 2..] == [0];
    assert ParseVec([0]) == Some(([], 1)) by { EmptyVec(); }
    assert e[..k + 2] == expr;
  }

  lemma EmptyVec()
    ensures ParseVec([0]) == Some(([], 1))
    ensures ReadU([0]) == Some((0, 1))
  {
    assert LebLen([0]) == Some(1);
    assert [0][..1] == [0];
    assert ULebValue([0]) == 0;
  }

  lemma ParsedWellFormed(s: seq<byte>)
    requires ParseSegment(s).Some?
    ensures WellFormed(ParseSegment(s).value.0)
  {
    hide ParseActive, ParseVec, EmitSegment, ReadU, WellFormed;
    var (flags, n) := ReadU(s).value;
    if flags == 1 {
      PassiveWellFormed(s);
    } else if flags == 0 {
      ActiveWellFormed(s[n..]);
    } else {
      var (_, k) := ReadU(s[n..]).value;
      ActiveWellFormed(s[n + k..]);
    }
  }

  lemma {:induction false} ParsedAllWellFormed(s: seq<byte>, count: nat)
    requires ParseSegments(s, count).Some?
    ensures forall j :: 0 <= j < count ==> WellFormed(ParseSegments(s, count).value.0[j])
    decreases count
  {
    hide ParseSegment, WellFormed;
    if count > 0 {
      ParsedWellFormed(s);
      var (seg, n) := ParseSegment(s).value;
      ParsedAllWellFormed(s[n..], count - 1);
    }
  }

  /** An emitted segment reads back as itself, emptied if it was active. */
  lemma EmittedSegmentReads(seg: Segment, rest: seq<byte>)
    requires WellFormed(seg)
    ensures ParseSegment(EmitSegment(seg) + rest)
         == Some((Blank(seg), |EmitSegment(seg)|))
  {
    match seg
    case Passive(raw, _) =>
      hide ParseSegment;
      ParseSegmentLocal(raw, rest);
    case Active(expr, offset, _) =>
      hide LebLen, ULebValue, ParseActive, ParseVec;
      var s := EmitSegment(seg) + rest;
      EmptyVec();
      assert s == [0] + (expr + [0] + rest);
      ReadULocal([0], expr + [0] + rest);
      assert s[1..] == (expr + [0]) + rest;
      ParseActiveLocal(expr + [0], rest);
  }

  lemma {:induction false} EmittedSegmentsRead(segments: seq<Segment>, rest: seq<byte>)
    requires forall j :: 0 <= j < |segments| ==> WellFormed(segments[j])
    ensures ParseSegments(EmitSegments(segments) + rest, |segments|)
         == Some((Emptied(segments), |EmitSegments(segments)|))
  {
    hide ParseSegment, EmitSegment, WellFormed;
    if segments != [] {
      var more := EmitSegments(segments[1..]) + rest;
      EmittedSegmentReads(segments[0], more);
      EmittedSegmentsRead(segments[1..], rest);
      var s := EmitSegments(segments) + rest;
      assert s == EmitSegment(segments[0]) + more;
      assert s[|EmitSegment(segments[0])|..] == more;
    }
  }

  /** A stripped data section reads back as the emptied segments, or as none. */
  lemma StrippedDataReads(body: seq<byte>, keep: bool)
    requires ParseData(body).Some?
    ensures var segments := ParseData(body).value;
            ParseData(EmitData(segments, keep))
            == Some(if keep || HasPassive(segments) then Emptied(segments) else [])
  {
    hide ReadU, ParseSegments, EmitSegments, HasPassive, ULebBytes;
    var segments := ParseData(body).value;
    if keep || HasPassive(segments) {
      var (count, n) := ReadU(body).value;
      ParsedAllWellFormed(body[n..], count);
      var e := EmitSegments(segments);
      ULebRoundTrip(|segments|, e);
      var out := ULebBytes(|segments|) + e;
      EmittedSegmentsRead(segments, []);
      assert e + [] == e && out[|ULebBytes(|segments|)|..] == e;
    } else {
      EmptyVec();
      assert ParseSegments([0][1..], 0) == Some(([], 0)) by { NoSegments([0][1..]); }
    }
  }

  lemma NoSegments(s: seq<byte>)
    ensures ParseSegments(s, 0) == Some(([], 0))
  {
  }

  /** Emptying changes nothing that emitting looks at. */
  lemma {:induction false} EmptiedEmitsSame(segments: seq<Segment>)
    ensures EmitSegments(Emptied(segments)) == EmitSegments(segments)
    ensures HasPassive(Emptied(segments)) <==> HasPassive(segments)
    ensures Puts(Emptied(segments)) == []
  {
    if segments != [] {
      EmptiedEmitsSame(segments[1..]);
      assert Emptied(segments)[1..] == Emptied(segments[1..]);
    }
    assert forall j :: 0 <= j < |segments| ==> (Emptied(segments)[j].Passive? <==> segments[j].Passive?);
  }

  // ---------------------------------------------------------------------------
  // Reading back what was emitted: sections
  // ---------------------------------------------------------------------------

  lemma SectionReads(sec: Section, rest: seq<byte>)
    requires |sec.body| < TWO64
    ensures ParseVec((EmitSection(sec) + rest)[1..]) == Some((sec.body, |EmitSection(sec)| - 1))
  {
    hide ReadU, ULebBytes;
    var e := ULebBytes(|sec.body|);
    var s := (EmitSection(sec) + rest)[1..];
    assert s == e + (sec.body + rest);
    ULebRoundTrip(|sec.body|, sec.body + rest);
    assert s[|e|..|e| + |sec.body|] == sec.body;
  }

  /** An emitted list of sections parses back to that list: same ids, same bodies. */
  lemma {:induction false} SectionsRead(sections: seq<Section>)
    requires forall j :: 0 <= j < |sections| ==> |sections[j].body| < TWO64
    ensures ParseSections(EmitSections(sections)) == Some(sections)
  {
    hide ParseVec, EmitSection;
    if sections != [] {
      var rest := EmitSections(sections[1..]);
      SectionReads(sections[0], rest);
      SectionsRead(sections[1..]);
      var s := EmitSections(sections);
      assert |EmitSection(sections[0])| >= 1 && s[0] == sections[0].id by { SectionStarts(sections[0]); }
      assert s[1 + (|EmitSection(sections[0])| - 1)..] == rest;
      assert [sections[0]] + sections[1..] == sections;
    }
  }

  lemma SectionStarts(sec: Section)
    ensures |EmitSection(sec)| >= 1 && EmitSection(sec)[0] == sec.id
  {
  }

  lemma {:induction false} StrippedBodiesFit(s: seq<byte>, seen: Seen)
    requires |s| < TWO64 && ParseSections(s).Some?
    requires StripSections(ParseSections(s).value, seen).Some?
    ensures var out := StripSections(ParseSections(s).value, seen).value.0;
            forall j :: 0 <= j < |out| ==> |out[j].body| < TWO64
    decreases |s|
  {
    hide ParseVec, StripSection;
    if s != [] {
      var (body, n) := ParseVec(s[1..]).value;
      var sections := ParseSections(s).value;
      assert sections[0] == Section(s[0], body) && sections[1..] == ParseSections(s[1 + n..]).value;
      StrippedNotLonger(sections[0], seen);
      StrippedBodiesFit(s[1 + n..], StripSection(sections[0], seen).value.1);
    }
  }

  // ---------------------------------------------------------------------------
  // Stripping twice
  // ---------------------------------------------------------------------------

  lemma StripSectionTwice(sec: Section, seen: Seen)
    requires StripSection(sec, seen).Some?
    ensures var (out, next) := StripSection(sec, seen).value;
            StripSection(out, seen) == Some((out, next)) && SectionPuts(out) == []
    ensures StripSection(sec, seen).value.0.id == sec.id
    ensures sec.id != DATA ==> StripSection(sec, seen).value.0 == sec
  {
    hide ReadU, ParseData, EmitSegments, ULebBytes, MemoryPages;
    if sec.id == DATA {
      var segments := ParseData(sec.body).value;
      StrippedDataReads(sec.body, seen.dataCount);
      EmptiedEmitsSame(segments);
      var body := EmitData(segments, seen.dataCount);
      if seen.dataCount || HasPassive(segments) {
        assert ParseData(body) == Some(Emptied(segments));
        forall j | 0 <= j < |segments| ensures InBounds(Emptied(segments)[j], seen.minBytes) {
          assert InBounds(segments[j], seen.minBytes);
        }
      }
    }
  }

  lemma {:induction false} StripSectionsTwice(sections: seq<Section>, seen: Seen)
    requires StripSections(sections, seen).Some?
    ensures var (out, end) := StripSections(sections, seen).value;
            StripSections(out, seen) == Some((out, end)) && SectionsPuts(out) == []
    ensures var (out, _) := StripSections(sections, seen).value;
            forall j :: 0 <= j < |sections| ==>
              out[j].id == sections[j].id && (sections[j].id != DATA ==> out[j] == sections[j])
  {
    hide StripSection, SectionPuts;
    if sections != [] {
      StripSectionTwice(sections[0], seen);
      var (sec, seen1) := StripSection(sections[0], seen).value;
      StripSectionsTwice(sections[1..], seen1);
      var out := StripSections(sections, seen).value.0;
      assert out[1..] == StripSections(sections[1..], seen1).value.0;
      assert out[0] == sec;
      forall j | 0 <= j < |sections|
        ensures out[j].id == sections[j].id && (sections[j].id != DATA ==> out[j] == sections[j])
      {
        if j > 0 { assert out[j] == out[1..][j - 1] && sections[j] == sections[1..][j - 1]; }
      }
    }
  }

  /** The output parses to the same sections, ids and bodies alike, but for the bodies of
      data sections; it is never longer than the input; and stripping it again makes no put
      call and returns it unchanged. */
  lemma StripIsStable(wasm: seq<byte>)
    requires |wasm| < TWO64 && Strip(wasm).Some?
    ensures var st := Strip(wasm).value;
            && Strip(st.module_) == Some(Stripped(st.module_, st.minBytes, []))
            && IsWasm(st.module_) && st.module_[..8] == wasm[..8]
            && var before, after := ParseSections(wasm[8..]).value, ParseSections(st.module_[8..]);
            && after == Some(StripSections(before, NOTHING).value.0)
            && |after.value| == |before|
            && forall j :: 0 <= j < |before| ==>
                 after.value[j].id == before[j].id && (before[j].id != DATA ==> after.value[j] == before[j])
  {
    hide ParseSections, StripSections, EmitSections, SectionsPuts;
    var sections := ParseSections(wasm[8..]).value;
    var (out, end) := StripSections(sections, NOTHING).value;
    StripSectionsTwice(sections, NOTHING);
    StrippedBodiesFit(wasm[8..], NOTHING);
    SectionsRead(out);
    var m := wasm[..8] + EmitSections(out);
    assert m[8..] == EmitSections(out) && m[..8] == wasm[..8] && m[..4] == wasm[..4];
  }

  // ---------------------------------------------------------------------------
  // Stripping preserves the initial memory and the data instances
  // ---------------------------------------------------------------------------

  /** Emptied segments leave memory alone; the put calls are what the full ones do to it. */
  lemma {:induction false} PutsRunSegments(mem: seq<byte>, segments: seq<Segment>)
    requires forall j :: 0 <= j < |segments| ==> InBounds(segments[j], |mem|)
    ensures RunSegments(mem, segments) == Some(WriteAll(mem, Puts(segments)))
    ensures |WriteAll(mem, Puts(segments))| == |mem|
    decreases |segments|
  {
    if segments != [] {
      match segments[0]
      case Passive(_, _) =>
        assert InBounds(segments[0], |mem|);
        PutsRunSegments(mem, segments[1..]);
        assert RunSegments(mem, segments) == RunSegments(mem, segments[1..]);
        var rest := Puts(segments[1..]);
        assert Puts(segments) == rest;
        assert WriteAll(mem, Puts(segments)) == WriteAll(mem, rest);
        assert Puts(segments) == [] + Puts(segments[1..]);
      case Active(_, offset, data) =>
        assert InBounds(segments[0], |mem|);
        var next := WriteAt(mem, offset, data);
        PutsRunSegments(next, segments[1..]);
        assert RunSegments(mem, segments) == RunSegments(next, segments[1..]);
        if data == [] {
          assert next == mem;
          assert Puts(segments) == [] + Puts(segments[1..]) == Puts(segments[1..]);
        } else {
          var puts := Puts(segments);
          assert puts == [Put(offset, data)] + Puts(segments[1..]);
          assert puts[0] == Put(offset, data) && puts[1..] == Puts(segments[1..]);
          assert WriteAll(mem, puts) == WriteAll(next, puts[1..]);
        }
        assert RunSegments(mem, segments) == Some(WriteAll(mem, Puts(segments)));
    }
  }

  lemma {:induction false} EmptiedRunsNothing(mem: seq<byte>, segments: seq<Segment>)
    requires forall j :: 0 <= j < |segments| ==> InBounds(segments[j], |mem|)
    ensures RunSegments(mem, Emptied(segments)) == Some(mem)
  {
    forall j | 0 <= j < |segments| ensures InBounds(Emptied(segments)[j], |mem|) {
      assert InBounds(segments[j], |mem|);
    }
    PutsRunSegments(mem, Emptied(segments));
    EmptiedEmitsSame(segments);
  }

  lemma {:induction false} FirstConcat(a: seq<Section>, b: seq<Section>, id: byte)
    ensures First(a + b, id) == if First(a, id).Some? then First(a, id) else First(b, id)
  {
    if a == [] {
      assert a + b == b;
    } else {
      FirstConcat(a[1..], b, id);
      assert (a + b)[1..] == a[1..] + b;
    }
  }

  lemma {:induction false} FirstAbsent(a: seq<Section>, id: byte)
    ensures First(a, id).None? <==> forall j :: 0 <= j < |a| ==> a[j].id != id
    ensures First(a, id).Some? ==> exists j :: 0 <= j < |a| && a[j] == First(a, id).value
  {
    if a != [] {
      FirstAbsent(a[1..], id);
      if a[0].id != id && First(a, id).Some? {
        var j :| 0 <= j < |a[1..]| && a[1..][j] == First(a, id).value;
        assert a[j + 1] == First(a, id).value;
      }
      if a[0].id != id && First(a, id).None? {
        forall j | 0 <= j < |a| ensures a[j].id != id {
          if j > 0 { assert a[j] == a[1..][j - 1]; }
        }
      }
    }
  }

  /** Without a data section nothing changes, and the state is what the sections announce. */
  lemma {:induction false} SeenWithoutData(sections: seq<Section>, seen: Seen)
    requires First(sections, DATA).None?
    requires forall i, j :: 0 <= i < j < |sections| && sections[i].id == MEMORY ==> sections[j].id != MEMORY
    requires StripSections(sections, seen).Some?
    ensures var (out, end) := StripSections(sections, seen).value;
            && out == sections && SectionsPuts(sections) == []
            && end.dataCount == (seen.dataCount || First(sections, DATACOUNT).Some?)
            && end.minBytes == if First(sections, MEMORY).Some? then MinBytes(sections) else seen.minBytes
  {
    hide MemoryPages, ParseData, EmitData, Accepts;
    if sections != [] {
      var next := StripSection(sections[0], seen).value.1;
      SeenWithoutData(sections[1..], next);
      assert [sections[0]] + sections[1..] == sections;
      if sections[0].id == MEMORY {
        var rest := sections[1..];
        forall j | 0 <= j < |rest| ensures rest[j].id != MEMORY {
          assert rest[j] == sections[j + 1];
        }
        FirstAbsent(rest, MEMORY);
      }
    }
  }

  /** In the standard order a data section splits the module: memory and data count are
      before it, and nothing of the three comes after it. */
  lemma SplitAtData(sections: seq<Section>) returns (d: nat)
    requires StandardOrder(sections) && First(sections, DATA).Some?
    ensures d < |sections| && SplitAt(sections, d)
  {
    hide First, StandardOrder;
    FirstAbsent(sections, DATA);
    d :| 0 <= d < |sections| && sections[d] == First(sections, DATA).value;
    OrderAround(sections, d);
    FirstAbsent(sections[..d], DATA);
    FirstAbsent(sections[d + 1..], DATA);
    FirstAbsent(sections[d + 1..], MEMORY);
    FirstAbsent(sections[d + 1..], DATACOUNT);
  }

  lemma OrderAround(sections: seq<Section>, d: nat)
    requires StandardOrder(sections) && d < |sections| && sections[d].id == DATA
    ensures forall j :: 0 <= j < |sections| && j != d ==> sections[j].id != DATA
    ensures forall j :: d < j < |sections| ==> sections[j].id != MEMORY && sections[j].id != DATACOUNT
  {
    forall j | 0 <= j < |sections| && j != d
      ensures sections[j].id != DATA && (d < j ==> sections[j].id != MEMORY && sections[j].id != DATACOUNT)
    {
      if j < d {
        assert sections[j].id != 0 ==> Rank(sections[j].id) < Rank(sections[d].id);
      } else {
        assert sections[j].id != 0 ==> Rank(sections[d].id) < Rank(sections[j].id);
      }
    }
  }

  lemma OneMemory(sections: seq<Section>)
    requires StandardOrder(sections)
    ensures forall i, j :: 0 <= i < j < |sections| && sections[i].id == MEMORY ==> sections[j].id != MEMORY
  {
    forall i, j | 0 <= i < j < |sections| && sections[i].id == MEMORY ensures sections[j].id != MEMORY {
      assert sections[j].id != 0 ==> Rank(sections[i].id) < Rank(sections[j].id);
    }
  }

  /** A data section with its neighbours: nothing it depends on comes after it. */
  ghost predicate SplitAt(sections: seq<Section>, d: nat) {
    && d < |sections| && sections[d].id == DATA
    && First(sections[..d], DATA).None? && First(sections[d + 1..], DATA).None?
    && First(sections[d + 1..], MEMORY).None? && First(sections[d + 1..], DATACOUNT).None?
  }

  /** What stripping makes of a module with a data section, part by part. */
  lemma StripParts3(sections: seq<Section>, d: nat)
    requires StandardOrder(sections) && SplitAt(sections, d)
    requires StripSections(sections, NOTHING).Some?
    ensures var (out, end) := StripSections(sections, NOTHING).value;
            var seen := Seen(MinBytes(sections[..d]), First(sections[..d], DATACOUNT).Some?);
            && end == seen && StripSection(sections[d], seen).Some?
            && out == sections[..d] + ([StripSection(sections[d], seen).value.0] + sections[d + 1..])
            && SectionsPuts(sections) == SectionPuts(sections[d])
  {
    hide StripSection, SectionPuts, SectionsPuts, StandardOrder, First, StripSections;
    var pre, sec, post := sections[..d], sections[d], sections[d + 1..];
    assert sections == pre + ([sec] + post);
    OneMemory(sections);
    OneMemoryPart(sections, d);
    StripSectionsConcat(pre, [sec] + post, NOTHING);
    SeenWithoutData(pre, NOTHING);
    var seen := StripSections(pre, NOTHING).value.1;
    assert seen == Seen(MinBytes(pre), First(pre, DATACOUNT).Some?);
    StripSectionsConcat([sec], post, seen);
    StripOne(sec, seen);
    DataStep(sec, seen);
    SeenWithoutData(post, seen);
    SectionsPutsConcat(pre, [sec] + post);
    SectionsPutsConcat([sec], post);
    OneSectionPuts(sec);
  }

  lemma OneMemoryPart(sections: seq<Section>, d: nat)
    requires d < |sections|
    requires forall i, j :: 0 <= i < j < |sections| && sections[i].id == MEMORY ==> sections[j].id != MEMORY
    ensures var pre := sections[..d];
            forall i, j :: 0 <= i < j < |pre| && pre[i].id == MEMORY ==> pre[j].id != MEMORY
    ensures var post := sections[d + 1..];
            forall i, j :: 0 <= i < j < |post| && post[i].id == MEMORY ==> post[j].id != MEMORY
  {
  }

  lemma StripSplit(sections: seq<Section>, d: nat)
    requires StandardOrder(sections) && SplitAt(sections, d)
    requires StripSections(sections, NOTHING).Some?
    ensures var (out, end) := StripSections(sections, NOTHING).value;
            var keep := First(sections, DATACOUNT).Some?;
            var body := sections[d].body;
            && end.minBytes == MinBytes(sections) && Accepts(body, MinBytes(sections))
            && ParseData(body).Some? && SectionsPuts(sections) == Puts(ParseData(body).value)
            && First(sections, DATA) == Some(sections[d])
            && First(out, DATA) == Some(Section(DATA, EmitData(ParseData(body).value, keep)))
            && First(out, MEMORY) == First(sections, MEMORY)
            && First(out, DATACOUNT) == First(sections, DATACOUNT)
  {
    hide StripSection, MemoryPages, ParseData, EmitData, Accepts, SectionPuts, StripSections, SectionsPuts,
         First, StandardOrder;
    StripParts3(sections, d);
    var pre, sec, post := sections[..d], sections[d], sections[d + 1..];
    var seen := Seen(MinBytes(pre), First(pre, DATACOUNT).Some?);
    DataStep(sec, seen);
    var sec1 := StripSection(sec, seen).value.0;
    assert sections == pre + ([sec] + post);
    FirstAround(pre, sec, post, MEMORY);
    FirstAround(pre, sec, post, DATA);
    FirstAround(pre, sec, post, DATACOUNT);
    FirstAround(pre, sec1, post, MEMORY);
    FirstAround(pre, sec1, post, DATA);
    FirstAround(pre, sec1, post, DATACOUNT);
  }

  lemma FirstAround(pre: seq<Section>, sec: Section, post: seq<Section>, id: byte)
    ensures First(pre + ([sec] + post), id) ==
            if First(pre, id).Some? then First(pre, id)
            else if sec.id == id then Some(sec) else First(post, id)
  {
    FirstConcat(pre, [sec] + post, id);
    assert ([sec] + post)[1..] == post;
  }

  lemma DataStep(sec: Section, seen: Seen)
    requires sec.id == DATA && StripSection(sec, seen).Some?
    ensures Accepts(sec.body, seen.minBytes) && ParseData(sec.body).Some?
    ensures StripSection(sec, seen).value
         == (Section(DATA, EmitData(ParseData(sec.body).value, seen.dataCount)), seen)
    ensures SectionPuts(sec) == Puts(ParseData(sec.body).value)
  {
  }

  lemma OneSectionPuts(sec: Section)
    ensures SectionsPuts([sec]) == SectionPuts(sec)
  {
    hide SectionPuts;
    assert [sec][1..] == [];
    assert SectionPuts(sec) + [] == SectionPuts(sec);
  }

  lemma {:induction false} SectionsPutsConcat(a: seq<Section>, b: seq<Section>)
    ensures SectionsPuts(a + b) == SectionsPuts(a) + SectionsPuts(b)
  {
    hide SectionPuts;
    if a == [] {
      assert a + b == b;
    } else {
      SectionsPutsConcat(a[1..], b);
      assert (a + b)[1..] == a[1..] + b && (a + b)[0] == a[0];
      assert SectionsPuts(a + b) == SectionPuts(a[0]) + SectionsPuts(a[1..] + b);
      assert SectionsPuts(a) == SectionPuts(a[0]) + SectionsPuts(a[1..]);
      hide SectionsPuts;
    }
  }

  /** The two instantiations give the same failure, or the same memory and, where an index
      can matter, the same data instances. */
  ghost predicate SameInstance(before: seq<Section>, after: seq<Section>, minBytes: nat, puts: seq<Put>) {
    var zeros := Zeros(minBytes);
    match Instantiate(before, zeros)
    case None => Instantiate(after, WriteAll(zeros, puts)).None?
    case Some(original) =>
      var stripped := Instantiate(after, WriteAll(zeros, puts));
      && stripped.Some? && stripped.value.memory == original.memory
      && stripped.value.datas == if IndicesMatter(before) then original.datas else []
  }

  lemma NoDataSameInstance(before: seq<Section>)
    requires StandardOrder(before) && StripSections(before, NOTHING).Some?
    requires First(before, DATA).None?
    ensures var (out, end) := StripSections(before, NOTHING).value;
            SameInstance(before, out, end.minBytes, SectionsPuts(before))
  {
    hide StripSections, SectionsPuts, First, ReadU, StandardOrder, MemoryPages;
    OneMemory(before);
    SeenWithoutData(before, NOTHING);
    BlankInstances([]);
  }

  lemma DataSameInstance(before: seq<Section>)
    requires StandardOrder(before) && StripSections(before, NOTHING).Some?
    requires First(before, DATA).Some?
    ensures var (out, end) := StripSections(before, NOTHING).value;
            SameInstance(before, out, end.minBytes, SectionsPuts(before))
  {
    hide StripSections, SectionsPuts, First, ReadU, StandardOrder, MemoryPages, ParseData, EmitData, Accepts,
         RunSegments, WriteAll, HasPassive, SplitAt, DataInstances, Puts, Zeros;
    var d := SplitAtData(before);
    StripSplit(before, d);
    var (after, end) := StripSections(before, NOTHING).value;
    var body, keep := before[d].body, First(before, DATACOUNT).Some?;
    var segments, zeros := ParseData(body).value, Zeros(end.minBytes);
    AcceptedData(body, end.minBytes);
    StrippedDataReads(body, keep);
    assert |zeros| == end.minBytes by { ZerosLength(end.minBytes); }
    PutsRunSegments(zeros, segments);
    var written := WriteAll(zeros, Puts(segments));
    EmptiedRunsNothing(written, segments);
    RunNothing(written);
    BlankInstances(segments);
    var kept := if keep || HasPassive(segments) then Emptied(segments) else [];
    assert DataSegments(before) == Some(segments) && DataSegments(after) == Some(kept);
    assert MinBytes(after) == MinBytes(before) == end.minBytes;
    assert RunSegments(written, kept) == Some(written);
    assert keep ==> DataCountAgrees(after, |kept|) == DataCountAgrees(before, |segments|);
  }

  /** For every accepted module with sections in the standard order: writing the put calls in
      order to zeroed memory and instantiating the stripped module over it gives what
      instantiating the original over zeroed memory gives: the same failure, or the same
      memory; and, whenever an index can matter, the same number of data instances with the
      same contents. Segments are dropped only when no index can matter. */
  lemma StripPreservesInstance(wasm: seq<byte>)
    requires |wasm| < TWO64 && Strip(wasm).Some?
    requires StandardOrder(ParseSections(wasm[8..]).value)
    ensures var st := Strip(wasm).value;
            ParseSections(st.module_[8..]).Some?
            && SameInstance(ParseSections(wasm[8..]).value, ParseSections(st.module_[8..]).value, st.minBytes, st.puts)
  {
    hide ParseSections, StripSections, Strip, SameInstance, First, StandardOrder, SectionsPuts;
    StripIsStable(wasm);
    StripParts(wasm);
    var before := ParseSections(wasm[8..]).value;
    if First(before, DATA).None? {
      NoDataSameInstance(before);
    } else {
      DataSameInstance(before);
    }
  }

  lemma ZerosLength(n: nat)
    ensures |Zeros(n)| == n
  {
  }

  lemma StripParts(wasm: seq<byte>)
    requires Strip(wasm).Some?
    ensures IsWasm(wasm) && ParseSections(wasm[8..]).Some?
    ensures StripSections(ParseSections(wasm[8..]).value, NOTHING).Some?
    ensures StripSections(ParseSections(wasm[8..]).value, NOTHING).value.1.minBytes == Strip(wasm).value.minBytes
    ensures SectionsPuts(ParseSections(wasm[8..]).value) == Strip(wasm).value.puts
  {
  }

  lemma AcceptedData(body: seq<byte>, minBytes: nat)
    requires Accepts(body, minBytes)
    ensures ParseData(body).Some?
    ensures forall j :: 0 <= j < |ParseData(body).value| ==> InBounds(ParseData(body).value[j], minBytes)
  {
  }

  lemma BlankInstances(segments: seq<Segment>)
    ensures DataInstances(Emptied(segments)) == DataInstances(segments)
    ensures DataInstances([]) == []
  {
  }

  lemma RunNothing(mem: seq<byte>)
    ensures RunSegments(mem, []) == Some(mem)
  {
  }
}
