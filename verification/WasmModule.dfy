/** The module as a list of sections (sections 5.5.2 and 5.5.16 of the WebAssembly Core
    Specification 2.0) and stripModule, which re-emits it with its data segments emptied. */
module WasmModule {
  import opened Wrappers
  import opened Leb128
  import opened WasmReading
  import opened WasmData

  datatype Section = Section(id: byte, body: seq<byte>)

  const MEMORY: byte := 5
  const DATA: byte := 11
  const DATACOUNT: byte := 12
  const PAGE: nat := 65536

  /** section_N: an id, a size and that many bytes; a module is a list of them. */
  function ParseSections(s: seq<byte>): (r: Option<seq<Section>>)
    decreases |s|
  {
    if s == [] then Some([])
    else
      match ParseVec(s[1..])
      case None => None
      case Some((body, n)) =>
        match ParseSections(s[1 + n..])
        case None => None
        case Some(rest) => Some([Section(s[0], body)] + rest)
  }

  function EmitSection(sec: Section): seq<byte> {
    [sec.id] + ULebBytes(|sec.body|) + sec.body
  }

  function EmitSections(sections: seq<Section>): seq<byte> {
    if sections == [] then [] else EmitSection(sections[0]) + EmitSections(sections[1..])
  }

  /** memsec with one memory and no flags but the one saying it has a maximum: its minimum. */
  function MemoryPages(body: seq<byte>): (pages: Option<nat>)
    ensures pages.Some? ==> pages.value <= 65536
  {
    match ReadU(body)
    case None => None
    case Some((count, n)) =>
      match ReadU(body[n..])
      case None => None
      case Some((flags, m)) =>
        match ReadU(body[n + m..])
        case None => None
        case Some((pages, _)) => if count == 1 && flags <= 1 && pages <= 65536 then Some(pages) else None
  }

  /** What stripModule has learnt from the sections so far. */
  datatype Seen = Seen(minBytes: nat, dataCount: bool)

  const NOTHING: Seen := Seen(0, false)

  function StripSection(sec: Section, seen: Seen): Option<(Section, Seen)> {
    if sec.id == MEMORY then
      match MemoryPages(sec.body)
      case Some(pages) => Some((sec, seen.(minBytes := pages * PAGE)))
      case None => None
    else if sec.id == DATACOUNT then Some((sec, seen.(dataCount := true)))
    else if sec.id == DATA then
      if seen.minBytes == 0 || !Accepts(sec.body, seen.minBytes) then None
      else Some((Section(DATA, EmitData(ParseData(sec.body).value, seen.dataCount)), seen))
    else Some((sec, seen))
  }

  function SectionPuts(sec: Section): seq<Put> {
    if sec.id == DATA && ParseData(sec.body).Some? then Puts(ParseData(sec.body).value) else []
  }

  function StripSections(sections: seq<Section>, seen: Seen): (r: Option<(seq<Section>, Seen)>)
    ensures r.Some? ==> |r.value.0| == |sections|
  {
    if sections == [] then Some(([], seen))
    else
      match StripSection(sections[0], seen)
      case None => None
      case Some((sec, seen1)) =>
        match StripSections(sections[1..], seen1)
        case None => None
        case Some((rest, end)) => Some(([sec] + rest, end))
  }

  function SectionsPuts(sections: seq<Section>): seq<Put> {
    if sections == [] then [] else SectionPuts(sections[0]) + SectionsPuts(sections[1..])
  }

  /** The stripped module, the size of its initial memory and the put calls. */
  datatype Stripped = Stripped(module_: seq<byte>, minBytes: nat, puts: seq<Put>)

  predicate IsWasm(wasm: seq<byte>) {
    |wasm| >= 8 && wasm[..4] == [0x00, 0x61, 0x73, 0x6d]
  }

  function Strip(wasm: seq<byte>): Option<Stripped> {
    if !IsWasm(wasm) then None
    else
      match ParseSections(wasm[8..])
      case None => None
      case Some(sections) =>
        match StripSections(sections, NOTHING)
        case None => None
        case Some((stripped, end)) =>
          if end.minBytes == 0 then None
          else Some(Stripped(wasm[..8] + EmitSections(stripped), end.minBytes, SectionsPuts(sections)))
  }

  // ---------------------------------------------------------------------------
  // The loop over the sections
  // ---------------------------------------------------------------------------

  /** After `done` sections the cursor is at `at`; the rest of the module is still to strip. */
  ghost predicate Reading(wasm: seq<byte>, done: seq<Section>, at: nat, out: seq<Section>, seen: Seen)
  {
    && IsWasm(wasm) && 8 <= at <= |wasm|
    && StripSections(done, NOTHING) == Some((out, seen))
    && ParseSections(wasm[8..]) ==
       match ParseSections(wasm[at..]) { case Some(rest) => Some(done + rest) case None => None }
  }

  lemma {:induction false} StripSectionsConcat(a: seq<Section>, b: seq<Section>, seen: Seen)
    ensures StripSections(a + b, seen) ==
            match StripSections(a, seen) {
              case None => None
              case Some((out, mid)) =>
                match StripSections(b, mid) { case None => None case Some((rest, end)) => Some((out + rest, end)) }
            }
  {
    hide StripSection;
    if a == [] {
      assert a + b == b;
      match StripSections(b, seen)
      case None =>
      case Some((rest, _)) => assert [] + rest == rest;
    } else {
      assert (a + b)[1..] == a[1..] + b;
      match StripSection(a[0], seen)
      case None =>
      case Some((sec, seen1)) =>
        StripSectionsConcat(a[1..], b, seen1);
        match StripSections(a[1..], seen1)
        case None =>
        case Some((out, mid)) =>
          match StripSections(b, mid)
          case None =>
          case Some((rest, _)) => assert [sec] + (out + rest) == ([sec] + out) + rest;
    }
  }

  lemma StripOne(sec: Section, seen: Seen)
    ensures StripSections([sec], seen) ==
            match StripSection(sec, seen) { case None => None case Some((out, next)) => Some(([out], next)) }
  {
    hide StripSection;
    match StripSection(sec, seen)
    case None =>
    case Some((out, next)) =>
      assert [sec][1..] == [] && StripSections([], next) == Some(([], next));
      assert [out] + [] == [out];
  }

  lemma {:induction false} SectionsPutsSnoc(sections: seq<Section>, sec: Section)
    ensures SectionsPuts(sections + [sec]) == SectionsPuts(sections) + SectionPuts(sec)
  {
    hide SectionPuts;
    if sections == [] {
      assert [] + [sec] == [sec] && [sec][1..] == [];
      assert SectionsPuts([sec]) == SectionPuts(sec) + [];
    } else {
      SectionsPutsSnoc(sections[1..], sec);
      assert (sections + [sec])[1..] == sections[1..] + [sec];
    }
  }

  lemma ReadingStarts(wasm: seq<byte>)
    requires IsWasm(wasm)
    ensures Reading(wasm, [], 8, [], NOTHING)
  {
    hide ParseVec;
    match ParseSections(wasm[8..])
    case None =>
    case Some(rest) => assert [] + rest == rest;
  }

  /** What refuses the rest of the module refuses the module. */
  lemma ReadingRefuses(wasm: seq<byte>, done: seq<Section>, at: nat, out: seq<Section>, seen: Seen)
    requires Reading(wasm, done, at, out, seen)
    requires match ParseSections(wasm[at..]) { case None => true case Some(rest) => StripSections(rest, seen).None? }
    ensures Strip(wasm).None?
  {
    hide ParseSections, StripSections;
    match ParseSections(wasm[at..])
    case None =>
    case Some(rest) => StripSectionsConcat(done, rest, NOTHING);
  }

  /** A section that does not read, or that is refused, refuses the module. */
  lemma ReadingContinues(wasm: seq<byte>, done: seq<Section>, at: nat, out: seq<Section>, seen: Seen)
    requires Reading(wasm, done, at, out, seen) && at < |wasm|
    ensures ParseVec(wasm[at + 1..]).None? ==> Strip(wasm).None?
    ensures ParseVec(wasm[at + 1..]).Some? ==>
              var (body, n) := ParseVec(wasm[at + 1..]).value;
              match StripSection(Section(wasm[at], body), seen)
              case None => Strip(wasm).None?
              case Some((sec, next)) =>
                Reading(wasm, done + [Section(wasm[at], body)], at + 1 + n, out + [sec], next)
  {
    hide ParseVec, StripSection, EmitSections, StripSections, Strip;
    var s := wasm[at..];
    assert s[1..] == wasm[at + 1..] && s[0] == wasm[at];
    match ParseVec(s[1..])
    case None => ReadingRefuses(wasm, done, at, out, seen);
    case Some((body, n)) =>
      assert s[1 + n..] == wasm[at + 1 + n..];
      var raw := Section(wasm[at], body);
      match StripSection(raw, seen) {
        case None =>
          RefusedFirst(raw, s, n, seen);
          ReadingRefuses(wasm, done, at, out, seen);
        case Some((sec, next)) =>
          StripOne(raw, seen);
          StripSectionsConcat(done, [raw], NOTHING);
          match ParseSections(s[1 + n..]) {
            case None =>
            case Some(rest) => assert done + ([raw] + rest) == (done + [raw]) + rest;
          }
      }
  }

  lemma RefusedFirst(raw: Section, s: seq<byte>, n: nat, seen: Seen)
    requires s != [] && raw.id == s[0] && ParseVec(s[1..]) == Some((raw.body, n))
    requires StripSection(raw, seen).None?
    ensures match ParseSections(s) { case None => true case Some(rest) => StripSections(rest, seen).None? }
  {
    hide ParseVec, StripSection;
  }

  lemma ReadingEnds(wasm: seq<byte>, done: seq<Section>, out: seq<Section>, seen: Seen)
    requires Reading(wasm, done, |wasm|, out, seen)
    ensures Strip(wasm) == if seen.minBytes == 0 then None
                           else Some(Stripped(wasm[..8] + EmitSections(out), seen.minBytes, SectionsPuts(done)))
  {
    hide ParseVec, StripSection, EmitSections, StripSections;
    assert ParseSections(wasm[|wasm|..]) == Some([]);
    assert done + [] == done;
  }

  /** The memory section's reader: accepts what MemoryPages accepts. */
  method ReadMemory(body: seq<byte>) returns (r: Result<nat, WasmError>)
    ensures r.Ok? ==> MemoryPages(body) == Some(r.value)
    ensures r.Err? ==> MemoryPages(body).None?
  {
    hide ReadU;
    var mr := new WasmReader(body, 0);
    assert body[0..] == body;
    var n := mr.ULeb();
    if n != 1 {
      return Err(MemoryCount);
    }
    var flags := mr.ULeb();
    if flags > 1 {
      return Err(MemoryFlags);
    }
    var pages := mr.ULeb();
    if mr.err.Some? {
      return Err(mr.err.value);
    }
    if pages > 65536 {
      return Err(MemoryTooLarge);
    }
    return Ok(pages);
  }

  /** The section at the cursor. */
  method ReadSection(rd: WasmReader) returns (r: Result<Section, WasmError>)
    requires rd.Valid() && rd.err.None? && rd.i < |rd.b|
    modifies rd
    ensures rd.Valid()
    ensures r.Ok? ==> rd.err.None? && old(rd.i) + 1 < rd.i && r.value.id == rd.b[old(rd.i)] && |r.value.body| < TWO64
    ensures r.Ok? ==> ParseVec(rd.b[old(rd.i) + 1..]) == Some((r.value.body, rd.i - old(rd.i) - 1))
    ensures r.Err? ==> ParseVec(rd.b[old(rd.i) + 1..]).None?
  {
    hide ReadU;
    var id := rd.Byte();
    ghost var s := rd.Rest();
    assert s[0..] == s;
    var body := ReadVec(rd, s, 0);
    if rd.err.Some? {
      return Err(rd.err.value);
    }
    return Ok(Section(id, body));
  }

  /** One turn of the loop's switch. */
  method StripOneSection(sec: Section, seen: Seen, image: ImageFile)
    returns (r: Result<(Section, Seen), WasmError>)
    requires image.Valid()
    modifies image
    ensures r.Ok? ==> image.Valid()
    ensures r.Ok? ==> StripSection(sec, seen) == Some(r.value)
    ensures r.Ok? ==> image.puts == old(image.puts) + SectionPuts(sec)
    ensures r.Err? ==> StripSection(sec, seen).None? || image.Full()
  {
    hide EmitData, ParseData, Accepts, MemoryPages, WriteAll, EndOf;
    if sec.id == MEMORY {
      var pages := ReadMemory(sec.body);
      if pages.Err? {
        return Err(pages.error);
      }
      return Ok((sec, seen.(minBytes := pages.value * PAGE)));
    } else if sec.id == DATACOUNT {
      return Ok((sec, seen.(dataCount := true)));
    } else if sec.id == DATA {
      if seen.minBytes == 0 {
        return Err(NoMemory);
      }
      var stripped := StripData(sec.body, seen.minBytes, seen.dataCount, image);
      assert Accepts(sec.body, seen.minBytes) ==> ParseData(sec.body).Some? by {
        AcceptedParses(sec.body, seen.minBytes);
      }
      if stripped.Err? {
        return Err(stripped.error);
      }
      return Ok((Section(DATA, stripped.value), seen));
    }
    return Ok((sec, seen));
  }

  lemma AcceptedParses(body: seq<byte>, minBytes: nat)
    ensures Accepts(body, minBytes) ==> ParseData(body).Some?
  {
  }

  /** Emits the sections; the size it reserves beforehand is the size it fills. */
  method EncodeModule(header: seq<byte>, sections: seq<Section>) returns (out: seq<byte>, size: nat)
    requires forall j :: 0 <= j < |sections| ==> |sections[j].body| < TWO64
    ensures out == header + EmitSections(sections)
    ensures size == |out|
  {
    hide ULebBytes;
    size := |header|;
    for j := 0 to |sections|
      invariant size + |EmitSections(sections[j..])| == |header| + |EmitSections(sections)|
    {
      assert sections[j..][0] == sections[j] && sections[j..][1..] == sections[j + 1..];
      var lenlen := ULebLen(|sections[j].body|);
      size := size + 1 + lenlen + |sections[j].body|;
    }
    assert EmitSections(sections[|sections|..]) == [];
    out := header;
    for j := 0 to |sections|
      invariant out + EmitSections(sections[j..]) == header + EmitSections(sections)
    {
      assert sections[j..][0] == sections[j] && sections[j..][1..] == sections[j + 1..];
      ghost var before := out;
      out := out + [sections[j].id];
      out := AppendULEB(out, |sections[j].body|);
      out := out + sections[j].body;
      assert out == before + EmitSection(sections[j]);
      assert before + (EmitSection(sections[j]) + EmitSections(sections[j + 1..]))
          == out + EmitSections(sections[j + 1..]);
    }
    assert out + [] == out;
  }

  /** stripModule: succeeds exactly on the modules `Strip` accepts (unless the image cannot
      be written), with that result and those put calls in that order. */
  method StripModule(wasm: seq<byte>, image: ImageFile)
    returns (r: Result<(seq<byte>, nat), WasmError>)
    requires image.Valid() && |wasm| < TWO64
    modifies image
    ensures r.Ok? ==> image.Valid()
    ensures r.Ok? ==> Strip(wasm).Some?
    ensures r.Ok? ==> r.value == (Strip(wasm).value.module_, Strip(wasm).value.minBytes)
    ensures r.Ok? ==> image.puts == old(image.puts) + Strip(wasm).value.puts
    ensures r.Err? ==> Strip(wasm).None? || image.Full()
  {
    hide ParseVec, StripSection, Strip, SectionPuts, SectionsPuts, Reading, ReadU, WriteAll, EndOf, EmitSections;
    if |wasm| < 8 || wasm[..4] != [0x00, 0x61, 0x73, 0x6d] {
      assert Strip(wasm).None? by { NotWasmRefused(wasm); }
      return Err(NotWasm);
    }
    ghost var was := image.puts;
    ghost var done: seq<Section> := [];
    var sections: seq<Section> := [];
    var seen := NOTHING;
    var rd := new WasmReader(wasm, 8);
    ReadingStarts(wasm);
    assert was + SectionsPuts([]) == was by { NoSectionPuts(); }
    while rd.i < |wasm|
      invariant rd.Valid() && rd.b == wasm && fresh(rd) && rd.err.None?
      invariant image.Valid()
      invariant image.puts == was + SectionsPuts(done)
      invariant Reading(wasm, done, rd.i, sections, seen)
      invariant forall j :: 0 <= j < |sections| ==> |sections[j].body| < TWO64
      decreases |wasm| - rd.i
    {
      ghost var start := rd.i;
      ReadingContinues(wasm, done, start, sections, seen);
      var raw := ReadSection(rd);
      if raw.Err? {
        return Err(raw.error);
      }
      var sec := StripOneSection(raw.value, seen, image);
      if sec.Err? {
        return Err(sec.error);
      }
      SectionsPutsSnoc(done, raw.value);
      assert (was + SectionsPuts(done)) + SectionPuts(raw.value) == was + (SectionsPuts(done) + SectionPuts(raw.value));
      StrippedNotLonger(raw.value, seen);
      done := done + [raw.value];
      sections, seen := sections + [sec.value.0], sec.value.1;
    }
    ReadingEnds(wasm, done, sections, seen);
    if seen.minBytes == 0 {
      return Err(NoMemory);
    }
    var out, size := EncodeModule(wasm[..8], sections);
    return Ok((out, seen.minBytes));
  }

  lemma NotWasmRefused(wasm: seq<byte>)
    ensures !IsWasm(wasm) ==> Strip(wasm).None?
  {
  }

  lemma NoSectionPuts()
    ensures SectionsPuts([]) == []
  {
  }

  // ---------------------------------------------------------------------------
  // Sizes
  // ---------------------------------------------------------------------------

  lemma {:induction false} SegmentsNotLonger(s: seq<byte>, count: nat)
    requires ParseSegments(s, count).Some?
    ensures |EmitSegments(ParseSegments(s, count).value.0)| <= ParseSegments(s, count).value.1
    decreases count
  {
    hide ParseSegment, EmitSegment;
    if count > 0 {
      var (seg, n) := ParseSegment(s).value;
      SegmentsNotLonger(s[n..], count - 1);
      var (all, _) := ParseSegments(s, count).value;
      assert all[1..] == ParseSegments(s[n..], count - 1).value.0;
    }
  }

  /** A stripped section is never longer than the section it replaces. */
  lemma StrippedNotLonger(sec: Section, seen: Seen)
    requires StripSection(sec, seen).Some?
    ensures |StripSection(sec, seen).value.0.body| <= |sec.body|
  {
    hide ParseSegments, EmitSegments, ULebBytes, ReadU, HasPassive;
    if sec.id == DATA {
      var (count, n) := ReadU(sec.body).value;
      SegmentsNotLonger(sec.body[n..], count);
      ReencodeNotLonger(sec.body);
    }
  }
}
