/** The data section (section 5.5.14 of the WebAssembly Core Specification 2.0) and stripData:
    its active segments written to the memory image and emptied in the section. */
module WasmData {
  import opened Wrappers
  import opened Leb128
  import opened WasmReading

  /** An active segment keeps the bytes of its offset expression, a passive one all its bytes. */
  datatype Segment =
    | Active(expr: seq<byte>, offset: nat, data: seq<byte>)
    | Passive(raw: seq<byte>, data: seq<byte>)

  /** One call of the put callback. */
  datatype Put = Put(offset: nat, data: seq<byte>)

  // ---------------------------------------------------------------------------
  // Parsing, as the binary grammar gives it
  // ---------------------------------------------------------------------------

  /** vec(byte): a length and that many bytes. */
  function ParseVec(s: seq<byte>): (r: Option<(seq<byte>, nat)>)
    ensures r.Some? ==> 1 <= r.value.1 <= |s| && |r.value.0| < TWO64
  {
    match ReadU(s)
    case Some((len, n)) => if len <= |s| - n then Some((s[n..n + len], n + len)) else None
    case None => None
  }

  /** expr vec(byte), where the expression is a constant: i32.const, its immediate, end. */
  function ParseActive(s: seq<byte>): (r: Option<(Segment, nat)>)
    ensures r.Some? ==> r.value.0.Active? && 1 <= r.value.1 <= |s|
    ensures r.Some? ==> |r.value.0.expr| + 1 <= r.value.1
    ensures r.Some? ==> r.value.0.offset < TWO32
  {
    if s == [] || s[0] != 0x41 then None
    else
      match ReadS32(s[1..])
      case None => None
      case Some((offset, k)) =>
        if 1 + k >= |s| || s[1 + k] != 0x0b then None
        else
          match ParseVec(s[k + 2..])
          case None => None
          case Some((data, m)) => Some((Active(s[..k + 2], offset, data), k + 2 + m))
  }

  /** data ::= 0:u32 e:expr b*:vec(byte) | 1:u32 b*:vec(byte) | 2:u32 x:memidx e:expr b*:vec(byte),
      for the only memory. */
  function ParseSegment(s: seq<byte>): (r: Option<(Segment, nat)>)
    ensures r.Some? ==> 1 <= r.value.1 <= |s|
    ensures r.Some? ==> |EmitSegment(r.value.0)| <= r.value.1
  {
    match ReadU(s)
    case None => None
    case Some((flags, n)) =>
      if flags == 1 then
        match ParseVec(s[n..])
        case None => None
        case Some((data, m)) => Some((Passive(s[..n + m], data), n + m))
      else if flags == 0 then
        match ParseActive(s[n..])
        case None => None
        case Some((seg, m)) => Some((seg, n + m))
      else if flags == 2 then
        match ReadU(s[n..])
        case None => None
        case Some((memory, k)) =>
          if memory != 0 then None
          else
            match ParseActive(s[n + k..])
            case None => None
            case Some((seg, m)) => Some((seg, n + k + m))
      else None
  }

  /** The rest of the segments, read after `done` of them took `used` bytes. */
  function Continue(done: seq<Segment>, used: nat, rest: Option<(seq<Segment>, nat)>)
    : (r: Option<(seq<Segment>, nat)>)
    ensures r.Some? <==> rest.Some?
    ensures r.Some? ==> |r.value.0| == |done| + |rest.value.0| && r.value.1 == used + rest.value.1
  {
    match rest
    case None => None
    case Some((segments, n)) => Some((done + segments, used + n))
  }

  function ParseSegments(s: seq<byte>, count: nat): (r: Option<(seq<Segment>, nat)>)
    ensures r.Some? ==> |r.value.0| == count && r.value.1 <= |s|
    decreases count
  {
    hide ParseSegment, EmitSegment;
    if count == 0 then Some(([], 0))
    else
      match ParseSegment(s)
      case None => None
      case Some((seg, n)) => Continue([seg], n, ParseSegments(s[n..], count - 1))
  }

  /** datasec: a count, that many segments, and nothing after them. */
  function ParseData(body: seq<byte>): (r: Option<seq<Segment>>)
    ensures r.Some? ==> |r.value| < TWO64
  {
    match ReadU(body)
    case None => None
    case Some((count, n)) =>
      match ParseSegments(body[n..], count)
      case Some((segments, m)) => if n + m == |body| then Some(segments) else None
      case None => None
  }

  // ---------------------------------------------------------------------------
  // What stripping does
  // ---------------------------------------------------------------------------

  predicate InBounds(seg: Segment, minBytes: nat) {
    seg.Active? ==> seg.offset + |seg.data| <= minBytes
  }

  predicate Accepts(body: seq<byte>, minBytes: nat) {
    && ParseData(body).Some?
    && forall j :: 0 <= j < |ParseData(body).value| ==> InBounds(ParseData(body).value[j], minBytes)
  }

  predicate HasPassive(segments: seq<Segment>) {
    exists j :: 0 <= j < |segments| && segments[j].Passive?
  }

  /** The put calls for a list of segments: the active ones that are not empty, in order. */
  function Puts(segments: seq<Segment>): seq<Put> {
    if segments == [] then []
    else
      (if segments[0].Active? && segments[0].data != [] then [Put(segments[0].offset, segments[0].data)] else [])
      + Puts(segments[1..])
  }

  function EmitSegment(seg: Segment): seq<byte> {
    match seg
    case Active(expr, _, _) => [0] + expr + [0]
    case Passive(raw, _) => raw
  }

  function EmitSegments(segments: seq<Segment>): seq<byte> {
    if segments == [] then [] else EmitSegment(segments[0]) + EmitSegments(segments[1..])
  }

  /** The stripped section: every segment still there when something can refer to one by
      index, and none at all otherwise. */
  function EmitData(segments: seq<Segment>, keepIndices: bool): seq<byte> {
    if keepIndices || HasPassive(segments)
    then ULebBytes(|segments|) + EmitSegments(segments)
    else [0]
  }

  lemma PutsFirst(segments: seq<Segment>)
    requires segments != []
    ensures Puts(segments) == Puts([segments[0]]) + Puts(segments[1..])
  {
    assert [segments[0]][1..] == [] && Puts([]) == [];
  }

  lemma EmitFirst(segments: seq<Segment>)
    requires segments != []
    ensures EmitSegments(segments) == EmitSegment(segments[0]) + EmitSegments(segments[1..])
  {
  }

  lemma {:induction false} PutsSnoc(segments: seq<Segment>, seg: Segment)
    ensures Puts(segments + [seg]) == Puts(segments) + Puts([seg])
  {
    var all := segments + [seg];
    if segments == [] {
      assert all == [seg] && Puts([]) == [];
    } else {
      hide Puts;
      PutsSnoc(segments[1..], seg);
      PutsFirst(segments);
      PutsFirst(all);
      assert all[1..] == segments[1..] + [seg];
    }
  }

  lemma {:induction false} EmitSegmentsSnoc(segments: seq<Segment>, seg: Segment)
    ensures EmitSegments(segments + [seg]) == EmitSegments(segments) + EmitSegment(seg)
  {
    hide EmitSegment;
    var all := segments + [seg];
    if segments == [] {
      assert all == [seg] && [seg][1..] == [] && EmitSegments([]) == [];
    } else {
      EmitFirst(segments);
      EmitFirst(all);
      EmitSegmentsSnoc(segments[1..], seg);
      hide EmitSegments;
      assert all[1..] == segments[1..] + [seg];
    }
  }

  lemma ContinueOne(done: seq<Segment>, used: nat, s: seq<byte>, count: nat)
    requires count > 0
    ensures match ParseSegment(s)
            case None => ParseSegments(s, count).None?
            case Some((seg, n)) =>
              Continue(done, used, ParseSegments(s, count))
              == Continue(done + [seg], used + n, ParseSegments(s[n..], count - 1))
  {
    hide ParseSegment, EmitSegment;
    match ParseSegment(s)
    case None =>
    case Some((seg, n)) =>
      match ParseSegments(s[n..], count - 1)
      case None =>
      case Some((rest, m)) =>
        assert done + ([seg] + rest) == (done + [seg]) + rest;
  }

  // ---------------------------------------------------------------------------
  // The image the segments are written to
  // ---------------------------------------------------------------------------

  /** A file after writing data at offset: what lies between its end and offset reads as zeros. */
  function WriteAt(file: seq<byte>, offset: nat, data: seq<byte>): (r: seq<byte>)
    ensures |r| == if |file| >= offset + |data| then |file| else offset + |data|
  {
    seq(if |file| >= offset + |data| then |file| else offset + |data|,
      k requires 0 <= k => if offset <= k < offset + |data| then data[k - offset]
      else if k < |file| then file[k] else 0)
  }

  /** The memory image under construction (buildImage): the anonymous file and the end of
      the last segment. Writing to the file can fail. */
  class ImageFile {
    /** How many writes succeed before one fails; None if none does. */
    const limit: Option<nat>
    var file: seq<byte>
    var end: nat
    var written: nat
    ghost var puts: seq<Put>

    ghost predicate Valid()
      reads this
    {
      file == WriteAll([], puts) && end == EndOf(puts) && written == |puts|
    }

    /** The next write fails. */
    predicate Full()
      reads this
    {
      limit.Some? && written >= limit.value
    }

    constructor (writes: Option<nat>)
      ensures Valid() && puts == [] && limit == writes
    {
      limit, file, end, written, puts := writes, [], 0, 0, [];
    }

    method PutSegment(offset: nat, data: seq<byte>) returns (ok: bool)
      requires Valid()
      modifies this
      ensures ok == !old(Full())
      ensures ok ==> Valid() && puts == old(puts) + [Put(offset, data)]
      ensures !ok ==> Full() && puts == old(puts)
    {
      end := if end >= offset + |data| then end else offset + |data|;
      if Full() {
        return false;
      }
      file := WriteAt(file, offset, data);
      WriteAllSnoc([], puts, Put(offset, data));
      EndOfSnoc(puts, Put(offset, data));
      puts := puts + [Put(offset, data)];
      written := written + 1;
      ok := true;
    }
  }

  function WriteAll(file: seq<byte>, puts: seq<Put>): seq<byte>
    decreases |puts|
  {
    if puts == [] then file else WriteAll(WriteAt(file, puts[0].offset, puts[0].data), puts[1..])
  }

  function EndOf(puts: seq<Put>): nat {
    if puts == [] then 0
    else
      var e := puts[|puts| - 1].offset + |puts[|puts| - 1].data|;
      var before := EndOf(puts[..|puts| - 1]);
      if before >= e then before else e
  }

  lemma {:induction false} WriteAllSnoc(file: seq<byte>, puts: seq<Put>, p: Put)
    ensures WriteAll(file, puts + [p]) == WriteAt(WriteAll(file, puts), p.offset, p.data)
    decreases |puts|
  {
    if puts == [] {
      assert puts + [p] == [p];
      assert WriteAll(WriteAt(file, p.offset, p.data), [p][1..]) == WriteAt(file, p.offset, p.data);
    } else {
      WriteAllSnoc(WriteAt(file, puts[0].offset, puts[0].data), puts[1..], p);
      assert (puts + [p])[1..] == puts[1..] + [p];
    }
  }

  lemma EndOfSnoc(puts: seq<Put>, p: Put)
    ensures EndOf(puts + [p]) ==
            if EndOf(puts) >= p.offset + |p.data| then EndOf(puts) else p.offset + |p.data|
  {
    assert (puts + [p])[..|puts + [p]| - 1] == puts;
  }

  // ---------------------------------------------------------------------------
  // stripData
  // ---------------------------------------------------------------------------

  /** One turn of stripData's loop, up to the bounds check: the segment at the cursor. */
  method ReadSegment(rd: WasmReader) returns (r: Result<Segment, WasmError>)
    requires rd.Valid()
    modifies rd
    ensures rd.Valid()
    ensures r.Ok? ==> old(rd.err).None? && rd.err.None? && rd.i >= old(rd.i)
    ensures r.Ok? ==> ParseSegment(old(rd.Rest())) == Some((r.value, rd.i - old(rd.i)))
    ensures r.Err? ==> old(rd.err).Some? || ParseSegment(old(rd.Rest())).None?
  {
    hide LebLen, ULebValue, ParseVec, ParseActive, EmitSegment;
    var start := rd.i;
    ghost var s := rd.Rest();
    var flags := rd.ULeb();
    ghost var n := rd.i - start;
    if flags == 1 {
      var data := ReadVec(rd, s, n);
      if rd.err.Some? {
        return Err(rd.err.value);
      }
      assert rd.b[start..rd.i] == s[..rd.i - start];
      return Ok(Passive(rd.b[start..rd.i], data));
    }
    ghost var k := 0;
    if flags == 2 {
      assert rd.err.None? ==> rd.Rest() == s[n..];
      var memory := rd.ULeb();
      if memory != 0 {
        return Err(OtherMemory);
      }
      k := rd.i - start - n;
    } else if flags > 2 {
      return Err(SegmentFlags);
    }
    assert rd.err.None? ==> rd.Rest() == s[n + k..];
    r := ReadActive(rd);
  }

  method ReadVec(rd: WasmReader, ghost s: seq<byte>, ghost n: nat) returns (data: seq<byte>)
    requires rd.Valid() && (rd.err.None? ==> n <= |s| && rd.Rest() == s[n..])
    modifies rd
    ensures rd.Valid() && rd.i >= old(rd.i)
    ensures old(rd.err).None? && rd.err.None? ==> ParseVec(s[n..]) == Some((data, rd.i - old(rd.i)))
    ensures old(rd.err).None? && rd.err.Some? ==> ParseVec(s[n..]).None?
    ensures old(rd.err).Some? ==> rd.err.Some?
  {
    hide LebLen, ULebValue;
    ghost var t := rd.Rest();
    var len := rd.ULeb();
    ghost var m, u := rd.i - old(rd.i), rd.Rest();
    assert rd.err.None? ==> u == t[m..];
    data := rd.Bytes(len);
    if rd.err.None? {
      assert data == u[..len];
      assert t[m..][..len] == t[m..m + len];
    }
  }

  method ReadActive(rd: WasmReader) returns (r: Result<Segment, WasmError>)
    requires rd.Valid()
    modifies rd
    ensures rd.Valid()
    ensures r.Ok? ==> old(rd.err).None? && rd.err.None? && rd.i >= old(rd.i)
    ensures r.Ok? ==> ParseActive(old(rd.Rest())) == Some((r.value, rd.i - old(rd.i)))
    ensures r.Err? ==> old(rd.err).Some? || ParseActive(old(rd.Rest())).None?
  {
    hide LebLen, SLebValue, ParseVec;
    var exprStart := rd.i;
    ghost var s := rd.Rest();
    var op := rd.Byte();
    if op != 0x41 { // i32.const
      return Err(OffsetOpcode);
    }
    assert rd.Rest() == s[1..];
    var offset := rd.I32();
    ghost var k := rd.i - exprStart;
    var end := rd.Byte();
    if end != 0x0b {
      return Err(OffsetNotConstant);
    }
    var exprEnd := rd.i;
    assert rd.Rest() == s[k + 1..];
    var data := ReadVec(rd, s, k + 1);
    if rd.err.Some? {
      return Err(rd.err.value);
    }
    assert rd.b[exprStart..exprEnd] == s[..k + 1];
    return Ok(Active(rd.b[exprStart..exprEnd], offset, data));
  }

  /** The rest of a turn of stripData's loop: bounds check, put call and output. */
  method StripSegment(seg: Segment, minBytes: nat, before: seq<byte>, keepIndices: bool, image: ImageFile)
    returns (r: Result<(seq<byte>, bool), WasmError>)
    requires image.Valid()
    modifies image
    ensures r.Ok? ==> image.Valid()
    ensures r.Ok? ==> InBounds(seg, minBytes) && image.puts == old(image.puts) + Puts([seg])
    ensures r.Ok? ==> r.value == (before + EmitSegment(seg), keepIndices || seg.Passive?)
    ensures r == Err(OutsideMemory) ==> !InBounds(seg, minBytes)
    ensures r.Err? && r.error != OutsideMemory ==> image.Full()
  {
    hide WriteAll, EndOf;
    assert Puts([seg]) == if seg.Active? && seg.data != [] then [Put(seg.offset, seg.data)] else [] by {
      assert Puts([seg][1..]) == [];
    }
    match seg {
      case Passive(raw, _) => // still needed: memory.init may name it
        return Ok((before + raw, true));
      case Active(expr, offset, data) =>
        if offset + |data| > minBytes {
          return Err(OutsideMemory);
        }
        if |data| > 0 {
          var ok := image.PutSegment(offset, data);
          if !ok {
            return Err(WriteFailed);
          }
        }
        // What stays in the module is its place and an empty vector.
        var out := before + [0x00];
        out := out + expr;
        out := out + [0x00];
        assert out == before + EmitSegment(seg);
        return Ok((out, keepIndices));
    }
  }

  /** stripData accepts exactly the sections that parse with every active segment inside the
      initial memory; it writes those segments in order and returns the stripped section. */
  method StripData(body: seq<byte>, minBytes: nat, keep: bool, image: ImageFile)
    returns (r: Result<seq<byte>, WasmError>)
    requires image.Valid()
    modifies image
    ensures r.Ok? ==> image.Valid()
    ensures r.Ok? ==> Accepts(body, minBytes)
    ensures r.Ok? ==> r.value == EmitData(ParseData(body).value, keep)
    ensures r.Ok? ==> image.puts == old(image.puts) + Puts(ParseData(body).value)
    ensures r.Err? ==> !Accepts(body, minBytes) || image.Full()
  {
    hide ReadU, ParseSegment, ParseData, EmitData, Puts, ULebBytes, WriteAll, EndOf, InBounds, Accepts, Reading;
    ghost var was := image.puts;
    var rd := new WasmReader(body, 0);
    assert body[0..] == body;
    var n := rd.ULeb();
    var out := AppendULEB([], n);
    assert out == ULebBytes(n);
    var keepIndices := keep;
    ghost var done: seq<Segment> := [];
    if rd.err.None? { ReadingStarts(body, n, rd.i, keep, minBytes); }
    assert was + Puts([]) == was by { NoPuts(); }
    for k := 0 to n
      invariant rd.Valid() && rd.b == body && fresh(rd)
      invariant image.Valid() && image.puts == was + Puts(done)
      invariant rd.err.Some? ==> k == 0 && ReadU(body).None?
      invariant rd.err.None? ==> Reading(body, n, done, k, rd.i, out, keep, keepIndices, minBytes)
    {
      ghost var start := rd.i;
      var seg := ReadSegment(rd);
      if seg.Err? {
        if ReadU(body).Some? {
          ReadingFails(body, n, done, k, start, out, keep, keepIndices, minBytes);
        }
        assert !Accepts(body, minBytes) by { UnreadableRejects(body, minBytes); }
        return Err(seg.error);
      }
      ReadingContinues(body, n, done, k, start, out, keep, keepIndices, minBytes);
      var next := StripSegment(seg.value, minBytes, out, keepIndices, image);
      if next.Err? {
        return Err(next.error);
      }
      out, keepIndices := next.value.0, next.value.1;
      PutsSnoc(done, seg.value);
      assert (was + Puts(done)) + Puts([seg.value]) == was + (Puts(done) + Puts([seg.value]));
      done := done + [seg.value];
    }
    if rd.err.Some? {
      UnreadableRejects(body, minBytes);
    } else {
      ReadingEnds(body, n, done, rd.i, out, keep, keepIndices, minBytes);
    }
    if rd.err.None? && rd.i != |body| {
      return Err(TrailingBytes);
    }
    if !keepIndices {
      out := AppendULEB([], 0);
      assert out == ULebBytes(0);
    }
    if rd.err.Some? {
      return Err(rd.err.value);
    }
    return Ok(out);
  }

  /** The loop's bookkeeping: after k segments the cursor is at `at`, what is left reads as
      what is left of the section, and the output so far is that of the segments read. */
  ghost predicate Reading(body: seq<byte>, n: nat, done: seq<Segment>, k: nat, at: nat, out: seq<byte>,
                          keep: bool, keepIndices: bool, minBytes: nat)
  {
    && k <= n
    && ReadU(body).Some? && ReadU(body).value.0 == n
    && var head := ReadU(body).value.1;
    && head <= at <= |body|
    && ParseSegments(body[head..], n) == Continue(done, at - head, ParseSegments(body[at..], n - k))
    && |done| == k
    && out == ULebBytes(n) + EmitSegments(done)
    && keepIndices == (keep || HasPassive(done))
    && forall j :: 0 <= j < |done| ==> InBounds(done[j], minBytes)
  }

  lemma NoPuts()
    ensures Puts([]) == []
  {
  }

  lemma UnreadableRejects(body: seq<byte>, minBytes: nat)
    ensures ReadU(body).None? ==> !Accepts(body, minBytes)
  {
  }

  lemma ReadingStarts(body: seq<byte>, n: nat, at: nat, keep: bool, minBytes: nat)
    requires ReadU(body) == Some((n, at))
    ensures Reading(body, n, [], 0, at, ULebBytes(n), keep, keep, minBytes)
  {
    hide ReadU, ParseSegments;
    assert ULebBytes(n) + [] == ULebBytes(n);
    var all := ParseSegments(body[at..], n);
    assert all.Some? ==> [] + all.value.0 == all.value.0;
  }

  lemma ReadingFails(body: seq<byte>, n: nat, done: seq<Segment>, k: nat, at: nat, out: seq<byte>,
                     keep: bool, keepIndices: bool, minBytes: nat)
    requires Reading(body, n, done, k, at, out, keep, keepIndices, minBytes) && k < n
    requires ParseSegment(body[at..]).None?
    ensures !Accepts(body, minBytes)
  {
    hide ReadU, ParseSegment;
    ContinueOne(done, at - ReadU(body).value.1, body[at..], n - k);
  }

  lemma ReadingContinues(body: seq<byte>, n: nat, done: seq<Segment>, k: nat, at: nat, out: seq<byte>,
                         keep: bool, keepIndices: bool, minBytes: nat)
    requires Reading(body, n, done, k, at, out, keep, keepIndices, minBytes) && k < n
    requires ParseSegment(body[at..]).Some?
    ensures var (seg, m) := ParseSegment(body[at..]).value;
            if InBounds(seg, minBytes)
            then Reading(body, n, done + [seg], k + 1, at + m, out + EmitSegment(seg), keep,
                         keepIndices || seg.Passive?, minBytes)
            else !Accepts(body, minBytes)
  {
    hide ReadU, ParseSegment, ParseSegments, EmitSegment, EmitSegments, HasPassive, ULebBytes, InBounds;
    var (seg, m) := ParseSegment(body[at..]).value;
    var head := ReadU(body).value.1;
    ContinueOne(done, at - head, body[at..], n - k);
    assert body[at..][m..] == body[at + m..];
    Extended(done, seg);
    assert ULebBytes(n) + (EmitSegments(done) + EmitSegment(seg)) == out + EmitSegment(seg);
    if !InBounds(seg, minBytes) && ParseData(body).Some? {
      assert ParseData(body).value[k] == seg;
    }
  }

  lemma ReadingEnds(body: seq<byte>, n: nat, done: seq<Segment>, at: nat, out: seq<byte>,
                    keep: bool, keepIndices: bool, minBytes: nat)
    requires Reading(body, n, done, n, at, out, keep, keepIndices, minBytes)
    ensures at != |body| ==> !Accepts(body, minBytes)
    ensures at == |body| ==> Accepts(body, minBytes) && ParseData(body) == Some(done)
    ensures at == |body| ==> EmitData(done, keep) == if keepIndices then out else ULebBytes(0)
  {
    hide ReadU, EmitSegments, HasPassive, InBounds;
    assert ParseSegments(body[at..], 0) == Some(([], 0));
    assert done + [] == done;
  }

  /** One more segment: what it adds to the output and the flags. */
  lemma Extended(done: seq<Segment>, seg: Segment)
    ensures EmitSegments(done + [seg]) == EmitSegments(done) + EmitSegment(seg)
    ensures HasPassive(done + [seg]) <==> HasPassive(done) || seg.Passive?
  {
    EmitSegmentsSnoc(done, seg);
    var all := done + [seg];
    assert all[|done|] == seg;
    assert forall j :: 0 <= j < |done| ==> all[j] == done[j];
  }
}
