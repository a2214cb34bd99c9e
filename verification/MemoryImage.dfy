/** The memory image (buildImage) and the two memories that back an instance with it
    (alloc_linux.go): a private mapping over a reservation, and a buffer on the heap. */
module MemoryImage {
  import opened Wrappers
  import opened Leb128
  import opened WasmReading
  import opened WasmData
  import opened WasmModule
  import opened WasmMeaning

  // ---------------------------------------------------------------------------
  // The image
  // ---------------------------------------------------------------------------

  /** A file made n bytes long, new bytes reading as zeros. */
  function Resize(file: seq<byte>, n: nat): (r: seq<byte>)
    ensures |r| == n
  {
    seq(n, k requires 0 <= k => if k < |file| then file[k] else 0)
  }

  lemma {:induction false} WriteAllLength(puts: seq<Put>)
    ensures |WriteAll([], puts)| == EndOf(puts)
    decreases |puts|
  {
    if puts != [] {
      var init, p := puts[..|puts| - 1], puts[|puts| - 1];
      assert puts == init + [p];
      WriteAllSnoc([], init, p);
      WriteAllLength(init);
    }
  }

  /** Sizing the file after writing the segments gives what writing them over zeros gives. */
  lemma {:induction false} ResizeIsZerosWritten(puts: seq<Put>, n: nat)
    requires EndOf(puts) <= n
    ensures Resize(WriteAll([], puts), n) == WriteAll(Zeros(n), puts)
    decreases |puts|
  {
    if puts == [] {
    } else {
      var init, p := puts[..|puts| - 1], puts[|puts| - 1];
      assert puts == init + [p];
      EndOfSnoc(init, p);
      ResizeIsZerosWritten(init, n);
      WriteAllSnoc([], init, p);
      WriteAllSnoc(Zeros(n), init, p);
      WriteAllLength(init);
      assert Resize(WriteAt(WriteAll([], init), p.offset, p.data), n)
          == WriteAt(Resize(WriteAll([], init), n), p.offset, p.data);
    }
  }

  /** The smallest whole number of pages that covers `end`. */
  ghost predicate LeastCover(size: nat, end: nat, page: nat)
    requires page > 0
  {
    size % page == 0 && end <= size && forall m: nat :: m % page == 0 && end <= m ==> size <= m
  }

  lemma RoundUpIsLeast(end: nat, page: nat)
    requires page > 0
    ensures LeastCover((end + page - 1) / page * page, end, page)
  {
    var q := (end + page - 1) / page;
    MultipleHasNoRest(q, page);
    assert end + page - 1 == q * page + (end + page - 1) % page;
    forall m: nat | m % page == 0 && end <= m ensures q * page <= m {
      var d := m / page;
      assert m == d * page;
      MoreMultiples(d, q, page);
      MoreMultiples(q, d, page);
    }
  }

  lemma MoreMultiples(d: nat, q: nat, page: nat)
    ensures d < q ==> d * page + page <= q * page
  {
    var more := q - d;
    assert q * page == d * page + more * page;
    assert more >= 1 ==> more * page >= page;
  }

  lemma MultipleHasNoRest(q: nat, page: nat)
    requires page > 0
    ensures (q * page) % page == 0
  {
    ModOfMultiple(q, 0, page);
    assert page * q + 0 == q * page;
  }

  /** When the page size divides 64 KiB, a least cover of data inside the initial memory stays
      inside it. */
  lemma CoverFits(size: nat, end: nat, page: nat, pages: nat)
    requires page > 0 && PAGE % page == 0 && LeastCover(size, end, page) && end <= pages * PAGE
    ensures size <= pages * PAGE
  {
    var c := PAGE / page;
    assert PAGE == c * page;
    assert pages * (c * page) == (pages * c) * page;
    MultipleHasNoRest(pages * c, page);
  }

  lemma {:induction false} SegmentsEndInside(segments: seq<Segment>, minBytes: nat)
    requires forall j :: 0 <= j < |segments| ==> InBounds(segments[j], minBytes)
    ensures forall j :: 0 <= j < |Puts(segments)| ==> Puts(segments)[j].offset + |Puts(segments)[j].data| <= minBytes
  {
    if segments != [] {
      SegmentsEndInside(segments[1..], minBytes);
      assert InBounds(segments[0], minBytes);
    }
  }

  lemma {:induction false} EndInside(puts: seq<Put>, minBytes: nat)
    requires forall j :: 0 <= j < |puts| ==> puts[j].offset + |puts[j].data| <= minBytes
    ensures EndOf(puts) <= minBytes
    decreases |puts|
  {
    if puts != [] {
      EndInside(puts[..|puts| - 1], minBytes);
    }
  }

  /** In the standard order every put call lies inside the initial memory. */
  lemma PutsInside(wasm: seq<byte>)
    requires Strip(wasm).Some? && StandardOrder(ParseSections(wasm[8..]).value)
    ensures EndOf(Strip(wasm).value.puts) <= Strip(wasm).value.minBytes
    ensures Strip(wasm).value.minBytes == MinBytes(ParseSections(wasm[8..]).value)
  {
    hide StripSections, SectionsPuts, ParseSections, First, StandardOrder, Accepts, ParseData, MemoryPages, Puts,
         SplitAt, Strip, EndOf;
    StripParts(wasm);
    var sections := ParseSections(wasm[8..]).value;
    var end := StripSections(sections, NOTHING).value.1;
    if First(sections, DATA).None? {
      OneMemory(sections);
      SeenWithoutData(sections, NOTHING);
      EndInside([], end.minBytes);
    } else {
      var d := SplitAtData(sections);
      StripSplit(sections, d);
      AcceptedData(sections[d].body, end.minBytes);
      var segments := ParseData(sections[d].body).value;
      SegmentsEndInside(segments, end.minBytes);
      EndInside(Puts(segments), end.minBytes);
    }
  }

  /** When the page size divides 64 KiB, the image never exceeds the initial memory. */
  lemma ImageFits(wasm: seq<byte>, page: nat, size: nat)
    requires Strip(wasm).Some? && StandardOrder(ParseSections(wasm[8..]).value)
    requires page > 0 && PAGE % page == 0 && LeastCover(size, EndOf(Strip(wasm).value.puts), page)
    ensures size <= Strip(wasm).value.minBytes
  {
    PutsInside(wasm);
    var sections := ParseSections(wasm[8..]).value;
    hide StripSections, SectionsPuts, ParseSections, StandardOrder, Strip, EndOf, LeastCover;
    var pages := match First(sections, MEMORY)
      case None => 0
      case Some(sec) => (match MemoryPages(sec.body) case None => 0 case Some(n) => n);
    assert MinBytes(sections) == pages * PAGE;
    CoverFits(size, EndOf(Strip(wasm).value.puts), page, pages);
  }

  /** Whether each step around the file works. */
  datatype Steps = Steps(creates: bool, truncates: bool, seals: bool)

  /** buildImage. When it succeeds the image is the start of the original's initial memory, as
      long as the least number of pages that covers its data. There is none, and the module is to
      be used unchanged, just when a step fails, stripping refuses, or there is no data. */
  method BuildImage(wasm: seq<byte>, page: nat, f: ImageFile, steps: Steps) returns (r: Option<(seq<byte>, seq<byte>)>)
    requires page > 0 && |wasm| < TWO64
    requires f.Valid() && f.puts == []
    modifies f
    ensures r.Some? ==>
              && Strip(wasm).Some? && r.value.1 == Strip(wasm).value.module_
              && LeastCover(|r.value.0|, EndOf(Strip(wasm).value.puts), page)
              && r.value.0 == WriteAll(Zeros(|r.value.0|), Strip(wasm).value.puts)
              && |r.value.0| > 0 && steps == Steps(true, true, true)
    ensures r.None? ==> || steps != Steps(true, true, true) || f.Full()
                        || Strip(wasm).None? || EndOf(Strip(wasm).value.puts) == 0
  {
    hide Strip, WriteAll, EndOf;
    if !steps.creates {
      return None;
    }
    var stripped := StripModule(wasm, f);
    if stripped.Err? {
      return None;
    }
    assert [] + Strip(wasm).value.puts == Strip(wasm).value.puts;
    var size := (f.end + page - 1) / page * page;
    RoundUpIsLeast(f.end, page);
    if size == 0 {
      return None; // no data segments
    }
    if !steps.truncates || !steps.seals {
      return None;
    }
    ResizeIsZerosWritten(f.puts, size);
    return Some((Resize(f.file, size), stripped.value.0));
  }

  // ---------------------------------------------------------------------------
  // What the guest sees
  // ---------------------------------------------------------------------------

  /** The byte at k before the guest writes it: the image, then zeros. */
  function Untouched(image: seq<byte>, k: nat): byte {
    if k < |image| then image[k] else 0
  }

  /** Growing the memory shows untouched bytes beyond what was visible. */
  function Grown(image: seq<byte>, view: seq<byte>, size: nat): (r: seq<byte>)
    requires |view| <= size
    ensures |r| == size
  {
    seq(size, k requires 0 <= k => if k < |view| then view[k] else Untouched(image, k))
  }

  /** Growing from nothing to the initial size shows what the original module would have had
      after copying its segments. */
  lemma FirstGrowthIsOriginal(puts: seq<Put>, size: nat, minBytes: nat)
    requires EndOf(puts) <= size <= minBytes
    ensures Grown(WriteAll(Zeros(size), puts), [], minBytes) == WriteAll(Zeros(minBytes), puts)
  {
    ResizeIsZerosWritten(puts, size);
    ResizeIsZerosWritten(puts, minBytes);
    WriteAllLength(puts);
    var image := WriteAll(Zeros(size), puts);
    var file := WriteAll([], puts);
    assert image == Resize(file, size);
    forall k | 0 <= k < minBytes
      ensures Grown(image, [], minBytes)[k] == Resize(file, minBytes)[k]
    {
    }
  }

  lemma GrownTwice(image: seq<byte>, view: seq<byte>, size: nat, more: nat)
    requires |view| <= size <= more
    ensures Grown(image, Grown(image, view, size), more) == Grown(image, view, more)
  {
  }

  /** A memory: every byte it has ever shown, and how many of them it shows. */
  datatype Contents = Contents(bytes: seq<byte>, visible: nat) {
    predicate Ok() {
      visible <= |bytes|
    }

    /** What the guest can read and write. */
    function View(): (v: seq<byte>)
      requires Ok()
      ensures |v| == visible
    {
      bytes[..visible]
    }
  }

  /** Another size: bytes no longer shown are kept. */
  function Sized(image: seq<byte>, c: Contents, size: nat): (r: Contents)
    ensures r.Ok() && r.visible == size
  {
    Contents(if |c.bytes| <= size then Grown(image, c.bytes, size) else c.bytes, size)
  }

  class MappedMemory {
    ghost const image: seq<byte>
    ghost var reached: nat
    ghost var visible: nat
    var buf: array<byte>

    ghost predicate Valid()
      reads this, buf
    {
      && visible <= reached <= buf.Length
      && forall k :: reached <= k < buf.Length ==> buf[k] == Untouched(image, k)
    }

    ghost function State(): (c: Contents)
      requires Valid()
      reads this, buf
      ensures c.Ok()
    {
      Contents(buf[..reached], visible)
    }

    /** The reservation with the image mapped over its start; the rest is zero pages. */
    constructor (content: seq<byte>, maxBytes: nat)
      requires |content| <= maxBytes
      ensures Valid() && fresh(buf) && image == content && State() == Contents([], 0) && buf.Length == maxBytes
    {
      image := content;
      reached, visible := 0, 0;
      buf := new byte[maxBytes](k => Untouched(content, k));
    }

    /** Reallocate: no memory beyond the reservation, and otherwise the same bytes, more or fewer
        of them. */
    method Reallocate(size: nat) returns (ok: bool)
      requires Valid()
      modifies this`reached, this`visible
      ensures Valid() && buf == old(buf)
      ensures ok == (size <= buf.Length)
      ensures State() == if ok then Sized(image, old(State()), size) else old(State())
    {
      if size > buf.Length {
        return false;
      }
      visible := size;
      if size > reached {
        reached := size;
        assert buf[..size] == Grown(image, old(buf[..reached]), size);
      }
      ok := true;
    }

    method Write(k: nat, x: byte)
      requires Valid() && k < visible
      modifies buf
      ensures Valid() && State() == old(State()).(bytes := old(State()).bytes[k := x])
    {
      buf[k] := x;
    }
  }

  class HeapMemory {
    ghost const image: seq<byte>
    ghost var reached: nat
    ghost var visible: nat
    var buf: array<byte>

    ghost predicate Valid()
      reads this, buf
    {
      && visible <= reached <= buf.Length && |image| <= buf.Length
      && forall k :: reached <= k < buf.Length ==> buf[k] == Untouched(image, k)
    }

    ghost function State(): (c: Contents)
      requires Valid()
      reads this, buf
      ensures c.Ok()
    {
      Contents(buf[..reached], visible)
    }

    /** The image read into a buffer of its own length. */
    constructor (content: seq<byte>)
      ensures Valid() && fresh(buf) && image == content && State() == Contents([], 0)
    {
      image := content;
      reached, visible := 0, 0;
      buf := new byte[|content|](k => Untouched(content, k));
    }

    /** Reallocate: appends zeros, which can move the buffer; the buffer itself never shrinks. */
    method Reallocate(size: nat)
      requires Valid()
      modifies this
      ensures Valid() && (buf == old(buf) || fresh(buf))
      ensures State() == Sized(image, old(State()), size)
    {
      if size > buf.Length {
        var longer := new byte[size];
        for k := 0 to size
          invariant forall j :: 0 <= j < k ==> longer[j] == if j < buf.Length then buf[j] else 0
          invariant unchanged(this) && unchanged(buf)
        {
          longer[k] := if k < buf.Length then buf[k] else 0;
        }
        buf := longer;
      }
      visible := size;
      if size > reached {
        reached := size;
        assert buf[..size] == Grown(image, old(buf[..reached]), size);
      }
    }

    method Write(k: nat, x: byte)
      requires Valid() && k < visible
      modifies buf
      ensures Valid() && State() == old(State()).(bytes := old(State()).bytes[k := x])
    {
      buf[k] := x;
    }
  }

  /** What the runtime and the guest do to a memory. */
  datatype Use = Reallocate(size: nat) | Store(at: nat, x: byte)

  /** Sizes stay within the limit and stores stay within the memory. */
  predicate Allowed(u: Use, visible: nat, maxBytes: nat) {
    match u
    case Reallocate(size) => size <= maxBytes
    case Store(at, _) => at < visible
  }

  /** A memory after one more use. */
  function After(image: seq<byte>, c: Contents, u: Use): (r: Contents)
    requires c.Ok()
    ensures r.Ok()
  {
    match u
    case Reallocate(size) => Sized(image, c, size)
    case Store(at, x) => if at < |c.bytes| then c.(bytes := c.bytes[at := x]) else c
  }

  /** And after a sequence of uses. */
  function Used(image: seq<byte>, c: Contents, uses: seq<Use>): (r: Contents)
    requires c.Ok()
    ensures r.Ok()
    decreases |uses|
  {
    if uses == [] then c else Used(image, After(image, c, uses[0]), uses[1..])
  }

  /** Over every sequence of uses the mapped memory never refuses and both memories show the
      same bytes at every moment. */
  method SameBytes(image: seq<byte>, maxBytes: nat, uses: seq<Use>)
    returns (done: nat, seen: seq<byte>, seenOnHeap: seq<byte>)
    requires |image| <= maxBytes
    ensures done <= |uses| && seen == seenOnHeap == Used(image, Contents([], 0), uses[..done]).View()
    ensures done == |uses| || !Allowed(uses[done], |seen|, maxBytes)
  {
    hide Used, Grown;
    var mapped := new MappedMemory(image, maxBytes);
    var heap := new HeapMemory(image);
    done := 0;
    var visible := 0;
    NothingUsed(image, Contents([], 0));
    while done < |uses| && Allowed(uses[done], visible, maxBytes)
      invariant done <= |uses| && fresh(mapped) && fresh(heap) && fresh(mapped.buf) && fresh(heap.buf)
      invariant mapped.Valid() && heap.Valid() && mapped.buf != heap.buf
      invariant mapped.image == heap.image == image && mapped.buf.Length == maxBytes
      invariant mapped.State() == heap.State() == Used(image, Contents([], 0), uses[..done])
      invariant mapped.visible == heap.visible == visible
    {
      assert uses[..done + 1] == uses[..done] + [uses[done]];
      UsedSnoc(image, Contents([], 0), uses[..done], uses[done]);
      match uses[done] {
        case Reallocate(size) =>
          var ok := mapped.Reallocate(size);
          heap.Reallocate(size);
          visible := size;
        case Store(at, x) =>
          mapped.Write(at, x);
          heap.Write(at, x);
      }
      done := done + 1;
    }
    seen, seenOnHeap := mapped.buf[..visible], heap.buf[..visible];
    assert seen == mapped.State().View() && seenOnHeap == heap.State().View();
  }

  lemma NothingUsed(image: seq<byte>, c: Contents)
    requires c.Ok()
    ensures Used(image, c, []) == c
  {
  }

  lemma {:induction false} UsedSnoc(image: seq<byte>, c: Contents, uses: seq<Use>, u: Use)
    requires c.Ok()
    ensures Used(image, c, uses + [u]) == After(image, Used(image, c, uses), u)
    decreases |uses|
  {
    hide After;
    if uses == [] {
      assert uses + [u] == [u] && [u][1..] == [];
    } else {
      UsedSnoc(image, After(image, c, uses[0]), uses[1..], u);
      assert (uses + [u])[1..] == uses[1..] + [u];
    }
  }

  predicate AllAllowed(uses: seq<Use>, visible: nat, maxBytes: nat)
    decreases |uses|
  {
    uses == [] || (Allowed(uses[0], visible, maxBytes)
                   && AllAllowed(uses[1..], if uses[0].Reallocate? then uses[0].size else visible, maxBytes))
  }

  /** The value of the last store to k, if there is one. */
  function LastStore(uses: seq<Use>, k: nat): Option<byte>
    decreases |uses|
  {
    if uses == [] then None
    else
      match LastStore(uses[1..], k)
      case Some(x) => Some(x)
      case None => if uses[0].Store? && uses[0].at == k then Some(uses[0].x) else None
  }

  /** Guest writes are kept: whatever sizes follow, smaller ones included, a byte shows the last
      value stored to it, and a byte never stored to shows the image, or zero beyond the image. */
  lemma {:induction false} WritesAreKept(image: seq<byte>, c: Contents, uses: seq<Use>, maxBytes: nat, k: nat)
    requires c.Ok() && AllAllowed(uses, c.visible, maxBytes) && k < |Used(image, c, uses).bytes|
    ensures Used(image, c, uses).bytes[k] ==
            match LastStore(uses, k)
            case Some(x) => x
            case None => if k < |c.bytes| then c.bytes[k] else Untouched(image, k)
    decreases |uses|
  {
    if uses != [] {
      WritesAreKept(image, After(image, c, uses[0]), uses[1..], maxBytes, k);
    }
  }
}
