/** LEB128 integers (section 5.2.2 of the WebAssembly Core Specification 2.0) and the
    reader and writer that the data-segment stripper uses for them.

    `ULebValue` and `SLebValue` transcribe the grammar of the specification; the reader's
    loops and the writer's loop are proved against them. */
module Leb128 {
  import opened Wrappers

  type byte = x: int | 0 <= x < 256

  const TWO32: nat := 0x1_0000_0000
  const TWO64: nat := 0x1_0000_0000_0000_0000

  // ---------------------------------------------------------------------------
  // The specification's meaning of an encoding
  // ---------------------------------------------------------------------------

  /** The number of bytes of the encoding at the head of `s`, if one ends there. */
  function LebLen(s: seq<byte>): (n: Option<nat>)
    ensures n.Some? ==> 1 <= n.value <= |s|
  {
    if s == [] then None
    else if s[0] < 128 then Some(1)
    else match LebLen(s[1..])
      case Some(n) => Some(n + 1)
      case None => None
  }

  /** uN of section 5.2.2: n below 2^7 is itself, otherwise 2^7*m + (n - 2^7). */
  function ULebValue(e: seq<byte>): nat
    requires e != []
  {
    if |e| == 1 then e[0] else 128 * ULebValue(e[1..]) + (if e[0] >= 128 then e[0] - 128 else e[0])
  }

  /** sN of section 5.2.2: the last byte carries the sign in its sixth bit. */
  function SLebValue(e: seq<byte>): int
    requires e != []
  {
    if |e| == 1 then (if e[0] % 128 < 64 then e[0] % 128 else e[0] % 128 - 128)
    else 128 * SLebValue(e[1..]) + (if e[0] >= 128 then e[0] - 128 else e[0])
  }

  /** What the code reads as an unsigned integer: up to ten bytes, modulo 2^64. */
  function ReadU(s: seq<byte>): (r: Option<(nat, nat)>)
    ensures r.Some? ==> r.value.0 < TWO64 && 1 <= r.value.1 <= 10 && r.value.1 <= |s|
  {
    match LebLen(s)
    case Some(n) => if n <= 10 then Some((ULebValue(s[..n]) % TWO64, n)) else None
    case None => None
  }

  /** What the code reads as an i32.const immediate: up to five bytes, modulo 2^32. */
  function ReadS32(s: seq<byte>): (r: Option<(nat, nat)>)
    ensures r.Some? ==> r.value.0 < TWO32 && 1 <= r.value.1 <= 5 && r.value.1 <= |s|
  {
    match LebLen(s)
    case Some(n) => if n <= 5 then Some((SLebValue(s[..n]) % TWO32, n)) else None
    case None => None
  }

  // ---------------------------------------------------------------------------
  // Accumulation from the low end, as the loops do it
  // ---------------------------------------------------------------------------

  function Pow128(n: nat): (p: nat)
    ensures p >= 1
  {
    if n == 0 then 1 else 128 * Pow128(n - 1)
  }

  /** The sum of the low seven bits of each byte, least significant first. */
  function Low(e: seq<byte>): nat {
    if e == [] then 0 else e[0] % 128 + 128 * Low(e[1..])
  }

  lemma {:induction false} LowSnoc(e: seq<byte>, x: byte)
    ensures Low(e + [x]) == Low(e) + (x % 128) * Pow128(|e|)
  {
    if e == [] {
      assert e + [x] == [x];
      assert [x][1..] == [];
    } else {
      LowSnoc(e[1..], x);
      assert (e + [x])[1..] == e[1..] + [x];
      var a, b := (x % 128), Pow128(|e| - 1);
      assert 128 * (a * b) == a * (128 * b);
    }
  }

  lemma {:induction false} LowBound(e: seq<byte>)
    ensures Low(e) < Pow128(|e|)
  {
    if e != [] {
      LowBound(e[1..]);
    }
  }

  lemma {:induction false} ULebValueIsLow(e: seq<byte>)
    requires e != [] && e[|e| - 1] < 128
    ensures ULebValue(e) == Low(e)
  {
    if |e| > 1 {
      ULebValueIsLow(e[1..]);
    }
  }

  lemma {:induction false} SLebValueIsLow(e: seq<byte>)
    requires e != []
    ensures SLebValue(e) == Low(e) - (if e[|e| - 1] % 128 >= 64 then Pow128(|e|) else 0)
  {
    if |e| > 1 {
      SLebValueIsLow(e[1..]);
    } else {
      assert Low(e[1..]) == 0;
      assert Pow128(1) == 128 * Pow128(0);
    }
  }

  /** Reading k continuation bytes leaves the rest of the encoding to read. */
  lemma {:induction false} LebLenSkip(s: seq<byte>, k: nat)
    requires k <= |s|
    requires forall j :: 0 <= j < k ==> s[j] >= 128
    ensures LebLen(s) ==
            match LebLen(s[k..]) { case Some(n) => Some(n + k) case None => None }
  {
    if k == 0 {
      assert s[0..] == s;
    } else {
      LebLenSkip(s[1..], k - 1);
      assert s[1..][k - 1..] == s[k..];
    }
  }

  /** The bytes before the last of an encoding have their high bit set, the last has not. */
  lemma {:induction false} LebShape(s: seq<byte>)
    requires LebLen(s).Some?
    ensures var n := LebLen(s).value;
            s[n - 1] < 128 && forall j :: 0 <= j < n - 1 ==> s[j] >= 128
  {
    if s[0] >= 128 {
      LebShape(s[1..]);
      var n := LebLen(s).value;
      forall j | 0 <= j < n - 1 ensures s[j] >= 128 {
        if j > 0 { assert s[j] == s[1..][j - 1]; }
      }
    }
  }

  /** Trailing bytes do not change what an encoding reads as. */
  lemma {:induction false} LebLenLocal(s: seq<byte>, t: seq<byte>)
    requires LebLen(s).Some?
    ensures LebLen(s + t) == LebLen(s)
  {
    if s[0] >= 128 {
      LebLenLocal(s[1..], t);
      assert (s + t)[1..] == s[1..] + t;
    }
  }

  lemma ReadULocal(s: seq<byte>, t: seq<byte>)
    requires ReadU(s).Some?
    ensures ReadU(s + t) == ReadU(s)
  {
    LebLenLocal(s, t);
    var n := LebLen(s).value;
    assert (s + t)[..n] == s[..n];
  }

  lemma ReadS32Local(s: seq<byte>, t: seq<byte>)
    requires ReadS32(s).Some?
    ensures ReadS32(s + t) == ReadS32(s)
  {
    LebLenLocal(s, t);
    var n := LebLen(s).value;
    assert (s + t)[..n] == s[..n];
  }

  lemma {:induction false} LebLenTake(s: seq<byte>)
    requires LebLen(s).Some?
    ensures LebLen(s[..LebLen(s).value]) == LebLen(s)
  {
    if s[0] >= 128 {
      LebLenTake(s[1..]);
      var n := LebLen(s).value;
      assert s[..n][1..] == s[1..][..n - 1];
    }
  }

  /** An encoding is read from exactly its own bytes. */
  lemma ReadUTake(s: seq<byte>)
    requires ReadU(s).Some?
    ensures ReadU(s[..ReadU(s).value.1]) == ReadU(s)
  {
    LebLenTake(s);
    var n := LebLen(s).value;
    assert s[..n][..n] == s[..n];
  }

  lemma ReadS32Take(s: seq<byte>)
    requires ReadS32(s).Some?
    ensures ReadS32(s[..ReadS32(s).value.1]) == ReadS32(s)
  {
    LebLenTake(s);
    var n := LebLen(s).value;
    assert s[..n][..n] == s[..n];
  }

  // ---------------------------------------------------------------------------
  // The writer
  // ---------------------------------------------------------------------------

  /** The canonical encoding of v: the shortest one. */
  function ULebBytes(v: nat): (e: seq<byte>)
    ensures |e| >= 1
  {
    if v < 128 then [v] else [v % 128 + 128] + ULebBytes(v / 128)
  }

  lemma {:induction false} ULebBytesShape(v: nat, k: nat)
    requires v < Pow128(k) && k >= 1
    ensures |ULebBytes(v)| <= k
    ensures LebLen(ULebBytes(v)) == Some(|ULebBytes(v)|)
    ensures ULebValue(ULebBytes(v)) == v
  {
    if v >= 128 {
      assert Pow128(1) == 128 * Pow128(0);
      assert k >= 2;
      assert v / 128 < Pow128(k - 1);
      ULebBytesShape(v / 128, k - 1);
      var e := ULebBytes(v);
      assert e[1..] == ULebBytes(v / 128);
    }
  }

  lemma PowersOf128()
    ensures Pow128(1) == 128 && Pow128(2) == 0x4000 && Pow128(3) == 0x20_0000
    ensures Pow128(4) == 0x1000_0000 && Pow128(5) == 0x8_0000_0000
    ensures Pow128(9) == 0x8000_0000_0000_0000 && Pow128(10) == 64 * TWO64
  {
    assert Pow128(0) == 1;
    assert Pow128(1) == 128 * Pow128(0);
    assert Pow128(2) == 128 * Pow128(1);
    assert Pow128(3) == 128 * Pow128(2);
    assert Pow128(4) == 128 * Pow128(3);
    assert Pow128(5) == 128 * Pow128(4);
    assert Pow128(6) == 128 * Pow128(5);
    assert Pow128(7) == 128 * Pow128(6);
    assert Pow128(8) == 128 * Pow128(7);
    assert Pow128(9) == 128 * Pow128(8);
    assert Pow128(10) == 128 * Pow128(9);
  }

  /** Reading back a written integer gives the integer and consumes exactly its encoding,
      whatever follows: `uleb` inverts `appendULEB` for every 64-bit value. */
  lemma ULebRoundTrip(v: nat, rest: seq<byte>)
    requires v < TWO64
    ensures ReadU(ULebBytes(v) + rest) == Some((v, |ULebBytes(v)|))
  {
    PowersOf128();
    ULebBytesShape(v, 10);
    var e := ULebBytes(v);
    assert e[..|e|] == e;
    ReadULocal(e, rest);
    assert ReadU(e) == Some((v, |e|));
  }

  /** No encoding of a value is shorter than the canonical one. */
  lemma {:induction false} CanonicalIsShortest(e: seq<byte>)
    requires e != [] && e[|e| - 1] < 128
    ensures |ULebBytes(ULebValue(e))| <= |e|
  {
    ULebValueIsLow(e);
    LowBound(e);
    ULebBytesShape(ULebValue(e), |e|);
  }

  lemma {:induction false} ULebBytesMonotone(v: nat, w: nat)
    requires v <= w
    ensures |ULebBytes(v)| <= |ULebBytes(w)|
  {
    if v >= 128 {
      ULebBytesMonotone(v / 128, w / 128);
    }
  }

  /** Re-encoding what was read never takes more bytes than were read. */
  lemma ReencodeNotLonger(s: seq<byte>)
    requires ReadU(s).Some?
    ensures |ULebBytes(ReadU(s).value.0)| <= ReadU(s).value.1
  {
    LebShape(s);
    var n := LebLen(s).value;
    var e := s[..n];
    CanonicalIsShortest(e);
    ULebBytesMonotone(ULebValue(e) % TWO64, ULebValue(e));
  }

  /** The shortest signed encoding of v. */
  function SLebBytes(v: int): (e: seq<byte>)
    ensures |e| >= 1
    decreases if v < 0 then -v else v
  {
    if -64 <= v < 64 then [v % 128] else [v % 128 + 128] + SLebBytes(v / 128)
  }

  lemma {:induction false} SLebBytesShape(v: int, k: nat)
    requires k >= 1 && -64 * Pow128(k - 1) <= v < 64 * Pow128(k - 1)
    ensures |SLebBytes(v)| <= k
    ensures LebLen(SLebBytes(v)) == Some(|SLebBytes(v)|)
    ensures SLebValue(SLebBytes(v)) == v
    decreases k
  {
    assert Pow128(0) == 1;
    if v < -64 || v >= 64 {
      assert k >= 2 && Pow128(k - 1) == 128 * Pow128(k - 2);
      SLebBytesShape(v / 128, k - 1);
      var e := SLebBytes(v);
      assert e[1..] == SLebBytes(v / 128);
    }
  }

  /** Every 32-bit integer, written as a signed integer, reads back as itself modulo 2^32 and
      takes exactly its own bytes. */
  lemma SLebRoundTrip(v: int, rest: seq<byte>)
    requires -0x8000_0000 <= v < 0x8000_0000
    ensures ReadS32(SLebBytes(v) + rest) == Some((if v < 0 then v + TWO32 else v, |SLebBytes(v)|))
  {
    PowersOf128();
    SLebBytesShape(v, 5);
    var e := SLebBytes(v);
    assert e[..|e|] == e && v % TWO32 == if v < 0 then v + TWO32 else v;
    ReadS32Local(e, rest);
    assert ReadS32(e) == Some((v % TWO32, |e|));
  }

  /** The encodings of some integers, byte for byte: 624485 and -123456, and 3 and -2 with a byte
      more than they need. */
  lemma Examples()
    ensures ULebBytes(624485) == [0xe5, 0x8e, 0x26] && SLebBytes(-123456) == [0xc0, 0xbb, 0x78]
    ensures ReadU([0x83, 0x00]) == Some((3, 2)) && ReadS32([0xfe, 0x7f]) == Some((0xffff_fffe, 2))
  {
    assert ULebBytes(624485) == [0xe5] + ULebBytes(4878) && ULebBytes(4878) == [0x8e] + ULebBytes(38);
    assert SLebBytes(-123456) == [0xc0] + SLebBytes(-965) && SLebBytes(-965) == [0xbb] + SLebBytes(-8);
    assert LebLen([0x83, 0x00][1..]) == Some(1) && LebLen([0xfe, 0x7f][1..]) == Some(1);
    assert [0x83, 0x00][..2] == [0x83, 0x00] && [0xfe, 0x7f][..2] == [0xfe, 0x7f];
    assert ULebValue([0x83, 0x00][1..]) == 0 && SLebValue([0xfe, 0x7f][1..]) == -1;
  }

  /** The code combines bytes with a bitwise or of shifted groups; the groups never share a
      bit, and then or is addition, which is how the loops below write it. */
  lemma OrOfDisjointIsSum(v: bv64, g: bv64)
    requires v & g == 0
    ensures v | g == v + g
  {
  }

  /** appendULEB: the code's loop writes the canonical encoding after what is there. */
  method AppendULEB(b: seq<byte>, value: nat) returns (out: seq<byte>)
    requires value < TWO64
    ensures out == b + ULebBytes(value)
  {
    out := b;
    var v := value;
    while v >= 0x80
      invariant out + ULebBytes(v) == b + ULebBytes(value)
      decreases v
    {
      assert ULebBytes(v) == [v % 128 + 128] + ULebBytes(v / 128);
      out := out + [v % 128 + 128];
      v := v / 128;
    }
    assert ULebBytes(v) == [v];
    out := out + [v];
  }

  /** ulebLen: the size the code reserves before it writes. */
  method ULebLen(value: nat) returns (n: nat)
    requires value < TWO64
    ensures n == |ULebBytes(value)|
  {
    n := 1;
    var v := value;
    while v >= 0x80
      invariant n + |ULebBytes(v)| == 1 + |ULebBytes(value)|
      decreases v
    {
      v := v / 128;
      n := n + 1;
    }
  }
}
