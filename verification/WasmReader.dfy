/** The cursor over a WebAssembly binary (image_linux.go): reading past the end sets an
    error, and from then on every read yields nothing and the cursor stays where it is. */
module WasmReading {
  import opened Wrappers
  import opened Leb128

  datatype WasmError =
    | NotWasm | Truncated | LebTooLong | MemoryCount | MemoryFlags | MemoryTooLarge
    | NoMemory | OtherMemory | SegmentFlags | OffsetOpcode | OffsetNotConstant
    | OutsideMemory | WriteFailed | TrailingBytes

  class WasmReader {
    const b: seq<byte>
    var i: nat
    var err: Option<WasmError>

    ghost predicate Valid()
      reads this
    {
      i <= |b|
    }

    /** What is left to read. */
    ghost function Rest(): seq<byte>
      requires Valid()
      reads this
    {
      b[i..]
    }

    constructor (bytes: seq<byte>, start: nat)
      requires start <= |bytes|
      ensures Valid() && b == bytes && i == start && err.None?
    {
      b := bytes;
      i := start;
      err := None;
    }

    method Byte() returns (x: byte)
      requires Valid()
      modifies this
      ensures Valid()
      ensures old(err).None? && old(i) < |b| ==> err.None? && i == old(i) + 1 && x == b[old(i)]
      ensures !(old(err).None? && old(i) < |b|) ==> err == Some(Truncated) && i == old(i) && x == 0
    {
      if err.Some? || i >= |b| {
        err := Some(Truncated);
        return 0;
      }
      i := i + 1;
      x := b[i - 1];
    }

    method Bytes(n: nat) returns (r: seq<byte>)
      requires Valid()
      modifies this
      ensures Valid()
      ensures old(err).None? && n <= |b| - old(i) ==>
                err.None? && i == old(i) + n && r == b[old(i)..old(i) + n]
      ensures !(old(err).None? && n <= |b| - old(i)) ==> err == Some(Truncated) && i == old(i) && r == []
    {
      var rest := b[i..];
      if err.Some? || n > |rest| {
        err := Some(Truncated);
        return [];
      }
      r := rest[..n];
      i := i + |r|;
    }

    /** uleb: agrees with the specification's value modulo 2^64 on encodings of up to ten
        bytes, and fails on everything else. */
    method ULeb() returns (value: nat)
      requires Valid()
      modifies this
      ensures Valid() && value < TWO64
      ensures old(err).Some? ==> err.Some? && i == old(i) && value == 0
      ensures old(err).None? ==>
                match ReadU(old(Rest()))
                case Some((v, n)) => err.None? && i == old(i) + n && value == v
                case None => err.Some? && i >= old(i)
    {
      ghost var s, start, failed := Rest(), i, err.Some?;
      ghost var k: nat := 0;
      var v: nat, shift: nat := 0, 0;
      while shift < 64
        invariant Valid() && shift == 7 * k && k <= 10 && v < TWO64
        invariant failed ==> err.Some? && i == start && v == 0 && k == 0
        invariant !failed ==> err.None? && i == start + k && Accumulated(s, k, v, TWO64)
        decreases 10 - k
      {
        var x := Byte();
        if !failed {
          LebLenSkip(s, k);
        }
        if !failed && k < |s| {
          assert x == s[k];
          AccumulateByte(s, k, v, TWO64);
        }
        v := (v + (x % 128) * Pow2(shift)) % TWO64;
        if x < 128 {
          if !failed && k < |s| {
            UnsignedEnd(s, k, v);
          }
          return v;
        }
        shift, k := shift + 7, k + 1;
      }
      LebLenSkip(s, 10);
      err := Some(LebTooLong);
      value := 0;
    }

    /** i32: the signed value of section 5.2.2 modulo 2^32, on encodings of up to five bytes. */
    method I32() returns (value: nat)
      requires Valid()
      modifies this
      ensures Valid() && value < TWO32
      ensures old(err).Some? ==> err.Some? && i == old(i)
      ensures old(err).None? ==>
                match ReadS32(old(Rest()))
                case Some((v, n)) => err.None? && i == old(i) + n && value == v
                case None => err.Some? && i >= old(i)
    {
      ghost var s, start, failed := Rest(), i, err.Some?;
      ghost var k: nat := 0;
      var v: nat, shift: nat := 0, 0;
      while shift < 35
        invariant Valid() && shift == 7 * k && k <= 5 && v < TWO32
        invariant failed ==> err.Some? && i == start && v == 0 && k == 0
        invariant !failed ==> err.None? && i == start + k && Accumulated(s, k, v, TWO32)
        decreases 5 - k
      {
        var x := Byte();
        if !failed {
          LebLenSkip(s, k);
        }
        if !failed && k < |s| {
          assert x == s[k];
          AccumulateByte(s, k, v, TWO32);
        }
        v := (v + (x % 128) * Pow2(shift)) % TWO32;
        if x < 128 {
          if !failed && k < |s| {
            SignedEnd(s, k, v);
          }
          if shift + 7 < 32 && x % 128 >= 64 {
            v := (v + (TWO32 - Pow2(shift + 7) % TWO32)) % TWO32; // sign-extend
          }
          return v;
        }
        shift, k := shift + 7, k + 1;
      }
      LebLenSkip(s, 5);
      err := Some(LebTooLong);
      value := 0;
    }
  }

  /** After k continuation bytes of s the accumulator holds their low bits, modulo m. */
  ghost predicate Accumulated(s: seq<byte>, k: nat, v: nat, m: nat)
    requires m > 0
  {
    && k <= |s|
    && (forall j :: 0 <= j < k ==> s[j] >= 128)
    && v == Low(s[..k]) % m
  }

  lemma AccumulateByte(s: seq<byte>, k: nat, v: nat, m: nat)
    requires m > 0 && Accumulated(s, k, v, m) && k < |s|
    ensures (v + (s[k] % 128) * Pow2(7 * k)) % m == Low(s[..k + 1]) % m
  {
    hide Low, Pow2, Pow128;
    assert s[..k] + [s[k]] == s[..k + 1];
    LowSnoc(s[..k], s[k]);
    ShiftIsPower(k);
    AddToRest(Low(s[..k]), (s[k] % 128) * Pow128(k), v, m);
  }

  lemma AddToRest(a: nat, g: nat, v: nat, m: nat)
    requires m > 0 && v == a % m
    ensures (v + g) % m == (a + g) % m
  {
    ModOfSum(a, g, m);
  }

  lemma ModOfSum(a: nat, g: nat, m: nat)
    requires m > 0
    ensures (a % m + g) % m == (a + g) % m
  {
    var q := a / m;
    assert a + g == m * q + (a % m + g);
    ModOfMultiple(q, a % m + g, m);
  }

  lemma {:induction false} ModOfMultiple(q: nat, r: int, m: nat)
    requires m > 0
    ensures (m * q + r) % m == r % m
  {
    if q > 0 {
      ModOfMultiple(q - 1, r, m);
      assert m * q + r == (m * (q - 1) + r) + m;
      ModOfOne(m * (q - 1) + r, m);
    }
  }

  lemma ModOfOne(x: int, m: nat)
    requires m > 0
    ensures (x + m) % m == x % m
  {
    assert x == m * (x / m) + x % m;
    var d := (x + m) / m - (x / m + 1);
    assert x + m == m * ((x + m) / m) + (x + m) % m;
    NoSmallMultiple(m, d);
  }

  lemma NoSmallMultiple(m: int, d: int)
    requires -m < m * d < m
    ensures d == 0
  {
    assert d >= 1 ==> m * d >= m * 1;
    assert d <= -1 ==> m * d <= m * -1;
  }

  lemma UnsignedEnd(s: seq<byte>, k: nat, v: nat)
    requires k < |s| && k < 10 && s[k] < 128
    requires forall j :: 0 <= j < k ==> s[j] >= 128
    requires v == Low(s[..k + 1]) % TWO64
    ensures ReadU(s) == Some((v, k + 1))
  {
    LebLenSkip(s, k);
    assert s[k..][0] == s[k];
    ULebValueIsLow(s[..k + 1]);
  }

  lemma SignedEnd(s: seq<byte>, k: nat, v: nat)
    requires k < |s| && k < 5 && s[k] < 128
    requires forall j :: 0 <= j < k ==> s[j] >= 128
    requires v == Low(s[..k + 1]) % TWO32
    ensures ReadS32(s).Some? && ReadS32(s).value.1 == k + 1
    ensures ReadS32(s).value.0 ==
            if 7 * k + 7 < 32 && s[k] % 128 >= 64
            then (v + (TWO32 - Pow2(7 * k + 7) % TWO32)) % TWO32 else v
  {
    LebLenSkip(s, k);
    assert s[k..][0] == s[k];
    var e := s[..k + 1];
    SLebValueIsLow(e);
    LowBound(e);
    ShiftIsPower(k + 1);
    SignExtension(Low(e), k + 1);
  }

  function Pow2(n: nat): (p: nat)
    ensures p >= 1
  {
    if n == 0 then 1 else 2 * Pow2(n - 1)
  }

  /** Shifting by a multiple of seven multiplies by a power of 128. */
  lemma {:induction false} ShiftIsPower(k: nat)
    ensures Pow2(7 * k) == Pow128(k)
  {
    if k > 0 {
      ShiftIsPower(k - 1);
      var n := 7 * (k - 1);
      assert Pow2(n + 1) == 2 * Pow2(n);
      assert Pow2(n + 2) == 2 * Pow2(n + 1);
      assert Pow2(n + 3) == 2 * Pow2(n + 2);
      assert Pow2(n + 4) == 2 * Pow2(n + 3);
      assert Pow2(n + 5) == 2 * Pow2(n + 4);
      assert Pow2(n + 6) == 2 * Pow2(n + 5);
      assert Pow2(n + 7) == 2 * Pow2(n + 6);
    }
  }

  /** Filling the bits above the sign bit is subtracting 128^k modulo 2^32; with five bytes
      there is nothing left to fill, because 128^5 is a multiple of 2^32. */
  lemma SignExtension(low: nat, k: nat)
    requires 1 <= k <= 5 && low < Pow128(k)
    ensures k < 5 ==> Pow128(k) % TWO32 == Pow128(k) && low % TWO32 == low
    ensures k < 5 ==> (low - Pow128(k)) % TWO32 == (low + (TWO32 - Pow128(k))) % TWO32
    ensures k == 5 ==> (low - Pow128(5)) % TWO32 == low % TWO32
  {
    PowersOf128();
    if k == 5 {
      assert Pow128(5) == TWO32 * 8;
      ModOfMultiple(8, low - Pow128(5), TWO32);
    } else {
      ModOfOne(low - Pow128(k), TWO32);
    }
  }
}
