/** What else crosses the boundary between host and guest (experimental/sandbox/http.go): header
    lists and exchange ids. */
module GuestHttp {
  type Bytes = seq<bv8>

  type Header = map<Bytes, seq<Bytes>>

  type Pair = (Bytes, Bytes)

  // ---------------------------------------------------------------------------
  // Headers in the "name NUL value NUL ..." form
  // ---------------------------------------------------------------------------

  /** A NUL in a name or value would shift every later pair. */
  predicate Sendable(p: Pair) {
    0 !in p.0 && 0 !in p.1
  }

  function EncodePairs(ps: seq<Pair>): Bytes {
    if ps == [] then [] else ps[0].0 + [0] + ps[0].1 + [0] + EncodePairs(ps[1..])
  }

  /** The position of the first NUL. */
  function FirstNul(b: Bytes): (i: nat)
    requires 0 in b
    ensures i < |b| && b[i] == 0 && forall j :: 0 <= j < i ==> b[j] != 0
  {
    if b[0] == 0 then 0 else FirstNul(b[1..]) + 1
  }

  function Split(b: Bytes): (parts: seq<Bytes>)
    ensures |parts| > 0
    decreases |b|
  {
    if 0 !in b then [b] else [b[..FirstNul(b)]] + Split(b[FirstNul(b) + 1..])
  }

  lemma SplitAt(x: Bytes, rest: Bytes)
    requires 0 !in x
    ensures Split(x + [0] + rest) == [x] + Split(rest)
  {
    var b := x + [0] + rest;
    assert b[|x|] == 0;
    assert forall j :: 0 <= j < |x| ==> b[j] == x[j] && x[j] in x;
    assert FirstNul(b) == |x|;
    assert b[..|x|] == x && b[|x| + 1..] == rest;
  }

  /** Parts with a NUL between any two. */
  function Join(parts: seq<Bytes>): Bytes
    requires parts != []
  {
    if |parts| == 1 then parts[0] else parts[0] + [0] + Join(parts[1..])
  }

  /** Splitting cuts a text at exactly its NULs, whatever the text. */
  lemma {:induction false} SplitJoins(b: Bytes)
    ensures Join(Split(b)) == b && forall p: Bytes :: p in Split(b) ==> 0 !in p
    decreases |b|
  {
    if 0 in b {
      var i := FirstNul(b);
      SplitJoins(b[i + 1..]);
      assert Split(b)[1..] == Split(b[i + 1..]);
      assert b == b[..i] + [0] + b[i + 1..];
    }
  }

  lemma SplitPair(p: Pair, rest: Bytes)
    requires Sendable(p)
    ensures Split(p.0 + [0] + p.1 + [0] + rest) == [p.0, p.1] + Split(rest)
  {
    hide Split;
    assert p.0 + [0] + p.1 + [0] + rest == p.0 + [0] + (p.1 + [0] + rest);
    SplitAt(p.0, p.1 + [0] + rest);
    SplitAt(p.1, rest);
    assert [p.0] + ([p.1] + Split(rest)) == [p.0, p.1] + Split(rest);
  }

  /** The pairs among the parts; a part without a partner is dropped. */
  function PairUp(parts: seq<Bytes>): seq<Pair>
    decreases |parts|
  {
    if |parts| < 2 then [] else [(parts[0], parts[1])] + PairUp(parts[2..])
  }

  /** The parts two by two, as far as they go, whatever they are. */
  lemma {:induction false} PairUpExactly(parts: seq<Bytes>)
    ensures |PairUp(parts)| == |parts| / 2
    ensures forall i :: 0 <= i < |parts| / 2 ==> PairUp(parts)[i] == (parts[2 * i], parts[2 * i + 1])
    decreases |parts|
  {
    if |parts| >= 2 {
      PairUpExactly(parts[2..]);
      forall i | 0 <= i < |parts| / 2 ensures PairUp(parts)[i] == (parts[2 * i], parts[2 * i + 1]) {
        if i > 0 {
          assert PairUp(parts)[i] == PairUp(parts[2..])[i - 1];
        }
      }
    }
  }

  lemma {:induction false} PairsRoundTrip(ps: seq<Pair>)
    requires forall p :: p in ps ==> Sendable(p)
    ensures PairUp(Split(EncodePairs(ps))) == ps
  {
    if ps == [] {
      assert Split([]) == [[]];
    } else {
      hide Split;
      PairsRoundTrip(ps[1..]);
      SplitPair(ps[0], EncodePairs(ps[1..]));
      assert ([ps[0].0, ps[0].1] + Split(EncodePairs(ps[1..])))[2..] == Split(EncodePairs(ps[1..]));
    }
  }

  /** http.Header.Add on each pair in turn; `canon` is the canonical form of a name. */
  function AddAll(h: Header, ps: seq<Pair>, canon: Bytes -> Bytes): Header
    decreases |ps|
  {
    if ps == [] then h
    else
      var k := canon(ps[0].0);
      AddAll(h[k := (if k in h then h[k] else []) + [ps[0].1]], ps[1..], canon)
  }

  /** The values of the pairs whose name has the canonical form k, in order. */
  function ValuesUnder(ps: seq<Pair>, canon: Bytes -> Bytes, k: Bytes): seq<Bytes> {
    if ps == [] then []
    else (if canon(ps[0].0) == k then [ps[0].1] else []) + ValuesUnder(ps[1..], canon, k)
  }

  /** Whatever names a guest sends, they end up under their canonical forms and after what was
      there. */
  lemma {:induction false} AddAllUnder(h: Header, ps: seq<Pair>, canon: Bytes -> Bytes, k: Bytes)
    ensures var r := AddAll(h, ps, canon);
            && (k in r <==> k in h || ValuesUnder(ps, canon, k) != [])
            && (k in r ==> r[k] == (if k in h then h[k] else []) + ValuesUnder(ps, canon, k))
    decreases |ps|
  {
    if ps != [] {
      var (name, v) := ps[0];
      var c := canon(name);
      var h' := h[c := (if c in h then h[c] else []) + [v]];
      AddAllUnder(h', ps[1..], canon, k);
      var rest := ValuesUnder(ps[1..], canon, k);
      assert AddAll(h, ps, canon) == AddAll(h', ps[1..], canon);
      assert ValuesUnder(ps, canon, k) == (if c == k then [v] else []) + rest;
      hide AddAll, ValuesUnder;
      if c == k {
        var was := if k in h then h[k] else [];
        assert (was + [v]) + rest == was + ([v] + rest);
      }
    }
  }

  function ValuesOf(ps: seq<Pair>, k: Bytes): seq<Bytes> {
    if ps == [] then []
    else (if ps[0].0 == k then [ps[0].1] else []) + ValuesOf(ps[1..], k)
  }

  lemma {:induction false} AddAllIs(h: Header, ps: seq<Pair>, canon: Bytes -> Bytes, k: Bytes)
    requires forall p :: p in ps ==> canon(p.0) == p.0
    ensures var r := AddAll(h, ps, canon);
            && (k in r <==> k in h || ValuesOf(ps, k) != [])
            && (k in r ==> r[k] == (if k in h then h[k] else []) + ValuesOf(ps, k))
    decreases |ps|
  {
    if ps != [] {
      var (c, v) := ps[0];
      assert canon(c) == c by { assert ps[0] in ps; }
      var h' := h[c := (if c in h then h[c] else []) + [v]];
      AddAllIs(h', ps[1..], canon, k);
      assert AddAll(h, ps, canon) == AddAll(h', ps[1..], canon);
      ValuesOfFirst(ps, k);
      hide AddAll, ValuesOf;
      AddOne(h, c, v, k, ValuesOf(ps[1..], k));
    }
  }

  lemma ValuesOfFirst(ps: seq<Pair>, k: Bytes)
    requires ps != []
    ensures ValuesOf(ps, k) == (if ps[0].0 == k then [ps[0].1] else []) + ValuesOf(ps[1..], k)
  {
  }

  /** A value added to a name comes before the values added later. */
  lemma AddOne(h: Header, c: Bytes, v: Bytes, k: Bytes, more: seq<Bytes>)
    ensures var h' := h[c := (if c in h then h[c] else []) + [v]];
            var all := (if c == k then [v] else []) + more;
            && (k in h' || more != [] <==> k in h || all != [])
            && (if k in h' then h'[k] else []) + more == (if k in h then h[k] else []) + all
  {
    var old_ := if k in h then h[k] else [];
    assert (old_ + [v]) + more == old_ + ([v] + more);
  }

  /** The sendable pairs of one name. */
  function PairsOf(k: Bytes, vs: seq<Bytes>): (ps: seq<Pair>)
    ensures forall p :: p in ps ==> Sendable(p) && p.0 == k
  {
    if vs == [] then []
    else (if Sendable((k, vs[0])) then [(k, vs[0])] else []) + PairsOf(k, vs[1..])
  }

  /** The pairs of a header, names in some order. */
  function Flatten(h: Header, order: seq<Bytes>): seq<Pair>
    requires forall k :: k in order ==> k in h
  {
    if order == [] then [] else PairsOf(order[0], h[order[0]]) + Flatten(h, order[1..])
  }

  /** The values of a name that survive. */
  function Kept(k: Bytes, vs: seq<Bytes>): seq<Bytes> {
    if vs == [] then [] else (if Sendable((k, vs[0])) then [vs[0]] else []) + Kept(k, vs[1..])
  }

  lemma {:induction false} ValuesConcat(a: seq<Pair>, b: seq<Pair>, k: Bytes)
    ensures ValuesOf(a + b, k) == ValuesOf(a, k) + ValuesOf(b, k)
  {
    if a == [] {
      assert a + b == b;
    } else {
      assert (a + b)[1..] == a[1..] + b && (a + b)[0] == a[0];
      ValuesConcat(a[1..], b, k);
      var head := if a[0].0 == k then [a[0].1] else [];
      assert ValuesOf(a + b, k) == head + ValuesOf(a[1..] + b, k) && ValuesOf(a, k) == head + ValuesOf(a[1..], k);
      hide ValuesOf;
    }
  }

  lemma {:induction false} ValuesOfPairs(j: Bytes, vs: seq<Bytes>, k: Bytes)
    ensures ValuesOf(PairsOf(j, vs), k) == if j == k then Kept(k, vs) else []
  {
    if vs != [] {
      var head := if Sendable((j, vs[0])) then [(j, vs[0])] else [];
      ValuesConcat(head, PairsOf(j, vs[1..]), k);
      ValuesOfPairs(j, vs[1..], k);
      assert head == [] ==> ValuesOf(head, k) == [];
      assert head != [] ==> head[1..] == [] && ValuesOf(head, k) == if j == k then [vs[0]] else [];
    }
  }

  predicate Distinct(order: seq<Bytes>) {
    forall i, j :: 0 <= i < j < |order| ==> order[i] != order[j]
  }

  lemma {:induction false} ValuesOfFlatten(h: Header, order: seq<Bytes>, k: Bytes)
    requires (forall n :: n in order ==> n in h) && Distinct(order)
    ensures ValuesOf(Flatten(h, order), k) == if k in order then Kept(k, h[k]) else []
  {
    if order != [] {
      var n, rest := order[0], order[1..];
      assert Flatten(h, order) == PairsOf(n, h[n]) + Flatten(h, rest);
      ValuesConcat(PairsOf(n, h[n]), Flatten(h, rest), k);
      ValuesOfPairs(n, h[n], k);
      ValuesOfFlatten(h, rest, k);
      hide PairsOf, Flatten, ValuesOf, Kept;
      assert k in order <==> k == n || k in rest;
      assert n !in rest;
    }
  }

  lemma {:induction false} FlattenSendable(h: Header, order: seq<Bytes>)
    requires forall n :: n in order ==> n in h
    ensures forall p :: p in Flatten(h, order) ==> Sendable(p) && p.0 in order
  {
    if order != [] {
      FlattenSendable(h, order[1..]);
    }
  }

  /** encodeHeaders. The map's order is arbitrary. */
  method EncodeHeaders(h: Header) returns (b: Bytes, ghost order: seq<Bytes>)
    ensures Distinct(order) && (forall k :: k in order <==> k in h)
    ensures b == EncodePairs(Flatten(h, order))
  {
    b, order := [], [];
    var names := h.Keys;
    assert Flatten(h, []) == [];
    while names != {}
      invariant names <= h.Keys && Distinct(order) && forall k :: k in order <==> k in h && k !in names
      invariant b == EncodePairs(Flatten(h, order))
    {
      var k :| k in names;
      names := names - {k};
      var pairs := EncodeName(k, h[k]);
      FlattenMore(h, order, k);
      EncodeConcat(Flatten(h, order), PairsOf(k, h[k]));
      b := b + pairs;
      order := order + [k];
    }
  }

  method EncodeName(k: Bytes, vs: seq<Bytes>) returns (b: Bytes)
    ensures b == EncodePairs(PairsOf(k, vs))
  {
    b := [];
    for i := 0 to |vs|
      invariant b + EncodePairs(PairsOf(k, vs[i..])) == EncodePairs(PairsOf(k, vs))
    {
      var rest := PairsOf(k, vs[i + 1..]);
      assert vs[i..][1..] == vs[i + 1..];
      if 0 !in k && 0 !in vs[i] {
        assert PairsOf(k, vs[i..]) == [(k, vs[i])] + rest;
        assert ([(k, vs[i])] + rest)[1..] == rest;
        b := b + (k + [0] + vs[i] + [0]);
      } else {
        assert PairsOf(k, vs[i..]) == rest;
      }
    }
  }

  lemma {:induction false} FlattenMore(h: Header, order: seq<Bytes>, k: Bytes)
    requires (forall n :: n in order ==> n in h) && k in h
    ensures Flatten(h, order + [k]) == Flatten(h, order) + PairsOf(k, h[k])
  {
    if order == [] {
      assert order + [k] == [k] && [k][1..] == [];
      assert Flatten(h, [k]) == PairsOf(k, h[k]) + Flatten(h, [k][1..]);
    } else {
      assert (order + [k])[1..] == order[1..] + [k];
      FlattenMore(h, order[1..], k);
    }
  }

  lemma {:induction false} EncodeConcat(a: seq<Pair>, b: seq<Pair>)
    ensures EncodePairs(a + b) == EncodePairs(a) + EncodePairs(b)
  {
    if a == [] {
      assert a + b == b;
    } else {
      assert (a + b)[1..] == a[1..] + b;
      EncodeConcat(a[1..], b);
    }
  }

  /** decodeHeaders. */
  method DecodeHeaders(b: Bytes, canon: Bytes -> Bytes) returns (h: Header)
    ensures h == AddAll(map[], PairUp(Split(b)), canon)
  {
    h := map[];
    var parts := Split(b);
    var i := 0;
    while i + 1 < |parts|
      invariant 0 <= i <= |parts|
      invariant AddAll(h, PairUp(parts[i..]), canon) == AddAll(map[], PairUp(parts), canon)
      decreases |parts| - i
    {
      assert parts[i..][2..] == parts[i + 2..];
      var rest := PairUp(parts[i + 2..]);
      assert PairUp(parts[i..]) == [(parts[i], parts[i + 1])] + rest;
      assert ([(parts[i], parts[i + 1])] + rest)[1..] == rest;
      var k := canon(parts[i]);
      h := h[k := (if k in h then h[k] else []) + [parts[i + 1]]];
      i := i + 2;
    }
    assert PairUp(parts[i..]) == [];
  }

  /** Encoded and decoded, a header with canonical names is as it was, without the values that
      hold a NUL or whose name does. */
  method HeadersRoundTrip(h: Header, canon: Bytes -> Bytes) returns (back: Header)
    requires forall k :: k in h ==> canon(k) == k
    ensures forall k :: k in back <==> k in h && Kept(k, h[k]) != []
    ensures forall k :: k in back ==> back[k] == Kept(k, h[k])
  {
    var b, order := EncodeHeaders(h);
    back := DecodeHeaders(b, canon);
    FlattenSendable(h, order);
    PairsRoundTrip(Flatten(h, order));
    forall k ensures k in back <==> k in h && Kept(k, h[k]) != []
             ensures k in back ==> back[k] == Kept(k, h[k])
    {
      AddAllIs(map[], Flatten(h, order), canon, k);
      ValuesOfFlatten(h, order, k);
    }
  }

  lemma {:induction false} NothingDropped(k: Bytes, vs: seq<Bytes>)
    ensures Kept(k, vs) == vs <==> vs == [] || (0 !in k && forall v: Bytes :: v in vs ==> 0 !in v)
    ensures |Kept(k, vs)| <= |vs|
  {
    if vs != [] {
      NothingDropped(k, vs[1..]);
      assert vs == [vs[0]] + vs[1..];
      if Sendable((k, vs[0])) {
        assert Kept(k, vs)[1..] == Kept(k, vs[1..]);
      }
    }
  }

  // ---------------------------------------------------------------------------
  // Exchange ids
  // ---------------------------------------------------------------------------

  const IDS: nat := 0x1_0000_0000

  class Session {
    var nextId: nat
    var byId: map<nat, nat>
    /** How many requests there have been. */
    ghost var count: nat

    ghost predicate Valid()
      reads this
    {
      nextId == count % IDS && forall id :: id in byId ==> id < IDS
    }

    /** While the 32-bit counter has not wrapped, the ids in use are among those given out. */
    ghost predicate Fresh()
      reads this
    {
      Valid() && count < IDS && forall id :: id in byId ==> 1 <= id <= nextId
    }

    constructor ()
      ensures Valid() && Fresh() && byId == map[] && count == 0
    {
      nextId, byId, count := 0, map[], 0;
    }

    /** hostRequestNew: no exchange in use is replaced, unless the counter has wrapped round to
        its id. */
    method RequestNew(exchange: nat) returns (id: nat)
      requires Valid()
      modifies this
      ensures Valid() && count == old(count) + 1
      ensures byId == old(byId)[id := exchange] && id == count % IDS
      ensures old(Fresh()) && count < IDS ==> Fresh() && id !in old(byId) && id > 0
      ensures |byId| == |old(byId)| <==> id in old(byId)
    {
      nextId := (nextId + 1) % IDS;
      count := count + 1;
      assert nextId == count % IDS;
      ghost var keys := byId.Keys;
      byId := byId[nextId := exchange];
      assert byId.Keys == keys + {nextId};
      assert |byId| == |byId.Keys| && |old(byId)| == |keys|;
      return nextId;
    }

    /** hostDrop; an unknown id traps the guest. */
    method Drop(id: nat) returns (trapped: bool)
      requires Valid()
      modifies this`byId
      ensures Valid() && (old(Fresh()) ==> Fresh())
      ensures trapped <==> id !in old(byId)
      ensures byId == old(byId) - {id}
    {
      if id !in byId {
        return true;
      }
      byId := byId - {id};
      return false;
    }
  }
}
