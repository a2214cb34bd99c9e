/** The strings that stand for credentials (internal/credentials/credentials.go): bound references
    and accounts, the unbound references of the old format, and the text a binding is digested from. */
module CredentialNames {
  import opened Wrappers

  const LEGACY_PREFIX := "keychain:gcx:"

  const BOUND_PREFIX := "keychain:gcx:v2:"

  const ACCOUNT_PREFIX := "v2:"

  const FIELDS: set<string> := {"cloud-token", "grafana-token", "grafana-password", "oauth-token",
                                "oauth-refresh-token", "sm-token"}

  /** A credential field of an entry of one document. */
  datatype Key = Key(source: string, owner: string, field: string)

  datatype Binding = Binding(source: string, owner: string, field: string, destination: string) {
    predicate Valid() {
      source != "" && owner != "" && destination != "" && field in FIELDS
    }

    function ToKey(): Key {
      Key(source, owner, field)
    }
  }

  /** The digest of a binding, and which strings are the encoding of some digest. */
  datatype Codec = Codec(digest: Binding -> string, valid: string -> bool) {
    /** Different bindings have different digests, and an encoded digest holds no colon. */
    ghost predicate Sound() {
      && (forall b :: valid(digest(b)))
      && (forall d :: valid(d) ==> ':' !in d)
      && (forall a, b :: digest(a) == digest(b) ==> a == b)
    }
  }

  predicate HasPrefix(s: string, prefix: string) {
    |prefix| <= |s| && s[..|prefix|] == prefix
  }

  /** strings.Cut at the first colon. */
  function CutAtColon(s: string): (r: Option<(string, string)>)
    ensures r.None? <==> ':' !in s
    ensures r.Some? ==> ':' !in r.value.0 && s == r.value.0 + ":" + r.value.1
  {
    if s == [] then None
    else if s[0] == ':' then Some(([], s[1..]))
    else match CutAtColon(s[1..])
      case None => None
      case Some((a, b)) => Some(([s[0]] + a, b))
  }

  lemma {:induction false} CutIsFirst(a: string, b: string)
    requires ':' !in a
    ensures CutAtColon(a + ":" + b) == Some((a, b))
  {
    var s := a + ":" + b;
    if a == [] {
      assert s[0] == ':' && s[1..] == b;
    } else {
      assert s[0] == a[0] && s[1..] == a[1..] + ":" + b;
      CutIsFirst(a[1..], b);
      assert [a[0]] + a[1..] == a;
    }
  }

  // ---------------------------------------------------------------------------
  // Bound references
  // ---------------------------------------------------------------------------

  predicate ValidGeneration(g: string) {
    g != "" && |g| <= 128 && ':' !in g
  }

  function BoundSentinel(c: Codec, b: Binding, g: string): string {
    BOUND_PREFIX + c.digest(b) + ":" + g
  }

  function BoundAccount(c: Codec, b: Binding, g: string): string {
    ACCOUNT_PREFIX + c.digest(b) + ":" + g
  }

  function ParseBound(c: Codec, s: string): Option<(string, string)> {
    if !HasPrefix(s, BOUND_PREFIX) then None
    else match CutAtColon(s[|BOUND_PREFIX|..])
      case None => None
      case Some((d, g)) => if c.valid(d) && ValidGeneration(g) then Some((d, g)) else None
  }

  /** AccountForBoundSentinel. */
  function AccountFor(c: Codec, s: string, b: Binding): Option<string> {
    match ParseBound(c, s)
    case None => None
    case Some((d, g)) => if b.Valid() && d == c.digest(b) then Some(ACCOUNT_PREFIX + d + ":" + g) else None
  }

  /** Parsing inverts formatting, for every binding and generation; and nothing else parses. */
  lemma BoundRoundTrip(c: Codec, b: Binding, g: string)
    requires c.Sound()
    ensures BoundSentinel(c, b, g) == "keychain:gcx:v2:" + (c.digest(b) + ":" + g)
    ensures ParseBound(c, BoundSentinel(c, b, g))
         == if 1 <= |g| <= 128 && ':' !in g then Some((c.digest(b), g)) else None
  {
    var s := BoundSentinel(c, b, g);
    assert s == BOUND_PREFIX + (c.digest(b) + ":" + g);
    assert s[|BOUND_PREFIX|..] == c.digest(b) + ":" + g && s[..|BOUND_PREFIX|] == BOUND_PREFIX;
    CutIsFirst(c.digest(b), g);
  }

  lemma OnlyBoundParses(c: Codec, s: string, d: string, g: string)
    requires c.Sound()
    ensures ParseBound(c, s) == Some((d, g)) <==>
            && s == "keychain:gcx:v2:" + (d + ":" + g) && c.valid(d)
            && 1 <= |g| <= 128 && ':' !in g
  {
    if HasPrefix(s, BOUND_PREFIX) {
      assert s == s[..|BOUND_PREFIX|] + s[|BOUND_PREFIX|..];
    }
    if s == BOUND_PREFIX + (d + ":" + g) && c.valid(d) {
      assert s[|BOUND_PREFIX|..] == d + ":" + g && s[..|BOUND_PREFIX|] == BOUND_PREFIX;
      CutIsFirst(d, g);
    }
  }

  /** A reference opens an account for exactly the binding it was made for, when that is complete,
      and that account is the one made with it. */
  lemma ReferenceIsExact(c: Codec, a: Binding, b: Binding, g: string)
    requires c.Sound()
    ensures AccountFor(c, BoundSentinel(c, a, g), b) ==
            if a == b && b.source != "" && b.owner != "" && b.destination != "" && b.field in FIELDS
               && 1 <= |g| <= 128 && ':' !in g
            then Some("v2:" + (c.digest(a) + ":" + g)) else None
    ensures BoundAccount(c, a, g) == "v2:" + (c.digest(a) + ":" + g)
  {
    BoundRoundTrip(c, a, g);
    AccountText(c.digest(a), g);
    hide ParseBound, BoundSentinel;
  }

  lemma AccountText(d: string, g: string)
    ensures ACCOUNT_PREFIX + d + ":" + g == "v2:" + (d + ":" + g)
  {
  }

  /** Accounts of different bindings or generations differ. */
  lemma AccountsDistinct(c: Codec, a: Binding, g: string, b: Binding, h: string)
    requires c.Sound() && BoundAccount(c, a, g) == BoundAccount(c, b, h)
    ensures a == b && g == h
  {
    var x, y := BoundAccount(c, a, g)[|ACCOUNT_PREFIX|..], BoundAccount(c, b, h)[|ACCOUNT_PREFIX|..];
    assert x == c.digest(a) + ":" + g && y == c.digest(b) + ":" + h;
    CutIsFirst(c.digest(a), g);
    CutIsFirst(c.digest(b), h);
  }

  // ---------------------------------------------------------------------------
  // Unbound references
  // ---------------------------------------------------------------------------

  function LegacySentinel(context: string, field: string): string {
    LEGACY_PREFIX + (context + ":" + field)
  }

  predicate IsLegacy(s: string) {
    HasPrefix(s, LEGACY_PREFIX) && !HasPrefix(s, BOUND_PREFIX)
  }

  /** strings.LastIndex of a colon, or -1. */
  function LastColon(s: string): (i: int)
    ensures -1 <= i < |s|
    ensures i >= 0 ==> s[i] == ':'
    ensures forall j :: i < j < |s| ==> s[j] != ':'
  {
    if s == [] then -1
    else if s[|s| - 1] == ':' then |s| - 1
    else LastColon(s[..|s| - 1])
  }

  function ParseLegacy(s: string): Option<(string, string)> {
    if !IsLegacy(s) then None
    else
      var rest := s[|LEGACY_PREFIX|..];
      var i := LastColon(rest);
      if i <= 0 || i == |rest| - 1 || rest[i + 1..] !in FIELDS then None
      else Some((rest[..i], rest[i + 1..]))
  }

  lemma FieldsHaveNoColon(field: string)
    requires field in FIELDS
    ensures ':' !in field && field != ""
  {
  }

  lemma {:induction false} LastColonIs(context: string, field: string)
    requires ':' !in field
    ensures LastColon(context + ":" + field) == |context|
    decreases |field|
  {
    var rest, n := context + ":" + field, |field| - 1;
    if field == [] {
      assert rest[|rest| - 1] == ':';
    } else {
      assert rest[|rest| - 1] == field[n] && field[n] in field;
      assert rest[..|rest| - 1] == context + ":" + field[..n];
      LastColonIs(context, field[..n]);
    }
  }

  /** A reference of the old format parses back to its context and field exactly when the context
      has a name and that name is not "v2" and does not begin with "v2:". */
  lemma LegacyRoundTrip(context: string, field: string)
    requires field in FIELDS
    ensures ParseLegacy(LegacySentinel(context, field)) == Some((context, field))
            <==> context != "" && context != "v2" && !HasPrefix(context, "v2:")
  {
    var s, rest := LegacySentinel(context, field), context + ":" + field;
    FieldsHaveNoColon(field);
    LastColonIs(context, field);
    BoundPrefixOfLegacy(context, field);
    assert HasPrefix(s, LEGACY_PREFIX) && s[|LEGACY_PREFIX|..] == rest;
    assert rest[..|context|] == context && rest[|context| + 1..] == field;
    var bound := HasPrefix(s, BOUND_PREFIX);
    assert IsLegacy(s) <==> !bound;
    hide LastColon, HasPrefix, IsLegacy, LegacySentinel;
    assert field in FIELDS && |field| > 0;
  }

  /** And nothing else parses. */
  lemma OnlyLegacyParses(s: string, context: string, field: string)
    ensures ParseLegacy(s) == Some((context, field)) <==>
            && s == "keychain:gcx:" + (context + ":" + field) && field in FIELDS
            && context != "" && context != "v2" && !HasPrefix(context, "v2:")
  {
    LegacyShape(s);
    hide ParseLegacy, HasPrefix;
    if field in FIELDS {
      LegacyRoundTrip(context, field);
    }
  }

  lemma LegacyShape(s: string)
    ensures ParseLegacy(s).Some? ==>
              s == LegacySentinel(ParseLegacy(s).value.0, ParseLegacy(s).value.1) && ParseLegacy(s).value.1 in FIELDS
  {
    if ParseLegacy(s).Some? {
      assert s == s[..|LEGACY_PREFIX|] + s[|LEGACY_PREFIX|..];
      var rest := s[|LEGACY_PREFIX|..];
      var i := LastColon(rest);
      assert rest == rest[..i] + ":" + rest[i + 1..];
    }
  }

  lemma PrefixOfSum(p: string, q: string, rest: string)
    ensures HasPrefix(p + rest, p + q) <==> HasPrefix(rest, q)
  {
    if |q| <= |rest| {
      var head := rest[..|q|];
      assert (p + rest)[..|p + q|] == p + head;
      assert (p + head)[|p|..] == head && (p + q)[|p|..] == q;
    }
  }

  lemma BoundPrefixOfLegacy(context: string, field: string)
    requires field in FIELDS
    ensures HasPrefix(LegacySentinel(context, field), BOUND_PREFIX) <==> context == "v2" || HasPrefix(context, "v2:")
  {
    var s, rest := LegacySentinel(context, field), context + ":" + field;
    FieldsHaveNoColon(field);
    assert BOUND_PREFIX == LEGACY_PREFIX + "v2:";
    assert HasPrefix(s, BOUND_PREFIX) <==> HasPrefix(rest, "v2:") by {
      PrefixOfSum(LEGACY_PREFIX, "v2:", rest);
    }
    if HasPrefix(rest, "v2:") {
      assert rest[0] == 'v' && rest[1] == '2' && rest[2] == ':';
      assert |context| >= 3 ==> context[..3] == rest[..3];
      assert |context| < 3 ==> rest[|context|] == ':';
      assert |context| == 2 ==> context == ['v', '2'];
    }
    if context == "v2" {
      assert rest[..3] == "v2:";
    }
    if HasPrefix(context, "v2:") {
      assert rest[..3] == context[..3];
    }
  }

  /** No string is a reference of both formats. */
  lemma FormatsDisjoint(c: Codec, s: string)
    ensures !(ParseBound(c, s).Some? && ParseLegacy(s).Some?)
  {
  }

  // ---------------------------------------------------------------------------
  // What is digested
  // ---------------------------------------------------------------------------

  const NUL := '\0'

  function Terminated(x: string): string {
    x + [NUL]
  }

  /** bindingDigest hashes the components, each followed by a NUL. */
  function Preimage(b: Binding): string {
    Terminated(b.source) + (Terminated(b.owner) + (Terminated(b.field) + Terminated(b.destination)))
  }

  predicate NulFree(b: Binding) {
    NUL !in b.source && NUL !in b.owner && NUL !in b.field && NUL !in b.destination
  }

  lemma FirstComponent(a: string, x: string, b: string, y: string)
    requires NUL !in a && NUL !in b && Terminated(a) + x == Terminated(b) + y
    ensures a == b && x == y
  {
    var s := Terminated(a) + x;
    assert s[|a|] == NUL && s[|b|] == NUL;
    assert forall j :: 0 <= j < |a| ==> s[j] == a[j] && a[j] in a;
    assert forall j :: 0 <= j < |b| ==> s[j] == b[j] && b[j] in b;
    assert |a| == |b|;
    assert a == s[..|a|] && b == s[..|b|];
    assert x == s[|a| + 1..] && y == s[|b| + 1..];
  }

  /** Bindings without NUL characters are digested from different texts. */
  lemma PreimageInjective(a: Binding, b: Binding)
    requires NulFree(a) && NulFree(b) && Preimage(a) == Preimage(b)
    ensures a == b
  {
    FirstComponent(a.source, Terminated(a.owner) + (Terminated(a.field) + Terminated(a.destination)),
                   b.source, Terminated(b.owner) + (Terminated(b.field) + Terminated(b.destination)));
    FirstComponent(a.owner, Terminated(a.field) + Terminated(a.destination),
                   b.owner, Terminated(b.field) + Terminated(b.destination));
    FirstComponent(a.field, Terminated(a.destination), b.field, Terminated(b.destination));
    assert Terminated(a.destination)[..|a.destination|] == a.destination;
    assert Terminated(b.destination)[..|b.destination|] == b.destination;
    assert |Terminated(a.destination)| == |a.destination| + 1;
  }

  /** With a NUL in a component two bindings share their text. */
  lemma NulMovesTheBoundary(x: string, y: string, z: string, field: string, destination: string)
    ensures Preimage(Binding(x + [NUL] + y, z, field, destination)) ==
              Preimage(Binding(x, y + [NUL] + z, field, destination))
  {
    var rest := Terminated(field) + Terminated(destination);
    assert Terminated(x + [NUL] + y) + (Terminated(z) + rest) == Terminated(x) + (Terminated(y + [NUL] + z) + rest);
  }
}
