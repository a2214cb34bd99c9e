/** Cloud auth entries on login (internal/config/cloud_login.go): copy-on-write over entries that
    several contexts may share. */
module CloudEntries {
  import opened Wrappers
  import opened EntryNames
  import opened SortedStrings

  /** A credential field: text, or a reference into the credential store. */
  datatype Secret = Text(text: string) | Ref(account: nat)

  datatype Entry = Entry(token: Secret, oauthToken: Secret, expiresAt: string, scopes: seq<string>, oauthUrl: string,
                         apiUrl: string)

  const NONE := Text("")

  const EMPTY := Entry(NONE, NONE, "", [], "", "")

  /** What the store makes of a field; a reference it cannot resolve reads as empty. */
  function Resolved(s: Secret, store: map<nat, string>): Secret {
    match s
    case Text(_) => s
    case Ref(a) => if a in store then Text(store[a]) else NONE
  }

  function ResolvedEntry(e: Entry, store: map<nat, string>): Entry {
    e.(token := Resolved(e.token, store), oauthToken := Resolved(e.oauthToken, store))
  }

  function Canon(e: Entry): Entry {
    e.(scopes := Canonical(e.scopes))
  }

  /** The complete credential and destination of an entry. */
  function Tuple(e: Entry, store: map<nat, string>): Entry {
    Canon(ResolvedEntry(e, store))
  }

  // ---------------------------------------------------------------------------
  // MergeCloudInto
  // ---------------------------------------------------------------------------

  function Merge(existing: Option<Entry>, incoming: Entry): Entry {
    var e0 := if existing.Some? then existing.value else EMPTY;
    var e1 := if incoming.token != NONE
              then e0.(token := incoming.token, oauthToken := NONE, expiresAt := "", scopes := [])
              else e0;
    var e2 := if incoming.oauthToken != NONE then
                e1.(oauthToken := incoming.oauthToken, expiresAt := incoming.expiresAt,
                    scopes := Canonical(incoming.scopes), token := NONE)
              else e1;
    var e3 := if incoming.oauthUrl != "" then e2.(oauthUrl := incoming.oauthUrl) else e2;
    if incoming.apiUrl != "" then e3.(apiUrl := incoming.apiUrl) else e3
  }

  /** The incoming credential replaces whatever there was: one credential is left, with nothing of
      the other method's, an OAuth one with its expiry and its scopes. An endpoint is the incoming
      one, or else stays. Merging again changes nothing. */
  lemma MergeLeavesOneCredential(existing: Option<Entry>, incoming: Entry)
    ensures var m := Merge(existing, incoming);
            && (incoming.token != NONE || incoming.oauthToken != NONE ==> m.token == NONE || m.oauthToken == NONE)
            && (incoming.oauthToken != NONE ==>
                  && m.oauthToken == incoming.oauthToken && m.token == NONE && m.expiresAt == incoming.expiresAt
                  && Increasing(m.scopes) && Members(m.scopes) == Members(incoming.scopes))
            && (incoming.token != NONE && incoming.oauthToken == NONE ==>
                  m.token == incoming.token && m.oauthToken == NONE && m.expiresAt == "" && m.scopes == [])
            && Merge(Some(m), incoming) == m
            && (existing.Some? && incoming.token == NONE && incoming.oauthToken == NONE ==>
                  m == existing.value.(oauthUrl := m.oauthUrl, apiUrl := m.apiUrl))
            && (existing.None? && incoming.token == NONE && incoming.oauthToken == NONE ==>
                  m.token == NONE && m.oauthToken == NONE && m.expiresAt == "" && m.scopes == [])
    ensures var m := Merge(existing, incoming);
            && m.apiUrl == (if incoming.apiUrl != "" then incoming.apiUrl
                            else if existing.Some? then existing.value.apiUrl else "")
            && m.oauthUrl == (if incoming.oauthUrl != "" then incoming.oauthUrl
                              else if existing.Some? then existing.value.oauthUrl else "")
  {
    CanonicalSorted(incoming.scopes);
  }

  // ---------------------------------------------------------------------------
  // sameCloudEntry
  // ---------------------------------------------------------------------------

  function Same(existing: Entry, desired: Entry, store: map<nat, string>): bool {
    Tuple(existing, store) == Canon(desired)
  }

  /** Two entries are taken for the same exactly when the credentials, as far as they can be read,
      the expiry and the endpoints are equal and the scopes are the same set. */
  lemma SameExactly(existing: Entry, desired: Entry, store: map<nat, string>)
    ensures Same(existing, desired, store) <==>
            && desired.token == (match existing.token
                                 case Text(_) => existing.token
                                 case Ref(a) => Text(if a in store then store[a] else ""))
            && desired.oauthToken == (match existing.oauthToken
                                      case Text(_) => existing.oauthToken
                                      case Ref(a) => Text(if a in store then store[a] else ""))
            && existing.expiresAt == desired.expiresAt && existing.oauthUrl == desired.oauthUrl
            && existing.apiUrl == desired.apiUrl && Members(existing.scopes) == Members(desired.scopes)
  {
    CanonicalForm(existing.scopes, desired.scopes);
  }

  /** A reference that cannot be resolved compares different exactly when the desired field is not
      empty; an entry with such a field is taken for the desired one when that field is. */
  lemma UnresolvedComparesEmpty(existing: Entry, desired: Entry, store: map<nat, string>)
    ensures existing.token.Ref? && existing.token.account !in store ==>
              (Same(existing, desired, store) <==>
               desired.token == NONE && Same(existing.(token := NONE), desired, store))
    ensures existing.oauthToken.Ref? && existing.oauthToken.account !in store ==>
              (Same(existing, desired, store) <==>
               desired.oauthToken == NONE && Same(existing.(oauthToken := NONE), desired, store))
  {
  }

  /** So a failed resolution does not always mean "different": an entry whose token cannot be read
      is taken for one that has the same endpoints and no credential at all. */
  lemma UnresolvedCanCompareSame(apiUrl: string, oauthUrl: string, account: nat, store: map<nat, string>)
    requires account !in store
    ensures var desired := EMPTY.(apiUrl := apiUrl, oauthUrl := oauthUrl);
            && Same(desired.(token := Ref(account)), desired, store)
            && Same(desired.(oauthToken := Ref(account)), desired, store)
  {
  }

  datatype Safety = Safety(shared: bool, reserved: seq<string>, foreign: seq<string>)

  // ---------------------------------------------------------------------------
  // The config
  // ---------------------------------------------------------------------------

  /** `contexts` maps each context to the name of its entry ("" for none). */
  class CloudConfig {
    var cloud: map<string, Entry>
    const contexts: map<string, string>
    const store: map<nat, string>

    constructor (entries: map<string, Entry>, refs: map<string, string>, secrets: map<nat, string>)
      ensures cloud == entries && contexts == refs && store == secrets
    {
      cloud, contexts, store := entries, refs, secrets;
    }

    /** What a context sees of its entry, if its reference leads anywhere. */
    function Sees(entries: map<string, Entry>, context: string): Option<Entry>
    {
      if context in contexts && contexts[context] != "" && contexts[context] in entries then
        Some(Tuple(entries[contexts[context]], store))
      else None
    }

    /** `name` is bound to the desired credential and destination. */
    predicate Bound(entries: map<string, Entry>, name: string, desired: Entry)
    {
      name in entries && (Same(entries[name], desired, store) || entries[name] == Canon(desired))
    }

    /** Every context but the given one that saw an entry sees an equal one. */
    ghost predicate OthersKept(before: map<string, Entry>, after: map<string, Entry>, context: string)
    {
      forall c :: c in contexts && c != context && Sees(before, c).Some? ==> Sees(after, c) == Sees(before, c)
    }

    /** What a bound entry holds: the desired credential as far as it can be read, or as it is, and
        the desired destination. */
    lemma BoundSays(entries: map<string, Entry>, name: string, desired: Entry)
      requires Bound(entries, name, desired)
      ensures name in entries
      ensures var e := entries[name];
              && e.expiresAt == desired.expiresAt && e.oauthUrl == desired.oauthUrl && e.apiUrl == desired.apiUrl
              && Members(e.scopes) == Members(desired.scopes)
              && (desired.token == e.token
                  || (e.token.Ref?
                      && desired.token == Text(if e.token.account in store then store[e.token.account] else "")))
              && (desired.oauthToken == e.oauthToken
                  || (e.oauthToken.Ref?
                      && desired.oauthToken
                         == Text(if e.oauthToken.account in store then store[e.oauthToken.account] else "")))
    {
      SameExactly(entries[name], desired, store);
      CanonicalSorted(desired.scopes);
    }

    /** What it means for the other contexts that they see what they saw. */
    lemma KeptSays(before: map<string, Entry>, after: map<string, Entry>, context: string, c: string)
      requires OthersKept(before, after, context) && c in contexts && c != context
      requires contexts[c] != "" && contexts[c] in before
      ensures contexts[c] in after
      ensures var was, now := before[contexts[c]], after[contexts[c]];
              && now.expiresAt == was.expiresAt && now.oauthUrl == was.oauthUrl && now.apiUrl == was.apiUrl
              && Members(now.scopes) == Members(was.scopes)
              && (was.token.Text? && now.token.Text? ==> now.token == was.token)
              && (was.token.Ref? && was.token.account in store && now.token.Text? ==>
                    now.token.text == store[was.token.account])
              && (was.oauthToken.Text? && now.oauthToken.Text? ==> now.oauthToken == was.oauthToken)
              && (was.oauthToken.Ref? && was.oauthToken.account in store && now.oauthToken.Text? ==>
                    now.oauthToken.text == store[was.oauthToken.account])
    {
      assert Sees(before, c).Some? && Sees(after, c) == Sees(before, c);
      CanonicalForm(before[contexts[c]].scopes, after[contexts[c]].scopes);
    }

    /** ResolveContext: the context's own entry, in place. */
    method ResolveContext(context: string)
      modifies this
      ensures cloud.Keys == old(cloud).Keys
      ensures context !in contexts || contexts[context] == "" ==> cloud == old(cloud)
      ensures forall n :: n in cloud ==> cloud[n] == old(cloud)[n] || cloud[n] == ResolvedEntry(old(cloud)[n], store)
      ensures forall n :: n in cloud ==> Tuple(cloud[n], store) == Tuple(old(cloud)[n], store)
      ensures context in contexts && contexts[context] != "" && contexts[context] in cloud ==>
                cloud[contexts[context]] == ResolvedEntry(old(cloud)[contexts[context]], store)
    {
      if context in contexts && contexts[context] != "" && contexts[context] in cloud {
        var name := contexts[context];
        cloud := cloud[name := ResolvedEntry(cloud[name], store)];
      }
    }

    method SetEntry(name: string, e: Entry)
      modifies this
      ensures cloud == old(cloud)[name := Canon(e)]
    {
      cloud := cloud[name := e.(scopes := Canonical(e.scopes))];
    }

    /** availableIsolatedCloudEntryName. The search ends: its names are pairwise different, and
        only finitely many are reserved or taken. */
    method AvailableIsolatedName(base: string, desired: Entry, reserved: seq<string>) returns (name: string)
      ensures name !in reserved && (name !in cloud || Same(cloud[name], desired, store)) && |name| >= |base|
      ensures exists i :: i >= 1 && name == NameAt(base, i)
                          && forall j :: 1 <= j < i ==> NameAt(base, j) in reserved
                                                        || (NameAt(base, j) in cloud
                                                            && !Same(cloud[NameAt(base, j)], desired, store))
    {
      ghost var taken := (set n | n in reserved) + cloud.Keys;
      var i: nat := 1;
      TriedCount(base, 1);
      while true
        invariant i >= 1 && Tried(base, i) <= taken && |Tried(base, i)| == i - 1
        invariant forall j :: 1 <= j < i ==>
          NameAt(base, j) in reserved || (NameAt(base, j) in cloud && !Same(cloud[NameAt(base, j)], desired, store))
        decreases |taken| + 1 - i
      {
        name := base;
        if i > 1 {
          name := base + "-" + Decimal(i);
        }
        assert name == NameAt(base, i);
        if name !in reserved && (name !in cloud || Same(cloud[name], desired, store)) {
          return;
        }
        OneMoreTried(base, i, taken);
        i := i + 1;
      }
    }

    /** availableCloudEntryName. */
    method AvailableName(base: string, desired: Entry) returns (name: string)
      ensures name !in cloud || Same(cloud[name], desired, store)
      ensures |name| >= |base|
    {
      name := AvailableIsolatedName(base, desired, []);
    }

    method EnsureUnbound(entry: Entry, context: string, base: string, safety: Safety)
      returns (name: string, ghost desired: Entry)
      modifies this
      ensures Bound(cloud, name, desired) && OthersKept(old(cloud), cloud, context)
      ensures desired == entry || (base in old(cloud) && desired == Merge(Some(old(cloud)[base]), entry))
      ensures name in safety.reserved ==> name == base && base in old(cloud) && Same(old(cloud)[base], desired, store)
      ensures base in safety.foreign ==> desired == entry && name != base
      ensures cloud == old(cloud) || (cloud == old(cloud)[name := Canon(desired)]
                                      && (name in old(cloud) ==> Same(old(cloud)[name], desired, store)))
    {
      desired := entry;
      if base in safety.foreign {
        name := AvailableIsolatedName(base + "-" + context, entry, safety.reserved);
        SetEntry(name, entry);
        SetFree(old(cloud), name, entry, context);
        return;
      }
      if base in cloud {
        desired := Merge(Some(cloud[base]), entry);
        var merged := Merge(Some(cloud[base]), entry);
        if Same(cloud[base], merged, store) {
          return base, desired;
        }
        name := AvailableIsolatedName(base + "-" + context, merged, safety.reserved);
        if name !in cloud {
          SetEntry(name, merged);
          SetFree(old(cloud), name, merged, context);
        }
        return;
      }
      if base in safety.reserved {
        name := AvailableIsolatedName(base + "-" + context, entry, safety.reserved);
        SetEntry(name, entry);
        SetFree(old(cloud), name, entry, context);
        return;
      }
      name := base;
      SetEntry(base, entry);
      SetFree(old(cloud), base, entry, context);
    }

    /** Writing a name that is free, or that holds the desired entry already. */
    lemma SetFree(before: map<string, Entry>, name: string, desired: Entry, context: string)
      requires name !in before || Same(before[name], desired, store)
      ensures Bound(before[name := Canon(desired)], name, desired)
      ensures OthersKept(before, before[name := Canon(desired)], context)
    {
      hide Canonical;
      if name in before {
        SameIsResolved(before[name], desired, store);
      }
    }

    /** cloudEntryRefCount. */
    method RefCount(name: string) returns (count: nat)
      ensures count == |Referring(name)|
    {
      var left := contexts.Keys;
      ghost var found: set<string> := {};
      count := 0;
      while left != {}
        invariant left <= contexts.Keys && count == |found|
        invariant forall c :: c in found <==> c in contexts && c !in left && contexts[c] == name
      {
        var c :| c in left;
        left := left - {c};
        if contexts[c] == name {
          count := count + 1;
          found := found + {c};
        }
      }
      assert found == Referring(name);
    }

    function Referring(name: string): set<string> {
      set c | c in contexts && contexts[c] == name
    }

    method EnsureBound(existingRef: string, entry: Entry, context: string, safety: Safety)
      returns (name: string, ghost desired: Entry)
      requires existingRef != "" && context in contexts && contexts[context] == existingRef
      modifies this
      ensures Bound(cloud, name, desired) && OthersKept(old(cloud), cloud, context)
      ensures desired == if existingRef in old(cloud) then Merge(Some(old(cloud)[existingRef]), entry) else entry
      ensures safety.shared && existingRef in old(cloud) && !Same(old(cloud)[existingRef], desired, store) ==>
                name !in safety.reserved
      ensures existingRef in old(cloud) && Same(old(cloud)[existingRef], desired, store) ==>
                name == existingRef && cloud == old(cloud)
      ensures existingRef in old(cloud) && name == existingRef && !Same(old(cloud)[existingRef], desired, store) ==>
                !safety.shared && Referring(existingRef) == {context}
      ensures name != existingRef && existingRef in old(cloud) ==>
                existingRef in cloud && cloud[existingRef] == old(cloud)[existingRef]
    {
      desired := entry;
      if existingRef !in cloud {
        SetEntry(existingRef, entry);
        SetFree(old(cloud), existingRef, entry, context);
        return existingRef, desired;
      }
      var merged := Merge(Some(cloud[existingRef]), entry);
      desired := merged;
      if Same(cloud[existingRef], merged, store) {
        return existingRef, desired;
      }
      if safety.shared {
        name := AvailableIsolatedName(existingRef + "-" + context, merged, safety.reserved);
        SetEntry(name, merged);
        SetFree(old(cloud), name, merged, context);
        return;
      }
      var count := RefCount(existingRef);
      if count <= 1 {
        SetEntry(existingRef, merged);
        OnlyOwner(existingRef, context);
        return existingRef, desired;
      }
      name := AvailableName(existingRef + "-" + context, merged);
      if name !in cloud {
        SetEntry(name, merged);
        SetFree(old(cloud), name, merged, context);
      }
    }

    /** An entry referenced once, by the context itself, is nobody else's. */
    lemma OnlyOwner(name: string, context: string)
      requires context in contexts && contexts[context] == name && |Referring(name)| <= 1
      ensures Referring(name) == {context}
      ensures forall c :: c in contexts && c != context ==> contexts[c] != name
    {
      forall c | c in contexts && c != context ensures contexts[c] != name {
        assert contexts[c] == name ==> Referring(name) == {c, context} + (Referring(name) - {c, context});
      }
    }

    /** EnsureCloudEntryWithSafety, with the context's own entry name and `base` the name made from
        the API host. The name returned is bound to the desired credential and destination, and
        every other context goes on seeing what it saw. */
    method EnsureCloudEntryWithSafety(existingRef: string, entry: Entry, context: string, base: string, safety: Safety)
      returns (name: string, ghost desired: Entry)
      requires existingRef == if context in contexts then contexts[context] else ""
      modifies this
      ensures Bound(cloud, name, desired)
      ensures OthersKept(old(cloud), cloud, context)
      ensures existingRef in old(cloud) && existingRef != "" ==>
                desired == Merge(Some(ResolvedEntry(old(cloud)[existingRef], store)), entry)
      ensures existingRef !in old(cloud) && existingRef != "" ==> desired == entry
      ensures existingRef == "" ==>
                desired == entry || (base in old(cloud) && desired == Merge(Some(old(cloud)[base]), entry))
      // An entry that another context or another layer relies on is not changed.
      ensures existingRef in old(cloud) && existingRef != "" ==>
                var own := ResolvedEntry(old(cloud)[existingRef], store);
                && existingRef in cloud
                && (name != existingRef || Same(own, desired, store) ==> cloud[existingRef] == own)
                && (name == existingRef && !Same(own, desired, store) ==>
                      !safety.shared && Referring(existingRef) == {context})
                && (safety.shared && !Same(own, desired, store) ==> name !in safety.reserved)
      // A name that means something else in another layer is neither merged with nor taken.
      ensures existingRef == "" && base in safety.foreign ==>
                desired == entry && name != base && name !in safety.reserved
                && (base in old(cloud) ==> base in cloud && cloud[base] == old(cloud)[base])
      ensures existingRef == "" && name in safety.reserved ==>
                name == base && base in old(cloud) && Same(old(cloud)[base], desired, store)
      ensures existingRef == "" ==>
                cloud == old(cloud) || (cloud == old(cloud)[name := Canon(desired)]
                                        && (name in old(cloud) ==> Same(old(cloud)[name], desired, store)))
    {
      ResolveContext(context);
      ghost var resolved := cloud;
      if existingRef == "" {
        name, desired := EnsureUnbound(entry, context, base, safety);
      } else {
        name, desired := EnsureBound(existingRef, entry, context, safety);
      }
      hide Tuple, Bound, Same, Canon, Merge, Referring;
      assert forall c :: Sees(resolved, c) == Sees(old(cloud), c);
    }
  }

  lemma OneMoreTried(base: string, i: nat, taken: set<string>)
    requires i >= 1 && Tried(base, i) <= taken && NameAt(base, i) in taken
    ensures Tried(base, i + 1) <= taken && |Tried(base, i + 1)| == i && |taken| >= i
  {
    TriedCount(base, i + 1);
    TriedOneMore(base, i);
    hide Tried, NameAt;
    SubsetSize(Tried(base, i + 1), taken);
  }

  /** An entry that is the same as the desired one resolves to it. */
  lemma SameIsResolved(existing: Entry, desired: Entry, store: map<nat, string>)
    requires Same(existing, desired, store)
    ensures Tuple(existing, store) == Tuple(Canon(desired), store)
    ensures desired.token.Text? && desired.oauthToken.Text?
  {
    CanonicalForm(desired.scopes, desired.scopes);
  }
}
