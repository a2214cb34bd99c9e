/** Two guards around credentials (internal/config/keychain.go): after overrides no resolved secret
    may go to a destination it was not bound to, and a write may not move a credential to
    another file. */
module CredentialGuards {
  import opened CredentialNames
  import opened Wrappers

  /** A credential field of one copy of an entry; `binding` is computed from the copy as it is now. */
  datatype Slot = Slot(key: Key, binding: nat, local: bool, value: string)

  /** A context sees some slots; `overrides` are the fields its environment sets. */
  datatype View = View(slots: seq<nat>, overrides: set<string>)

  /** The binding a secret was resolved or loaded under, and the secret. */
  datatype Origin = Origin(binding: nat, value: string)

  /** The slot's destination is not the one its secret belongs to. */
  predicate Moved(slot: Slot, origins: map<Key, Origin>) {
    slot.key in origins && origins[slot.key].binding != slot.binding
  }

  /** The secret would be presented to a destination it does not belong to. */
  predicate Exposed(slot: Slot, origins: map<Key, Origin>) {
    Moved(slot, origins) && slot.value != "" && slot.value == origins[slot.key].value
  }

  /** A context looks at one of its slots. */
  datatype Visit = Visit(view: nat, id: nat)

  function Row(i: nat, ids: seq<nat>): (r: seq<Visit>)
    ensures |r| == |ids| && forall s :: 0 <= s < |ids| ==> r[s] == Visit(i, ids[s])
  {
    seq(|ids|, s requires 0 <= s < |ids| => Visit(i, ids[s]))
  }

  /** The visits of the first n contexts, in order. */
  function VisitsOf(views: seq<View>, n: nat): seq<Visit>
    requires n <= |views|
  {
    if n == 0 then [] else VisitsOf(views, n - 1) + Row(n - 1, views[n - 1].slots)
  }

  predicate Known(views: seq<View>, slots: map<nat, Slot>, visits: seq<Visit>) {
    forall v :: v in visits ==> v.view < |views| && v.id in slots
  }

  predicate Overrides(view: View, slot: Slot) {
    slot.key.field in view.overrides
  }

  /** The visit has to do something about the credential: the destination has changed, or the
      environment overrides a credential of a repository. */
  predicate Treats(views: seq<View>, slots: map<nat, Slot>, origins: map<Key, Origin>, v: Visit)
    requires v.view < |views| && v.id in slots
  {
    (slots[v.id].local && Overrides(views[v.view], slots[v.id])) || Moved(slots[v.id], origins)
  }

  /** The first visit that treats the credential. Every later one skips it. */
  function First(views: seq<View>, slots: map<nat, Slot>, origins: map<Key, Origin>, visits: seq<Visit>, k: Key)
    : (r: Option<Visit>)
    requires Known(views, slots, visits)
    ensures r.Some? ==> r.value in visits && slots[r.value.id].key == k && Treats(views, slots, origins, r.value)
    ensures r.None? ==> forall v :: v in visits && slots[v.id].key == k ==> !Treats(views, slots, origins, v)
  {
    if visits == [] then None
    else
      var n := |visits| - 1;
      assert visits == visits[..n] + [visits[n]];
      var earlier := First(views, slots, origins, visits[..n], k);
      if earlier.Some? then earlier
      else if slots[visits[n].id].key == k && Treats(views, slots, origins, visits[n]) then Some(visits[n])
      else None
  }

  /** What a visit that treats a slot leaves of it. */
  function Treated(view: View, slot: Slot, origins: map<Key, Origin>): Slot {
    if slot.local && Overrides(view, slot) then slot.(value := "")
    else if Overrides(view, slot) then slot
    else if slot.value != "" && !(slot.key in origins && slot.value == origins[slot.key].value) then slot
    else slot.(value := "")
  }

  /** What the visits leave of a slot. */
  function Outcome(views: seq<View>, slots: map<nat, Slot>, origins: map<Key, Origin>, visits: seq<Visit>,
                   id: nat): Slot
    requires Known(views, slots, visits) && id in slots
  {
    match First(views, slots, origins, visits, slots[id].key)
    case None => slots[id]
    case Some(v) => if v.id == id then Treated(views[v.view], slots[id], origins) else slots[id]
  }

  /** The loops have made the visits. */
  ghost predicate Enforced(views: seq<View>, before: map<nat, Slot>, after: map<nat, Slot>, origins: map<Key, Origin>,
                           visits: seq<Visit>, processed: set<Key>)
    requires Known(views, before, visits)
  {
    && after.Keys == before.Keys
    && (forall id :: id in before ==> after[id] == Outcome(views, before, origins, visits, id))
    && (forall k :: k in processed <==> First(views, before, origins, visits, k).Some?)
  }

  /** enforceRuntimeCredentialBindings. `views` has the current context first. */
  method EnforceRuntimeBindings(views: seq<View>, before: map<nat, Slot>, origins: map<Key, Origin>)
    returns (after: map<nat, Slot>)
    requires Known(views, before, VisitsOf(views, |views|))
    ensures after.Keys == before.Keys
    ensures forall id :: id in before ==>
              after[id] == Outcome(views, before, origins, VisitsOf(views, |views|), id)
  {
    hide Enforced, Known, Outcome;
    after := before;
    var processed: set<Key> := {};
    KnownParts(views, before, 0, 0);
    NothingVisited(views, before, origins);
    for i := 0 to |views|
      invariant Known(views, before, VisitsOf(views, i))
      invariant Enforced(views, before, after, origins, VisitsOf(views, i), processed)
    {
      ghost var earlier, row := VisitsOf(views, i), Row(i, views[i].slots);
      assert earlier + row[..0] == earlier;
      for s := 0 to |views[i].slots|
        invariant Known(views, before, earlier + row[..s])
        invariant Enforced(views, before, after, origins, earlier + row[..s], processed)
      {
        KnownParts(views, before, i, s + 1);
        assert earlier + row[..s + 1] == earlier + row[..s] + [row[s]];
        after, processed := VisitSlot(views, before, after, origins, earlier + row[..s], processed, i,
                                      views[i].slots[s]);
      }
      assert row[..|row|] == row;
      assert VisitsOf(views, i + 1) == earlier + row;
    }
    Visited(views, before, after, origins, VisitsOf(views, |views|), processed);
  }

  lemma NothingVisited(views: seq<View>, before: map<nat, Slot>, origins: map<Key, Origin>)
    ensures Known(views, before, [])
    ensures Enforced(views, before, before, origins, [], {})
  {
  }

  lemma Visited(views: seq<View>, before: map<nat, Slot>, after: map<nat, Slot>, origins: map<Key, Origin>,
                visits: seq<Visit>, processed: set<Key>)
    requires Known(views, before, visits) && Enforced(views, before, after, origins, visits, processed)
    ensures after.Keys == before.Keys
    ensures forall id :: id in before ==> after[id] == Outcome(views, before, origins, visits, id)
  {
  }

  /** The visits made so far are among all visits. */
  lemma {:induction false} KnownParts(views: seq<View>, slots: map<nat, Slot>, i: nat, s: nat)
    requires Known(views, slots, VisitsOf(views, |views|)) && i <= |views|
    requires s == 0 || (i < |views| && s <= |views[i].slots|)
    ensures Known(views, slots, VisitsOf(views, i))
    ensures i < |views| && s <= |views[i].slots| ==>
              Known(views, slots, VisitsOf(views, i) + Row(i, views[i].slots)[..s])
    decreases |views| - i
  {
    if i < |views| {
      KnownParts(views, slots, i + 1, 0);
      var all := VisitsOf(views, i) + Row(i, views[i].slots);
      assert VisitsOf(views, i + 1) == all;
      assert forall v :: v in VisitsOf(views, i) ==> v in all;
      assert forall v :: v in Row(i, views[i].slots)[..s] ==> v in all;
    }
  }

  lemma FirstOfMore(views: seq<View>, slots: map<nat, Slot>, origins: map<Key, Origin>, visits: seq<Visit>, v: Visit,
                    k: Key)
    requires Known(views, slots, visits) && Known(views, slots, visits + [v])
    ensures v.view < |views| && v.id in slots
    ensures First(views, slots, origins, visits + [v], k) ==
            (var earlier := First(views, slots, origins, visits, k);
             if earlier.Some? then earlier
             else if slots[v.id].key == k && Treats(views, slots, origins, v) then Some(v) else None)
  {
    assert v in visits + [v];
    assert (visits + [v])[..|visits|] == visits;
  }

  /** One turn of the inner loop. */
  method VisitSlot(views: seq<View>, ghost before: map<nat, Slot>, now: map<nat, Slot>, origins: map<Key, Origin>,
                   ghost visits: seq<Visit>, processed: set<Key>, i: nat, id: nat)
    returns (after: map<nat, Slot>, processed': set<Key>)
    requires i < |views| && id in before
    requires Known(views, before, visits) && Known(views, before, visits + [Visit(i, id)])
    requires Enforced(views, before, now, origins, visits, processed)
    ensures Enforced(views, before, after, origins, visits + [Visit(i, id)], processed')
  {
    after, processed' := now, processed;
    ghost var v := Visit(i, id);
    assert now.Keys == before.Keys && (now[id].key !in processed ==> now[id] == before[id])
           && now[id].key == before[id].key by {
      Untreated(views, before, now, origins, visits, processed, id);
    }
    hide First, Known, Enforced;
    var slot := now[id];
    if slot.key in processed {
      SkipVisit(views, before, now, origins, visits, processed, v);
      return;
    }
    var override := slot.key.field in views[i].overrides;
    if slot.local && override {
      after, processed' := now[id := slot.(value := "")], processed + {slot.key};
      TreatVisit(views, before, now, origins, visits, processed, v);
      return;
    }
    if slot.key !in origins || origins[slot.key].binding == slot.binding {
      SkipVisit(views, before, now, origins, visits, processed, v);
      return;
    }
    processed' := processed + {slot.key};
    TreatVisit(views, before, now, origins, visits, processed, v);
    var explicit := override || (slot.value != "" && slot.value != origins[slot.key].value);
    if !explicit {
      after := now[id := slot.(value := "")];
    } else {
      assert now[id := slot] == now;
    }
  }

  lemma Untreated(views: seq<View>, before: map<nat, Slot>, now: map<nat, Slot>, origins: map<Key, Origin>,
                  visits: seq<Visit>, processed: set<Key>, id: nat)
    requires Known(views, before, visits) && Enforced(views, before, now, origins, visits, processed) && id in before
    ensures now.Keys == before.Keys && now[id].key == before[id].key
    ensures now[id].key !in processed ==> now[id] == before[id]
  {
    hide First;
  }

  lemma SkipVisit(views: seq<View>, before: map<nat, Slot>, now: map<nat, Slot>, origins: map<Key, Origin>,
                  visits: seq<Visit>, processed: set<Key>, v: Visit)
    requires Known(views, before, visits) && Known(views, before, visits + [v]) && v.view < |views| && v.id in before
    requires Enforced(views, before, now, origins, visits, processed)
    requires before[v.id].key in processed || !Treats(views, before, origins, v)
    ensures Enforced(views, before, now, origins, visits + [v], processed)
  {
    hide First, Known, Treats;
    forall k ensures First(views, before, origins, visits + [v], k) == First(views, before, origins, visits, k) {
      FirstOfMore(views, before, origins, visits, v, k);
    }
  }

  lemma TreatVisit(views: seq<View>, before: map<nat, Slot>, now: map<nat, Slot>, origins: map<Key, Origin>,
                   visits: seq<Visit>, processed: set<Key>, v: Visit)
    requires Known(views, before, visits) && Known(views, before, visits + [v]) && v.view < |views| && v.id in before
    requires Enforced(views, before, now, origins, visits, processed)
    requires before[v.id].key !in processed && Treats(views, before, origins, v)
    ensures Enforced(views, before, now[v.id := Treated(views[v.view], before[v.id], origins)], origins, visits + [v],
                     processed + {before[v.id].key})
  {
    hide First, Known, Treats, Treated;
    var key := before[v.id].key;
    forall k ensures First(views, before, origins, visits + [v], k)
                     == if k == key then Some(v) else First(views, before, origins, visits, k) {
      FirstOfMore(views, before, origins, visits, v, k);
    }
    forall id | id in before && before[id].key == key ensures now[id] == before[id] {
      assert First(views, before, origins, visits, key).None?;
    }
  }

  // ---------------------------------------------------------------------------
  // What that guarantees
  // ---------------------------------------------------------------------------

  /** A secret stays exposed exactly when it was, and either the first visit that treats its key
      came to another copy, or that visit's environment sets the field on purpose. */
  lemma ExposedExactly(views: seq<View>, slots: map<nat, Slot>, origins: map<Key, Origin>, visits: seq<Visit>, id: nat)
    requires Known(views, slots, visits) && id in slots
    ensures Exposed(Outcome(views, slots, origins, visits, id), origins) <==>
            && Exposed(slots[id], origins)
            && match First(views, slots, origins, visits, slots[id].key)
               case None => true
               case Some(v) => v.id != id || (Overrides(views[v.view], slots[id]) && !slots[id].local)
  {
    hide First;
  }

  /** The first copy that any context sees moved, or overridden in a repository, is never left
      exposed, unless the environment set it; in particular a credential with one copy is safe. */
  lemma FirstCopyIsSafe(views: seq<View>, slots: map<nat, Slot>, origins: map<Key, Origin>, visits: seq<Visit>, id: nat)
    requires Known(views, slots, visits) && id in slots && (exists v :: v in visits && v.id == id)
    requires forall v :: v in visits && slots[v.id].key == slots[id].key && v.id != id ==>
              && !(slots[v.id].local && slots[v.id].key.field in views[v.view].overrides)
              && !(slots[v.id].key in origins && origins[slots[v.id].key].binding != slots[v.id].binding)
    requires var after := Outcome(views, slots, origins, visits, id);
             && after.key in origins && after.binding != origins[after.key].binding
             && after.value == origins[after.key].value != ""
    ensures !slots[id].local
    ensures exists v :: v in visits && v.id == id && slots[id].key.field in views[v.view].overrides
  {
    hide First;
    ExposedExactly(views, slots, origins, visits, id);
    var seen :| seen in visits && seen.id == id;
    assert Treats(views, slots, origins, seen);
    var first := First(views, slots, origins, visits, slots[id].key);
    assert first.Some?;
  }

  /** An override that changes one copy only, as one for the selected context does, leaves no copy
      exposed, unless the environment set the secret. */
  lemma OneChangedCopyIsSafe(views: seq<View>, loaded: map<nat, Slot>, slots: map<nat, Slot>, origins: map<Key, Origin>,
                             visits: seq<Visit>, id: nat, other: nat)
    requires Known(views, slots, visits) && id in slots && other in slots && slots[other].key == slots[id].key
    requires exists v :: v in visits && v.id == id
    requires forall j :: j in loaded && loaded[j].key in origins ==> loaded[j].binding == origins[loaded[j].key].binding
    requires forall j :: j in slots && j != id ==> j in loaded && slots[j] == loaded[j]
    requires forall v :: v in visits && slots[v.id].key.field in views[v.view].overrides ==> v.id == id
    requires var after := Outcome(views, slots, origins, visits, other);
             && after.key in origins && after.binding != origins[after.key].binding
             && after.value == origins[after.key].value != ""
    ensures other == id && !slots[id].local
    ensures exists v :: v in visits && v.id == id && slots[id].key.field in views[v.view].overrides
  {
    hide First;
    ExposedExactly(views, slots, origins, visits, other);
    assert Moved(slots[other], origins);
    assert other == id;
    FirstCopyIsSafe(views, slots, origins, visits, id);
  }

  /** Nothing else is taken away. */
  lemma ClearedRightly(views: seq<View>, slots: map<nat, Slot>, origins: map<Key, Origin>, visits: seq<Visit>, id: nat)
    requires Known(views, slots, visits) && id in slots
    requires Outcome(views, slots, origins, visits, id) != slots[id]
    ensures Outcome(views, slots, origins, visits, id) == slots[id].(value := "")
    ensures || (slots[id].key in origins && slots[id].binding != origins[slots[id].key].binding
                && slots[id].value == origins[slots[id].key].value)
            || (slots[id].local
                && exists v :: v in visits && v.id == id && slots[id].key.field in views[v.view].overrides)
  {
    hide First;
    var v := First(views, slots, origins, visits, slots[id].key).value;
    assert v in visits && v.id == id;
  }

  /** What a single visit to a credential does, for every copy, environment and origin: an override
      of a repository's credential and a secret that its destination has left are taken away, and
      everything else stays. */
  lemma SoleVisit(views: seq<View>, slots: map<nat, Slot>, origins: map<Key, Origin>, visits: seq<Visit>, v: Visit)
    requires Known(views, slots, visits) && v in visits
    requires forall w :: w in visits && slots[w.id].key == slots[v.id].key ==> w == v
    ensures var slot, after := slots[v.id], Outcome(views, slots, origins, visits, v.id);
            var override := slot.key.field in views[v.view].overrides;
            after == slot.(value :=
              if slot.local && override then ""
              else if !override && slot.key in origins && origins[slot.key].binding != slot.binding
                      && slot.value == origins[slot.key].value then ""
              else slot.value)
  {
    hide First;
    var first := First(views, slots, origins, visits, slots[v.id].key);
    assert first.Some? ==> first.value == v;
  }

  /** With two moved copies of one credential, which takes an override that changes both, the second
      one stays exposed. */
  lemma SecondCopyStaysExposed(k: Key, secret: string, old_: nat, first: nat, second: nat)
    requires secret != "" && first != old_ && second != old_
    ensures var slots := map[0 := Slot(k, first, false, secret), 1 := Slot(k, second, false, secret)];
            var views := [View([0], {}), View([1], {})];
            var origins := map[k := Origin(old_, secret)];
            var visits := [Visit(0, 0), Visit(1, 1)];
            && VisitsOf(views, 2) == visits && Known(views, slots, visits)
            && Outcome(views, slots, origins, visits, 0).value == ""
            && Exposed(Outcome(views, slots, origins, visits, 1), origins)
  {
    var slots := map[0 := Slot(k, first, false, secret), 1 := Slot(k, second, false, secret)];
    var views := [View([0], {}), View([1], {})];
    var origins := map[k := Origin(old_, secret)];
    assert Exposed(slots[0], origins) && Exposed(slots[1], origins);
    TwoRows(views[0], views[1], 0, 1);
    hide VisitsOf, Exposed, Outcome;
    SecondOfTwo(views, slots, origins, Visit(0, 0), Visit(1, 1));
  }

  lemma SecondOfTwo(views: seq<View>, slots: map<nat, Slot>, origins: map<Key, Origin>, v: Visit, w: Visit)
    requires Known(views, slots, [v, w]) && v.view < |views| && v.id in slots && w.id in slots && v.id != w.id
    requires slots[v.id].key == slots[w.id].key && !slots[v.id].local && !Overrides(views[v.view], slots[v.id])
    requires Exposed(slots[v.id], origins) && Exposed(slots[w.id], origins)
    ensures Outcome(views, slots, origins, [v, w], v.id).value == ""
    ensures Exposed(Outcome(views, slots, origins, [v, w], w.id), origins)
  {
    FirstOfTwo(views, slots, origins, v, w);
    hide First;
  }

  lemma TwoRows(a: View, b: View, i: nat, j: nat)
    requires a.slots == [i] && b.slots == [j]
    ensures VisitsOf([a, b], 2) == [Visit(0, i), Visit(1, j)]
  {
    var views := [a, b];
    assert VisitsOf(views, 0) == [];
    assert VisitsOf(views, 1) == [] + Row(0, views[0].slots);
    assert VisitsOf(views, 2) == VisitsOf(views, 1) + Row(1, views[1].slots);
    hide VisitsOf;
  }

  lemma FirstOfTwo(views: seq<View>, slots: map<nat, Slot>, origins: map<Key, Origin>, v: Visit, w: Visit)
    requires Known(views, slots, [v, w]) && v.view < |views| && v.id in slots && Treats(views, slots, origins, v)
    ensures First(views, slots, origins, [v, w], slots[v.id].key) == Some(v)
  {
    hide Treats;
    var k := slots[v.id].key;
    assert [] + [v] == [v] && [v] + [w] == [v, w];
    FirstOfMore(views, slots, origins, [], v, k);
    FirstOfMore(views, slots, origins, [v], w, k);
    hide First;
  }

  // ---------------------------------------------------------------------------
  // prepareConfigSourceForWrite
  // ---------------------------------------------------------------------------

  /** A mutation recorded for an entry goes with it when its source becomes the target. */
  function Rekeyed(k: Key, owners: map<string, string>, moving: set<string>, target: string): Key {
    if k.owner in moving && k.owner in owners && k.source == owners[k.owner] then k.(source := target) else k
  }

  function RekeyedSet(mutations: set<Key>, owners: map<string, string>, moving: set<string>, target: string): set<Key> {
    set k | k in mutations :: Rekeyed(k, owners, moving, target)
  }

  /** Refuses, with everything untouched, exactly when an entry of another file carries a
      credential; an entry without a source of its own may carry one. Otherwise every entry belongs
      to the target, and so do its mutations. `owners` maps each entry to its source. */
  method PrepareSource(owners: map<string, string>, carrying: set<string>, mutations: set<Key>, target: string)
    returns (ok: bool, owners': map<string, string>, mutations': set<Key>)
    ensures ok <==> forall o :: o in owners && o in carrying ==> owners[o] == "" || owners[o] == target
    ensures !ok ==> owners' == owners && mutations' == mutations
    ensures ok ==> owners'.Keys == owners.Keys && forall o :: o in owners' ==> owners'[o] == target
    ensures ok ==> forall k: Key ::
              k in mutations' <==>
              || (k in mutations && !(k.owner in owners && k.source == owners[k.owner] != target))
              || (k.source == target && k.owner in owners && k.(source := owners[k.owner]) in mutations)
  {
    hide RekeyedSet;
    var misplaced := AnyMisplaced(owners, carrying, target);
    if misplaced {
      return false, owners, mutations;
    }
    owners', mutations' := MoveAll(owners, mutations, target);
    RekeyedExactly(mutations, owners, target);
    ok := true;
  }

  /** After the move a mutation is one that did not move, or one that did under its new source. */
  lemma RekeyedExactly(mutations: set<Key>, owners: map<string, string>, target: string)
    ensures forall k: Key ::
              k in RekeyedSet(mutations, owners, Moving(owners, target), target) <==>
              || (k in mutations && !(k.owner in owners && k.source == owners[k.owner] != target))
              || (k.source == target && k.owner in owners && k.(source := owners[k.owner]) in mutations)
  {
    var all := RekeyedSet(mutations, owners, Moving(owners, target), target);
    forall k: Key
      ensures k in all <==>
              || (k in mutations && !(k.owner in owners && k.source == owners[k.owner] != target))
              || (k.source == target && k.owner in owners && k.(source := owners[k.owner]) in mutations)
    {
      if k in mutations && !(k.owner in owners && k.source == owners[k.owner] != target) {
        assert Rekeyed(k, owners, Moving(owners, target), target) == k;
      } else if k.source == target && k.owner in owners && k.(source := owners[k.owner]) in mutations {
        assert Rekeyed(k.(source := owners[k.owner]), owners, Moving(owners, target), target) == k;
      }
    }
  }

  method AnyMisplaced(owners: map<string, string>, carrying: set<string>, target: string) returns (found: bool)
    ensures found <==> exists o :: o in owners && o in carrying && owners[o] != "" && owners[o] != target
  {
    var left := owners.Keys;
    while left != {}
      invariant left <= owners.Keys
      invariant forall o :: o in owners && o in carrying && o !in left ==> owners[o] == "" || owners[o] == target
    {
      var o :| o in left;
      left := left - {o};
      if owners[o] != target && owners[o] != "" && o in carrying {
        return true;
      }
    }
    return false;
  }

  method MoveAll(owners: map<string, string>, mutations: set<Key>, target: string)
    returns (owners': map<string, string>, mutations': set<Key>)
    ensures owners'.Keys == owners.Keys && forall o :: o in owners' ==> owners'[o] == target
    ensures mutations' == RekeyedSet(mutations, owners, Moving(owners, target), target)
  {
    hide RekeyedSet;
    owners', mutations' := owners, mutations;
    var updates := Moving(owners, target);
    ghost var moved: set<string> := {};
    NothingMoved(mutations, owners, target);
    while updates != {}
      invariant updates <= Moving(owners, target) && moved == Moving(owners, target) - updates
      invariant owners'.Keys == owners.Keys
      invariant forall o :: o in owners ==> owners'[o] == if o in moved then target else owners[o]
      invariant mutations' == RekeyedSet(mutations, owners, moved, target)
    {
      var o :| o in updates;
      updates := updates - {o};
      var mine := set k | k in mutations' && k.source == owners[o] && k.owner == o;
      MoveOne(mutations, owners, moved, target, o);
      mutations' := mutations' - mine + (set k | k in mine :: k.(source := target));
      owners' := owners'[o := target];
      moved := moved + {o};
    }
    assert moved == Moving(owners, target);
  }

  function Moving(owners: map<string, string>, target: string): set<string> {
    set o | o in owners && owners[o] != target
  }

  lemma NothingMoved(mutations: set<Key>, owners: map<string, string>, target: string)
    ensures RekeyedSet(mutations, owners, {}, target) == mutations
  {
    assert forall k :: Rekeyed(k, owners, {}, target) == k;
    assert forall k :: k in mutations ==> Rekeyed(k, owners, {}, target) in RekeyedSet(mutations, owners, {}, target);
  }

  /** One entry moves: exactly its own mutations are re-keyed. */
  lemma MoveOne(mutations: set<Key>, owners: map<string, string>, moved: set<string>, target: string, o: string)
    requires o in owners && owners[o] != target && o !in moved
    ensures var now := RekeyedSet(mutations, owners, moved, target);
            var mine := set k | k in now && k.source == owners[o] && k.owner == o;
            RekeyedSet(mutations, owners, moved + {o}, target) ==
              now - mine + (set k | k in mine :: k.(source := target))
  {
    var now, then_ := RekeyedSet(mutations, owners, moved, target), RekeyedSet(mutations, owners, moved + {o}, target);
    var mine := set k | k in now && k.source == owners[o] && k.owner == o;
    var next := now - mine + (set k | k in mine :: k.(source := target));
    forall k | k in mutations
      ensures Rekeyed(k, owners, moved + {o}, target) in next
    {
      var was, to := Rekeyed(k, owners, moved, target), Rekeyed(k, owners, moved + {o}, target);
      assert was in now;
      if was in mine {
        assert to == was.(source := target);
      } else {
        assert to == was;
      }
    }
    forall x | x in next ensures x in then_ {
      var k :| k in now && (if k in mine then x == k.(source := target) else x == k);
      var m :| m in mutations && Rekeyed(m, owners, moved, target) == k;
      assert Rekeyed(m, owners, moved + {o}, target) == x;
    }
  }
}
