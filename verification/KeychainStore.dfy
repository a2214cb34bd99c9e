/** The two stores a config write changes: the credential store and the config file. Every
    call can fail. A ghost history records the pair after every change, so that a property of
    the history holds wherever the process stops. */
module KeychainStore {
  import opened CredentialNames
  import opened Wrappers

  /** A generation-addressed account: its name and its reference are made from its binding and a
      random generation. */
  datatype Account = Account(binding: Binding, generation: string) {
    function Name(c: Codec): string {
      BoundAccount(c, binding, generation)
    }

    function Reference(c: Codec): string {
      BoundSentinel(c, binding, generation)
    }
  }

  /** What a secret field holds: nothing, a secret, a bound (v2) reference to an account, or
      another reference (legacy or malformed). */
  datatype Value = Empty | Plain(text: string) | Bound(account: Account) | OtherRef(text: string)

  /** A secret field as a document holds it, with the binding of the entry around it. */
  datatype Cell = Cell(binding: Binding, value: Value)

  datatype Document = Absent | Document(version: nat, cells: map<Key, Cell>)

  datatype StoreError = Disabled | Unavailable | Locked | OtherError

  datatype GetResult = Found(value: Value) | NotFound | GetFailed(error: StoreError)

  datatype DeleteResult = Deleted | WasMissing | DeleteFailed(error: StoreError)

  /** What a store call did to an account: what it reported (Done), or something else. A Set can
      report success and have stored another value, or report failure and have stored one all the
      same; a Delete can fail. A failing Set without effect is Quiet, like the calls that do not
      touch the store. */
  datatype Call = Quiet | Done(account: Account) | Garbled(account: Account) | Applied(account: Account)
                | Undeleted(account: Account)
  {
    predicate On(a: Account) {
      !Quiet? && account == a
    }

    predicate Faulty() {
      Garbled? || Applied? || Undeleted?
    }
  }

  /** The two stores after one change, and the call that made it. */
  datatype Snapshot = Snapshot(store: map<Account, Value>, exposed: set<Document>, call: Call)

  /** The field's own bound reference: one whose digest matches the entry around it. */
  predicate OwnRef(cell: Cell) {
    cell.value.Bound? && cell.value.account.binding == cell.binding && cell.binding.Valid()
  }

  /** A field's reference is its own exactly when it opens an account for the entry around it, and
      the account is the one it was made with. */
  lemma OwnRefOpens(c: Codec, cell: Cell)
    requires c.Sound() && cell.value.Bound? && ValidGeneration(cell.value.account.generation)
    ensures AccountFor(c, cell.value.account.Reference(c), cell.binding) ==
            if OwnRef(cell) then Some(cell.value.account.Name(c)) else None
  {
    ReferenceIsExact(c, cell.value.account.binding, cell.binding, cell.value.account.generation);
  }

  /** Accounts are as distinct as their names. */
  lemma NamesApart(c: Codec, a: Account, b: Account)
    requires c.Sound()
    ensures a.Name(c) == b.Name(c) <==> a == b
  {
    if a.Name(c) == b.Name(c) {
      AccountsDistinct(c, a.binding, a.generation, b.binding, b.generation);
    }
  }

  /** The accounts a document resolves secrets from. */
  function References(doc: Document): set<Account> {
    match doc
    case Absent => {}
    case Document(_, cells) => set k | k in cells && OwnRef(cells[k]) :: cells[k].value.account
  }

  predicate WellKeyed(cells: map<Key, Cell>) {
    forall k :: k in cells ==> cells[k].binding.ToKey() == k
  }

  /** The last call since `from` that touched the account. */
  ghost function Last(h: seq<Snapshot>, from: nat, a: Account): Call
    decreases |h|
  {
    if |h| <= from then Quiet
    else if h[|h| - 1].call.On(a) then h[|h| - 1].call
    else Last(h[..|h| - 1], from, a)
  }

  ghost predicate AppliedSince(h: seq<Snapshot>, from: nat, a: Account) {
    exists i :: from <= i < |h| && h[i].call == Applied(a)
  }

  /** Nothing is claimed of an account whose last call was faulty, or that a failing Set has
      stored a value in: such an account is not on record. Any other fault is made up for by a
      later call that does what it reports. */
  ghost predicate Unsure(h: seq<Snapshot>, from: nat, a: Account) {
    Last(h, from, a).Faulty() || AppliedSince(h, from, a)
  }

  /** The stores agree on every account of which something is claimed. */
  ghost predicate AgreeBut(h: seq<Snapshot>, from: nat, expected: map<Account, Value>, actual: map<Account, Value>) {
    forall a :: !Unsure(h, from, a) ==>
      (a in expected <==> a in actual) && (a in expected ==> actual[a] == expected[a])
  }

  /** No account is left with a value other than the one a Set reported to have stored. */
  ghost predicate NoneGarbled(h: seq<Snapshot>, from: nat) {
    forall a :: !Last(h, from, a).Garbled?
  }

  ghost predicate NoneGarbledBut(h: seq<Snapshot>, from: nat, account: Account) {
    forall a :: a != account ==> !Last(h, from, a).Garbled?
  }

  /** No account is left that could not be deleted. */
  ghost predicate NoneUndeleted(h: seq<Snapshot>, from: nat) {
    forall a :: !Last(h, from, a).Undeleted?
  }

  /** In every snapshot from `from` on, a crash leaves one of `exposed` and no account of
      `keep` is gone. */
  ghost predicate Kept(h: seq<Snapshot>, from: nat, exposed: set<Document>, keep: set<Account>) {
    forall i :: from <= i < |h| ==> h[i].exposed == exposed && keep <= h[i].store.Keys
  }

  lemma LastMore(h: seq<Snapshot>, from: nat, s: Snapshot, a: Account)
    requires from <= |h|
    ensures Last(h + [s], from, a) == if s.call.On(a) then s.call else Last(h, from, a)
  {
    assert (h + [s])[..|h|] == h;
  }

  lemma {:induction false} LastIsThere(h: seq<Snapshot>, from: nat, a: Account)
    ensures Last(h, from, a) == Quiet || exists i :: from <= i < |h| && h[i].call == Last(h, from, a) && h[i].call.On(a)
    decreases |h|
  {
    if |h| > from && !h[|h| - 1].call.On(a) {
      var init := h[..|h| - 1];
      LastIsThere(init, from, a);
      if Last(init, from, a) != Quiet {
        var i :| from <= i < |init| && init[i].call == Last(init, from, a) && init[i].call.On(a);
        assert h[i] == init[i];
      }
    }
  }

  /** No Set that reported failure took effect, and no account's last delete failed. */
  ghost predicate CleanedUp(h: seq<Snapshot>, from: nat) {
    forall a :: !Last(h, from, a).Undeleted? && !AppliedSince(h, from, a)
  }

  /** When moreover no account is left garbled, agreement is equality. */
  lemma CleanedUpSameStore(h: seq<Snapshot>, from: nat, expected: map<Account, Value>, actual: map<Account, Value>)
    requires AgreeBut(h, from, expected, actual) && NoneGarbled(h, from) && CleanedUp(h, from)
    ensures actual == expected
  {
    forall a ensures !Unsure(h, from, a) {
      LastIsThere(h, from, a);
    }
  }

  /** A call on one account: what it reports, or a fault. */
  lemma AgreeStep(h: seq<Snapshot>, from: nat, s: Snapshot, expected: map<Account, Value>, before: map<Account, Value>,
                  expected': map<Account, Value>, a: Account)
    requires AgreeBut(h, from, expected, before) && from <= |h|
    requires forall b :: b != a ==> (b in s.store <==> b in before) && (b in before ==> s.store[b] == before[b])
    requires forall b :: b != a ==>
              (b in expected' <==> b in expected) && (b in expected ==> expected'[b] == expected[b])
    requires s.call.Quiet? || s.call.On(a)
    requires s.call.Quiet? ==> s.store == before && expected' == expected
    requires s.call.Done? ==> (a in expected' <==> a in s.store) && (a in expected' ==> s.store[a] == expected'[a])
    ensures AgreeBut(h + [s], from, expected', s.store)
  {
    forall b | !Unsure(h + [s], from, b)
      ensures (b in expected' <==> b in s.store) && (b in expected' ==> s.store[b] == expected'[b])
    {
      LastMore(h, from, s, b);
      AppliedMore(h, from, s, b);
    }
  }

  lemma AppliedMore(h: seq<Snapshot>, from: nat, s: Snapshot, a: Account)
    ensures AppliedSince(h, from, a) ==> AppliedSince(h + [s], from, a)
  {
    assert forall i :: 0 <= i < |h| ==> (h + [s])[i] == h[i];
  }

  /** A change of the document alone. */
  lemma QuietStep(h: seq<Snapshot>, from: nat, s: Snapshot, expected: map<Account, Value>, store: map<Account, Value>)
    requires AgreeBut(h, from, expected, store) && from <= |h| && s.call.Quiet? && s.store == store
    ensures AgreeBut(h + [s], from, expected, store)
    ensures NoneGarbled(h, from) && NoneUndeleted(h, from) ==>
              NoneGarbled(h + [s], from) && NoneUndeleted(h + [s], from)
  {
    forall b ensures Last(h + [s], from, b) == Last(h, from, b) {
      LastMore(h, from, s, b);
    }
    forall b | !Unsure(h + [s], from, b) ensures !Unsure(h, from, b) {
      AppliedMore(h, from, s, b);
    }
  }

  lemma AgreeMinus(h: seq<Snapshot>, from: nat, expected: map<Account, Value>, actual: map<Account, Value>,
                   gone: set<Account>)
    requires AgreeBut(h, from, expected, actual)
    ensures AgreeBut(h, from, expected - gone, actual - gone)
  {
  }

  /** The last call over two stretches of history. */
  lemma {:induction false} LastOfTwo(h0: seq<Snapshot>, h: seq<Snapshot>, from: nat, a: Account)
    requires h0 <= h && from <= |h0|
    ensures Last(h, from, a) == if Last(h, |h0|, a).Quiet? then Last(h0, from, a) else Last(h, |h0|, a)
    decreases |h|
  {
    if |h| == |h0| {
      assert h == h0;
    } else if !h[|h| - 1].call.On(a) {
      LastOfTwo(h0, h[..|h| - 1], from, a);
    }
  }

  /** Two stretches of history that leave nothing garbled or undeleted do not together either. */
  lemma FaultlessTrans(h0: seq<Snapshot>, h: seq<Snapshot>, from: nat)
    requires h0 <= h && from <= |h0| && NoneGarbled(h0, from) && NoneUndeleted(h0, from)
    requires NoneGarbled(h, |h0|) && NoneUndeleted(h, |h0|)
    ensures NoneGarbled(h, from) && NoneUndeleted(h, from)
  {
    forall a ensures !Last(h, from, a).Garbled? && !Last(h, from, a).Undeleted? {
      LastOfTwo(h0, h, from, a);
    }
  }

  /** Agreement over two stretches of history composes when the first leaves nothing garbled or
      undeleted. */
  lemma AgreeTrans(h0: seq<Snapshot>, h: seq<Snapshot>, from: nat, x: map<Account, Value>, y: map<Account, Value>,
                   z: map<Account, Value>)
    requires h0 <= h && from <= |h0| && AgreeBut(h0, from, x, y) && AgreeBut(h, |h0|, y, z)
    requires NoneGarbled(h0, from) && NoneUndeleted(h0, from)
    ensures AgreeBut(h, from, x, z)
  {
    forall a | !Unsure(h, from, a) ensures (a in x <==> a in z) && (a in x ==> z[a] == x[a]) {
      LastOfTwo(h0, h, from, a);
      assert forall i :: from <= i < |h0| ==> h0[i] == h[i];
      assert !AppliedSince(h0, from, a) && !AppliedSince(h, |h0|, a);
      LastIsThere(h0, from, a);
    }
  }

  /** Which accounts a call leaves garbled or undeleted. */
  lemma FaultStep(h: seq<Snapshot>, from: nat, s: Snapshot, a: Account)
    requires from <= |h| && (s.call.Quiet? || s.call.On(a))
    ensures NoneGarbled(h, from) ==> NoneGarbledBut(h + [s], from, a)
    ensures NoneGarbled(h, from) && !s.call.Garbled? ==> NoneGarbled(h + [s], from)
    ensures NoneGarbledBut(h, from, a) && s.call.On(a) && !s.call.Garbled? ==> NoneGarbled(h + [s], from)
    ensures NoneUndeleted(h, from) && !s.call.Undeleted? ==> NoneUndeleted(h + [s], from)
  {
    forall b ensures Last(h + [s], from, b) == if s.call.On(b) then s.call else Last(h, from, b) {
      LastMore(h, from, s, b);
    }
    hide Last;
  }

  class World {
    var store: map<Account, Value>
    var current: Document
    var nextVersion: nat
    /** The documents a crash may leave: a rename is not durable until the directory is synced. */
    ghost var exposed: set<Document>
    ghost var history: seq<Snapshot>
    /** How often the store has reported that it is disabled by policy, and how many calls have
        not done what they were called for. */
    ghost var disabledReports: nat
    ghost var failures: nat

    ghost predicate Valid()
      reads this
    {
      && current in exposed
      && forall d :: d in exposed && d.Document? ==> d.version < nextVersion
    }

    /** What every sequence of calls keeps. */
    twostate predicate Onward()
      reads this
    {
      && old(history) <= history && old(disabledReports) <= disabledReports && old(failures) <= failures
      && (failures == old(failures) ==> disabledReports == old(disabledReports))
    }

    method Get(a: Account) returns (r: GetResult)
      modifies this`disabledReports, this`failures
      ensures r.Found? ==> a in store && r.value == store[a]
      ensures r.NotFound? ==> a !in store
      ensures disabledReports == old(disabledReports) + if r == GetFailed(Disabled) then 1 else 0
      ensures failures == old(failures) + if r.GetFailed? then 1 else 0
    {
      var error := SomeError();
      if error.Some? {
        Failed(error == Some(Disabled));
        return GetFailed(error.value);
      }
      return if a in store then Found(store[a]) else NotFound;
    }

    ghost method Failed(disabled: bool)
      modifies this`disabledReports, this`failures
      ensures failures == old(failures) + 1 && disabledReports == old(disabledReports) + if disabled then 1 else 0
    {
      failures := failures + 1;
      disabledReports := disabledReports + if disabled then 1 else 0;
    }

    /** Set: on success the account exists; a failure may or may not have taken effect. */
    method Set(a: Account, v: Value) returns (e: Option<StoreError>, ghost call: Call)
      modifies this`store, this`history, this`disabledReports, this`failures
      ensures e.None? || a in old(store) ==> a in store
      ensures forall b :: b != a ==>
                (b in store <==> b in old(store)) && (b in old(store) ==> store[b] == old(store)[b])
      ensures history == old(history) + [Snapshot(store, exposed, call)]
      ensures match call
              case Done(b) => b == a && e.None? && store == old(store)[a := v]
              case Garbled(b) => b == a && e.None? && a in store && store[a] != v
              case Applied(b) => b == a && e.Some? && a in store
              case Quiet => e.Some? && store == old(store)
              case Undeleted(_) => false
      ensures disabledReports == old(disabledReports) + if e == Some(Disabled) then 1 else 0
      ensures failures == old(failures) + if call.Done? then 0 else 1
    {
      e := SomeError();
      var applied := *;
      var other := SomeValue();
      call := Quiet;
      if e.None? {
        var garbled := *;
        store := store[a := if garbled then other else v];
        call := if store[a] == v then Done(a) else Garbled(a);
      } else if applied {
        store := store[a := other];
        call := Applied(a);
      }
      if !call.Done? {
        Failed(e == Some(Disabled));
      }
      history := history + [Snapshot(store, exposed, call)];
    }

    /** Delete: on success the account is gone; a failure may or may not have taken effect. */
    method Delete(a: Account) returns (r: DeleteResult, ghost call: Call)
      modifies this`store, this`history, this`failures
      ensures !r.DeleteFailed? ==> a !in store
      ensures r.WasMissing? ==> a !in old(store)
      ensures forall b :: b != a ==>
                (b in store <==> b in old(store)) && (b in old(store) ==> store[b] == old(store)[b])
      ensures a in store ==> a in old(store) && store[a] == old(store)[a]
      ensures history == old(history) + [Snapshot(store, exposed, call)]
      ensures call == if r.DeleteFailed? then Undeleted(a) else Done(a)
      ensures failures == old(failures) + if r.DeleteFailed? then 1 else 0
    {
      var e := SomeError();
      var applied := *;
      call := Done(a);
      if e.Some? {
        r := DeleteFailed(e.value);
        call := Undeleted(a);
        failures := failures + 1;
        if applied {
          store := store - {a};
        }
      } else {
        r := if a in store then Deleted else WasMissing;
        store := store - {a};
      }
      history := history + [Snapshot(store, exposed, call)];
    }

    method ReadFile() returns (r: Option<map<Key, Cell>>)
      modifies this`failures
      ensures r.Some? ==> current.Document? && r.value == current.cells
      ensures failures == old(failures) + if r.None? && current.Document? then 1 else 0
    {
      var fails := *;
      if fails && current.Document? {
        failures := failures + 1;
      }
      return if fails || current.Absent? then None else Some(current.cells);
    }

    /** Creating, encoding, closing and syncing a temporary file. */
    method MakeTemporary() returns (ok: bool)
      modifies this`failures
      ensures failures == old(failures) + if ok then 0 else 1
    {
      ok := *;
      if !ok {
        failures := failures + 1;
      }
    }

    /** A random generation. */
    method Draw() returns (generation: Option<string>)
      modifies this`failures
      ensures generation.Some? ==> ValidGeneration(generation.value)
      ensures failures == old(failures) + if generation.None? then 1 else 0
    {
      generation := *;
      if !(generation.Some? && ValidGeneration(generation.value)) {
        generation := None;
        failures := failures + 1;
      }
    }

    /** Replaces the document: a rename, or a link that refuses to replace one. */
    method Install(cells: map<Key, Cell>, onlyIfAbsent: bool) returns (ok: bool)
      requires Valid()
      modifies this`current, this`nextVersion, this`exposed, this`history, this`failures
      ensures Valid()
      ensures !ok ==> current == old(current) && exposed == old(exposed) && history == old(history)
      ensures ok ==> current == Document(old(nextVersion), cells) && exposed == old(exposed) + {current}
      ensures ok ==> history == old(history) + [Snapshot(store, exposed, Quiet)]
      ensures ok && onlyIfAbsent ==> old(current).Absent?
      ensures failures == old(failures) + if ok || (onlyIfAbsent && old(current).Document?) then 0 else 1
    {
      if onlyIfAbsent && !current.Absent? {
        return false;
      }
      var fails := *;
      if fails {
        failures := failures + 1;
        return false;
      }
      current := Document(nextVersion, cells);
      nextVersion := nextVersion + 1;
      exposed := exposed + {current};
      history := history + [Snapshot(store, exposed, Quiet)];
      ok := true;
    }

    /** Makes the last rename durable. */
    method SyncDirectory() returns (ok: bool)
      requires Valid()
      modifies this`exposed, this`history, this`failures
      ensures Valid()
      ensures !ok ==> exposed == old(exposed) && history == old(history)
      ensures ok ==> exposed == {current} && history == old(history) + [Snapshot(store, exposed, Quiet)]
      ensures failures == old(failures) + if ok then 0 else 1
    {
      var fails := *;
      if fails {
        failures := failures + 1;
        return false;
      }
      exposed := {current};
      history := history + [Snapshot(store, exposed, Quiet)];
      ok := true;
    }
  }

  method SomeError() returns (e: Option<StoreError>)
  {
    var k: nat := *;
    return if k == 0 then None else if k == 1 then Some(Disabled) else if k == 2 then Some(Unavailable)
           else if k == 3 then Some(Locked) else Some(OtherError);
  }

  method SomeValue() returns (v: Value)
  {
    v := *;
  }
}
