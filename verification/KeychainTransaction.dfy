/** The credential write transaction (keychain.go): fresh accounts are staged before the config
    file is replaced, superseded ones deleted after it. */
module KeychainTransaction {
  import opened CredentialNames
  import opened Wrappers
  import opened KeychainStore

  datatype StageResult = Staged(account: Account) | Fallback | StageFailed

  datatype PendingDelete = PendingDelete(account: Account, previous: Option<Value>)

  function DeleteSet(deletes: seq<PendingDelete>): set<Account> {
    set i | 0 <= i < |deletes| :: deletes[i].account
  }

  /** No account is to be deleted twice. */
  ghost predicate EachOnce(deletes: seq<PendingDelete>) {
    forall i, j :: 0 <= i < j < |deletes| ==> deletes[i].account != deletes[j].account
  }

  class Transaction {
    const world: World
    var writes: seq<Account>
    var deletes: seq<PendingDelete>
    var plaintextFallback: bool

    // What the write started from, and what the store holds if it has been faithful since.
    ghost const start: nat
    ghost const before: map<Account, Value>
    ghost const documents: set<Document>
    ghost var expected: map<Account, Value>

    /** Whatever has happened to fresh accounts, the records say what is left of it. */
    ghost predicate Recording()
      reads this, world
    {
      && world.Valid() && world.exposed == documents
      && Consistent(before, documents, start, world.history, world.store, expected, writes)
    }

    ghost predicate Staging()
      reads this, world
    {
      Recording() && NoneGarbled(world.history, start)
    }

    /** Every staged account is there, and none that was to be discarded. */
    ghost predicate AllStaged()
      reads this, world
    {
      && NoneUndeleted(world.history, start)
      && forall a :: a in writes ==> a in world.store && a in expected && expected[a] == world.store[a]
    }

    constructor (w: World)
      requires w.Valid()
      ensures Staging() && AllStaged() && world == w && writes == [] && deletes == [] && !plaintextFallback
      ensures start == |w.history| && before == w.store && documents == w.exposed && expected == w.store
    {
      world := w;
      writes, deletes, plaintextFallback := [], [], false;
      // nothing staged yet
      start, before, documents, expected := |w.history|, w.store, w.exposed, w.store;
    }

    /** The records are as they were, but for an account that could not be deleted. */
    ghost predicate Unstaged(writes0: seq<Account>, expected0: map<Account, Value>)
      reads this, world
    {
      && expected == expected0
      && (writes == writes0
          || (|writes| == |writes0| + 1 && writes[..|writes0|] == writes0
              && Last(world.history, start, writes[|writes0|]).Undeleted?))
    }

    /** stageBoundSet: a fresh generation, written and read back. */
    method StageBoundSet(binding: Binding, value: Value) returns (r: StageResult)
      requires Staging() && AllStaged() && binding.Valid()
      modifies this`writes, this`expected, world`store, world`history, world`disabledReports, world`failures
      ensures Staging() && world.Onward()
      ensures r.Staged? ==> AllStaged() && writes == old(writes) + [r.account]
      ensures r.Staged? ==> r.account.binding == binding && r.account !in old(writes)
      ensures r.Staged? ==> expected == old(expected)[r.account := value]
      ensures r.Fallback? ==> AllStaged() && writes == old(writes) && expected == old(expected)
      ensures r.Fallback? ==> world.disabledReports > old(world.disabledReports)
      ensures r.StageFailed? ==> Unstaged(old(writes), old(expected))
      ensures !r.Staged? ==> world.failures > old(world.failures)
    {
      hide Consistent, NoneGarbled, NoneUndeleted, Last;
      var attempts := 0;
      while attempts < 4
        invariant Staging() && AllStaged() && writes == old(writes) && expected == old(expected)
        invariant world.Onward()
      {
        var generation := world.Draw();
        if generation.None? {
          return StageFailed; // no generation could be drawn
        }
        var account := Account(binding, generation.value);
        var got := world.Get(account);
        match got {
          case Found(_) => // a generation collision: try another
          case NotFound =>
            r := WriteFresh(account, value);
            return;
          case GetFailed(error) =>
            return if error == Disabled then Fallback else StageFailed;
        }
        attempts := attempts + 1;
      }
      world.Failed(false); // every generation was taken
      r := StageFailed;
    }

    method WriteFresh(account: Account, value: Value) returns (r: StageResult)
      requires Staging() && AllStaged() && account !in world.store
      modifies this`writes, this`expected, world`store, world`history, world`disabledReports, world`failures
      ensures Staging() && world.Onward()
      ensures r.Staged? ==> AllStaged() && writes == old(writes) + [account] && r.account == account
      ensures r.Staged? ==> expected == old(expected)[account := value]
      ensures r.Fallback? ==> AllStaged() && writes == old(writes) && expected == old(expected)
      ensures r.Fallback? ==> world.disabledReports > old(world.disabledReports)
      ensures r.StageFailed? ==> Unstaged(old(writes), old(expected))
      ensures !r.Staged? ==> world.failures > old(world.failures)
    {
      hide Consistent, NoneGarbled, NoneGarbledBut, NoneUndeleted, Last;
      assert account !in expected && account !in writes by {
        FreshIsNew(before, documents, start, world.history, world.store, expected, writes, account);
      }
      var error := SetFresh(account, value);
      if error.Some? {
        return if error.value == Disabled then Fallback else StageFailed;
      }
      var stored := world.Get(account);
      if stored.Found? && stored.value == value {
        return Staged(account);
      }
      assert expected - {account} == old(expected);
      assert writes[|writes| - 1] == account && writes[..|writes| - 1] == old(writes);
      DiscardLast();
      r := StageFailed;
    }

    /** The Set, and the record of a write that reported success. */
    method SetFresh(account: Account, value: Value) returns (error: Option<StoreError>)
      requires Staging() && AllStaged() && account !in world.store && account !in writes
      modifies this`writes, this`expected, world`store, world`history, world`disabledReports, world`failures
      ensures Recording() && NoneGarbledBut(world.history, start, account) && NoneUndeleted(world.history, start)
      ensures world.Onward()
      ensures world.disabledReports == old(world.disabledReports) + if error == Some(Disabled) then 1 else 0
      ensures error.Some? ==> Staging() && AllStaged() && writes == old(writes) && expected == old(expected)
      ensures error.Some? ==> world.failures > old(world.failures)
      ensures error.None? ==> writes == old(writes) + [account] && expected == old(expected)[account := value]
      ensures error.None? && account in world.store && world.store[account] == value ==> Staging() && AllStaged()
      ensures error.None? && world.failures == old(world.failures) ==>
                account in world.store && world.store[account] == value
    {
      hide Consistent, NoneGarbled, NoneGarbledBut, NoneUndeleted, Last;
      ghost var h, was := world.history, world.store;
      ghost var call;
      error, call := world.Set(account, value);
      ghost var s := world.history[|h|];
      assert start <= |h| by { HistoryStarted(before, documents, start, h, was, expected, writes); }
      FaultStep(h, start, s, account);
      if error.Some? {
        FailedSetStep(before, documents, start, h, was, expected, writes, s, account);
        return;
      }
      SetStep(before, documents, start, h, was, expected, writes, s, account, value);
      expected := expected[account := value];
      writes := writes + [account];
    }

    /** discardLastStagedWrite: the record is dropped just when the account is known to be gone. */
    method DiscardLast()
      requires Recording() && writes != []
      requires NoneGarbledBut(world.history, start, writes[|writes| - 1])
      modifies this`writes, this`expected, world`store, world`history, world`failures
      ensures Staging() && world.Onward()
      ensures expected == old(expected) - {old(writes)[|old(writes)| - 1]}
      ensures writes == old(writes) || writes == old(writes)[..|old(writes)| - 1]
      ensures |writes| < |old(writes)| ==> old(writes)[|old(writes)| - 1] !in world.store
      ensures old(writes)[|old(writes)| - 1] in world.store ==> writes == old(writes)
      ensures writes == old(writes) ==> Last(world.history, start, writes[|writes| - 1]).Undeleted?
    {
      hide Consistent, NoneGarbled, NoneGarbledBut, Last;
      var account := writes[|writes| - 1];
      ghost var h, was := world.history, world.store;
      var r, call := world.Delete(account);
      ghost var s := world.history[|h|];
      assert start <= |h| by { HistoryStarted(before, documents, start, h, was, expected, writes); }
      FaultStep(h, start, s, account);
      LastMore(h, start, s, account);
      DeleteStep(before, documents, start, h, was, expected, writes, s, account);
      expected := expected - {account};
      if r.DeleteFailed? {
        return;
      }
      DropLast(before, documents, start, world.history, world.store, expected, writes);
      writes := writes[..|writes| - 1];
    }

    /** deferDelete: each account once. */
    method DeferDelete(account: Account)
      modifies this`deletes
      ensures DeleteSet(deletes) == DeleteSet(old(deletes)) + {account}
      ensures EachOnce(old(deletes)) ==> EachOnce(deletes)
      ensures forall i :: 0 <= i < |deletes| && deletes[i].previous.Some? ==> deletes[i] in old(deletes)
    {
      if account in (set i | 0 <= i < |deletes| :: deletes[i].account) {
        return;
      }
      ghost var was := deletes;
      deletes := deletes + [PendingDelete(account, None)];
      assert deletes[|was|].account == account;
      assert forall i :: 0 <= i < |was| ==> deletes[i] == was[i];
    }

    /** rollback: removes the staged accounts, newest first, and touches no other. */
    method Rollback(ghost m: nat, ghost keep: set<Account>, ghost n: nat, ghost left0: map<Account, Value>)
      requires m <= |world.history| && keep <= world.store.Keys && Kept(world.history, m, world.exposed, keep)
      requires n <= |world.history| && AgreeBut(world.history, n, left0, world.store)
      requires forall a :: a in writes ==> a !in keep
      modifies world`store, world`history, world`failures
      ensures world.Onward() && keep <= world.store.Keys
      ensures Kept(world.history, m, world.exposed, keep)
      ensures AgreeBut(world.history, n, left0 - (set a | a in writes), world.store)
      ensures old(NoneGarbled(world.history, n)) ==> NoneGarbled(world.history, n)
    {
      hide AgreeBut, Kept, NoneGarbled, NoneGarbledBut, NoneUndeleted, Last;
      var i := |writes|;
      ghost var left := left0;
      while i > 0
        invariant 0 <= i <= |writes| && m <= |world.history| && n <= |world.history| && world.Onward()
        invariant keep <= world.store.Keys && Kept(world.history, m, world.exposed, keep)
        invariant AgreeBut(world.history, n, left, world.store)
        invariant old(NoneGarbled(world.history, n)) ==> NoneGarbled(world.history, n)
        invariant left == left0 - (set a | a in writes[i..])
      {
        i := i - 1;
        var account := writes[i];
        assert writes[i..] == [account] + writes[i + 1..];
        ghost var h, was := world.history, world.store;
        var r, call := world.Delete(account);
        ghost var s := world.history[|h|];
        AgreeStep(h, n, s, left, was, left - {account}, account);
        FaultStep(h, n, s, account);
        KeptStep(h, m, s, world.exposed, keep);
        left := left - {account};
      }
      assert writes[0..] == writes;
    }

    /** Before the file is replaced, rolling back restores what the write started from. */
    method RollbackStaging()
      requires Staging()
      modifies world`store, world`history, world`failures
      ensures world.Onward() && Kept(world.history, start, documents, before.Keys)
      ensures Undone(world.history, start, before, world.store)
    {
      hide AgreeBut, Kept, NoneGarbled;
      Rollback(start, before.Keys, start, expected);
      assert expected - (set a | a in writes) == before;
    }

    /** preflightDeletes: remembers each account's value, or refuses. */
    method PreflightDeletes() returns (ok: bool)
      requires Staging() && AllStaged()
      modifies this`deletes, world`disabledReports, world`failures
      ensures Staging() && AllStaged() && world.Onward()
      ensures !ok ==> world.failures > old(world.failures)
      ensures DeleteSet(deletes) == DeleteSet(old(deletes)) && (EachOnce(old(deletes)) ==> EachOnce(deletes))
      ensures ok ==> Preflighted(deletes, world.store)
    {
      hide Consistent, NoneGarbled, NoneUndeleted;
      for i := 0 to |deletes|
        invariant |deletes| == |old(deletes)| && Staging() && AllStaged() && world.Onward()
        invariant forall j :: 0 <= j < |deletes| ==> deletes[j].account == old(deletes)[j].account
        invariant Preflighted(deletes[..i], world.store)
      {
        var got := world.Get(deletes[i].account);
        match got {
          case Found(value) =>
            deletes := deletes[i := deletes[i].(previous := Some(value))];
          case NotFound =>
            deletes := deletes[i := deletes[i].(previous := None)];
          case GetFailed(_) =>
            return false;
        }
        assert deletes[..i + 1][..i] == deletes[..i];
      }
      assert deletes[..|deletes|] == deletes;
      ok := true;
    }

    /** commit: deletes the superseded accounts; when one cannot be deleted, puts back that one
        and every one before it. */
    method Commit() returns (r: CommitResult)
      requires Preflighted(deletes, world.store)
      modifies world`store, world`history, world`disabledReports, world`failures
      ensures world.Onward()
      ensures if r.AllDeleted? then AllCalled(world.history, |old(world.history)|, deletes)
              else exists i :: 0 <= i < |deletes| && Recovered(world.history, |old(world.history)|, deletes, i)
      ensures Kept(world.history, |old(world.history)|, world.exposed, old(world.store).Keys - DeleteSet(deletes))
      ensures r.AllDeleted? ==>
                Holds(world.history, |old(world.history)|, old(world.store) - DeleteSet(deletes), world.store)
      ensures r.Restored? ==> old(world.store).Keys <= world.store.Keys
      ensures r.Restored? ==> AgreeBut(world.history, |old(world.history)|, old(world.store), world.store)
      ensures !r.Restored? ==> old(world.store).Keys - DeleteSet(deletes) <= world.store.Keys
      ensures deletes == [] ==> r.AllDeleted?
      ensures r.Restored? ==> world.failures > old(world.failures)
      ensures r.PartlyRestored? ==> world.failures > old(world.failures) + 1
    {
      hide AgreeBut, Kept, DeleteSet, NoneGarbled, NoneGarbledBut, NoneUndeleted, Called, Tried;
      ghost var base, n, keep := world.store, |world.history|, world.store.Keys - DeleteSet(deletes);
      ghost var left := base;
      assert deletes[..0] == [] && DeleteSet([]) == {} by { NoDeletes(); }
      NothingHappened(world.history, base, world.exposed, keep);
      NothingCalled(world.history, deletes);
      for i := 0 to |deletes|
        invariant world.Onward() && |world.history| == n + i && Called(world.history, n, deletes, i)
        invariant Kept(world.history, n, world.exposed, keep) && AgreeBut(world.history, n, left, world.store)
        invariant NoneGarbled(world.history, n) && NoneUndeleted(world.history, n)
        invariant left == base - DeleteSet(deletes[..i]) && Missing(base, world.store, DeleteSet(deletes[..i]))
      {
        DeleteSetStep(deletes, i);
        ghost var h, was := world.history, world.store;
        var account := deletes[i].account;
        var d, call := world.Delete(account);
        ghost var s := world.history[|h|];
        AgreeStep(h, n, s, left, was, left - {account}, account);
        KeptStep(h, n, s, world.exposed, keep);
        FaultStep(h, n, s, account);
        CalledStep(h, n, deletes, i, s);
        left := left - {account};
        assert left == base - DeleteSet(deletes[..i + 1]);
        if d.DeleteFailed? {
          MissingAfter(base, left, DeleteSet(deletes[..i + 1]));
          ghost var failed := world.history;
          r := RestoreFrom(i, base, n, left);
          CalledStays(failed, world.history, n, deletes, i);
          assert Recovered(world.history, n, deletes, i);
          return;
        }
      }
      assert deletes[..|deletes|] == deletes;
      r := AllDeleted;
    }

    /** The recovery of commit: the failed account first, then the earlier ones in reverse, each
        one tried whatever became of the others. */
    method RestoreFrom(failed: nat, ghost base: map<Account, Value>, ghost n: nat, ghost left0: map<Account, Value>)
      returns (r: CommitResult)
      requires failed < |deletes| && Preflighted(deletes, base) && n <= |world.history|
      requires Kept(world.history, n, world.exposed, base.Keys - DeleteSet(deletes))
      requires AgreeBut(world.history, n, left0, world.store)
      requires Missing(base, left0, DeleteSet(deletes[..failed + 1]))
      requires Missing(base, world.store, DeleteSet(deletes[..failed + 1]))
      modifies world`store, world`history, world`disabledReports, world`failures
      ensures world.Onward() && Kept(world.history, n, world.exposed, base.Keys - DeleteSet(deletes))
      ensures Tried(world.history, |old(world.history)|, ToRestore(deletes, failed + 1))
      ensures !r.AllDeleted? && base.Keys - DeleteSet(deletes) <= world.store.Keys
      ensures r.Restored? ==> base.Keys <= world.store.Keys && AgreeBut(world.history, n, base, world.store)
      ensures r.PartlyRestored? ==> world.failures > old(world.failures)
    {
      hide AgreeBut, Kept, DeleteSet, Tried, Restoring, ToRestore, Missing, Preflighted;
      ghost var left, keep := left0, base.Keys - DeleteSet(deletes);
      ghost var m, tried: seq<Account> := |world.history|, [];
      var complete := true;
      var j := failed + 1;
      RestoringStarts(world.history, n, world.store, base, left, deletes, j);
      NothingTried(world.history);
      while j > 0
        invariant 0 <= j <= failed + 1 && n <= |world.history| && world.Onward()
        invariant Kept(world.history, n, world.exposed, keep) && keep <= world.store.Keys
        invariant Tried(world.history, m, tried) && tried + ToRestore(deletes, j) == ToRestore(deletes, failed + 1)
        invariant if complete then Restoring(world.history, n, world.store, base, left, deletes, j)
                  else world.failures > old(world.failures)
      {
        j := j - 1;
        var pending := deletes[j];
        ToRestoreStep(deletes, j, tried);
        if pending.previous.Some? {
          ghost var h, was := world.history, world.store;
          var error, call := world.Set(pending.account, pending.previous.value);
          ghost var s := world.history[|h|];
          KeptStep(h, n, s, world.exposed, keep);
          TriedStep(h, m, tried, s, pending.account);
          tried := tried + [pending.account];
          if complete && error.None? {
            RestoreStep(h, n, was, base, left, deletes, j, s);
            left := left[pending.account := pending.previous.value];
          }
          complete := complete && error.None?;
        } else if complete {
          RestoreSkip(world.history, n, world.store, base, left, deletes, j);
        }
      }
      if complete {
        RestoringEnds(world.history, n, world.store, base, left, deletes);
      }
      NothingToRestore(deletes, tried);
      r := if complete then Restored else PartlyRestored;
    }
  }

  // ---------------------------------------------------------------------------
  // What a recovery has put back
  // ---------------------------------------------------------------------------

  /** All but the first j accounts are back. */
  ghost predicate Restoring(h: seq<Snapshot>, n: nat, store: map<Account, Value>, base: map<Account, Value>,
                            left: map<Account, Value>, deletes: seq<PendingDelete>, j: nat)
    requires j <= |deletes|
  {
    && AgreeBut(h, n, left, store) && Missing(base, left, DeleteSet(deletes[..j]))
    && base.Keys - DeleteSet(deletes[..j]) <= store.Keys
  }

  lemma RestoringStarts(h: seq<Snapshot>, n: nat, store: map<Account, Value>, base: map<Account, Value>,
                        left: map<Account, Value>, deletes: seq<PendingDelete>, j: nat)
    requires j <= |deletes| && AgreeBut(h, n, left, store)
    requires Missing(base, left, DeleteSet(deletes[..j])) && Missing(base, store, DeleteSet(deletes[..j]))
    ensures Restoring(h, n, store, base, left, deletes, j) && base.Keys - DeleteSet(deletes) <= store.Keys
  {
    hide AgreeBut;
    DeleteSetPrefix(deletes, j);
  }

  lemma RestoreStep(h: seq<Snapshot>, n: nat, store: map<Account, Value>, base: map<Account, Value>,
                    left: map<Account, Value>, deletes: seq<PendingDelete>, j: nat, s: Snapshot)
    requires j < |deletes| && Preflighted(deletes, base) && deletes[j].previous.Some? && n <= |h|
    requires Restoring(h, n, store, base, left, deletes, j + 1)
    requires s.call.On(deletes[j].account) && deletes[j].account in s.store
    requires forall b :: b != deletes[j].account ==>
              (b in s.store <==> b in store) && (b in store ==> s.store[b] == store[b])
    requires s.call.Done? ==> s.store[deletes[j].account] == deletes[j].previous.value
    ensures Restoring(h + [s], n, s.store, base, left[deletes[j].account := deletes[j].previous.value], deletes, j)
  {
    hide AgreeBut, DeleteSet;
    var account, value := deletes[j].account, deletes[j].previous.value;
    DeleteSetStep(deletes, j);
    AgreeStep(h, n, s, left, store, left[account := value], account);
  }

  lemma RestoreSkip(h: seq<Snapshot>, n: nat, store: map<Account, Value>, base: map<Account, Value>,
                    left: map<Account, Value>, deletes: seq<PendingDelete>, j: nat)
    requires j < |deletes| && Preflighted(deletes, base) && deletes[j].previous.None?
    requires Restoring(h, n, store, base, left, deletes, j + 1)
    ensures Restoring(h, n, store, base, left, deletes, j)
  {
    hide AgreeBut, DeleteSet;
    DeleteSetStep(deletes, j);
  }

  lemma RestoringEnds(h: seq<Snapshot>, n: nat, store: map<Account, Value>, base: map<Account, Value>,
                      left: map<Account, Value>, deletes: seq<PendingDelete>)
    requires Restoring(h, n, store, base, left, deletes, 0)
    ensures AgreeBut(h, n, base, store) && base.Keys <= store.Keys
  {
    hide AgreeBut;
    assert deletes[..0] == [];
    NoDeletes();
    hide DeleteSet;
    assert left == base;
  }

  // ---------------------------------------------------------------------------
  // The calls of a commit
  // ---------------------------------------------------------------------------

  /** The first k accounts have been deleted, in order. */
  ghost predicate Called(h: seq<Snapshot>, from: nat, deletes: seq<PendingDelete>, k: nat)
    requires k <= |deletes|
  {
    from + k <= |h| && forall i :: 0 <= i < k ==> h[from + i].call == Done(deletes[i].account)
  }

  ghost predicate AllCalled(h: seq<Snapshot>, from: nat, deletes: seq<PendingDelete>) {
    |h| == from + |deletes| && Called(h, from, deletes, |deletes|)
  }

  /** The accounts to put back when one of the first k could not be deleted: the last one first,
      and only those that existed. */
  function ToRestore(deletes: seq<PendingDelete>, k: nat): seq<Account>
    requires k <= |deletes|
  {
    if k == 0 then []
    else (if deletes[k - 1].previous.Some? then [deletes[k - 1].account] else []) + ToRestore(deletes, k - 1)
  }

  /** Since `from` there has been exactly one call for each of the accounts, in order; one
      without effect leaves no account. */
  ghost predicate Tried(h: seq<Snapshot>, from: nat, accounts: seq<Account>) {
    && |h| == from + |accounts|
    && forall i :: 0 <= i < |accounts| ==> h[from + i].call.Quiet? || h[from + i].call.On(accounts[i])
  }

  /** The deletes up to the i-th, which failed, and then a try to put each account back. */
  ghost predicate Recovered(h: seq<Snapshot>, from: nat, deletes: seq<PendingDelete>, i: nat)
    requires i < |deletes|
  {
    && Called(h, from, deletes, i) && from + i < |h| && h[from + i].call == Undeleted(deletes[i].account)
    && Tried(h, from + i + 1, ToRestore(deletes, i + 1))
  }

  lemma NothingCalled(h: seq<Snapshot>, deletes: seq<PendingDelete>)
    ensures Called(h, |h|, deletes, 0)
  {
  }

  lemma CalledStep(h: seq<Snapshot>, from: nat, deletes: seq<PendingDelete>, k: nat, s: Snapshot)
    requires k < |deletes| && |h| == from + k && Called(h, from, deletes, k)
    ensures Called(h + [s], from, deletes, k)
    ensures s.call == Done(deletes[k].account) ==> Called(h + [s], from, deletes, k + 1)
  {
  }

  lemma CalledStays(h0: seq<Snapshot>, h: seq<Snapshot>, from: nat, deletes: seq<PendingDelete>, k: nat)
    requires h0 <= h && k <= |deletes| && Called(h0, from, deletes, k)
    ensures Called(h, from, deletes, k)
  {
    assert forall i :: 0 <= i < |h0| ==> h[i] == h0[i];
  }

  lemma NothingTried(h: seq<Snapshot>)
    ensures Tried(h, |h|, [])
  {
  }

  lemma ToRestoreStep(deletes: seq<PendingDelete>, j: nat, tried: seq<Account>)
    requires j < |deletes|
    ensures tried + ToRestore(deletes, j + 1) ==
            (if deletes[j].previous.Some? then tried + [deletes[j].account] else tried) + ToRestore(deletes, j)
  {
    var rest := ToRestore(deletes, j);
    assert (tried + [deletes[j].account]) + rest == tried + ([deletes[j].account] + rest);
  }

  lemma NothingToRestore(deletes: seq<PendingDelete>, tried: seq<Account>)
    ensures tried + ToRestore(deletes, 0) == tried
  {
  }

  lemma TriedStep(h: seq<Snapshot>, from: nat, accounts: seq<Account>, s: Snapshot, a: Account)
    requires Tried(h, from, accounts) && (s.call.Quiet? || s.call.On(a))
    ensures Tried(h + [s], from, accounts + [a])
  {
  }

  /** `now` is `base` but for accounts of `gone`, which are absent or as in `base`. */
  ghost predicate Missing(base: map<Account, Value>, now: map<Account, Value>, gone: set<Account>) {
    && (forall a :: a in now ==> a in base && now[a] == base[a])
    && (forall a :: a in base && a !in gone ==> a in now)
  }

  lemma DeleteSetStep(deletes: seq<PendingDelete>, i: nat)
    requires i < |deletes|
    ensures DeleteSet(deletes[..i + 1]) == DeleteSet(deletes[..i]) + {deletes[i].account}
    ensures DeleteSet(deletes[..i + 1]) <= DeleteSet(deletes)
  {
    var more := deletes[..i + 1];
    assert more[i] == deletes[i];
    assert forall j :: 0 <= j < i ==> more[j] == deletes[..i][j];
    assert forall j :: 0 <= j <= i ==> more[j] == deletes[j];
  }

  lemma NoDeletes()
    ensures DeleteSet([]) == {}
  {
  }

  lemma DeleteSetPrefix(deletes: seq<PendingDelete>, i: nat)
    requires i <= |deletes|
    ensures DeleteSet(deletes[..i]) <= DeleteSet(deletes)
  {
  }

  lemma MissingAfter(base: map<Account, Value>, left: map<Account, Value>, gone: set<Account>)
    requires left == base - gone
    ensures Missing(base, left, gone)
  {
  }

  lemma NothingHappened(h: seq<Snapshot>, store: map<Account, Value>, exposed: set<Document>, keep: set<Account>)
    ensures AgreeBut(h, |h|, store, store) && Kept(h, |h|, exposed, keep)
    ensures NoneGarbled(h, |h|) && NoneUndeleted(h, |h|) && Undone(h, |h|, store, store)
  {
  }

  datatype CommitResult = AllDeleted | Restored | PartlyRestored

  /** Each pending delete knows whether its account exists, and its value. */
  ghost predicate Preflighted(deletes: seq<PendingDelete>, store: map<Account, Value>) {
    forall i :: 0 <= i < |deletes| ==>
      match deletes[i].previous
      case Some(v) => deletes[i].account in store && store[deletes[i].account] == v
      case None => deletes[i].account !in store
  }

  /** Nothing but staging has happened: every earlier account is untouched, every staged one is
      new, and a crash leaves what it would have left before. */
  ghost predicate Consistent(before: map<Account, Value>, documents: set<Document>, start: nat, h: seq<Snapshot>,
                             store: map<Account, Value>, expected: map<Account, Value>, writes: seq<Account>)
  {
    && start <= |h|
    && Kept(h, start, documents, before.Keys)
    && (forall a :: a in before ==> a in store && store[a] == before[a])
    && (forall a :: a in before ==> a in expected && expected[a] == before[a])
    && (forall a :: a in expected ==> a in before || a in writes)
    && (forall a :: a in writes ==> a !in before)
    && (forall i, j :: 0 <= i < j < |writes| ==> writes[i] != writes[j])
    && AgreeBut(h, start, expected, store)
  }

  /** Nothing is left of a write but what its own failing calls have left. */
  ghost predicate Undone(h: seq<Snapshot>, start: nat, before: map<Account, Value>, store: map<Account, Value>) {
    AgreeBut(h, start, before, store) && NoneGarbled(h, start)
  }

  /** The store holds what it should: nothing is garbled or could not be deleted, and only an
      account that a failing Set has created is open. */
  ghost predicate Holds(h: seq<Snapshot>, from: nat, expected: map<Account, Value>, store: map<Account, Value>) {
    AgreeBut(h, from, expected, store) && NoneGarbled(h, from) && NoneUndeleted(h, from)
  }

  lemma HoldsExactly(h: seq<Snapshot>, from: nat, expected: map<Account, Value>, store: map<Account, Value>)
    requires Holds(h, from, expected, store)
    ensures CleanedUp(h, from) ==> store == expected
  {
    if CleanedUp(h, from) {
      CleanedUpSameStore(h, from, expected, store);
    }
  }

  /** Two stretches of history compose. */
  lemma HoldsTrans(h0: seq<Snapshot>, h: seq<Snapshot>, from: nat, x: map<Account, Value>, y: map<Account, Value>,
                   z: map<Account, Value>)
    requires h0 <= h && from <= |h0| && Holds(h0, from, x, y) && Holds(h, |h0|, y, z)
    ensures Holds(h, from, x, z)
  {
    AgreeTrans(h0, h, from, x, y, z);
    FaultlessTrans(h0, h, from);
    hide AgreeBut, NoneGarbled, NoneUndeleted;
  }

  /** A write undone with its clean-up leaves the store as it was. */
  lemma UndoneSameStore(h: seq<Snapshot>, start: nat, before: map<Account, Value>, store: map<Account, Value>)
    requires Undone(h, start, before, store)
    ensures CleanedUp(h, start) ==> store == before
  {
    if CleanedUp(h, start) {
      CleanedUpSameStore(h, start, before, store);
    }
  }

  /** A change of an account the write did not find. */
  ghost predicate Touched(store: map<Account, Value>, s: Snapshot, account: Account) {
    && (forall b :: b != account ==> (b in s.store <==> b in store) && (b in store ==> s.store[b] == store[b]))
    && (s.call.Quiet? || s.call.On(account)) && (s.call.Quiet? ==> s.store == store)
  }

  lemma HistoryStarted(before: map<Account, Value>, documents: set<Document>, start: nat, h: seq<Snapshot>,
                       store: map<Account, Value>, expected: map<Account, Value>, writes: seq<Account>)
    requires Consistent(before, documents, start, h, store, expected, writes)
    ensures start <= |h|
  {
  }

  /** An account that does not exist is not on record. */
  lemma FreshIsNew(before: map<Account, Value>, documents: set<Document>, start: nat, h: seq<Snapshot>,
                   store: map<Account, Value>, expected: map<Account, Value>, writes: seq<Account>, account: Account)
    requires Consistent(before, documents, start, h, store, expected, writes)
    requires account !in store && forall a :: a in writes ==> a in store
    ensures account !in expected && account !in writes
  {
  }

  lemma KeptStep(h: seq<Snapshot>, from: nat, s: Snapshot, exposed: set<Document>, keep: set<Account>)
    requires Kept(h, from, exposed, keep) && from <= |h|
    requires s.exposed == exposed && keep <= s.store.Keys
    ensures Kept(h + [s], from, exposed, keep)
  {
  }

  lemma SetStep(before: map<Account, Value>, documents: set<Document>, start: nat, h: seq<Snapshot>,
                store: map<Account, Value>, expected: map<Account, Value>, writes: seq<Account>,
                s: Snapshot, account: Account, value: Value)
    requires Consistent(before, documents, start, h, store, expected, writes)
    requires account !in store && account !in writes && s.exposed == documents && Touched(store, s, account)
    requires s.call.Done? || s.call.Garbled?
    requires s.call.Done? ==> account in s.store && s.store[account] == value
    ensures Consistent(before, documents, start, h + [s], s.store, expected[account := value], writes + [account])
  {
    hide AgreeBut, Kept, Unsure, Last;
    AgreeStep(h, start, s, expected, store, expected[account := value], account);
    KeptStep(h, start, s, documents, before.Keys);
  }

  lemma FailedSetStep(before: map<Account, Value>, documents: set<Document>, start: nat, h: seq<Snapshot>,
                      store: map<Account, Value>, expected: map<Account, Value>, writes: seq<Account>,
                      s: Snapshot, account: Account)
    requires Consistent(before, documents, start, h, store, expected, writes)
    requires account !in store && s.exposed == documents && Touched(store, s, account)
    requires s.call.Quiet? || s.call.Applied?
    ensures Consistent(before, documents, start, h + [s], s.store, expected, writes)
  {
    hide AgreeBut, Kept, Unsure, Last;
    AgreeStep(h, start, s, expected, store, expected, account);
    KeptStep(h, start, s, documents, before.Keys);
  }

  lemma DeleteStep(before: map<Account, Value>, documents: set<Document>, start: nat, h: seq<Snapshot>,
                   store: map<Account, Value>, expected: map<Account, Value>, writes: seq<Account>,
                   s: Snapshot, account: Account)
    requires Consistent(before, documents, start, h, store, expected, writes)
    requires account in writes && s.exposed == documents && Touched(store, s, account)
    requires !s.call.Quiet? && (s.call.Done? ==> account !in s.store)
    ensures Consistent(before, documents, start, h + [s], s.store, expected - {account}, writes)
  {
    hide AgreeBut, Kept, Unsure, Last;
    AgreeStep(h, start, s, expected, store, expected - {account}, account);
    KeptStep(h, start, s, documents, before.Keys);
  }

  lemma DropLast(before: map<Account, Value>, documents: set<Document>, start: nat, h: seq<Snapshot>,
                 store: map<Account, Value>, expected: map<Account, Value>, writes: seq<Account>)
    requires Consistent(before, documents, start, h, store, expected, writes)
    requires writes != [] && writes[|writes| - 1] !in expected
    ensures Consistent(before, documents, start, h, store, expected, writes[..|writes| - 1])
  {
    hide AgreeBut, Kept;
    var init := writes[..|writes| - 1];
    forall a | a in expected ensures a in before || a in init {
      if a in writes {
        var i :| 0 <= i < |writes| && writes[i] == a;
        assert init[i] == a;
      }
    }
  }
}
