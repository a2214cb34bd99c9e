/** One config write: reconciliation of the in-memory secrets with the credential store
    (reconcileKeychain) and the ordered steps of writeConfig around the file replacement. */
module ConfigWrite {
  import opened CredentialNames
  import opened Wrappers
  import opened KeychainStore
  import opened KeychainTransaction

  datatype Status = Backed | Unresolved | Preserved | Rejected | Missing_

  /** What loading found for a field that held a reference. */
  datatype FieldState = FieldState(binding: Binding, account: Option<Account>, sentinel: Value, plaintext: Value,
                                   status: Status)
  {
    /** The reference stands for an account of the field's own. */
    predicate Live() {
      status.Backed? || status.Unresolved? || status.Preserved?
    }
  }

  /** A config in memory: its secret fields, what loading found, the explicit changes, and the
      document it was loaded from. */
  datatype Config = Config(cells: map<Key, Cell>, states: map<Key, FieldState>, mutations: set<Key>,
                           revision: Option<map<Key, Cell>>, expectAbsent: bool)

  /** What loading establishes about the states. */
  predicate StatesOk(states: map<Key, FieldState>) {
    forall k :: k in states ==>
      states[k].Live() ==> states[k].account.Some? && states[k].account.value.binding.ToKey() == k
  }

  predicate ConfigOk(cfg: Config) {
    WellKeyed(cfg.cells) && StatesOk(cfg.states)
  }

  // ---------------------------------------------------------------------------
  // What reconciliation decides for one field
  // ---------------------------------------------------------------------------

  predicate Dirty(cfg: Config, k: Key)
    requires k in cfg.cells
  {
    k in cfg.mutations || (k in cfg.states && cfg.cells[k].value != cfg.states[k].plaintext)
  }

  /** The preflight refusals: an incomplete binding, a destination that changed under an
      untouched credential, a reference that belongs to another entry. */
  predicate SlotRefused(cfg: Config, k: Key)
    requires k in cfg.cells
  {
    var cell := cfg.cells[k];
    || ((cell.value != Empty || k in cfg.states) && !cell.binding.Valid())
    || (k in cfg.states && cfg.states[k].Live() && cfg.states[k].binding.Valid()
        && cfg.states[k].binding != cell.binding && !Dirty(cfg, k))
    || (cell.value.Bound? && !OwnRef(cell))
  }

  /** A field is refused exactly when it has content or a history and no complete binding, when it
      still holds what was resolved for another destination, or when it holds a reference made for
      another entry. */
  lemma RefusedExactly(cfg: Config, k: Key)
    requires k in cfg.cells
    ensures var b, value := cfg.cells[k].binding, cfg.cells[k].value;
            SlotRefused(cfg, k) <==>
              || ((value != Empty || k in cfg.states)
                  && (b.source == "" || b.owner == "" || b.destination == "" || b.field !in FIELDS))
              || (k in cfg.states && cfg.states[k].status !in {Missing_, Rejected}
                  && cfg.states[k].binding.Valid() && cfg.states[k].binding != b
                  && k !in cfg.mutations && value == cfg.states[k].plaintext)
              || (value.Bound? && value.account.binding != b)
  {
    assert cfg.cells[k].value.Bound? && !OwnRef(cfg.cells[k]) ==>
             cfg.cells[k].value.account.binding != cfg.cells[k].binding || !cfg.cells[k].binding.Valid();
  }

  /** What a field may hold in the written document. A secret becomes a reference to an account
      staged for that field, or stays when the store is disabled. */
  ghost predicate SlotDone(cfg: Config, k: Key, now: Cell, writes: seq<Account>, disabled: bool)
    requires k in cfg.cells
  {
    var cell := cfg.cells[k];
    && now.binding == cell.binding
    && if Untouched(cfg, k) then now.value == cfg.states[k].sentinel
       else if cell.value.Plain? then
         || (OwnRef(now) && now.value.account in writes)
         || (now == cell && disabled)
       else now == cell
  }

  /** The field's old account is no longer needed: the field is gone, was emptied, or got a
      fresh account. */
  predicate Superseded(cfg: Config, k: Key, cells: map<Key, Cell>)
    requires k in cfg.states
  {
    var st := cfg.states[k];
    && st.Live() && st.account.Some?
    && (k in cfg.cells ==>
          && k in cells && Dirty(cfg, k)
          && (cfg.cells[k].value.Empty?
              || (cfg.cells[k].value.Plain? && cells[k].value.Bound? && cells[k].value.account != st.account.value)))
  }

  /** The accounts superseded among the fields of `done`. */
  function SupersededSet(cfg: Config, cells: map<Key, Cell>, done: set<Key>): set<Account> {
    set k | k in cfg.states && k in done && Superseded(cfg, k, cells) :: cfg.states[k].account.value
  }

  /** An account is superseded exactly when loading found it for a field whose entry is gone, or
      which the user has emptied or given a new secret that now has another account. */
  lemma SupersededExactly(cfg: Config, cells: map<Key, Cell>, a: Account)
    requires cells.Keys == cfg.cells.Keys
    ensures a in SupersededSet(cfg, cells, cfg.cells.Keys + cfg.states.Keys) <==>
              exists k :: k in cfg.states && cfg.states[k].account == Some(a)
                          && cfg.states[k].status !in {Missing_, Rejected}
                          && (k !in cfg.cells
                              || ((k in cfg.mutations || cfg.cells[k].value != cfg.states[k].plaintext)
                                  && (cfg.cells[k].value == Empty
                                      || (cfg.cells[k].value.Plain? && cells[k].value.Bound?
                                          && cells[k].value != Bound(a)))))
  {
    forall k | k in cfg.states && cfg.states[k].account == Some(a)
      ensures Superseded(cfg, k, cells) <==>
                && cfg.states[k].status !in {Missing_, Rejected}
                && (k !in cfg.cells
                    || ((k in cfg.mutations || cfg.cells[k].value != cfg.states[k].plaintext)
                        && (cfg.cells[k].value == Empty
                            || (cfg.cells[k].value.Plain? && cells[k].value.Bound? && cells[k].value != Bound(a)))))
    {
    }
    hide Superseded;
  }

  /** The fields of `done` are settled, the others untouched, and every staged account holds
      the secret of a settled field that refers to it. */
  ghost predicate Settled(cfg: Config, cells: map<Key, Cell>, done: set<Key>, writes: seq<Account>, disabled: bool,
                          staged: map<Account, Value>)
  {
    && cells.Keys == cfg.cells.Keys
    && (forall k :: k in cfg.cells && k in done ==> SlotDone(cfg, k, cells[k], writes, disabled))
    && (forall k :: k in cfg.cells && k !in done ==> cells[k] == cfg.cells[k])
    && (forall a :: a in writes ==>
          && a.binding.ToKey() in cells && a.binding.ToKey() in done && cells[a.binding.ToKey()].value == Bound(a)
          && cfg.cells[a.binding.ToKey()].value.Plain? && !Untouched(cfg, a.binding.ToKey())
          && a in staged && staged[a] == cfg.cells[a.binding.ToKey()].value)
  }

  /** Loading found a reference here and nothing has changed since. */
  predicate Untouched(cfg: Config, k: Key)
    requires k in cfg.cells
  {
    k in cfg.states && !Dirty(cfg, k)
  }

  /** The document to be written never refers to an account to be deleted. */
  lemma SupersededUnreferenced(cfg: Config, cells: map<Key, Cell>, done: set<Key>, writes: seq<Account>,
                               disabled: bool, staged: map<Account, Value>, version: nat)
    requires ConfigOk(cfg) && Settled(cfg, cells, done, writes, disabled, staged)
             && cfg.cells.Keys + cfg.states.Keys <= done
    ensures References(Document(version, cells)) !! SupersededSet(cfg, cells, done)
    ensures forall a :: a in writes ==> a !in SupersededSet(cfg, cells, done)
  {
    forall a | a in SupersededSet(cfg, cells, done)
      ensures a !in References(Document(version, cells)) && a !in writes
    {
      var k :| k in cfg.states && Superseded(cfg, k, cells) && cfg.states[k].account.value == a;
      assert a.binding.ToKey() == k;
      forall k' | k' in cells && OwnRef(cells[k']) ensures cells[k'].value.account != a {
        assert SlotDone(cfg, k', cells[k'], writes, disabled);
        assert cells[k'].binding.ToKey() == k';
      }
      forall w | w in writes ensures w != a {
        var k' := w.binding.ToKey();
        assert cells[k'].value == Bound(w);
        assert SlotDone(cfg, k', cells[k'], writes, disabled);
      }
    }
  }

  /** Settling one more field keeps what was settled. */
  lemma SettleOne(cfg: Config, cells: map<Key, Cell>, done: set<Key>, writes: seq<Account>, disabled: bool,
                  staged: map<Account, Value>, k: Key, now: Cell, writes': seq<Account>, disabled': bool,
                  staged': map<Account, Value>)
    requires Settled(cfg, cells, done, writes, disabled, staged) && k in cfg.cells && k !in done
    requires SlotDone(cfg, k, now, writes', disabled') && (disabled ==> disabled')
    requires || (writes' == writes && staged' == staged)
             || (OwnRef(now) && writes' == writes + [now.value.account] && now.binding.ToKey() == k
                 && now.value.account !in writes && cfg.cells[k].value.Plain? && !Untouched(cfg, k)
                 && staged' == staged[now.value.account := cfg.cells[k].value])
    ensures Settled(cfg, cells[k := now], done + {k}, writes', disabled', staged')
  {
    var cells' := cells[k := now];
    forall j | j in cfg.cells && j in done + {k} ensures SlotDone(cfg, j, cells'[j], writes', disabled') {
      if j != k { assert SlotDone(cfg, j, cells[j], writes, disabled); }
    }
    forall a | a in writes'
      ensures a.binding.ToKey() in cells' && a.binding.ToKey() in done + {k}
              && cells'[a.binding.ToKey()].value == Bound(a)
      ensures cfg.cells[a.binding.ToKey()].value.Plain? && !Untouched(cfg, a.binding.ToKey())
      ensures a in staged' && staged'[a] == cfg.cells[a.binding.ToKey()].value
    {
      if a in writes { assert a.binding.ToKey() in done; }
    }
  }

  lemma SupersedeOne(cfg: Config, cells: map<Key, Cell>, done: set<Key>, k: Key, now: Cell)
    requires k in cfg.cells && k !in done
    ensures SupersededSet(cfg, cells[k := now], done + {k}) ==
            SupersededSet(cfg, cells, done)
            + (if k in cfg.states && Superseded(cfg, k, map[k := now]) then {cfg.states[k].account.value} else {})
  {
    var cells' := cells[k := now];
    forall j | j in cfg.states && j != k ensures Superseded(cfg, j, cells') == Superseded(cfg, j, cells) {
    }
    assert k in cfg.states ==> Superseded(cfg, k, cells') == Superseded(cfg, k, map[k := now]);
    hide Superseded;
    var x := if k in cfg.states && Superseded(cfg, k, cells') then {cfg.states[k].account.value} else {};
    assert SupersededSet(cfg, cells', done + {k}) <= SupersededSet(cfg, cells, done) + x;
    forall a | a in SupersededSet(cfg, cells, done) ensures a in SupersededSet(cfg, cells', done + {k}) {
      var j :| j in cfg.states && j in done && Superseded(cfg, j, cells) && cfg.states[j].account.value == a;
      assert Superseded(cfg, j, cells');
    }
    assert x <= SupersededSet(cfg, cells', done + {k});
  }

  /** reconcileKeychain. Refuses before touching the store, or settles every field in whatever
      order the fields come; a failure to stage one rolls the earlier ones back. */
  method Reconcile(cfg: Config, world: World) returns (ok: bool, txn: Transaction, cells: map<Key, Cell>)
    requires ConfigOk(cfg) && world.Valid()
    modifies world`store, world`history, world`disabledReports, world`failures
    ensures fresh(txn) && txn.world == world && txn.start == |old(world.history)|
    ensures txn.before == old(world.store) && txn.documents == old(world.exposed)
    ensures world.Onward()
    ensures ok ==> txn.Staging()
    ensures !ok ==> Kept(world.history, txn.start, txn.documents, txn.before.Keys)
    ensures !ok ==> Undone(world.history, txn.start, txn.before, world.store)
    ensures (exists k :: k in cfg.cells && SlotRefused(cfg, k)) ==> !ok && world.history == old(world.history)
    ensures !ok ==> world.failures > old(world.failures) || exists k :: k in cfg.cells && SlotRefused(cfg, k)
    ensures ok ==> txn.AllStaged()
    ensures ok ==> Settled(cfg, cells, cfg.cells.Keys + cfg.states.Keys, txn.writes,
                           world.disabledReports > old(world.disabledReports), txn.expected)
    ensures ok ==> DeleteSet(txn.deletes) == SupersededSet(cfg, cells, cfg.cells.Keys + cfg.states.Keys)
    ensures EachOnce(txn.deletes)
  {
    hide Consistent, AgreeBut, NoneGarbled, NoneUndeleted, Kept, Settled, SupersededSet, DeleteSet, SlotDone,
         EachOnce;
    txn := new Transaction(world);
    cells := cfg.cells;
    assert EachOnce(txn.deletes) by { NoneTwice(); }
    var refused := AnyRefused(cfg);
    if refused {
      NothingHappened(world.history, world.store, txn.documents, txn.before.Keys);
      return false, txn, cells;
    }
    DeferOrphans(cfg, txn);
    ok, cells := SettleAll(cfg, txn);
  }

  lemma NoneTwice()
    ensures EachOnce([])
  {
  }

  /** Deleting an entry deletes each account bound to exactly that entry. */
  method DeferOrphans(cfg: Config, txn: Transaction)
    requires ConfigOk(cfg) && txn.deletes == []
    modifies txn`deletes
    ensures Settled(cfg, cfg.cells, cfg.states.Keys - cfg.cells.Keys, [], false, map[])
    ensures DeleteSet(txn.deletes) == SupersededSet(cfg, cfg.cells, cfg.states.Keys - cfg.cells.Keys)
    ensures EachOnce(txn.deletes)
  {
    hide Settled, SupersededSet, DeleteSet, SlotDone, EachOnce;
    NoneTwice();
    var orphans := set k | k in cfg.states && k !in cfg.cells && cfg.states[k].Live();
    ghost var done := cfg.states.Keys - cfg.cells.Keys - orphans;
    StartSettled(cfg, done);
    while orphans != {}
      invariant orphans <= cfg.states.Keys - cfg.cells.Keys && forall k :: k in orphans ==> cfg.states[k].Live()
      invariant done == cfg.states.Keys - cfg.cells.Keys - orphans
      invariant Settled(cfg, cfg.cells, done, [], false, map[])
      invariant DeleteSet(txn.deletes) == SupersededSet(cfg, cfg.cells, done) && EachOnce(txn.deletes)
      decreases orphans
    {
      var k :| k in orphans;
      OrphanStep(cfg, done, k);
      txn.DeferDelete(cfg.states[k].account.value);
      orphans := orphans - {k};
      done := done + {k};
    }
    assert done == cfg.states.Keys - cfg.cells.Keys;
  }

  /** The loop over the fields, in any order. */
  method SettleAll(cfg: Config, txn: Transaction) returns (ok: bool, cells: map<Key, Cell>)
    requires ConfigOk(cfg) && txn.Staging() && txn.AllStaged() && txn.writes == []
    requires forall k :: k in cfg.cells ==> !SlotRefused(cfg, k)
    requires Settled(cfg, cfg.cells, cfg.states.Keys - cfg.cells.Keys, [], false, map[])
    requires DeleteSet(txn.deletes) == SupersededSet(cfg, cfg.cells, cfg.states.Keys - cfg.cells.Keys)
    requires EachOnce(txn.deletes)
    modifies txn`writes, txn`deletes, txn`expected, txn`plaintextFallback, txn.world`store, txn.world`history,
             txn.world`disabledReports, txn.world`failures
    ensures txn.world.Onward()
    ensures !ok ==> Kept(txn.world.history, txn.start, txn.documents, txn.before.Keys)
    ensures !ok ==> Undone(txn.world.history, txn.start, txn.before, txn.world.store)
    ensures !ok ==> txn.world.failures > old(txn.world.failures)
    ensures ok ==> txn.Staging() && txn.AllStaged()
    ensures ok ==> Settled(cfg, cells, cfg.cells.Keys + cfg.states.Keys, txn.writes,
                           txn.world.disabledReports > old(txn.world.disabledReports), txn.expected)
    ensures ok ==> DeleteSet(txn.deletes) == SupersededSet(cfg, cells, cfg.cells.Keys + cfg.states.Keys)
    ensures EachOnce(txn.deletes)
  {
    hide Consistent, AgreeBut, NoneGarbled, NoneUndeleted, Undone, Kept, Settled, SupersededSet, DeleteSet, SlotDone,
         SlotRefused, Superseded, Dirty, EachOnce;
    var world := txn.world;
    ghost var reports0 := world.disabledReports;
    cells := cfg.cells;
    var slots := cfg.cells.Keys;
    ghost var done := cfg.states.Keys - cfg.cells.Keys;
    NothingStaged(cfg, done, txn.expected);
    while slots != {}
      invariant slots <= cfg.cells.Keys && done == cfg.cells.Keys + cfg.states.Keys - slots
      invariant txn.Staging() && txn.AllStaged()
      invariant world.Onward() && reports0 == old(world.disabledReports)
      invariant Settled(cfg, cells, done, txn.writes, world.disabledReports > reports0, txn.expected)
      invariant DeleteSet(txn.deletes) == SupersededSet(cfg, cells, done) && EachOnce(txn.deletes)
      decreases slots
    {
      var k :| k in slots;
      ghost var writes, reports, staged := txn.writes, world.disabledReports, txn.expected;
      var settled, now := SettleSlot(cfg, k, txn);
      if !settled {
        txn.RollbackStaging();
        return false, cfg.cells;
      }
      SlotDoneMore(cfg, k, now, txn.writes, world.disabledReports > reports, world.disabledReports > reports0);
      SettleOne(cfg, cells, done, writes, reports > reports0, staged, k, now, txn.writes,
                world.disabledReports > reports0, txn.expected);
      SupersedeOne(cfg, cells, done, k, now);
      cells := cells[k := now];
      slots := slots - {k};
      done := done + {k};
    }
    assert done == cfg.cells.Keys + cfg.states.Keys;
    ok := true;
  }

  lemma NothingStaged(cfg: Config, done: set<Key>, staged: map<Account, Value>)
    requires Settled(cfg, cfg.cells, done, [], false, map[])
    ensures Settled(cfg, cfg.cells, done, [], false, staged)
  {
  }

  lemma SlotDoneMore(cfg: Config, k: Key, now: Cell, writes: seq<Account>, disabled: bool, disabled': bool)
    requires k in cfg.cells && SlotDone(cfg, k, now, writes, disabled) && (disabled ==> disabled')
    ensures SlotDone(cfg, k, now, writes, disabled')
  {
  }

  /** The preflight over every field. */
  method AnyRefused(cfg: Config) returns (refused: bool)
    ensures refused <==> exists k :: k in cfg.cells && SlotRefused(cfg, k)
  {
    var slots := cfg.cells.Keys;
    while slots != {}
      invariant slots <= cfg.cells.Keys
      invariant forall k :: k in cfg.cells && k !in slots ==> !SlotRefused(cfg, k)
    {
      var k :| k in slots;
      if SlotRefused(cfg, k) {
        return true;
      }
      slots := slots - {k};
    }
    return false;
  }

  lemma StartSettled(cfg: Config, done: set<Key>)
    requires done !! cfg.cells.Keys
    requires forall k :: k in cfg.states && k in done ==> !cfg.states[k].Live()
    ensures Settled(cfg, cfg.cells, done, [], false, map[])
    ensures DeleteSet([]) == SupersededSet(cfg, cfg.cells, done)
  {
  }

  lemma OrphanStep(cfg: Config, done: set<Key>, k: Key)
    requires ConfigOk(cfg) && done !! cfg.cells.Keys && k in cfg.states && k !in cfg.cells && cfg.states[k].Live()
    ensures cfg.states[k].account.Some?
    ensures Settled(cfg, cfg.cells, done + {k}, [], false, map[])
    ensures SupersededSet(cfg, cfg.cells, done + {k})
         == SupersededSet(cfg, cfg.cells, done) + {cfg.states[k].account.value}
  {
    var a := cfg.states[k].account.value;
    assert Superseded(cfg, k, cfg.cells);
    assert a in SupersededSet(cfg, cfg.cells, done + {k});
  }

  /** One turn of the loop over the fields. */
  method SettleSlot(cfg: Config, k: Key, txn: Transaction) returns (ok: bool, now: Cell)
    requires ConfigOk(cfg) && k in cfg.cells && !SlotRefused(cfg, k) && txn.Staging() && txn.AllStaged()
    modifies txn`writes, txn`deletes, txn`expected, txn`plaintextFallback, txn.world`store, txn.world`history,
             txn.world`disabledReports, txn.world`failures
    ensures txn.Staging() && txn.world.Onward()
    ensures if ok then txn.AllStaged() else txn.world.failures > old(txn.world.failures)
    ensures ok ==> SlotDone(cfg, k, now, txn.writes, txn.world.disabledReports > old(txn.world.disabledReports))
    ensures ok ==> || (txn.writes == old(txn.writes) && txn.expected == old(txn.expected))
                   || (OwnRef(now) && txn.writes == old(txn.writes) + [now.value.account] && now.binding.ToKey() == k
                       && now.value.account !in old(txn.writes) && cfg.cells[k].value.Plain? && !Untouched(cfg, k)
                       && txn.expected == old(txn.expected)[now.value.account := cfg.cells[k].value])
    ensures ok ==> DeleteSet(txn.deletes) == DeleteSet(old(txn.deletes))
                   + (if k in cfg.states && Superseded(cfg, k, map[k := now]) then {cfg.states[k].account.value}
                      else {})
    ensures EachOnce(old(txn.deletes)) ==> EachOnce(txn.deletes)
  {
    hide Consistent, NoneGarbled, NoneUndeleted, DeleteSet, EachOnce;
    ok, now := true, cfg.cells[k];
    var current := now.value;
    if Untouched(cfg, k) {
      // Whatever the store answered for it, the reference goes back as it was.
      now := now.(value := cfg.states[k].sentinel);
      return;
    }
    if current.Empty? {
      if k in cfg.states && cfg.states[k].Live() {
        txn.DeferDelete(cfg.states[k].account.value);
      }
      return;
    }
    if !current.Plain? {
      return; // a reference of the entry's own, or a legacy one kept for migration
    }
    var staged := txn.StageBoundSet(now.binding, current);
    match staged {
      case StageFailed =>
        ok := false;
      case Fallback =>
        // The store is disabled by policy: the user has asked for plaintext.
        txn.plaintextFallback := true;
      case Staged(account) =>
        now := now.(value := Bound(account));
        if k in cfg.states && cfg.states[k].Live() && cfg.states[k].account.value != account {
          txn.DeferDelete(cfg.states[k].account.value);
        }
    }
  }
}
