/** writeConfig (loader.go): the order in which a config write changes the credential store and
    the config file, and what holds after each change. */
module ConfigCommit {
  import opened CredentialNames
  import opened Wrappers
  import opened KeychainStore
  import opened KeychainTransaction
  import opened ConfigWrite

  /** How a write ends: nothing replaced; replaced but not known to be durable; durable with the
      superseded accounts gone; durable, but the clean-up failed and could not be undone;
      undone; or undone as far as the store goes while the file could not be put back. */
  datatype Outcome = NothingWritten | NotDurable | Committed | KeptNew | PutBack | PutBackFailed

  /** Whichever document a crash leaves, its own references that resolved before the write
      still have their accounts; and if it is the new one, so do the staged ones. */
  ghost predicate Safe(before: map<Account, Value>, staged: set<Account>, newDoc: Document, s: Snapshot) {
    forall d, a :: d in s.exposed && a in References(d) && (a in before || (d == newDoc && a in staged))
                   ==> a in s.store
  }

  ghost predicate SafeFrom(h: seq<Snapshot>, from: nat, before: map<Account, Value>, staged: set<Account>,
                           newDoc: Document)
  {
    forall i :: from <= i < |h| ==> Safe(before, staged, newDoc, h[i])
  }

  /** What the written document holds: every reference untouched by the user as it was, a fresh
      reference for every new secret, and plaintext only if the store said it is disabled. */
  ghost predicate WrittenAs(cfg: Config, doc: Document, staged: set<Account>, disabled: bool) {
    && doc.Document? && doc.cells.Keys == cfg.cells.Keys
    && (forall a :: a in staged ==>
          var k := a.binding.ToKey();
          k in cfg.cells && cfg.cells[k].value.Plain? && !Untouched(cfg, k) && doc.cells[k].value == Bound(a))
    && forall k :: k in cfg.cells ==>
      var was, now := cfg.cells[k], doc.cells[k];
      && now.binding == was.binding
      && if Untouched(cfg, k) then now.value == cfg.states[k].sentinel
         else if was.value.Plain? then
           (OwnRef(now) && now.value.account in staged) || (now == was && disabled)
         else now == was
  }

  /** What a written document holds of a field the user has not touched since loading, and of the
      others. */
  lemma WrittenExactly(cfg: Config, doc: Document, staged: set<Account>, disabled: bool, k: Key)
    requires WrittenAs(cfg, doc, staged, disabled) && k in cfg.cells
    ensures doc.cells.Keys == cfg.cells.Keys && doc.cells[k].binding == cfg.cells[k].binding
    ensures k in cfg.states && k !in cfg.mutations && cfg.cells[k].value == cfg.states[k].plaintext ==>
              doc.cells[k].value == cfg.states[k].sentinel
    ensures k !in cfg.states || k in cfg.mutations || cfg.cells[k].value != cfg.states[k].plaintext ==>
              if cfg.cells[k].value.Plain? then
                || (doc.cells[k].value.Bound? && doc.cells[k].value.account in staged
                    && doc.cells[k].value.account.binding == cfg.cells[k].binding)
                || (disabled && doc.cells[k].value == cfg.cells[k].value)
              else doc.cells[k].value == cfg.cells[k].value
  {
  }

  /** What loading establishes: a live reference is the field's own, under the binding it was
      resolved for. */
  predicate FromLoad(states: map<Key, FieldState>) {
    forall k :: k in states && states[k].Live() ==>
      OwnRef(Cell(states[k].binding, states[k].sentinel)) && states[k].account == Some(states[k].sentinel.account)
  }

  /** Every reference in the document is made for the entry that holds it, but for one that loading
      found missing or foreign, which is kept as it was. */
  ghost predicate OwnReferences(cfg: Config, doc: Document) {
    doc.Document?
    && forall k :: k in doc.cells && doc.cells[k].value.Bound? ==>
         || doc.cells[k].value.account.binding == doc.cells[k].binding
         || (k in cfg.states && cfg.states[k].status in {Missing_, Rejected}
             && doc.cells[k].value == cfg.states[k].sentinel)
  }

  lemma ReferencesAreOwn(cfg: Config, doc: Document, staged: set<Account>, disabled: bool)
    requires WrittenAs(cfg, doc, staged, disabled) && FromLoad(cfg.states)
    requires forall k :: k in cfg.cells ==> !SlotRefused(cfg, k)
    ensures OwnReferences(cfg, doc)
  {
    forall k | k in doc.cells && doc.cells[k].value.Bound?
      ensures || doc.cells[k].value.account.binding == doc.cells[k].binding
              || (k in cfg.states && cfg.states[k].status in {Missing_, Rejected}
                  && doc.cells[k].value == cfg.states[k].sentinel)
    {
      assert !SlotRefused(cfg, k);
    }
  }

  /** The accounts a committed write leaves: the earlier ones and the staged ones with their
      secrets, without the superseded ones. */
  ghost predicate StoreAfterCommit(cfg: Config, doc: Document, before: map<Account, Value>, staged: set<Account>,
                                   expected: map<Account, Value>)
    requires doc.Document?
  {
    var gone := SupersededSet(cfg, doc.cells, cfg.cells.Keys + cfg.states.Keys);
    && (forall a :: a in expected <==> (a in before || a in staged) && a !in gone)
    && (forall a :: a in expected && a in before ==> expected[a] == before[a])
    && (forall a :: a in expected && a in staged ==>
          a !in before && a.binding.ToKey() in cfg.cells && expected[a] == cfg.cells[a.binding.ToKey()].value)
  }

  function SetOf(writes: seq<Account>): set<Account> {
    set a | a in writes
  }

  /** The document on disk is the one the config was loaded from, as far as that can be told. */
  predicate LoadedFrom(cfg: Config, doc: Document) {
    match doc
    case Absent => cfg.revision.None?
    case Document(_, cells) =>
      && !cfg.expectAbsent && (cfg.revision.Some? ==> cells == cfg.revision.value)
      && forall k :: k in cfg.states && cfg.states[k].sentinel != Empty ==>
           k in cells && cells[k].value == cfg.states[k].sentinel
  }

  /** A secret in the clear, given or changed by the user. */
  predicate NeedsStaging(cfg: Config, k: Key)
    requires k in cfg.cells
  {
    cfg.cells[k].value.Plain? && !Untouched(cfg, k)
  }

  /** What a write demands of its config: the file is the one it was loaded from, no field is
      refused, a migration has something to stage, and there is a file when accounts may have to
      be deleted. */
  ghost predicate Acceptable(cfg: Config, doc: Document, autoMigrationOnly: bool) {
    && LoadedFrom(cfg, doc)
    && (forall k :: k in cfg.cells ==> !SlotRefused(cfg, k))
    && (autoMigrationOnly ==> exists k :: k in cfg.cells && NeedsStaging(cfg, k))
    && (doc.Absent? ==> forall k :: k in cfg.states ==> !cfg.states[k].Live())
  }

  /** A file is written over only when it is still what was loaded. */
  lemma LoadedFromExactly(cfg: Config, doc: Document)
    ensures LoadedFrom(cfg, doc) <==>
              && (cfg.expectAbsent ==> doc.Absent?)
              && (cfg.revision.Some? ==> doc.Document? && doc.cells == cfg.revision.value)
              && (doc.Document? ==> forall k :: k in cfg.states && cfg.states[k].sentinel != Empty ==>
                    k in doc.cells && doc.cells[k].value == cfg.states[k].sentinel)
  {
  }

  /** A write that is only a migration needs a secret in the clear that is new or changed. */
  lemma AcceptableExactly(cfg: Config, doc: Document, autoMigrationOnly: bool)
    ensures Acceptable(cfg, doc, autoMigrationOnly) <==>
              && LoadedFrom(cfg, doc) && (forall k :: k in cfg.cells ==> !SlotRefused(cfg, k))
              && (autoMigrationOnly ==>
                    exists k :: k in cfg.cells && cfg.cells[k].value.Plain?
                                && (k !in cfg.states || k in cfg.mutations
                                    || cfg.cells[k].value != cfg.states[k].plaintext))
              && (doc.Absent? ==> forall k :: k in cfg.states ==> cfg.states[k].status in {Missing_, Rejected})
  {
    hide LoadedFrom, SlotRefused;
    assert forall k :: k in cfg.cells && cfg.cells[k].value.Plain? ==>
      (NeedsStaging(cfg, k) <==>
       k !in cfg.states || k in cfg.mutations || cfg.cells[k].value != cfg.states[k].plaintext);
  }

  /** validateConfigWriteSnapshot: the file is still the one that was loaded, and holds the
      references the states were made from. */
  method ValidateSnapshot(cfg: Config, world: World) returns (ok: bool)
    modifies world`failures
    ensures world.Onward()
    ensures if ok then LoadedFrom(cfg, world.current)
            else !LoadedFrom(cfg, world.current) || world.failures > old(world.failures)
  {
    if world.current.Absent? {
      return cfg.revision.None?;
    }
    var contents := world.ReadFile();
    if contents.None? || cfg.expectAbsent || (cfg.revision.Some? && contents != cfg.revision) {
      return false;
    }
    var keys := cfg.states.Keys;
    while keys != {}
      invariant keys <= cfg.states.Keys
      invariant forall k :: k in cfg.states && k !in keys && cfg.states[k].sentinel != Empty ==>
                  k in contents.value && contents.value[k].value == cfg.states[k].sentinel
    {
      var k :| k in keys;
      var sentinel := cfg.states[k].sentinel;
      if sentinel != Empty && (k !in contents.value || contents.value[k].value != sentinel) {
        return false;
      }
      keys := keys - {k};
    }
    return true;
  }

  /** hasSecretsToReconcile. */
  method HasSecrets(cfg: Config) returns (r: bool)
    ensures r <==> cfg.states.Keys != {} || cfg.mutations != {}
                   || exists k :: k in cfg.cells && cfg.cells[k].value != Empty
  {
    if cfg.states.Keys != {} || cfg.mutations != {} {
      return true;
    }
    var keys := cfg.cells.Keys;
    while keys != {}
      invariant keys <= cfg.cells.Keys
      invariant forall k :: k in cfg.cells && k !in keys ==> cfg.cells[k].value == Empty
    {
      var k :| k in keys;
      if cfg.cells[k].value != Empty {
        return true;
      }
      keys := keys - {k};
    }
    return false;
  }

  /** The write up to the point of replacing the file. */
  method Prepare(cfg: Config, world: World, autoMigrationOnly: bool)
    returns (ok: bool, txn: Transaction, cells: map<Key, Cell>, previous: Option<map<Key, Cell>>)
    requires ConfigOk(cfg) && world.Valid()
    modifies world`store, world`history, world`disabledReports, world`failures
    ensures fresh(txn) && txn.world == world && txn.start == |old(world.history)|
    ensures txn.before == old(world.store) && txn.documents == old(world.exposed)
    ensures world.Onward() && Kept(world.history, txn.start, txn.documents, txn.before.Keys)
    ensures !ok ==> Undone(world.history, txn.start, txn.before, world.store)
    ensures ok ==> txn.Staging() && txn.AllStaged() && Preflighted(txn.deletes, world.store)
    ensures ok ==> Settled(cfg, cells, cfg.cells.Keys + cfg.states.Keys, txn.writes,
                           world.disabledReports > old(world.disabledReports), txn.expected)
    ensures ok ==> DeleteSet(txn.deletes) == SupersededSet(cfg, cells, cfg.cells.Keys + cfg.states.Keys)
    ensures ok ==> LoadedFrom(cfg, old(world.current)) && (autoMigrationOnly ==> txn.writes != [])
    ensures ok && txn.deletes != [] ==> previous.Some?
    ensures previous.Some? ==> world.current.Document? && previous.value == world.current.cells
    ensures (exists k :: k in cfg.cells && SlotRefused(cfg, k)) ==> !ok
    ensures Acceptable(cfg, old(world.current), autoMigrationOnly) && world.failures == old(world.failures) ==> ok
  {
    hide Consistent, Kept, AgreeBut, NoneGarbled, NoneUndeleted, Undone, Settled, SupersededSet, DeleteSet, LoadedFrom,
         SlotRefused, Preflighted, NeedsStaging;
    previous := None;
    NothingHappened(world.history, world.store, world.exposed, world.store.Keys);
    var valid := ValidateSnapshot(cfg, world);
    if !valid {
      txn := new Transaction(world);
      return false, txn, cfg.cells, previous;
    }
    ok, txn, cells := SettleConfig(cfg, world);
    if !ok {
      return;
    }
    assert Kept(world.history, txn.start, txn.documents, txn.before.Keys) by { StagingKept(txn); }
    ghost var reports := world.disabledReports;
    ok, previous := Preflight(cfg, cells, txn, autoMigrationOnly, reports > old(world.disabledReports));
    SettledMore(cfg, cells, txn.writes, reports > old(world.disabledReports),
                world.disabledReports > old(world.disabledReports), txn.expected);
    if !ok {
      txn.RollbackStaging();
    }
  }

  /** The reconciliation, when there is something to reconcile. */
  method SettleConfig(cfg: Config, world: World) returns (ok: bool, txn: Transaction, cells: map<Key, Cell>)
    requires ConfigOk(cfg) && world.Valid()
    modifies world`store, world`history, world`disabledReports, world`failures
    ensures fresh(txn) && txn.world == world && txn.start == |old(world.history)|
    ensures txn.before == old(world.store) && txn.documents == old(world.exposed)
    ensures world.Onward()
    ensures !ok ==> Kept(world.history, txn.start, txn.documents, txn.before.Keys)
    ensures !ok ==> Undone(world.history, txn.start, txn.before, world.store)
    ensures !ok ==> world.failures > old(world.failures) || exists k :: k in cfg.cells && SlotRefused(cfg, k)
    ensures (exists k :: k in cfg.cells && SlotRefused(cfg, k)) ==> !ok
    ensures ok ==> txn.Staging() && txn.AllStaged()
    ensures ok ==> Settled(cfg, cells, cfg.cells.Keys + cfg.states.Keys, txn.writes,
                           world.disabledReports > old(world.disabledReports), txn.expected)
    ensures ok ==> DeleteSet(txn.deletes) == SupersededSet(cfg, cells, cfg.cells.Keys + cfg.states.Keys)
  {
    hide Consistent, Kept, AgreeBut, NoneGarbled, NoneUndeleted, Undone, Settled, SupersededSet, DeleteSet;
    var secrets := HasSecrets(cfg);
    if secrets {
      ok, txn, cells := Reconcile(cfg, world);
    } else {
      txn := new Transaction(world);
      ok, cells := true, cfg.cells;
      NoSecrets(cfg, txn.expected);
    }
  }

  /** What is checked and read before the file is replaced, and the temporary file. */
  method Preflight(cfg: Config, cells: map<Key, Cell>, txn: Transaction, autoMigrationOnly: bool, ghost disabled: bool)
    returns (ok: bool, previous: Option<map<Key, Cell>>)
    requires txn.Staging() && txn.AllStaged()
    requires Settled(cfg, cells, cfg.cells.Keys + cfg.states.Keys, txn.writes, disabled, txn.expected)
    requires DeleteSet(txn.deletes) == SupersededSet(cfg, cells, cfg.cells.Keys + cfg.states.Keys)
    modifies txn`deletes, txn.world`disabledReports, txn.world`failures
    ensures txn.Staging() && txn.AllStaged() && txn.world.Onward()
    ensures DeleteSet(txn.deletes) == DeleteSet(old(txn.deletes))
    ensures ok ==> Preflighted(txn.deletes, txn.world.store) && (autoMigrationOnly ==> txn.writes != [])
    ensures ok && txn.deletes != [] ==> previous.Some?
    ensures previous.Some? ==> txn.world.current.Document? && previous.value == txn.world.current.cells
    ensures !ok ==> || txn.world.failures > old(txn.world.failures) || disabled
                    || (autoMigrationOnly && forall k :: k in cfg.cells ==> !NeedsStaging(cfg, k))
                    || (txn.world.current.Absent? && exists k :: k in cfg.states && cfg.states[k].Live())
  {
    hide Consistent, NoneGarbled, NoneUndeleted, Settled, SupersededSet, DeleteSet, Preflighted, NeedsStaging;
    previous := None;
    if autoMigrationOnly && txn.writes == [] {
      if !disabled {
        NothingStagedWhy(cfg, cells, txn.expected);
      }
      return false, None;
    }
    ok := txn.PreflightDeletes();
    if ok && txn.deletes != [] {
      DeletesAreLive(cfg, cells, txn.deletes);
      previous := txn.world.ReadFile();
      ok := previous.Some?;
    }
    if ok {
      ok := txn.world.MakeTemporary(); // created, encoded, synced and closed
    }
  }

  lemma DeletesAreLive(cfg: Config, cells: map<Key, Cell>, deletes: seq<PendingDelete>)
    requires deletes != [] && DeleteSet(deletes) == SupersededSet(cfg, cells, cfg.cells.Keys + cfg.states.Keys)
    ensures exists k :: k in cfg.states && cfg.states[k].Live()
  {
    assert deletes[0].account in DeleteSet(deletes);
  }

  /** With nothing staged although the store was not disabled, nothing needed to be. */
  lemma NothingStagedWhy(cfg: Config, cells: map<Key, Cell>, staged: map<Account, Value>)
    requires Settled(cfg, cells, cfg.cells.Keys + cfg.states.Keys, [], false, staged)
    ensures forall k :: k in cfg.cells ==> !NeedsStaging(cfg, k)
  {
    forall k | k in cfg.cells ensures SlotDone(cfg, k, cells[k], [], false) {
    }
  }

  lemma StagingKept(txn: Transaction)
    requires txn.Staging()
    ensures Kept(txn.world.history, txn.start, txn.documents, txn.before.Keys)
  {
  }

  lemma NoSecrets(cfg: Config, staged: map<Account, Value>)
    requires cfg.states.Keys == {} && cfg.mutations == {}
    requires forall k :: k in cfg.cells ==> cfg.cells[k].value == Empty
    ensures Settled(cfg, cfg.cells, cfg.cells.Keys + cfg.states.Keys, [], false, staged)
    ensures SupersededSet(cfg, cfg.cells, cfg.cells.Keys + cfg.states.Keys) == DeleteSet([])
  {
  }

  lemma SettledMore(cfg: Config, cells: map<Key, Cell>, writes: seq<Account>, disabled: bool, disabled': bool,
                    staged: map<Account, Value>)
    requires Settled(cfg, cells, cfg.cells.Keys + cfg.states.Keys, writes, disabled, staged)
    requires disabled ==> disabled'
    ensures Settled(cfg, cells, cfg.cells.Keys + cfg.states.Keys, writes, disabled', staged)
  {
    forall k | k in cfg.cells ensures SlotDone(cfg, k, cells[k], writes, disabled') {
      SlotDoneMore(cfg, k, cells[k], writes, disabled, disabled');
    }
  }

  // ---------------------------------------------------------------------------
  // Safety over the stretches of a write
  // ---------------------------------------------------------------------------

  /** While a crash leaves one of `exposed`, it is enough that the accounts of `keep` exist. */
  ghost predicate Covers(before: map<Account, Value>, staged: set<Account>, newDoc: Document,
                         exposed: set<Document>, keep: set<Account>)
  {
    forall d, a :: d in exposed && a in References(d) && (a in before || (d == newDoc && a in staged)) ==> a in keep
  }

  lemma StillSafe(h0: seq<Snapshot>, h: seq<Snapshot>, n: nat, before: map<Account, Value>, staged: set<Account>,
                  newDoc: Document, exposed: set<Document>, keep: set<Account>)
    requires h0 <= h && n <= |h0| && SafeFrom(h0, n, before, staged, newDoc)
    requires Kept(h, |h0|, exposed, keep) && Covers(before, staged, newDoc, exposed, keep)
    ensures SafeFrom(h, n, before, staged, newDoc)
  {
    hide References;
    forall i | n <= i < |h| ensures Safe(before, staged, newDoc, h[i]) {
      if i < |h0| {
        assert h[i] == h0[i];
      }
    }
  }

  /** One more snapshot, of stores that are as they should be. */
  lemma OneMoreSafe(h: seq<Snapshot>, n: nat, before: map<Account, Value>, staged: set<Account>, newDoc: Document,
                    s: Snapshot)
    requires n <= |h| && SafeFrom(h, n, before, staged, newDoc) && before.Keys + staged <= s.store.Keys
    ensures SafeFrom(h + [s], n, before, staged, newDoc)
  {
    hide References;
    StillSafe(h, h + [s], n, before, staged, newDoc, s.exposed, before.Keys + staged);
  }

  /** Before the new document is installed only the earlier accounts matter. */
  lemma KeptIsSafe(h: seq<Snapshot>, n: nat, before: map<Account, Value>, exposed: set<Document>,
                   staged: set<Account>, newDoc: Document)
    requires n <= |h| && Kept(h, n, exposed, before.Keys) && (newDoc !in exposed || staged == {})
    ensures SafeFrom(h, n, before, staged, newDoc)
  {
    StillSafe(h[..n], h, n, before, staged, newDoc, exposed, before.Keys);
  }

  // ---------------------------------------------------------------------------
  // What the staged transaction and the document to be written have to do with each other
  // ---------------------------------------------------------------------------

  lemma SettledIsWritten(cfg: Config, doc: Document, writes: seq<Account>, disabled: bool,
                         expected: map<Account, Value>)
    requires doc.Document?
    requires Settled(cfg, doc.cells, cfg.cells.Keys + cfg.states.Keys, writes, disabled, expected)
    ensures WrittenAs(cfg, doc, SetOf(writes), disabled)
  {
    forall k | k in cfg.cells ensures SlotDone(cfg, k, doc.cells[k], writes, disabled) {
    }
  }

  lemma WrittenMore(cfg: Config, doc: Document, staged: set<Account>, disabled: bool, disabled': bool)
    requires WrittenAs(cfg, doc, staged, disabled) && (disabled ==> disabled')
    ensures WrittenAs(cfg, doc, staged, disabled')
  {
  }

  lemma StagedPresent(txn: Transaction)
    requires txn.Staging() && txn.AllStaged()
    ensures txn.before.Keys + SetOf(txn.writes) <= txn.world.store.Keys
    ensures txn.before.Keys !! SetOf(txn.writes)
    ensures txn.expected - SetOf(txn.writes) == txn.before
    ensures txn.expected.Keys == txn.before.Keys + SetOf(txn.writes)
    ensures txn.start <= |txn.world.history| && Holds(txn.world.history, txn.start, txn.expected, txn.world.store)
  {
    hide AgreeBut, Kept, NoneGarbled, NoneUndeleted;
  }

  lemma CommittedStore(cfg: Config, doc: Document, writes: seq<Account>, disabled: bool, before: map<Account, Value>,
                       expected: map<Account, Value>, gone: set<Account>)
    requires doc.Document?
    requires Settled(cfg, doc.cells, cfg.cells.Keys + cfg.states.Keys, writes, disabled, expected)
    requires gone == SupersededSet(cfg, doc.cells, cfg.cells.Keys + cfg.states.Keys)
    requires expected.Keys == before.Keys + SetOf(writes) && before.Keys !! SetOf(writes)
    requires expected - SetOf(writes) == before
    ensures StoreAfterCommit(cfg, doc, before, SetOf(writes), expected - gone)
  {
    hide SlotDone, SupersededSet;
    var left, staged := expected - gone, SetOf(writes);
    forall a | a in left && a in before ensures left[a] == before[a] {
      assert (expected - staged)[a] == before[a];
    }
    forall a | a in left && a in staged
      ensures a !in before && a.binding.ToKey() in cfg.cells && left[a] == cfg.cells[a.binding.ToKey()].value
    {
      assert a in writes;
    }
  }

  /** The deletion of the superseded accounts, and what happens when it fails: nothing more if
      an old account could not be put back, else the old document is, and the staged accounts go. */
  method CleanUp(world: World, txn: Transaction, previous: Option<map<Key, Cell>>, ghost n: nat,
                 ghost staged: set<Account>, ghost newDoc: Document)
    returns (outcome: Outcome)
    requires txn.world == world && world.Valid() && world.current == newDoc && world.exposed == {newDoc}
    requires newDoc.Document? && n <= |world.history| && SafeFrom(world.history, n, txn.before, staged, newDoc)
    requires Holds(world.history, n, txn.expected, world.store) && txn.expected - staged == txn.before
    requires staged == SetOf(txn.writes) && txn.before.Keys !! staged
    requires txn.before.Keys + staged <= world.store.Keys && Preflighted(txn.deletes, world.store)
    requires References(newDoc) !! DeleteSet(txn.deletes)
    requires txn.deletes != [] ==> previous.Some?
    modifies world
    ensures world.Valid()
    ensures SafeFrom(world.history, n, txn.before, staged, newDoc)
    ensures outcome.Committed? || outcome.KeptNew? ==> world.current == newDoc && world.exposed == {newDoc}
    ensures outcome.Committed? ==> Holds(world.history, n, txn.expected - DeleteSet(txn.deletes), world.store)
    ensures outcome.PutBack? ==>
              && world.current.Document? && previous.Some? && world.current.cells == previous.value
              && world.exposed == {world.current} && AgreeBut(world.history, n, txn.before, world.store)
    ensures outcome.PutBackFailed? ==> txn.before.Keys + staged <= world.store.Keys && newDoc in world.exposed
    ensures !outcome.NothingWritten? && !outcome.NotDurable? && world.Onward()
    ensures !outcome.Committed? ==> world.failures > old(world.failures)
    ensures outcome.KeptNew? || outcome.PutBackFailed? ==> world.failures > old(world.failures) + 1
  {
    hide Kept, AgreeBut, SafeFrom, Preflighted, DeleteSet, References, Covers, NoneGarbled, NoneUndeleted, Holds,
         AllCalled, Recovered;
    ghost var h0, base, before := world.history, world.store, txn.before;
    ghost var keep := base.Keys - DeleteSet(txn.deletes);
    var result := txn.Commit();
    assert Covers(before, staged, newDoc, {newDoc}, keep) by {
      NewDocCovered(before, staged, newDoc, base, DeleteSet(txn.deletes));
    }
    StillSafe(h0, world.history, n, before, staged, newDoc, {newDoc}, keep);
    match result {
      case AllDeleted =>
        HoldsMinus(h0, n, txn.expected, base, DeleteSet(txn.deletes));
        HoldsTrans(h0, world.history, n, txn.expected - DeleteSet(txn.deletes), base - DeleteSet(txn.deletes),
                   world.store);
        outcome := Committed;
      case PartlyRestored =>
        outcome := KeptNew;
      case Restored =>
        assert AgreeBut(h0, n, txn.expected, base) && NoneGarbled(h0, n) && NoneUndeleted(h0, n) by {
          HoldsParts(h0, n, txn.expected, base);
        }
        AgreeTrans(h0, world.history, n, txn.expected, base, world.store);
        outcome := RestoreContents(world, txn, previous.value, n, staged, newDoc);
    }
  }

  lemma HoldsMinus(h: seq<Snapshot>, n: nat, expected: map<Account, Value>, store: map<Account, Value>,
                   gone: set<Account>)
    requires Holds(h, n, expected, store)
    ensures Holds(h, n, expected - gone, store - gone)
  {
    AgreeMinus(h, n, expected, store, gone);
    hide AgreeBut, NoneGarbled, NoneUndeleted;
  }

  lemma HoldsParts(h: seq<Snapshot>, n: nat, expected: map<Account, Value>, store: map<Account, Value>)
    requires Holds(h, n, expected, store)
    ensures AgreeBut(h, n, expected, store) && NoneGarbled(h, n) && NoneUndeleted(h, n)
  {
  }

  /** A change of the document alone. */
  lemma HoldsOn(h: seq<Snapshot>, n: nat, s: Snapshot, expected: map<Account, Value>, store: map<Account, Value>)
    requires Holds(h, n, expected, store) && n <= |h| && s.call.Quiet? && s.store == store
    ensures Holds(h + [s], n, expected, store)
  {
    QuietStep(h, n, s, expected, store);
    hide AgreeBut, NoneGarbled, NoneUndeleted;
  }

  lemma NewDocCovered(before: map<Account, Value>, staged: set<Account>, newDoc: Document, base: map<Account, Value>,
                      gone: set<Account>)
    requires before.Keys + staged <= base.Keys && References(newDoc) !! gone
    ensures Covers(before, staged, newDoc, {newDoc}, base.Keys - gone)
  {
    hide References;
  }

  /** restoreConfigContents and the roll-back after it. */
  method RestoreContents(world: World, txn: Transaction, previous: map<Key, Cell>, ghost n: nat,
                         ghost staged: set<Account>, ghost newDoc: Document)
    returns (outcome: Outcome)
    requires txn.world == world && world.Valid() && world.current == newDoc && world.exposed == {newDoc}
    requires newDoc.Document? && n <= |world.history| && SafeFrom(world.history, n, txn.before, staged, newDoc)
    requires AgreeBut(world.history, n, txn.expected, world.store) && txn.expected - staged == txn.before
    requires staged == SetOf(txn.writes) && txn.before.Keys !! staged
    requires txn.before.Keys + staged <= world.store.Keys
    modifies world
    ensures world.Valid()
    ensures SafeFrom(world.history, n, txn.before, staged, newDoc)
    ensures outcome.PutBack? || outcome.PutBackFailed?
    ensures outcome.PutBack? ==>
              && world.current.Document? && world.current.cells == previous && world.exposed == {world.current}
              && AgreeBut(world.history, n, txn.before, world.store)
    ensures outcome.PutBackFailed? ==> txn.before.Keys + staged <= world.store.Keys && newDoc in world.exposed
    ensures world.Onward() && (outcome.PutBackFailed? ==> world.failures > old(world.failures))
  {
    hide Kept, AgreeBut, SafeFrom, References, NoneGarbled, NoneUndeleted;
    ghost var h0, before := world.history, txn.before;
    var temporary := world.MakeTemporary();
    if !temporary {
      return PutBackFailed;
    }
    var installed := world.Install(previous, false);
    if !installed {
      return PutBackFailed;
    }
    ghost var h1 := world.history;
    assert newDoc != world.current;
    OneMoreSafe(h0, n, before, staged, newDoc, h1[|h0|]);
    QuietStep(h0, n, h1[|h0|], txn.expected, world.store);
    var synced := world.SyncDirectory();
    if !synced {
      return PutBackFailed;
    }
    ghost var h2 := world.history;
    OneMoreSafe(h1, n, before, staged, newDoc, h2[|h1|]);
    QuietStep(h1, n, h2[|h1|], txn.expected, world.store);
    NothingHappened(h2, world.store, world.exposed, before.Keys);
    txn.Rollback(|h2|, before.Keys, n, txn.expected);
    StillSafe(h2, world.history, n, before, staged, newDoc, world.exposed, before.Keys);
    outcome := PutBack;
  }

  /** The rename, seen from the two stores. */
  lemma RenamedSafely(h: seq<Snapshot>, n: nat, before: map<Account, Value>, exposed: set<Document>,
                      staged: set<Account>, newDoc: Document, s: Snapshot, expected: map<Account, Value>)
    requires n <= |h| && Kept(h, n, exposed, before.Keys) && newDoc !in exposed
    requires s.call.Quiet? && before.Keys + staged <= s.store.Keys && Holds(h, n, expected, s.store)
    ensures SafeFrom(h + [s], n, before, staged, newDoc) && Holds(h + [s], n, expected, s.store)
  {
    hide Kept, SafeFrom, Holds;
    KeptIsSafe(h, n, before, exposed, staged, newDoc);
    OneMoreSafe(h, n, before, staged, newDoc, s);
    HoldsOn(h, n, s, expected, s.store);
  }

  lemma WrittenProperly(cfg: Config, was: Document, doc: Document, staged: set<Account>, disabled: bool)
    requires LoadedFrom(cfg, was) && WrittenAs(cfg, doc, staged, disabled)
    requires forall k :: k in cfg.cells ==> !SlotRefused(cfg, k)
    ensures cfg.expectAbsent ==> was.Absent?
    ensures cfg.revision.Some? ==> was.Document? && was.cells == cfg.revision.value
    ensures FromLoad(cfg.states) ==> OwnReferences(cfg, doc)
  {
    LoadedFromExactly(cfg, was);
    hide LoadedFrom, WrittenAs, SlotRefused, FromLoad, OwnReferences;
    if FromLoad(cfg.states) {
      ReferencesAreOwn(cfg, doc, staged, disabled);
    }
  }

  /** What the document to be written and the store after it hold. */
  lemma WhatIsWritten(cfg: Config, doc: Document, writes: seq<Account>, disabled: bool, before: map<Account, Value>,
                      expected: map<Account, Value>, gone: set<Account>)
    requires doc.Document? && ConfigOk(cfg)
    requires Settled(cfg, doc.cells, cfg.cells.Keys + cfg.states.Keys, writes, disabled, expected)
    requires gone == SupersededSet(cfg, doc.cells, cfg.cells.Keys + cfg.states.Keys)
    requires expected.Keys == before.Keys + SetOf(writes) && before.Keys !! SetOf(writes)
    requires expected - SetOf(writes) == before
    ensures WrittenAs(cfg, doc, SetOf(writes), disabled) && References(doc) !! gone
    ensures StoreAfterCommit(cfg, doc, before, SetOf(writes), expected - gone)
  {
    hide Settled, SupersededSet, WrittenAs, StoreAfterCommit, References, ConfigOk;
    SettledIsWritten(cfg, doc, writes, disabled, expected);
    SupersededUnreferenced(cfg, doc.cells, cfg.cells.Keys + cfg.states.Keys, writes, disabled, expected, doc.version);
    CommittedStore(cfg, doc, writes, disabled, before, expected, gone);
  }

  /** writeConfig. At every moment of a write, whatever fails and whichever document a crash
      leaves, every reference that resolved before the write or was staged by it has its
      account; and each way a write can end leaves the two stores as stated. */
  method WriteConfig(cfg: Config, world: World, autoMigrationOnly: bool)
    returns (outcome: Outcome, ghost staged: set<Account>, ghost newDoc: Document)
    requires ConfigOk(cfg) && world.Valid()
    modifies world
    ensures world.Valid() && world.Onward()
    ensures SafeFrom(world.history, |old(world.history)|, old(world.store), staged, newDoc)
    ensures outcome.NothingWritten? ==>
              && staged == {} && world.current == old(world.current) && world.exposed == old(world.exposed)
              && Undone(world.history, |old(world.history)|, old(world.store), world.store)
              && (CleanedUp(world.history, |old(world.history)|) ==> world.store == old(world.store))
    ensures world.failures == old(world.failures) && Acceptable(cfg, old(world.current), autoMigrationOnly) ==>
              outcome.Committed?
    ensures !outcome.NothingWritten? ==>
              && LoadedFrom(cfg, old(world.current)) && (autoMigrationOnly ==> staged != {})
              && forall k :: k in cfg.cells ==> !SlotRefused(cfg, k)
    ensures !outcome.NothingWritten? ==>
              newDoc.Document? && newDoc !in old(world.exposed)
              && WrittenAs(cfg, newDoc, staged, world.disabledReports > old(world.disabledReports))
    ensures !outcome.NothingWritten? ==>
              && (cfg.expectAbsent ==> old(world.current).Absent?)
              && (cfg.revision.Some? ==> old(world.current).Document? && old(world.current).cells == cfg.revision.value)
    ensures !outcome.NothingWritten? && FromLoad(cfg.states) ==> OwnReferences(cfg, newDoc)
    ensures outcome.NotDurable? ==>
              && world.current == newDoc && world.exposed == old(world.exposed) + {newDoc}
              && old(world.store).Keys + staged <= world.store.Keys
    ensures outcome.Committed? ==>
              && world.current == newDoc && world.exposed == {newDoc}
              && exists expected ::
                   && StoreAfterCommit(cfg, newDoc, old(world.store), staged, expected)
                   && Holds(world.history, |old(world.history)|, expected, world.store)
                   && (CleanedUp(world.history, |old(world.history)|) ==> world.store == expected)
    ensures outcome.KeptNew? ==> world.current == newDoc && world.exposed == {newDoc}
    ensures outcome.PutBack? ==>
              && world.current.Document? && old(world.current).Document?
              && world.current.cells == old(world.current).cells && world.exposed == {world.current}
              && AgreeBut(world.history, |old(world.history)|, old(world.store), world.store)
    ensures outcome.PutBackFailed? ==> old(world.store).Keys + staged <= world.store.Keys && newDoc in world.exposed
    ensures outcome.KeptNew? || outcome.PutBackFailed? ==> world.failures > old(world.failures) + 1
  {
    hide Consistent, Kept, AgreeBut, Settled, SupersededSet, DeleteSet, SafeFrom, Preflighted, WrittenAs,
         StoreAfterCommit, References, NoneGarbled, NoneUndeleted, Holds, Undone, CleanedUp, ConfigOk, LoadedFrom,
         SlotRefused, FromLoad, OwnReferences;
    ghost var n, before := |world.history|, world.store;
    staged, newDoc := {}, Absent;
    var ok, txn, cells, previous := Prepare(cfg, world, autoMigrationOnly);
    ghost var prepared, doc := world.history, Document(world.nextVersion, cells);
    if ok {
      StagedPresent(txn);
      ok := world.Install(cells, cfg.expectAbsent);
      if !ok {
        NotExpectedAbsent(cfg, world.current);
        txn.RollbackStaging();
      }
    }
    if !ok {
      KeptIsSafe(world.history, n, before, world.exposed, {}, Absent);
      UndoneSameStore(world.history, n, before, world.store);
      return NothingWritten, {}, Absent;
    }
    staged, newDoc := SetOf(txn.writes), doc;
    assert txn.writes != [] ==> txn.writes[0] in staged;
    ghost var disabled := world.disabledReports > old(world.disabledReports);
    WhatIsWritten(cfg, newDoc, txn.writes, disabled, before, txn.expected, DeleteSet(txn.deletes));
    RenamedSafely(prepared, n, before, old(world.exposed), staged, newDoc, world.history[|prepared|], txn.expected);
    outcome := AfterRename(world, txn, previous, n, staged, newDoc);
    if outcome.Committed? {
      HoldsExactly(world.history, n, txn.expected - DeleteSet(txn.deletes), world.store);
    }
    WrittenMore(cfg, newDoc, staged, disabled, world.disabledReports > old(world.disabledReports));
    WrittenProperly(cfg, old(world.current), newDoc, staged, disabled);
  }

  /** The write after the rename: making it durable, and the clean-up. */
  method AfterRename(world: World, txn: Transaction, previous: Option<map<Key, Cell>>, ghost n: nat,
                     ghost staged: set<Account>, ghost newDoc: Document)
    returns (outcome: Outcome)
    requires txn.world == world && world.Valid() && world.current == newDoc && newDoc.Document?
    requires n <= |world.history| && SafeFrom(world.history, n, txn.before, staged, newDoc)
    requires Holds(world.history, n, txn.expected, world.store) && txn.expected - staged == txn.before
    requires staged == SetOf(txn.writes) && txn.before.Keys !! staged
    requires txn.before.Keys + staged <= world.store.Keys && Preflighted(txn.deletes, world.store)
    requires References(newDoc) !! DeleteSet(txn.deletes)
    requires txn.deletes != [] ==> previous.Some?
    modifies world
    ensures world.Valid() && world.Onward() && SafeFrom(world.history, n, txn.before, staged, newDoc)
    ensures !outcome.NothingWritten? && (!outcome.Committed? ==> world.failures > old(world.failures))
    ensures outcome.KeptNew? || outcome.PutBackFailed? ==> world.failures > old(world.failures) + 1
    ensures outcome.NotDurable? ==>
              world.current == newDoc && world.exposed == old(world.exposed) && world.store == old(world.store)
    ensures outcome.Committed? || outcome.KeptNew? ==> world.current == newDoc && world.exposed == {newDoc}
    ensures outcome.Committed? ==> Holds(world.history, n, txn.expected - DeleteSet(txn.deletes), world.store)
    ensures outcome.PutBack? ==>
              && world.current.Document? && previous.Some? && world.current.cells == previous.value
              && world.exposed == {world.current} && AgreeBut(world.history, n, txn.before, world.store)
    ensures outcome.PutBackFailed? ==> txn.before.Keys + staged <= world.store.Keys && newDoc in world.exposed
  {
    hide AgreeBut, SafeFrom, Preflighted, DeleteSet, References, Holds;
    ghost var renamed := world.history;
    var synced := world.SyncDirectory();
    if !synced {
      return NotDurable;
    }
    OneMoreSafe(renamed, n, txn.before, staged, newDoc, world.history[|renamed|]);
    HoldsOn(renamed, n, world.history[|renamed|], txn.expected, world.store);
    outcome := CleanUp(world, txn, previous, n, staged, newDoc);
  }

  lemma NotExpectedAbsent(cfg: Config, doc: Document)
    requires LoadedFrom(cfg, doc)
    ensures doc.Document? ==> !cfg.expectAbsent
  {
  }
}
