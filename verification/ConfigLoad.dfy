/** Loading the secret fields of a config (inventoryBoundSentinels, resolveSentinelsForOwner in
    keychain.go), and what writing the loaded config back does to the references in it. */
module ConfigLoad {
  import opened CredentialNames
  import opened Wrappers
  import opened KeychainStore
  import opened KeychainTransaction
  import opened ConfigWrite
  import opened ConfigCommit

  /** A string that starts as a keychain reference does. */
  predicate IsReference(v: Value) {
    v.Bound? || v.OtherRef?
  }

  /** A loaded field still knows the reference its document holds: either loading has left it
      alone, or the state records the reference and what was made of it. */
  predicate Traces(original: Cell, now: Cell, state: Option<FieldState>) {
    && now.binding == original.binding
    && match state
       case None => now == original
       case Some(st) =>
         && IsReference(original.value) && st.sentinel == original.value && st.binding == original.binding
         && (st.Live() || st.status.Missing_? ==> OwnRef(original) && st.account == Some(original.value.account))
         && match st.status
            case Unresolved => now == original && st.plaintext == Empty
            case Backed => now.value == st.plaintext
            case Rejected => now.value == Empty && st.plaintext == Empty && !OwnRef(original)
            case Missing_ => now.value == Empty && st.plaintext == Empty
            case Preserved => now.value == Empty && st.plaintext == Empty
  }

  function StateOf(states: map<Key, FieldState>, k: Key): Option<FieldState> {
    if k in states then Some(states[k]) else None
  }

  predicate AllTrace(original: map<Key, Cell>, cells: map<Key, Cell>, states: map<Key, FieldState>) {
    && WellKeyed(original) && cells.Keys == original.Keys && states.Keys <= cells.Keys
    && forall k :: k in cells ==> Traces(original[k], cells[k], StateOf(states, k))
  }

  /** No bound reference is without a state. */
  predicate Inventoried(cells: map<Key, Cell>, states: map<Key, FieldState>) {
    forall k :: k in cells && cells[k].value.Bound? ==> k in states
  }

  /** The store gave the field a secret that itself reads as a reference. */
  predicate Misread(original: map<Key, Cell>, cells: map<Key, Cell>, states: map<Key, FieldState>, k: Key)
    requires cells.Keys == original.Keys
  {
    k in cells && k in states && states[k].status.Backed?
    && IsReference(cells[k].value) && cells[k].value != original[k].value
  }

  /** Every lookup so far has been answered. */
  predicate NonePreserved(states: map<Key, FieldState>) {
    forall k :: k in states ==> !states[k].status.Preserved?
  }

  class LoadedConfig {
    ghost const original: map<Key, Cell>
    var cells: map<Key, Cell>
    var states: map<Key, FieldState>

    ghost predicate Faithful()
      reads this
    {
      AllTrace(original, cells, states)
    }

    constructor (document: map<Key, Cell>)
      requires WellKeyed(document)
      ensures original == document && cells == document && states == map[] && Faithful()
    {
      original, cells, states := document, document, map[];
    }

    /** inventoryBoundSentinels: no store call. */
    method Inventory()
      requires Faithful()
      modifies this
      ensures Faithful() && Inventoried(cells, states) && cells.Keys == old(cells).Keys
      ensures forall k :: k in states && (states[k].status.Backed? || states[k].status.Preserved?) ==> k in old(states)
      ensures forall k :: k in old(cells) ==>
                k in cells && FieldInventoried(old(cells)[k], StateOf(old(states), k), cells[k], StateOf(states, k))
    {
      hide Traces, FieldInventoried, InventoriedUpTo;
      ghost var cells0, states0 := cells, states;
      var keys := cells.Keys;
      NotYet(cells, states, keys);
      while keys != {}
        invariant InventoriedUpTo(cells0, states0, cells, states, keys) && keys <= cells.Keys
        decreases keys
      {
        var k :| k in keys;
        var now, state := InventoryField(cells[k], if k in states then Some(states[k]) else None);
        InventoryStep(cells0, states0, cells, states, keys, k, now, state);
        keys := keys - {k};
        cells := cells[k := now];
        if state.Some? {
          states := states[k := state.value];
        }
      }
      InventoryDone(original, cells0, states0, cells, states);
    }

    /** resolveSentinelsForOwner on some fields: only a field's own reference is looked up. */
    method ResolveOwner(fields: set<Key>, world: World)
      requires Faithful() && Inventoried(cells, states)
      modifies this, world`disabledReports, world`failures
      ensures AllTrace(original, cells, states) <==>
              !exists k :: k in fields && Misread(original, old(cells), old(states), k)
      ensures Inventoried(cells, states) && world.Onward()
      ensures world.failures == old(world.failures) && NonePreserved(old(states)) ==> NonePreserved(states)
      ensures ResolvedUpTo(fields, old(cells), old(states), cells, states, {}, world.store)
    {
      hide Traces, FieldResolved, ResolvedUpTo;
      ghost var cells0, states0 := cells, states;
      var keys := fields * cells.Keys;
      NoneResolved(fields, cells, states, world.store);
      while keys != {}
        invariant keys <= fields * cells.Keys && world.Onward()
        invariant world.failures == old(world.failures) && NonePreserved(states0) ==> NonePreserved(states)
        invariant ResolvedUpTo(fields, cells0, states0, cells, states, keys, world.store)
        decreases keys
      {
        var k :| k in keys;
        var now, state := ResolveField(cells[k], if k in states then Some(states[k]) else None, world);
        ResolveStep(fields, cells0, states0, cells, states, keys, k, now, state, world.store);
        keys := keys - {k};
        cells := cells[k := now];
        if state.Some? {
          states := states[k := state.value];
        }
      }
      ResolveDone(original, fields, cells0, states0, cells, states, world.store);
    }
  }

  function With(states: map<Key, FieldState>, k: Key, state: Option<FieldState>): map<Key, FieldState> {
    if state.Some? then states[k := state.value] else states
  }

  /** A state is replaced, never removed. */
  lemma StateOfWith(states: map<Key, FieldState>, k: Key, state: Option<FieldState>, j: Key)
    ensures StateOf(With(states, k, state), j) == if j == k && state.Some? then state else StateOf(states, j)
  {
  }

  /** What the inventory leaves of one field: a reference of the field's own to be looked up
      later, a reference of another set aside. */
  predicate FieldInventoried(was: Cell, wasState: Option<FieldState>, now: Cell, state: Option<FieldState>) {
    if !was.value.Bound? || wasState.Some? then now == was && state == wasState
    else if OwnRef(was) then
      now == was && state == Some(FieldState(was.binding, Some(was.value.account), was.value, Empty, Unresolved))
    else
      now == was.(value := Empty) && state == Some(FieldState(was.binding, None, was.value, Empty, Rejected))
  }

  method InventoryField(was: Cell, wasState: Option<FieldState>) returns (now: Cell, state: Option<FieldState>)
    ensures FieldInventoried(was, wasState, now, state)
    ensures !was.value.Bound? || wasState.Some? ==> now == was && state == wasState
    ensures was.value.Bound? && wasState.None? ==>
              && state.Some? && state.value.binding == was.binding && state.value.sentinel == was.value
              && state.value.plaintext == Empty
              && if was.binding.Valid() && was.value.account.binding == was.binding then
                   now == was && state.value.status == Unresolved && state.value.account == Some(was.value.account)
                 else now == was.(value := Empty) && state.value.status == Rejected && state.value.account == None
  {
    now, state := was, wasState;
    if !was.value.Bound? || wasState.Some? {
      return;
    }
    if OwnRef(was) {
      state := Some(FieldState(was.binding, Some(was.value.account), was.value, Empty, Unresolved));
      return;
    }
    now := was.(value := Empty);
    state := Some(FieldState(was.binding, None, was.value, Empty, Rejected));
  }

  /** The fields of `left` are untouched, the others inventoried. */
  predicate InventoriedUpTo(cells0: map<Key, Cell>, states0: map<Key, FieldState>, cells: map<Key, Cell>,
                            states: map<Key, FieldState>, left: set<Key>)
  {
    && cells.Keys == cells0.Keys && states.Keys <= cells.Keys
    && forall k :: k in cells ==>
         if k in left then cells[k] == cells0[k] && StateOf(states, k) == StateOf(states0, k)
         else FieldInventoried(cells0[k], StateOf(states0, k), cells[k], StateOf(states, k))
  }

  lemma NotYet(cells: map<Key, Cell>, states: map<Key, FieldState>, keys: set<Key>)
    requires keys == cells.Keys && states.Keys <= cells.Keys
    ensures InventoriedUpTo(cells, states, cells, states, keys)
  {
  }

  lemma InventoryStep(cells0: map<Key, Cell>, states0: map<Key, FieldState>, cells: map<Key, Cell>,
                      states: map<Key, FieldState>, left: set<Key>, k: Key, now: Cell, state: Option<FieldState>)
    requires InventoriedUpTo(cells0, states0, cells, states, left) && k in left && k in cells
    requires FieldInventoried(cells[k], StateOf(states, k), now, state)
    ensures InventoriedUpTo(cells0, states0, cells[k := now], With(states, k, state), left - {k})
  {
    var cells', states' := cells[k := now], With(states, k, state);
    assert state.None? ==> StateOf(states, k).None?;
    forall j ensures StateOf(states', j) == if j == k then state else StateOf(states, j) {
      StateOfWith(states, k, state, j);
    }
    hide FieldInventoried, StateOf;
  }

  lemma InventoryDone(original: map<Key, Cell>, cells0: map<Key, Cell>, states0: map<Key, FieldState>,
                      cells: map<Key, Cell>, states: map<Key, FieldState>)
    requires AllTrace(original, cells0, states0) && InventoriedUpTo(cells0, states0, cells, states, {})
    ensures AllTrace(original, cells, states) && Inventoried(cells, states)
    ensures forall k :: k in states && (states[k].status.Backed? || states[k].status.Preserved?) ==> k in states0
    ensures forall k :: k in cells0 ==>
              k in cells && FieldInventoried(cells0[k], StateOf(states0, k), cells[k], StateOf(states, k))
  {
    forall k | k in cells
      ensures Traces(original[k], cells[k], StateOf(states, k)) && (cells[k].value.Bound? ==> k in states)
    {
      assert Traces(original[k], cells0[k], StateOf(states0, k));
      assert FieldInventoried(cells0[k], StateOf(states0, k), cells[k], StateOf(states, k));
    }
    forall k | k in states && (states[k].status.Backed? || states[k].status.Preserved?) ensures k in states0 {
      assert FieldInventoried(cells0[k], StateOf(states0, k), cells[k], StateOf(states, k));
    }
  }

  /** What resolving one field leaves. */
  predicate FieldResolved(was: Cell, wasState: Option<FieldState>, now: Cell, state: Option<FieldState>,
                          store: map<Account, Value>)
  {
    && now.binding == was.binding
    && if !IsReference(was.value) then now == was && state == wasState
       else
         && state.Some? && state.value.binding == was.binding && state.value.sentinel == was.value
         && now.value == state.value.plaintext
         && if !OwnRef(was) then state.value.status == Rejected && now.value == Empty && state.value.account == None
            else
              && state.value.account == Some(was.value.account)
              && match state.value.status
                 case Backed => was.value.account in store && now.value == store[was.value.account]
                 case Missing_ => was.value.account !in store && now.value == Empty
                 case Preserved => now.value == Empty
                 case _ => false
  }

  method ResolveField(was: Cell, wasState: Option<FieldState>, world: World)
    returns (now: Cell, state: Option<FieldState>)
    modifies world`disabledReports, world`failures
    ensures FieldResolved(was, wasState, now, state, world.store)
    ensures wasState.Some? ==> state.Some?
    ensures world.Onward()
    ensures world.failures == old(world.failures) ==> state == wasState || !state.value.status.Preserved?
    ensures !was.value.Bound? && !was.value.OtherRef? ==> now == was && state == wasState
    ensures was.value.OtherRef? || (was.value.Bound? && !OwnRef(was)) ==>
              && now == was.(value := Empty) && world.failures == old(world.failures)
              && state == Some(FieldState(was.binding, None, was.value, Empty, Rejected))
    ensures OwnRef(was) ==>
              var account := was.value.account;
              if world.failures > old(world.failures) then
                && now == was.(value := Empty)
                && state == Some(FieldState(was.binding, Some(account), was.value, Empty, Preserved))
              else if account in world.store then
                && now == was.(value := world.store[account])
                && state == Some(FieldState(was.binding, Some(account), was.value, now.value, Backed))
              else
                && now == was.(value := Empty)
                && state == Some(FieldState(was.binding, Some(account), was.value, Empty, Missing_))
  {
    now, state := was, wasState;
    var current := was.value;
    if !IsReference(current) {
      return;
    }
    now := was.(value := Empty);
    if !OwnRef(was) {
      state := Some(FieldState(was.binding, None, current, Empty, Rejected));
      return;
    }
    var got := world.Get(current.account);
    match got {
      case Found(value) =>
        now := was.(value := value);
        state := Some(FieldState(was.binding, Some(current.account), current, value, Backed));
      case NotFound =>
        state := Some(FieldState(was.binding, Some(current.account), current, Empty, Missing_));
      case GetFailed(_) =>
        state := Some(FieldState(was.binding, Some(current.account), current, Empty, Preserved));
    }
  }

  /** Of the fields asked for, those of `left` are still untouched, the others resolved. */
  predicate ResolvedUpTo(fields: set<Key>, cells0: map<Key, Cell>, states0: map<Key, FieldState>, cells: map<Key, Cell>,
                         states: map<Key, FieldState>, left: set<Key>, store: map<Account, Value>)
  {
    && cells.Keys == cells0.Keys && states.Keys <= cells.Keys
    && forall k :: k in cells ==>
         if k in left || k !in fields then cells[k] == cells0[k] && StateOf(states, k) == StateOf(states0, k)
         else FieldResolved(cells0[k], StateOf(states0, k), cells[k], StateOf(states, k), store)
  }

  lemma NoneResolved(fields: set<Key>, cells: map<Key, Cell>, states: map<Key, FieldState>, store: map<Account, Value>)
    requires states.Keys <= cells.Keys
    ensures ResolvedUpTo(fields, cells, states, cells, states, fields * cells.Keys, store)
  {
  }

  lemma ResolveStep(fields: set<Key>, cells0: map<Key, Cell>, states0: map<Key, FieldState>, cells: map<Key, Cell>,
                    states: map<Key, FieldState>, left: set<Key>, k: Key, now: Cell, state: Option<FieldState>,
                    store: map<Account, Value>)
    requires ResolvedUpTo(fields, cells0, states0, cells, states, left, store) && k in left && k in cells && k in fields
    requires FieldResolved(cells[k], StateOf(states, k), now, state, store)
    ensures ResolvedUpTo(fields, cells0, states0, cells[k := now], With(states, k, state), left - {k}, store)
  {
    var cells', states' := cells[k := now], With(states, k, state);
    assert state.None? ==> StateOf(states, k).None?;
    forall j ensures StateOf(states', j) == if j == k then state else StateOf(states, j) {
      StateOfWith(states, k, state, j);
    }
    hide FieldResolved, StateOf;
  }

  lemma ResolveDone(original: map<Key, Cell>, fields: set<Key>, cells0: map<Key, Cell>, states0: map<Key, FieldState>,
                    cells: map<Key, Cell>, states: map<Key, FieldState>, store: map<Account, Value>)
    requires AllTrace(original, cells0, states0) && Inventoried(cells0, states0)
    requires ResolvedUpTo(fields, cells0, states0, cells, states, {}, store)
    ensures AllTrace(original, cells, states) <==> !exists k :: k in fields && Misread(original, cells0, states0, k)
    ensures Inventoried(cells, states)
  {
    forall k | k in cells
      ensures Traces(original[k], cells[k], StateOf(states, k))
              <==> !(k in fields && Misread(original, cells0, states0, k))
      ensures cells[k].value.Bound? ==> k in states
    {
      assert Traces(original[k], cells0[k], StateOf(states0, k));
      if k in fields {
        assert FieldResolved(cells0[k], StateOf(states0, k), cells[k], StateOf(states, k), store);
        ResolvedTraces(original[k], cells0[k], StateOf(states0, k), cells[k], StateOf(states, k), store);
      }
    }
    assert forall k :: Misread(original, cells0, states0, k) ==> k in cells;
  }

  /** Resolving keeps track of the document's reference, except where an earlier resolution gave
      the field a secret that reads as another reference. */
  lemma ResolvedTraces(original: Cell, was: Cell, wasState: Option<FieldState>, now: Cell, state: Option<FieldState>,
                       store: map<Account, Value>)
    requires Traces(original, was, wasState) && FieldResolved(was, wasState, now, state, store)
    requires was.value.Bound? ==> wasState.Some?
    ensures Traces(original, now, state) <==>
            !(wasState.Some? && wasState.value.status.Backed? && IsReference(was.value) && was.value != original.value)
    ensures now.value.Bound? ==> state.Some?
  {
  }

  /** An inventory and two resolutions of some fields, from a document just read. */
  ghost predicate TwoResolutions(document: map<Key, Cell>, fields: set<Key>, store: map<Account, Value>,
                                 states1: map<Key, FieldState>, cells2: map<Key, Cell>, states2: map<Key, FieldState>,
                                 cells3: map<Key, Cell>, states3: map<Key, FieldState>)
  {
    && InventoriedUpTo(document, map[], document, states1, {})
    && ResolvedUpTo(fields, document, states1, cells2, states2, {}, store)
    && ResolvedUpTo(fields, cells2, states2, cells3, states3, {}, store)
  }

  /** And that happens: the field's own account holds a text that starts as a reference does. The
      inventory and a first resolution keep track of the document's reference; the second one
      takes the secret for it. */
  lemma ResolvedTwice(b: Binding, generation: string, text: string)
    requires b.Valid()
    ensures var k := b.ToKey();
            var a := Account(b, generation);
            var store := map[a := OtherRef(text)];
            var document := map[k := Cell(b, Bound(a))];
            exists states1, cells2, states2, cells3, states3 ::
              && TwoResolutions(document, {k}, store, states1, cells2, states2, cells3, states3)
              && AllTrace(document, cells2, states2) && Misread(document, cells2, states2, k)
              && !AllTrace(document, cells3, states3)
  {
    var k, a := b.ToKey(), Account(b, generation);
    var document := map[k := Cell(b, Bound(a))];
    var states1 := map[k := FieldState(b, Some(a), Bound(a), Empty, Unresolved)];
    var cells2 := map[k := Cell(b, OtherRef(text))];
    var states2 := map[k := FieldState(b, Some(a), Bound(a), OtherRef(text), Backed)];
    var cells3 := map[k := Cell(b, Empty)];
    var states3 := map[k := FieldState(b, None, OtherRef(text), Empty, Rejected)];
    assert TwoResolutions(document, {k}, map[a := OtherRef(text)], states1, cells2, states2, cells3, states3);
    assert AllTrace(document, cells2, states2) && Misread(document, cells2, states2, k);
    assert !Traces(document[k], cells3[k], StateOf(states3, k));
  }

  // ---------------------------------------------------------------------------
  // Writing a loaded config back
  // ---------------------------------------------------------------------------

  function Unchanged(original: map<Key, Cell>, cells: map<Key, Cell>, states: map<Key, FieldState>): Config {
    Config(cells, states, {}, Some(original), false)
  }

  /** The states of a loaded config are as a write expects them. */
  lemma TracesFromLoad(original: map<Key, Cell>, cells: map<Key, Cell>, states: map<Key, FieldState>)
    requires AllTrace(original, cells, states)
    ensures FromLoad(states)
  {
    forall k | k in states && states[k].Live()
      ensures OwnRef(Cell(states[k].binding, states[k].sentinel))
      ensures states[k].account == Some(states[k].sentinel.account)
    {
      assert Traces(original[k], cells[k], StateOf(states, k));
    }
  }

  lemma LoadedIsOk(original: map<Key, Cell>, cells: map<Key, Cell>, states: map<Key, FieldState>, version: nat)
    requires AllTrace(original, cells, states)
    ensures ConfigOk(Unchanged(original, cells, states))
    ensures LoadedFrom(Unchanged(original, cells, states), Document(version, original))
  {
    forall k | k in states && states[k].Live()
      ensures states[k].account.Some? && states[k].account.value.binding.ToKey() == k
    {
      assert Traces(original[k], cells[k], StateOf(states, k));
    }
    forall k | k in states ensures k in original && original[k].value == states[k].sentinel {
      assert Traces(original[k], cells[k], StateOf(states, k));
    }
  }

  /** Such a write is refused exactly when a field with content has no complete binding, or the
      store answered a field with a reference that is not the field's own. */
  lemma WriteBackRefusal(original: map<Key, Cell>, cells: map<Key, Cell>, states: map<Key, FieldState>, k: Key)
    requires AllTrace(original, cells, states) && Inventoried(cells, states) && k in cells
    ensures SlotRefused(Unchanged(original, cells, states), k) <==>
            || (original[k].value != Empty && !original[k].binding.Valid())
            || (k in states && states[k].status.Backed? && cells[k].value.Bound? && !OwnRef(cells[k]))
  {
    assert Traces(original[k], cells[k], StateOf(states, k));
  }

  /** Unless the store has reported that it is disabled, no secret is in the written document. */
  lemma NoSecretInTheClear(cfg: Config, doc: Document, staged: set<Account>)
    requires WrittenAs(cfg, doc, staged, false)
    requires forall k :: k in cfg.states ==> IsReference(cfg.states[k].sentinel)
    ensures forall k :: k in doc.cells ==> !doc.cells[k].value.Plain?
  {
    forall k | k in cfg.cells ensures !doc.cells[k].value.Plain? {
      assert Untouched(cfg, k) ==> k in cfg.states;
    }
  }

  /** Every field with content has its binding, and no secret looked up reads as the reference of
      another field. */
  predicate Writable(original: map<Key, Cell>, fields: set<Key>, store: map<Account, Value>) {
    forall k :: k in original ==> FieldWritable(original[k], k in fields, store)
  }

  predicate FieldWritable(cell: Cell, lookedUp: bool, store: map<Account, Value>) {
    && (cell.value != Empty ==> cell.binding.Valid())
    && (lookedUp && OwnRef(cell) && cell.value.account in store && store[cell.value.account].Bound? ==>
          OwnRef(Cell(cell.binding, store[cell.value.account])))
  }

  /** That is when no field of the loaded config is refused. */
  lemma WritableExactly(original: map<Key, Cell>, fields: set<Key>, cells0: map<Key, Cell>,
                        states0: map<Key, FieldState>, cells: map<Key, Cell>, states: map<Key, FieldState>,
                        store: map<Account, Value>)
    requires cells0.Keys == original.Keys
    requires forall k :: k in original ==> FieldInventoried(original[k], None, cells0[k], StateOf(states0, k))
    requires ResolvedUpTo(fields, cells0, states0, cells, states, {}, store)
    requires AllTrace(original, cells, states) && Inventoried(cells, states) && NonePreserved(states)
    ensures (forall k :: k in cells ==> !SlotRefused(Unchanged(original, cells, states), k))
            <==> Writable(original, fields, store)
  {
    hide SlotRefused, FieldWritable, FieldResolved, FieldInventoried, OwnRef;
    var cfg := Unchanged(original, cells, states);
    forall k | k in cells ensures SlotRefused(cfg, k) <==> !FieldWritable(original[k], k in fields, store) {
      WriteBackRefusal(original, cells, states, k);
      assert Traces(original[k], cells[k], StateOf(states, k));
      if k in fields {
        assert FieldResolved(cells0[k], StateOf(states0, k), cells[k], StateOf(states, k), store);
      }
      RefusedFor(original[k], k in fields, cells0[k], StateOf(states0, k), cells[k], StateOf(states, k), store);
    }
  }

  lemma RefusedFor(original: Cell, lookedUp: bool, was: Cell, wasState: Option<FieldState>, now: Cell,
                   state: Option<FieldState>, store: map<Account, Value>)
    requires FieldInventoried(original, None, was, wasState) && Traces(original, now, state)
    requires if lookedUp then FieldResolved(was, wasState, now, state, store) else now == was && state == wasState
    requires state.Some? ==> !state.value.status.Preserved?
    ensures FieldWritable(original, lookedUp, store) <==>
            !((original.value != Empty && !original.binding.Valid())
              || (state.Some? && state.value.status.Backed? && now.value.Bound? && !OwnRef(now)))
  {
  }

  /** Loading a document, asking the store for any of its fields, and writing it back. */
  method LoadAndWriteBack(world: World, fields: set<Key>)
    returns (outcome: Outcome, ghost staged: set<Account>, ghost newDoc: Document)
    requires world.Valid() && world.current.Document? && WellKeyed(world.current.cells)
    modifies world
    ensures world.Valid()
    ensures SafeFrom(world.history, |old(world.history)|, old(world.store), staged, newDoc)
    ensures !outcome.NothingWritten? ==>
              newDoc.Document? && newDoc.cells.Keys == old(world.current).cells.Keys
              && forall k :: k in newDoc.cells && !old(world.current).cells[k].value.Plain? ==>
                   newDoc.cells[k] == old(world.current).cells[k]
    ensures forall a :: a in staged ==>
              a.binding.ToKey() in old(world.current).cells && old(world.current).cells[a.binding.ToKey()].value.Plain?
    ensures outcome.Committed? ==> exists expected ::
              && Holds(world.history, |old(world.history)|, expected, world.store)
              && (CleanedUp(world.history, |old(world.history)|) ==> world.store == expected)
              && expected.Keys == old(world.store).Keys + staged
              && forall a :: a in old(world.store) ==> expected[a] == old(world.store)[a]
    ensures world.failures == old(world.failures) ==>
              (outcome.Committed? <==> Writable(old(world.current).cells, fields, old(world.store)))
    ensures !outcome.NothingWritten? && world.disabledReports == old(world.disabledReports) ==>
              forall k :: k in newDoc.cells ==> !newDoc.cells[k].value.Plain?
  {
    hide AllTrace, Inventoried, SafeFrom, LoadedFrom, WrittenAs, StoreAfterCommit, Holds, CleanedUp, Undone, Safe,
         ConfigOk, Settled, Misread, SupersededSet, Writable, SlotRefused, NonePreserved, ResolvedUpTo,
         FieldInventoried;
    ghost var original := world.current.cells;
    var contents := world.ReadFile();
    if contents.None? {
      assert SafeFrom(world.history, |world.history|, world.store, {}, Absent) by {
        NothingYet(world.history, world.store);
      }
      return NothingWritten, {}, Absent;
    }
    var loaded := new LoadedConfig(contents.value);
    loaded.Inventory();
    NoneMisread(original, loaded.cells, loaded.states, fields);
    ghost var cells0, states0 := loaded.cells, loaded.states;
    loaded.ResolveOwner(fields, world);
    ghost var reports := world.disabledReports;
    LoadedIsOk(original, loaded.cells, loaded.states, world.current.version);
    if world.failures == old(world.failures) {
      WritableExactly(original, fields, cells0, states0, loaded.cells, loaded.states, world.store);
    }
    outcome, staged, newDoc := WriteConfig(Unchanged(contents.value, loaded.cells, loaded.states), world, false);
    if !outcome.NothingWritten? {
      WriteBackIsVerbatim(original, loaded.cells, loaded.states, newDoc, staged,
                  world.disabledReports > reports);
    }
    if outcome.Committed? {
      var cfg := Unchanged(original, loaded.cells, loaded.states);
      ghost var expected :| StoreAfterCommit(cfg, newDoc, old(world.store), staged, expected)
                            && Holds(world.history, |old(world.history)|, expected, world.store)
                            && (CleanedUp(world.history, |old(world.history)|) ==> world.store == expected);
      NothingGone(cfg, newDoc, old(world.store), staged, expected);
    }
  }

  lemma NothingGone(cfg: Config, doc: Document, before: map<Account, Value>, staged: set<Account>,
                    expected: map<Account, Value>)
    requires doc.Document? && StoreAfterCommit(cfg, doc, before, staged, expected)
    requires SupersededSet(cfg, doc.cells, cfg.cells.Keys + cfg.states.Keys) == {}
    ensures expected.Keys == before.Keys + staged
    ensures forall a :: a in before ==> expected[a] == before[a]
  {
    hide SupersededSet;
  }

  lemma NothingYet(h: seq<Snapshot>, before: map<Account, Value>)
    ensures SafeFrom(h, |h|, before, {}, Absent)
  {
  }

  /** Nothing is resolved right after the inventory, so nothing is misread. */
  lemma NoneMisread(original: map<Key, Cell>, cells: map<Key, Cell>, states: map<Key, FieldState>, fields: set<Key>)
    requires AllTrace(original, cells, states)
    requires forall k :: k in states ==> !states[k].status.Backed? && !states[k].status.Preserved?
    ensures NonePreserved(states) && !exists k :: k in fields && Misread(original, cells, states, k)
  {
  }

  /** Whatever the store answered for each field, writing back a config nobody has changed puts
      every reference back as it was, deletes nothing, and stages only for fields that held a
      secret in the clear. */
  lemma WriteBackIsVerbatim(original: map<Key, Cell>, cells: map<Key, Cell>, states: map<Key, FieldState>,
                            doc: Document, staged: set<Account>, disabled: bool)
    requires AllTrace(original, cells, states) && doc.Document?
    requires WrittenAs(Unchanged(original, cells, states), doc, staged, disabled)
    ensures doc.cells.Keys == original.Keys
    ensures forall k :: k in original && !original[k].value.Plain? ==> doc.cells[k] == original[k]
    ensures forall a :: a in staged ==> a.binding.ToKey() in original && original[a.binding.ToKey()].value.Plain?
    ensures SupersededSet(Unchanged(original, cells, states), doc.cells, cells.Keys + states.Keys) == {}
    ensures !disabled ==> forall k :: k in doc.cells ==> !doc.cells[k].value.Plain?
  {
    hide AllTrace, WrittenAs, Superseded;
    var cfg := Unchanged(original, cells, states);
    WrittenKeys(original, cells, states, doc, staged, disabled);
    forall k | k in original
      ensures !original[k].value.Plain? ==> doc.cells[k] == original[k]
      ensures !disabled ==> !doc.cells[k].value.Plain?
    {
      FieldIsVerbatim(original, cells, states, doc, staged, disabled, k);
    }
    forall k | k in states ensures !Superseded(cfg, k, doc.cells) {
      FieldIsKept(original, cells, states, doc.cells, k);
    }
  }

  lemma WrittenKeys(original: map<Key, Cell>, cells: map<Key, Cell>, states: map<Key, FieldState>, doc: Document,
                    staged: set<Account>, disabled: bool)
    requires AllTrace(original, cells, states) && WrittenAs(Unchanged(original, cells, states), doc, staged, disabled)
    ensures doc.Document? && doc.cells.Keys == original.Keys
    ensures forall a :: a in staged ==> a.binding.ToKey() in original && original[a.binding.ToKey()].value.Plain?
  {
    forall a | a in staged ensures a.binding.ToKey() in original && original[a.binding.ToKey()].value.Plain? {
      var k := a.binding.ToKey();
      assert k in cells && cells[k].value.Plain? && !Untouched(Unchanged(original, cells, states), k);
      assert Traces(original[k], cells[k], StateOf(states, k));
    }
  }

  lemma FieldIsKept(original: map<Key, Cell>, cells: map<Key, Cell>, states: map<Key, FieldState>,
                    written: map<Key, Cell>, k: Key)
    requires AllTrace(original, cells, states) && k in states
    ensures !Superseded(Unchanged(original, cells, states), k, written)
  {
    assert Traces(original[k], cells[k], StateOf(states, k));
  }

  lemma FieldIsVerbatim(original: map<Key, Cell>, cells: map<Key, Cell>, states: map<Key, FieldState>, doc: Document,
                        staged: set<Account>, disabled: bool, k: Key)
    requires AllTrace(original, cells, states) && k in original
    requires WrittenAs(Unchanged(original, cells, states), doc, staged, disabled)
    ensures !original[k].value.Plain? ==> doc.cells[k] == original[k]
    ensures !disabled ==> !doc.cells[k].value.Plain?
  {
    assert Traces(original[k], cells[k], StateOf(states, k));
    assert Untouched(Unchanged(original, cells, states), k) || k !in states || states[k].status.Unresolved?;
  }
}
