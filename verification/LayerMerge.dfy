/** Layered configs (internal/config/merge.go, and mergeKeychainRuntime in keychain.go): what a
    higher layer changes, and what a fold of layers is. */
module LayerMerge {
  import opened CredentialNames
  import opened Wrappers

  /** A stack or cloud entry; all but the document it comes from is its body. */
  datatype Entry = Entry(source: string, body: nat)

  type Entries = Option<map<string, Option<Entry>>>

  datatype Context = Context(stack: string, cloud: string, datasources: Option<map<string, string>>)

  datatype Diagnostics = Diagnostics(invocationLog: bool, logDir: string, telemetry: string)

  /** None stands for a nil map or pointer. */
  datatype Config = Config(version: nat, current: string, stacks: Entries, cloud: Entries,
                           resources: Option<Option<seq<string>>>, policy: Option<nat>,
                           contexts: Option<map<string, Option<Context>>>, diagnostics: Option<Diagnostics>,
                           deferred: bool, source: string,
                           states: map<Key, nat>, mutations: set<Key>, origins: map<Key, nat>)

  function Or(over: string, base: string): string {
    if over != "" then over else base
  }

  function Lookup<V>(m: Option<map<string, V>>, name: string): Option<V> {
    if m.Some? && name in m.value then Some(m.value[name]) else None
  }

  /** maps.Copy onto a map that is made when it is nil. */
  function Overlay<V>(base: Option<map<string, V>>, over: Option<map<string, V>>): Option<map<string, V>> {
    match over
    case None => base
    case Some(o) => Some((if base.Some? then base.value else map[]) + o)
  }

  function MergeContext(base: Option<Context>, over: Option<Context>): Option<Context> {
    if base.None? then over
    else if over.None? then base
    else Some(Context(Or(over.value.stack, base.value.stack), Or(over.value.cloud, base.value.cloud),
                      Overlay(base.value.datasources, over.value.datasources)))
  }

  function MergeContextMaps(base: map<string, Option<Context>>, over: map<string, Option<Context>>)
    : map<string, Option<Context>>
  {
    map n | n in base.Keys + over.Keys ::
      if n !in over then base[n] else if n !in base then over[n] else MergeContext(base[n], over[n])
  }

  function MergeContexts(base: Option<map<string, Option<Context>>>, over: Option<map<string, Option<Context>>>)
    : Option<map<string, Option<Context>>>
  {
    match over
    case None => base
    case Some(o) => Some(MergeContextMaps(if base.Some? then base.value else map[], o))
  }

  function MergeDiagnostics(base: Option<Diagnostics>, over: Option<Diagnostics>): Option<Diagnostics> {
    if over.None? then base
    else if base.None? then over
    else Some(Diagnostics(base.value.invocationLog || over.value.invocationLog,
                          Or(over.value.logDir, base.value.logDir), Or(over.value.telemetry, base.value.telemetry)))
  }

  function MergeResources(base: Option<Option<seq<string>>>, over: Option<Option<seq<string>>>)
    : Option<Option<seq<string>>>
  {
    if over.None? then base else if base.None? then over
    else Some(if over.value.Some? then over.value else base.value)
  }

  const STACK_OWNER := "stack:"

  const CLOUD_OWNER := "cloud:"

  /** The entry of an owner. */
  function EntryOf(stacks: Entries, cloud: Entries, owner: string): Option<Option<Entry>> {
    if HasPrefix(owner, STACK_OWNER) then Lookup(stacks, owner[|STACK_OWNER|..])
    else if HasPrefix(owner, CLOUD_OWNER) then Lookup(cloud, owner[|CLOUD_OWNER|..])
    else None
  }

  /** The key belongs to the document that defines the owner's entry. */
  predicate Active(stacks: Entries, cloud: Entries, k: Key) {
    match EntryOf(stacks, cloud, k.owner)
    case Some(Some(e)) => e.source == k.source
    case _ => false
  }

  function Retain(stacks: Entries, cloud: Entries, m: map<Key, nat>): map<Key, nat> {
    map k | k in m && Active(stacks, cloud, k) :: m[k]
  }

  function RetainSet(stacks: Entries, cloud: Entries, s: set<Key>): set<Key> {
    set k | k in s && Active(stacks, cloud, k)
  }

  function Merge(base: Config, over: Config): Config {
    var stacks, cloud := Overlay(base.stacks, over.stacks), Overlay(base.cloud, over.cloud);
    Config(if over.version > base.version then over.version else base.version,
           Or(over.current, base.current), stacks, cloud,
           MergeResources(base.resources, over.resources),
           if over.policy.Some? then over.policy else base.policy,
           MergeContexts(base.contexts, over.contexts),
           MergeDiagnostics(base.diagnostics, over.diagnostics),
           base.deferred || over.deferred,
           if base.source == over.source then base.source else "",
           Retain(stacks, cloud, base.states + over.states),
           RetainSet(stacks, cloud, base.mutations + over.mutations),
           Retain(stacks, cloud, base.origins + over.origins))
  }

  // ---------------------------------------------------------------------------
  // MergeConfigs, step by step
  // ---------------------------------------------------------------------------

  method MergeConfigs(base: Config, over: Config) returns (result: Config)
    ensures result == Merge(base, over)
  {
    hide Overlay, MergeContexts, MergeDiagnostics, MergeResources, Retain, RetainSet, Or;
    result := MergeScalars(base, over);
    var stacks := CopyMap(base.stacks, over.stacks);
    var cloud := CopyMap(base.cloud, over.cloud);
    var resources := CopyResources(base.resources, over.resources);
    result := result.(stacks := stacks, cloud := cloud, resources := resources);
    var contexts := CopyContextMap(base.contexts, over.contexts);
    var diagnostics := CopyDiagnostics(base.diagnostics, over.diagnostics);
    result := result.(contexts := contexts, diagnostics := diagnostics);
    var states := KeepActive(stacks, cloud, base.states, over.states);
    var origins := KeepActive(stacks, cloud, base.origins, over.origins);
    var mutations := RetainSet(stacks, cloud, base.mutations + over.mutations);
    result := result.(states := states, origins := origins, mutations := mutations);
  }

  method MergeScalars(base: Config, over: Config) returns (result: Config)
    ensures result == base.(deferred := base.deferred || over.deferred,
                            version := if over.version > base.version then over.version else base.version,
                            current := Or(over.current, base.current),
                            policy := if over.policy.Some? then over.policy else base.policy,
                            source := if base.source == over.source then base.source else "")
  {
    result := base.(deferred := base.deferred || over.deferred);
    if over.version > result.version {
      result := result.(version := over.version);
    }
    if over.current != "" {
      result := result.(current := over.current);
    }
    if over.policy.Some? {
      result := result.(policy := over.policy);
    }
    if base.source != over.source {
      result := result.(source := "");
    }
  }

  method CopyMap<V>(base: Option<map<string, V>>, over: Option<map<string, V>>) returns (r: Option<map<string, V>>)
    ensures r == Overlay(base, over)
  {
    r := base;
    if over.Some? {
      if r.None? {
        r := Some(map[]);
      }
      r := Some(r.value + over.value);
    }
  }

  method CopyResources(base: Option<Option<seq<string>>>, over: Option<Option<seq<string>>>)
    returns (r: Option<Option<seq<string>>>)
    ensures r == MergeResources(base, over)
  {
    r := base;
    if over.Some? {
      if r.None? || over.value.Some? {
        r := over;
      }
    }
  }

  method CopyDiagnostics(base: Option<Diagnostics>, over: Option<Diagnostics>) returns (r: Option<Diagnostics>)
    ensures r == MergeDiagnostics(base, over)
  {
    if over.None? || base.None? {
      return if over.None? then base else over;
    }
    var d := base.value;
    if over.value.invocationLog {
      d := d.(invocationLog := true);
    }
    if over.value.logDir != "" {
      d := d.(logDir := over.value.logDir);
    }
    if over.value.telemetry != "" {
      d := d.(telemetry := over.value.telemetry);
    }
    r := Some(d);
  }

  method CopyContextMap(base: Option<map<string, Option<Context>>>, over: Option<map<string, Option<Context>>>)
    returns (r: Option<map<string, Option<Context>>>)
    ensures r == MergeContexts(base, over)
  {
    r := base;
    if over.Some? {
      var contexts := CopyContexts(if base.Some? then base.value else map[], over.value);
      r := Some(contexts);
    }
  }

  method CopyContexts(base: map<string, Option<Context>>, over: map<string, Option<Context>>)
    returns (result: map<string, Option<Context>>)
    ensures result == MergeContextMaps(base, over)
  {
    result := base;
    var names := over.Keys;
    while names != {}
      invariant names <= over.Keys && result.Keys == base.Keys + (over.Keys - names)
      invariant forall n :: n in result ==>
        result[n] == if n in over.Keys - names then MergeContextMaps(base, over)[n] else base[n]
    {
      var n :| n in names;
      names := names - {n};
      result := result[n := if n in result then MergeContext(result[n], over[n]) else over[n]];
    }
  }

  /** The loop of mergeKeychainRuntime over the two configs. */
  method KeepActive(stacks: Entries, cloud: Entries, base: map<Key, nat>, over: map<Key, nat>)
    returns (result: map<Key, nat>)
    ensures result == Retain(stacks, cloud, base + over)
  {
    result := CopyActive(stacks, cloud, map[], base);
    result := CopyActive(stacks, cloud, result, over);
  }

  method CopyActive(stacks: Entries, cloud: Entries, into: map<Key, nat>, from: map<Key, nat>)
    returns (result: map<Key, nat>)
    ensures result == into + Retain(stacks, cloud, from)
  {
    hide Active, Retain;
    result := into;
    var keys := from.Keys;
    assert from - keys == map[];
    assert Retain(stacks, cloud, map[]) == map[] by { NothingRetained(stacks, cloud); }
    while keys != {}
      invariant keys <= from.Keys && result == into + Retain(stacks, cloud, from - keys)
    {
      var k :| k in keys;
      assert from - (keys - {k}) == (from - keys)[k := from[k]];
      RetainOneMore(stacks, cloud, from - keys, k, from[k]);
      keys := keys - {k};
      if Active(stacks, cloud, k) {
        result := result[k := from[k]];
      }
    }
    assert from - keys == from;
  }

  lemma NothingRetained(stacks: Entries, cloud: Entries)
    ensures Retain(stacks, cloud, map[]) == map[]
  {
  }

  lemma RetainOneMore(stacks: Entries, cloud: Entries, m: map<Key, nat>, k: Key, v: nat)
    requires k !in m
    ensures Retain(stacks, cloud, m[k := v])
         == if Active(stacks, cloud, k) then Retain(stacks, cloud, m)[k := v] else Retain(stacks, cloud, m)
  {
    hide Active;
  }

  // ---------------------------------------------------------------------------
  // Grouping does not matter
  // ---------------------------------------------------------------------------

  /** All but the credential bookkeeping. */
  function Visible(c: Config): Config {
    c.(states := map[], mutations := {}, origins := map[])
  }

  lemma OverlayAssociative<V>(a: Option<map<string, V>>, b: Option<map<string, V>>, c: Option<map<string, V>>)
    ensures Overlay(Overlay(a, b), c) == Overlay(a, Overlay(b, c))
  {
    if b.Some? && c.Some? {
      var x := if a.Some? then a.value else map[];
      assert (x + b.value) + c.value == x + (b.value + c.value);
    } else if c.Some? {
      assert map[] + c.value == c.value;
    }
  }

  lemma ContextAssociative(a: Option<Context>, b: Option<Context>, c: Option<Context>)
    ensures MergeContext(MergeContext(a, b), c) == MergeContext(a, MergeContext(b, c))
  {
    if a.Some? && b.Some? && c.Some? {
      OverlayAssociative(a.value.datasources, b.value.datasources, c.value.datasources);
    }
  }

  lemma ContextMapsAssociative(a: map<string, Option<Context>>, b: map<string, Option<Context>>,
                               c: map<string, Option<Context>>)
    ensures MergeContextMaps(MergeContextMaps(a, b), c) == MergeContextMaps(a, MergeContextMaps(b, c))
  {
    var l, r := MergeContextMaps(MergeContextMaps(a, b), c), MergeContextMaps(a, MergeContextMaps(b, c));
    assert l.Keys == r.Keys;
    forall n | n in l ensures l[n] == r[n] {
      if n in a && n in b && n in c {
        ContextAssociative(a[n], b[n], c[n]);
      }
    }
  }

  lemma ContextsAssociative(a: Option<map<string, Option<Context>>>, b: Option<map<string, Option<Context>>>,
                            c: Option<map<string, Option<Context>>>)
    ensures MergeContexts(MergeContexts(a, b), c) == MergeContexts(a, MergeContexts(b, c))
  {
    if b.Some? && c.Some? {
      ContextMapsAssociative(if a.Some? then a.value else map[], b.value, c.value);
    }
    if c.Some? && b.None? {
      assert MergeContexts(b, c).Some?;
      assert MergeContextMaps(map[], c.value) == c.value;
    }
  }

  /** Merging layers is independent of their grouping. */
  lemma MergeAssociative(a: Config, b: Config, c: Config)
    ensures Visible(Merge(Merge(a, b), c)) == Visible(Merge(a, Merge(b, c)))
  {
    OverlayAssociative(a.stacks, b.stacks, c.stacks);
    OverlayAssociative(a.cloud, b.cloud, c.cloud);
    ContextsAssociative(a.contexts, b.contexts, c.contexts);
    hide Overlay, MergeContexts, Retain, RetainSet;
  }

  /** The loop of loadLayeredSources: the layers folded from the lowest up. */
  function Fold(layers: seq<Config>): Config
    requires layers != []
  {
    if |layers| == 1 then layers[0] else Merge(Fold(layers[..|layers| - 1]), layers[|layers| - 1])
  }

  /** Any part of the layers may be folded first. */
  lemma {:induction false} FoldSplits(low: seq<Config>, high: seq<Config>)
    requires low != [] && high != []
    ensures Visible(Fold(low + high)) == Visible(Merge(Fold(low), Fold(high)))
    decreases |high|
  {
    var all, n := low + high, |high| - 1;
    assert all[..|all| - 1] == low + high[..n] && all[|all| - 1] == high[n];
    if n == 0 {
      assert low + high[..0] == low;
    } else {
      FoldSplits(low, high[..n]);
      hide Fold, Merge;
      MergeVisible(Fold(low + high[..n]), Merge(Fold(low), Fold(high[..n])), high[n]);
      MergeAssociative(Fold(low), Fold(high[..n]), high[n]);
      FoldLast(all);
      FoldLast(high);
    }
  }

  lemma FoldLast(layers: seq<Config>)
    requires |layers| > 1
    ensures Fold(layers) == Merge(Fold(layers[..|layers| - 1]), layers[|layers| - 1])
  {
  }

  lemma MergeVisible(a: Config, b: Config, c: Config)
    requires Visible(a) == Visible(b)
    ensures Visible(Merge(a, c)) == Visible(Merge(b, c))
  {
  }

  // ---------------------------------------------------------------------------
  // Which layer an entry and its credentials come from
  // ---------------------------------------------------------------------------

  function Defines(c: Config, owner: string): bool {
    EntryOf(c.stacks, c.cloud, owner).Some?
  }

  /** The highest layer that defines the owner, or -1. */
  function Highest(layers: seq<Config>, owner: string): (i: int)
    ensures -1 <= i < |layers|
    ensures i >= 0 ==> Defines(layers[i], owner)
    ensures forall j :: i < j < |layers| ==> !Defines(layers[j], owner)
  {
    if layers == [] then -1
    else if Defines(layers[|layers| - 1], owner) then |layers| - 1
    else Highest(layers[..|layers| - 1], owner)
  }

  lemma OverlayLookup<V>(a: Option<map<string, V>>, b: Option<map<string, V>>, n: string)
    ensures Lookup(Overlay(a, b), n) == if Lookup(b, n).Some? then Lookup(b, n) else Lookup(a, n)
  {
  }

  lemma EntryOfMerge(a: Config, b: Config, owner: string)
    ensures var m, top := Merge(a, b), EntryOf(b.stacks, b.cloud, owner);
            EntryOf(m.stacks, m.cloud, owner) == if top.Some? then top else EntryOf(a.stacks, a.cloud, owner)
  {
    hide Overlay, Lookup;
    if HasPrefix(owner, STACK_OWNER) {
      OverlayLookup(a.stacks, b.stacks, owner[|STACK_OWNER|..]);
    } else if HasPrefix(owner, CLOUD_OWNER) {
      OverlayLookup(a.cloud, b.cloud, owner[|CLOUD_OWNER|..]);
    }
  }

  /** Folding gives each stack and cloud entry whole, from the highest layer that defines it. */
  lemma {:induction false} EntryFromHighest(layers: seq<Config>, owner: string)
    requires layers != []
    ensures var f, i := Fold(layers), Highest(layers, owner);
            EntryOf(f.stacks, f.cloud, owner) == if i < 0 then None
              else EntryOf(layers[i].stacks, layers[i].cloud, owner)
    decreases |layers|
  {
    if |layers| == 1 {
      assert Highest(layers[..0], owner) == -1;
    } else {
      var init := layers[..|layers| - 1];
      EntryFromHighest(init, owner);
      EntryOfMerge(Fold(init), layers[|layers| - 1], owner);
      FoldLast(layers);
      hide Merge, Fold, EntryOf;
    }
  }

  /** The owner of a stack is "stack:" and its name, that of a Cloud entry "cloud:" and its name. */
  lemma EntryOfNames(c: Config, n: string)
    ensures EntryOf(c.stacks, c.cloud, "stack:" + n)
         == if c.stacks.Some? && n in c.stacks.value then Some(c.stacks.value[n]) else None
    ensures EntryOf(c.stacks, c.cloud, "cloud:" + n)
         == if c.cloud.Some? && n in c.cloud.value then Some(c.cloud.value[n]) else None
  {
    var s, t := STACK_OWNER + n, CLOUD_OWNER + n;
    assert s[..|STACK_OWNER|] == STACK_OWNER && s[|STACK_OWNER|..] == n;
    assert t[..|CLOUD_OWNER|] == CLOUD_OWNER && t[|CLOUD_OWNER|..] == n;
    assert t[0] == 'c' && STACK_OWNER[0] == 's';
  }

  // ---------------------------------------------------------------------------
  // Which layer everything else comes from
  // ---------------------------------------------------------------------------

  /** Merging takes this part of a config from the higher layer where that has it. */
  ghost predicate HigherWins<T(!new)>(part: Config -> Option<T>) {
    forall a, b :: part(Merge(a, b)) == if part(b).Some? then part(b) else part(a)
  }

  /** Such a part of the fold is that of the highest layer that has it. */
  lemma {:induction false} FromHighest<T(!new)>(part: Config -> Option<T>, layers: seq<Config>) returns (i: int)
    requires layers != [] && HigherWins(part)
    ensures -1 <= i < |layers| && forall j :: i < j < |layers| ==> part(layers[j]).None?
    ensures part(Fold(layers)) == if i < 0 then None else part(layers[i])
    ensures i >= 0 ==> part(layers[i]).Some?
    decreases |layers|
  {
    var last := |layers| - 1;
    if part(layers[last]).Some? || last == 0 {
      i := if part(layers[last]).Some? then last else -1;
    } else {
      i := FromHighest(part, layers[..last]);
    }
    if last > 0 {
      FoldLast(layers);
      hide Fold, Merge;
      assert part(Merge(Fold(layers[..last]), layers[last]))
          == if part(layers[last]).Some? then part(layers[last]) else part(Fold(layers[..last]));
    }
  }

  function Filled(s: string): Option<string> {
    if s == "" then None else Some(s)
  }

  /** The context of a name, where it is there and not null. */
  function ContextOf(c: Config, n: string): Option<Context> {
    if c.contexts.Some? && n in c.contexts.value then c.contexts.value[n] else None
  }

  /** The current context is the one of the highest layer that names one. */
  lemma CurrentFromHighest(layers: seq<Config>) returns (i: int)
    requires layers != []
    ensures -1 <= i < |layers| && forall j :: i < j < |layers| ==> layers[j].current == ""
    ensures if i < 0 then Fold(layers).current == ""
            else layers[i].current != "" && Fold(layers).current == layers[i].current
  {
    var part := (c: Config) => Filled(c.current);
    assert HigherWins(part) by { hide Overlay, MergeContexts, MergeDiagnostics, Retain, RetainSet; }
    i := FromHighest(part, layers);
    assert forall j :: 0 <= j < |layers| ==> part(layers[j]) == Filled(layers[j].current);
  }

  /** So is the credential policy, where a layer has one. */
  lemma PolicyFromHighest(layers: seq<Config>) returns (i: int)
    requires layers != []
    ensures -1 <= i < |layers| && forall j :: i < j < |layers| ==> layers[j].policy.None?
    ensures if i < 0 then Fold(layers).policy.None?
            else layers[i].policy.Some? && Fold(layers).policy == layers[i].policy
  {
    var part := (c: Config) => c.policy;
    assert HigherWins(part) by { hide Overlay, MergeContexts, MergeDiagnostics, Retain, RetainSet; }
    i := FromHighest(part, layers);
    assert forall j :: 0 <= j < |layers| ==> part(layers[j]) == layers[j].policy;
  }

  /** The resource settings are there when a layer has them, and their list is that of the highest
      layer that has one. */
  lemma ResourcesFromHighest(layers: seq<Config>) returns (i: int)
    requires layers != []
    ensures Fold(layers).resources.Some? <==> exists c :: c in layers && c.resources.Some?
    ensures -1 <= i < |layers|
    ensures forall j :: i < j < |layers| ==> layers[j].resources.None? || layers[j].resources.value.None?
    ensures if i < 0 then Fold(layers).resources.None? || Fold(layers).resources.value.None?
            else layers[i].resources.Some? && layers[i].resources.value.Some?
                 && Fold(layers).resources == layers[i].resources
  {
    var part := (c: Config) => if c.resources.Some? then c.resources.value else None;
    var there := (c: Config) => if c.resources.Some? then Some(true) else None;
    assert HigherWins(part) && HigherWins(there) by {
      hide Overlay, MergeContexts, MergeDiagnostics, Retain, RetainSet;
    }
    i := FromHighest(part, layers);
    var k := FromHighest(there, layers);
    assert forall j :: 0 <= j < |layers| ==> there(layers[j]).Some? == layers[j].resources.Some?;
    assert there(Fold(layers)).Some? == Fold(layers).resources.Some?;
    assert k >= 0 ==> layers[k] in layers;
    assert part(Fold(layers)) == if Fold(layers).resources.Some? then Fold(layers).resources.value else None;
    assert forall j :: 0 <= j < |layers| ==>
      part(layers[j]) == if layers[j].resources.Some? then layers[j].resources.value else None;
  }

  /** A context exists when a layer has it, and its stack is that of the highest layer whose
      context of that name has a stack. */
  lemma StackFromHighest(layers: seq<Config>, n: string) returns (i: int)
    requires layers != []
    ensures ContextOf(Fold(layers), n).Some? <==> exists c :: c in layers && ContextOf(c, n).Some?
    ensures -1 <= i < |layers|
    ensures forall j :: i < j < |layers| ==> ContextOf(layers[j], n).None? || ContextOf(layers[j], n).value.stack == ""
    ensures match ContextOf(Fold(layers), n)
            case None => i < 0
            case Some(ctx) =>
              if i < 0 then ctx.stack == ""
              else ContextOf(layers[i], n).Some? && ctx.stack == ContextOf(layers[i], n).value.stack != ""
  {
    var there := (c: Config) => if ContextOf(c, n).Some? then Some(true) else None;
    var part := (c: Config) => if ContextOf(c, n).Some? then Filled(ContextOf(c, n).value.stack) else None;
    forall a, b
      ensures there(Merge(a, b)) == if there(b).Some? then there(b) else there(a)
      ensures part(Merge(a, b)) == if part(b).Some? then part(b) else part(a)
    {
      ContextOfMerge(a, b, n);
      hide Merge, ContextOf, Overlay;
    }
    assert HigherWins(there) && HigherWins(part);
    var t := FromHighest(there, layers);
    i := FromHighest(part, layers);
    hide ContextOf, Fold, HigherWins;
    var f := Fold(layers);
    assert forall j :: 0 <= j < |layers| ==> there(layers[j]).Some? == ContextOf(layers[j], n).Some?;
    assert there(f).Some? == ContextOf(f, n).Some? && (t >= 0 ==> layers[t] in layers);
    assert part(f) == if ContextOf(f, n).Some? then Filled(ContextOf(f, n).value.stack) else None;
  }

  /** So is its Cloud entry. */
  lemma CloudFromHighest(layers: seq<Config>, n: string) returns (i: int)
    requires layers != []
    ensures -1 <= i < |layers|
    ensures forall j :: i < j < |layers| ==> ContextOf(layers[j], n).None? || ContextOf(layers[j], n).value.cloud == ""
    ensures match ContextOf(Fold(layers), n)
            case None => i < 0
            case Some(ctx) =>
              if i < 0 then ctx.cloud == ""
              else ContextOf(layers[i], n).Some? && ctx.cloud == ContextOf(layers[i], n).value.cloud != ""
  {
    var part := (c: Config) => if ContextOf(c, n).Some? then Filled(ContextOf(c, n).value.cloud) else None;
    forall a, b ensures part(Merge(a, b)) == if part(b).Some? then part(b) else part(a) {
      ContextOfMerge(a, b, n);
      hide Merge, ContextOf, Overlay;
    }
    assert HigherWins(part);
    i := FromHighest(part, layers);
    hide ContextOf, Fold, HigherWins;
    var f := Fold(layers);
    assert part(f) == if ContextOf(f, n).Some? then Filled(ContextOf(f, n).value.cloud) else None;
  }

  /** The datasource of each kind is that of the highest layer whose context of that name has one,
      even an empty one. */
  lemma DatasourceFromHighest(layers: seq<Config>, n: string, kind: string) returns (i: int)
    requires layers != []
    ensures -1 <= i < |layers|
    ensures forall j :: i < j < |layers| ==>
              match ContextOf(layers[j], n) case Some(Context(_, _, Some(d))) => kind !in d case _ => true
    ensures match ContextOf(Fold(layers), n)
            case None => i < 0
            case Some(ctx) =>
              if i < 0 then ctx.datasources.None? || kind !in ctx.datasources.value
              else match ContextOf(layers[i], n)
                   case Some(Context(_, _, Some(d))) =>
                     kind in d && ctx.datasources.Some? && kind in ctx.datasources.value
                     && ctx.datasources.value[kind] == d[kind]
                   case _ => false
  {
    var part := (c: Config) =>
      if ContextOf(c, n).Some? then Lookup(ContextOf(c, n).value.datasources, kind) else None;
    forall a, b ensures part(Merge(a, b)) == if part(b).Some? then part(b) else part(a) {
      ContextOfMerge(a, b, n);
      hide Merge, ContextOf;
      if ContextOf(a, n).Some? && ContextOf(b, n).Some? {
        OverlayLookup(ContextOf(a, n).value.datasources, ContextOf(b, n).value.datasources, kind);
        hide Overlay, Lookup;
      }
    }
    assert HigherWins(part);
    i := FromHighest(part, layers);
    hide ContextOf, Fold, HigherWins;
  }

  lemma ContextOfMerge(a: Config, b: Config, n: string)
    ensures ContextOf(Merge(a, b), n) == MergeContext(ContextOf(a, n), ContextOf(b, n))
  {
    hide Overlay, MergeContext, MergeDiagnostics, MergeResources, Retain, RetainSet;
    NoContext(ContextOf(a, n));
    NoContext(ContextOf(b, n));
  }

  lemma NoContext(c: Option<Context>)
    ensures MergeContext(c, None) == c && MergeContext(None, c) == c
  {
  }

  /** The diagnostics are there when a layer has them, and their log is on when a layer turns it
      on. */
  lemma LogFromAny(layers: seq<Config>)
    requires layers != []
    ensures Fold(layers).diagnostics.Some? <==> exists c :: c in layers && c.diagnostics.Some?
    ensures Fold(layers).diagnostics.Some? && Fold(layers).diagnostics.value.invocationLog
            <==> exists c :: c in layers && c.diagnostics.Some? && c.diagnostics.value.invocationLog
  {
    var there := (c: Config) => if c.diagnostics.Some? then Some(true) else None;
    var log := (c: Config) => if c.diagnostics.Some? && c.diagnostics.value.invocationLog then Some(true) else None;
    assert HigherWins(there) && HigherWins(log) by {
      hide Overlay, MergeContexts, MergeResources, Retain, RetainSet, Or;
    }
    var t := FromHighest(there, layers);
    var l := FromHighest(log, layers);
    hide Fold, HigherWins;
    var f := Fold(layers);
    assert there(f).Some? == f.diagnostics.Some?;
    assert log(f).Some? <==> f.diagnostics.Some? && f.diagnostics.value.invocationLog;
    assert (t >= 0 ==> layers[t] in layers) && (l >= 0 ==> layers[l] in layers);
  }

  /** Each string of the diagnostics is that of the highest layer that fills it. */
  lemma DiagnosticsFromHighest(layers: seq<Config>) returns (i: int, k: int)
    requires layers != []
    ensures -1 <= i < |layers| && -1 <= k < |layers|
    ensures forall j :: i < j < |layers| ==>
              layers[j].diagnostics.None? || layers[j].diagnostics.value.logDir == ""
    ensures forall j :: k < j < |layers| ==>
              layers[j].diagnostics.None? || layers[j].diagnostics.value.telemetry == ""
    ensures match Fold(layers).diagnostics
            case None => i < 0 && k < 0
            case Some(d) =>
              && (if i < 0 then d.logDir == ""
                  else layers[i].diagnostics.Some? && d.logDir == layers[i].diagnostics.value.logDir != "")
              && (if k < 0 then d.telemetry == ""
                  else layers[k].diagnostics.Some? && d.telemetry == layers[k].diagnostics.value.telemetry != "")
  {
    var dir := (c: Config) => if c.diagnostics.Some? then Filled(c.diagnostics.value.logDir) else None;
    var telemetry := (c: Config) => if c.diagnostics.Some? then Filled(c.diagnostics.value.telemetry) else None;
    assert HigherWins(dir) && HigherWins(telemetry) by {
      hide Overlay, MergeContexts, MergeResources, Retain, RetainSet;
    }
    i := FromHighest(dir, layers);
    k := FromHighest(telemetry, layers);
    hide Fold, HigherWins;
    var f := Fold(layers);
    assert dir(f) == if f.diagnostics.Some? then Filled(f.diagnostics.value.logDir) else None;
    assert telemetry(f) == if f.diagnostics.Some? then Filled(f.diagnostics.value.telemetry) else None;
  }

  /** The version is the greatest one, a deferred migration of any layer defers, and the source is
      kept only when all layers have the same. */
  lemma {:induction false} FoldOfScalars(layers: seq<Config>)
    requires layers != []
    ensures forall c :: c in layers ==> c.version <= Fold(layers).version
    ensures exists c :: c in layers && c.version == Fold(layers).version
    ensures Fold(layers).deferred <==> exists c :: c in layers && c.deferred
    ensures Fold(layers).source
         == if forall c :: c in layers ==> c.source == layers[0].source then layers[0].source else ""
    decreases |layers|
  {
    hide Overlay, MergeContexts, MergeDiagnostics, MergeResources, Retain, RetainSet, Or;
    var last := |layers| - 1;
    var init, top := layers[..last], layers[last];
    assert layers == init + [top];
    if last > 0 {
      FoldOfScalars(init);
      FoldLast(layers);
      var low := Fold(init);
      hide Fold;
      assert forall c :: c in layers <==> c in init || c == top;
    }
  }

  /** What a config keeps about a key. */
  datatype Runtime = Runtime(state: Option<nat>, mutated: bool, origin: Option<nat>)

  const NOTHING := Runtime(None, false, None)

  function At(c: Config, k: Key): Runtime {
    Runtime(if k in c.states then Some(c.states[k]) else None, k in c.mutations,
            if k in c.origins then Some(c.origins[k]) else None)
  }

  /** What a config keeps about a key belongs to an entry it defines, from the key's source. */
  predicate KeyActive(c: Config, k: Key) {
    At(c, k) != NOTHING ==> Active(c.stacks, c.cloud, k)
  }

  /** The layer has another entry in the place of the key's: one of another source, or none. */
  predicate Breaks(c: Config, k: Key) {
    Defines(c, k.owner) && !Active(c.stacks, c.cloud, k)
  }

  /** One above the highest layer with another entry in the place of the key's. */
  function Unbroken(layers: seq<Config>, k: Key): (n: nat)
    ensures n <= |layers|
    ensures n > 0 ==> Breaks(layers[n - 1], k)
    ensures forall j :: n <= j < |layers| ==> !Breaks(layers[j], k)
  {
    if layers == [] then 0
    else if Breaks(layers[|layers| - 1], k) then |layers|
    else Unbroken(layers[..|layers| - 1], k)
  }

  function Over(low: Runtime, high: Runtime): Runtime {
    Runtime(if high.state.Some? then high.state else low.state, low.mutated || high.mutated,
            if high.origin.Some? then high.origin else low.origin)
  }

  /** What layers keep about a key together, the higher ones first. */
  function Together(layers: seq<Config>, k: Key): Runtime {
    if layers == [] then NOTHING else Over(Together(layers[..|layers| - 1], k), At(layers[|layers| - 1], k))
  }

  lemma AtMerge(a: Config, b: Config, k: Key)
    ensures var m := Merge(a, b);
            At(m, k) == if Active(m.stacks, m.cloud, k) then Over(At(a, k), At(b, k)) else NOTHING
  {
    hide Active, Overlay;
  }

  /** Keychain states, mutations and origins survive the fold from exactly the layers above the
      last one that has another entry in the key's place. */
  lemma {:induction false} RuntimeOfBlock(layers: seq<Config>, k: Key)
    requires layers != [] && forall c :: c in layers ==> KeyActive(c, k)
    ensures At(Fold(layers), k) == Together(layers[Unbroken(layers, k)..], k) && KeyActive(Fold(layers), k)
    decreases |layers|
  {
    var n := |layers| - 1;
    var init, top := layers[..n], layers[n];
    assert top in layers && KeyActive(top, k);
    TogetherSnoc(layers, k);
    if n == 0 {
      assert Unbroken(init, k) == 0 && Together([], k) == NOTHING;
      NothingOver(At(top, k));
    } else {
      RuntimeOfBlock(init, k);
      FoldLast(layers);
      RuntimeStep(Fold(init), top, k);
    }
  }

  lemma NothingOver(r: Runtime)
    ensures Over(NOTHING, r) == r
  {
  }

  /** One more layer on top. */
  lemma RuntimeStep(low: Config, top: Config, k: Key)
    requires KeyActive(low, k) && KeyActive(top, k)
    ensures At(Merge(low, top), k) == if Breaks(top, k) then NOTHING else Over(At(low, k), At(top, k))
    ensures KeyActive(Merge(low, top), k)
  {
    EntryOfMerge(low, top, k.owner);
    AtMerge(low, top, k);
    hide Merge, EntryOf, At;
  }

  lemma TogetherSnoc(layers: seq<Config>, k: Key)
    requires layers != []
    ensures var init, top := layers[..|layers| - 1], layers[|layers| - 1];
            Together(layers[Unbroken(layers, k)..], k) ==
            if Breaks(top, k) then NOTHING else Over(Together(init[Unbroken(init, k)..], k), At(top, k))
  {
    var n, u := |layers| - 1, Unbroken(layers, k);
    if !Breaks(layers[n], k) {
      assert layers[u..][..n - u] == layers[..n][u..];
    }
  }

  /** Every entry of a layer carries the layer's own source, and so does every key; a key belongs
      to an entry that the layer defines. */
  ghost predicate OwnSource(c: Config) {
    && (forall owner: string ::
          match EntryOf(c.stacks, c.cloud, owner) case Some(Some(e)) => e.source == c.source case _ => true)
    && (forall k: Key :: KeyActive(c, k))
  }

  /** The layers are different documents. */
  ghost predicate Layered(layers: seq<Config>) {
    && (forall i :: 0 <= i < |layers| ==> OwnSource(layers[i]))
    && (forall i, j :: 0 <= i < j < |layers| ==> layers[i].source != layers[j].source)
  }

  /** Of different documents they survive exactly for the winning source of each owner, as the
      winning layer has them. */
  lemma RuntimeOfWinner(layers: seq<Config>, k: Key)
    requires layers != [] && Layered(layers)
    ensures var i := Highest(layers, k.owner);
            At(Fold(layers), k) == if i >= 0 && layers[i].source == k.source then At(layers[i], k) else NOTHING
  {
    hide KeyActive, At, Fold, Together, Breaks, Defines;
    forall j | 0 <= j < |layers| ensures KeyActive(layers[j], k) {
      assert OwnSource(layers[j]);
    }
    RuntimeOfBlock(layers, k);
    var i, u := Highest(layers, k.owner), Unbroken(layers, k);
    forall j | u <= j < |layers| && j != i ensures At(layers[j], k) == NOTHING {
      OnlyWinner(layers, k, j);
    }
    WinnerOrNone(layers, k);
    hide Layered, Highest, Unbroken;
    if i >= u {
      OneOfThem(layers[u..], k, i - u);
    } else {
      NoneOfThem(layers[u..], k);
    }
  }

  /** Of the layers above the break only the winning one keeps something. */
  lemma OnlyWinner(layers: seq<Config>, k: Key, j: nat)
    requires Layered(layers) && Unbroken(layers, k) <= j < |layers| && j != Highest(layers, k.owner)
    ensures At(layers[j], k) == NOTHING
  {
    var i := Highest(layers, k.owner);
    var layer := layers[j];
    assert OwnSource(layer) && KeyActive(layer, k);
    assert j > i ==> !Defines(layer, k.owner);
    assert j < i ==> OwnSource(layers[i]) && layers[i].source == k.source;
  }

  lemma WinnerOrNone(layers: seq<Config>, k: Key)
    requires Layered(layers)
    ensures var i := Highest(layers, k.owner);
            && (i >= Unbroken(layers, k) ==> layers[i].source == k.source)
            && (0 <= i < Unbroken(layers, k) && layers[i].source == k.source ==> At(layers[i], k) == NOTHING)
  {
    var i, u := Highest(layers, k.owner), Unbroken(layers, k);
    if i >= 0 {
      assert OwnSource(layers[i]) && KeyActive(layers[i], k);
      assert i < u ==> i == u - 1;
    }
  }

  lemma {:induction false} NoneOfThem(layers: seq<Config>, k: Key)
    requires forall j :: 0 <= j < |layers| ==> At(layers[j], k) == NOTHING
    ensures Together(layers, k) == NOTHING
  {
    if layers != [] {
      hide At;
      NoneOfThem(layers[..|layers| - 1], k);
    }
  }

  lemma {:induction false} OneOfThem(layers: seq<Config>, k: Key, i: nat)
    requires i < |layers| && forall j :: 0 <= j < |layers| && j != i ==> At(layers[j], k) == NOTHING
    ensures Together(layers, k) == At(layers[i], k)
  {
    hide At;
    var init := layers[..|layers| - 1];
    if i == |init| {
      NoneOfThem(init, k);
    } else {
      OneOfThem(init, k, i);
    }
  }
}
