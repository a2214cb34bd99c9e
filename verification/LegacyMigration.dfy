/** Conversion of the pre-versioned config format (internal/config/migrate.go) and the resolved
    view of a context (Resolve and unionDryRun in types.go). */
module LegacyMigration {
  import opened Wrappers
  import opened SortedStrings

  datatype Field = CloudTokenField | GrafanaTokenField | PasswordField | OAuthField | RefreshField | SMField

  /** The connection of a context; `rest` stands for the fields the conversion copies. */
  datatype Grafana = Grafana(server: string, token: string, password: string, oauth: string, refresh: string, rest: nat)

  type Providers = Option<map<string, Option<map<string, string>>>>

  datatype LegacyCloud = LegacyCloud(token: string, stack: string, apiUrl: string, oauthUrl: string)

  datatype Legacy = Legacy(grafana: Option<Grafana>, cloud: Option<LegacyCloud>, prometheus: string, loki: string,
                           pyroscope: string, tempo: string, datasources: map<string, string>, providers: Providers,
                           resources: Option<seq<string>>)

  datatype LegacyConfig = LegacyConfig(current: string, contexts: map<string, Option<Legacy>>)

  datatype Stack = Stack(slug: string, grafana: Option<Grafana>, providers: Providers, resources: Option<seq<string>>)

  datatype CloudEntry = CloudEntry(token: string, apiUrl: string, oauthUrl: string)

  datatype Context = Context(stack: string, cloud: string, datasources: map<string, string>)

  datatype Config = Config(current: string, contexts: map<string, Context>, stacks: map<string, Stack>,
                           cloud: map<string, CloudEntry>)

  /** What the conversion takes from elsewhere: the secrets it could resolve, the Cloud root of a
      server and the slug in its host ("" when there is none), the entry name made from a URL's host
      with the layer's suffix, and the normal form of a URL. */
  datatype Env = Env(secrets: map<(string, Field), string>, root: string -> string, slugOf: string -> string,
                     entryName: string -> string, normal: string -> string)

  function Secret(env: Env, name: string, field: Field, raw: string): string {
    if (name, field) in env.secrets then env.secrets[(name, field)] else raw
  }

  // ---------------------------------------------------------------------------
  // What a legacy context says
  // ---------------------------------------------------------------------------

  function LegacyGrafana(env: Env, name: string, l: Legacy): Option<Grafana> {
    match l.grafana
    case None => None
    case Some(g) =>
      Some(g.(token := Secret(env, name, GrafanaTokenField, g.token),
              password := Secret(env, name, PasswordField, g.password),
              oauth := Secret(env, name, OAuthField, g.oauth),
              refresh := Secret(env, name, RefreshField, g.refresh)))
  }

  function LegacyProviders(env: Env, name: string, l: Legacy): Providers {
    if l.providers.Some? && "synth" in l.providers.value && l.providers.value["synth"].Some?
       && "sm-token" in l.providers.value["synth"].value then
      var synth := l.providers.value["synth"].value;
      Some(l.providers.value["synth" := Some(synth["sm-token" := Secret(env, name, SMField, synth["sm-token"])])])
    else l.providers
  }

  function LegacySlug(l: Legacy): string {
    if l.cloud.Some? then l.cloud.value.stack else ""
  }

  predicate HasCloud(l: Legacy) {
    l.cloud.Some? && (l.cloud.value.token != "" || l.cloud.value.apiUrl != "" || l.cloud.value.oauthUrl != "")
  }

  /** The credential and its destination, with the endpoints the legacy format left implicit. */
  function LegacyEntry(env: Env, name: string, l: Legacy): CloudEntry
    requires HasCloud(l)
  {
    var c := l.cloud.value;
    var derived := if l.grafana.Some? then env.root(l.grafana.value.server) else "";
    var api := if c.apiUrl != "" then c.apiUrl else if c.oauthUrl != "" then c.oauthUrl
               else if derived != "" then derived else "https://grafana.com";
    CloudEntry(Secret(env, name, CloudTokenField, c.token), api, if c.oauthUrl != "" then c.oauthUrl else api)
  }

  function LegacyDefault(l: Legacy, kind: string): string {
    if kind == "prometheus" then l.prometheus
    else if kind == "loki" then l.loki
    else if kind == "pyroscope" then l.pyroscope
    else if kind == "tempo" then l.tempo
    else ""
  }

  /** The datasource of a kind: the map wins over the flat fields. */
  function LegacyDatasource(l: Legacy, kind: string): string {
    if kind in l.datasources && l.datasources[kind] != "" then l.datasources[kind] else LegacyDefault(l, kind)
  }

  /** The context has something that goes on a stack entry. */
  predicate StackShaped(l: Legacy) {
    l.grafana.Some? || (l.providers.Some? && l.providers.value != map[]) || l.resources.Some? || LegacySlug(l) != ""
  }

  // ---------------------------------------------------------------------------
  // The resolved view of a converted context
  // ---------------------------------------------------------------------------

  function StackOf(cfg: Config, ctx: Context): Option<Stack> {
    if ctx.stack != "" && ctx.stack in cfg.stacks then Some(cfg.stacks[ctx.stack]) else None
  }

  /** ResolveStackSlug: the stored slug, or else the one in the server's host. */
  function ResolvedSlug(env: Env, stack: Option<Stack>): string {
    if stack.None? then ""
    else if stack.value.slug != "" then stack.value.slug
    else if stack.value.grafana.None? || stack.value.grafana.value.server == "" then ""
    else env.slugOf(stack.value.grafana.value.server)
  }

  function CloudOf(cfg: Config, ctx: Context): Option<CloudEntry> {
    if ctx.cloud != "" && ctx.cloud in cfg.cloud then Some(cfg.cloud[ctx.cloud]) else None
  }

  function Value(m: map<string, string>, kind: string): string {
    if kind in m then m[kind] else ""
  }

  /** An empty provider map and a missing one look the same. */
  function Shown(p: Providers): Providers {
    if p == Some(map[]) then None else p
  }

  function DryRunOf(resources: Option<seq<string>>): set<string> {
    if resources.Some? then Members(resources.value) else {}
  }

  /** A converted context resolves to what the legacy context said. */
  ghost predicate SameView(env: Env, cfg: Config, name: string, l: Legacy, ctx: Context) {
    var stack := StackOf(cfg, ctx);
    && (if stack.Some? then stack.value.grafana else None) == LegacyGrafana(env, name, l)
    && Shown(if stack.Some? then stack.value.providers else None) == Shown(LegacyProviders(env, name, l))
    && (if stack.Some? then stack.value.slug else "") == LegacySlug(l)
    && DryRunOf(if stack.Some? then stack.value.resources else None) == DryRunOf(l.resources)
    && CloudOf(cfg, ctx) == (if HasCloud(l) then Some(LegacyEntry(env, name, l)) else None)
    && forall kind :: Value(ctx.datasources, kind) == LegacyDatasource(l, kind)
  }

  // ---------------------------------------------------------------------------
  // The conversion
  // ---------------------------------------------------------------------------

  /** convertLegacyStack. */
  function ConvertStack(env: Env, name: string, l: Legacy): Stack {
    Stack(LegacySlug(l), LegacyGrafana(env, name, l), LegacyProviders(env, name, l), l.resources)
  }

  /** mergeLegacyDatasources. */
  method MergeDatasources(l: Legacy) returns (merged: map<string, string>)
    ensures forall kind :: Value(merged, kind) == LegacyDatasource(l, kind)
  {
    merged := l.datasources;
    var kinds := {"prometheus", "loki", "pyroscope", "tempo"};
    while kinds != {}
      invariant kinds <= {"prometheus", "loki", "pyroscope", "tempo"}
      invariant forall kind ::
        Value(merged, kind) == if kind in kinds then Value(l.datasources, kind) else LegacyDatasource(l, kind)
    {
      var kind :| kind in kinds;
      kinds := kinds - {kind};
      var uid := LegacyDefault(l, kind);
      if uid != "" && Value(merged, kind) == "" {
        merged := merged[kind := uid];
      }
    }
  }

  /** The entry names given out so far, by what the entry holds. */
  predicate OneToOne(minted: map<CloudEntry, string>) {
    forall s, t :: s in minted && t in minted && minted[s] == minted[t] ==> s == t
  }

  /** The entries made so far and the names they were given. */
  datatype Mints = Mints(cloud: map<string, CloudEntry>, names: map<CloudEntry, string>)

  /** The first choice of a name comes from the API host, the second adds the context. */
  function SecondChoice(env: Env, e: CloudEntry, context: string): string {
    env.entryName(e.apiUrl) + "-" + context
  }

  function MintOne(env: Env, context: string, l: Option<Legacy>, m: Mints): Mints {
    if l.None? || !HasCloud(l.value) then m
    else
      var e := LegacyEntry(env, context, l.value);
      if e in m.names then m
      else
        var name := if env.entryName(e.apiUrl) in m.cloud then SecondChoice(env, e, context)
          else env.entryName(e.apiUrl);
        Mints(m.cloud[name := e], m.names[e := name])
  }

  /** What the contexts in `contexts` mint, in that order. */
  function MintAll(env: Env, lc: LegacyConfig, contexts: seq<string>): Mints
    requires forall n :: n in contexts ==> n in lc.contexts
  {
    if contexts == [] then Mints(map[], map[])
    else
      var last := |contexts| - 1;
      assert forall n :: n in contexts[..last] ==> n in contexts;
      MintOne(env, contexts[last], lc.contexts[contexts[last]], MintAll(env, lc, contexts[..last]))
  }

  /** The contexts of a config in the order they are converted in. */
  predicate InOrder(lc: LegacyConfig, contexts: seq<string>) {
    Increasing(contexts) && Members(contexts) == lc.contexts.Keys
  }

  /** The i-th context has a new credential, and the first and the second choice of a name for it
      are both taken by entries of earlier contexts. */
  predicate Overwrites(env: Env, lc: LegacyConfig, contexts: seq<string>, i: nat)
    requires i < |contexts| && forall n :: n in contexts ==> n in lc.contexts
  {
    var l := lc.contexts[contexts[i]];
    l.Some? && HasCloud(l.value)
    && (assert forall n :: n in contexts[..i] ==> n in contexts;
        var e, m := LegacyEntry(env, contexts[i], l.value), MintAll(env, lc, contexts[..i]);
        e !in m.names && env.entryName(e.apiUrl) in m.cloud && SecondChoice(env, e, contexts[i]) in m.cloud)
  }

  predicate Collides(env: Env, lc: LegacyConfig, contexts: seq<string>)
    requires forall n :: n in contexts ==> n in lc.contexts
  {
    exists i :: 0 <= i < |contexts| && Overwrites(env, lc, contexts, i)
  }

  lemma {:induction false} MintAllOk(env: Env, lc: LegacyConfig, contexts: seq<string>)
    requires forall n :: n in contexts ==> n in lc.contexts
    ensures MintedOk(MintAll(env, lc, contexts).cloud, MintAll(env, lc, contexts).names)
  {
    if contexts != [] {
      var last := |contexts| - 1;
      assert forall n :: n in contexts[..last] ==> n in contexts;
      MintAllOk(env, lc, contexts[..last]);
      hide LegacyEntry, HasCloud;
    }
  }

  lemma MintOneKeeps(m: Mints, e: CloudEntry, name: string)
    requires MintedOk(m.cloud, m.names) && e !in m.names
    ensures OneToOne(m.names[e := name]) <==> OneToOne(m.names) && name !in m.cloud
  {
    var now := m.names[e := name];
    assert forall s :: s in m.names ==> s in now && now[s] == m.names[s] && m.names[s] in m.cloud;
    if name in m.cloud {
      var other := m.cloud[name];
      assert other in now && now[other] == now[e] && other != e;
      assert !OneToOne(now);
    } else {
      assert forall s :: s in now && s != e ==> now[s] != name;
      assert OneToOne(now) <==> OneToOne(m.names);
    }
  }

  lemma CollidesMore(env: Env, lc: LegacyConfig, init: seq<string>, n: string)
    requires forall c :: c in init + [n] ==> c in lc.contexts
    ensures forall c :: c in init ==> c in lc.contexts
    ensures Collides(env, lc, init + [n]) <==> Collides(env, lc, init) || Overwrites(env, lc, init + [n], |init|)
  {
    assert forall c :: c in init ==> c in init + [n];
    forall i | 0 <= i < |init| ensures Overwrites(env, lc, init + [n], i) == Overwrites(env, lc, init, i) {
      assert (init + [n])[..i] == init[..i] && (init + [n])[i] == init[i];
    }
    hide Overwrites;
  }

  /** Two entries share a name exactly when some context finds both choices taken. */
  lemma {:induction false} CollidesExactly(env: Env, lc: LegacyConfig, contexts: seq<string>)
    requires forall n :: n in contexts ==> n in lc.contexts
    ensures Collides(env, lc, contexts) <==> !OneToOne(MintAll(env, lc, contexts).names)
  {
    if contexts != [] {
      hide LegacyEntry, HasCloud, OneToOne, MintedOk, SecondChoice, Collides;
      var last := |contexts| - 1;
      var init, n := contexts[..last], contexts[last];
      assert contexts == init + [n] && contexts[..last] == init;
      CollidesMore(env, lc, init, n);
      CollidesExactly(env, lc, init);
      MintAllOk(env, lc, init);
      MintNext(env, lc, init, n);
      var m, l := MintAll(env, lc, init), lc.contexts[n];
      hide MintAll;
      if l.Some? && HasCloud(l.value) && LegacyEntry(env, n, l.value) !in m.names {
        var e := LegacyEntry(env, n, l.value);
        MintOneKeeps(m, e, if env.entryName(e.apiUrl) in m.cloud then SecondChoice(env, e, n)
                     else env.entryName(e.apiUrl));
      }
    }
  }

  /** Whether a conversion will collide can be told from the config alone. */
  method WillCollide(env: Env, lc: LegacyConfig) returns (collides: bool, contexts: seq<string>)
    ensures InOrder(lc, contexts) && (collides <==> Collides(env, lc, contexts))
  {
    contexts := SortedNames(lc.contexts.Keys);
    assert forall n :: n in contexts ==> n in Members(contexts);
    for i := 0 to |contexts|
      invariant forall j :: 0 <= j < i ==> !Overwrites(env, lc, contexts, j)
    {
      if Overwrites(env, lc, contexts, i) {
        return true, contexts;
      }
    }
    collides := false;
  }

  lemma OrderIsUnique(lc: LegacyConfig, a: seq<string>, b: seq<string>)
    requires InOrder(lc, a) && InOrder(lc, b)
    ensures a == b
  {
    SortedUnique(a, b);
  }

  /** ensureLegacyCloudEntry. The second choice of a name is not checked again. */
  method EnsureCloudEntry(env: Env, name: string, l: Legacy, cloud: map<string, CloudEntry>,
                          minted: map<CloudEntry, string>)
    returns (entryName: string, cloud': map<string, CloudEntry>, minted': map<CloudEntry, string>)
    requires MintedOk(cloud, minted)
    ensures MintedOk(cloud', minted')
    ensures !HasCloud(l) ==> entryName == "" && cloud' == cloud && minted' == minted
    ensures HasCloud(l) ==>
              var e := LegacyEntry(env, name, l);
              var first := env.entryName(e.apiUrl);
              if e in minted then entryName == minted[e]
              else
                entryName == (if first in cloud then first + "-" + name else first) && cloud' == cloud[entryName := e]
    ensures HasCloud(l) ==> var e := LegacyEntry(env, name, l);
                            minted' == minted[e := entryName]
                              && (e in minted ==> minted[e] == entryName && cloud' == cloud)
    ensures Mints(cloud', minted') == MintOne(env, name, Some(l), Mints(cloud, minted))
  {
    entryName, cloud', minted' := "", cloud, minted;
    if !HasCloud(l) {
      return;
    }
    var e := LegacyEntry(env, name, l);
    if e in minted {
      entryName := minted[e];
      assert minted[e := entryName] == minted;
      return;
    }
    entryName := env.entryName(e.apiUrl);
    if entryName in cloud {
      entryName := entryName + "-" + name;
    }
    cloud' := cloud[entryName := e];
    minted' := minted[e := entryName];
  }

  /** Every name given out leads to an entry, the last one written under that name. */
  ghost predicate MintedOk(cloud: map<string, CloudEntry>, minted: map<CloudEntry, string>) {
    && (forall e :: e in minted ==> minted[e] in cloud)
    && (forall n :: n in cloud ==> cloud[n] in minted && minted[cloud[n]] == n)
  }

  /** What the loop has done for the contexts in `done`. */
  ghost predicate Converted(env: Env, lc: LegacyConfig, done: set<string>, cfg: Config,
                            minted: map<CloudEntry, string>) {
    && done <= lc.contexts.Keys && MintedOk(cfg.cloud, minted)
    && StacksOk(env, lc, done, cfg.stacks)
    && ContextsOk(env, lc, done, cfg.contexts, minted)
    && (forall e :: e in minted ==> exists n :: n in done && Holds(env, lc, n, e))
  }

  ghost predicate StacksOk(env: Env, lc: LegacyConfig, done: set<string>, stacks: map<string, Stack>)
    requires done <= lc.contexts.Keys
  {
    && stacks.Keys == (set n | n in done && lc.contexts[n].Some? && StackShaped(lc.contexts[n].value))
    && (forall n :: n in stacks ==> stacks[n] == ConvertStack(env, n, lc.contexts[n].value))
  }

  ghost predicate ContextsOk(env: Env, lc: LegacyConfig, done: set<string>, contexts: map<string, Context>,
                             minted: map<CloudEntry, string>)
    requires done <= lc.contexts.Keys
  {
    && contexts.Keys == done
    && (forall n :: n in done && lc.contexts[n].Some? ==>
        ConvertedOne(env, n, lc.contexts[n].value, contexts[n], minted))
  }

  /** The context holds this credential. */
  predicate Holds(env: Env, lc: LegacyConfig, n: string, e: CloudEntry) {
    n in lc.contexts && lc.contexts[n].Some? && HasCloud(lc.contexts[n].value)
    && LegacyEntry(env, n, lc.contexts[n].value) == e
  }

  ghost predicate ConvertedOne(env: Env, n: string, l: Legacy, ctx: Context, minted: map<CloudEntry, string>) {
    && ctx.stack == (if StackShaped(l) then n else "")
    && (HasCloud(l) ==> LegacyEntry(env, n, l) in minted && ctx.cloud == minted[LegacyEntry(env, n, l)])
    && (!HasCloud(l) ==> ctx.cloud == "")
    && forall kind :: Value(ctx.datasources, kind) == LegacyDatasource(l, kind)
  }

  /** A context named "" would refer to its stack by the empty name, which refers to nothing. */
  predicate LosesStack(lc: LegacyConfig) {
    "" in lc.contexts && lc.contexts[""].Some?
    && var l := lc.contexts[""].value;
       l.grafana.Some? || (l.providers.Some? && l.providers.value != map[]) || LegacySlug(l) != ""
         || DryRunOf(l.resources) != {}
  }

  /** convertLegacyConfig. Entry names made from a host are never empty. */
  method ConvertLegacyConfig(env: Env, lc: LegacyConfig)
    returns (cfg: Config, ghost minted: map<CloudEntry, string>, ghost contexts: seq<string>)
    requires forall url :: env.entryName(url) != ""
    ensures InOrder(lc, contexts) && (forall n :: n in contexts ==> n in lc.contexts)
    ensures Mints(cfg.cloud, minted) == MintAll(env, lc, contexts)
    ensures cfg.current == lc.current && Converted(env, lc, lc.contexts.Keys, cfg, minted)
    ensures forall e :: e in minted ==> minted[e] != ""
  {
    hide Converted, MintOne;
    cfg, minted := Config(lc.current, map[], map[], map[]), map[];
    var entryNames: map<CloudEntry, string> := map[];
    var names := SortedNames(lc.contexts.Keys);
    contexts := names;
    assert forall n :: n in names ==> n in Members(names);
    ghost var done: set<string> := {};
    NothingConverted(env, lc, cfg);
    assert names[..0] == [] && MintAll(env, lc, []) == Mints(map[], map[]);
    hide MintAll;
    for i := 0 to |names|
      invariant done == (set j | 0 <= j < i :: names[j]) && entryNames == minted && cfg.current == lc.current
      invariant Converted(env, lc, done, cfg, minted) && forall e :: e in minted ==> minted[e] != ""
      invariant forall n :: n in names[..i] ==> n in lc.contexts
      invariant Mints(cfg.cloud, minted) == MintAll(env, lc, names[..i])
    {
      var name := names[i];
      assert names[..i + 1] == names[..i] + [name];
      assert name in lc.contexts.Keys && name !in done by {
        assert name in Members(names);
        NotBefore(names, i);
      }
      MintNext(env, lc, names[..i], name);
      if lc.contexts[name].None? {
        MintNothing(env, name, Mints(cfg.cloud, minted));
        SkipOne(env, lc, done, cfg, minted, name);
        cfg := cfg.(contexts := cfg.contexts[name := Context("", "", map[])]);
      } else {
        cfg, entryNames := ConvertContext(env, lc, done, name, cfg, entryNames);
        minted := entryNames;
      }
      done := done + {name};
    }
    assert names[..|names|] == names;
    assert done == lc.contexts.Keys by { assert done == Members(names); }
  }

  lemma MintNext(env: Env, lc: LegacyConfig, before: seq<string>, n: string)
    requires (forall c :: c in before ==> c in lc.contexts) && n in lc.contexts
    ensures (forall c :: c in before + [n] ==> c in lc.contexts)
    ensures MintAll(env, lc, before + [n]) == MintOne(env, n, lc.contexts[n], MintAll(env, lc, before))
  {
    assert (before + [n])[..|before|] == before;
  }

  lemma MintNothing(env: Env, n: string, m: Mints)
    ensures MintOne(env, n, None, m) == m
  {
  }

  /** One turn of the loop. */
  method ConvertContext(env: Env, lc: LegacyConfig, ghost done: set<string>, name: string, cfg: Config,
                        minted: map<CloudEntry, string>)
    returns (cfg': Config, minted': map<CloudEntry, string>)
    requires forall url :: env.entryName(url) != ""
    requires Converted(env, lc, done, cfg, minted) && name in lc.contexts && name !in done && lc.contexts[name].Some?
    requires forall e :: e in minted ==> minted[e] != ""
    ensures Converted(env, lc, done + {name}, cfg', minted') && cfg'.current == cfg.current
    ensures Mints(cfg'.cloud, minted') == MintOne(env, name, lc.contexts[name], Mints(cfg.cloud, minted))
    ensures forall e :: e in minted' ==> minted'[e] != ""
  {
    hide StackShaped, HasCloud, LegacyEntry, ConvertStack, StacksOk, ContextsOk, Holds, LegacyDatasource, Value;
    var l := lc.contexts[name].value;
    var stacks := if StackShaped(l) then cfg.stacks[name := ConvertStack(env, name, l)] else cfg.stacks;
    var entryName, cloud, minted_ := EnsureCloudEntry(env, name, l, cfg.cloud, minted);
    minted' := minted_;
    var datasources := MergeDatasources(l);
    var ctx := Context(if StackShaped(l) then name else "", entryName, datasources);
    cfg' := Config(cfg.current, cfg.contexts[name := ctx], stacks, cloud);
    OneMoreStack(env, lc, done, cfg.stacks, name, l);
    OneMoreContext(env, lc, done, cfg.contexts, minted, name, l, ctx, minted');
    MintedStays(env, lc, done, minted, name);
    HoldsOwn(env, lc, name, l);
    assert name in done + {name};
  }

  lemma OneMoreStack(env: Env, lc: LegacyConfig, done: set<string>, stacks: map<string, Stack>, name: string, l: Legacy)
    requires done <= lc.contexts.Keys && name in lc.contexts && lc.contexts[name] == Some(l)
    requires name !in done && StacksOk(env, lc, done, stacks)
    ensures StacksOk(env, lc, done + {name},
                     if StackShaped(l) then stacks[name := ConvertStack(env, name, l)] else stacks)
  {
    hide StackShaped, ConvertStack;
  }

  lemma OneMoreContext(env: Env, lc: LegacyConfig, done: set<string>, contexts: map<string, Context>,
                       minted: map<CloudEntry, string>, name: string, l: Legacy, ctx: Context,
                       minted': map<CloudEntry, string>)
    requires done <= lc.contexts.Keys && name in lc.contexts && lc.contexts[name] == Some(l) && name !in done
    requires ContextsOk(env, lc, done, contexts, minted)
    requires ctx.stack == if StackShaped(l) then name else ""
    requires forall kind :: Value(ctx.datasources, kind) == LegacyDatasource(l, kind)
    requires !HasCloud(l) ==> ctx.cloud == "" && minted' == minted
    requires HasCloud(l) ==> var e := LegacyEntry(env, name, l);
                             minted' == minted[e := ctx.cloud] && (e in minted ==> minted[e] == ctx.cloud)
    ensures ContextsOk(env, lc, done + {name}, contexts[name := ctx], minted')
  {
    hide StackShaped, LegacyEntry, LegacyDatasource, Value;
    assert forall e :: e in minted ==> e in minted' && minted'[e] == minted[e];
    forall n | n in done && lc.contexts[n].Some?
      ensures ConvertedOne(env, n, lc.contexts[n].value, contexts[name := ctx][n], minted')
    {
      assert ConvertedOne(env, n, lc.contexts[n].value, contexts[n], minted);
    }
  }

  lemma NotBefore(names: seq<string>, i: nat)
    requires Increasing(names) && i < |names|
    ensures names[i] !in set j | 0 <= j < i :: names[j]
  {
    forall j | 0 <= j < i ensures names[j] != names[i] {
      LessTotal(names[j], names[i]);
    }
  }

  method SortedNames(names: set<string>) returns (sorted: seq<string>)
    ensures Increasing(sorted) && Members(sorted) == names
  {
    var left, listed: seq<string> := names, [];
    while left != {}
      invariant left <= names && Members(listed) == names - left
    {
      var n :| n in left;
      left := left - {n};
      ghost var was := listed;
      listed := listed + [n];
      assert Members(listed) == Members(was) + {n};
    }
    CanonicalSorted(listed);
    sorted := Canonical(listed);
  }

  lemma NothingConverted(env: Env, lc: LegacyConfig, cfg: Config)
    requires cfg.contexts == map[] && cfg.stacks == map[] && cfg.cloud == map[]
    ensures Converted(env, lc, {}, cfg, map[])
  {
  }

  lemma SkipOne(env: Env, lc: LegacyConfig, done: set<string>, cfg: Config, minted: map<CloudEntry, string>,
                name: string)
    requires Converted(env, lc, done, cfg, minted) && name in lc.contexts && name !in done && lc.contexts[name].None?
    ensures Converted(env, lc, done + {name}, cfg.(contexts := cfg.contexts[name := Context("", "", map[])]), minted)
  {
    hide ConvertedOne, MintedOk, StackShaped, HasCloud, LegacyEntry, ConvertStack;
    MintedStays(env, lc, done, minted, name);
  }

  lemma MintedStays(env: Env, lc: LegacyConfig, done: set<string>, minted: map<CloudEntry, string>, name: string)
    requires forall e :: e in minted ==> exists n :: n in done && Holds(env, lc, n, e)
    ensures forall e :: e in minted ==> exists n :: n in done + {name} && Holds(env, lc, n, e)
  {
    hide Holds;
    forall e | e in minted ensures exists n :: n in done + {name} && Holds(env, lc, n, e) {
      var n :| n in done && Holds(env, lc, n, e);
      assert n in done + {name};
    }
  }

  lemma HoldsOwn(env: Env, lc: LegacyConfig, name: string, l: Legacy)
    requires name in lc.contexts && lc.contexts[name] == Some(l)
    ensures HasCloud(l) ==> Holds(env, lc, name, LegacyEntry(env, name, l))
  {
  }

  // ---------------------------------------------------------------------------
  // The conversion keeps every view
  // ---------------------------------------------------------------------------

  ghost predicate AllSame(env: Env, lc: LegacyConfig, cfg: Config) {
    forall n :: n in lc.contexts && lc.contexts[n].Some? ==>
      n in cfg.contexts && SameView(env, cfg, n, lc.contexts[n].value, cfg.contexts[n])
  }

  lemma StackKept(env: Env, lc: LegacyConfig, cfg: Config, minted: map<CloudEntry, string>, n: string)
    requires Converted(env, lc, lc.contexts.Keys, cfg, minted) && n in lc.contexts && lc.contexts[n].Some?
    ensures var l := lc.contexts[n].value;
            StackOf(cfg, cfg.contexts[n])
            == if StackShaped(l) && n != "" then Some(ConvertStack(env, n, l)) else None
  {
    assert ConvertedOne(env, n, lc.contexts[n].value, cfg.contexts[n], minted);
    hide ConvertStack, HasCloud, LegacyEntry;
  }

  lemma CloudKept(env: Env, lc: LegacyConfig, cfg: Config, minted: map<CloudEntry, string>, n: string)
    requires Converted(env, lc, lc.contexts.Keys, cfg, minted) && n in lc.contexts && lc.contexts[n].Some?
    requires forall e :: e in minted ==> minted[e] != ""
    requires OneToOne(minted)
    ensures var l := lc.contexts[n].value;
            CloudOf(cfg, cfg.contexts[n]) == if HasCloud(l) then Some(LegacyEntry(env, n, l)) else None
  {
    assert ConvertedOne(env, n, lc.contexts[n].value, cfg.contexts[n], minted);
    hide ConvertStack, HasCloud, LegacyEntry, StackShaped;
  }

  /** What is lost when a stack-shaped context has no stack. */
  lemma ViewWithoutStack(env: Env, name: string, l: Legacy)
    ensures (LegacyGrafana(env, name, l) == None && Shown(LegacyProviders(env, name, l)) == None && LegacySlug(l) == ""
             && DryRunOf(l.resources) == {})
            <==> !(l.grafana.Some? || (l.providers.Some? && l.providers.value != map[]) || LegacySlug(l) != ""
                   || DryRunOf(l.resources) != {})
    ensures !StackShaped(l) ==> DryRunOf(l.resources) == {}
  {
  }

  /** A converted config, once resolved, gives every context the view its legacy form had, with
      secrets substituted, exactly when no context finds both choices of a name taken (that is,
      when the minted entry names are distinct) and no context with the empty name has anything
      to lose. */
  lemma ConversionKeepsViews(env: Env, lc: LegacyConfig, cfg: Config, minted: map<CloudEntry, string>,
                             contexts: seq<string>)
    requires Converted(env, lc, lc.contexts.Keys, cfg, minted)
    requires forall e :: e in minted ==> minted[e] != ""
    requires (forall n :: n in contexts ==> n in lc.contexts) && Mints(cfg.cloud, minted) == MintAll(env, lc, contexts)
    ensures OneToOne(minted) <==> !Collides(env, lc, contexts)
    ensures AllSame(env, lc, cfg) <==> !Collides(env, lc, contexts) && !LosesStack(lc)
  {
    hide Converted;
    CollidesExactly(env, lc, contexts);
    hide Collides, MintAll;
    if OneToOne(minted) && !LosesStack(lc) {
      forall n | n in lc.contexts && lc.contexts[n].Some?
        ensures n in cfg.contexts && SameView(env, cfg, n, lc.contexts[n].value, cfg.contexts[n])
      {
        StackKept(env, lc, cfg, minted, n);
        CloudKept(env, lc, cfg, minted, n);
        DatasourcesKept(env, lc, cfg, minted, n);
        ViewWithoutStack(env, n, lc.contexts[n].value);
        hide LegacyGrafana, LegacyProviders, LegacyEntry, HasCloud, LegacyDatasource, Value, CloudOf, StackOf;
      }
    }
    if AllSame(env, lc, cfg) {
      assert !LosesStack(lc) by {
        if LosesStack(lc) { LostStackDiffers(env, lc, cfg, minted); }
      }
      forall s, t | s in minted && t in minted && minted[s] == minted[t] ensures s == t {
        UsedBy(env, lc, cfg, minted, s);
        UsedBy(env, lc, cfg, minted, t);
      }
    }
  }

  lemma LostStackDiffers(env: Env, lc: LegacyConfig, cfg: Config, minted: map<CloudEntry, string>)
    requires Converted(env, lc, lc.contexts.Keys, cfg, minted) && LosesStack(lc) && "" in cfg.contexts
    ensures !SameView(env, cfg, "", lc.contexts[""].value, cfg.contexts[""])
  {
    StackKept(env, lc, cfg, minted, "");
    ViewWithoutStack(env, "", lc.contexts[""].value);
    hide Converted, LegacyGrafana, LegacyProviders, LegacyEntry, HasCloud, LegacyDatasource, Value, CloudOf, StackOf;
  }

  lemma DatasourcesKept(env: Env, lc: LegacyConfig, cfg: Config, minted: map<CloudEntry, string>, n: string)
    requires Converted(env, lc, lc.contexts.Keys, cfg, minted) && n in lc.contexts && lc.contexts[n].Some?
    ensures n in cfg.contexts
    ensures forall kind :: Value(cfg.contexts[n].datasources, kind) == LegacyDatasource(lc.contexts[n].value, kind)
  {
    hide Value, LegacyDatasource, ConvertStack, HasCloud, LegacyEntry, StackShaped;
    assert ConvertedOne(env, n, lc.contexts[n].value, cfg.contexts[n], minted);
  }

  /** When all views are kept, the name of an entry leads to that entry. */
  lemma UsedBy(env: Env, lc: LegacyConfig, cfg: Config, minted: map<CloudEntry, string>, e: CloudEntry)
    requires Converted(env, lc, lc.contexts.Keys, cfg, minted) && AllSame(env, lc, cfg) && e in minted
    ensures minted[e] in cfg.cloud && cfg.cloud[minted[e]] == e
  {
    hide ConvertStack, LegacyEntry, StackShaped, LegacyDatasource, Value, LegacyGrafana, LegacyProviders, StackOf;
    var n :| n in lc.contexts && Holds(env, lc, n, e);
    assert ConvertedOne(env, n, lc.contexts[n].value, cfg.contexts[n], minted);
    assert SameView(env, cfg, n, lc.contexts[n].value, cfg.contexts[n]);
  }

  // ---------------------------------------------------------------------------
  // The self-check
  // ---------------------------------------------------------------------------

  const KINDS := ["prometheus", "loki", "pyroscope", "tempo"]

  /** What verifyLegacyMigration compares for one context. */
  ghost predicate Checked(env: Env, cfg: Config, name: string, l: Legacy, ctx: Context) {
    var stack, entry := StackOf(cfg, ctx), CloudOf(cfg, ctx);
    && (ctx.stack != "" ==> stack.Some?) && (ctx.cloud != "" ==> entry.Some?)
    && (if stack.Some? then stack.value.grafana else None) == LegacyGrafana(env, name, l)
    && (l.providers.Some? && l.providers.value != map[] ==>
          (if stack.Some? then stack.value.providers else None) == LegacyProviders(env, name, l))
    && (LegacySlug(l) != "" ==> ResolvedSlug(env, stack) == LegacySlug(l))
    && (HasCloud(l) ==>
          var want := LegacyEntry(env, name, l);
          entry.Some? && entry.value.token == want.token
          && env.normal(entry.value.apiUrl) == env.normal(want.apiUrl)
          && env.normal(entry.value.oauthUrl) == env.normal(want.oauthUrl))
    && (forall kind :: kind in KINDS || kind in l.datasources ==>
        Value(ctx.datasources, kind) == LegacyDatasource(l, kind))
    && DryRunOf(if stack.Some? then stack.value.resources else None) == DryRunOf(l.resources)
  }

  /** verifyLegacyMigration: accepts exactly when every context passes. */
  method VerifyLegacyMigration(env: Env, lc: LegacyConfig, cfg: Config) returns (ok: bool)
    ensures ok <==> lc.current == cfg.current && |lc.contexts| == |cfg.contexts|
                    && forall n :: n in lc.contexts ==>
                         n in cfg.contexts
                         && (lc.contexts[n].Some? ==> Checked(env, cfg, n, lc.contexts[n].value, cfg.contexts[n]))
  {
    if lc.current != cfg.current || |lc.contexts| != |cfg.contexts| {
      return false;
    }
    var left := lc.contexts.Keys;
    while left != {}
      invariant left <= lc.contexts.Keys
      invariant forall n :: n in lc.contexts && n !in left ==>
        n in cfg.contexts && (lc.contexts[n].Some? ==> Checked(env, cfg, n, lc.contexts[n].value, cfg.contexts[n]))
    {
      var n :| n in left;
      left := left - {n};
      if n !in cfg.contexts {
        return false;
      }
      if lc.contexts[n].Some? {
        var passed := VerifyContext(env, cfg, n, lc.contexts[n].value, cfg.contexts[n]);
        if !passed {
          return false;
        }
      }
    }
    return true;
  }

  method VerifyContext(env: Env, cfg: Config, name: string, l: Legacy, ctx: Context) returns (ok: bool)
    ensures ok <==> Checked(env, cfg, name, l, ctx)
  {
    hide LegacyGrafana, LegacyProviders, LegacyEntry, LegacyDatasource, Value, StackOf, CloudOf, DryRunOf, ResolvedSlug;
    var stack, entry := StackOf(cfg, ctx), CloudOf(cfg, ctx);
    if (ctx.stack != "" && stack.None?) || (ctx.cloud != "" && entry.None?) {
      return false;
    }
    if (if stack.Some? then stack.value.grafana else None) != LegacyGrafana(env, name, l) {
      return false;
    }
    if l.providers.Some? && l.providers.value != map[]
       && (if stack.Some? then stack.value.providers else None) != LegacyProviders(env, name, l) {
      return false;
    }
    if LegacySlug(l) != "" && ResolvedSlug(env, stack) != LegacySlug(l) {
      return false;
    }
    if HasCloud(l) {
      var want := LegacyEntry(env, name, l);
      if entry.None? || entry.value.token != want.token
         || env.normal(entry.value.apiUrl) != env.normal(want.apiUrl)
         || env.normal(entry.value.oauthUrl) != env.normal(want.oauthUrl) {
        return false;
      }
    }
    var kinds := (set kind | kind in KINDS) + l.datasources.Keys;
    while kinds != {}
      invariant kinds <= (set kind | kind in KINDS) + l.datasources.Keys
      invariant forall kind :: (kind in KINDS || kind in l.datasources) && kind !in kinds ==>
                  Value(ctx.datasources, kind) == LegacyDatasource(l, kind)
    {
      var kind :| kind in kinds;
      if Value(ctx.datasources, kind) != LegacyDatasource(l, kind) {
        return false;
      }
      kinds := kinds - {kind};
    }
    ok := DryRunOf(if stack.Some? then stack.value.resources else None) == DryRunOf(l.resources);
  }

  /** Equal views pass the self-check. */
  lemma SameViewPasses(env: Env, cfg: Config, name: string, l: Legacy, ctx: Context)
    requires SameView(env, cfg, name, l, ctx)
    requires (ctx.stack != "" ==> ctx.stack in cfg.stacks) && (ctx.cloud != "" ==> ctx.cloud in cfg.cloud)
    ensures Checked(env, cfg, name, l, ctx)
  {
    hide LegacyGrafana, LegacyEntry, LegacyDatasource, Value, DryRunOf, HasCloud;
  }

  lemma ConvertedContexts(env: Env, lc: LegacyConfig, cfg: Config, minted: map<CloudEntry, string>)
    requires Converted(env, lc, lc.contexts.Keys, cfg, minted)
    ensures cfg.contexts.Keys == lc.contexts.Keys && |cfg.contexts| == |lc.contexts|
    ensures forall n :: n in lc.contexts && lc.contexts[n].Some? ==>
              var ctx := cfg.contexts[n];
              (ctx.stack != "" ==> ctx.stack in cfg.stacks) && (ctx.cloud != "" ==> ctx.cloud in cfg.cloud)
  {
    hide StackShaped, HasCloud, LegacyEntry, LegacyDatasource, Value, ConvertStack;
    assert |cfg.contexts| == |cfg.contexts.Keys| && |lc.contexts| == |lc.contexts.Keys|;
    forall n | n in lc.contexts && lc.contexts[n].Some?
      ensures var ctx := cfg.contexts[n];
              (ctx.stack != "" ==> ctx.stack in cfg.stacks) && (ctx.cloud != "" ==> ctx.cloud in cfg.cloud)
    {
      assert ConvertedOne(env, n, lc.contexts[n].value, cfg.contexts[n], minted);
    }
  }

  /** The self-check refuses a conversion that loses a stack. */
  lemma LostIsNoticed(env: Env, lc: LegacyConfig, cfg: Config, minted: map<CloudEntry, string>)
    requires Converted(env, lc, lc.contexts.Keys, cfg, minted) && LosesStack(lc) && "" in cfg.contexts
    ensures !Checked(env, cfg, "", lc.contexts[""].value, cfg.contexts[""])
  {
    StackKept(env, lc, cfg, minted, "");
    ViewWithoutStack(env, "", lc.contexts[""].value);
    hide Converted, StackOf, CloudOf, LegacyEntry, HasCloud, Value, LegacyDatasource, StackShaped;
  }

  /** Migration as a whole: convert, then check. The self-check accepts every conversion in which
      no context finds both names taken and that loses no stack. */
  method Migrate(env: Env, lc: LegacyConfig) returns (cfg: Config, ok: bool, ghost contexts: seq<string>)
    requires forall url :: env.entryName(url) != ""
    ensures InOrder(lc, contexts) && (forall n :: n in contexts ==> n in lc.contexts)
    ensures !Collides(env, lc, contexts) && !LosesStack(lc) ==> ok && AllSame(env, lc, cfg)
    ensures AllSame(env, lc, cfg) <==> !Collides(env, lc, contexts) && !LosesStack(lc)
    ensures ok ==> !LosesStack(lc)
    ensures ok ==> forall n :: n in lc.contexts && lc.contexts[n].Some? ==>
              n in cfg.contexts && Checked(env, cfg, n, lc.contexts[n].value, cfg.contexts[n])
  {
    hide Converted, SameView, Checked, Collides, MintAll;
    ghost var minted;
    cfg, minted, contexts := ConvertLegacyConfig(env, lc);
    ok := VerifyLegacyMigration(env, lc, cfg);
    ConversionKeepsViews(env, lc, cfg, minted, contexts);
    ConvertedContexts(env, lc, cfg, minted);
    if AllSame(env, lc, cfg) {
      forall n | n in lc.contexts && lc.contexts[n].Some?
        ensures Checked(env, cfg, n, lc.contexts[n].value, cfg.contexts[n])
      {
        SameViewPasses(env, cfg, n, lc.contexts[n].value, cfg.contexts[n]);
      }
    }
    if LosesStack(lc) {
      LostIsNoticed(env, lc, cfg, minted);
    }
  }

  // ---------------------------------------------------------------------------
  // What the views mean, in terms of the legacy record
  // ---------------------------------------------------------------------------

  /** Without a stored secret the connection, the providers and the Cloud token are those of the
      legacy record. */
  lemma NothingStored(env: Env, name: string, l: Legacy)
    requires env.secrets == map[]
    ensures LegacyGrafana(env, name, l) == l.grafana && LegacyProviders(env, name, l) == l.providers
    ensures HasCloud(l) ==> LegacyEntry(env, name, l).token == l.cloud.value.token
  {
    if l.providers.Some? && "synth" in l.providers.value && l.providers.value["synth"].Some? {
      var all, synth := l.providers.value, l.providers.value["synth"].value;
      if "sm-token" in synth {
        assert synth["sm-token" := synth["sm-token"]] == synth && all["synth" := Some(synth)] == all;
      }
    }
  }

  /** One more stored secret changes the connection of its own context in its own field, and
      neither the server nor the rest. */
  lemma SecretOfConnection(env: Env, env': Env, of: string, field: Field, secret: string, name: string, l: Legacy)
    requires env' == env.(secrets := env.secrets[(of, field) := secret])
    ensures var was, now := LegacyGrafana(env, name, l), LegacyGrafana(env', name, l);
            if was.None? || of != name then now == was
            else match field
              case GrafanaTokenField => now == Some(was.value.(token := secret))
              case PasswordField => now == Some(was.value.(password := secret))
              case OAuthField => now == Some(was.value.(oauth := secret))
              case RefreshField => now == Some(was.value.(refresh := secret))
              case _ => now == was
  {
    assert forall key :: key in env'.secrets && key != (of, field) ==> key in env.secrets;
  }

  /** It changes no provider value but the synthetic monitoring token, where there is one. */
  lemma SecretOfProvider(env: Env, env': Env, of: string, field: Field, secret: string, name: string, l: Legacy)
    requires env' == env.(secrets := env.secrets[(of, field) := secret])
    ensures var was, now := LegacyProviders(env, name, l), LegacyProviders(env', name, l);
            if of != name || field != SMField || was.None? then now == was
            else
              now.Some? && now.value.Keys == was.value.Keys
              && (forall p :: p in was.value && (p != "synth" || was.value[p].None?) ==> now.value[p] == was.value[p])
              && ("synth" in was.value && was.value["synth"].Some? ==>
                    now.value["synth"].Some?
                    && var w, n := was.value["synth"].value, now.value["synth"].value;
                       n == if "sm-token" in w then w["sm-token" := secret] else w)
  {
    assert forall key :: key in env'.secrets && key != (of, field) ==> key in env.secrets;
  }

  /** It changes the Cloud token of its own context, and no endpoint. */
  lemma SecretOfCloud(env: Env, env': Env, of: string, field: Field, secret: string, name: string, l: Legacy)
    requires env' == env.(secrets := env.secrets[(of, field) := secret]) && HasCloud(l)
    ensures var was, now := LegacyEntry(env, name, l), LegacyEntry(env', name, l);
            now == if of == name && field == CloudTokenField then was.(token := secret) else was
  {
    assert forall key :: key in env'.secrets && key != (of, field) ==> key in env.secrets;
  }

  /** The endpoints: an explicit one is kept; a missing OAuth endpoint is the API endpoint, and a
      missing API endpoint is the OAuth endpoint, or else the root of the server, or else the
      public one. */
  lemma EndpointsOf(env: Env, name: string, l: Legacy)
    ensures HasCloud(l) <==>
            l.cloud.Some? && !(l.cloud.value.token == l.cloud.value.apiUrl == l.cloud.value.oauthUrl == "")
    ensures HasCloud(l) ==>
              var c, e := l.cloud.value, LegacyEntry(env, name, l);
              && (c.apiUrl != "" ==> e.apiUrl == c.apiUrl) && (c.oauthUrl != "" ==> e.oauthUrl == c.oauthUrl)
              && (c.oauthUrl == "" ==> e.oauthUrl == e.apiUrl)
              && (c.apiUrl == "" && c.oauthUrl != "" ==> e.apiUrl == c.oauthUrl)
              && (c.apiUrl == c.oauthUrl == "" ==>
                    if l.grafana.Some? && env.root(l.grafana.value.server) != ""
                    then e.apiUrl == env.root(l.grafana.value.server)
                    else e.apiUrl == "https://grafana.com")
  {
  }

  /** The datasource of a kind: the entry of the map, or the flat field of that kind. */
  lemma DatasourceOf(l: Legacy, kind: string)
    ensures var uid := LegacyDatasource(l, kind);
            if kind in l.datasources && l.datasources[kind] != "" then uid == l.datasources[kind]
            else
              && (kind == "prometheus" ==> uid == l.prometheus) && (kind == "loki" ==> uid == l.loki)
              && (kind == "pyroscope" ==> uid == l.pyroscope) && (kind == "tempo" ==> uid == l.tempo)
              && (kind !in KINDS ==> uid == "")
  {
  }

  /** A converted config has a stack entry for exactly the contexts that say something about a
      stack, under the name of the context. */
  lemma StacksExactly(env: Env, lc: LegacyConfig, cfg: Config, minted: map<CloudEntry, string>, n: string)
    requires Converted(env, lc, lc.contexts.Keys, cfg, minted)
    ensures n in cfg.stacks <==>
            && n in lc.contexts && lc.contexts[n].Some?
            && var l := lc.contexts[n].value;
               !(l.grafana.None? && (l.providers.None? || l.providers.value == map[]) && l.resources.None?
                 && (l.cloud.None? || l.cloud.value.stack == ""))
    ensures n in lc.contexts && lc.contexts[n].Some? ==>
              n in cfg.contexts && cfg.contexts[n].stack == if n in cfg.stacks then n else ""
  {
    hide ConvertStack, LegacyEntry, LegacyDatasource, Value, HasCloud;
    if n in lc.contexts && lc.contexts[n].Some? {
      assert ConvertedOne(env, n, lc.contexts[n].value, cfg.contexts[n], minted);
    }
  }

  /** What a kept view consists of, entry by entry. */
  lemma SameViewSays(env: Env, cfg: Config, name: string, l: Legacy, ctx: Context)
    requires SameView(env, cfg, name, l, ctx)
    ensures var stacked := ctx.stack != "" && ctx.stack in cfg.stacks;
            && (l.grafana.Some? ==> stacked && cfg.stacks[ctx.stack].grafana == LegacyGrafana(env, name, l))
            && (l.grafana.None? && stacked ==> cfg.stacks[ctx.stack].grafana.None?)
            && (l.cloud.Some? && l.cloud.value.stack != "" ==>
                  stacked && cfg.stacks[ctx.stack].slug == l.cloud.value.stack)
            && ((l.cloud.None? || l.cloud.value.stack == "") && stacked ==> cfg.stacks[ctx.stack].slug == "")
    ensures var stacked := ctx.stack != "" && ctx.stack in cfg.stacks;
            && (l.providers.Some? && l.providers.value != map[] ==>
                  stacked && cfg.stacks[ctx.stack].providers == LegacyProviders(env, name, l))
            && ((l.providers.None? || l.providers.value == map[]) && stacked ==>
                  cfg.stacks[ctx.stack].providers.None? || cfg.stacks[ctx.stack].providers.value == map[])
            && forall r ::
                 (l.resources.Some? && r in l.resources.value)
                 <==> (stacked && cfg.stacks[ctx.stack].resources.Some?
                       && r in cfg.stacks[ctx.stack].resources.value)
    ensures HasCloud(l) ==>
              ctx.cloud != "" && ctx.cloud in cfg.cloud && cfg.cloud[ctx.cloud] == LegacyEntry(env, name, l)
    ensures !HasCloud(l) ==> ctx.cloud == "" || ctx.cloud !in cfg.cloud
    ensures forall kind :: if kind in ctx.datasources then ctx.datasources[kind] == LegacyDatasource(l, kind)
                           else LegacyDatasource(l, kind) == ""
  {
    hide LegacyEntry, LegacyDatasource;
    forall r, resources: Option<seq<string>>
      ensures r in DryRunOf(resources) <==> resources.Some? && r in resources.value
    {
    }
    assert forall r :: r in DryRunOf(l.resources) <==> l.resources.Some? && r in l.resources.value;
  }

  /** What the self-check compares, in terms of the entries: it lets a context pass exactly when
      its references lead somewhere, the connection is there, and the providers, the slug, the
      Cloud entry and the datasources that the legacy context has are there too. */
  lemma CheckedExactly(env: Env, cfg: Config, name: string, l: Legacy, ctx: Context)
    ensures Checked(env, cfg, name, l, ctx) <==>
            && (ctx.stack != "" ==> ctx.stack in cfg.stacks) && (ctx.cloud != "" ==> ctx.cloud in cfg.cloud)
            && (if ctx.stack != "" then cfg.stacks[ctx.stack].grafana == LegacyGrafana(env, name, l)
                else l.grafana.None?)
            && (l.providers.Some? && l.providers.value != map[] ==>
                  ctx.stack != "" && cfg.stacks[ctx.stack].providers == LegacyProviders(env, name, l))
            && (l.cloud.Some? && l.cloud.value.stack != "" ==>
                  && ctx.stack != ""
                  && var stack := cfg.stacks[ctx.stack];
                     stack.slug == l.cloud.value.stack
                     || (stack.slug == "" && stack.grafana.Some? && stack.grafana.value.server != ""
                         && env.slugOf(stack.grafana.value.server) == l.cloud.value.stack))
            && (HasCloud(l) ==>
                  && ctx.cloud != ""
                  && var want, entry := LegacyEntry(env, name, l), cfg.cloud[ctx.cloud];
                     entry.token == want.token && env.normal(entry.apiUrl) == env.normal(want.apiUrl)
                     && env.normal(entry.oauthUrl) == env.normal(want.oauthUrl))
            && (forall kind :: kind in {"prometheus", "loki", "pyroscope", "tempo"} || kind in l.datasources ==>
                  LegacyDatasource(l, kind) == if kind in ctx.datasources then ctx.datasources[kind] else "")
            && (forall r ::
                  (l.resources.Some? && r in l.resources.value)
                  <==> (ctx.stack != "" && cfg.stacks[ctx.stack].resources.Some?
                        && r in cfg.stacks[ctx.stack].resources.value))
  {
    hide LegacyEntry, LegacyDatasource, LegacyProviders, LegacyGrafana;
    NoneOfNone(env, name, l);
    var resources := if ctx.stack != "" && ctx.stack in cfg.stacks then cfg.stacks[ctx.stack].resources else None;
    SameDryRun(resources, l.resources);
    assert forall kind :: Value(ctx.datasources, kind) == if kind in ctx.datasources then ctx.datasources[kind] else "";
    assert forall kind :: kind in KINDS <==> kind in {"prometheus", "loki", "pyroscope", "tempo"};
    hide Value, DryRunOf;
  }

  lemma NoneOfNone(env: Env, name: string, l: Legacy)
    ensures LegacyGrafana(env, name, l).None? <==> l.grafana.None?
    ensures LegacyProviders(env, name, l).None? <==> l.providers.None?
  {
  }

  lemma SameDryRun(a: Option<seq<string>>, b: Option<seq<string>>)
    ensures DryRunOf(a) == DryRunOf(b) <==>
            forall r :: (a.Some? && r in a.value) <==> (b.Some? && r in b.value)
  {
    forall r, c: Option<seq<string>> ensures r in DryRunOf(c) <==> c.Some? && r in c.value {
    }
  }

  // ---------------------------------------------------------------------------
  // Configs that do not survive
  // ---------------------------------------------------------------------------

  function CloudOnly(token: string, apiUrl: string): Legacy {
    Legacy(None, Some(LegacyCloud(token, "", apiUrl, "")), "", "", "", "", map[], None, None)
  }

  /** Three contexts: the entry of the third would be called "grafana-com", which the first has
      taken, and then "grafana-com-b", which the second has taken for its own host. */
  lemma ThirdContextOverwrites(env: Env, x: string, y: string)
    requires env.secrets == map[] && x != y && x != "" && y != ""
    requires env.entryName("https://grafana.com") == "grafana-com"
    requires env.entryName("https://grafana-com.b") == "grafana-com-b"
    ensures var lc := LegacyConfig("a", map["a" := Some(CloudOnly(x, "https://grafana.com")),
                                            "aa" := Some(CloudOnly(x, "https://grafana-com.b")),
                                            "b" := Some(CloudOnly(y, "https://grafana.com"))]);
            var contexts := ["a", "aa", "b"];
            && InOrder(lc, contexts) && (forall n :: n in contexts ==> n in lc.contexts)
            && Collides(env, lc, contexts) && !OneToOne(MintAll(env, lc, contexts).names)
  {
    var lc := LegacyConfig("a", map["a" := Some(CloudOnly(x, "https://grafana.com")),
                                    "aa" := Some(CloudOnly(x, "https://grafana-com.b")),
                                    "b" := Some(CloudOnly(y, "https://grafana.com"))]);
    var contexts := ["a", "aa", "b"];
    SortedContexts();
    assert Members(contexts) == lc.contexts.Keys;
    var m := FirstTwo(env, lc, x);
    CloudOnlyEntry(env, "b", y, "https://grafana.com");
    assert contexts[..2] == ["a", "aa"];
    hide LegacyEntry, MintAll, MintOne, Increasing;
    assert "grafana-com" + "-" + "b" == "grafana-com-b";
    assert Overwrites(env, lc, contexts, 2);
    CollidesExactly(env, lc, contexts);
  }

  lemma CloudOnlyEntry(env: Env, n: string, token: string, apiUrl: string)
    requires env.secrets == map[] && apiUrl != "" && token != ""
    ensures HasCloud(CloudOnly(token, apiUrl))
    ensures LegacyEntry(env, n, CloudOnly(token, apiUrl)) == CloudEntry(token, apiUrl, apiUrl)
  {
  }

  lemma FirstTwo(env: Env, lc: LegacyConfig, x: string) returns (m: Mints)
    requires env.secrets == map[] && x != "" && "a" in lc.contexts && "aa" in lc.contexts
    requires lc.contexts["a"] == Some(CloudOnly(x, "https://grafana.com"))
    requires lc.contexts["aa"] == Some(CloudOnly(x, "https://grafana-com.b"))
    requires env.entryName("https://grafana.com") == "grafana-com"
    requires env.entryName("https://grafana-com.b") == "grafana-com-b"
    ensures m == MintAll(env, lc, ["a", "aa"])
    ensures m.cloud.Keys == {"grafana-com", "grafana-com-b"}
    ensures forall e :: e in m.names ==> e.token == x
  {
    var u1, u2 := "https://grafana.com", "https://grafana-com.b";
    var e1, e2 := CloudEntry(x, u1, u1), CloudEntry(x, u2, u2);
    CloudOnlyEntry(env, "a", x, u1);
    CloudOnlyEntry(env, "aa", x, u2);
    assert |u1| != |u2| && |"grafana-com"| != |"grafana-com-b"|;
    MintNext(env, lc, [], "a");
    MintNext(env, lc, ["a"], "aa");
    assert [] + ["a"] == ["a"] && ["a"] + ["aa"] == ["a", "aa"];
    assert MintAll(env, lc, []) == Mints(map[], map[]);
    hide LegacyEntry, HasCloud, CloudOnly, MintAll;
    assert MintAll(env, lc, ["a"]) == Mints(map["grafana-com" := e1], map[e1 := "grafana-com"]);
    m := Mints(map["grafana-com" := e1, "grafana-com-b" := e2], map[e1 := "grafana-com", e2 := "grafana-com-b"]);
    assert MintAll(env, lc, ["a", "aa"]) == m;
  }

  lemma SortedContexts()
    ensures Increasing(["a", "aa", "b"])
  {
    assert Less("a", "aa") by { assert "a"[1..] == "" && "aa"[1..] == "a"; }
    assert Less("a", "b") && Less("aa", "b");
  }

  /** A single context named "" with a stack slug: its converted form has no stack entry, and the
      self-check refuses it. */
  lemma UnnamedLosesStack(env: Env, slug: string, cfg: Config, minted: map<CloudEntry, string>)
    requires slug != ""
    requires Converted(env, UnnamedConfig(slug), {""}, cfg, minted)
    ensures LosesStack(UnnamedConfig(slug)) && "" in cfg.contexts && StackOf(cfg, cfg.contexts[""]) == None
    ensures !AllSame(env, UnnamedConfig(slug), cfg)
    ensures !Checked(env, cfg, "", UnnamedConfig(slug).contexts[""].value, cfg.contexts[""])
  {
    var lc := UnnamedConfig(slug);
    assert lc.contexts.Keys == {""};
    StackKept(env, lc, cfg, minted, "");
    LostStackDiffers(env, lc, cfg, minted);
    LostIsNoticed(env, lc, cfg, minted);
    hide SameView, Checked;
  }

  function UnnamedConfig(slug: string): LegacyConfig {
    var cloud := LegacyCloud("", slug, "", "");
    LegacyConfig("", map["" := Some(Legacy(None, Some(cloud), "", "", "", "", map[], None, None))])
  }

  // ---------------------------------------------------------------------------
  // unionDryRun
  // ---------------------------------------------------------------------------

  predicate NoRepeats(s: seq<string>) {
    forall i, j :: 0 <= i < j < |s| ==> s[i] != s[j]
  }

  /** The global list first, then the stack's, each name once. */
  method UnionDryRun(global: seq<string>, stack: seq<string>) returns (union: seq<string>)
    ensures Members(union) == Members(global) + Members(stack) && NoRepeats(union)
    ensures NoRepeats(global) ==> global <= union
  {
    union := AddNew([], global);
    ghost var first := union;
    union := AddNew(union, stack);
    if NoRepeats(global) {
      assert first == global by { assert Members([]) == {}; }
    }
  }

  method AddNew(into: seq<string>, list: seq<string>) returns (r: seq<string>)
    requires NoRepeats(into)
    ensures NoRepeats(r) && into <= r && Members(r) == Members(into) + Members(list)
    ensures NoRepeats(list) && (forall x :: x in list ==> x !in into) ==> r == into + list
  {
    r := into;
    for i := 0 to |list|
      invariant NoRepeats(r) && into <= r && Members(r) == Members(into) + Members(list[..i])
      invariant NoRepeats(list) && (forall x :: x in list ==> x !in into) ==> r == into + list[..i]
    {
      assert list[..i + 1] == list[..i] + [list[i]];
      assert Members(list[..i + 1]) == Members(list[..i]) + {list[i]};
      if list[i] !in r {
        ghost var was := r;
        r := r + [list[i]];
        assert Members(r) == Members(was) + {list[i]};
      } else {
        assert list[i] in Members(r);
      }
    }
    assert list[..|list|] == list;
  }
}
