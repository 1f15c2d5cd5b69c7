/** Merging a chain of config files, lowest priority first (crates/core/src/config.rs). */
module Layers {
  import opened Basics
  import opened Model
  import opened Text
  import C = Chain
  import O = ChainOrder

  datatype Kind = Console | Slack | Webhook | PagerDuty | Teams | Opsgenie | Email

  /** One provider's settings, as text. */
  type Settings = string

  datatype Providers = Providers(
    console: Option<Settings>,
    slack: Option<Settings>,
    webhook: Option<Settings>,
    pagerduty: Option<Settings>,
    teams: Option<Settings>,
    opsgenie: Option<Settings>,
    email: Option<Settings>) {

    function Get(kind: Kind): Option<Settings> {
      match kind
      case Console => console
      case Slack => slack
      case Webhook => webhook
      case PagerDuty => pagerduty
      case Teams => teams
      case Opsgenie => opsgenie
      case Email => email
    }
  }

  const NO_PROVIDERS := Providers(None, None, None, None, None, None, None)
  const DEFAULT_STORAGE := "./signals.db"

  datatype Layer = Layer(providers: Providers, storage: Option<string>, routes: seq<Route>)

  datatype Config = Config(providers: Providers, storage: string, routes: seq<Route>)

  /** A layer with the name of the file it came from. */
  type Named = (Option<string>, Layer)

  /** The file, and the place in it, that a merged route came from. */
  type Origin = (Option<string>, nat)

  function Or<T>(a: Option<T>, b: Option<T>): Option<T> {
    if a.Some? then a else b
  }

  function Overlay(top: Providers, base: Providers): Providers {
    Providers(Or(top.console, base.console), Or(top.slack, base.slack), Or(top.webhook, base.webhook),
              Or(top.pagerduty, base.pagerduty), Or(top.teams, base.teams), Or(top.opsgenie, base.opsgenie),
              Or(top.email, base.email))
  }

  /* ----- the merge, said in one place per value ----- */

  /** The value of the last layer that sets it. */
  function LastSet(layers: seq<Named>, kind: Kind): Option<Settings> {
    if layers == [] then None
    else Or(layers[|layers| - 1].1.providers.Get(kind), LastSet(layers[..|layers| - 1], kind))
  }

  function LastStorage(layers: seq<Named>): string {
    if layers == [] then DEFAULT_STORAGE
    else
      var own := layers[|layers| - 1].1.storage;
      if own.Some? then own.value else LastStorage(layers[..|layers| - 1])
  }

  /** Where each merged route comes from: later layers first, each layer's in order. */
  function Places(layers: seq<Named>): seq<(nat, nat)> {
    if layers == [] then []
    else
      var l := |layers| - 1;
      seq(|layers[l].1.routes|, i => (l, i)) + Places(layers[..l])
  }

  ghost predicate IsMerge(layers: seq<Named>, config: Config, origins: seq<Origin>) {
    && (forall kind :: config.providers.Get(kind) == LastSet(layers, kind))
    && config.storage == LastStorage(layers)
    && var places := Places(layers);
       && |config.routes| == |origins| == |places|
       && forall i | 0 <= i < |places| ::
            && places[i].0 < |layers| && places[i].1 < |layers[places[i].0].1.routes|
            && config.routes[i] == layers[places[i].0].1.routes[places[i].1]
            && origins[i] == (layers[places[i].0].0, places[i].1)
  }

  method Merge(layers: seq<Named>) returns (config: Config, origins: seq<Origin>)
    ensures IsMerge(layers, config, origins)
  {
    config := Config(NO_PROVIDERS, DEFAULT_STORAGE, []);
    origins := [];
    var l := 0;
    while l < |layers|
      invariant 0 <= l <= |layers|
      invariant IsMerge(layers[..l], config, origins)
    {
      var (name, layer) := layers[l];
      var providers := Providers(
        Or(layer.providers.console, config.providers.console),
        Or(layer.providers.slack, config.providers.slack),
        Or(layer.providers.webhook, config.providers.webhook),
        Or(layer.providers.pagerduty, config.providers.pagerduty),
        Or(layer.providers.teams, config.providers.teams),
        Or(layer.providers.opsgenie, config.providers.opsgenie),
        Or(layer.providers.email, config.providers.email));
      var storage := if layer.storage.Some? then layer.storage.value else config.storage;
      var own := seq(|layer.routes|, i => (name, i));
      MergeStep(layers[..l], config, origins, layers[l]);
      assert layers[..l + 1] == layers[..l] + [layers[l]];
      config := Config(providers, storage, layer.routes + config.routes);
      origins := own + origins;
      l := l + 1;
    }
    assert layers[..l] == layers;
  }

  /** One more layer on top keeps the merge right. */
  lemma MergeStep(layers: seq<Named>, config: Config, origins: seq<Origin>, next: Named)
    requires IsMerge(layers, config, origins)
    ensures IsMerge(layers + [next],
              Config(Overlay(next.1.providers, config.providers),
                     if next.1.storage.Some? then next.1.storage.value else config.storage,
                     next.1.routes + config.routes),
              seq(|next.1.routes|, i => (next.0, i)) + origins)
  {
    var more := layers + [next];
    assert more[..|layers|] == layers;
    var top := Config(Overlay(next.1.providers, config.providers),
                      if next.1.storage.Some? then next.1.storage.value else config.storage,
                      next.1.routes + config.routes);
    forall kind ensures top.providers.Get(kind) == LastSet(more, kind) {
      assert config.providers.Get(kind) == LastSet(layers, kind);
    }
    var places, below, n := Places(more), Places(layers), |next.1.routes|;
    assert places == seq(n, i => (|layers|, i)) + below;
    forall i | 0 <= i < |places|
      ensures places[i].0 < |more| && places[i].1 < |more[places[i].0].1.routes|
      ensures top.routes[i] == more[places[i].0].1.routes[places[i].1]
      ensures (seq(n, k => (next.0, k)) + origins)[i] == (more[places[i].0].0, places[i].1)
    {
      if i >= n {
        assert places[i] == below[i - n];
      }
    }
  }

  /** Layer `k` sets the provider to `value`, and no later layer sets it. */
  ghost predicate Decides(layers: seq<Named>, kind: Kind, k: nat, value: Option<Settings>) {
    && k < |layers| && value.Some? && layers[k].1.providers.Get(kind) == value
    && forall m | k < m < |layers| :: layers[m].1.providers.Get(kind).None?
  }

  ghost predicate DecidesStorage(layers: seq<Named>, k: nat, value: string) {
    && k < |layers| && layers[k].1.storage == Some(value)
    && forall m | k < m < |layers| :: layers[m].1.storage.None?
  }

  /** A provider that layer `l` sets is decided by that layer or a later one. */
  lemma {:induction false} LastSetIsLast(layers: seq<Named>, kind: Kind, l: nat) returns (k: nat)
    requires l < |layers| && layers[l].1.providers.Get(kind).Some?
    ensures l <= k && Decides(layers, kind, k, LastSet(layers, kind))
  {
    k := |layers| - 1;
    if layers[k].1.providers.Get(kind).None? {
      k := LastSetIsLast(layers[..k], kind, l);
      assert forall m | k < m < |layers| - 1 :: layers[m] == layers[..|layers| - 1][m];
    }
  }

  /** And so with the storage. */
  lemma {:induction false} LastStorageIsLast(layers: seq<Named>, l: nat) returns (k: nat)
    requires l < |layers| && layers[l].1.storage.Some?
    ensures l <= k && DecidesStorage(layers, k, LastStorage(layers))
  {
    k := |layers| - 1;
    if layers[k].1.storage.None? {
      k := LastStorageIsLast(layers[..k], l);
      assert forall m | k < m < |layers| - 1 :: layers[m] == layers[..|layers| - 1][m];
    }
  }

  /** What no layer sets is unset, and the storage then the default. */
  lemma {:induction false} NeverSetIsUnset(layers: seq<Named>, kind: Kind)
    ensures (forall l | 0 <= l < |layers| :: layers[l].1.providers.Get(kind).None?) ==> LastSet(layers, kind).None?
    ensures (forall l | 0 <= l < |layers| :: layers[l].1.storage.None?) ==> LastStorage(layers) == DEFAULT_STORAGE
  {
    if layers != [] {
      NeverSetIsUnset(layers[..|layers| - 1], kind);
      assert forall l | 0 <= l < |layers| - 1 :: layers[l] == layers[..|layers| - 1][l];
    }
  }

  lemma {:induction false} PlacesAreReal(layers: seq<Named>)
    ensures forall p :: p in Places(layers) ==> p.0 < |layers| && p.1 < |layers[p.0].1.routes|
  {
    if layers != [] {
      var n := |layers| - 1;
      PlacesAreReal(layers[..n]);
      forall p | p in Places(layers) ensures p.0 < |layers| && p.1 < |layers[p.0].1.routes| {
        if p in Places(layers[..n]) {
          assert layers[..n][p.0] == layers[p.0];
        }
      }
    }
  }

  lemma {:induction false} PlacesAreAll(layers: seq<Named>, l: nat, i: nat)
    requires l < |layers| && i < |layers[l].1.routes|
    ensures (l, i) in Places(layers)
  {
    var n := |layers| - 1;
    var own := seq(|layers[n].1.routes|, k => (n, k));
    if l == n {
      assert own[i] == (l, i) && own[i] in own;
    } else {
      PlacesAreAll(layers[..n], l, i);
    }
  }

  ghost predicate StandsFirst(p: (nat, nat), q: (nat, nat)) {
    q.0 < p.0 || (q.0 == p.0 && p.1 < q.1)
  }

  /** A later layer's routes come first, and a layer's own stay in order. */
  lemma {:induction false} PlacesAreOrdered(layers: seq<Named>)
    ensures forall a, b | 0 <= a < b < |Places(layers)| :: StandsFirst(Places(layers)[a], Places(layers)[b])
  {
    if layers != [] {
      var n := |layers| - 1;
      PlacesAreOrdered(layers[..n]);
      PlacesAreReal(layers[..n]);
      var own, rest := seq(|layers[n].1.routes|, i => (n, i)), Places(layers[..n]);
      assert Places(layers) == own + rest;
      forall a, b | 0 <= a < b < |own + rest| ensures StandsFirst((own + rest)[a], (own + rest)[b]) {
        if b >= |own| {
          assert (own + rest)[b] == rest[b - |own|] && rest[b - |own|] in rest;
        }
      }
    }
  }

  /** Each place occurs once: a merged route is one route of one layer. */
  lemma PlacesAreOnce(layers: seq<Named>, a: nat, b: nat)
    requires a < b < |Places(layers)|
    ensures Places(layers)[a] != Places(layers)[b]
  {
    PlacesAreOrdered(layers);
  }

  /* ----- the whole chain ----- */

  /** The layers of a walked chain, in the walk's order, each under its file's name. */
  function LayersOf(order: seq<string>, layerOf: string -> Layer): seq<Named> {
    seq(|order|, i requires 0 <= i < |order| => (Some(order[i]), layerOf(order[i])))
  }

  lemma LaterFileDecides(
    order: seq<string>, layerOf: string -> Layer, config: Config, origins: seq<Origin>, b: nat, kind: Kind)
    requires IsMerge(LayersOf(order, layerOf), config, origins)
    requires b < |order| && layerOf(order[b]).providers.Get(kind).Some?
    ensures exists c | b <= c < |order| :: Decides(LayersOf(order, layerOf), kind, c, config.providers.Get(kind))
  {
    var c := LastSetIsLast(LayersOf(order, layerOf), kind, b);
  }

  lemma LaterFileDecidesStorage(
    order: seq<string>, layerOf: string -> Layer, config: Config, origins: seq<Origin>, b: nat)
    requires IsMerge(LayersOf(order, layerOf), config, origins)
    requires b < |order| && layerOf(order[b]).storage.Some?
    ensures exists c | b <= c < |order| :: DecidesStorage(LayersOf(order, layerOf), c, config.storage)
  {
    var c := LastStorageIsLast(LayersOf(order, layerOf), b);
  }

  lemma LaterRoutesStandFirst(
    order: seq<string>, layerOf: string -> Layer, config: Config, origins: seq<Origin>, a: nat, b: nat, i: nat, j: nat)
    requires IsMerge(LayersOf(order, layerOf), config, origins)
    requires forall x, y | 0 <= x < y < |order| :: order[x] != order[y]
    requires a < b < |order| && i < |origins| && j < |origins|
    requires origins[i].0 == Some(order[b]) && origins[j].0 == Some(order[a])
    ensures i < j
  {
    var layers := LayersOf(order, layerOf);
    var places := Places(layers);
    PlacesAreOrdered(layers);
    assert origins[i].0 == layers[places[i].0].0 && origins[j].0 == layers[places[j].0].0;
    assert places[i].0 == b && places[j].0 == a;
  }

  /** In any chain that loads, a file beats everything it extends. It stands after its
      ancestor; what it sets, providers and storage, is decided by the last file that
      sets it, which is the file itself or a later one; and its routes come first. */
  lemma ChildBeatsParent(
    g: string -> C.File<string>, roots: seq<string>, layerOf: string -> Layer,
    config: Config, origins: seq<Origin>, path: seq<string>)
    returns (a: nat, b: nat)
    requires C.WalkOf(g, roots, false).Ok?
    requires IsMerge(LayersOf(C.WalkOf(g, roots, false).value.order, layerOf), config, origins)
    requires C.Path(g, path) && |path| > 1 && C.Reaches(g, roots, path[0])
    ensures var order := C.WalkOf(g, roots, false).value.order;
            a < b < |order| && order[a] == path[|path| - 1] && order[b] == path[0]
    ensures var order := C.WalkOf(g, roots, false).value.order;
            forall kind | layerOf(path[0]).providers.Get(kind).Some? ::
              exists c | b <= c < |order| :: Decides(LayersOf(order, layerOf), kind, c, config.providers.Get(kind))
    ensures var order := C.WalkOf(g, roots, false).value.order;
            layerOf(path[0]).storage.Some? ==>
              exists c | b <= c < |order| :: DecidesStorage(LayersOf(order, layerOf), c, config.storage)
    ensures forall i, j | 0 <= i < |origins| && 0 <= j < |origins| ::
              origins[i].0 == Some(path[0]) && origins[j].0 == Some(path[|path| - 1]) ==> i < j
  {
    C.WalkFlattens(g, roots);
    C.AncestorsStandBefore(g, roots, path);
    var order := C.WalkOf(g, roots, false).value.order;
    a, b :| 0 <= a < b < |order| && order[a] == path[|path| - 1] && order[b] == path[0];
    LaterBeats(order, layerOf, config, origins, a, b);
  }

  /** What the file at `b` sets is decided by it or a later one, and its routes come before
      those of the file at `a`. */
  ghost predicate Beats(order: seq<string>, layerOf: string -> Layer, config: Config, origins: seq<Origin>,
    a: nat, b: nat)
    requires a < b < |order|
  {
    && (forall kind | layerOf(order[b]).providers.Get(kind).Some? ::
          exists c | b <= c < |order| :: Decides(LayersOf(order, layerOf), kind, c, config.providers.Get(kind)))
    && (layerOf(order[b]).storage.Some? ==>
          exists c | b <= c < |order| :: DecidesStorage(LayersOf(order, layerOf), c, config.storage))
    && forall i, j | 0 <= i < |origins| && 0 <= j < |origins| ::
         origins[i].0 == Some(order[b]) && origins[j].0 == Some(order[a]) ==> i < j
  }

  lemma LaterBeats(order: seq<string>, layerOf: string -> Layer, config: Config, origins: seq<Origin>, a: nat, b: nat)
    requires IsMerge(LayersOf(order, layerOf), config, origins)
    requires forall x, y | 0 <= x < y < |order| :: order[x] != order[y]
    requires a < b < |order|
    ensures Beats(order, layerOf, config, origins, a, b)
  {
    forall kind | layerOf(order[b]).providers.Get(kind).Some?
      ensures exists c | b <= c < |order| :: Decides(LayersOf(order, layerOf), kind, c, config.providers.Get(kind))
    {
      LaterFileDecides(order, layerOf, config, origins, b, kind);
    }
    if layerOf(order[b]).storage.Some? {
      LaterFileDecidesStorage(order, layerOf, config, origins, b);
    }
    forall i, j | 0 <= i < |origins| && 0 <= j < |origins|
                  && origins[i].0 == Some(order[b]) && origins[j].0 == Some(order[a])
      ensures i < j
    {
      LaterRoutesStandFirst(order, layerOf, config, origins, a, b, i, j);
    }
  }

  lemma BeforeBeats(g: string -> C.File<string>, roots: seq<string>, layerOf: string -> Layer,
    config: Config, origins: seq<Origin>, x: string, y: string)
    returns (a: nat, b: nat)
    requires C.WalkOf(g, roots, false).Ok? && O.Before(C.WalkOf(g, roots, false).value.order, x, y)
    requires IsMerge(LayersOf(C.WalkOf(g, roots, false).value.order, layerOf), config, origins)
    ensures var order := C.WalkOf(g, roots, false).value.order;
            a < b < |order| && order[a] == x && order[b] == y && Beats(order, layerOf, config, origins, a, b)
  {
    var order := C.WalkOf(g, roots, false).value.order;
    a, b :| 0 <= a < b < |order| && order[a] == x && order[b] == y;
    C.WalkFlattens(g, roots);
    LaterBeats(order, layerOf, config, origins, a, b);
  }

  /** A file of a later root beats all that earlier roots lead to; what only it sets among
      the files they do not lead to is set as it says. */
  lemma LaterRootBeatsEarlier(
    g: string -> C.File<string>, roots: seq<string>, layerOf: string -> Layer,
    config: Config, origins: seq<Origin>, n: nat, x: string, y: string)
    returns (a: nat, b: nat)
    requires C.WalkOf(g, roots, false).Ok?
    requires IsMerge(LayersOf(C.WalkOf(g, roots, false).value.order, layerOf), config, origins)
    requires n <= |roots| && C.Reaches(g, roots[..n], x)
    requires C.Reaches(g, roots, y) && !C.Reaches(g, roots[..n], y)
    ensures var order := C.WalkOf(g, roots, false).value.order;
            a < b < |order| && order[a] == x && order[b] == y && Beats(order, layerOf, config, origins, a, b)
    ensures forall kind | layerOf(y).providers.Get(kind).Some? && OnlySetter(g, roots, n, layerOf, y, kind) ::
              config.providers.Get(kind) == layerOf(y).providers.Get(kind)
  {
    O.EarlierRootsFirst(g, roots, n, x, y);
    a, b := BeforeBeats(g, roots, layerOf, config, origins, x, y);
    forall kind | layerOf(y).providers.Get(kind).Some? && OnlySetter(g, roots, n, layerOf, y, kind)
      ensures config.providers.Get(kind) == layerOf(y).providers.Get(kind)
    {
      OnlySetterDecides(g, roots, layerOf, config, origins, n, y, b, kind);
    }
  }

  /** Of the files the first `n` roots do not lead to, no other sets the provider. */
  ghost predicate OnlySetter(g: string -> C.File<string>, roots: seq<string>, n: nat, layerOf: string -> Layer,
    y: string, kind: Kind)
    requires n <= |roots|
  {
    forall z | C.Reaches(g, roots, z) && !C.Reaches(g, roots[..n], z) && z != y ::
      layerOf(z).providers.Get(kind).None?
  }

  lemma OnlySetterDecides(
    g: string -> C.File<string>, roots: seq<string>, layerOf: string -> Layer,
    config: Config, origins: seq<Origin>, n: nat, y: string, b: nat, kind: Kind)
    requires C.WalkOf(g, roots, false).Ok?
    requires IsMerge(LayersOf(C.WalkOf(g, roots, false).value.order, layerOf), config, origins)
    requires n <= |roots| && C.Reaches(g, roots, y) && !C.Reaches(g, roots[..n], y)
    requires b < |C.WalkOf(g, roots, false).value.order| && C.WalkOf(g, roots, false).value.order[b] == y
    requires layerOf(y).providers.Get(kind).Some? && OnlySetter(g, roots, n, layerOf, y, kind)
    ensures config.providers.Get(kind) == layerOf(y).providers.Get(kind)
  {
    var order := C.WalkOf(g, roots, false).value.order;
    C.WalkFlattens(g, roots);
    LaterFileDecides(order, layerOf, config, origins, b, kind);
    var c :| b <= c < |order| && Decides(LayersOf(order, layerOf), kind, c, config.providers.Get(kind));
    if C.Reaches(g, roots[..n], order[c]) {
      O.EarlierRootsFirst(g, roots, n, order[c], y);
    }
  }

  /** And a later entry of one file beats all that earlier entries lead to, where the later
      one's files are reached through the file only. */
  lemma LaterEntryBeatsEarlier(
    g: string -> C.File<string>, roots: seq<string>, layerOf: string -> Layer,
    config: Config, origins: seq<Origin>, f: string, n: nat, x: string, y: string)
    returns (a: nat, b: nat)
    requires C.WalkOf(g, roots, false).Ok?
    requires IsMerge(LayersOf(C.WalkOf(g, roots, false).value.order, layerOf), config, origins)
    requires C.Reaches(g, roots, f) && g(f).Loaded? && n <= |g(f).parents|
    requires O.LeadsTo(g, g(f).parents[..n], x) && !O.LeadsTo(g, g(f).parents[..n], y)
    requires C.Reaches(g, roots, y) && !O.ReachesWithout(g, roots, f, y)
    ensures var order := C.WalkOf(g, roots, false).value.order;
            a < b < |order| && order[a] == x && order[b] == y && Beats(order, layerOf, config, origins, a, b)
  {
    O.EarlierEntriesFirst(g, roots, f, n, x, y);
    a, b := BeforeBeats(g, roots, layerOf, config, origins, x, y);
  }

  /* ----- the checks on the merged routes ----- */

  const GROUP_FIELDS := ["source", "service", "component", "event_type", "severity", "title",
                         "environment", "team", "run_id", "correlation_id", "dedup_key"]

  predicate IsGroupField(field: string) {
    || field in GROUP_FIELDS
    || (StripPrefix(field, "metadata.").Some?
        && forall part :: part in Split(StripPrefix(field, "metadata.").value, '.') ==> part != "")
  }

  function KnownNames(p: Providers): seq<string> {
    ["console"]
    + (if p.slack.Some? then ["slack"] else []) + (if p.webhook.Some? then ["webhook"] else [])
    + (if p.pagerduty.Some? then ["pagerduty"] else []) + (if p.teams.Some? then ["teams"] else [])
    + (if p.opsgenie.Some? then ["opsgenie"] else []) + (if p.email.Some? then ["email"] else [])
  }

  predicate RouteOk(route: Route, known: seq<string>) {
    && route.providers != []
    && route.dedup != Some(0)
    && (route.rateLimit.Some? ==> route.rateLimit.value.max > 0 && route.rateLimit.value.per > 0)
    && route.groupWait != Some(0)
    && (route.groupBy.Some? ==> forall f :: f in route.groupBy.value ==> IsGroupField(f))
    && (forall name :: name in route.providers ==> name in known)
  }

  predicate RoutesOk(config: Config) {
    forall i | 0 <= i < |config.routes| :: RouteOk(config.routes[i], KnownNames(config.providers))
  }

  /** The merged config, or the origin of the first route that is not usable. The
      checks inside provider settings are `settingsOk`. */
  method FromLayers(layers: seq<Named>, settingsOk: Providers -> bool) returns (r: Result<Config, Option<Origin>>)
    ensures forall config, origins | IsMerge(layers, config, origins) ::
              && (r.Ok? <==> settingsOk(config.providers) && RoutesOk(config))
              && (r.Ok? ==> r.value == config)
              && (r.Err? && r.error.Some? ==>
                    exists i | 0 <= i < |config.routes| ::
                      && origins[i] == r.error.value
                      && !RouteOk(config.routes[i], KnownNames(config.providers))
                      && forall k | 0 <= k < i :: RouteOk(config.routes[k], KnownNames(config.providers)))
  {
    var config, origins := Merge(layers);
    forall other, whence | IsMerge(layers, other, whence) ensures other == config && whence == origins {
      MergeIsUnique(layers, config, origins, other, whence);
    }
    if !settingsOk(config.providers) {
      return Err(None);
    }
    var known := KnownNames(config.providers);
    var i := 0;
    while i < |config.routes|
      invariant 0 <= i <= |config.routes|
      invariant forall k | 0 <= k < i :: RouteOk(config.routes[k], known)
    {
      if !RouteOk(config.routes[i], known) {
        return Err(Some(origins[i]));
      }
      i := i + 1;
    }
    return Ok(config);
  }

  /** Nothing about a merge is left open. */
  lemma MergeIsUnique(layers: seq<Named>, a: Config, oa: seq<Origin>, b: Config, ob: seq<Origin>)
    requires IsMerge(layers, a, oa) && IsMerge(layers, b, ob)
    ensures a == b && oa == ob
  {
    forall kind ensures a.providers.Get(kind) == b.providers.Get(kind) {}
    SameProviders(a.providers, b.providers);
    assert a.routes == b.routes;
  }

  lemma SameProviders(a: Providers, b: Providers)
    requires forall kind :: a.Get(kind) == b.Get(kind)
    ensures a == b
  {
    assert a.Get(Console) == b.Get(Console) && a.Get(Slack) == b.Get(Slack) && a.Get(Webhook) == b.Get(Webhook)
        && a.Get(PagerDuty) == b.Get(PagerDuty) && a.Get(Teams) == b.Get(Teams)
        && a.Get(Opsgenie) == b.Get(Opsgenie) && a.Get(Email) == b.Get(Email);
  }
}
