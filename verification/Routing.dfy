/**
 * The route index, the routing decision, the certificate cell, and the reload loop that replaces them.
 * Loading files and keys is an input; certificates are opaque values.
 */
module Routing {
  import opened Common
  import opened RouteConfig
  import Alpn
  import IpSlots
  import Reload
  import TokenBucket

  datatype ServiceConfig = ServiceConfig(
    routes: seq<ProxyTarget>,
    tlsMinVersion: string,
    maxConnectionsPerIp: Option<nat>,
    connectionRatePerIp: Option<real>,
    connectionBurstPerIp: Option<nat>)

  /** The first listed route for `name`. */
  function LinearScan(routes: seq<ProxyTarget>, name: string): Option<ProxyTarget> {
    if routes == [] then None
    else if routes[0].sni == name then Some(routes[0])
    else LinearScan(routes[1..], name)
  }

  /** The last listed route for `name`: what a table filled in order ends up with. */
  function LastListed(routes: seq<ProxyTarget>, name: string): Option<ProxyTarget> {
    if routes == [] then None
    else if routes[|routes| - 1].sni == name then Some(routes[|routes| - 1])
    else LastListed(routes[..|routes| - 1], name)
  }

  type Table = map<string, ProxyTarget>

  function Lookup(table: Table, name: string): Option<ProxyTarget> {
    if name in table then Some(table[name]) else None
  }

  lemma {:induction false} ScanFindsListed(routes: seq<ProxyTarget>, name: string)
    ensures LinearScan(routes, name).Some? <==> exists i :: 0 <= i < |routes| && routes[i].sni == name
    ensures LinearScan(routes, name).Some? ==> LinearScan(routes, name).value in routes && LinearScan(routes, name).value.sni == name
  {
    if routes != [] {
      ScanFindsListed(routes[1..], name);
      if routes[0].sni != name && exists i :: 0 <= i < |routes| && routes[i].sni == name {
        var i :| 0 <= i < |routes| && routes[i].sni == name;
        assert routes[1..][i - 1].sni == name;
      }
    }
  }

  lemma {:induction false} LastIsListed(routes: seq<ProxyTarget>, name: string)
    ensures LastListed(routes, name).Some? <==> exists i :: 0 <= i < |routes| && routes[i].sni == name
    ensures LastListed(routes, name).Some? ==> LastListed(routes, name).value in routes && LastListed(routes, name).value.sni == name
  {
    if routes != [] {
      LastIsListed(routes[..|routes| - 1], name);
      if routes[|routes| - 1].sni != name && exists i :: 0 <= i < |routes| && routes[i].sni == name {
        var i :| 0 <= i < |routes| && routes[i].sni == name;
        assert routes[..|routes| - 1][i].sni == name;
      }
    }
  }

  lemma ListedRouteIsFound(routes: seq<ProxyTarget>, name: string)
    ensures LastListed(routes, name).None? <==> forall r :: r in routes ==> r.sni != name
    ensures DistinctSnis(routes) ==> LastListed(routes, name) == LinearScan(routes, name)
    ensures DistinctSnis(routes) ==> forall r :: r in routes && r.sni == name ==> LastListed(routes, name) == Some(r)
  {
    LastIsListed(routes, name);
    if DistinctSnis(routes) {
      ScansAgree(routes, name);
    }
  }

  /** With distinct names there is only one route to find, so both directions find it. */
  lemma ScansAgree(routes: seq<ProxyTarget>, name: string)
    requires DistinctSnis(routes)
    ensures LastListed(routes, name) == LinearScan(routes, name)
  {
    ScanFindsListed(routes, name);
    LastIsListed(routes, name);
  }

  datatype ServerConfig = ServerConfig(tls13Only: bool, alpn: Alpn.Names)

  function BuildServerConfig(config: ServiceConfig, alpn: Alpn.Names): ServerConfig {
    ServerConfig(config.tlsMinVersion == "1.3", alpn)
  }

  /** "h2", then "http/1.1". */
  const DEFAULT_ALPN: Alpn.Names := [[0x68, 0x32], [0x68, 0x74, 0x74, 0x70, 0x2F, 0x31, 0x2E, 0x31]]

  /** One snapshot: the table, the server configuration built with it, and the configuration itself. */
  datatype RouterState = RouterState(table: Table, serverConfig: ServerConfig, config: ServiceConfig)

  /** Everything in a snapshot comes from one configuration. */
  ghost predicate SnapshotOf(s: RouterState, config: ServiceConfig) {
    && s.config == config
    && s.serverConfig == BuildServerConfig(config, DEFAULT_ALPN)
    && Indexes(s.table, config.routes)
  }

  /** The table finds, for every name, the route listed last under it. */
  ghost predicate Indexes(table: Table, routes: seq<ProxyTarget>) {
    forall name :: Lookup(table, name) == LastListed(routes, name)
  }

  /** As many entries as routes, unless a name is listed twice. */
  ghost predicate CountsNames(table: Table, routes: seq<ProxyTarget>) {
    |table| <= |routes| && (|table| == |routes| <==> DistinctSnis(routes))
  }

  /** For every configuration that passes validation the index is a linear scan, and what it finds is the only such route. */
  lemma IndexIsTheScan(table: Table, routes: seq<ProxyTarget>, upstreamOk: string -> bool, name: string)
    requires Indexes(table, routes) && ValidRoutes(routes, upstreamOk)
    ensures Lookup(table, name) == LinearScan(routes, name)
    ensures name in table <==> exists i :: 0 <= i < |routes| && routes[i].sni == name
    ensures forall i :: 0 <= i < |routes| && routes[i].sni == name ==> Lookup(table, name) == Some(routes[i])
  {
    ScansAgree(routes, name);
    ScanFindsListed(routes, name);
    assert Lookup(table, name) == LastListed(routes, name);
  }

  /** End to end: under the canonical form of a configured host the index of the loaded routes finds just that route. */
  lemma ConfiguredHostIsFound(raw: seq<ProxyTarget>, routes: seq<ProxyTarget>, upstreamOk: string -> bool, table: Table,
                              i: nat, name: string)
    requires |routes| == |raw| && forall k :: 0 <= k < |raw| ==> routes[k] == raw[k].(sni := Normalize(raw[k].sni))
    requires ValidRoutes(routes, upstreamOk) && Indexes(table, routes)
    requires i < |raw| && Canonical(name) && SameHost(name, raw[i].sni)
    ensures Lookup(table, name) == Some(raw[i].(sni := name))
  {
    NormalFormIsCanonical(name);
    NormalizeIdentifiesHosts(name, raw[i].sni);
    assert routes[i].sni == name;
    IndexIsTheScan(table, routes, upstreamOk, name);
  }

  lemma IndexExtends(table: Table, routes: seq<ProxyTarget>, target: ProxyTarget)
    requires Indexes(table, routes)
    ensures Indexes(table[target.sni := target], routes + [target])
  {
    var more := routes + [target];
    assert more[..|more| - 1] == routes;
    forall name ensures Lookup(table[target.sni := target], name) == LastListed(more, name) {
      assert Lookup(table, name) == LastListed(routes, name);
    }
  }

  lemma CountExtends(table: Table, routes: seq<ProxyTarget>, target: ProxyTarget)
    requires Indexes(table, routes) && CountsNames(table, routes)
    ensures CountsNames(table[target.sni := target], routes + [target])
  {
    var more, table' := routes + [target], table[target.sni := target];
    assert table'.Keys == table.Keys + {target.sni};
    assert |table'| == |table| + if target.sni in table then 0 else 1;
    assert Lookup(table, target.sni) == LastListed(routes, target.sni);
    LastIsListed(routes, target.sni);
    DistinctExtends(routes, target);
  }

  lemma DistinctExtends(routes: seq<ProxyTarget>, target: ProxyTarget)
    ensures DistinctSnis(routes + [target]) <==>
              DistinctSnis(routes) && forall i :: 0 <= i < |routes| ==> routes[i].sni != target.sni
  {
    var more := routes + [target];
    assert forall i :: 0 <= i < |routes| ==> more[i] == routes[i];
    if DistinctSnis(more) {
      forall i | 0 <= i < |routes| ensures routes[i].sni != target.sni {
        assert more[i].sni != more[|routes|].sni;
      }
      forall i, j | 0 <= i < j < |routes| ensures routes[i].sni != routes[j].sni {
        assert more[i].sni != more[j].sni;
      }
    }
  }

  /** Fills the index in a loop. It has one entry per route exactly when no name is listed twice. */
  method NewState(config: ServiceConfig) returns (s: RouterState)
    ensures SnapshotOf(s, config)
    ensures CountsNames(s.table, config.routes)
    ensures s.serverConfig.tls13Only <==> config.tlsMinVersion == "1.3"
    ensures s.serverConfig.alpn == [[0x68, 0x32], [0x68, 0x74, 0x74, 0x70, 0x2F, 0x31, 0x2E, 0x31]]
  {
    var table: Table := map[];
    var routes := config.routes;
    for i := 0 to |routes|
      invariant Indexes(table, routes[..i]) && CountsNames(table, routes[..i])
    {
      IndexExtends(table, routes[..i], routes[i]);
      CountExtends(table, routes[..i], routes[i]);
      assert routes[..i + 1] == routes[..i] + [routes[i]];
      table := table[routes[i].sni := routes[i]];
    }
    assert routes[..|routes|] == routes;
    s := RouterState(table, BuildServerConfig(config, DEFAULT_ALPN), config);
  }

  /** What `route` does with a connection once its server name is known. */
  datatype Decision =
    | Passthrough(upstream: string)
    | Terminate(upstream: string, tls: ServerConfig)
    | Fallback(tls: ServerConfig)

  /** What a connection gets once its route, if any, is known. */
  function Chosen(config: ServiceConfig, target: Option<ProxyTarget>): Decision {
    match target
    case None => Fallback(BuildServerConfig(config, DEFAULT_ALPN))
    case Some(target) =>
      if target.tlsPassthrough then Passthrough(target.upstream)
      else Terminate(target.upstream, BuildServerConfig(config, if target.alpn.Some? then target.alpn.value else DEFAULT_ALPN))
  }

  class Router {
    var state: RouterState

    ghost predicate Valid()
      reads this
    {
      SnapshotOf(state, state.config)
    }

    constructor (config: ServiceConfig)
      ensures Valid() && state.config == config
    {
      var first := NewState(config);
      state := first;
    }

    /** Builds the new snapshot first, then swaps it in whole. */
    method Reload(config: ServiceConfig)
      modifies this
      ensures Valid() && state.config == config
    {
      var next := NewState(config);
      state := next;
    }

    /**
     * The decision for one connection, from one snapshot: the route listed last under its name, which
     * for distinct names, as every loaded configuration has, is the one a scan of the list finds.
     */
    method Decide(sni: Option<string>) returns (decision: Decision)
      requires Valid()
      ensures sni.None? ==> decision == Chosen(state.config, None)
      ensures sni.Some? ==> decision == Chosen(state.config, LastListed(state.config.routes, sni.value))
      ensures sni.Some? && DistinctSnis(state.config.routes) ==>
                decision == Chosen(state.config, LinearScan(state.config.routes, sni.value))
      // A passthrough route leaves the bytes alone, and any other listed route is terminated here.
      ensures sni.Some? && DistinctSnis(state.config.routes) ==>
                forall r :: r in state.config.routes && r.sni == sni.value ==>
                  && (r.tlsPassthrough ==> decision == Passthrough(r.upstream))
                  && (!r.tlsPassthrough ==> decision.Terminate? && decision.upstream == r.upstream)
                  && (!r.tlsPassthrough && r.alpn.Some? ==> decision.tls.alpn == r.alpn.value)
                  && (!r.tlsPassthrough && r.alpn.None? ==>
                        decision.tls.alpn == [[0x68, 0x32], [0x68, 0x74, 0x74, 0x70, 0x2F, 0x31, 0x2E, 0x31]])
      ensures decision.Fallback? <==> sni.None? || forall r :: r in state.config.routes ==> r.sni != sni.value
      ensures decision.Fallback? ==> decision.tls.alpn == [[0x68, 0x32], [0x68, 0x74, 0x74, 0x70, 0x2F, 0x31, 0x2E, 0x31]]
      ensures !decision.Passthrough? ==> (decision.tls.tls13Only <==> state.config.tlsMinVersion == "1.3")
    {
      var snapshot := state;
      if sni.Some? {
        ListedRouteIsFound(snapshot.config.routes, sni.value);
      }
      var target := if sni.None? then None else Lookup(snapshot.table, sni.value);
      if target.None? {
        return Fallback(snapshot.serverConfig);
      }
      if target.value.tlsPassthrough {
        return Passthrough(target.value.upstream);
      }
      var tls := snapshot.serverConfig;
      if target.value.alpn.Some? {
        tls := BuildServerConfig(snapshot.config, target.value.alpn.value);
      }
      return Terminate(target.value.upstream, tls);
    }
  }

  /** A certificate with its key, as far as reload is concerned. */
  datatype CertifiedKey = CertifiedKey(id: nat)

  class ReloadableCertResolver {
    var certKey: CertifiedKey

    constructor (key: CertifiedKey)
      ensures certKey == key
    {
      certKey := key;
    }

    method Update(key: CertifiedKey)
      modifies this
      ensures certKey == key
    {
      certKey := key;
    }
  }

  /** What one SIGHUP brings: a configuration that does not load, a key that does not, or both. */
  datatype Hangup = BadConfig | BadKey(config: ServiceConfig) | Loaded(config: ServiceConfig, key: CertifiedKey)

  /** The last reload that succeeded. */
  function LastLoaded(hangups: seq<Hangup>): Option<Hangup> {
    if hangups == [] then None
    else if hangups[|hangups| - 1].Loaded? then Some(hangups[|hangups| - 1])
    else LastLoaded(hangups[..|hangups| - 1])
  }

  predicate IsLastLoaded(hangups: seq<Hangup>, i: nat) {
    i < |hangups| && hangups[i].Loaded? && forall j :: i < j < |hangups| ==> !hangups[j].Loaded?
  }

  lemma {:induction false} LastLoadedIsLast(hangups: seq<Hangup>)
    ensures forall i :: 0 <= i < |hangups| && IsLastLoaded(hangups, i) ==> LastLoaded(hangups) == Some(hangups[i])
    ensures (forall i :: 0 <= i < |hangups| ==> !hangups[i].Loaded?) ==> LastLoaded(hangups).None?
  {
    if hangups != [] {
      var n := |hangups| - 1;
      LastLoadedIsLast(hangups[..n]);
      forall i | 0 <= i < n && IsLastLoaded(hangups, i) ensures IsLastLoaded(hangups[..n], i) && !hangups[n].Loaded? {}
    }
  }

  function LimitsOf(config: ServiceConfig): TokenBucket.Limits {
    TokenBucket.Limits(config.connectionBurstPerIp.GetOr(10), config.connectionRatePerIp.GetOr(0.0))
  }

  function IpLimitOf(config: ServiceConfig): nat {
    config.maxConnectionsPerIp.GetOr(0)
  }

  /** What the shared cells hold, for a connection that reads them now. */
  datatype Live = Live(key: CertifiedKey, config: ServiceConfig, ipLimit: nat, burst: nat, rate: real)

  function Brought(config: ServiceConfig, key: CertifiedKey): Live {
    Live(key, config, IpLimitOf(config), LimitsOf(config).capacity, LimitsOf(config).rate)
  }

  /** The first `k` cells, in the order in which a reload stores them, are from `after`. */
  function Mixed(before: Live, after: Live, k: nat): Live {
    Live(if k > 0 then after.key else before.key,
         if k > 1 then after.config else before.config,
         if k > 2 then after.ipLimit else before.ipLimit,
         if k > 3 then after.burst else before.burst,
         if k > 4 then after.rate else before.rate)
  }

  /** Every cell holds what the load of its generation brought. */
  ghost predicate Holds(history: seq<Live>, gens: Reload.Cells, live: Live) {
    && gens.cert < |history| && gens.router < |history| && gens.ipLimit < |history| && gens.burst < |history| && gens.rate < |history|
    && live == Live(history[gens.cert].key, history[gens.router].config, history[gens.ipLimit].ipLimit,
                    history[gens.burst].burst, history[gens.rate].rate)
  }

  /**
   * At every reachable point of the generation model the cells are such a mixture of two successive
   * loads, so what is proved of generations is about the contents `ApplyReload` passes through.
   */
  lemma GenerationsAreMixtures(history: seq<Live>, steps: seq<Reload.Step>)
    requires Reload.ValidRun(Reload.INIT, steps) && Reload.After(Reload.INIT, steps).cells.cert < |history|
    ensures var s := Reload.After(Reload.INIT, steps);
            && s.cells.rate < |history|
            && Holds(history, s.cells, Mixed(history[s.cells.rate], history[s.cells.cert], Reload.Done(s.reloader)))
  {
    Reload.InvHoldsAlong(Reload.INIT, steps);
  }

  ghost function LiveOf(router: Router, certResolver: ReloadableCertResolver, ipLimiter: IpSlots.IpLimiter,
                        rateLimiter: TokenBucket.RateLimiter): Live
    reads router, certResolver, ipLimiter, rateLimiter
  {
    Live(certResolver.certKey, router.state.config, ipLimiter.maxPerIp, rateLimiter.capacity, rateLimiter.refillPerSec)
  }

  /**
   * One successful reload. `seen` is what the cells hold after each of its calls: certificate, routes,
   * per-IP limit, and the two rate limits together.
   */
  method ApplyReload(router: Router, certResolver: ReloadableCertResolver, ipLimiter: IpSlots.IpLimiter,
                     rateLimiter: TokenBucket.RateLimiter, config: ServiceConfig, key: CertifiedKey)
    returns (ghost seen: seq<Live>)
    requires ipLimiter.Valid() && rateLimiter.Valid()
    modifies router, certResolver, ipLimiter`maxPerIp, rateLimiter
    ensures ipLimiter.Valid() && rateLimiter.Valid() && router.Valid() && rateLimiter.buckets == old(rateLimiter.buckets)
    ensures LiveOf(router, certResolver, ipLimiter, rateLimiter) == Brought(config, key)
    ensures var before, after := old(LiveOf(router, certResolver, ipLimiter, rateLimiter)), Brought(config, key);
            seen == [Mixed(before, after, 1), Mixed(before, after, 2), Mixed(before, after, 3), Mixed(before, after, 5)]
  {
    certResolver.Update(key);
    seen := [LiveOf(router, certResolver, ipLimiter, rateLimiter)];
    router.Reload(config);
    seen := seen + [LiveOf(router, certResolver, ipLimiter, rateLimiter)];
    ipLimiter.SetLimit(IpLimitOf(config));
    seen := seen + [LiveOf(router, certResolver, ipLimiter, rateLimiter)];
    var limits := LimitsOf(config);
    rateLimiter.SetLimit(limits.rate, limits.capacity);
    seen := seen + [LiveOf(router, certResolver, ipLimiter, rateLimiter)];
  }

  /**
   * The reload loop over any sequence of signals: afterwards every cell comes from the last reload that
   * loaded both a configuration and a key, and nothing changed if there was none. Slots and buckets of
   * connections in flight stay as they are.
   */
  method HotReload(router: Router, certResolver: ReloadableCertResolver, ipLimiter: IpSlots.IpLimiter,
                   rateLimiter: TokenBucket.RateLimiter, hangups: seq<Hangup>)
    requires ipLimiter.Valid() && rateLimiter.Valid()
    modifies router, certResolver, ipLimiter`maxPerIp, rateLimiter
    ensures ipLimiter.Valid() && rateLimiter.Valid() && rateLimiter.buckets == old(rateLimiter.buckets)
    ensures LastLoaded(hangups).None? ==>
              && router.state == old(router.state)
              && LiveOf(router, certResolver, ipLimiter, rateLimiter) == old(LiveOf(router, certResolver, ipLimiter, rateLimiter))
    ensures LastLoaded(hangups).Some? ==>
              var last := LastLoaded(hangups).value;
              && last.Loaded? && router.Valid()
              && LiveOf(router, certResolver, ipLimiter, rateLimiter) == Brought(last.config, last.key)
    // The same, signal by signal: the last one that loads is in force, an absent setting by its default.
    ensures forall i :: 0 <= i < |hangups| && IsLastLoaded(hangups, i) ==>
              && certResolver.certKey == hangups[i].key && router.state.config == hangups[i].config
              && ipLimiter.maxPerIp == (match hangups[i].config.maxConnectionsPerIp case Some(n) => n case None => 0)
              && rateLimiter.refillPerSec == (match hangups[i].config.connectionRatePerIp case Some(x) => x case None => 0.0)
              && rateLimiter.capacity == (match hangups[i].config.connectionBurstPerIp case Some(n) => n case None => 10)
    ensures (forall i :: 0 <= i < |hangups| ==> !hangups[i].Loaded?) ==>
              && router.state == old(router.state)
              && LiveOf(router, certResolver, ipLimiter, rateLimiter) == old(LiveOf(router, certResolver, ipLimiter, rateLimiter))
  {
    for i := 0 to |hangups|
      invariant ipLimiter.Valid() && rateLimiter.Valid() && rateLimiter.buckets == old(rateLimiter.buckets)
      invariant LastLoaded(hangups[..i]).None? ==>
                  && router.state == old(router.state)
                  && LiveOf(router, certResolver, ipLimiter, rateLimiter) == old(LiveOf(router, certResolver, ipLimiter, rateLimiter))
      invariant LastLoaded(hangups[..i]).Some? ==>
                  var last := LastLoaded(hangups[..i]).value;
                  && last.Loaded? && router.Valid()
                  && LiveOf(router, certResolver, ipLimiter, rateLimiter) == Brought(last.config, last.key)
    {
      assert hangups[..i + 1][..i] == hangups[..i];
      match hangups[i] {
        case BadConfig =>
        case BadKey(_) =>
        case Loaded(config, key) =>
          var _ := ApplyReload(router, certResolver, ipLimiter, rateLimiter, config, key);
      }
    }
    assert hangups[..|hangups|] == hangups;
    LastLoadedIsLast(hangups);
  }
}
