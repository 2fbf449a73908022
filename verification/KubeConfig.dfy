/** Kubeconfig files, and the functions of the kube management service that
    generate, merge and filter them (kube-management.service.ts). */
module KubeConfigs {
  import opened Wrappers
  import Sequences
  import opened OrderedMaps
  import Decimals
  import DaemonStores

  datatype Scheme = Http | Https | Ws | Wss | Ftp | OtherScheme

  /** The text of a cluster's server, as far as its port goes: the port is the one written, if any. */
  datatype Server = Server(scheme: Scheme, port: Option<nat>) | NotAUrl

  datatype ClusterBody = ClusterBody(server: Server, skipTlsVerify: bool)
  datatype ContextBody = ContextBody(cluster: string, user: string, namespace: Option<string>)
  datatype UserBody = UserBody(credentials: string)

  type Cluster = Entry<string, ClusterBody>
  type Context = Entry<string, ContextBody>
  type User = Entry<string, UserBody>

  datatype KubeConfig = KubeConfig(
    clusters: seq<Cluster>, users: seq<User>, contexts: seq<Context>, currentContext: Option<string>)

  const EMPTY := KubeConfig([], [], [], None)

  /** Name of the zli configuration in use and e-mail of the logged-in subject. */
  datatype Identity = Identity(configName: string, email: string)

  datatype KubeDetails = KubeDetails(
    targetCluster: string, targetUser: string, targetGroups: seq<string>, defaultNamespace: Option<string>)

  type KubeDaemon = DaemonStores.DaemonConfig<KubeDetails>

  datatype KubeError = InvalidUrl

  // ---------- Names and ports ----------

  function NamePrefix(id: Identity): string {
    if id.configName == "dev" || id.configName == "stage" then id.configName + "-bzero-" else "bzero-"
  }

  function ManagedUser(id: Identity): string {
    NamePrefix(id) + id.email
  }

  function EntryName(id: Identity, targetUser: string, targetName: string): string {
    NamePrefix(id) + targetUser + "@" + targetName
  }

  const MAX_PORT := 65535

  /** The port a parsed URL leaves out; other schemes have none. */
  function DefaultPort(scheme: Scheme): Option<nat> {
    match scheme
    case Http => Some(80)
    case Https => Some(443)
    case Ws => Some(80)
    case Wss => Some(443)
    case Ftp => Some(21)
    case OtherScheme => None
  }

  /** The `port` property of a parsed URL: empty when no port is written or the
      written one is the scheme's default (section 6.2.3 of RFC 3986). */
  function UrlPort(s: Server): Result<string, KubeError> {
    match s
    case NotAUrl => Failure(InvalidUrl)
    case Server(_, None) => Success("")
    case Server(scheme, Some(p)) =>
      if p > MAX_PORT then Failure(InvalidUrl)
      else if DefaultPort(scheme) == Some(p) then Success("")
      else Success(Decimals.Decimal(p))
  }

  function PortOf(c: ClusterBody): Result<string, KubeError> {
    match UrlPort(c.server)
    case Failure(e) => Failure(e)
    case Success(port) =>
      if c.server.scheme == Http && port == "" then Success("80")
      else if c.server.scheme == Https && port == "" then Success("443")
      else Success(port)
  }

  // ---------- Generate ----------

  /** `https://localhost:${port}`; a port that is not set does not make a URL. */
  function LocalServer(port: Option<nat>): Server {
    if port.Some? then Server(Https, port) else NotAUrl
  }

  function ClusterFor(id: Identity, d: KubeDaemon): Cluster {
    Entry(NameFor(id, d), ClusterBody(LocalServer(d.localPort), true))
  }

  function ContextFor(id: Identity, d: KubeDaemon): Context {
    Entry(NameFor(id, d), ContextBody(NameFor(id, d), ManagedUser(id), d.details.defaultNamespace))
  }

  function NameFor(id: Identity, d: KubeDaemon): string {
    EntryName(id, d.details.targetUser, d.details.targetCluster)
  }

  function UserFor(id: Identity, token: string): User {
    Entry(ManagedUser(id), UserBody(token))
  }

  function Generated(id: Identity, token: string, d: KubeDaemon): KubeConfig {
    KubeConfig([ClusterFor(id, d)], [UserFor(id, token)], [ContextFor(id, d)], Some(NameFor(id, d)))
  }

  /** The prefix of managed names, for the configuration in use. */
  predicate IsPrefix(id: Identity, prefix: string) {
    && (id.configName == "dev" ==> prefix == "dev-bzero-")
    && (id.configName == "stage" ==> prefix == "stage-bzero-")
    && (id.configName != "dev" && id.configName != "stage" ==> prefix == "bzero-")
  }

  /** The fields of a generated configuration. */
  ghost predicate HasFields(id: Identity, token: string, d: KubeDaemon, r: KubeConfig) {
    exists prefix: string :: IsPrefix(id, prefix) && r.currentContext.Some?
      && r.currentContext.value == prefix + d.details.targetUser + "@" + d.details.targetCluster
      && FieldsNamed(prefix + id.email, token, d, r, r.currentContext.value)
  }

  /** The entries named `n`, for the managed user `u`. */
  ghost predicate FieldsNamed(u: string, token: string, d: KubeDaemon, r: KubeConfig, n: string) {
    && |r.clusters| == |r.users| == |r.contexts| == 1
    && r.clusters[0].key == n && r.clusters[0].value.skipTlsVerify
    && (d.localPort.Some? ==> r.clusters[0].value.server == Server(Https, d.localPort))
    && (d.localPort.None? ==> r.clusters[0].value.server == NotAUrl)
    && r.contexts[0].key == n && r.contexts[0].value.cluster == n && r.contexts[0].value.user == u
    && r.contexts[0].value.namespace == d.details.defaultNamespace
    && r.users[0].key == u && r.users[0].value.credentials == token
  }

  /** The fields of the generated configuration, which the three entries of a daemon make up. */
  lemma GeneratedFields(id: Identity, token: string, d: KubeDaemon)
    ensures Generated(id, token, d) == KubeConfig([ClusterFor(id, d)], [UserFor(id, token)], [ContextFor(id, d)], Some(NameFor(id, d)))
    ensures HasFields(id, token, d, Generated(id, token, d))
  {
    var prefix := NamePrefix(id);
    assert "dev" + "-bzero-" == "dev-bzero-" && "stage" + "-bzero-" == "stage-bzero-";
    assert IsPrefix(id, prefix);
    assert FieldsNamed(prefix + id.email, token, d, Generated(id, token, d), NameFor(id, d));
  }

  /** `generateKubeConfig` for the target, user, port and namespace of a daemon. */
  method GenerateKubeConfig(id: Identity, token: string, d: KubeDaemon) returns (r: KubeConfig)
    ensures r == Generated(id, token, d)
    ensures HasFields(id, token, d, r)
  {
    var identifyingName := NamePrefix(id) + d.details.targetUser + "@" + d.details.targetCluster;
    var userName := ManagedUser(id);
    var context := ContextBody(identifyingName, userName, d.details.defaultNamespace);
    r := EMPTY;
    r := r.(clusters := r.clusters + [Entry(identifyingName, ClusterBody(LocalServer(d.localPort), true))]);
    r := r.(contexts := r.contexts + [Entry(identifyingName, context)]);
    r := r.(users := r.users + [Entry(userName, UserBody(token))]);
    r := r.(currentContext := Some(identifyingName));
    GeneratedFields(id, token, d);
  }

  // ---------- Merge ----------

  function MergeEntries<V(==)>(src: Entries<string, V>, dest: Entries<string, V>): Entries<string, V> {
    Without(src, Keys(dest)) + FromList(dest)
  }

  /** A current-context counts as set when it is defined and not empty. */
  predicate IsSet(c: Option<string>) {
    c.Some? && c.value != ""
  }

  function Merge(src: KubeConfig, dest: KubeConfig): KubeConfig {
    KubeConfig(
      MergeEntries(src.clusters, dest.clusters),
      MergeEntries(src.users, dest.users),
      MergeEntries(src.contexts, dest.contexts),
      if IsSet(dest.currentContext) then dest.currentContext else src.currentContext)
  }

  method BuildMapOfNamedKubeEntries<V(==)>(arr: Entries<string, V>) returns (m: Entries<string, V>)
    ensures m == FromList(arr)
  {
    m := [];
    for i := 0 to |arr|
      invariant m == FromList(arr[..i])
    {
      m := Set(m, arr[i].key, arr[i].value);
      assert arr[..i + 1][..i] == arr[..i];
    }
    assert arr[..|arr|] == arr;
  }

  method MergeEntriesWith<V(==)>(srcEntries: Entries<string, V>, destMap: Entries<string, V>)
    returns (merged: Entries<string, V>)
    ensures merged == Without(srcEntries, Keys(destMap)) + destMap
  {
    merged := [];
    for i := 0 to |srcEntries|
      invariant merged == Without(srcEntries[..i], Keys(destMap))
    {
      var entry := srcEntries[i];
      assert srcEntries[..i + 1] == srcEntries[..i] + [entry];
      WithoutSnoc(srcEntries[..i], entry, Keys(destMap));
      if Find(destMap, entry.key).None? {
        merged := merged + [entry];
      }
    }
    assert srcEntries[..|srcEntries|] == srcEntries;
    merged := merged + destMap;
  }

  method MergeKubeConfig(srcConfig: KubeConfig, destConfig: KubeConfig) returns (merged: KubeConfig)
    ensures merged == Merge(srcConfig, destConfig)
    ensures destConfig.currentContext in {None, Some("")} ==> merged.currentContext == srcConfig.currentContext
    ensures destConfig.currentContext !in {None, Some("")} ==> merged.currentContext == destConfig.currentContext
  {
    var destClustersMap := BuildMapOfNamedKubeEntries(destConfig.clusters);
    var destUsersMap := BuildMapOfNamedKubeEntries(destConfig.users);
    var destContextsMap := BuildMapOfNamedKubeEntries(destConfig.contexts);
    FromListKeys(destConfig.clusters);
    FromListKeys(destConfig.users);
    FromListKeys(destConfig.contexts);

    merged := EMPTY;
    var clusters := MergeEntriesWith(srcConfig.clusters, destClustersMap);
    var users := MergeEntriesWith(srcConfig.users, destUsersMap);
    var contexts := MergeEntriesWith(srcConfig.contexts, destContextsMap);
    merged := merged.(clusters := clusters, users := users, contexts := contexts);
    if IsSet(destConfig.currentContext) {
      merged := merged.(currentContext := destConfig.currentContext);
    } else {
      merged := merged.(currentContext := srcConfig.currentContext);
    }
  }

  // ---------- Filter ----------

  datatype FilterResult = FilterResult(
    config: KubeConfig, removedContexts: set<string>, removedClusters: set<string>, isDirty: bool)

  predicate IsBastionZero(id: Identity, c: Context) {
    c.value.user == ManagedUser(id)
  }

  /** Ports of the stored daemons; a port that is not set, or zero, is skipped. */
  function ExpectedPorts(daemons: seq<KubeDaemon>): set<string> {
    set d | d in daemons && d.localPort.Some? && d.localPort.value != 0 :: Decimals.Decimal(d.localPort.value)
  }

  /** The context is managed and its cluster is in the file. */
  predicate Refers(id: Identity, clusters: seq<Cluster>, c: Context) {
    IsBastionZero(id, c) && Find(clusters, c.value.cluster).Some?
  }

  predicate Unreadable(id: Identity, clusters: seq<Cluster>, c: Context) {
    Refers(id, clusters, c) && PortOf(Find(clusters, c.value.cluster).value).Failure?
  }

  predicate Stale(id: Identity, ports: set<string>, clusters: seq<Cluster>, c: Context) {
    Refers(id, clusters, c)
    && var p := PortOf(Find(clusters, c.value.cluster).value); p.Success? && p.value !in ports
  }

  function StaleOf(id: Identity, ports: set<string>, clusters: seq<Cluster>, contexts: seq<Context>): seq<Context> {
    if contexts == [] then []
    else (if Stale(id, ports, clusters, contexts[0]) then [contexts[0]] else [])
         + StaleOf(id, ports, clusters, contexts[1..])
  }

  function ClusterNames(contexts: seq<Context>): set<string> {
    set c | c in contexts :: c.value.cluster
  }

  function Filtered(id: Identity, ports: set<string>, anyRunning: bool, kc: KubeConfig): KubeConfig {
    var contexts, clusters := FromList(kc.contexts), FromList(kc.clusters);
    var stale := StaleOf(id, ports, clusters, contexts);
    kc.(contexts := Without(contexts, Keys(stale)),
        clusters := Without(clusters, ClusterNames(stale)),
        users := if anyRunning then kc.users else Without(FromList(kc.users), {ManagedUser(id)}))
  }

  /** Some managed context refers to a cluster whose server is not a URL: filtering throws. */
  predicate FilterThrows(id: Identity, kc: KubeConfig) {
    exists c :: c in FromList(kc.contexts) && Unreadable(id, FromList(kc.clusters), c)
  }

  predicate FilterDirty(id: Identity, ports: set<string>, anyRunning: bool, kc: KubeConfig) {
    || StaleOf(id, ports, FromList(kc.clusters), FromList(kc.contexts)) != []
    || (!anyRunning && ManagedUser(id) in Keys(kc.users))
  }

  lemma {:induction false} StaleOfMembers(id: Identity, ports: set<string>, clusters: seq<Cluster>, contexts: seq<Context>)
    ensures forall c :: c in StaleOf(id, ports, clusters, contexts) <==> c in contexts && Stale(id, ports, clusters, c)
  {
    if contexts != [] {
      StaleOfMembers(id, ports, clusters, contexts[1..]);
    }
  }

  lemma {:induction false} StaleOfSnoc(id: Identity, ports: set<string>, clusters: seq<Cluster>, a: seq<Context>, c: Context)
    ensures StaleOf(id, ports, clusters, a + [c])
      == StaleOf(id, ports, clusters, a) + if Stale(id, ports, clusters, c) then [c] else []
  {
    if a != [] {
      StaleOfSnoc(id, ports, clusters, a[1..], c);
      assert (a + [c])[0] == a[0] && (a + [c])[1..] == a[1..] + [c];
      Sequences.AppendAssoc(if Stale(id, ports, clusters, a[0]) then [a[0]] else [], StaleOf(id, ports, clusters, a[1..]),
        if Stale(id, ports, clusters, c) then [c] else []);
    } else {
      assert a + [c] == [c];
    }
  }

  method PortsOf(daemons: seq<KubeDaemon>) returns (ports: set<string>)
    ensures ports == ExpectedPorts(daemons)
  {
    ports := {};
    for i := 0 to |daemons|
      invariant ports == ExpectedPorts(daemons[..i])
    {
      var port := daemons[i].localPort;
      assert daemons[..i + 1] == daemons[..i] + [daemons[i]];
      if port.Some? && port.value != 0 {
        ports := ports + {Decimals.Decimal(port.value)};
      }
    }
    assert daemons[..|daemons|] == daemons;
  }

  /** `names.forEach(name => m.delete(name))` */
  method DeleteAll<V(==)>(m: Entries<string, V>, names: set<string>) returns (r: Entries<string, V>)
    ensures r == Without(m, names)
  {
    r := m;
    var rest := names;
    assert names - rest == {};
    WithoutDisjoint(m, {});
    while rest != {}
      invariant rest <= names
      invariant r == Without(m, names - rest)
    {
      var name :| name in rest;
      WithoutWithout(m, names - rest, {name});
      assert names - rest + {name} == names - (rest - {name});
      r := Without(r, {name});
      rest := rest - {name};
    }
    assert names - {} == names;
  }

  /** What one more context adds to the recorded names. */
  lemma StaleStep(id: Identity, ports: set<string>, clusters: seq<Cluster>, contexts: seq<Context>, i: nat)
    requires i < |contexts|
    ensures var before := StaleOf(id, ports, clusters, contexts[..i]);
      var after := StaleOf(id, ports, clusters, contexts[..i + 1]);
      var stale := Stale(id, ports, clusters, contexts[i]);
      && Keys(after) == Keys(before) + (if stale then {contexts[i].key} else {})
      && ClusterNames(after) == ClusterNames(before) + (if stale then {contexts[i].value.cluster} else {})
  {
    var c := contexts[i];
    var before := StaleOf(id, ports, clusters, contexts[..i]);
    assert contexts[..i + 1] == contexts[..i] + [c];
    StaleOfSnoc(id, ports, clusters, contexts[..i], c);
    KeysConcat(before, [c]);
    assert ClusterNames(before + [c]) == ClusterNames(before) + {c.value.cluster};
    assert before + [] == before;
  }

  /** One context: managed, with a cluster in the file whose port no stored daemon has. */
  method CheckStale(id: Identity, ports: set<string>, c: Context, clusters: seq<Cluster>) returns (r: Result<bool, KubeError>)
    ensures r.Failure? <==> Unreadable(id, clusters, c)
    ensures r.Success? ==> (r.value <==> Stale(id, ports, clusters, c))
  {
    r := Success(false);
    if IsBastionZero(id, c) {
      var refCluster := Find(clusters, c.value.cluster);
      if refCluster.Some? {
        var port := PortOf(refCluster.value);
        if port.Failure? {
          return Failure(port.error);
        }
        if port.value !in ports {
          r := Success(true);
        }
      }
    }
  }

  /** The loop over the contexts map: records stale names, and stops when a server is not a URL. */
  method CollectStale(id: Identity, ports: set<string>, contexts: seq<Context>, clusters: seq<Cluster>)
    returns (threw: bool, staleContexts: set<string>, staleClusters: set<string>)
    ensures threw <==> exists c :: c in contexts && Unreadable(id, clusters, c)
    ensures !threw ==>
      && staleContexts == Keys(StaleOf(id, ports, clusters, contexts))
      && staleClusters == ClusterNames(StaleOf(id, ports, clusters, contexts))
  {
    threw, staleContexts, staleClusters := false, {}, {};
    for i := 0 to |contexts|
      invariant staleContexts == Keys(StaleOf(id, ports, clusters, contexts[..i]))
      invariant staleClusters == ClusterNames(StaleOf(id, ports, clusters, contexts[..i]))
      invariant forall k :: 0 <= k < i ==> !Unreadable(id, clusters, contexts[k])
      invariant !threw
    {
      var c := contexts[i];
      StaleStep(id, ports, clusters, contexts, i);
      var stale := CheckStale(id, ports, c, clusters);
      if stale.Failure? {
        assert c in contexts;
        threw := true;
        return;
      }
      if stale.value {
        staleContexts := staleContexts + {c.key};
        staleClusters := staleClusters + {c.value.cluster};
      }
    }
    assert contexts[..|contexts|] == contexts;
  }

  lemma StaleNamesEmpty(stale: seq<Context>)
    ensures Keys(stale) == {} <==> stale == []
    ensures ClusterNames(stale) == {} <==> stale == []
  {
    if stale != [] {
      assert stale[0] in stale && stale[0].key in Keys(stale) && stale[0].value.cluster in ClusterNames(stale);
    }
  }

  method FilterKubeConfig(id: Identity, daemons: seq<KubeDaemon>, anyRunning: bool, kc: KubeConfig)
    returns (r: Result<FilterResult, KubeError>)
    ensures r.Failure? <==> FilterThrows(id, kc)
    ensures r.Success? ==>
      && var stale := StaleOf(id, ExpectedPorts(daemons), FromList(kc.clusters), FromList(kc.contexts));
      && r.value.config == Filtered(id, ExpectedPorts(daemons), anyRunning, kc)
      && r.value.isDirty == FilterDirty(id, ExpectedPorts(daemons), anyRunning, kc)
      && r.value.removedContexts == Keys(stale)
      && r.value.removedClusters == ClusterNames(stale)
  {
    var ports := PortsOf(daemons);
    var contexts := BuildMapOfNamedKubeEntries(kc.contexts);
    var clusters := BuildMapOfNamedKubeEntries(kc.clusters);
    var users := BuildMapOfNamedKubeEntries(kc.users);

    var threw, staleContexts, staleClusters := CollectStale(id, ports, contexts, clusters);
    if threw {
      return Failure(InvalidUrl);
    }

    var keptContexts := DeleteAll(contexts, staleContexts);
    var keptClusters := DeleteAll(clusters, staleClusters);
    var filtered := kc.(contexts := keptContexts, clusters := keptClusters);

    StaleNamesEmpty(StaleOf(id, ports, clusters, contexts));
    var removedManagedUser := false;
    if !anyRunning {
      removedManagedUser := Find(users, ManagedUser(id)).Some?;
      FromListKeys(kc.users);
      filtered := filtered.(users := Without(users, {ManagedUser(id)}));
    }
    r := Success(FilterResult(filtered, staleContexts, staleClusters,
      |staleContexts| > 0 || |staleClusters| > 0 || removedManagedUser));
  }
}
