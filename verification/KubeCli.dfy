/** The kube command handlers, over the daemon management service and the kubeconfig
    file.  Each method performs one step of the state machine in KubeSessions. */
module KubeCli {
  import opened Wrappers
  import opened OrderedMaps
  import Decimals
  import opened DaemonStores
  import DaemonManagement
  import opened KubeConfigs
  import KubeConfigLaws
  import opened KubeSessions

  datatype ConnectError = DaemonAlreadyRunning(context: Option<string>) | NotStored

  /** The context is managed, its cluster is in the file, and the port is the daemon's.
      A server that is not a URL, or a port that is not set, makes the search throw. */
  function Matches(id: Identity, clusters: seq<Cluster>, d: KubeDaemon, c: Context): Result<bool, KubeError> {
    if !Refers(id, clusters, c) then Success(false)
    else match PortOf(Find(clusters, c.value.cluster).value)
      case Failure(e) => Failure(e)
      case Success(port) =>
        if d.localPort.None? then Failure(InvalidUrl) else Success(port == Decimals.Decimal(d.localPort.value))
  }

  /** The first context that matches, unless the search throws before it. */
  function FirstMatch(id: Identity, contexts: seq<Context>, clusters: seq<Cluster>, d: KubeDaemon): Result<Option<Context>, KubeError> {
    if contexts == [] then Success(None)
    else match Matches(id, clusters, d, contexts[0])
      case Failure(e) => Failure(e)
      case Success(true) => Success(Some(contexts[0]))
      case Success(false) => FirstMatch(id, contexts[1..], clusters, d)
  }

  /** The search ends at context `i`: none before it matches or throws, and it decides the result. */
  ghost predicate EndsAt(id: Identity, contexts: seq<Context>, clusters: seq<Cluster>, d: KubeDaemon, i: nat)
    requires i < |contexts|
  {
    && (forall j :: 0 <= j < i ==> Matches(id, clusters, d, contexts[j]) == Success(false))
    && match Matches(id, clusters, d, contexts[i])
      case Failure(e) => FirstMatch(id, contexts, clusters, d) == Failure(e)
      case Success(matches) => matches && FirstMatch(id, contexts, clusters, d) == Success(Some(contexts[i]))
  }

  /** The search finds nothing exactly when no context matches or throws; else it gives the
      first context that does not fail to match, or what that one throws. */
  lemma {:induction false} FirstMatchIff(id: Identity, contexts: seq<Context>, clusters: seq<Cluster>, d: KubeDaemon)
    ensures FirstMatch(id, contexts, clusters, d) == Success(None)
      <==> forall c :: c in contexts ==> Matches(id, clusters, d, c) == Success(false)
    ensures FirstMatch(id, contexts, clusters, d) != Success(None)
      ==> exists i :: 0 <= i < |contexts| && EndsAt(id, contexts, clusters, d, i)
  {
    if contexts != [] {
      var rest := contexts[1..];
      FirstMatchIff(id, rest, clusters, d);
      if Matches(id, clusters, d, contexts[0]) != Success(false) {
        assert EndsAt(id, contexts, clusters, d, 0);
      } else if i :| 0 <= i < |rest| && EndsAt(id, rest, clusters, d, i) {
        assert EndsAt(id, contexts, clusters, d, i + 1) && contexts[i + 1] == rest[i];
      }
    }
  }

  /** The context is managed and its cluster is in the map; its port is compared with the daemon's. */
  ghost predicate Compared(id: Identity, clusters: seq<Cluster>, c: Context) {
    c.value.user == NamePrefix(id) + id.email && Find(clusters, c.value.cluster).Some?
  }

  /** Comparing throws: the server is not a URL, or the daemon has no port. */
  ghost predicate Throws(id: Identity, clusters: seq<Cluster>, d: KubeDaemon, c: Context) {
    && Compared(id, clusters, c)
    && (PortOf(Find(clusters, c.value.cluster).value).Failure? || d.localPort.None?)
  }

  /** The context serves the daemon: the ports are the same. */
  ghost predicate Serves(id: Identity, clusters: seq<Cluster>, d: KubeDaemon, c: Context) {
    && Compared(id, clusters, c) && d.localPort.Some?
    && PortOf(Find(clusters, c.value.cluster).value) == Success(Decimals.Decimal(d.localPort.value))
  }

  lemma MatchesIs(id: Identity, clusters: seq<Cluster>, d: KubeDaemon, c: Context)
    ensures Matches(id, clusters, d, c).Failure? <==> Throws(id, clusters, d, c)
    ensures Matches(id, clusters, d, c) == Success(true) <==> Serves(id, clusters, d, c)
  {
  }

  /** No context before the `i`-th serves the daemon or throws. */
  ghost predicate NoneBefore(id: Identity, contexts: seq<Context>, clusters: seq<Cluster>, d: KubeDaemon, i: nat)
    requires i <= |contexts|
  {
    forall j :: 0 <= j < i ==> !Serves(id, clusters, d, contexts[j]) && !Throws(id, clusters, d, contexts[j])
  }

  /** What a search gives: the first context that serves the daemon, an error if one throws
      before, or none exactly when no context does either. */
  ghost predicate IsSearch(id: Identity, contexts: seq<Context>, clusters: seq<Cluster>, d: KubeDaemon, r: Result<Option<Context>, KubeError>) {
    match r
    case Failure(_) => exists i :: 0 <= i < |contexts| && NoneBefore(id, contexts, clusters, d, i) && Throws(id, clusters, d, contexts[i])
    case Success(None) => NoneBefore(id, contexts, clusters, d, |contexts|)
    case Success(Some(c)) =>
      exists i :: 0 <= i < |contexts| && NoneBefore(id, contexts, clusters, d, i) && Serves(id, clusters, d, contexts[i]) && contexts[i] == c
  }

  lemma FirstMatchIs(id: Identity, contexts: seq<Context>, clusters: seq<Cluster>, d: KubeDaemon)
    ensures IsSearch(id, contexts, clusters, d, FirstMatch(id, contexts, clusters, d))
  {
    FirstMatchIff(id, contexts, clusters, d);
    forall c ensures Matches(id, clusters, d, c).Failure? <==> Throws(id, clusters, d, c)
      ensures Matches(id, clusters, d, c) == Success(true) <==> Serves(id, clusters, d, c)
    {
      MatchesIs(id, clusters, d, c);
    }
    if i :| 0 <= i < |contexts| && EndsAt(id, contexts, clusters, d, i) {
      assert NoneBefore(id, contexts, clusters, d, i);
    }
  }

  /** `findMatchingKubeContext` */
  method FindMatchingKubeContext(id: Identity, contexts: seq<Context>, clusters: seq<Cluster>, d: KubeDaemon)
    returns (r: Result<Option<Context>, KubeError>)
    ensures r == FirstMatch(id, contexts, clusters, d)
    ensures IsSearch(id, contexts, clusters, d, r)
  {
    FirstMatchIs(id, contexts, clusters, d);
    for i := 0 to |contexts|
      invariant FirstMatch(id, contexts, clusters, d) == FirstMatch(id, contexts[i..], clusters, d)
    {
      var m := Matches(id, clusters, d, contexts[i]);
      if m.Failure? {
        return Failure(m.error);
      }
      if m.value {
        return Success(Some(contexts[i]));
      }
    }
    r := Success(None);
  }

  /** The name of a daemon's matching context, if the search finds one. */
  function MatchingName(id: Identity, contexts: seq<Context>, clusters: seq<Cluster>, d: KubeDaemon): Option<string> {
    var matching := FirstMatch(id, contexts, clusters, d);
    if matching.Success? && matching.value.Some? then Some(matching.value.value.key) else None
  }

  /** While the file indexes a running daemon, list-daemons finds a context for it, unless
      a broken entry of the user's own makes the search throw. */
  lemma ListedWithContext(id: Identity, s: State, d: KubeDaemon)
    requires Indexed(id, s.token, s.config, d) && KubeConfigLaws.UsablePort(d)
    ensures FirstMatch(id, s.config.contexts, FromList(s.config.clusters), d) != Success(None)
  {
    var c := ContextFor(id, d);
    var clusters := FromList(s.config.clusters);
    FirstMatchIff(id, s.config.contexts, clusters, d);
    assert c in s.config.contexts by {
      FindNamed(s.config.contexts, c.key);
    }
    NamedSingle(s.config.clusters, ClusterFor(id, d));
    FindNamed(clusters, c.value.cluster);
    KubeConfigLaws.GeneratedPortRoundTrip(id, d, d.localPort.value);
    assert Matches(id, clusters, d, c) == Success(true);
  }

  /** The context found for an indexed running daemon is never that of another one. */
  lemma FoundNotOthers(id: Identity, s: State, e: Entry<string, KubeDaemon>, f: Entry<string, KubeDaemon>, c: Context)
    requires StoreInv(s) && e in s.store && f in s.store && e != f && Running(e.value, s.alive) && Running(f.value, s.alive)
    requires KubeConfigLaws.UsablePort(e.value) && KubeConfigLaws.UsablePort(f.value)
    requires Indexed(id, s.token, s.config, e.value) && Indexed(id, s.token, s.config, f.value)
    requires FirstMatch(id, s.config.contexts, FromList(s.config.clusters), e.value) == Success(Some(c))
    ensures c.key != NameFor(id, f.value)
  {
    var clusters := FromList(s.config.clusters);
    FirstMatchIs(id, s.config.contexts, clusters, e.value);
    if c.key == NameFor(id, f.value) {
      OnlyNamed(s.config.contexts, ContextFor(id, f.value), c);
      NamedSingle(s.config.clusters, ClusterFor(id, f.value));
      KubeConfigLaws.GeneratedPortRoundTrip(id, f.value, f.value.localPort.value);
      Decimals.DecimalInjective(e.value.localPort.value, f.value.localPort.value);
      assert false;
    }
  }

  lemma OnlyNamed<V>(xs: Entries<string, V>, e: Entry<string, V>, x: Entry<string, V>)
    requires Named(xs, e.key) == [e] && x in xs && x.key == e.key
    ensures x == e
  {
    NamedMember(xs, x);
  }

  lemma {:induction false} NamedMember<V>(xs: Entries<string, V>, x: Entry<string, V>)
    requires x in xs
    ensures x in Named(xs, x.key)
  {
    if xs[0] != x {
      NamedMember(xs[1..], x);
    }
  }

  /** An indexed daemon's own context serves it; if no other context does, the search finds
      it unless it throws before, and the table shows its name. */
  lemma FoundOwn(id: Identity, s: State, d: KubeDaemon)
    requires Indexed(id, s.token, s.config, d) && KubeConfigLaws.UsablePort(d)
    requires forall c :: c in s.config.contexts && Serves(id, FromList(s.config.clusters), d, c) ==> c.key == NameFor(id, d)
    ensures var r := FirstMatch(id, s.config.contexts, FromList(s.config.clusters), d);
      r.Failure? || r == Success(Some(ContextFor(id, d)))
    ensures FirstMatch(id, s.config.contexts, FromList(s.config.clusters), d).Success? ==>
      MatchingName(id, s.config.contexts, FromList(s.config.clusters), d) == Some(NameFor(id, d))
  {
    var clusters := FromList(s.config.clusters);
    FirstMatchIs(id, s.config.contexts, clusters, d);
    ListedWithContext(id, s, d);
    var r := FirstMatch(id, s.config.contexts, clusters, d);
    if r.Success? {
      OnlyNamed(s.config.contexts, ContextFor(id, d), r.value.value);
    }
  }

  type Rows = seq<(Option<string>, Option<string>)>

  /** One row for each running daemon, in order: its key, and its context's name or an empty cell. */
  function Table(id: Identity, contexts: seq<Context>, clusters: seq<Cluster>,
      statuses: Entries<Option<string>, DaemonStatus<KubeDetails>>): Rows
  {
    if statuses == [] then []
    else
      var n := |statuses| - 1;
      var status := statuses[n].value;
      Table(id, contexts, clusters, statuses[..n])
      + if status.DaemonIsRunning? then [(statuses[n].key, MatchingName(id, contexts, clusters, status.config))] else []
  }

  /** How many of the daemons run. */
  function RunningCount(statuses: Entries<Option<string>, DaemonStatus<KubeDetails>>): nat {
    if statuses == [] then 0
    else
      var n := |statuses| - 1;
      RunningCount(statuses[..n]) + if statuses[n].value.DaemonIsRunning? then 1 else 0
  }

  /** The row shows the daemon's key and, unless the search throws, the name of the first
      context that serves it, or an empty cell if none does. */
  ghost predicate RowFits(id: Identity, contexts: seq<Context>, clusters: seq<Cluster>,
      e: Entry<Option<string>, DaemonStatus<KubeDetails>>, row: (Option<string>, Option<string>))
  {
    && row.0 == e.key
    && (row.1.Some? ==> exists c :: IsSearch(id, contexts, clusters, e.value.config, Success(Some(c))) && c.key == row.1.value)
    && (row.1.None? ==> !exists c :: IsSearch(id, contexts, clusters, e.value.config, Success(Some(c))))
  }

  /** The table has one row for each running daemon, in order, and no other. */
  lemma {:induction false} TableRows(id: Identity, contexts: seq<Context>, clusters: seq<Cluster>,
      statuses: Entries<Option<string>, DaemonStatus<KubeDetails>>, i: nat)
    requires i < |statuses| && statuses[i].value.DaemonIsRunning?
    ensures var table := Table(id, contexts, clusters, statuses);
      && |table| == RunningCount(statuses) && RunningCount(statuses[..i]) < |table|
      && RowFits(id, contexts, clusters, statuses[i], table[RunningCount(statuses[..i])])
  {
    var n := |statuses| - 1;
    TableLength(id, contexts, clusters, statuses);
    if i < n {
      TableRows(id, contexts, clusters, statuses[..n], i);
      assert statuses[..n][..i] == statuses[..i];
    } else {
      TableLength(id, contexts, clusters, statuses[..n]);
      SearchUnique(id, contexts, clusters, statuses[n].value.config);
    }
  }

  lemma {:induction false} TableLength(id: Identity, contexts: seq<Context>, clusters: seq<Cluster>,
      statuses: Entries<Option<string>, DaemonStatus<KubeDetails>>)
    ensures |Table(id, contexts, clusters, statuses)| == RunningCount(statuses)
  {
    if statuses != [] {
      TableLength(id, contexts, clusters, statuses[..|statuses| - 1]);
    }
  }

  /** A search has one outcome. */
  lemma SearchUnique(id: Identity, contexts: seq<Context>, clusters: seq<Cluster>, d: KubeDaemon)
    ensures forall c :: IsSearch(id, contexts, clusters, d, Success(Some(c))) <==> FirstMatch(id, contexts, clusters, d) == Success(Some(c))
    ensures (exists e :: IsSearch(id, contexts, clusters, d, Failure(e))) <==> FirstMatch(id, contexts, clusters, d).Failure?
  {
    FirstMatchIs(id, contexts, clusters, d);
  }

  ghost predicate SearchThrows(id: Identity, contexts: seq<Context>, clusters: seq<Cluster>, d: KubeDaemon) {
    exists i :: 0 <= i < |contexts| && NoneBefore(id, contexts, clusters, d, i) && Throws(id, clusters, d, contexts[i])
  }

  /** The search for some running daemon's context throws. */
  ghost predicate TableThrows(id: Identity, contexts: seq<Context>, clusters: seq<Cluster>,
      statuses: Entries<Option<string>, DaemonStatus<KubeDetails>>)
  {
    exists e :: e in statuses && e.value.DaemonIsRunning? && FirstMatch(id, contexts, clusters, e.value.config).Failure?
  }

  lemma SearchThrowsIff(id: Identity, contexts: seq<Context>, clusters: seq<Cluster>, d: KubeDaemon)
    ensures SearchThrows(id, contexts, clusters, d) <==> FirstMatch(id, contexts, clusters, d).Failure?
  {
    FirstMatchIs(id, contexts, clusters, d);
  }

  /** The rows of `handleStatus`, as far as contexts go. */
  method StatusTable(id: Identity, contexts: seq<Context>, clusters: seq<Cluster>,
      statuses: Entries<Option<string>, DaemonStatus<KubeDetails>>)
    returns (threw: bool, rows: Rows)
    ensures threw <==> TableThrows(id, contexts, clusters, statuses)
    ensures threw <==> exists e ::
      e in statuses && e.value.DaemonIsRunning? && SearchThrows(id, contexts, clusters, e.value.config)
    ensures !threw ==> rows == Table(id, contexts, clusters, statuses)
  {
    threw, rows := false, [];
    for i := 0 to |statuses|
      invariant rows == Table(id, contexts, clusters, statuses[..i])
      invariant forall e :: e in statuses[..i] && e.value.DaemonIsRunning? ==>
        FirstMatch(id, contexts, clusters, e.value.config).Success? && !SearchThrows(id, contexts, clusters, e.value.config)
    {
      assert statuses[..i + 1][..i] == statuses[..i];
      var status := statuses[i].value;
      if status.DaemonIsRunning? {
        var matching := FindMatchingKubeContext(id, contexts, clusters, status.config);
        SearchThrowsIff(id, contexts, clusters, status.config);
        if matching.Failure? {
          assert statuses[i] in statuses;
          threw := true;
          return;
        }
        rows := rows + [(statuses[i].key, if matching.value.Some? then Some(matching.value.value.key) else None)];
      }
    }
    assert statuses[..|statuses|] == statuses;
  }

  /** Merging the daemons of a view in turn. */
  function MergeView(id: Identity, token: string, kc: KubeConfig, view: Entries<Option<string>, KubeDaemon>): KubeConfig {
    if view == [] then kc
    else
      var n := |view| - 1;
      Merge(MergeView(id, token, kc, view[..n]), Generated(id, token, view[n].value))
  }

  lemma {:induction false} MergedValues(id: Identity, token: string, kc: KubeConfig, store: KubeStore)
    ensures MergeView(id, token, kc, View(store)) == KubeConfigLaws.MergeInTurn(id, token, kc, Values(store))
  {
    if store != [] {
      var n := |store| - 1;
      MergedValues(id, token, kc, store[..n]);
      assert View(store)[..n] == View(store[..n]) && Values(store)[..n] == Values(store[..n]);
    }
  }

  /** The loop of `handleGenerateKubeConfig`. */
  method RollingMerge(id: Identity, token: string, configs: Entries<Option<string>, KubeDaemon>) returns (rolling: KubeConfig)
    ensures rolling == MergeView(id, token, EMPTY, configs)
  {
    rolling := EMPTY;
    for i := 0 to |configs|
      invariant rolling == MergeView(id, token, EMPTY, configs[..i])
    {
      assert configs[..i + 1][..i] == configs[..i];
      var generated := GenerateKubeConfig(id, token, configs[i].value);
      rolling := MergeKubeConfig(rolling, generated);
    }
    assert configs[..|configs|] == configs;
  }

  class KubeCommands {
    const id: Identity
    const service: DaemonManagement.DaemonManagementService<KubeDetails>
    var alive: set<nat>
    var config: KubeConfig
    var token: string

    constructor (id: Identity, service: DaemonManagement.DaemonManagementService<KubeDetails>, alive: set<nat>, config: KubeConfig, token: string)
      ensures this.id == id && this.service == service
      ensures this.alive == alive && this.config == config && this.token == token
    {
      this.id, this.service, this.alive, this.config, this.token := id, service, alive, config, token;
    }

    function Current(): State
      reads this, service
    {
      State(service.daemons, alive, config, token)
    }

    /** `filterAndOverwriteUserKubeConfig` */
    method FilterAndOverwriteUserKubeConfig() returns (r: Result<(), KubeError>)
      requires service.Valid()
      modifies this
      ensures service.Valid()
      ensures Current() == old(Current()).(config := FilterFile(id, old(Current())))
      ensures r.Failure? <==> FilterThrows(id, old(config))
    {
      var configs := service.GetDaemonConfigs();
      var daemons: seq<KubeDaemon> := seq(|configs|, i requires 0 <= i < |configs| => configs[i].value);
      assert daemons == Values(service.daemons);
      var running := service.FindRunningDaemonWithPredicate(_ => true, alive);
      LiveIff(Current());
      var result := FilterKubeConfig(id, daemons, running.Some?, config);
      if result.Failure? {
        return Failure(result.error);
      }
      if result.value.isDirty {
        config := result.value.config;
      }
      r := Success(());
    }

    /** `startKubeDaemonHandler`, with the daemon as it was spawned. */
    method StartKubeDaemon(connectionId: string, daemon: KubeDaemon) returns (r: Result<(), ConnectError>)
      requires service.Valid()
      modifies this, service
      ensures service.Valid()
      ensures Current() == AfterConnect(id, old(Current()), connectionId, daemon)
      ensures r == Failure(NotStored) <==> connectionId == "" && !AlreadyRunning(old(Current()), daemon)
      ensures AlreadyRunning(old(Current()), daemon) ==>
        exists i :: 0 <= i < |service.daemons| && DaemonManagement.IsFirstRunning(service.daemons, i, d => SamePair(d, daemon), alive)
          && r == Failure(DaemonAlreadyRunning(MatchingName(id, config.contexts, FromList(config.clusters), service.daemons[i].value)))
      ensures r.Success? <==> connectionId != "" && !AlreadyRunning(old(Current()), daemon)
    {
      var running := service.FindRunningDaemonWithPredicate(d => SamePair(d, daemon), alive);
      if running.Some? {
        var clusters := BuildMapOfNamedKubeEntries(config.clusters);
        var matching := FindMatchingKubeContext(id, config.contexts, clusters, running.value.value);
        var name := if matching.Success? && matching.value.Some? then Some(matching.value.value.key) else None;
        return Failure(DaemonAlreadyRunning(name));
      }
      alive := alive + PidSet(daemon);
      var generated := GenerateKubeConfig(id, token, daemon);
      config := MergeKubeConfig(config, generated);
      var added := service.AddDaemon(Some(connectionId), daemon);
      r := if added.Success? then Success(()) else Failure(NotStored);
    }

    /** `kubeStatusHandler`: prunes the store, fills the table of running daemons, filters the
        file.  The command fails when filling the table or filtering throws. */
    method ListDaemons() returns (tableThrew: bool, rows: Rows, failed: bool)
      requires service.Valid()
      modifies this, service
      ensures service.Valid()
      ensures Current() == AfterListDaemons(id, old(Current()), tableThrew)
      ensures failed <==> tableThrew || FilterThrows(id, old(config))
      ensures var statuses := Statuses(old(service.daemons), alive);
        var contexts, clusters := old(config.contexts), FromList(old(config.clusters));
        && (tableThrew <==> TableThrows(id, contexts, clusters, statuses))
        && (!tableThrew ==> rows == Table(id, contexts, clusters, statuses))
    {
      var clusters := BuildMapOfNamedKubeEntries(config.clusters);
      var statuses := service.GetAllDaemonStatuses(alive, true);
      tableThrew, rows := StatusTable(id, config.contexts, clusters, statuses);
      failed := tableThrew;
      if !tableThrew {
        var filtered := FilterAndOverwriteUserKubeConfig();
        failed := filtered.Failure?;
      }
    }

    /** The check of one daemon that `zli kube` makes when the command it ran fails. */
    method CheckDaemon(connectionId: Option<string>) returns (r: Result<DaemonStatus<KubeDetails>, DaemonManagement.ServiceError>)
      requires service.Valid()
      modifies service
      ensures service.Valid()
      ensures Current() == AfterCheck(old(Current()), connectionId)
      ensures r.Failure? <==> connectionId !in old(Keys(View(service.daemons)))
      ensures r.Success? ==>
        && Entry(connectionId, r.value.config) in old(View(service.daemons))
        && r.value == Status(connectionId, r.value.config, alive)
    {
      ghost var view := View(service.daemons);
      DaemonManagement.ViewUnique(service.daemons);
      r := service.GetDaemonStatus(connectionId, alive, true);
      if r.Success? {
        FindUnique(view, Entry(connectionId, r.value.config));
      }
    }

    /** `disconnectHandler` for kube daemons; `attempts[i]` is how shutting down the i-th daemon ends. */
    method Disconnect(attempts: seq<Result<DaemonManagement.KillResult, string>>) returns (r: Result<(), KubeError>)
      requires service.Valid() && |attempts| == |service.daemons|
      modifies this, service
      ensures service.Valid()
      ensures Current() == AfterDisconnect(id, old(Current()), attempts)
      ensures r.Failure? <==> FilterThrows(id, old(config))
    {
      var killed := KilledPids(service.daemons, attempts);
      var results := service.DisconnectAllDaemons(attempts);
      alive := alive - killed;
      r := FilterAndOverwriteUserKubeConfig();
    }

    /** The rolling merge of `handleGenerateKubeConfig`, written to the user's file with `--update`. */
    method GenerateConfig(update: bool) returns (rolling: KubeConfig)
      requires service.Valid()
      modifies this
      ensures service.Valid()
      ensures rolling == KubeConfigLaws.MergeInTurn(id, token, EMPTY, Values(service.daemons))
      ensures Current() == AfterGenerate(id, old(Current()), update)
      ensures service.daemons == old(service.daemons) && alive == old(alive) && token == old(token)
      ensures !update ==> config == old(config)
      ensures update ==> Updated(id, token, old(config), config, service.daemons)
    {
      UpdateWrites(id, token, config, service.daemons);
      var configs := service.GetDaemonConfigs();
      rolling := RollingMerge(id, token, configs);
      MergedValues(id, token, EMPTY, service.daemons);
      if update {
        config := MergeKubeConfig(config, rolling);
      }
    }

    /** `generate kubeConfig --force`: new security settings, and running daemons are
        disconnected first.  When the filtering after that throws, nothing is generated. */
    method GenerateForcedConfig(newToken: string, attempts: seq<Result<DaemonManagement.KillResult, string>>, update: bool)
      returns (r: Result<KubeConfig, KubeError>)
      requires service.Valid() && |attempts| == |service.daemons|
      modifies this, service
      ensures service.Valid()
      ensures Current() == AfterGenerateForced(id, old(Current()), newToken, attempts, update)
      ensures r.Failure? <==> Live(old(Current())) != [] && FilterThrows(id, old(config))
      ensures r.Success? ==> r.value == KubeConfigLaws.MergeInTurn(id, newToken, EMPTY, Values(service.daemons))
    {
      token := newToken;
      var running := service.FindRunningDaemonWithPredicate(_ => true, alive);
      LiveIff(Current());
      if running.Some? {
        var disconnected := Disconnect(attempts);
        if disconnected.Failure? {
          return Failure(disconnected.error);
        }
      }
      var rolling := GenerateConfig(update);
      r := Success(rolling);
    }
  }
}
