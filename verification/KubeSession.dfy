/** The kube commands of the zli as steps of one state machine over the stored
    daemons, the processes that are alive, and the user's kubeconfig file. */
module KubeSessions {
  import opened Wrappers
  import opened OrderedMaps
  import Decimals
  import opened DaemonStores
  import opened DaemonManagement
  import opened KubeConfigs
  import opened KubeConfigLaws

  type KubeStore = Store<KubeDetails>

  datatype State = State(store: KubeStore, alive: set<nat>, config: KubeConfig, token: string)

  datatype Event =
    | Connect(connectionId: string, daemon: KubeDaemon)
    | Die(pid: nat)
    | ListDaemons(tableThrows: bool)
    | CheckDaemon(id: Option<string>)
    | Disconnect(attempts: seq<Result<KillResult, string>>)
    | Generate(update: bool)
    | GenerateForced(newToken: string, attempts: seq<Result<KillResult, string>>, update: bool)
    | UseContext(name: string)

  // ---------- The steps ----------

  function Live(s: State): KubeStore {
    RunningOnly(s.store, s.alive)
  }

  predicate SamePair(a: KubeDaemon, b: KubeDaemon) {
    a.details.targetCluster == b.details.targetCluster && a.details.targetUser == b.details.targetUser
  }

  ghost predicate AlreadyRunning(s: State, d: KubeDaemon) {
    exists e :: e in s.store && Running(e.value, s.alive) && SamePair(e.value, d)
  }

  lemma LiveIff(s: State)
    ensures Live(s) != [] <==> exists e :: e in s.store && Running(e.value, s.alive)
  {
    RunningMembers(s.store, s.alive);
    var live := RunningOnly(s.store, s.alive);
    if live != [] {
      assert live[0] in live;
    }
    if e :| e in s.store && Running(e.value, s.alive) {
      assert e in live;
    }
  }

  /** `filterAndOverwriteUserKubeConfig`: the file changes only when filtering succeeds and found something stale. */
  function FilterFile(id: Identity, s: State): KubeConfig {
    var ports, anyRunning := ExpectedPorts(Values(s.store)), Live(s) != [];
    if FilterThrows(id, s.config) || !FilterDirty(id, ports, anyRunning, s.config) then s.config
    else Filtered(id, ports, anyRunning, s.config)
  }

  function PidSet(d: KubeDaemon): set<nat> {
    if d.localPid.Some? then {d.localPid.value} else {}
  }

  ghost function AfterConnect(id: Identity, s: State, connectionId: string, d: KubeDaemon): State {
    if AlreadyRunning(s, d) then s
    else s.(store := if connectionId == "" then s.store else Set(s.store, connectionId, d),
            alive := s.alive + PidSet(d),
            config := Merge(s.config, Generated(id, s.token, d)))
  }

  ghost function AfterListDaemons(id: Identity, s: State, tableThrows: bool): State {
    var pruned := s.(store := Without(s.store, PrunedKeys(s.store, s.alive)));
    if tableThrows then pruned else pruned.(config := FilterFile(id, pruned))
  }

  function AfterCheck(s: State, id: Option<string>): State {
    var found := Find(View(s.store), id);
    if found.Some? && !Running(found.value, s.alive) then s.(store := Without(s.store, {StoreKey(id)})) else s
  }

  function KilledPids(store: KubeStore, attempts: seq<Result<KillResult, string>>): set<nat> {
    set i | 0 <= i < |store| && i < |attempts| && store[i].value.localPid.Some? && attempts[i].Success?
      :: store[i].value.localPid.value
  }

  ghost function AfterDisconnect(id: Identity, s: State, attempts: seq<Result<KillResult, string>>): State {
    var cleared := s.(store := Leftover(s.store), alive := s.alive - KilledPids(s.store, attempts));
    cleared.(config := FilterFile(id, cleared))
  }

  function AfterGenerate(id: Identity, s: State, update: bool): State {
    if update then s.(config := Merge(s.config, MergeInTurn(id, s.token, EMPTY, Values(s.store)))) else s
  }

  ghost function AfterGenerateForced(id: Identity, s: State, newToken: string, attempts: seq<Result<KillResult, string>>, update: bool): State {
    var renewed := s.(token := newToken);
    if Live(s) == [] then AfterGenerate(id, renewed, update)
    else
      var disconnected := AfterDisconnect(id, renewed, attempts);
      if FilterThrows(id, s.config) then disconnected else AfterGenerate(id, disconnected, update)
  }

  ghost function Apply(id: Identity, s: State, ev: Event): State {
    match ev
    case Connect(connectionId, d) => AfterConnect(id, s, connectionId, d)
    case Die(pid) => s.(alive := s.alive - {pid})
    case ListDaemons(tableThrows) => AfterListDaemons(id, s, tableThrows)
    case CheckDaemon(connectionId) => AfterCheck(s, connectionId)
    case Disconnect(attempts) => AfterDisconnect(id, s, attempts)
    case Generate(update) => AfterGenerate(id, s, update)
    case GenerateForced(newToken, attempts, update) => AfterGenerateForced(id, s, newToken, attempts, update)
    case UseContext(name) => s.(config := s.config.(currentContext := Some(name)))
  }

  /** The new daemon's connection ID is fresh, its PID is not reused and its port is
      a port number that no running stored daemon holds. */
  ghost predicate FreshDaemon(s: State, connectionId: string, d: KubeDaemon) {
    && connectionId !in Keys(s.store) && connectionId != LEGACY_KEY
    && d.localPort.Some? && d.localPort.value <= MAX_PORT
    && forall e :: e in s.store ==>
      && (d.localPid.Some? ==> e.value.localPid != d.localPid)
      && (Running(e.value, s.alive) ==> e.value.localPort != d.localPort)
  }

  /** What the surroundings guarantee about an event. */
  ghost predicate Allowed(s: State, ev: Event) {
    match ev
    case Connect(connectionId, d) => FreshDaemon(s, connectionId, d)
    case Disconnect(attempts) => |attempts| == |s.store|
    case GenerateForced(_, attempts, _) => |attempts| == |s.store|
    case _ => true
  }

  /** An accepted connect gives its daemon the entry name of one that runs. */
  ghost predicate Collides(id: Identity, s: State, ev: Event) {
    && ev.Connect? && !AlreadyRunning(s, ev.daemon)
    && exists e :: && e in s.store
                   && Running(e.value, s.alive) && UsablePort(e.value)
                   && NameFor(id, e.value) == NameFor(id, ev.daemon)
  }

  // ---------- The invariant ----------

  /** The file has exactly one context and one cluster under the daemon's name, with
      its port, and exactly one managed user, with the token. */
  predicate Indexed(id: Identity, token: string, kc: KubeConfig, d: KubeDaemon) {
    && Named(kc.contexts, NameFor(id, d)) == [ContextFor(id, d)]
    && Named(kc.clusters, NameFor(id, d)) == [ClusterFor(id, d)]
    && Named(kc.users, ManagedUser(id)) == [UserFor(id, token)]
  }

  ghost predicate AllIndexed(id: Identity, s: State) {
    forall e :: e in s.store && Running(e.value, s.alive) && UsablePort(e.value) ==> Indexed(id, s.token, s.config, e.value)
  }

  /** A running daemon's name is not taken by an entry stored later. */
  predicate PairOk(id: Identity, alive: set<nat>, a: KubeDaemon, b: KubeDaemon) {
    Running(a, alive) && UsablePort(a) ==> NameFor(id, b) != NameFor(id, a)
  }

  ghost predicate OkBefore(id: Identity, alive: set<nat>, d: KubeDaemon, later: KubeStore) {
    forall e :: e in later ==> PairOk(id, alive, d, e.value)
  }

  ghost predicate Ordered(id: Identity, alive: set<nat>, store: KubeStore) {
    store == [] || (Ordered(id, alive, store[1..]) && OkBefore(id, alive, store[0].value, store[1..]))
  }

  predicate WellStored(e: Entry<string, KubeDaemon>) {
    && e.key != "" && e.key != LEGACY_KEY
    && e.value.localPort.Some? && e.value.localPort.value <= MAX_PORT
  }

  ghost predicate AllWellStored(store: KubeStore) {
    forall e :: e in store ==> WellStored(e)
  }

  /** No two running daemons share a target and user, or a port. */
  ghost predicate Apart(store: KubeStore, alive: set<nat>) {
    forall e, f :: e in store && f in store && e != f && Running(e.value, alive) && Running(f.value, alive) ==>
      !SamePair(e.value, f.value) && e.value.localPort != f.value.localPort
  }

  /** What holds of the store whatever the entry names are. */
  ghost predicate StoreInv(s: State) {
    Unique(s.store) && AllWellStored(s.store) && Apart(s.store, s.alive)
  }

  ghost predicate Inv(id: Identity, s: State) {
    && StoreInv(s)
    && Ordered(id, s.alive, s.store)
    && AllIndexed(id, s)
  }

  lemma {:induction false} OrderedSnoc(id: Identity, alive: set<nat>, a: KubeStore, e: Entry<string, KubeDaemon>)
    ensures Ordered(id, alive, a + [e]) <==>
      Ordered(id, alive, a) && forall x :: x in a ==> PairOk(id, alive, x.value, e.value)
  {
    if a != [] {
      OrderedSnoc(id, alive, a[1..], e);
      assert (a + [e])[1..] == a[1..] + [e] && (a + [e])[0] == a[0];
      assert forall x :: x in a <==> x == a[0] || x in a[1..];
      assert forall x :: x in a[1..] + [e] <==> x in a[1..] || x == e;
    }
  }

  lemma {:induction false} OrderedWithout(id: Identity, alive: set<nat>, store: KubeStore, ks: set<string>)
    requires Ordered(id, alive, store)
    ensures Ordered(id, alive, Without(store, ks))
  {
    if store != [] {
      var rest := Without(store[1..], ks);
      OrderedWithout(id, alive, store[1..], ks);
      if store[0].key in ks {
        assert Without(store, ks) == rest;
      } else {
        assert OkBefore(id, alive, store[0].value, rest) by {
          WithoutKeys(store[1..], ks);
        }
        assert Without(store, ks) == [store[0]] + rest;
        assert ([store[0]] + rest)[1..] == rest;
      }
    }
  }

  lemma {:induction false} OrderedFewer(id: Identity, alive: set<nat>, fewer: set<nat>, store: KubeStore)
    requires Ordered(id, alive, store)
    requires forall e :: e in store && Running(e.value, fewer) ==> Running(e.value, alive)
    ensures Ordered(id, fewer, store)
  {
    if store != [] {
      assert store[0] in store;
      OrderedFewer(id, alive, fewer, store[1..]);
    }
  }

  // ---------- Merging and filtering keep daemons indexed ----------

  lemma MergeKeepsIndexed(id: Identity, token: string, kc: KubeConfig, d: KubeDaemon, e: KubeDaemon)
    requires Indexed(id, token, kc, e) && NameFor(id, d) != NameFor(id, e)
    ensures Indexed(id, token, Merge(kc, Generated(id, token, d)), e)
  {
    NamedMerge(kc.contexts, [ContextFor(id, d)], NameFor(id, e));
    NamedMerge(kc.clusters, [ClusterFor(id, d)], NameFor(id, e));
    NamedMerge(kc.users, [UserFor(id, token)], ManagedUser(id));
  }

  lemma MergeIndexes(id: Identity, token: string, kc: KubeConfig, d: KubeDaemon)
    ensures Indexed(id, token, Merge(kc, Generated(id, token, d)), d)
  {
    NamedMerge(kc.contexts, [ContextFor(id, d)], NameFor(id, d));
    NamedMerge(kc.clusters, [ClusterFor(id, d)], NameFor(id, d));
    NamedMerge(kc.users, [UserFor(id, token)], ManagedUser(id));
  }

  /** Merging every stored daemon in turn indexes each running one, whatever dead
      entries share its name: they were stored before it. */
  lemma {:induction false} MergeInTurnIndexes(id: Identity, token: string, kc: KubeConfig, alive: set<nat>, store: KubeStore,
      e: Entry<string, KubeDaemon>)
    requires Ordered(id, alive, store) && e in store && Running(e.value, alive) && UsablePort(e.value)
    ensures Indexed(id, token, MergeInTurn(id, token, kc, Values(store)), e.value)
  {
    var n := |store| - 1;
    var init, last := store[..n], store[n];
    assert store == init + [last];
    OrderedSnoc(id, alive, init, last);
    assert Values(store)[..n] == Values(init);
    var before := MergeInTurn(id, token, kc, Values(init));
    if e in init {
      MergeInTurnIndexes(id, token, kc, alive, init, e);
      assert PairOk(id, alive, e.value, last.value);
      MergeKeepsIndexed(id, token, before, last.value, e.value);
    } else {
      MergeIndexes(id, token, before, last.value);
    }
  }

  /** Whatever the file held, the last daemon of each name is indexed after merging all in turn. */
  lemma {:induction false} LastOnesIndexed(id: Identity, token: string, kc: KubeConfig, ds: seq<KubeDaemon>, i: nat)
    requires i < |ds| && IsLast(id, ds, i)
    ensures Indexed(id, token, MergeInTurn(id, token, kc, ds), ds[i])
  {
    var last := |ds| - 1;
    var before := MergeInTurn(id, token, kc, ds[..last]);
    if i == last {
      MergeIndexes(id, token, before, ds[last]);
    } else {
      assert forall j :: i < j < last ==> ds[..last][j] == ds[j];
      LastOnesIndexed(id, token, kc, ds[..last], i);
      MergeKeepsIndexed(id, token, before, ds[last], ds[i]);
    }
  }

  lemma NamedSingle<V>(xs: Entries<string, V>, e: Entry<string, V>)
    requires Named(xs, e.key) == [e]
    ensures Named(FromList(xs), e.key) == [e] && Find(FromList(xs), e.key) == Some(e.value)
    ensures forall x :: x in FromList(xs) && x.key == e.key ==> x == e
  {
    NamedFromList(xs, e.key);
    FindNamed(FromList(xs), e.key);
    FromListUnique(xs);
    forall x | x in FromList(xs) && x.key == e.key ensures x == e {
      FindUnique(FromList(xs), x);
    }
  }

  /** A stale managed context refers neither by name nor by cluster to a stored daemon's entries. */
  lemma IndexedNotStale(id: Identity, token: string, kc: KubeConfig, daemons: seq<KubeDaemon>, d: KubeDaemon, c: Context)
    requires Indexed(id, token, kc, d) && d in daemons && UsablePort(d)
    requires c in FromList(kc.contexts) && Stale(id, ExpectedPorts(daemons), FromList(kc.clusters), c)
    ensures c.key != NameFor(id, d) && c.value.cluster != NameFor(id, d)
  {
    NamedSingle(kc.contexts, ContextFor(id, d));
    NamedSingle(kc.clusters, ClusterFor(id, d));
    GeneratedPortRoundTrip(id, d, d.localPort.value);
  }

  lemma FilterKeepsIndexed(id: Identity, token: string, kc: KubeConfig, daemons: seq<KubeDaemon>, d: KubeDaemon)
    requires Indexed(id, token, kc, d) && d in daemons && UsablePort(d)
    ensures Indexed(id, token, Filtered(id, ExpectedPorts(daemons), true, kc), d)
  {
    var contexts, clusters := FromList(kc.contexts), FromList(kc.clusters);
    var stale := StaleOf(id, ExpectedPorts(daemons), clusters, contexts);
    StaleOfMembers(id, ExpectedPorts(daemons), clusters, contexts);
    forall c | c in stale ensures c.key != NameFor(id, d) && c.value.cluster != NameFor(id, d) {
      IndexedNotStale(id, token, kc, daemons, d, c);
    }
    NamedSingle(kc.contexts, ContextFor(id, d));
    NamedSingle(kc.clusters, ClusterFor(id, d));
    NamedWithout(contexts, Keys(stale), NameFor(id, d));
    NamedWithout(clusters, ClusterNames(stale), NameFor(id, d));
  }

  lemma FilterFileKeeps(id: Identity, s: State)
    requires AllIndexed(id, s)
    ensures AllIndexed(id, s.(config := FilterFile(id, s)))
  {
    forall e | e in s.store && Running(e.value, s.alive) && UsablePort(e.value)
      ensures Indexed(id, s.token, FilterFile(id, s), e.value)
    {
      FilterFileKeepsOne(id, s, e);
    }
  }

  lemma FilterFileKeepsOne(id: Identity, s: State, e: Entry<string, KubeDaemon>)
    requires e in s.store && Running(e.value, s.alive) && UsablePort(e.value) && Indexed(id, s.token, s.config, e.value)
    ensures Indexed(id, s.token, FilterFile(id, s), e.value)
  {
    RunningMembers(s.store, s.alive);
    assert e in Live(s);
    ValueMember(s.store, e);
    FilterKeepsIndexed(id, s.token, s.config, Values(s.store), e.value);
  }

  // ---------- Every step keeps the invariant ----------

  lemma ShrinkStore(s: State, ks: set<string>, alive: set<nat>)
    requires StoreInv(s) && alive <= s.alive
    ensures StoreInv(s.(store := Without(s.store, ks), alive := alive))
  {
    WithoutUnique(s.store, ks);
    WithoutKeys(s.store, ks);
  }

  lemma ConnectStore(id: Identity, s: State, connectionId: string, d: KubeDaemon)
    requires StoreInv(s) && FreshDaemon(s, connectionId, d)
    ensures StoreInv(AfterConnect(id, s, connectionId, d))
  {
    if !AlreadyRunning(s, d) && connectionId != "" {
      SetNew(s.store, connectionId, d);
      SetUnique(s.store, connectionId, d);
    }
  }

  lemma DisconnectStore(id: Identity, s: State, attempts: seq<Result<KillResult, string>>)
    requires StoreInv(s)
    ensures AfterDisconnect(id, s, attempts).store == [] && StoreInv(AfterDisconnect(id, s, attempts))
  {
    DeletedLimits(s.store);
    WithoutAll(s.store, DeletedKeys(View(s.store)));
  }

  lemma StepStore(id: Identity, s: State, ev: Event)
    requires StoreInv(s) && Allowed(s, ev)
    ensures StoreInv(Apply(id, s, ev))
  {
    match ev {
      case Connect(connectionId, d) =>
        ConnectStore(id, s, connectionId, d);
      case Die(pid) =>
      case ListDaemons(tableThrows) =>
        ShrinkStore(s, PrunedKeys(s.store, s.alive), s.alive);
      case CheckDaemon(connectionId) =>
        ShrinkStore(s, {StoreKey(connectionId)}, s.alive);
      case Disconnect(attempts) =>
        DisconnectStore(id, s, attempts);
      case Generate(update) =>
      case GenerateForced(newToken, attempts, update) =>
        DisconnectStore(id, s.(token := newToken), attempts);
      case UseContext(name) =>
    }
  }

  lemma ShrinkInv(id: Identity, s: State, ks: set<string>, alive: set<nat>)
    requires Inv(id, s) && alive <= s.alive
    ensures Inv(id, s.(store := Without(s.store, ks), alive := alive))
  {
    ShrinkStore(s, ks, alive);
    assert Ordered(id, alive, Without(s.store, ks)) by {
      OrderedFewer(id, s.alive, alive, s.store);
      OrderedWithout(id, alive, s.store, ks);
    }
    WithoutKeys(s.store, ks);
  }

  lemma FilterFileInv(id: Identity, s: State)
    requires Inv(id, s)
    ensures Inv(id, s.(config := FilterFile(id, s)))
  {
    FilterFileKeeps(id, s);
  }

  lemma ConnectIndexes(id: Identity, s: State, connectionId: string, d: KubeDaemon)
    requires Inv(id, s) && FreshDaemon(s, connectionId, d) && !AlreadyRunning(s, d)
    requires forall e :: e in s.store && Running(e.value, s.alive) && UsablePort(e.value) ==> NameFor(id, e.value) != NameFor(id, d)
    ensures AllIndexed(id, AfterConnect(id, s, connectionId, d))
  {
    var t := AfterConnect(id, s, connectionId, d);
    SetNew(s.store, connectionId, d);
    forall e | e in t.store && Running(e.value, t.alive) && UsablePort(e.value)
      ensures Indexed(id, t.token, t.config, e.value)
    {
      if e in s.store {
        assert Running(e.value, s.alive);
        MergeKeepsIndexed(id, s.token, s.config, d, e.value);
      } else {
        MergeIndexes(id, s.token, s.config, d);
      }
    }
  }

  lemma ConnectInv(id: Identity, s: State, connectionId: string, d: KubeDaemon)
    requires Inv(id, s) && FreshDaemon(s, connectionId, d)
    requires !AlreadyRunning(s, d) && !Collides(id, s, Connect(connectionId, d))
    ensures Inv(id, AfterConnect(id, s, connectionId, d))
  {
    var t := AfterConnect(id, s, connectionId, d);
    ConnectStore(id, s, connectionId, d);
    ConnectIndexes(id, s, connectionId, d);
    OrderedFewer(id, s.alive, t.alive, s.store);
    if connectionId != "" {
      SetNew(s.store, connectionId, d);
      OrderedSnoc(id, t.alive, s.store, Entry(connectionId, d));
    }
  }

  lemma {:induction false} GenerateInv(id: Identity, s: State, update: bool)
    requires Inv(id, s)
    ensures Inv(id, AfterGenerate(id, s, update))
  {
    if update {
      var t := AfterGenerate(id, s, true);
      UpdateMergesInTurn(id, s.token, s.config, Values(s.store));
      forall e | e in t.store && Running(e.value, t.alive) && UsablePort(e.value)
        ensures Indexed(id, t.token, t.config, e.value)
      {
        MergeInTurnIndexes(id, s.token, s.config, s.alive, s.store, e);
      }
    }
  }

  lemma DisconnectInv(id: Identity, s: State, attempts: seq<Result<KillResult, string>>, token: string)
    requires Inv(id, s) && (token == s.token || Live(s) != [])
    ensures Inv(id, AfterDisconnect(id, s.(token := token), attempts))
    ensures AfterDisconnect(id, s.(token := token), attempts).store == []
  {
    DisconnectStore(id, s.(token := token), attempts);
    assert Inv(id, State([], s.alive - KilledPids(s.store, attempts), s.config, token));
    FilterFileInv(id, State([], s.alive - KilledPids(s.store, attempts), s.config, token));
  }

  lemma StepInv(id: Identity, s: State, ev: Event)
    requires Inv(id, s) && Allowed(s, ev) && !Collides(id, s, ev)
    ensures Inv(id, Apply(id, s, ev))
  {
    WithoutDisjoint(s.store, {});
    match ev {
      case Connect(connectionId, d) =>
        if !AlreadyRunning(s, d) {
          ConnectInv(id, s, connectionId, d);
        }
      case Die(pid) =>
        ShrinkInv(id, s, {}, s.alive - {pid});
      case ListDaemons(tableThrows) =>
        var ks := PrunedKeys(s.store, s.alive);
        ShrinkInv(id, s, ks, s.alive);
        FilterFileInv(id, s.(store := Without(s.store, ks)));
      case CheckDaemon(connectionId) =>
        ShrinkInv(id, s, {StoreKey(connectionId)}, s.alive);
      case Disconnect(attempts) =>
        DisconnectInv(id, s, attempts, s.token);
        assert s.(token := s.token) == s;
      case Generate(update) =>
        GenerateInv(id, s, update);
      case GenerateForced(newToken, attempts, update) =>
        ForcedInv(id, s, newToken, attempts, update);
      case UseContext(name) =>
    }
  }

  lemma ForcedInv(id: Identity, s: State, newToken: string, attempts: seq<Result<KillResult, string>>, update: bool)
    requires Inv(id, s)
    ensures Inv(id, AfterGenerateForced(id, s, newToken, attempts, update))
  {
    var renewed := s.(token := newToken);
    if Live(s) != [] {
      DisconnectInv(id, s, attempts, newToken);
      GenerateInv(id, AfterDisconnect(id, renewed, attempts), update);
    } else {
      LiveIff(s);
      assert Inv(id, renewed);
      GenerateInv(id, renewed, update);
    }
  }

  /** A run: each state follows from the one before by an allowed event. */
  ghost predicate IsRun(id: Identity, states: seq<State>, events: seq<Event>) {
    && |states| == |events| + 1
    && forall i :: 0 <= i < |events| ==> Allowed(states[i], events[i]) && states[i + 1] == Apply(id, states[i], events[i])
  }

  lemma {:induction false} RunStore(id: Identity, states: seq<State>, events: seq<Event>, n: nat)
    requires IsRun(id, states, events) && n < |states| && StoreInv(states[0])
    ensures StoreInv(states[n])
  {
    if n > 0 {
      RunStore(id, states, events, n - 1);
      StepStore(id, states[n - 1], events[n - 1]);
    }
  }

  /** None of the first `n` connects collides. */
  ghost predicate NoCollision(id: Identity, states: seq<State>, events: seq<Event>, n: nat) {
    forall i :: 0 <= i < n && i < |states| && i < |events| ==> !Collides(id, states[i], events[i])
  }

  lemma {:induction false} RunInv(id: Identity, states: seq<State>, events: seq<Event>, n: nat)
    requires IsRun(id, states, events) && n < |states| && Inv(id, states[0]) && NoCollision(id, states, events, n)
    ensures Inv(id, states[n])
  {
    if n > 0 {
      RunInv(id, states, events, n - 1);
      StepInv(id, states[n - 1], events[n - 1]);
    }
  }

  /** Over every run that starts with an empty store and any kubeconfig, no two stored
      running daemons share a target and user, or a port. */
  lemma RunningDaemonsApart(id: Identity, states: seq<State>, events: seq<Event>, n: nat)
    requires IsRun(id, states, events) && n < |states| && states[0].store == []
    ensures Apart(states[n].store, states[n].alive)
  {
    RunStore(id, states, events, n);
  }

  /** Over every run that starts with an empty store and any kubeconfig: each stored
      running daemon on a real port has, at all times up to a point, its own context, a
      cluster with its port and the managed user in the file, if and only if no connect
      up to then was accepted under the entry name of a running daemon. */
  lemma {:induction false} RunningDaemonsIndexed(id: Identity, states: seq<State>, events: seq<Event>, n: nat)
    requires IsRun(id, states, events) && n < |states| && states[0].store == []
    ensures (forall m :: 0 <= m <= n ==> AllIndexed(id, states[m])) <==> NoCollision(id, states, events, n)
  {
    if NoCollision(id, states, events, n) {
      forall m | 0 <= m <= n ensures AllIndexed(id, states[m]) {
        RunInv(id, states, events, m);
      }
    } else if NoCollision(id, states, events, n - 1) {
      RunInv(id, states, events, n - 1);
      var s, ev := states[n - 1], events[n - 1];
      assert Collides(id, s, ev);
      ConnectKeepsIndexIff(id, s, ev.connectionId, ev.daemon);
      assert !AllIndexed(id, states[n]);
    } else {
      RunningDaemonsIndexed(id, states, events, n - 1);
    }
  }

  ghost predicate NoAt(store: KubeStore) {
    forall e :: e in store ==> '@' !in e.value.details.targetCluster
  }

  lemma StepNoAt(id: Identity, s: State, ev: Event)
    requires StoreInv(s) && Allowed(s, ev) && NoAt(s.store) && (ev.Connect? ==> '@' !in ev.daemon.details.targetCluster)
    ensures NoAt(Apply(id, s, ev).store)
  {
    match ev {
      case Connect(connectionId, d) =>
        if connectionId != "" {
          SetNew(s.store, connectionId, d);
        }
      case ListDaemons(_) =>
        WithoutKeys(s.store, PrunedKeys(s.store, s.alive));
      case CheckDaemon(connectionId) =>
        WithoutKeys(s.store, {StoreKey(connectionId)});
      case Disconnect(attempts) =>
        DisconnectStore(id, s, attempts);
      case GenerateForced(newToken, attempts, _) =>
        DisconnectStore(id, s.(token := newToken), attempts);
      case Die(_) =>
      case Generate(_) =>
      case UseContext(_) =>
    }
  }

  /** Without `@` in target names nothing collides, so that every running daemon is indexed at all times. */
  lemma {:induction false} NoCollisionWithoutAt(id: Identity, states: seq<State>, events: seq<Event>, n: nat)
    requires IsRun(id, states, events) && n < |states| && states[0].store == []
    requires forall i :: 0 <= i < n && events[i].Connect? ==> '@' !in events[i].daemon.details.targetCluster
    ensures NoAt(states[n].store) && NoCollision(id, states, events, n)
  {
    if n > 0 {
      var s, ev := states[n - 1], events[n - 1];
      NoCollisionWithoutAt(id, states, events, n - 1);
      RunStore(id, states, events, n - 1);
      StepNoAt(id, s, ev);
      NoAtApart(id, s, ev);
    }
  }

  lemma NoAtApart(id: Identity, s: State, ev: Event)
    requires NoAt(s.store) && (ev.Connect? ==> '@' !in ev.daemon.details.targetCluster)
    ensures !Collides(id, s, ev)
  {
    if Collides(id, s, ev) {
      var d := ev.daemon;
      var e :| e in s.store && Running(e.value, s.alive) && UsablePort(e.value) && NameFor(id, e.value) == NameFor(id, d);
      EntryNameInjective(id, e.value.details.targetUser, e.value.details.targetCluster, d.details.targetUser, d.details.targetCluster);
      assert false;
    }
  }

  // ---------- What the steps change ----------

  /** A user keeps its entries. */
  ghost predicate UserKept(before: KubeConfig, after: KubeConfig, n: string) {
    Named(after.users, n) == Named(before.users, n)
  }

  /** What an update makes of a file: every stored daemon that is the last one of its name
      is indexed, every other name keeps its entries as they were, and the last stored
      daemon is selected; without daemons nothing changes. */
  ghost predicate Updated(id: Identity, token: string, before: KubeConfig, after: KubeConfig, store: KubeStore) {
    && (forall i :: 0 <= i < |store| && IsLast(id, Values(store), i) ==> Indexed(id, token, after, store[i].value))
    && (forall n :: NoneNamed(id, Values(store), n) ==> OthersKept(before, after, n))
    && (forall n :: UserKept(before, after, n) || n == ManagedUser(id))
    && (store == [] ==> after == before)
    && (store != [] ==> after.currentContext == Some(NameFor(id, store[|store| - 1].value)))
  }

  lemma UpdateWrites(id: Identity, token: string, kc: KubeConfig, store: KubeStore)
    ensures Updated(id, token, kc, Merge(kc, MergeInTurn(id, token, EMPTY, Values(store))), store)
  {
    var ds := Values(store);
    UpdateMergesInTurn(id, token, kc, ds);
    forall i | 0 <= i < |store| && IsLast(id, ds, i)
      ensures Indexed(id, token, MergeInTurn(id, token, kc, ds), store[i].value)
    {
      LastOnesIndexed(id, token, kc, ds, i);
    }
    forall n
      ensures NoneNamed(id, ds, n) ==> OthersKept(kc, MergeInTurn(id, token, kc, ds), n)
      ensures UserKept(kc, MergeInTurn(id, token, kc, ds), n) || n == ManagedUser(id)
    {
      MergeInTurnKeeps(id, token, kc, ds, n);
    }
    MergeInTurnSelects(id, token, kc, ds);
  }

  /** The file is written exactly with an update, and nothing else changes. */
  ghost predicate Writes(id: Identity, s: State, update: bool, t: State) {
    && t.store == s.store && t.alive == s.alive && t.token == s.token
    && (!update ==> t.config == s.config)
    && (update ==> Updated(id, s.token, s.config, t.config, s.store))
  }

  lemma AfterGenerateWrites(id: Identity, s: State, update: bool)
    ensures Writes(id, s, update, AfterGenerate(id, s, update))
  {
    UpdateWrites(id, s.token, s.config, s.store);
  }

  lemma GenerateWrites(id: Identity, s: State, update: bool)
    ensures Writes(id, s, update, Apply(id, s, Generate(update)))
  {
    AfterGenerateWrites(id, s, update);
  }

  /** With no daemon running, a forced one sets the token and writes the file, exactly with
      an update and the new token; nothing else changes. */
  lemma ForcedWrites(id: Identity, s: State, newToken: string, attempts: seq<Result<KillResult, string>>, update: bool)
    requires Live(s) == []
    ensures Writes(id, s.(token := newToken), update, Apply(id, s, GenerateForced(newToken, attempts, update)))
  {
    ForcedGenerates(id, s, newToken, attempts, update);
    AfterGenerateWrites(id, s.(token := newToken), update);
  }

  lemma ForcedGenerates(id: Identity, s: State, newToken: string, attempts: seq<Result<KillResult, string>>, update: bool)
    requires Live(s) == []
    ensures AfterGenerateForced(id, s, newToken, attempts, update) == AfterGenerate(id, s.(token := newToken), update)
  {
  }

  /** With a daemon running, a forced one sets the token and does what a disconnect does:
      no daemon is stored any more whose entries could be written. */
  lemma ForcedDisconnects(id: Identity, s: State, newToken: string, attempts: seq<Result<KillResult, string>>, update: bool)
    requires StoreInv(s) && Live(s) != []
    ensures Apply(id, s, GenerateForced(newToken, attempts, update)) == Apply(id, s, Disconnect(attempts)).(token := newToken)
    ensures Apply(id, s, Disconnect(attempts)).store == []
  {
    var disconnected := AfterDisconnect(id, s, attempts).(token := newToken);
    DisconnectStore(id, s, attempts);
    TokenKept(id, s, newToken, attempts);
    NothingToWrite(id, disconnected, update);
  }

  lemma NothingToWrite(id: Identity, s: State, update: bool)
    requires s.store == []
    ensures AfterGenerate(id, s, update) == s
  {
    UpdateWrites(id, s.token, s.config, s.store);
  }

  /** Disconnecting does not depend on the token. */
  lemma TokenKept(id: Identity, s: State, newToken: string, attempts: seq<Result<KillResult, string>>)
    ensures AfterDisconnect(id, s.(token := newToken), attempts) == AfterDisconnect(id, s, attempts).(token := newToken)
  {
  }

  /** A stored daemon for the same cluster and the same user runs. */
  ghost predicate PairRuns(s: State, d: KubeDaemon) {
    exists e :: && e in s.store
                && e.value.localPid.Some? && e.value.localPid.value in s.alive
                && e.value.details.targetCluster == d.details.targetCluster
                && e.value.details.targetUser == d.details.targetUser
  }

  /** An accepted connect stores the daemon, adds its PID, indexes it whatever the file held,
      selects it, and leaves every other name's entries as they are; a refused one changes nothing. */
  lemma ConnectWrites(id: Identity, s: State, connectionId: string, d: KubeDaemon)
    requires connectionId !in Keys(s.store)
    ensures var t := Apply(id, s, Connect(connectionId, d));
      && t.token == s.token
      && (PairRuns(s, d) ==> t == s)
      && (!PairRuns(s, d) ==>
        && t.store == s.store + (if connectionId == "" then [] else [Entry(connectionId, d)])
        && t.alive == s.alive + (if d.localPid.Some? then {d.localPid.value} else {})
        && Indexed(id, s.token, t.config, d)
        && t.config.currentContext == Some(NameFor(id, d))
        && (forall n :: n != NameFor(id, d) ==> OthersKept(s.config, t.config, n))
        && (forall n :: n != ManagedUser(id) ==> Named(t.config.users, n) == Named(s.config.users, n)))
  {
    SetNew(s.store, connectionId, d);
    MergeIndexes(id, s.token, s.config, d);
    assert |NamePrefix(id)| > 0 && |NameFor(id, d)| > 0;
    assert s.store + [] == s.store;
    forall n
      ensures n != NameFor(id, d) ==> OthersKept(s.config, Merge(s.config, Generated(id, s.token, d)), n)
      ensures n != ManagedUser(id) ==> Named(Merge(s.config, Generated(id, s.token, d)).users, n) == Named(s.config.users, n)
    {
      MergeOneKeeps(id, s.token, s.config, d, n);
    }
  }

  /** Listing leaves the running daemons stored, in order; the file is the filtered one if
      neither the table nor the filter throws, up to repeated names of a clean one. */
  lemma ListWrites(id: Identity, s: State, tableThrows: bool)
    requires StoreInv(s)
    ensures var t := Apply(id, s, ListDaemons(tableThrows));
      && t.store == Live(s) && t.alive == s.alive && t.token == s.token
      && FileFiltered(id, Live(s), Live(s) != [], s.config, t.config, tableThrows || FilterThrows(id, s.config))
  {
    PruneIff(s.store, s.alive);
    RunningTwice(s.store, s.alive);
    FileIsFiltered(id, s.(store := Live(s)));
  }

  /** The file after the filter: unchanged when it failed or had nothing to remove. */
  ghost predicate FileFiltered(id: Identity, store: KubeStore, anyRunning: bool, before: KubeConfig, after: KubeConfig, failed: bool) {
    var filtered := Filtered(id, ExpectedPorts(Values(store)), anyRunning, before);
    if failed || filtered == Normalised(anyRunning, before) then after == before else after == filtered
  }

  lemma FileIsFiltered(id: Identity, s: State)
    ensures FileFiltered(id, s.store, Live(s) != [], s.config, FilterFile(id, s), FilterThrows(id, s.config))
  {
    CleanIffOnlyNormalised(id, ExpectedPorts(Values(s.store)), Live(s) != [], s.config);
  }

  /** Disconnecting clears the store and filters the file as without any daemon; the
      processes that are gone are those whose attempts did not throw. */
  lemma DisconnectWrites(id: Identity, s: State, attempts: seq<Result<KillResult, string>>)
    requires StoreInv(s) && |attempts| == |s.store|
    ensures var t := Apply(id, s, Disconnect(attempts));
      && t.store == [] && t.token == s.token
      && (forall pid :: pid in t.alive <==> pid in s.alive && !ShutDown(s.store, attempts, pid))
      && FileFiltered(id, [], false, s.config, t.config, FilterThrows(id, s.config))
  {
    DisconnectStore(id, s, attempts);
    FileIsFiltered(id, State([], s.alive - KilledPids(s.store, attempts), s.config, s.token));
  }

  /** An attempt to shut the process down did not throw. */
  ghost predicate ShutDown(store: KubeStore, attempts: seq<Result<KillResult, string>>, pid: nat)
    requires |attempts| == |store|
  {
    exists i :: 0 <= i < |store| && store[i].value.localPid == Some(pid) && attempts[i].Success?
  }

  /** Checking one daemon removes it exactly when it is stored and does not run, and touches nothing else. */
  lemma CheckWrites(id: Identity, s: State, connectionId: Option<string>)
    requires StoreInv(s)
    ensures var t := Apply(id, s, CheckDaemon(connectionId));
      && t.alive == s.alive && t.config == s.config && t.token == s.token
      && forall e :: e in t.store <==> e in s.store && (Some(e.key) == connectionId ==> Running(e.value, s.alive))
  {
    ViewUnique(s.store);
    WithoutKeys(s.store, {StoreKey(connectionId)});
    forall e | e in s.store ensures e.key != "" && e.key != LEGACY_KEY && (Some(e.key) == connectionId ==> Find(View(s.store), connectionId) == Some(e.value)) {
      assert WellStored(e);
      var i :| 0 <= i < |s.store| && s.store[i] == e;
      FindUnique(View(s.store), View(s.store)[i]);
    }
    if connectionId.None? {
      forall e | e in View(s.store) ensures e.key.Some? {
        var i :| 0 <= i < |s.store| && View(s.store)[i] == e;
        assert s.store[i] in s.store && WellStored(s.store[i]);
      }
    }
  }

  // ---------- No managed context is ever left dangling ----------

  lemma MergeEntriesMap<V>(src: Entries<string, V>, e: Entry<string, V>)
    ensures FromList(MergeEntries(src, [e])) == Without(FromList(src), {e.key}) + [e]
  {
    assert Keys([e]) == {e.key};
    FromListOfUnique([e]);
    assert Keys(Without(src, {e.key})) !! {e.key} by {
      WithoutKeys(src, {e.key});
    }
    FromListConcat(Without(src, {e.key}), [e]);
    FromListWithout(src, {e.key});
  }

  lemma MergeEntriesKeys<V>(src: Entries<string, V>, e: Entry<string, V>)
    ensures Keys(MergeEntries(src, [e])) == Keys(src) + {e.key}
  {
    assert Keys([e]) == {e.key};
    FromListKeys([e]);
    WithoutKeys(src, {e.key});
    KeysConcat(Without(src, {e.key}), FromList([e]));
  }

  lemma MergeNoDangling(id: Identity, token: string, kc: KubeConfig, d: KubeDaemon)
    requires NoDangling(id, kc)
    ensures NoDangling(id, Merge(kc, Generated(id, token, d)))
  {
    var merged := Merge(kc, Generated(id, token, d));
    var n := NameFor(id, d);
    MergeEntriesMap(kc.contexts, ContextFor(id, d));
    MergeEntriesKeys(kc.clusters, ClusterFor(id, d));
    MergeEntriesKeys(kc.users, UserFor(id, token));
    forall c | c in FromList(merged.contexts) && IsBastionZero(id, c)
      ensures Find(FromList(merged.clusters), c.value.cluster).Some?
    {
      WithoutKeys(FromList(kc.contexts), {n});
      assert c == ContextFor(id, d) || c in FromList(kc.contexts);
      FromListKeys(kc.clusters);
      FromListKeys(merged.clusters);
    }
  }

  lemma {:induction false} MergeInTurnNoDangling(id: Identity, token: string, kc: KubeConfig, daemons: seq<KubeDaemon>)
    requires NoDangling(id, kc)
    ensures NoDangling(id, MergeInTurn(id, token, kc, daemons))
  {
    if daemons != [] {
      var n := |daemons| - 1;
      MergeInTurnNoDangling(id, token, kc, daemons[..n]);
      MergeNoDangling(id, token, MergeInTurn(id, token, kc, daemons[..n]), daemons[n]);
    }
  }

  lemma FilterFileNoDangling(id: Identity, s: State)
    requires NoDangling(id, s.config) && Live(s) == s.store
    ensures NoDangling(id, FilterFile(id, s))
  {
    if !FilterThrows(id, s.config) {
      PruneThenFilterNoDangling(id, s.store, s.alive, s.config);
    }
  }

  lemma StepNoDangling(id: Identity, s: State, ev: Event)
    requires StoreInv(s) && Allowed(s, ev) && NoDangling(id, s.config)
    ensures NoDangling(id, Apply(id, s, ev).config)
  {
    match ev {
      case Connect(connectionId, d) =>
        MergeNoDangling(id, s.token, s.config, d);
      case ListDaemons(tableThrows) =>
        var pruned := s.(store := Without(s.store, PrunedKeys(s.store, s.alive)));
        PruneIff(s.store, s.alive);
        RunningTwice(s.store, s.alive);
        FilterFileNoDangling(id, pruned);
      case Disconnect(attempts) =>
        DisconnectNoDangling(id, s, attempts, s.token);
        assert s.(token := s.token) == s;
      case Generate(update) =>
        GenerateNoDangling(id, s, update);
      case GenerateForced(newToken, attempts, update) =>
        var renewed := s.(token := newToken);
        DisconnectNoDangling(id, s, attempts, newToken);
        GenerateNoDangling(id, renewed, update);
        GenerateNoDangling(id, AfterDisconnect(id, renewed, attempts), update);
      case Die(_) =>
      case CheckDaemon(_) =>
      case UseContext(_) =>
    }
  }

  lemma RunningTwice<D>(store: Store<D>, alive: set<nat>)
    ensures RunningOnly(RunningOnly(store, alive), alive) == RunningOnly(store, alive)
  {
    var live := RunningOnly(store, alive);
    RunningMembers(store, alive);
    forall e | e in live ensures Running(e.value, alive) {
    }
    WithoutIsRunningOnly(live, alive, {});
    WithoutDisjoint(live, {});
  }

  lemma DisconnectNoDangling(id: Identity, s: State, attempts: seq<Result<KillResult, string>>, token: string)
    requires StoreInv(s) && NoDangling(id, s.config)
    ensures NoDangling(id, AfterDisconnect(id, s.(token := token), attempts).config)
  {
    LeftoverIff(s.store);
    FilterFileNoDangling(id, State([], s.alive - KilledPids(s.store, attempts), s.config, token));
  }

  lemma GenerateNoDangling(id: Identity, s: State, update: bool)
    requires NoDangling(id, s.config)
    ensures NoDangling(id, AfterGenerate(id, s, update).config)
  {
    UpdateMergesInTurn(id, s.token, s.config, Values(s.store));
    MergeInTurnNoDangling(id, s.token, s.config, Values(s.store));
  }

  /** Over every run from an empty store and a file without dangling managed contexts,
      every managed context keeps its cluster and its user at all times, also after
      daemons died, were listed, were disconnected, or failed to be shut down. */
  lemma {:induction false} NeverDangling(id: Identity, states: seq<State>, events: seq<Event>, n: nat)
    requires IsRun(id, states, events) && n < |states| && states[0].store == [] && NoDangling(id, states[0].config)
    ensures NoDangling(id, states[n].config)
  {
    if n > 0 {
      NeverDangling(id, states, events, n - 1);
      RunStore(id, states, events, n - 1);
      StepNoDangling(id, states[n - 1], events[n - 1]);
    }
  }

  // ---------- Exact conditions ----------

  /** An accepted connect keeps every running daemon indexed if and only if none of them
      already carries the new daemon's entry name. */
  lemma ConnectKeepsIndexIff(id: Identity, s: State, connectionId: string, d: KubeDaemon)
    requires Inv(id, s) && FreshDaemon(s, connectionId, d) && !AlreadyRunning(s, d)
    ensures AllIndexed(id, AfterConnect(id, s, connectionId, d)) <==> !Collides(id, s, Connect(connectionId, d))
  {
    var t := AfterConnect(id, s, connectionId, d);
    if e :| e in s.store && Running(e.value, s.alive) && UsablePort(e.value) && NameFor(id, e.value) == NameFor(id, d) {
      SetNew(s.store, connectionId, d);
      assert e in t.store && Running(e.value, t.alive);
      MergeIndexes(id, s.token, s.config, d);
      assert ClusterFor(id, d) != ClusterFor(id, e.value);
    } else {
      ConnectIndexes(id, s, connectionId, d);
    }
  }

  lemma PruneKeepsRunning(s: State, e: Entry<string, KubeDaemon>)
    requires Unique(s.store) && AllWellStored(s.store) && e in s.store && Running(e.value, s.alive)
    ensures e in Without(s.store, PrunedKeys(s.store, s.alive))
  {
    PruneIff(s.store, s.alive);
    RunningMembers(s.store, s.alive);
  }

  /** A running, indexed daemon keeps its context when its daemons are listed if and
      only if its port is not zero: port zero never counts as a stored daemon's port. */
  lemma ListKeepsContextIff(id: Identity, s: State, e: Entry<string, KubeDaemon>)
    requires StoreInv(s) && e in s.store && Running(e.value, s.alive)
    requires Indexed(id, s.token, s.config, e.value) && !FilterThrows(id, s.config)
    ensures Indexed(id, s.token, AfterListDaemons(id, s, false).config, e.value) <==> e.value.localPort != Some(0)
  {
    var pruned := s.(store := Without(s.store, PrunedKeys(s.store, s.alive)));
    PruneKeepsRunning(s, e);
    if e.value.localPort == Some(0) {
      ZeroPortStale(id, pruned, e.value);
    } else {
      assert WellStored(e);
      FilterFileKeepsOne(id, pruned, e);
    }
  }

  /** Filtering always removes the context of a daemon on port zero. */
  lemma ZeroPortStale(id: Identity, s: State, d: KubeDaemon)
    requires Indexed(id, s.token, s.config, d) && !FilterThrows(id, s.config) && d.localPort == Some(0)
    ensures Named(FilterFile(id, s).contexts, NameFor(id, d)) == []
  {
    var c := ContextFor(id, d);
    var contexts, clusters := FromList(s.config.contexts), FromList(s.config.clusters);
    var ports := ExpectedPorts(Values(s.store));
    var stale := StaleOf(id, ports, clusters, contexts);
    NamedSingle(s.config.contexts, c);
    NamedSingle(s.config.clusters, ClusterFor(id, d));
    GeneratedPortRoundTrip(id, d, 0);
    ZeroNotExpected(Values(s.store));
    FindNamed(contexts, c.key);
    assert c in contexts && Stale(id, ports, clusters, c);
    StaleOfMembers(id, ports, clusters, contexts);
    assert c in stale && c.key in Keys(stale);
    NamedWithout(contexts, Keys(stale), c.key);
  }

  /** The first connect, into an empty file. */
  lemma FirstConnect(id: Identity, token: string, connectionId: string, d: KubeDaemon)
    requires connectionId != "" && connectionId != LEGACY_KEY
    requires d.localPort.Some? && d.localPort.value <= MAX_PORT
    ensures var s := State([], {}, EMPTY, token);
      var t := Apply(id, s, Connect(connectionId, d));
      && Allowed(s, Connect(connectionId, d)) && Inv(id, t)
      && t == State([Entry(connectionId, d)], PidSet(d), Merge(EMPTY, Generated(id, token, d)), token)
      && Indexed(id, token, t.config, d) && !FilterThrows(id, t.config)
  {
    var s := State([], {}, EMPTY, token);
    SetNew(s.store, connectionId, d);
    assert [] + [Entry(connectionId, d)] == [Entry(connectionId, d)];
    ConnectInv(id, s, connectionId, d);
    MergeIndexes(id, token, EMPTY, d);
    NewReadable(id, token, d);
  }

  /** Such a run: a daemon connected on port zero is listed, and its context is gone while it runs. */
  lemma PortZeroLosesContext(id: Identity, token: string, d: KubeDaemon, pid: nat)
    requires d.localPort == Some(0) && d.localPid == Some(pid)
    ensures var s := State([], {}, EMPTY, token);
      var connected := Apply(id, s, Connect("c", d));
      var listed := Apply(id, connected, ListDaemons(false));
      && Allowed(s, Connect("c", d))
      && Entry("c", d) in listed.store && Running(d, listed.alive)
      && Indexed(id, token, connected.config, d) && !Indexed(id, token, listed.config, d)
  {
    var s := State([], {}, EMPTY, token);
    var connected := Apply(id, s, Connect("c", d));
    FirstConnect(id, token, "c", d);
    assert Entry("c", d) in connected.store;
    PruneKeepsRunning(connected, Entry("c", d));
    ListKeepsContextIff(id, connected, Entry("c", d));
  }

  /** Filtering does not throw on a file that one daemon was merged into. */
  lemma NewReadable(id: Identity, token: string, d: KubeDaemon)
    requires d.localPort.Some? && d.localPort.value <= MAX_PORT
    ensures !FilterThrows(id, Merge(EMPTY, Generated(id, token, d)))
  {
    var kc := Merge(EMPTY, Generated(id, token, d));
    MergeIndexes(id, token, EMPTY, d);
    NamedSingle(kc.clusters, ClusterFor(id, d));
    GeneratedPortRoundTrip(id, d, d.localPort.value);
    assert FromList(kc.contexts) == [ContextFor(id, d)] by {
      MergeEntriesMap([], ContextFor(id, d));
    }
  }

  /** With `@` in a target name: two daemons whose entries share a name, connected one after
      the other in either order.  Both connects are accepted, and the first daemon, which
      still runs, is no longer indexed. */
  lemma CollidingConnects(id: Identity, token: string, a: KubeDaemon, b: KubeDaemon)
    requires NameFor(id, a) == NameFor(id, b) && !SamePair(a, b)
    requires UsablePort(a) && UsablePort(b) && a.localPort != b.localPort
    requires a.localPid.Some? && b.localPid.Some? && a.localPid != b.localPid
    ensures var s := State([], {}, EMPTY, token);
      var first := Apply(id, s, Connect("1", a));
      var second := Apply(id, first, Connect("2", b));
      && Allowed(s, Connect("1", a)) && Allowed(first, Connect("2", b)) && !AlreadyRunning(first, b)
      && AllIndexed(id, first) && !AllIndexed(id, second)
  {
    var s := State([], {}, EMPTY, token);
    var first := Apply(id, s, Connect("1", a));
    FirstConnect(id, token, "1", a);
    assert Entry("1", a) in first.store;
    assert Collides(id, first, Connect("2", b));
    ConnectKeepsIndexIff(id, first, "2", b);
  }

  /** Such daemons exist. */
  lemma CollidingDaemons(id: Identity, a: KubeDaemon, b: KubeDaemon)
    requires a.details.targetUser == "a@b" && a.details.targetCluster == "c"
    requires b.details.targetUser == "a" && b.details.targetCluster == "b@c"
    ensures NameFor(id, a) == NameFor(id, b) && !SamePair(a, b)
  {
    EntryNameCollision(id);
  }

  lemma ZeroNotExpected(daemons: seq<KubeDaemon>)
    ensures Decimals.Decimal(0) !in ExpectedPorts(daemons)
  {
  }

  // ---------- The lookup of `zli kube` ----------

  datatype LookupError = NoContext | NotBastionZero | NoCluster | PortNotSet | BadServer | NoMatchingDaemon

  /** The search reads the port of each running daemon, then the cluster's; either may throw. */
  function FirstOnPort(store: KubeStore, alive: set<nat>, cluster: ClusterBody): Result<Entry<string, KubeDaemon>, LookupError> {
    if store == [] then Failure(NoMatchingDaemon)
    else if !Running(store[0].value, alive) then FirstOnPort(store[1..], alive, cluster)
    else if store[0].value.localPort.None? then Failure(PortNotSet)
    else match PortOf(cluster)
      case Failure(_) => Failure(BadServer)
      case Success(port) =>
        if Decimals.Decimal(store[0].value.localPort.value) == port then Success(store[0])
        else FirstOnPort(store[1..], alive, cluster)
  }

  /** From the current context to the running daemon on its cluster's port. */
  function ResolveCurrent(id: Identity, s: State): Result<Entry<string, KubeDaemon>, LookupError> {
    if s.config.currentContext.None? then Failure(NoContext)
    else match Find(s.config.contexts, s.config.currentContext.value)
      case None => Failure(NoContext)
      case Some(context) =>
        if context.user != ManagedUser(id) && !(id.email <= context.user) then Failure(NotBastionZero)
        else match Find(s.config.clusters, context.cluster)
          case None => Failure(NoCluster)
          case Some(cluster) => FirstOnPort(s.store, s.alive, cluster)
  }

  lemma {:induction false} FirstOnPortFinds(alive: set<nat>, store: KubeStore, e: Entry<string, KubeDaemon>, cluster: ClusterBody)
    requires Apart(store, alive) && AllWellStored(store) && e in store && Running(e.value, alive)
    requires e.value.localPort.Some? && PortOf(cluster) == Success(Decimals.Decimal(e.value.localPort.value))
    ensures FirstOnPort(store, alive, cluster) == Success(e)
  {
    assert WellStored(store[0]);
    if store[0] != e {
      assert e in store[1..] && forall x :: x in store[1..] ==> x in store;
      FirstOnPortFinds(alive, store[1..], e, cluster);
      assert store[0] in store;
      if Running(store[0].value, alive)
        && Decimals.Decimal(store[0].value.localPort.value) == Decimals.Decimal(e.value.localPort.value) {
        Decimals.DecimalInjective(store[0].value.localPort.value, e.value.localPort.value);
      }
    }
  }

  /** Entry `i` is the first running daemon that decides the search: it has no port, or the
      cluster's port cannot be read, or the two are the same. */
  ghost predicate Decides(store: KubeStore, alive: set<nat>, cluster: ClusterBody, i: nat)
    requires i < |store|
  {
    && Running(store[i].value, alive) && Deciding(store[i].value, cluster)
    && forall j :: 0 <= j < i && Running(store[j].value, alive) ==> !Deciding(store[j].value, cluster)
  }

  ghost predicate Deciding(d: KubeDaemon, cluster: ClusterBody) {
    d.localPort.None? || PortOf(cluster).Failure? || PortOf(cluster).value == Decimals.Decimal(d.localPort.value)
  }

  /** What the search for the cluster's daemon gives. */
  ghost predicate IsLookup(store: KubeStore, alive: set<nat>, cluster: ClusterBody, r: Result<Entry<string, KubeDaemon>, LookupError>) {
    match r
    case Success(e) =>
      && e.value.localPort.Some? && PortOf(cluster).Success?
      && exists i :: 0 <= i < |store| && Decides(store, alive, cluster, i) && store[i] == e
    case Failure(error) =>
      && (error == PortNotSet ==> exists i :: 0 <= i < |store| && Decides(store, alive, cluster, i) && store[i].value.localPort.None?)
      && (error == BadServer ==> PortOf(cluster).Failure? && exists i :: 0 <= i < |store| && Decides(store, alive, cluster, i))
      && (error == NoMatchingDaemon ==> forall i :: 0 <= i < |store| ==> !Decides(store, alive, cluster, i))
      && error in {PortNotSet, BadServer, NoMatchingDaemon}
  }

  lemma {:induction false} FirstOnPortIs(store: KubeStore, alive: set<nat>, cluster: ClusterBody)
    ensures IsLookup(store, alive, cluster, FirstOnPort(store, alive, cluster))
  {
    if store != [] {
      var rest := store[1..];
      FirstOnPortIs(rest, alive, cluster);
      if Running(store[0].value, alive) && Deciding(store[0].value, cluster) {
        assert Decides(store, alive, cluster, 0);
      } else {
        forall i | 0 <= i < |rest| ensures Decides(rest, alive, cluster, i) <==> Decides(store, alive, cluster, i + 1) {
          DecidesShift(store, alive, cluster, i);
        }
        assert forall i :: 0 <= i < |rest| ==> rest[i] == store[i + 1];
        assert !Decides(store, alive, cluster, 0);
        forall i | 0 < i < |store| && Decides(store, alive, cluster, i) ensures Decides(rest, alive, cluster, i - 1) {
          DecidesShift(store, alive, cluster, i - 1);
        }
      }
    }
  }

  lemma DecidesShift(store: KubeStore, alive: set<nat>, cluster: ClusterBody, i: nat)
    requires i + 1 < |store| && !(Running(store[0].value, alive) && Deciding(store[0].value, cluster))
    ensures Decides(store[1..], alive, cluster, i) <==> Decides(store, alive, cluster, i + 1)
  {
    assert forall j :: 0 <= j < |store| - 1 ==> store[1..][j] == store[j + 1];
    if Decides(store, alive, cluster, i + 1) {
      forall j | 0 <= j < i && Running(store[1..][j].value, alive) ensures !Deciding(store[1..][j].value, cluster) {
        assert store[1..][j] == store[j + 1];
      }
    }
    if Decides(store[1..], alive, cluster, i) {
      forall j | 0 <= j < i + 1 && Running(store[j].value, alive) ensures !Deciding(store[j].value, cluster) {
        assert j > 0 ==> store[j] == store[1..][j - 1];
      }
    }
  }

  /** Each way the lookup can end: no such context; one that neither is managed nor has a user
      that starts with the e-mail; no such cluster; or what the search for its daemon gives. */
  lemma ResolveCases(id: Identity, s: State)
    ensures var name, r := s.config.currentContext, ResolveCurrent(id, s);
      && (r == Failure(NoContext) <==> name.None? || name.value !in Keys(s.config.contexts))
      && (name.Some? && name.value in Keys(s.config.contexts) ==>
        var c := Find(s.config.contexts, name.value).value;
        && (r == Failure(NotBastionZero) <==> c.user != NamePrefix(id) + id.email && !(id.email <= c.user))
        && (r != Failure(NotBastionZero) ==>
          && (r == Failure(NoCluster) <==> c.cluster !in Keys(s.config.clusters))
          && (c.cluster in Keys(s.config.clusters) ==> IsLookup(s.store, s.alive, Find(s.config.clusters, c.cluster).value, r))))
  {
    if s.config.currentContext.Some? {
      var c := Find(s.config.contexts, s.config.currentContext.value);
      if c.Some? && Find(s.config.clusters, c.value.cluster).Some? {
        FirstOnPortIs(s.store, s.alive, Find(s.config.clusters, c.value.cluster).value);
      }
    }
  }

  /** While the current context names a running daemon's context, the lookup resolves to exactly that daemon. */
  lemma ResolvesToOwnDaemon(id: Identity, s: State, e: Entry<string, KubeDaemon>)
    requires StoreInv(s) && e in s.store && Running(e.value, s.alive) && UsablePort(e.value)
    requires Indexed(id, s.token, s.config, e.value)
    requires s.config.currentContext == Some(NameFor(id, e.value))
    ensures ResolveCurrent(id, s) == Success(e)
  {
    FindNamed(s.config.contexts, NameFor(id, e.value));
    FindNamed(s.config.clusters, NameFor(id, e.value));
    GeneratedPortRoundTrip(id, e.value, e.value.localPort.value);
    FirstOnPortFinds(s.alive, s.store, e, ClusterFor(id, e.value).value);
  }

  /** Right after an accepted connect the lookup finds the daemon just started. */
  lemma {:induction false} ConnectThenResolve(id: Identity, s: State, connectionId: string, d: KubeDaemon)
    requires StoreInv(s) && Allowed(s, Connect(connectionId, d)) && !AlreadyRunning(s, d)
    requires connectionId != "" && d.localPid.Some? && UsablePort(d)
    ensures ResolveCurrent(id, AfterConnect(id, s, connectionId, d)) == Success(Entry(connectionId, d))
  {
    var t := AfterConnect(id, s, connectionId, d);
    ConnectStore(id, s, connectionId, d);
    MergeIndexes(id, s.token, s.config, d);
    SetNew(s.store, connectionId, d);
    assert NameFor(id, d) != "" by {
      assert |NamePrefix(id)| > 0;
    }
    ResolvesToOwnDaemon(id, t, Entry(connectionId, d));
  }
}
