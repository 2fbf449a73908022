/** Stopping daemons inverts connecting: filtering a kubeconfig after daemons stopped
    undoes the merges that were made when they were connected. */
module KubeInverse {
  import opened Wrappers
  import Sequences
  import opened OrderedMaps
  import Decimals
  import opened DaemonStores
  import opened KubeConfigs
  import opened KubeConfigLaws

  // ---------- Lists in which the last entry of a name wins ----------

  /** Each name keeps its last entry, at its place. */
  function LastWins<V>(xs: Entries<string, V>): Entries<string, V> {
    if xs == [] then []
    else
      var n := |xs| - 1;
      Without(LastWins(xs[..n]), {xs[n].key}) + [xs[n]]
  }

  lemma LastWinsSnoc<V>(init: Entries<string, V>, e: Entry<string, V>)
    ensures LastWins(init + [e]) == Without(LastWins(init), {e.key}) + [e]
  {
    assert (init + [e])[..|init|] == init;
  }

  lemma {:induction false} LastWinsUnique<V>(xs: Entries<string, V>)
    ensures Unique(LastWins(xs)) && Keys(LastWins(xs)) == Keys(xs)
    ensures forall e :: e in LastWins(xs) ==> e in xs
  {
    if xs != [] {
      var n := |xs| - 1;
      var rest := Without(LastWins(xs[..n]), {xs[n].key});
      LastWinsUnique(xs[..n]);
      WithoutUnique(LastWins(xs[..n]), {xs[n].key});
      WithoutKeys(LastWins(xs[..n]), {xs[n].key});
      UniqueConcat(rest, [xs[n]]);
      KeysConcat(rest, [xs[n]]);
      KeysConcat(xs[..n], [xs[n]]);
      assert xs == xs[..n] + [xs[n]];
    }
  }

  /** The entries with a flag. */
  function Chosen<V>(xs: Entries<string, V>, flags: seq<bool>): Entries<string, V>
    requires |xs| == |flags|
  {
    if xs == [] then []
    else
      var n := |xs| - 1;
      Chosen(xs[..n], flags[..n]) + if flags[n] then [xs[n]] else []
  }

  lemma {:induction false} ChosenMembers<V>(xs: Entries<string, V>, flags: seq<bool>, e: Entry<string, V>)
    requires |xs| == |flags|
    ensures e in Chosen(xs, flags) <==> exists i :: 0 <= i < |xs| && flags[i] && xs[i] == e
  {
    if xs != [] {
      var n := |xs| - 1;
      ChosenMembers(xs[..n], flags[..n], e);
      if i :| 0 <= i < |xs| && flags[i] && xs[i] == e {
        assert i < n ==> flags[..n][i] && xs[..n][i] == e;
      }
    }
  }

  lemma ChosenKeys<V>(xs: Entries<string, V>, flags: seq<bool>, k: string)
    requires |xs| == |flags|
    ensures k in Keys(Chosen(xs, flags)) <==> exists i :: 0 <= i < |xs| && flags[i] && xs[i].key == k
  {
    if k in Keys(Chosen(xs, flags)) {
      var e :| e in Chosen(xs, flags) && e.key == k;
      ChosenMembers(xs, flags, e);
    }
    if i :| 0 <= i < |xs| && flags[i] && xs[i].key == k {
      ChosenMembers(xs, flags, xs[i]);
    }
  }

  /** Every chosen entry is the last of its name. */
  ghost predicate ChosenAreLast<V>(xs: Entries<string, V>, flags: seq<bool>)
    requires |xs| == |flags|
  {
    forall i, j :: 0 <= i < j < |xs| && flags[i] ==> xs[i].key != xs[j].key
  }

  /** Removing the names that no chosen entry has leaves exactly the chosen ones, in order. */
  lemma {:induction false} WithoutUnchosen<V>(xs: Entries<string, V>, flags: seq<bool>)
    requires |xs| == |flags| && ChosenAreLast(xs, flags)
    ensures LastWins(Chosen(xs, flags)) == Chosen(xs, flags)
    ensures Without(LastWins(xs), Keys(xs) - Keys(Chosen(xs, flags))) == Chosen(xs, flags)
  {
    if xs != [] {
      var n := |xs| - 1;
      WithoutUnchosen(xs[..n], flags[..n]);
      ChosenStep(xs, flags);
    }
  }

  lemma ChosenStep<V>(xs: Entries<string, V>, flags: seq<bool>)
    requires |xs| == |flags| && ChosenAreLast(xs, flags) && xs != []
    requires var n := |xs| - 1; var before := Chosen(xs[..n], flags[..n]);
      LastWins(before) == before && Without(LastWins(xs[..n]), Keys(xs[..n]) - Keys(before)) == before
    ensures LastWins(Chosen(xs, flags)) == Chosen(xs, flags)
    ensures Without(LastWins(xs), Keys(xs) - Keys(Chosen(xs, flags))) == Chosen(xs, flags)
  {
    var n := |xs| - 1;
    var init, last, flag := xs[..n], xs[n], flags[n];
    var before := Chosen(init, flags[..n]);
    assert last.key !in Keys(before) by {
      ChosenKeys(init, flags[..n], last.key);
    }
    assert Keys(xs) == Keys(init) + {last.key} by {
      KeysSnoc(xs);
    }
    StepWithout(LastWins(init), before, last, Keys(init), flag);
    assert LastWins(xs) == Without(LastWins(init), {last.key}) + [last];
    if flag {
      WithoutDisjoint(before, {last.key});
      LastAppended(before, last);
    } else {
      assert before + [] == before;
    }
  }

  lemma KeysSnoc<V>(xs: Entries<string, V>)
    requires xs != []
    ensures Keys(xs) == Keys(xs[..|xs| - 1]) + {xs[|xs| - 1].key}
  {
    assert xs == xs[..|xs| - 1] + [xs[|xs| - 1]];
    KeysConcat(xs[..|xs| - 1], [xs[|xs| - 1]]);
  }

  lemma StepWithout<V>(all: Entries<string, V>, before: Entries<string, V>, last: Entry<string, V>, names: set<string>, flag: bool)
    requires Without(all, names - Keys(before)) == before && last.key !in Keys(before)
    ensures var after := before + if flag then [last] else [];
      Without(Without(all, {last.key}) + [last], names + {last.key} - Keys(after)) == after
  {
    var after := before + if flag then [last] else [];
    var gone := names + {last.key} - Keys(after);
    KeysConcat(before, if flag then [last] else []);
    assert last in [last];
    assert Keys(after) == Keys(before) + if flag then {last.key} else {};
    assert {last.key} + gone == (names - Keys(before)) + {last.key};
    WithoutSwap(all, names - Keys(before), {last.key}, gone);
    WithoutDisjoint(before, {last.key});
    WithoutSnoc(Without(all, {last.key}), last, gone);
  }

  lemma LastAppended<V>(before: Entries<string, V>, last: Entry<string, V>)
    requires LastWins(before) == before && Without(before, {last.key}) == before
    ensures LastWins(before + [last]) == before + [last]
  {
    assert (before + [last])[..|before|] == before;
  }

  lemma WithoutSwap<V>(all: Entries<string, V>, p: set<string>, k: set<string>, q: set<string>)
    requires k + q == p + k
    ensures Without(Without(all, k), q) == Without(Without(all, p), k)
  {
    WithoutWithout(all, k, q);
    WithoutWithout(all, p, k);
  }

  // ---------- The merged file ----------

  function ContextsFor(id: Identity, ds: seq<KubeDaemon>): (r: seq<Context>)
    ensures |r| == |ds| && forall i :: 0 <= i < |ds| ==> r[i] == ContextFor(id, ds[i])
  {
    seq(|ds|, i requires 0 <= i < |ds| => ContextFor(id, ds[i]))
  }

  function ClustersFor(id: Identity, ds: seq<KubeDaemon>): (r: seq<Cluster>)
    ensures |r| == |ds| && forall i :: 0 <= i < |ds| ==> r[i] == ClusterFor(id, ds[i])
  {
    seq(|ds|, i requires 0 <= i < |ds| => ClusterFor(id, ds[i]))
  }

  /** A user's own file: no repeated names, no managed entries, and none of the daemons' entry names. */
  ghost predicate OwnConfig(id: Identity, kc: KubeConfig, ds: seq<KubeDaemon>) {
    && Unique(kc.contexts) && Unique(kc.clusters) && Unique(kc.users)
    && ManagedUser(id) !in Keys(kc.users)
    && (forall c :: c in kc.contexts ==> !IsBastionZero(id, c))
    && forall d :: d in ds ==> NameFree(id, kc, d)
  }

  lemma MergeOne<V>(src: Entries<string, V>, e: Entry<string, V>)
    ensures MergeEntries(src, [e]) == Without(src, {e.key}) + [e]
  {
    assert Keys([e]) == {e.key};
    FromListOfUnique([e]);
  }

  lemma AppendStep<V>(own: Entries<string, V>, init: Entries<string, V>, e: Entry<string, V>)
    requires e.key !in Keys(own)
    ensures MergeEntries(own + LastWins(init), [e]) == own + LastWins(init + [e])
  {
    MergeOne(own + LastWins(init), e);
    WithoutConcat(own, LastWins(init), {e.key});
    WithoutDisjoint(own, {e.key});
    Sequences.AppendAssoc(own, Without(LastWins(init), {e.key}), [e]);
    LastWinsSnoc(init, e);
  }

  lemma EntriesSnoc(id: Identity, ds: seq<KubeDaemon>, d: KubeDaemon)
    ensures ContextsFor(id, ds + [d]) == ContextsFor(id, ds) + [ContextFor(id, d)]
    ensures ClustersFor(id, ds + [d]) == ClustersFor(id, ds) + [ClusterFor(id, d)]
  {
  }

  /** The file does not use the daemon's entry name. */
  predicate NameFree(id: Identity, kc: KubeConfig, d: KubeDaemon) {
    NameFor(id, d) !in Keys(kc.contexts) && NameFor(id, d) !in Keys(kc.clusters)
  }

  /** The last entry of each daemon's name follows the file's own. */
  ghost predicate Appended(id: Identity, token: string, kc: KubeConfig, ds: seq<KubeDaemon>, r: KubeConfig) {
    && r.contexts == kc.contexts + LastWins(ContextsFor(id, ds))
    && r.clusters == kc.clusters + LastWins(ClustersFor(id, ds))
    && r.users == kc.users + if ds == [] then [] else [UserFor(id, token)]
  }

  lemma NothingAppended(id: Identity, token: string, kc: KubeConfig)
    ensures Appended(id, token, kc, [], kc)
  {
    assert kc.contexts + [] == kc.contexts && kc.clusters + [] == kc.clusters && kc.users + [] == kc.users;
  }

  /** Merging daemons in turn into a file of the user's own appends the last entry of each name. */
  lemma {:induction false} MergeInTurnAppends(id: Identity, token: string, kc: KubeConfig, ds: seq<KubeDaemon>)
    requires ManagedUser(id) !in Keys(kc.users) && forall d :: d in ds ==> NameFree(id, kc, d)
    ensures Appended(id, token, kc, ds, MergeInTurn(id, token, kc, ds))
  {
    if ds == [] {
      NothingAppended(id, token, kc);
    } else {
      var n := |ds| - 1;
      var init, d := ds[..n], ds[n];
      assert d in ds && NameFree(id, kc, d);
      assert forall x :: x in init ==> x in ds;
      MergeInTurnAppends(id, token, kc, init);
      MergedStep(id, token, kc, init, d, MergeInTurn(id, token, kc, init));
      Sequences.SplitLast(ds);
    }
  }

  lemma MergedStep(id: Identity, token: string, kc: KubeConfig, init: seq<KubeDaemon>, d: KubeDaemon, r: KubeConfig)
    requires NameFree(id, kc, d) && ManagedUser(id) !in Keys(kc.users) && Appended(id, token, kc, init, r)
    ensures Appended(id, token, kc, init + [d], Merge(r, Generated(id, token, d)))
  {
    EntriesSnoc(id, init, d);
    AppendStep(kc.contexts, ContextsFor(id, init), ContextFor(id, d));
    AppendStep(kc.clusters, ClustersFor(id, init), ClusterFor(id, d));
    MergedUsers(id, token, kc, init);
  }

  lemma MergedUsers(id: Identity, token: string, kc: KubeConfig, init: seq<KubeDaemon>)
    requires ManagedUser(id) !in Keys(kc.users)
    ensures MergeEntries(kc.users + if init == [] then [] else [UserFor(id, token)], [UserFor(id, token)])
      == kc.users + [UserFor(id, token)]
  {
    assert kc.users + [] == kc.users;
    MergeReplaces(kc.users, kc.users + if init == [] then [] else [UserFor(id, token)], UserFor(id, token));
  }

  /** Merging the same entry again changes nothing. */
  lemma MergeReplaces<V>(src: Entries<string, V>, merged: Entries<string, V>, e: Entry<string, V>)
    requires e.key !in Keys(src) && (merged == src || merged == src + [e])
    ensures MergeEntries(merged, [e]) == src + [e]
  {
    assert Keys([e]) == {e.key};
    WithoutDisjoint(src, {e.key});
    WithoutSnoc(src, e, {e.key});
    FromListOfUnique([e]);
  }

  // ---------- What is stale in it ----------

  /** The last daemon of a name. */
  function LastNamed(id: Identity, ds: seq<KubeDaemon>, n: string): Option<KubeDaemon> {
    if ds == [] then None
    else
      var last := |ds| - 1;
      if NameFor(id, ds[last]) == n then Some(ds[last]) else LastNamed(id, ds[..last], n)
  }

  lemma {:induction false} LastNamedIs(id: Identity, ds: seq<KubeDaemon>, n: string)
    ensures LastNamed(id, ds, n).None? ==> forall d :: d in ds ==> NameFor(id, d) != n
    ensures LastNamed(id, ds, n).Some? ==> exists i :: 0 <= i < |ds| && IsLastOf(id, ds, i, n)
  {
    if ds != [] {
      var last := |ds| - 1;
      assert ds == ds[..last] + [ds[last]];
      if NameFor(id, ds[last]) == n {
        assert IsLastOf(id, ds, last, n);
      } else {
        LastNamedIs(id, ds[..last], n);
        if i :| 0 <= i < last && IsLastOf(id, ds[..last], i, n) {
          assert IsLastOf(id, ds, i, n);
        }
      }
    }
  }

  /** The `i`-th daemon is the last one of the name. */
  ghost predicate IsLastOf(id: Identity, ds: seq<KubeDaemon>, i: nat, n: string)
    requires i < |ds|
  {
    IsLast(id, ds, i) && NameFor(id, ds[i]) == n && LastNamed(id, ds, n) == Some(ds[i])
  }

  lemma {:induction false} LastEntries(id: Identity, ds: seq<KubeDaemon>, n: string)
    ensures match LastNamed(id, ds, n)
      case None => Named(LastWins(ContextsFor(id, ds)), n) == [] && Named(LastWins(ClustersFor(id, ds)), n) == []
      case Some(d) =>
        && Named(LastWins(ContextsFor(id, ds)), n) == [ContextFor(id, d)]
        && Named(LastWins(ClustersFor(id, ds)), n) == [ClusterFor(id, d)]
  {
    if ds != [] {
      var last := |ds| - 1;
      LastEntries(id, ds[..last], n);
      assert ds == ds[..last] + [ds[last]];
      EntriesSnoc(id, ds[..last], ds[last]);
      NamedStep(ContextsFor(id, ds[..last]), ContextFor(id, ds[last]), n);
      NamedStep(ClustersFor(id, ds[..last]), ClusterFor(id, ds[last]), n);
    }
  }

  lemma NamedStep<V>(init: Entries<string, V>, e: Entry<string, V>, n: string)
    ensures Named(LastWins(init + [e]), n) == if e.key == n then [e] else Named(LastWins(init), n)
  {
    var rest := Without(LastWins(init), {e.key});
    LastWinsSnoc(init, e);
    NamedSnoc(rest, e, n);
    NamedWithout(LastWins(init), {e.key}, n);
  }

  /** The port of the last daemon of this name is not among the expected ones. */
  predicate Dropped(id: Identity, ds: seq<KubeDaemon>, ports: set<string>, n: string) {
    var d := LastNamed(id, ds, n);
    d.Some? && d.value.localPort.Some? && Decimals.Decimal(d.value.localPort.value) !in ports
  }

  predicate PortNumber(d: KubeDaemon) {
    d.localPort.Some? && d.localPort.value <= MAX_PORT
  }

  ghost predicate PortNumbers(ds: seq<KubeDaemon>) {
    forall d :: d in ds ==> PortNumber(d)
  }

  /** A context of the merged file is readable, and stale exactly when it is managed and its name is dropped. */
  lemma MergedStale(id: Identity, kc: KubeConfig, ds: seq<KubeDaemon>, ports: set<string>, c: Context)
    requires OwnConfig(id, kc, ds) && PortNumbers(ds)
    requires c in kc.contexts + LastWins(ContextsFor(id, ds))
    ensures var clusters := kc.clusters + LastWins(ClustersFor(id, ds));
      && !Unreadable(id, clusters, c)
      && (Stale(id, ports, clusters, c) <==> c in LastWins(ContextsFor(id, ds)) && Dropped(id, ds, ports, c.key))
    ensures c in LastWins(ContextsFor(id, ds)) ==> c.value.cluster == c.key
  {
    if c in LastWins(ContextsFor(id, ds)) {
      var n := c.key;
      LastWinsUnique(ContextsFor(id, ds));
      FindUnique(LastWins(ContextsFor(id, ds)), c);
      FindNamed(LastWins(ContextsFor(id, ds)), n);
      LastEntries(id, ds, n);
      LastNamedIs(id, ds, n);
      var d := LastNamed(id, ds, n).value;
      assert c == ContextFor(id, d) && d in ds;
      NamedConcat(kc.clusters, LastWins(ClustersFor(id, ds)), n);
      NamedAbsent(kc.clusters, n);
      FindNamed(kc.clusters + LastWins(ClustersFor(id, ds)), n);
      GeneratedPortRoundTrip(id, d, d.localPort.value);
    }
  }

  lemma MergedStaleNames(id: Identity, kc: KubeConfig, ds: seq<KubeDaemon>, ports: set<string>)
    requires OwnConfig(id, kc, ds) && PortNumbers(ds)
    ensures var stale := StaleOf(id, ports, kc.clusters + LastWins(ClustersFor(id, ds)), kc.contexts + LastWins(ContextsFor(id, ds)));
      && (forall n :: n in Keys(stale) <==> Dropped(id, ds, ports, n))
      && ClusterNames(stale) == Keys(stale)
  {
    var clusters, contexts := kc.clusters + LastWins(ClustersFor(id, ds)), kc.contexts + LastWins(ContextsFor(id, ds));
    var stale := StaleOf(id, ports, clusters, contexts);
    StaleOfMembers(id, ports, clusters, contexts);
    forall c | c in stale ensures c.value.cluster == c.key && Dropped(id, ds, ports, c.key) {
      MergedStale(id, kc, ds, ports, c);
    }
    forall n | Dropped(id, ds, ports, n) ensures n in Keys(stale) && n in ClusterNames(stale) {
      var d := LastNamed(id, ds, n).value;
      LastEntries(id, ds, n);
      FindNamed(LastWins(ContextsFor(id, ds)), n);
      var c := Entry(n, ContextFor(id, d).value);
      assert c in LastWins(ContextsFor(id, ds));
      MergedStale(id, kc, ds, ports, c);
      assert c in stale && c.value.cluster == n;
    }
  }

  // ---------- The running daemons ----------

  function Flags(ds: seq<KubeDaemon>, alive: set<nat>): (r: seq<bool>)
    ensures |r| == |ds| && forall i :: 0 <= i < |ds| ==> (r[i] <==> IsAlive(ds[i], alive))
  {
    seq(|ds|, i requires 0 <= i < |ds| => IsAlive(ds[i], alive))
  }

  predicate IsAlive(d: KubeDaemon, alive: set<nat>) {
    Running(d, alive)
  }

  lemma {:induction false} RunningSnoc<D>(a: Store<D>, e: Entry<string, DaemonConfig<D>>, alive: set<nat>)
    ensures RunningOnly(a + [e], alive) == RunningOnly(a, alive) + if Running(e.value, alive) then [e] else []
  {
    if a == [] {
      assert a + [e] == [e];
    } else {
      var first := if Running(a[0].value, alive) then [a[0]] else [];
      RunningSnoc(a[1..], e, alive);
      assert (a + [e])[0] == a[0] && (a + [e])[1..] == a[1..] + [e];
      Sequences.AppendAssoc(first, RunningOnly(a[1..], alive), if Running(e.value, alive) then [e] else []);
    }
  }

  lemma ChosenSnoc<V>(xs: Entries<string, V>, flags: seq<bool>, x: Entry<string, V>, flag: bool)
    requires |xs| == |flags|
    ensures Chosen(xs + [x], flags + [flag]) == Chosen(xs, flags) + if flag then [x] else []
  {
    assert (xs + [x])[..|xs|] == xs && (flags + [flag])[..|xs|] == flags;
  }

  lemma StoreSnoc(init: Store<KubeDetails>, e: Entry<string, KubeDaemon>, alive: set<nat>)
    ensures Values(init + [e]) == Values(init) + [e.value]
    ensures Flags(Values(init + [e]), alive) == Flags(Values(init), alive) + [Running(e.value, alive)]
  {
  }

  lemma {:induction false} RunningChosen(id: Identity, store: Store<KubeDetails>, alive: set<nat>)
    ensures var ds, live := Values(store), Values(RunningOnly(store, alive));
      && ContextsFor(id, live) == Chosen(ContextsFor(id, ds), Flags(ds, alive))
      && ClustersFor(id, live) == Chosen(ClustersFor(id, ds), Flags(ds, alive))
  {
    if store != [] {
      var n := |store| - 1;
      assert store == store[..n] + [store[n]];
      RunningChosen(id, store[..n], alive);
      RunningChosenStep(id, store[..n], store[n], alive);
    }
  }

  lemma RunningChosenStep(id: Identity, init: Store<KubeDetails>, e: Entry<string, KubeDaemon>, alive: set<nat>)
    requires var ds, live := Values(init), Values(RunningOnly(init, alive));
      && ContextsFor(id, live) == Chosen(ContextsFor(id, ds), Flags(ds, alive))
      && ClustersFor(id, live) == Chosen(ClustersFor(id, ds), Flags(ds, alive))
    ensures var ds, live := Values(init + [e]), Values(RunningOnly(init + [e], alive));
      && ContextsFor(id, live) == Chosen(ContextsFor(id, ds), Flags(ds, alive))
      && ClustersFor(id, live) == Chosen(ClustersFor(id, ds), Flags(ds, alive))
  {
    var ds, live, flag := Values(init), RunningOnly(init, alive), Running(e.value, alive);
    StoreSnoc(init, e, alive);
    EntriesSnoc(id, ds, e.value);
    ChosenSnoc(ContextsFor(id, ds), Flags(ds, alive), ContextFor(id, e.value), flag);
    ChosenSnoc(ClustersFor(id, ds), Flags(ds, alive), ClusterFor(id, e.value), flag);
    RunningSnoc(init, e, alive);
    if flag {
      StoreSnoc(live, e, alive);
      EntriesSnoc(id, Values(live), e.value);
    } else {
      assert live + [] == live;
    }
  }

  /** A running daemon is the last one stored under its name. */
  ghost predicate RunningAreLast(id: Identity, ds: seq<KubeDaemon>, alive: set<nat>) {
    forall i :: 0 <= i < |ds| && Running(ds[i], alive) ==> IsLast(id, ds, i)
  }

  /** Among the daemons that are the last ones of their names, no running one has port zero,
      and no stopped one has the port of a running one. */
  ghost predicate PortsApart(id: Identity, ds: seq<KubeDaemon>, alive: set<nat>) {
    forall i :: 0 <= i < |ds| && IsLast(id, ds, i) ==> PortApart(ds, alive, ds[i])
  }

  ghost predicate PortApart(ds: seq<KubeDaemon>, alive: set<nat>, d: KubeDaemon) {
    if Running(d, alive) then d.localPort != Some(0)
    else d.localPort == Some(0) || !OnRunningPort(ds, alive, d.localPort)
  }

  ghost predicate OnRunningPort(ds: seq<KubeDaemon>, alive: set<nat>, port: Option<nat>) {
    exists d :: d in ds && Running(d, alive) && d.localPort == port
  }

  lemma LiveValues<D>(store: Store<D>, alive: set<nat>, d: DaemonConfig<D>)
    ensures d in Values(RunningOnly(store, alive)) <==> d in Values(store) && Running(d, alive)
  {
    var live := RunningOnly(store, alive);
    RunningMembers(store, alive);
    if d in Values(live) {
      var k :| 0 <= k < |live| && Values(live)[k] == d;
      assert live[k] in live;
      ValueMember(store, live[k]);
    }
    if d in Values(store) && Running(d, alive) {
      var k :| 0 <= k < |store| && Values(store)[k] == d;
      assert store[k] in store;
      ValueMember(live, store[k]);
    }
  }

  /** A port is expected after pruning exactly when it is not zero and a running daemon has it. */
  lemma ExpectedIff(store: Store<KubeDetails>, alive: set<nat>, p: nat)
    ensures Decimals.Decimal(p) in ExpectedPorts(Values(RunningOnly(store, alive)))
      <==> p != 0 && OnRunningPort(Values(store), alive, Some(p))
  {
    var live := Values(RunningOnly(store, alive));
    if Decimals.Decimal(p) in ExpectedPorts(live) {
      var d :| d in live && d.localPort.Some? && d.localPort.value != 0 && Decimals.Decimal(d.localPort.value) == Decimals.Decimal(p);
      Decimals.DecimalInjective(d.localPort.value, p);
      LiveValues(store, alive, d);
    }
    if p != 0 && OnRunningPort(Values(store), alive, Some(p)) {
      var d :| d in Values(store) && Running(d, alive) && d.localPort == Some(p);
      LiveValues(store, alive, d);
    }
  }

  /** A name is dropped exactly when its last daemon does not run. */
  ghost predicate DropsStopped(id: Identity, ds: seq<KubeDaemon>, ports: set<string>, alive: set<nat>) {
    forall n :: Dropped(id, ds, ports, n) <==> StoppedName(id, ds, alive, n)
  }

  predicate StoppedName(id: Identity, ds: seq<KubeDaemon>, alive: set<nat>, n: string) {
    var d := LastNamed(id, ds, n);
    d.Some? && !Running(d.value, alive)
  }

  lemma DroppedAt(id: Identity, store: Store<KubeDetails>, alive: set<nat>, i: nat)
    requires PortNumbers(Values(store)) && i < |store| && IsLast(id, Values(store), i)
    ensures var ds, d := Values(store), store[i].value;
      && LastNamed(id, ds, NameFor(id, d)) == Some(d)
      && (Dropped(id, ds, ExpectedPorts(Values(RunningOnly(store, alive))), NameFor(id, d))
          <==> d.localPort == Some(0) || !OnRunningPort(ds, alive, d.localPort))
      && (Running(d, alive) ==> OnRunningPort(ds, alive, d.localPort))
  {
    var ds := Values(store);
    assert ds[i] in ds;
    LastIs(id, ds, i);
    ExpectedIff(store, alive, ds[i].localPort.value);
  }

  /** Filtering drops the names whose last daemon does not run exactly when the ports are apart. */
  lemma DroppedIffStopped(id: Identity, store: Store<KubeDetails>, alive: set<nat>)
    requires PortNumbers(Values(store))
    ensures PortsApart(id, Values(store), alive)
      <==> DropsStopped(id, Values(store), ExpectedPorts(Values(RunningOnly(store, alive))), alive)
  {
    var ds, ports := Values(store), ExpectedPorts(Values(RunningOnly(store, alive)));
    if PortsApart(id, ds, alive) {
      forall n ensures Dropped(id, ds, ports, n) <==> StoppedName(id, ds, alive, n) {
        LastNamedIs(id, ds, n);
        if LastNamed(id, ds, n).Some? {
          var i :| 0 <= i < |ds| && IsLastOf(id, ds, i, n);
          DroppedAt(id, store, alive, i);
        }
      }
    } else {
      var i :| 0 <= i < |ds| && IsLast(id, ds, i) && !PortApart(ds, alive, ds[i]);
      DroppedAt(id, store, alive, i);
      var n := NameFor(id, ds[i]);
      assert Dropped(id, ds, ports, n) != StoppedName(id, ds, alive, n);
    }
  }

  lemma {:induction false} LastIs(id: Identity, ds: seq<KubeDaemon>, i: nat)
    requires i < |ds| && IsLast(id, ds, i)
    ensures IsLastOf(id, ds, i, NameFor(id, ds[i]))
  {
    var last := |ds| - 1;
    if i < last {
      assert forall j :: i < j < last ==> ds[..last][j] == ds[j];
      LastIs(id, ds[..last], i);
      assert NameFor(id, ds[last]) != NameFor(id, ds[i]);
    }
  }

  // ---------- The inverse ----------

  ghost predicate SameEntries(a: KubeConfig, b: KubeConfig) {
    a.clusters == b.clusters && a.contexts == b.contexts && a.users == b.users
  }

  /** The merged file, filtered once the store is pruned to the running daemons. */
  function AfterStopping(id: Identity, token: string, kc: KubeConfig, store: Store<KubeDetails>, alive: set<nat>): KubeConfig {
    var live := RunningOnly(store, alive);
    Filtered(id, ExpectedPorts(Values(live)), live != [], MergeInTurn(id, token, kc, Values(store)))
  }

  /** Filtering a file into which all stored daemons were merged, once the store is pruned
      to the running ones, never throws.  It gives the file with only the running ones
      merged in - clusters, contexts and users, in order - if and only if the ports are
      apart; with no daemon running it is the user's own file. */
  lemma {:induction false} StoppingInvertsConnecting(id: Identity, token: string, kc: KubeConfig, store: Store<KubeDetails>, alive: set<nat>)
    requires OwnConfig(id, kc, Values(store)) && PortNumbers(Values(store)) && RunningAreLast(id, Values(store), alive)
    ensures !FilterThrows(id, MergeInTurn(id, token, kc, Values(store)))
    ensures SameEntries(AfterStopping(id, token, kc, store, alive), MergeInTurn(id, token, kc, Values(RunningOnly(store, alive))))
      <==> PortsApart(id, Values(store), alive)
    ensures RunningOnly(store, alive) == [] ==> SameEntries(AfterStopping(id, token, kc, store, alive), kc)
  {
    var ds, live := Values(store), Values(RunningOnly(store, alive));
    var dropped := DroppedNames(id, ds, ExpectedPorts(live));
    var expected := MergeInTurn(id, token, kc, live);
    StoppedEntries(id, token, kc, store, alive);
    ExpectedEntries(id, token, kc, store, alive);
    EntriesIffApart(id, store, alive);
    SameAppended(kc, AfterStopping(id, token, kc, store, alive), expected, dropped, ContextsFor(id, ds), ClustersFor(id, ds),
      ContextsFor(id, live), ClustersFor(id, live));
    if live == [] {
      assert SameEntries(expected, kc);
    }
  }

  lemma StoppedEntries(id: Identity, token: string, kc: KubeConfig, store: Store<KubeDetails>, alive: set<nat>)
    requires OwnConfig(id, kc, Values(store)) && PortNumbers(Values(store))
    ensures !FilterThrows(id, MergeInTurn(id, token, kc, Values(store)))
    ensures var ds, live := Values(store), Values(RunningOnly(store, alive));
      var dropped := DroppedNames(id, ds, ExpectedPorts(live));
      var r := AfterStopping(id, token, kc, store, alive);
      && r.contexts == kc.contexts + Without(LastWins(ContextsFor(id, ds)), dropped)
      && r.clusters == kc.clusters + Without(LastWins(ClustersFor(id, ds)), dropped)
      && r.users == kc.users + if live == [] then [] else [UserFor(id, token)]
  {
    var live := RunningOnly(store, alive);
    FilteredEntries(id, token, kc, Values(store), ExpectedPorts(Values(live)), live != []);
    UsersRestored(id, token, kc, store, alive);
  }

  lemma SameAppended(kc: KubeConfig, f: KubeConfig, e: KubeConfig, dropped: set<string>,
      allContexts: seq<Context>, allClusters: seq<Cluster>, contexts: seq<Context>, clusters: seq<Cluster>)
    requires f.contexts == kc.contexts + Without(LastWins(allContexts), dropped) && e.contexts == kc.contexts + contexts
    requires f.clusters == kc.clusters + Without(LastWins(allClusters), dropped) && e.clusters == kc.clusters + clusters
    requires f.users == e.users
    ensures SameEntries(f, e) <==>
      Without(LastWins(allContexts), dropped) == contexts && Without(LastWins(allClusters), dropped) == clusters
  {
    Sequences.AppendedSame(kc.contexts, Without(LastWins(allContexts), dropped), contexts);
    Sequences.AppendedSame(kc.clusters, Without(LastWins(allClusters), dropped), clusters);
  }

  lemma EntriesIffApart(id: Identity, store: Store<KubeDetails>, alive: set<nat>)
    requires PortNumbers(Values(store)) && RunningAreLast(id, Values(store), alive)
    ensures var ds, live := Values(store), Values(RunningOnly(store, alive));
      var dropped := DroppedNames(id, ds, ExpectedPorts(live));
      var contexts := Without(LastWins(ContextsFor(id, ds)), dropped);
      var clusters := Without(LastWins(ClustersFor(id, ds)), dropped);
      && (contexts == ContextsFor(id, live) && clusters == ClustersFor(id, live) <==> PortsApart(id, ds, alive))
      && (live == [] ==> PortsApart(id, ds, alive))
  {
    var ds := Values(store);
    DroppedIffStopped(id, store, alive);
    EntriesIff(id, store, alive);
    if RunningOnly(store, alive) == [] {
      forall i | 0 <= i < |ds| ensures !Running(ds[i], alive) {
        assert ds[i] in ds;
        LiveValues(store, alive, ds[i]);
      }
    }
  }

  function DroppedNames(id: Identity, ds: seq<KubeDaemon>, ports: set<string>): set<string> {
    set d | d in ds && Dropped(id, ds, ports, NameFor(id, d)) :: NameFor(id, d)
  }

  lemma DroppedNamesIff(id: Identity, ds: seq<KubeDaemon>, ports: set<string>, n: string)
    ensures n in DroppedNames(id, ds, ports) <==> Dropped(id, ds, ports, n)
  {
    LastNamedIs(id, ds, n);
    if Dropped(id, ds, ports, n) {
      var i :| 0 <= i < |ds| && IsLastOf(id, ds, i, n);
      assert ds[i] in ds && NameFor(id, ds[i]) == n;
    }
  }

  /** What filtering makes of the merged file. */
  lemma FilteredEntries(id: Identity, token: string, kc: KubeConfig, ds: seq<KubeDaemon>, ports: set<string>, anyRunning: bool)
    requires OwnConfig(id, kc, ds) && PortNumbers(ds)
    ensures !FilterThrows(id, MergeInTurn(id, token, kc, ds))
    ensures var filtered := Filtered(id, ports, anyRunning, MergeInTurn(id, token, kc, ds));
      var users := kc.users + if ds == [] then [] else [UserFor(id, token)];
      && filtered.contexts == kc.contexts + Without(LastWins(ContextsFor(id, ds)), DroppedNames(id, ds, ports))
      && filtered.clusters == kc.clusters + Without(LastWins(ClustersFor(id, ds)), DroppedNames(id, ds, ports))
      && filtered.users == if anyRunning then users else Without(FromList(users), {ManagedUser(id)})
  {
    var merged := MergeInTurn(id, token, kc, ds);
    var contexts, clusters := LastWins(ContextsFor(id, ds)), LastWins(ClustersFor(id, ds));
    MergeInTurnAppends(id, token, kc, ds);
    MergedUnique(id, kc, ds);
    FromListOfUnique(merged.contexts);
    FromListOfUnique(merged.clusters);
    forall c | c in merged.contexts ensures !Unreadable(id, merged.clusters, c) {
      MergedStale(id, kc, ds, ports, c);
    }
    MergedStaleNames(id, kc, ds, ports);
    var names := Keys(StaleOf(id, ports, merged.clusters, merged.contexts));
    forall n ensures n in names <==> n in DroppedNames(id, ds, ports) {
      DroppedNamesIff(id, ds, ports, n);
    }
    assert names == DroppedNames(id, ds, ports);
    WithoutConcat(kc.contexts, contexts, names);
    WithoutConcat(kc.clusters, clusters, names);
    WithoutDisjoint(kc.contexts, names);
    WithoutDisjoint(kc.clusters, names);
  }

  lemma MergedUnique(id: Identity, kc: KubeConfig, ds: seq<KubeDaemon>)
    requires OwnConfig(id, kc, ds)
    ensures Unique(kc.contexts + LastWins(ContextsFor(id, ds))) && Unique(kc.clusters + LastWins(ClustersFor(id, ds)))
  {
    LastWinsUnique(ContextsFor(id, ds));
    LastWinsUnique(ClustersFor(id, ds));
    EntryKeys(id, ds);
    UniqueConcat(kc.contexts, LastWins(ContextsFor(id, ds)));
    UniqueConcat(kc.clusters, LastWins(ClustersFor(id, ds)));
  }

  lemma EntryKeys(id: Identity, ds: seq<KubeDaemon>)
    ensures Keys(ContextsFor(id, ds)) == Keys(ClustersFor(id, ds)) == set d | d in ds :: NameFor(id, d)
  {
    forall d | d in ds ensures NameFor(id, d) in Keys(ContextsFor(id, ds)) && NameFor(id, d) in Keys(ClustersFor(id, ds)) {
      var i :| 0 <= i < |ds| && ds[i] == d;
      assert ContextsFor(id, ds)[i] in ContextsFor(id, ds) && ClustersFor(id, ds)[i] in ClustersFor(id, ds);
    }
  }

  /** The file with only the running daemons merged in. */
  lemma ExpectedEntries(id: Identity, token: string, kc: KubeConfig, store: Store<KubeDetails>, alive: set<nat>)
    requires OwnConfig(id, kc, Values(store)) && RunningAreLast(id, Values(store), alive)
    ensures var live := Values(RunningOnly(store, alive));
      var expected := MergeInTurn(id, token, kc, live);
      && expected.contexts == kc.contexts + ContextsFor(id, live)
      && expected.clusters == kc.clusters + ClustersFor(id, live)
      && expected.users == kc.users + if live == [] then [] else [UserFor(id, token)]
  {
    var ds, live := Values(store), Values(RunningOnly(store, alive));
    forall d | d in live ensures d in ds {
      LiveValues(store, alive, d);
    }
    MergeInTurnAppends(id, token, kc, live);
    RunningChosen(id, store, alive);
    WithoutUnchosen(ContextsFor(id, ds), Flags(ds, alive));
    WithoutUnchosen(ClustersFor(id, ds), Flags(ds, alive));
  }

  /** The filtered entries are the running daemons' exactly when the dropped names are the stopped ones. */
  lemma EntriesIff(id: Identity, store: Store<KubeDetails>, alive: set<nat>)
    requires RunningAreLast(id, Values(store), alive)
    ensures var ds, live := Values(store), Values(RunningOnly(store, alive));
      var ports := ExpectedPorts(live);
      var contexts := Without(LastWins(ContextsFor(id, ds)), DroppedNames(id, ds, ports));
      var clusters := Without(LastWins(ClustersFor(id, ds)), DroppedNames(id, ds, ports));
      && (DropsStopped(id, ds, ports, alive) ==> contexts == ContextsFor(id, live) && clusters == ClustersFor(id, live))
      && (contexts == ContextsFor(id, live) ==> DropsStopped(id, ds, ports, alive))
  {
    var ds, live := Values(store), Values(RunningOnly(store, alive));
    var ports := ExpectedPorts(live);
    var dropped := DroppedNames(id, ds, ports);
    if DropsStopped(id, ds, ports, alive) {
      forall n ensures n in dropped <==> n in Keys(ContextsFor(id, ds)) - Keys(ContextsFor(id, live)) {
        DroppedNamesIff(id, ds, ports, n);
        LiveName(id, store, alive, n);
      }
      assert dropped == Keys(ContextsFor(id, ds)) - Keys(ContextsFor(id, live));
      StoppedDropped(id, store, alive, dropped);
    }
    if Without(LastWins(ContextsFor(id, ds)), dropped) == ContextsFor(id, live) {
      LastWinsUnique(ContextsFor(id, ds));
      WithoutKeys(LastWins(ContextsFor(id, ds)), dropped);
      forall n ensures Dropped(id, ds, ports, n) <==> StoppedName(id, ds, alive, n) {
        DroppedNamesIff(id, ds, ports, n);
        LiveName(id, store, alive, n);
      }
    }
  }

  lemma StoppedDropped(id: Identity, store: Store<KubeDetails>, alive: set<nat>, dropped: set<string>)
    requires RunningAreLast(id, Values(store), alive)
    requires dropped == Keys(ContextsFor(id, Values(store))) - Keys(ContextsFor(id, Values(RunningOnly(store, alive))))
    ensures var ds, live := Values(store), Values(RunningOnly(store, alive));
      && Without(LastWins(ContextsFor(id, ds)), dropped) == ContextsFor(id, live)
      && Without(LastWins(ClustersFor(id, ds)), dropped) == ClustersFor(id, live)
  {
    var ds := Values(store);
    RunningChosen(id, store, alive);
    WithoutUnchosen(ContextsFor(id, ds), Flags(ds, alive));
    WithoutUnchosen(ClustersFor(id, ds), Flags(ds, alive));
    EntryKeys(id, ds);
    EntryKeys(id, Values(RunningOnly(store, alive)));
  }

  lemma LiveName(id: Identity, store: Store<KubeDetails>, alive: set<nat>, n: string)
    requires RunningAreLast(id, Values(store), alive)
    ensures var ds, last := Values(store), LastNamed(id, Values(store), n);
      && (n in Keys(ContextsFor(id, ds)) <==> last.Some?)
      && (n in Keys(ContextsFor(id, Values(RunningOnly(store, alive)))) <==> last.Some? && Running(last.value, alive))
  {
    var ds, live := Values(store), Values(RunningOnly(store, alive));
    EntryKeys(id, ds);
    EntryKeys(id, live);
    LastNamedIs(id, ds, n);
    if d :| d in live && NameFor(id, d) == n {
      LiveValues(store, alive, d);
      var i :| 0 <= i < |ds| && ds[i] == d;
      LastIs(id, ds, i);
    }
    if LastNamed(id, ds, n).Some? {
      var i :| 0 <= i < |ds| && IsLastOf(id, ds, i, n);
      assert ds[i] in ds;
      LiveValues(store, alive, ds[i]);
    }
  }

  lemma UsersRestored(id: Identity, token: string, kc: KubeConfig, store: Store<KubeDetails>, alive: set<nat>)
    requires Unique(kc.users) && ManagedUser(id) !in Keys(kc.users)
    ensures var live := RunningOnly(store, alive);
      var users := kc.users + if store == [] then [] else [UserFor(id, token)];
      (if live != [] then users else Without(FromList(users), {ManagedUser(id)}))
        == kc.users + if live == [] then [] else [UserFor(id, token)]
  {
    var live := RunningOnly(store, alive);
    RunningMembers(store, alive);
    if live != [] {
      assert live[0] in live;
      assert store != [];
    }
    var users := kc.users + if store == [] then [] else [UserFor(id, token)];
    if live == [] {
      var extra: Entries<string, UserBody> := if store == [] then [] else [UserFor(id, token)];
      UniqueConcat(kc.users, extra);
      FromListOfUnique(users);
      WithoutConcat(kc.users, extra, {ManagedUser(id)});
      WithoutDisjoint(kc.users, {ManagedUser(id)});
    }
  }

  /** Such a store: a running daemon has the port of a stopped one, whose context is kept. */
  lemma ReusedPortKeepsContext(id: Identity, token: string, a: KubeDaemon, b: KubeDaemon, pid: nat)
    requires NameFor(id, a) != NameFor(id, b) && UsablePort(a) && a.localPort == b.localPort
    requires a.localPid.None? && b.localPid == Some(pid)
    ensures var store := [Entry("1", a), Entry("2", b)];
      ContextFor(id, a) in AfterStopping(id, token, EMPTY, store, {pid}).contexts
  {
    var store := [Entry("1", a), Entry("2", b)];
    var ds := Values(store);
    assert ds == [a, b] && ds[0] == a && ds[1] == b && b in ds;
    StoppedEntries(id, token, EMPTY, store, {pid});
    assert IsLast(id, ds, 0);
    assert OnRunningPort(ds, {pid}, a.localPort);
    DroppedAt(id, store, {pid}, 0);
    LastEntries(id, ds, NameFor(id, a));
    FindNamed(LastWins(ContextsFor(id, ds)), NameFor(id, a));
    var dropped := DroppedNames(id, ds, ExpectedPorts(Values(RunningOnly(store, {pid}))));
    DroppedNamesIff(id, ds, ExpectedPorts(Values(RunningOnly(store, {pid}))), NameFor(id, a));
    WithoutKeys(LastWins(ContextsFor(id, ds)), dropped);
    assert ContextFor(id, a) in Without(LastWins(ContextsFor(id, ds)), dropped);
  }
}
