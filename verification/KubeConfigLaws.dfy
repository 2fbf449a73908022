/** What merging and filtering kubeconfigs promise: merging is associative, filtering
    is idempotent and never strands a managed context, and filtering after daemons
    stop undoes the merges made when they were connected. */
module KubeConfigLaws {
  import opened Wrappers
  import opened OrderedMaps
  import Decimals
  import opened DaemonStores
  import opened KubeConfigs

  // ---------- Names and ports ----------

  lemma DecimalOf443()
    ensures Decimals.Decimal(443) == "443" && Decimals.Decimal(80) == "80"
  {
    assert Decimals.Decimal(4) == "4";
    assert Decimals.Decimal(44) == "44";
    assert Decimals.Decimal(8) == "8";
  }

  /** The port that is read back from a server is the one written exactly when it is a port
      number and not the default of ws, wss or ftp; for http and https the default, which a
      parsed URL leaves out, is put back, also when no port is written. */
  lemma PortReadBack(scheme: Scheme, p: nat, skip: bool)
    ensures PortOf(ClusterBody(Server(scheme, Some(p)), skip)) == Success(Decimals.Decimal(p)) <==>
      p <= 65535 && (scheme.Http? || scheme.Https? || DefaultPort(scheme) != Some(p))
    ensures PortOf(ClusterBody(Server(scheme, Some(p)), skip)).Failure? <==> p > 65535
    ensures PortOf(ClusterBody(Server(Http, None), skip)) == PortOf(ClusterBody(Server(Http, Some(80)), skip))
    ensures PortOf(ClusterBody(Server(Https, None), skip)) == PortOf(ClusterBody(Server(Https, Some(443)), skip))
  {
    DecimalOf443();
  }

  /** The port read back from a generated cluster is the daemon's. */
  lemma GeneratedPortRoundTrip(id: Identity, d: KubeDaemon, p: nat)
    requires d.localPort == Some(p)
    ensures PortOf(ClusterFor(id, d).value) == if p <= MAX_PORT then Success(Decimals.Decimal(p)) else Failure(InvalidUrl)
  {
    PortReadBack(Https, p, true);
  }

  /** A server that is not a URL has no port; without a written port only http and https have one. */
  lemma PortMissing(scheme: Scheme, skip: bool)
    ensures PortOf(ClusterBody(NotAUrl, skip)).Failure?
    ensures PortOf(ClusterBody(Server(scheme, None), skip)) ==
      Success(if scheme == Http then "80" else if scheme == Https then "443" else "")
  {
  }

  lemma LastAt(u1: string, t1: string, u2: string, t2: string)
    requires '@' !in t1 && '@' !in t2
    requires u1 + "@" + t1 == u2 + "@" + t2
    ensures u1 == u2 && t1 == t2
  {
    var s, s2 := u1 + "@" + t1, u2 + "@" + t2;
    assert s[|u1|] == '@' && s2[|u2|] == '@';
    assert forall k :: |u1| < k < |s| ==> s[k] == t1[k - |u1| - 1] && t1[k - |u1| - 1] in t1;
    assert forall k :: |u2| < k < |s2| ==> s2[k] == t2[k - |u2| - 1] && t2[k - |u2| - 1] in t2;
    assert |u1| == |u2|;
    assert s[..|u1|] == u1 && s2[..|u2|] == u2;
    assert s[|u1| + 1..] == t1 && s2[|u2| + 1..] == t2;
  }

  /** Generated entry names are injective in (user, target) as long as target names have no `@`. */
  lemma EntryNameInjective(id: Identity, u1: string, t1: string, u2: string, t2: string)
    requires '@' !in t1 && '@' !in t2
    ensures EntryName(id, u1, t1) == EntryName(id, u2, t2) <==> u1 == u2 && t1 == t2
  {
    if EntryName(id, u1, t1) == EntryName(id, u2, t2) {
      var n := |NamePrefix(id)|;
      assert EntryName(id, u1, t1)[n..] == u1 + "@" + t1;
      assert EntryName(id, u2, t2)[n..] == u2 + "@" + t2;
      LastAt(u1, t1, u2, t2);
    }
  }

  /** With `@` allowed in target names, two pairs share a name. */
  lemma EntryNameCollision(id: Identity)
    ensures EntryName(id, "a", "b@c") == EntryName(id, "a@b", "c")
  {
    assert "a" + "@" + "b@c" == "a@b" + "@" + "c";
    assert NamePrefix(id) + "a" + "@" + "b@c" == NamePrefix(id) + ("a" + "@" + "b@c");
    assert NamePrefix(id) + "a@b" + "@" + "c" == NamePrefix(id) + ("a@b" + "@" + "c");
  }

  // ---------- Merge ----------

  lemma MergeEntriesAssociative<V>(a: Entries<string, V>, b: Entries<string, V>, c: Entries<string, V>)
    ensures MergeEntries(a, MergeEntries(b, c)) == MergeEntries(MergeEntries(a, b), c)
  {
    var kb, kc := Keys(b), Keys(c);
    var rest := Without(b, kc);
    assert Keys(rest + FromList(c)) == kb + kc && FromList(rest + FromList(c)) == Without(FromList(b), kc) + FromList(c) by {
      FromListKeys(c);
      WithoutKeys(b, kc);
      KeysConcat(rest, FromList(c));
      FromListConcat(rest, FromList(c));
      FromListWithout(b, kc);
      FromListUnique(c);
      FromListOfUnique(FromList(c));
    }
    calc {
      MergeEntries(a, MergeEntries(b, c));
      Without(a, kb + kc) + (Without(FromList(b), kc) + FromList(c));
      { WithoutWithout(a, kb, kc); }
      Without(Without(a, kb), kc) + (Without(FromList(b), kc) + FromList(c));
      (Without(Without(a, kb), kc) + Without(FromList(b), kc)) + FromList(c);
      { WithoutConcat(Without(a, kb), FromList(b), kc); }
      MergeEntries(MergeEntries(a, b), c);
    }
  }

  lemma MergeAssociative(a: KubeConfig, b: KubeConfig, c: KubeConfig)
    ensures Merge(a, Merge(b, c)) == Merge(Merge(a, b), c)
  {
    MergeEntriesAssociative(a.clusters, b.clusters, c.clusters);
    MergeEntriesAssociative(a.users, b.users, c.users);
    MergeEntriesAssociative(a.contexts, b.contexts, c.contexts);
  }

  /** A lookup in a merged list finds the destination's last entry of that name, else what the source has. */
  lemma NamedMerge<V>(src: Entries<string, V>, dest: Entries<string, V>, n: string)
    ensures Named(MergeEntries(src, dest), n) ==
      var d := Named(dest, n); if d == [] then Named(src, n) else [d[|d| - 1]]
  {
    NamedConcat(Without(src, Keys(dest)), FromList(dest), n);
    NamedWithout(src, Keys(dest), n);
    NamedFromList(dest, n);
    NamedAbsent(dest, n);
  }

  /** Merging the generated configuration of each daemon in turn. */
  function MergeInTurn(id: Identity, token: string, kc: KubeConfig, daemons: seq<KubeDaemon>): KubeConfig {
    if daemons == [] then kc
    else
      var n := |daemons| - 1;
      Merge(MergeInTurn(id, token, kc, daemons[..n]), Generated(id, token, daemons[n]))
  }

  /** No later daemon has the name of the `i`-th. */
  ghost predicate IsLast(id: Identity, ds: seq<KubeDaemon>, i: nat)
    requires i < |ds|
  {
    forall j :: i < j < |ds| ==> NameFor(id, ds[j]) != NameFor(id, ds[i])
  }

  /** No daemon has the name. */
  ghost predicate NoneNamed(id: Identity, ds: seq<KubeDaemon>, n: string) {
    forall d :: d in ds ==> NameFor(id, d) != n
  }

  /** Every other name keeps its entries, as a list. */
  ghost predicate OthersKept(before: KubeConfig, after: KubeConfig, n: string) {
    Named(after.contexts, n) == Named(before.contexts, n) && Named(after.clusters, n) == Named(before.clusters, n)
  }

  lemma MergeOneKeeps(id: Identity, token: string, kc: KubeConfig, d: KubeDaemon, n: string)
    ensures var r := Merge(kc, Generated(id, token, d));
      && (NameFor(id, d) != n ==> OthersKept(kc, r, n))
      && (n != ManagedUser(id) ==> Named(r.users, n) == Named(kc.users, n))
  {
    NamedMerge(kc.contexts, [ContextFor(id, d)], n);
    NamedMerge(kc.clusters, [ClusterFor(id, d)], n);
    NamedMerge(kc.users, [UserFor(id, token)], n);
  }

  /** Merging daemons in turn leaves every other name's entries as they are. */
  lemma {:induction false} MergeInTurnKeeps(id: Identity, token: string, kc: KubeConfig, ds: seq<KubeDaemon>, n: string)
    ensures var r := MergeInTurn(id, token, kc, ds);
      && (NoneNamed(id, ds, n) ==> OthersKept(kc, r, n))
      && (n != ManagedUser(id) ==> Named(r.users, n) == Named(kc.users, n))
  {
    if ds != [] {
      var init, d := ds[..|ds| - 1], ds[|ds| - 1];
      MergeInTurnKeeps(id, token, kc, init, n);
      MergeOneKeeps(id, token, MergeInTurn(id, token, kc, init), d, n);
      assert NoneNamed(id, ds, n) ==> NoneNamed(id, init, n) && NameFor(id, d) != n by {
        NoneNamedInit(id, ds, n);
      }
    }
  }

  lemma NoneNamedInit(id: Identity, ds: seq<KubeDaemon>, n: string)
    requires ds != []
    ensures NoneNamed(id, ds, n) ==> NoneNamed(id, ds[..|ds| - 1], n) && NameFor(id, ds[|ds| - 1]) != n
  {
    assert ds[|ds| - 1] in ds && forall x :: x in ds[..|ds| - 1] ==> x in ds;
  }

  /** The last daemon merged is the one selected. */
  lemma MergeInTurnSelects(id: Identity, token: string, kc: KubeConfig, ds: seq<KubeDaemon>)
    ensures var r := MergeInTurn(id, token, kc, ds);
      if ds == [] then r == kc else r.currentContext == Some(NameFor(id, ds[|ds| - 1]))
  {
    if ds != [] {
      assert |NamePrefix(id)| > 0;
      assert |NameFor(id, ds[|ds| - 1])| > 0;
    }
  }

  lemma MergeNothing<V>(src: Entries<string, V>)
    ensures MergeEntries(src, []) == src
  {
    var none: Entries<string, V> := [];
    assert Keys(none) == {};
    WithoutDisjoint(src, Keys(none));
    assert src + FromList(none) == src;
  }

  lemma MergeIntoEmpty(kc: KubeConfig)
    ensures Merge(kc, EMPTY) == kc
  {
    MergeNothing(kc.clusters);
    MergeNothing(kc.users);
    MergeNothing(kc.contexts);
  }

  /** `generate kubeConfig --update` merges the rolling fold once; that writes what
      merging each stored daemon's configuration in turn, as connect does, writes. */
  lemma {:induction false} UpdateMergesInTurn(id: Identity, token: string, kc: KubeConfig, daemons: seq<KubeDaemon>)
    ensures Merge(kc, MergeInTurn(id, token, EMPTY, daemons)) == MergeInTurn(id, token, kc, daemons)
  {
    if daemons == [] {
      MergeIntoEmpty(kc);
    } else {
      var n := |daemons| - 1;
      UpdateMergesInTurn(id, token, kc, daemons[..n]);
      MergeAssociative(kc, MergeInTurn(id, token, EMPTY, daemons[..n]), Generated(id, token, daemons[n]));
    }
  }

  // ---------- Filter ----------

  lemma FindWithout<V>(m: Entries<string, V>, ks: set<string>, k: string)
    ensures Find(Without(m, ks), k) == if k in ks then None else Find(m, k)
  {
    FindNamed(m, k);
    FindNamed(Without(m, ks), k);
    NamedWithout(m, ks, k);
  }

  lemma {:induction false} NoneStale(id: Identity, ports: set<string>, clusters: seq<Cluster>, contexts: seq<Context>)
    requires forall c :: c in contexts ==> !Stale(id, ports, clusters, c)
    ensures StaleOf(id, ports, clusters, contexts) == []
  {
    if contexts != [] {
      assert contexts[0] in contexts;
      NoneStale(id, ports, clusters, contexts[1..]);
    }
  }

  /** Among the contexts that survive, none is stale in the surviving clusters, and
      what was readable stays readable. */
  lemma SurvivorsFresh(id: Identity, ports: set<string>, anyRunning: bool, kc: KubeConfig, c: Context)
    requires c in Filtered(id, ports, anyRunning, kc).contexts
    ensures c in FromList(kc.contexts)
    ensures !Stale(id, ports, FromList(kc.clusters), c)
    ensures var clusters := Filtered(id, ports, anyRunning, kc).clusters;
      && !Stale(id, ports, clusters, c)
      && (Unreadable(id, clusters, c) ==> Unreadable(id, FromList(kc.clusters), c))
  {
    var contexts, clusters := FromList(kc.contexts), FromList(kc.clusters);
    var stale := StaleOf(id, ports, clusters, contexts);
    WithoutKeys(contexts, Keys(stale));
    StaleOfMembers(id, ports, clusters, contexts);
    FindWithout(clusters, ClusterNames(stale), c.value.cluster);
  }

  lemma FilteredUnique(id: Identity, ports: set<string>, anyRunning: bool, kc: KubeConfig)
    ensures var r := Filtered(id, ports, anyRunning, kc);
      && Unique(r.contexts) && FromList(r.contexts) == r.contexts
      && Unique(r.clusters) && FromList(r.clusters) == r.clusters
  {
    var contexts, clusters := FromList(kc.contexts), FromList(kc.clusters);
    var stale := StaleOf(id, ports, clusters, contexts);
    FromListUnique(kc.contexts);
    WithoutUnique(contexts, Keys(stale));
    FromListOfUnique(Without(contexts, Keys(stale)));
    FromListUnique(kc.clusters);
    WithoutUnique(clusters, ClusterNames(stale));
    FromListOfUnique(Without(clusters, ClusterNames(stale)));
  }

  /** Removing one name twice is removing it once. */
  lemma RemoveOnce<V>(m: Entries<string, V>, n: string)
    ensures var r := Without(FromList(m), {n}); Without(FromList(r), {n}) == r && n !in Keys(r)
  {
    var r := Without(FromList(m), {n});
    FromListUnique(m);
    WithoutUnique(FromList(m), {n});
    FromListOfUnique(r);
    WithoutKeys(FromList(m), {n});
    WithoutDisjoint(r, {n});
  }

  lemma FilterIdempotent(id: Identity, ports: set<string>, anyRunning: bool, kc: KubeConfig)
    requires !FilterThrows(id, kc)
    ensures var once := Filtered(id, ports, anyRunning, kc);
      && !FilterThrows(id, once)
      && Filtered(id, ports, anyRunning, once) == once
      && !FilterDirty(id, ports, anyRunning, once)
  {
    var once := Filtered(id, ports, anyRunning, kc);
    FilteredUnique(id, ports, anyRunning, kc);
    forall c | c in once.contexts
      ensures !Stale(id, ports, once.clusters, c) && !Unreadable(id, once.clusters, c)
    {
      SurvivorsFresh(id, ports, anyRunning, kc, c);
    }
    NoneStale(id, ports, once.clusters, once.contexts);
    NothingRemoved(once);
    if !anyRunning {
      RemoveOnce(kc.users, ManagedUser(id));
    }
  }

  lemma NothingRemoved(kc: KubeConfig)
    ensures Without(kc.contexts, Keys<string, ContextBody>([])) == kc.contexts
    ensures Without(kc.clusters, ClusterNames([])) == kc.clusters
  {
    WithoutDisjoint(kc.contexts, Keys<string, ContextBody>([]));
    WithoutDisjoint(kc.clusters, ClusterNames([]));
  }

  /** The file with repeated names collapsed, as building the maps collapses them. */
  function Normalised(anyRunning: bool, kc: KubeConfig): KubeConfig {
    kc.(contexts := FromList(kc.contexts), clusters := FromList(kc.clusters),
        users := if anyRunning then kc.users else FromList(kc.users))
  }

  /** `isDirty` is false exactly when filtering only collapsed repeated names. */
  lemma CleanIffOnlyNormalised(id: Identity, ports: set<string>, anyRunning: bool, kc: KubeConfig)
    ensures !FilterDirty(id, ports, anyRunning, kc) <==> Filtered(id, ports, anyRunning, kc) == Normalised(anyRunning, kc)
  {
    var contexts, clusters := FromList(kc.contexts), FromList(kc.clusters);
    var stale := StaleOf(id, ports, clusters, contexts);
    FromListKeys(kc.users);
    if stale == [] {
      NothingRemoved(kc.(contexts := contexts, clusters := clusters));
      if !anyRunning {
        if ManagedUser(id) in Keys(kc.users) {
          WithoutShorter(FromList(kc.users), {ManagedUser(id)});
        } else {
          WithoutDisjoint(FromList(kc.users), {ManagedUser(id)});
        }
      }
    } else {
      StaleOfMembers(id, ports, clusters, contexts);
      var c := stale[0];
      assert c in stale && c in contexts && c.key in Keys(stale) && c.key in Keys(contexts);
      WithoutShorter(contexts, Keys(stale));
    }
  }

  lemma CleanIffUnchanged(id: Identity, ports: set<string>, anyRunning: bool, kc: KubeConfig)
    requires Unique(kc.contexts) && Unique(kc.clusters) && Unique(kc.users)
    ensures !FilterDirty(id, ports, anyRunning, kc) <==> Filtered(id, ports, anyRunning, kc) == kc
  {
    CleanIffOnlyNormalised(id, ports, anyRunning, kc);
    FromListOfUnique(kc.contexts);
    FromListOfUnique(kc.clusters);
    FromListOfUnique(kc.users);
  }

  /** The context's cluster is also that of a stale managed context. */
  ghost predicate SharesStaleCluster(id: Identity, ports: set<string>, kc: KubeConfig, c: Context) {
    exists s :: && s in FromList(kc.contexts)
                && s.value.cluster == c.value.cluster
                && Stale(id, ports, FromList(kc.clusters), s)
  }

  /** A surviving context whose cluster was in the file loses that cluster exactly
      when it is not a managed context and shares the cluster with a stale managed one;
      managed contexts are never stranded. */
  lemma {:induction false} StrandedIff(id: Identity, ports: set<string>, anyRunning: bool, kc: KubeConfig, c: Context)
    requires c in Filtered(id, ports, anyRunning, kc).contexts
    requires Find(FromList(kc.clusters), c.value.cluster).Some?
    ensures Find(Filtered(id, ports, anyRunning, kc).clusters, c.value.cluster).None? <==>
      !IsBastionZero(id, c) && SharesStaleCluster(id, ports, kc, c)
    ensures IsBastionZero(id, c) ==>
      Find(Filtered(id, ports, anyRunning, kc).clusters, c.value.cluster) == Find(FromList(kc.clusters), c.value.cluster)
  {
    var contexts, clusters := FromList(kc.contexts), FromList(kc.clusters);
    var stale := StaleOf(id, ports, clusters, contexts);
    StaleOfMembers(id, ports, clusters, contexts);
    FindWithout(clusters, ClusterNames(stale), c.value.cluster);
    SurvivorsFresh(id, ports, anyRunning, kc, c);
    if c.value.cluster in ClusterNames(stale) {
      var s :| s in stale && s.value.cluster == c.value.cluster;
      assert s in contexts && Stale(id, ports, clusters, s);
    }
  }

  /** Such a file: a context of the user's own loses its cluster to a stale managed one. */
  lemma OwnContextStranded(id: Identity)
    ensures var kc := KubeConfig([Entry("c", ClusterBody(LocalServer(Some(5000)), true))], [],
        [Entry("managed", ContextBody("c", ManagedUser(id), None)), Entry("own", ContextBody("c", ManagedUser(id) + "x", None))], None);
      var filtered := Filtered(id, {}, false, kc);
      && !FilterThrows(id, kc)
      && kc.contexts[1] in filtered.contexts && Find(kc.clusters, "c").Some? && Find(filtered.clusters, "c").None?
  {
    var managed, own := Entry("managed", ContextBody("c", ManagedUser(id), None)), Entry("own", ContextBody("c", ManagedUser(id) + "x", None));
    var kc := KubeConfig([Entry("c", ClusterBody(LocalServer(Some(5000)), true))], [], [managed, own], None);
    FromListOfUnique(kc.contexts);
    FromListOfUnique(kc.clusters);
    PortReadBack(Https, 5000, true);
    assert kc.clusters[0] in kc.clusters && Find(kc.clusters, "c") == Some(kc.clusters[0].value);
    assert managed in kc.contexts && Stale(id, {}, kc.clusters, managed);
    assert own == kc.contexts[1] && !IsBastionZero(id, own);
    SurvivesIfNotStale(id, {}, false, kc, own);
    StrandedIff(id, {}, false, kc, own);
  }

  /** Every managed context has its cluster and its user in the file. */
  ghost predicate NoDangling(id: Identity, kc: KubeConfig) {
    forall c :: c in FromList(kc.contexts) && IsBastionZero(id, c) ==>
      Find(FromList(kc.clusters), c.value.cluster).Some? && ManagedUser(id) in Keys(kc.users)
  }

  /** Some managed context's port is among the expected ones. */
  ghost predicate SomeExpected(id: Identity, ports: set<string>, kc: KubeConfig) {
    exists c :: c in FromList(kc.contexts) && Refers(id, FromList(kc.clusters), c)
      && !Stale(id, ports, FromList(kc.clusters), c)
  }

  /** Filtering keeps a file free of dangling managed contexts exactly when a daemon
      runs or no managed context is on the port of a stored daemon. */
  lemma NoDanglingIff(id: Identity, ports: set<string>, anyRunning: bool, kc: KubeConfig)
    requires NoDangling(id, kc) && !FilterThrows(id, kc)
    ensures NoDangling(id, Filtered(id, ports, anyRunning, kc)) <==> anyRunning || !SomeExpected(id, ports, kc)
  {
    var r := Filtered(id, ports, anyRunning, kc);
    var contexts, clusters := FromList(kc.contexts), FromList(kc.clusters);
    FilteredUnique(id, ports, anyRunning, kc);
    forall c | c in r.contexts && IsBastionZero(id, c)
      ensures Find(r.clusters, c.value.cluster).Some? && SomeExpected(id, ports, kc)
    {
      SurvivorsFresh(id, ports, anyRunning, kc, c);
      StrandedIff(id, ports, anyRunning, kc, c);
    }
    if !anyRunning {
      WithoutKeys(FromList(kc.users), {ManagedUser(id)});
      if SomeExpected(id, ports, kc) {
        var c :| c in contexts && Refers(id, clusters, c) && !Stale(id, ports, clusters, c);
        SurvivesIfNotStale(id, ports, anyRunning, kc, c);
        assert c in r.contexts && IsBastionZero(id, c);
      }
    }
  }

  lemma SurvivesIfNotStale(id: Identity, ports: set<string>, anyRunning: bool, kc: KubeConfig, c: Context)
    requires c in FromList(kc.contexts) && !Stale(id, ports, FromList(kc.clusters), c)
    ensures c in Filtered(id, ports, anyRunning, kc).contexts
  {
    var contexts, clusters := FromList(kc.contexts), FromList(kc.clusters);
    var stale := StaleOf(id, ports, clusters, contexts);
    StaleOfMembers(id, ports, clusters, contexts);
    WithoutKeys(contexts, Keys(stale));
    FromListUnique(kc.contexts);
    if c.key in Keys(stale) {
      var s :| s in stale && s.key == c.key;
      FindUnique(contexts, c);
      FindUnique(contexts, s);
    }
  }

  /** Pruning the store before filtering, as list-daemons does, leaves no dangling managed context. */
  lemma PruneThenFilterNoDangling(id: Identity, store: Store<KubeDetails>, alive: set<nat>, kc: KubeConfig)
    requires NoDangling(id, kc) && !FilterThrows(id, kc)
    ensures var live := RunningOnly(store, alive);
      NoDangling(id, Filtered(id, ExpectedPorts(Values(live)), live != [], kc))
  {
    var live := RunningOnly(store, alive);
    var ports := ExpectedPorts(Values(live));
    if live == [] {
      assert ports == {};
      forall c | c in FromList(kc.contexts) && Refers(id, FromList(kc.clusters), c)
        ensures Stale(id, ports, FromList(kc.clusters), c)
      {
        assert !Unreadable(id, FromList(kc.clusters), c);
      }
    }
    NoDanglingIff(id, ports, live != [], kc);
  }

  // ---------- Which entries filtering keeps ----------

  /** The context is one of a stored daemon that is gone: managed, on a cluster in the file
      whose port no stored daemon has. */
  ghost predicate Gone(id: Identity, daemons: seq<KubeDaemon>, clusters: seq<Cluster>, c: Context) {
    && c.value.user == NamePrefix(id) + id.email
    && exists cluster :: && Find(clusters, c.value.cluster) == Some(cluster)
                         && PortOf(cluster).Success?
                         && !HasPort(daemons, PortOf(cluster).value)
  }

  /** A stored daemon has the port; one that is not set, or zero, does not count. */
  ghost predicate HasPort(daemons: seq<KubeDaemon>, port: string) {
    exists d, p: nat :: d in daemons && d.localPort == Some(p) && p != 0 && Decimals.Decimal(p) == port
  }

  lemma StaleIffGone(id: Identity, daemons: seq<KubeDaemon>, clusters: seq<Cluster>, c: Context)
    ensures Stale(id, ExpectedPorts(daemons), clusters, c) <==> Gone(id, daemons, clusters, c)
  {
    if Find(clusters, c.value.cluster).Some? {
      var cluster := Find(clusters, c.value.cluster).value;
      if PortOf(cluster).Success? {
        var port := PortOf(cluster).value;
        if HasPort(daemons, port) {
          var d, p: nat :| d in daemons && d.localPort == Some(p) && p != 0 && Decimals.Decimal(p) == port;
          assert d.localPort.value == p;
        }
        if port in ExpectedPorts(daemons) {
          var d :| d in daemons && d.localPort.Some? && d.localPort.value != 0 && Decimals.Decimal(d.localPort.value) == port;
          assert d.localPort == Some(d.localPort.value);
        }
      }
    }
  }

  /** Filtering keeps exactly the contexts that are not gone, the clusters that no gone
      context refers to, and while a daemon runs every user, else all but the managed one;
      it keeps the current context. */
  lemma FilterKeepsIff(id: Identity, daemons: seq<KubeDaemon>, anyRunning: bool, kc: KubeConfig)
    ensures var contexts, clusters := FromList(kc.contexts), FromList(kc.clusters);
      var r := Filtered(id, ExpectedPorts(daemons), anyRunning, kc);
      && (forall c :: c in r.contexts <==> c in contexts && !Gone(id, daemons, clusters, c))
      && (forall k :: k in r.clusters <==>
            k in clusters && forall c :: c in contexts && c.value.cluster == k.key ==> !Gone(id, daemons, clusters, c))
      && (anyRunning ==> r.users == kc.users)
      && (!anyRunning ==> forall u :: u in r.users <==> u in FromList(kc.users) && u.key != NamePrefix(id) + id.email)
      && r.currentContext == kc.currentContext
  {
    var contexts, clusters, ports := FromList(kc.contexts), FromList(kc.clusters), ExpectedPorts(daemons);
    var stale := StaleOf(id, ports, clusters, contexts);
    StaleOfMembers(id, ports, clusters, contexts);
    forall c ensures Stale(id, ports, clusters, c) <==> Gone(id, daemons, clusters, c) {
      StaleIffGone(id, daemons, clusters, c);
    }
    FromListUnique(kc.contexts);
    forall c | c in contexts ensures c.key in Keys(stale) <==> c in stale {
      if s :| s in stale && s.key == c.key {
        FindUnique(contexts, c);
        FindUnique(contexts, s);
      }
    }
    WithoutKeys(contexts, Keys(stale));
    WithoutKeys(clusters, ClusterNames(stale));
    WithoutKeys(FromList(kc.users), {ManagedUser(id)});
  }

  /** Without pruning, a dead daemon's context outlives the managed user it refers to. */
  lemma UnprunedFilterStrandsUser(id: Identity, token: string, d: KubeDaemon, p: nat)
    requires d.localPort == Some(p) && 0 < p <= MAX_PORT
    ensures var kc := Generated(id, token, d);
      && NoDangling(id, kc)
      && !NoDangling(id, Filtered(id, ExpectedPorts([d]), false, kc))
  {
    var kc := Generated(id, token, d);
    FromListOfUnique(kc.contexts);
    FromListOfUnique(kc.clusters);
    assert Find(kc.clusters, NameFor(id, d)) == Some(ClusterFor(id, d).value);
    GeneratedPortRoundTrip(id, d, p);
    assert UserFor(id, token) in kc.users;
    assert d in [d];
    assert ContextFor(id, d) in kc.contexts;
    assert !FilterThrows(id, kc);
    assert SomeExpected(id, ExpectedPorts([d]), kc);
    NoDanglingIff(id, ExpectedPorts([d]), false, kc);
  }

  predicate UsablePort(d: KubeDaemon) {
    d.localPort.Some? && 0 < d.localPort.value <= MAX_PORT
  }

  lemma ValueMember<D>(store: Store<D>, e: Entry<string, DaemonConfig<D>>)
    requires e in store
    ensures e.value in Values(store)
  {
  }

  lemma UniqueConcat<V>(a: Entries<string, V>, b: Entries<string, V>)
    requires Unique(a) && Unique(b) && Keys(a) !! Keys(b)
    ensures Unique(a + b)
  {
    forall i, j | 0 <= i < j < |a + b| ensures (a + b)[i].key != (a + b)[j].key {
      if i < |a| <= j {
        assert a[i] in a && b[j - |a|] in b;
        assert a[i].key in Keys(a) && b[j - |a|].key in Keys(b);
      }
    }
  }
}
