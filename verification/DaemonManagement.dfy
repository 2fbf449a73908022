/** The daemon management service (daemon-management.service.ts) over an ordered
    store.  Which processes are alive is an argument of each call. */
module DaemonManagement {
  import opened Wrappers
  import opened OrderedMaps
  import opened DaemonStores

  datatype KillResult = KilledGracefully | KilledForcefully | NoLongerExists

  datatype DisconnectResult<+D> =
    | DaemonPidNotSet(daemon: DaemonConfig<D>)
    | DaemonSuccessKilled(daemon: DaemonConfig<D>, killResult: KillResult)
    | DaemonFailKilled(daemon: DaemonConfig<D>, error: string)

  datatype ServiceError = ConnectionIdUndefined | NoSuchDaemon

  // ---------- Lemmas about the store ----------

  lemma ViewUnique<D>(store: Store<D>)
    requires Unique(store)
    ensures Unique(View(store))
  {
  }

  lemma {:induction false} WithoutIsRunningOnly<D>(store: Store<D>, alive: set<nat>, ks: set<string>)
    requires forall e :: e in store ==> (e.key in ks <==> !Running(e.value, alive))
    ensures Without(store, ks) == RunningOnly(store, alive)
  {
    if store != [] {
      assert store[0] in store;
      WithoutIsRunningOnly(store[1..], alive, ks);
    }
  }

  /** Pruning leaves exactly the running entries, in order, if and only if no stopped
      daemon is stored under the empty key. */
  lemma PruneIff<D>(store: Store<D>, alive: set<nat>)
    requires Unique(store)
    ensures Without(store, PrunedKeys(store, alive)) == RunningOnly(store, alive)
      <==> forall e :: e in store && e.key == "" ==> Running(e.value, alive)
  {
    var ks := PrunedKeys(store, alive);
    if e :| e in store && e.key == "" && !Running(e.value, alive) {
      assert "" !in ks;
      WithoutKeys(store, ks);
      assert e in Without(store, ks);
      RunningMembers(store, alive);
    } else {
      forall e | e in store ensures e.key in ks <==> !Running(e.value, alive) {
        var i :| 0 <= i < |store| && store[i] == e;
        forall j | 0 <= j < |store| && StoreKey(ViewKey(store[j].key)) == e.key && !Running(store[j].value, alive)
          ensures j == i
        {
          KeyViewInverse(store[j].key);
        }
        KeyViewInverse(e.key);
      }
      WithoutIsRunningOnly(store, alive, ks);
    }
  }

  /** A stopped daemon stored under the empty key is not pruned. */
  lemma EmptyKeyNotPruned<D>(d: DaemonConfig<D>, alive: set<nat>)
    requires !Running(d, alive)
    ensures var store := [Entry("", d)];
      Without(store, PrunedKeys(store, alive)) == store && RunningOnly(store, alive) == []
  {
    assert "" !in PrunedKeys([Entry("", d)], alive);
    assert [Entry("", d)] + Without([], PrunedKeys([Entry("", d)], alive)) == [Entry("", d)];
  }

  /** The store keys that deleting every view key of a snapshot reaches. */
  ghost function DeletedKeys<V>(view: Entries<Option<string>, V>): set<string> {
    set e | e in view :: StoreKey(e.key)
  }

  /** What the snapshotted store leaves behind: nothing but an entry under the empty key,
      whose view deletes the legacy key in its place. */
  ghost function Leftover<D>(initial: Store<D>): Store<D> {
    Without(initial, DeletedKeys(View(initial)))
  }

  lemma DeletedLimits<D>(initial: Store<D>)
    ensures DeletedKeys(View(initial)) <= Keys(initial) + {LEGACY_KEY}
    ensures "" !in DeletedKeys(View(initial))
    ensures Keys(initial) - {""} <= DeletedKeys(View(initial))
  {
  }

  lemma LeftoverIff<D>(initial: Store<D>)
    ensures Leftover(initial) == [] <==> "" !in Keys(initial)
  {
    var ks := DeletedKeys(View(initial));
    DeletedLimits(initial);
    WithoutKeys(initial, ks);
    if "" !in Keys(initial) {
      WithoutAll(initial, ks);
    }
  }

  /** The result an attempt settles with; a daemon without a PID is not attempted. */
  function ResultOf<D>(d: DaemonConfig<D>, attempt: Result<KillResult, string>): DisconnectResult<D> {
    if d.localPid.None? then DaemonPidNotSet(d)
    else match attempt
      case Success(k) => DaemonSuccessKilled(d, k)
      case Failure(e) => DaemonFailKilled(d, e)
  }

  /** What a result says about a daemon and how the attempt to shut it down ended. */
  predicate Reports<D(==)>(r: DisconnectResult<D>, d: DaemonConfig<D>, attempt: Result<KillResult, string>) {
    && (d.localPid.None? ==> r == DaemonPidNotSet(d))
    && (d.localPid.Some? && attempt.Success? ==> r == DaemonSuccessKilled(d, attempt.value))
    && (d.localPid.Some? && attempt.Failure? ==> r == DaemonFailKilled(d, attempt.error))
  }

  lemma SameKeysDeleted<V, W>(a: Entries<Option<string>, V>, b: Entries<Option<string>, W>)
    requires |a| == |b| && forall i :: 0 <= i < |a| ==> a[i].key == b[i].key
    ensures DeletedKeys(a) == DeletedKeys(b)
  {
  }

  lemma DeletedStep<V>(view: Entries<Option<string>, V>, i: nat)
    requires i < |view|
    ensures DeletedKeys(view[..i + 1]) == DeletedKeys(view[..i]) + {StoreKey(view[i].key)}
  {
  }

  lemma StatusesUnique<D>(store: Store<D>, alive: set<nat>)
    requires Unique(store)
    ensures Unique(Statuses(store, alive))
  {
  }

  lemma PrefixKeys<K, V>(m: Entries<K, V>, i: nat)
    requires Unique(m) && i < |m|
    ensures m[i].key !in Keys(m[..i])
  {
  }

  /** Entry `i` runs and satisfies the predicate, and no earlier running entry does. */
  ghost predicate IsFirstRunning<D>(store: Store<D>, i: nat, pred: DaemonConfig<D> -> bool, alive: set<nat>)
    requires i < |store|
  {
    && Running(store[i].value, alive) && pred(store[i].value)
    && forall j :: 0 <= j < i && Running(store[j].value, alive) ==> !pred(store[j].value)
  }

  /** Deleting, one snapshotted entry after the other, those that do not run. */
  function PruneInTurn<D>(store: Store<D>, view: Entries<Option<string>, DaemonConfig<D>>, alive: set<nat>): Store<D> {
    if view == [] then store
    else
      var n := |view| - 1;
      var rest := PruneInTurn(store, view[..n], alive);
      if Running(view[n].value, alive) then rest else Without(rest, {StoreKey(view[n].key)})
  }

  lemma {:induction false} PruneInTurnIs<D>(store: Store<D>, prefix: Store<D>, alive: set<nat>)
    ensures PruneInTurn(store, View(prefix), alive) == Without(store, PrunedKeys(prefix, alive))
  {
    if prefix == [] {
      WithoutDisjoint(store, PrunedKeys(prefix, alive));
    } else {
      var n := |prefix| - 1;
      PruneInTurnIs(store, prefix[..n], alive);
      assert View(prefix)[..n] == View(prefix[..n]);
      PrunedSnoc(prefix[..n], prefix[n], alive);
      assert prefix == prefix[..n] + [prefix[n]];
      if Running(prefix[n].value, alive) {
        assert PrunedKeys(prefix, alive) == PrunedKeys(prefix[..n], alive);
      }
      WithoutWithout(store, PrunedKeys(prefix[..n], alive), {StoreKey(ViewKey(prefix[n].key))});
    }
  }

  lemma PrunedSnoc<D>(a: Store<D>, e: Entry<string, DaemonConfig<D>>, alive: set<nat>)
    ensures PrunedKeys(a + [e], alive)
      == PrunedKeys(a, alive) + if Running(e.value, alive) then {} else {StoreKey(ViewKey(e.key))}
  {
  }

  // ---------- The service ----------

  class DaemonManagementService<D(==)> {
    var daemons: Store<D>

    ghost predicate Valid()
      reads this
    {
      Unique(daemons)
    }

    constructor ()
      ensures Valid() && daemons == []
    {
      daemons := [];
    }

    method GetDaemonConfigs() returns (r: Entries<Option<string>, DaemonConfig<D>>)
      requires Valid()
      ensures r == View(daemons)
      ensures Unique(r)
    {
      r := [];
      for i := 0 to |daemons|
        invariant r == View(daemons)[..i]
      {
        var entry := daemons[i];
        var key := if entry.key == LEGACY_KEY then None else Some(entry.key);
        ViewUnique(daemons);
        PrefixKeys(View(daemons), i);
        SetNew(r, key, entry.value);
        r := Set(r, key, entry.value);
      }
      ViewUnique(daemons);
    }

    method AddDaemon(connectionId: Option<string>, config: DaemonConfig<D>) returns (r: Result<(), ServiceError>)
      requires Valid()
      modifies this
      ensures Valid()
      ensures r.Failure? <==> connectionId.None? || connectionId.value == ""
      ensures r.Failure? ==> daemons == old(daemons)
      ensures r.Success? ==> daemons == Set(old(daemons), connectionId.value, config)
    {
      if connectionId.None? || connectionId.value == "" {
        return Failure(ConnectionIdUndefined);
      }
      SetUnique(daemons, connectionId.value, config);
      daemons := Set(daemons, connectionId.value, config);
      r := Success(());
    }

    method DeleteDaemon(connectionId: Option<string>)
      requires Valid()
      modifies this
      ensures Valid()
      ensures daemons == Without(old(daemons), {StoreKey(connectionId)})
      ensures connectionId == None || connectionId == Some("") ==> daemons == Without(old(daemons), {"n/a"})
      ensures connectionId.Some? && connectionId.value != "" ==> daemons == Without(old(daemons), {connectionId.value})
    {
      WithoutUnique(daemons, {StoreKey(connectionId)});
      if connectionId.Some? && connectionId.value != "" {
        daemons := Without(daemons, {connectionId.value});
      } else {
        daemons := Without(daemons, {LEGACY_KEY});
      }
    }

    method HandleDaemonStatus(connectionId: Option<string>, config: DaemonConfig<D>, alive: set<nat>, shouldRemove: bool)
      returns (r: DaemonStatus<D>)
      requires Valid()
      modifies this
      ensures Valid()
      ensures r == Status(connectionId, config, alive)
      ensures r.connectionId == connectionId && r.config == config
      ensures r.NoDaemonRunning? <==> config.localPid.None?
      ensures r.DaemonQuitUnexpectedly? <==> config.localPid.Some? && config.localPid.value !in alive
      ensures r.DaemonIsRunning? <==> config.localPid.Some? && config.localPid.value in alive
      ensures daemons ==
        if shouldRemove && !Running(config, alive) then Without(old(daemons), {StoreKey(connectionId)}) else old(daemons)
    {
      if config.localPid.None? {
        if shouldRemove {
          DeleteDaemon(connectionId);
        }
        return NoDaemonRunning(connectionId, config);
      }
      if config.localPid.value !in alive {
        if shouldRemove {
          DeleteDaemon(connectionId);
        }
        return DaemonQuitUnexpectedly(connectionId, config);
      }
      r := DaemonIsRunning(connectionId, config);
    }

    method GetDaemonStatus(connectionId: Option<string>, alive: set<nat>, shouldRemove: bool)
      returns (r: Result<DaemonStatus<D>, ServiceError>)
      requires Valid()
      modifies this
      ensures Valid()
      ensures r.Failure? <==> connectionId !in old(Keys(View(daemons)))
      ensures r.Failure? ==> daemons == old(daemons)
      ensures r.Success? ==>
        && Entry(connectionId, r.value.config) in old(View(daemons))
        && r.value == Status(connectionId, r.value.config, alive)
        && daemons ==
          if shouldRemove && !Running(r.value.config, alive) then Without(old(daemons), {StoreKey(connectionId)})
          else old(daemons)
    {
      var configs := GetDaemonConfigs();
      var found := Find(configs, connectionId);
      if found.None? {
        return Failure(NoSuchDaemon);
      }
      var status := HandleDaemonStatus(connectionId, found.value, alive, shouldRemove);
      r := Success(status);
    }

    method GetAllDaemonStatuses(alive: set<nat>, shouldRemove: bool)
      returns (r: Entries<Option<string>, DaemonStatus<D>>)
      requires Valid()
      modifies this
      ensures Valid()
      ensures r == Statuses(old(daemons), alive) && Unique(r)
      ensures daemons == if shouldRemove then Without(old(daemons), PrunedKeys(old(daemons), alive)) else old(daemons)
    {
      ghost var before := daemons;
      var configs := GetDaemonConfigs();
      StatusesUnique(before, alive);
      r := [];
      for i := 0 to |configs|
        invariant Valid()
        invariant r == Statuses(before, alive)[..i]
        invariant daemons == if shouldRemove then PruneInTurn(before, configs[..i], alive) else before
      {
        var connectionId, config := configs[i].key, configs[i].value;
        var status := HandleDaemonStatus(connectionId, config, alive, shouldRemove);
        assert configs[..i + 1][..i] == configs[..i];
        PrefixKeys(Statuses(before, alive), i);
        SetNew(r, connectionId, status);
        r := Set(r, connectionId, status);
      }
      assert configs[..|configs|] == configs;
      PruneInTurnIs(before, before, alive);
    }

    /** `getAllRunningDaemons`, then `find`: the first running daemon that satisfies the predicate. */
    method FindRunningDaemonWithPredicate(pred: DaemonConfig<D> -> bool, alive: set<nat>)
      returns (r: Option<Entry<Option<string>, DaemonConfig<D>>>)
      requires Valid()
      ensures r.None? <==> forall e :: e in daemons && Running(e.value, alive) ==> !pred(e.value)
      ensures r.Some? ==> exists i :: 0 <= i < |daemons| && IsFirstRunning(daemons, i, pred, alive) && r.value == View(daemons)[i]
    {
      var configs := GetDaemonConfigs();
      for i := 0 to |configs|
        invariant forall j :: 0 <= j < i && Running(daemons[j].value, alive) ==> !pred(daemons[j].value)
      {
        if Status(configs[i].key, configs[i].value, alive).DaemonIsRunning? && pred(configs[i].value) {
          assert daemons[i] in daemons;
          return Some(configs[i]);
        }
      }
      r := None;
    }

    /** What happens once every shutdown attempt has settled: each snapshotted daemon is deleted and its result recorded. */
    method ProcessDisconnectResults(results: Entries<Option<string>, DisconnectResult<D>>)
      returns (resultMap: Entries<Option<string>, DisconnectResult<D>>)
      requires Valid()
      modifies this
      ensures Valid()
      ensures daemons == Without(old(daemons), DeletedKeys(results))
      ensures resultMap == FromList(results)
    {
      ghost var before := daemons;
      resultMap := [];
      assert DeletedKeys(results[..0]) == {};
      WithoutDisjoint(before, {});
      for i := 0 to |results|
        invariant Valid()
        invariant daemons == Without(before, DeletedKeys(results[..i]))
        invariant resultMap == FromList(results[..i])
      {
        var connectionId, result := results[i].key, results[i].value;
        DeleteDaemon(connectionId);
        resultMap := Set(resultMap, connectionId, result);
        assert FromList(results[..i + 1]) == resultMap by {
          assert results[..i + 1] == results[..i] + [results[i]];
          FromListSnoc(results[..i], results[i]);
        }
        DeletedStep(results, i);
        WithoutWithout(before, DeletedKeys(results[..i]), {StoreKey(connectionId)});
      }
      assert results[..|results|] == results;
    }

    /** `disconnectAllDaemons` with nothing stored meanwhile; `attempts[i]` is how shutting down the i-th daemon ends. */
    method DisconnectAllDaemons(attempts: seq<Result<KillResult, string>>)
      returns (resultMap: Entries<Option<string>, DisconnectResult<D>>)
      requires Valid() && |attempts| == |daemons|
      modifies this
      ensures Valid()
      ensures daemons == Leftover(old(daemons))
      ensures |resultMap| == |attempts|
      ensures forall i :: 0 <= i < |attempts| ==>
        resultMap[i].key == ViewKey(old(daemons)[i].key) && Reports(resultMap[i].value, old(daemons)[i].value, attempts[i])
    {
      var configs := GetDaemonConfigs();
      var results: Entries<Option<string>, DisconnectResult<D>> := [];
      for i := 0 to |configs|
        invariant |results| == i
        invariant forall k :: 0 <= k < i ==> results[k] == Entry(configs[k].key, ResultOf(configs[k].value, attempts[k]))
      {
        var result :=
          if configs[i].value.localPid.None? then DaemonPidNotSet(configs[i].value)
          else match attempts[i]
            case Success(k) => DaemonSuccessKilled(configs[i].value, k)
            case Failure(e) => DaemonFailKilled(configs[i].value, e);
        results := results + [Entry(configs[i].key, result)];
      }
      assert Unique(results);
      FromListOfUnique(results);
      SameKeysDeleted(results, configs);
      resultMap := ProcessDisconnectResults(results);
    }
  }
}
