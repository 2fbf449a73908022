/** The values kept by the daemon management service: daemon configurations keyed
    by connection ID, in the order they were stored. */
module DaemonStores {
  import opened Wrappers
  import opened OrderedMaps

  /** `details` holds the fields that differ between kube, db, rdp and sqlserver daemons. */
  datatype DaemonConfig<+D> = DaemonConfig(localPort: Option<nat>, localPid: Option<nat>, controlPort: nat, details: D)

  type Store<D> = Entries<string, DaemonConfig<D>>

  datatype DaemonStatus<+D> =
    | NoDaemonRunning(connectionId: Option<string>, config: DaemonConfig<D>)
    | DaemonQuitUnexpectedly(connectionId: Option<string>, config: DaemonConfig<D>)
    | DaemonIsRunning(connectionId: Option<string>, config: DaemonConfig<D>)

  const LEGACY_KEY := "n/a"

  predicate Running<D>(c: DaemonConfig<D>, alive: set<nat>) {
    c.localPid.Some? && c.localPid.value in alive
  }

  /** The key callers see: the legacy key becomes `undefined`. */
  function ViewKey(key: string): Option<string> {
    if key == LEGACY_KEY then None else Some(key)
  }

  /** The key a deletion acts on: `undefined`, and also the empty key, which is falsy, mean the legacy key. */
  function StoreKey(id: Option<string>): string {
    if id.Some? && id.value != "" then id.value else LEGACY_KEY
  }

  /** The two key views are inverse to each other on exactly the non-empty keys. */
  lemma KeyViewInverse(key: string)
    ensures StoreKey(ViewKey(key)) == key <==> key != ""
  {
  }

  function View<D>(store: Store<D>): (r: Entries<Option<string>, DaemonConfig<D>>)
    ensures |r| == |store|
    ensures forall i :: 0 <= i < |store| ==> r[i] == Entry(ViewKey(store[i].key), store[i].value)
  {
    seq(|store|, i requires 0 <= i < |store| => Entry(ViewKey(store[i].key), store[i].value))
  }

  function Status<D>(id: Option<string>, c: DaemonConfig<D>, alive: set<nat>): DaemonStatus<D> {
    if c.localPid.None? then NoDaemonRunning(id, c)
    else if c.localPid.value !in alive then DaemonQuitUnexpectedly(id, c)
    else DaemonIsRunning(id, c)
  }

  function Statuses<D>(store: Store<D>, alive: set<nat>): (r: Entries<Option<string>, DaemonStatus<D>>)
    ensures |r| == |store|
    ensures forall i :: 0 <= i < |store| ==>
      r[i] == Entry(ViewKey(store[i].key), Status(ViewKey(store[i].key), store[i].value, alive))
  {
    seq(|store|, i requires 0 <= i < |store| =>
      Entry(ViewKey(store[i].key), Status(ViewKey(store[i].key), store[i].value, alive)))
  }

  /** The status names the daemon, and tells apart one without a PID, one whose process is gone, and a running one. */
  lemma StatusIs<D>(id: Option<string>, c: DaemonConfig<D>, alive: set<nat>)
    ensures var r := Status(id, c, alive);
      && r.connectionId == id && r.config == c
      && (r.NoDaemonRunning? <==> c.localPid.None?)
      && (r.DaemonQuitUnexpectedly? <==> c.localPid.Some? && c.localPid.value !in alive)
      && (r.DaemonIsRunning? <==> c.localPid.Some? && c.localPid.value in alive)
  {
  }

  /** The running entries, in order. */
  function RunningOnly<D>(store: Store<D>, alive: set<nat>): Store<D> {
    if store == [] then []
    else (if Running(store[0].value, alive) then [store[0]] else []) + RunningOnly(store[1..], alive)
  }

  /** The store keys that pruning deletes: those behind the view of every entry that is not running. */
  ghost function PrunedKeys<D>(store: Store<D>, alive: set<nat>): set<string> {
    set e | e in store && !Running(e.value, alive) :: StoreKey(ViewKey(e.key))
  }

  lemma {:induction false} RunningMembers<D>(store: Store<D>, alive: set<nat>)
    ensures forall e :: e in RunningOnly(store, alive) ==> e in store && Running(e.value, alive)
    ensures forall e :: e in store && Running(e.value, alive) ==> e in RunningOnly(store, alive)
  {
    if store != [] {
      RunningMembers(store[1..], alive);
    }
  }

  /** The stored configurations, in order. */
  function Values<D>(store: Store<D>): (r: seq<DaemonConfig<D>>)
    ensures |r| == |store| && forall i :: 0 <= i < |r| ==> r[i] == store[i].value
  {
    seq(|store|, i requires 0 <= i < |store| => store[i].value)
  }
}
