/** `disconnectAllDaemons` while other commands store new daemons: the shutdown
    attempts run concurrently and may settle in any order, daemons may be added or
    die at any moment, and the results are processed once all attempts settled. */
module DisconnectRuns {
  import opened Wrappers
  import opened OrderedMaps
  import opened DaemonStores
  import opened DaemonManagement

  datatype State<D> = State(
    store: Store<D>,
    alive: set<nat>,
    snapshot: Entries<Option<string>, DaemonConfig<D>>,
    settled: seq<Option<DisconnectResult<D>>>,
    finished: Option<Entries<Option<string>, DisconnectResult<D>>>,
    added: Store<D>)

  datatype Event<+D> =
    | Add(connectionId: string, config: DaemonConfig<D>)
    | Settle(index: nat, attempt: Result<KillResult, string>)
    | Die(pid: nat)
    | Finish

  function Start<D>(store: Store<D>, alive: set<nat>): State<D> {
    State(store, alive, View(store), seq(|store|, _ => None), None, [])
  }

  ghost predicate AllSettled<D>(s: State<D>) {
    forall i :: 0 <= i < |s.settled| ==> s.settled[i].Some?
  }

  function Results<D>(s: State<D>): Entries<Option<string>, DisconnectResult<D>>
    requires |s.settled| == |s.snapshot| && AllSettled(s)
  {
    seq(|s.snapshot|, i requires 0 <= i < |s.snapshot| => Entry(s.snapshot[i].key, s.settled[i].value))
  }

  /** A snapshotted daemon's PID. */
  ghost predicate SnapshotPid<D>(s: State<D>, pid: nat) {
    exists i :: 0 <= i < |s.snapshot| && s.snapshot[i].value.localPid == Some(pid)
  }

  /** One event.  New daemons have fresh connection IDs and PIDs that are not reused;
      an attempt that does not throw leaves its process gone. */
  ghost predicate Next<D(!new)>(s: State<D>, ev: Event<D>, t: State<D>) {
    match ev
    case Add(id, config) =>
      && id != "" && id != LEGACY_KEY && id !in Keys(s.store) && Some(id) !in Keys(s.snapshot)
      && (config.localPid.Some? ==> !SnapshotPid(s, config.localPid.value))
      && t == s.(store := Set(s.store, id, config), added := s.added + [Entry(id, config)],
                 alive := s.alive + if config.localPid.Some? then {config.localPid.value} else {})
    case Settle(i, attempt) =>
      && i < |s.settled| && i < |s.snapshot| && s.settled[i].None?
      && var d := s.snapshot[i].value;
      && t == s.(settled := s.settled[i := Some(ResultOf(d, attempt))],
                 alive := if d.localPid.Some? && attempt.Success? then s.alive - {d.localPid.value} else s.alive)
    case Die(pid) =>
      t == s.(alive := s.alive - {pid})
    case Finish =>
      && s.finished.None? && |s.settled| == |s.snapshot| && AllSettled(s)
      && t == s.(store := Without(s.store, DeletedKeys(Results(s))), finished := Some(FromList(Results(s))))
  }

  ghost predicate Inv<D(!new)>(initial: Store<D>, s: State<D>) {
    && Unique(initial) && s.snapshot == View(initial) && |s.settled| == |s.snapshot|
    && s.store == (if s.finished.None? then initial else Leftover(initial)) + s.added
    && Keys(s.added) !! Keys(initial) && LEGACY_KEY !in Keys(s.added)
    && (forall i :: 0 <= i < |s.settled| && s.settled[i].Some? ==> SettledWell(s, i))
    && (s.finished.Some? ==> AllSettled(s) && s.finished.value == Results(s))
  }

  /** A settled attempt reports its own daemon, and unless it reports a failed kill the process is gone. */
  ghost predicate SettledWell<D>(s: State<D>, i: nat)
    requires i < |s.settled| && i < |s.snapshot| && s.settled[i].Some?
  {
    && s.settled[i].value.daemon == s.snapshot[i].value
    && var pid := s.snapshot[i].value.localPid;
    && (s.settled[i].value.DaemonPidNotSet? <==> pid.None?)
    && (pid.Some? && !s.settled[i].value.DaemonFailKilled? ==> pid.value !in s.alive)
  }

  lemma DeletedSame<D>(s: State<D>)
    requires |s.settled| == |s.snapshot| && AllSettled(s)
    ensures DeletedKeys(Results(s)) == DeletedKeys(s.snapshot)
  {
    SameKeysDeleted(Results(s), s.snapshot);
  }

  lemma StartInv<D(!new)>(store: Store<D>, alive: set<nat>)
    requires Unique(store)
    ensures Inv(store, Start(store, alive))
  {
    assert store + [] == store;
  }

  lemma StepInv<D(!new)>(initial: Store<D>, s: State<D>, ev: Event<D>, t: State<D>)
    requires Inv(initial, s) && Next(s, ev, t)
    ensures Inv(initial, t)
  {
    match ev {
      case Add(id, config) =>
        AddInv(initial, s, id, config, t);
      case Settle(i, attempt) =>
        forall j | 0 <= j < |t.settled| && t.settled[j].Some? ensures SettledWell(t, j) {
          assert j != i ==> SettledWell(s, j);
        }
      case Die(pid) =>
        forall j | 0 <= j < |t.settled| && t.settled[j].Some? ensures SettledWell(t, j) {
          assert SettledWell(s, j);
        }
        assert s.finished.Some? ==> Results(t) == Results(s);
      case Finish =>
        FinishInv(initial, s, t);
    }
  }

  lemma AddInv<D(!new)>(initial: Store<D>, s: State<D>, id: string, config: DaemonConfig<D>, t: State<D>)
    requires Inv(initial, s) && Next(s, Add(id, config), t)
    ensures Inv(initial, t)
  {
    SetNew(s.store, id, config);
    assert t.store == (if t.finished.None? then initial else Leftover(initial)) + t.added;
    KeysConcat(s.added, [Entry(id, config)]);
    assert forall i :: 0 <= i < |initial| ==> View(initial)[i] in View(initial);
    forall j | 0 <= j < |t.settled| && t.settled[j].Some? ensures SettledWell(t, j) {
      assert SettledWell(s, j);
    }
    assert s.finished.Some? ==> Results(t) == Results(s);
  }

  lemma FinishInv<D(!new)>(initial: Store<D>, s: State<D>, t: State<D>)
    requires Inv(initial, s) && Next(s, Finish, t)
    ensures Inv(initial, t)
  {
    var ks := DeletedKeys(View(initial));
    DeletedSame(s);
    DeletedLimits(initial);
    WithoutConcat(initial, s.added, ks);
    WithoutDisjoint(s.added, ks);
    ViewUnique(initial);
    assert Unique(Results(s));
    FromListOfUnique(Results(s));
    assert Results(t) == Results(s);
    forall j | 0 <= j < |t.settled| && t.settled[j].Some? ensures SettledWell(t, j) {
      assert SettledWell(s, j);
    }
  }

  /** A run from the snapshot: consecutive states are one event apart. */
  ghost predicate IsRun<D(!new)>(store: Store<D>, alive: set<nat>, states: seq<State<D>>, events: seq<Event<D>>) {
    && |states| == |events| + 1 && states[0] == Start(store, alive)
    && forall i :: 0 <= i < |events| ==> Next(states[i], events[i], states[i + 1])
  }

  lemma {:induction false} RunInv<D(!new)>(store: Store<D>, alive: set<nat>, states: seq<State<D>>, events: seq<Event<D>>, n: nat)
    requires Unique(store) && IsRun(store, alive, states, events) && n < |states|
    ensures Inv(store, states[n])
  {
    if n == 0 {
      StartInv(store, alive);
    } else {
      RunInv(store, alive, states, events, n - 1);
      StepInv(store, states[n - 1], events[n - 1], states[n]);
    }
  }

  /** Whatever is added meanwhile, and in whatever order the attempts settle: once the
      results are processed the store holds exactly the added daemons, in order, if and
      only if the empty key was not stored at the start; every snapshotted key has
      exactly one result, in order, about its own daemon; and every snapshotted daemon
      with a PID that is not reported as failed is dead. */
  lemma DisconnectOutcome<D(!new)>(store: Store<D>, alive: set<nat>, states: seq<State<D>>, events: seq<Event<D>>, n: nat)
    requires Unique(store) && IsRun(store, alive, states, events) && n < |states| && states[n].finished.Some?
    ensures var s := states[n];
      && (s.store == s.added <==> "" !in Keys(store))
      && |s.finished.value| == |store|
      && forall i :: 0 <= i < |store| ==>
        && s.finished.value[i].key == ViewKey(store[i].key)
        && s.finished.value[i].value.daemon == store[i].value
        && (Running(store[i].value, s.alive) ==> s.finished.value[i].value.DaemonFailKilled?)
  {
    var s := states[n];
    RunInv(store, alive, states, events, n);
    LeftoverIff(store);
    assert s.store == s.added <==> Leftover(store) == [] by {
      if s.store == s.added {
        assert |s.store| == |Leftover(store)| + |s.added|;
      } else {
        assert [] + s.added == s.added;
      }
    }
    forall i | 0 <= i < |store|
      ensures s.finished.value[i].key == ViewKey(store[i].key)
        && s.finished.value[i].value.daemon == store[i].value
        && (Running(store[i].value, s.alive) ==> s.finished.value[i].value.DaemonFailKilled?)
    {
      assert SettledWell(s, i);
    }
  }

  /** The attempt to shut down the `i`-th daemon ended like this in the run. */
  ghost predicate Ended<D(!new)>(events: seq<Event<D>>, n: nat, i: nat, attempt: Result<KillResult, string>) {
    exists m :: 0 <= m < n && m < |events| && events[m] == Settle(i, attempt)
  }

  /** An attempt ends once, and its result reports how. */
  lemma {:induction false} SettledOnce<D(!new)>(store: Store<D>, alive: set<nat>, states: seq<State<D>>, events: seq<Event<D>>, n: nat, i: nat)
    requires Unique(store) && IsRun(store, alive, states, events) && n < |states| && i < |store|
    ensures |states[n].settled| == |store| && states[n].snapshot == View(store)
    ensures states[n].settled[i].None? ==> forall a :: !Ended(events, n, i, a)
    ensures states[n].settled[i].Some? ==>
      exists a :: Ended(events, n, i, a) && Reports(states[n].settled[i].value, store[i].value, a)
        && forall b :: Ended(events, n, i, b) ==> b == a
  {
    RunInv(store, alive, states, events, n);
    if n > 0 {
      SettledOnce(store, alive, states, events, n - 1, i);
      EndedStep(events, n, i);
      assert Next(states[n - 1], events[n - 1], states[n]);
      SettleStep(store, states[n - 1], events[n - 1], states[n], i);
    }
  }

  lemma EndedStep<D(!new)>(events: seq<Event<D>>, n: nat, i: nat)
    requires 0 < n <= |events|
    ensures forall b :: Ended(events, n, i, b) <==> Ended(events, n - 1, i, b) || events[n - 1] == Settle(i, b)
  {
  }

  /** A result is settled by its own event alone, which reports how the attempt ended. */
  lemma SettleStep<D(!new)>(store: Store<D>, s: State<D>, ev: Event<D>, t: State<D>, i: nat)
    requires s.snapshot == View(store) && |s.settled| == |store| && i < |store| && Next(s, ev, t)
    ensures |t.settled| == |store|
    ensures if ev.Settle? && ev.index == i
      then s.settled[i].None? && t.settled[i].Some? && Reports(t.settled[i].value, store[i].value, ev.attempt)
      else t.settled[i] == s.settled[i]
  {
  }

  /** The result of each daemon, by the events of the run: killed with the kill result that
      its attempt ended with, failed with its error, or without a PID. */
  lemma ResultIff<D(!new)>(store: Store<D>, alive: set<nat>, states: seq<State<D>>, events: seq<Event<D>>, n: nat, i: nat)
    requires Unique(store) && IsRun(store, alive, states, events) && n < |states| && states[n].finished.Some? && i < |store|
    ensures |states[n].finished.value| == |store|
    ensures var d, r := store[i].value, states[n].finished.value[i].value;
      && (forall k :: r == DaemonSuccessKilled(d, k) <==> d.localPid.Some? && Ended(events, n, i, Success(k)))
      && (forall e :: r == DaemonFailKilled(d, e) <==> d.localPid.Some? && Ended(events, n, i, Failure(e)))
      && (r == DaemonPidNotSet(d) <==> d.localPid.None?)
  {
    RunInv(store, alive, states, events, n);
    SettledOnce(store, alive, states, events, n, i);
  }

  /** A daemon stored under the empty key is shut down, but its entry stays in the store. */
  lemma EmptyKeyStays<D(!new)>(d: DaemonConfig<D>, pid: nat)
    requires d.localPid == Some(pid)
    ensures var store := [Entry("", d)];
      exists states, events: seq<Event<D>> :: IsRun(store, {pid}, states, events) && StillStored(states[|states| - 1], store, pid)
  {
    var store := [Entry("", d)];
    var gone := Success(KilledGracefully);
    var s0 := Start(store, {pid});
    var s1 := s0.(settled := s0.settled[0 := Some(ResultOf(d, gone))], alive := {pid} - {pid});
    var s2 := s1.(store := Without(s1.store, DeletedKeys(Results(s1))), finished := Some(FromList(Results(s1))));
    var states, events: seq<Event<D>> := [s0, s1, s2], [Settle(0, gone), Finish];
    assert Next(s0, events[0], s1) && Next(s1, events[1], s2);
    assert IsRun(store, {pid}, states, events);
    DeletedSame(s1);
    DeletedLimits(store);
    WithoutDisjoint(store, DeletedKeys(View(store)));
    assert states[|states| - 1] == s2;
  }

  ghost predicate StillStored<D>(s: State<D>, store: Store<D>, pid: nat) {
    s.finished.Some? && s.store == store && s.added == [] && pid !in s.alive
  }
}
