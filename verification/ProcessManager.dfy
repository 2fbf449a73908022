/** Shutting daemons down on Unix (process-manager.service.ts): wait for a process with
    a poll loop that races a timer, and kill it when waiting or asking failed. */
module ProcessManager {
  import opened Wrappers
  import opened DaemonManagement

  const POLL_MS := 500

  // ---------- The race, under any delays ----------

  datatype Settled = Pending | Resolved | Rejected

  /** `wakeAt` is when the sleeping poll loop is due, `None` once it has ended. */
  datatype Wait = Wait(
    now: nat, timeout: nat, alive: bool, done: bool, fired: bool, wakeAt: Option<nat>, settled: Settled,
    checks: nat, seenGoneAt: Option<nat>)

  datatype WaitEvent = Die | Poll(at: nat) | Timer(at: nat)

  /** One pass of `while (isProcessRunning(pid) && !done)`. */
  function Check(w: Wait): Wait {
    var c := w.(checks := w.checks + 1, seenGoneAt := if w.alive then w.seenGoneAt else Some(w.now));
    if w.alive && !w.done then c.(wakeAt := Some(w.now + POLL_MS))
    else c.(done := true, wakeAt := None, settled := if w.settled == Pending then Resolved else w.settled)
  }

  function Fire(w: Wait, at: nat): Wait {
    w.(now := at, fired := true, done := true, settled := if w.settled == Pending then Rejected else w.settled)
  }

  /** Both promises start at once; the poll loop makes its first check synchronously. */
  function StartWait(timeout: nat, alive: bool): Wait {
    Check(Wait(0, timeout, alive, false, false, None, Pending, 0, None))
  }

  ghost predicate WaitNext(w: Wait, ev: WaitEvent, v: Wait) {
    match ev
    case Die => v == w.(alive := false)
    case Poll(at) => w.wakeAt.Some? && w.wakeAt.value <= at && w.now <= at && v == Check(w.(now := at, wakeAt := None))
    case Timer(at) =>
      !w.fired && w.timeout <= at && w.now <= at && v == Fire(w, at)
  }

  ghost predicate WaitInv(w: Wait) {
    && (w.done <==> w.fired || w.wakeAt.None?)
    && (w.settled == Pending <==> !w.done)
    && (w.settled == Rejected ==> w.fired)
    && (w.settled == Resolved ==> !w.alive && w.seenGoneAt.Some?)
    && (w.seenGoneAt.Some? ==> !w.alive && w.seenGoneAt.value <= w.now)
  }

  ghost predicate IsWait(timeout: nat, alive: bool, states: seq<Wait>, events: seq<WaitEvent>) {
    && |states| == |events| + 1 && states[0] == StartWait(timeout, alive)
    && forall i :: 0 <= i < |events| ==> WaitNext(states[i], events[i], states[i + 1])
  }

  lemma {:induction false} WaitInvHolds(timeout: nat, alive: bool, states: seq<Wait>, events: seq<WaitEvent>, n: nat)
    requires IsWait(timeout, alive, states, events) && n < |states|
    ensures WaitInv(states[n])
  {
    if n > 0 {
      WaitInvHolds(timeout, alive, states, events, n - 1);
      assert WaitNext(states[n - 1], events[n - 1], states[n]);
    }
  }

  /** However late the timers run: at the moment the wait resolves, the loop has just
      observed that the process is not running, and the timeout has not fired. */
  lemma ResolvesOnObservation(timeout: nat, alive: bool, states: seq<Wait>, events: seq<WaitEvent>, n: nat)
    requires IsWait(timeout, alive, states, events) && n < |states| && states[n].settled == Resolved
    requires n > 0 ==> states[n - 1].settled != Resolved
    ensures !states[n].alive && states[n].seenGoneAt == Some(states[n].now) && !states[n].fired
    ensures n > 0 ==> events[n - 1].Poll? && !states[n - 1].done
  {
    WaitInvHolds(timeout, alive, states, events, n);
    if n > 0 {
      WaitInvHolds(timeout, alive, states, events, n - 1);
      assert WaitNext(states[n - 1], events[n - 1], states[n]);
    }
  }

  /** The race settles once: what it settled with never changes. */
  lemma {:induction false} SettlesOnce(timeout: nat, alive: bool, states: seq<Wait>, events: seq<WaitEvent>, m: nat, n: nat)
    requires IsWait(timeout, alive, states, events) && m <= n < |states| && states[m].settled != Pending
    ensures states[n].settled == states[m].settled
  {
    if m < n {
      SettlesOnce(timeout, alive, states, events, m, n - 1);
      assert WaitNext(states[n - 1], events[n - 1], states[n]);
    }
  }

  /** What a settled wait was settled on: an observation of the gone process before the timeout fired. */
  ghost predicate SeenGone(w: Wait) {
    !w.alive && w.seenGoneAt == Some(w.now) && !w.fired
  }

  lemma {:induction false} ResolvedWasSeen(timeout: nat, alive: bool, states: seq<Wait>, events: seq<WaitEvent>, n: nat)
    requires IsWait(timeout, alive, states, events) && n < |states| && states[n].settled == Resolved
    ensures exists m :: 0 <= m <= n && SeenGone(states[m])
  {
    if n > 0 && states[n - 1].settled == Resolved {
      ResolvedWasSeen(timeout, alive, states, events, n - 1);
    } else {
      ResolvesOnObservation(timeout, alive, states, events, n);
      assert SeenGone(states[n]);
    }
  }

  /** Some run of the race, under any delays, gets there. */
  ghost predicate Reached(timeout: nat, alive: bool, w: Wait) {
    exists states, events :: IsWait(timeout, alive, states, events) && states[|states| - 1] == w
  }

  /** How a wait ends, and whether the process is alive when its caller goes on. */
  datatype WaitResult = WaitResult(resolved: bool, stillAlive: bool)

  ghost predicate Ends(w: Wait, r: WaitResult) {
    w.settled != Pending && r.resolved == (w.settled == Resolved) && r.stillAlive == w.alive
  }

  ghost predicate Possible(timeout: nat, alive: bool, r: WaitResult) {
    exists w :: Reached(timeout, alive, w) && Ends(w, r)
  }

  lemma {:induction false} NeverRevived(timeout: nat, alive: bool, states: seq<Wait>, events: seq<WaitEvent>, n: nat)
    requires IsWait(timeout, alive, states, events) && n < |states|
    ensures states[n].alive ==> alive
  {
    if n > 0 {
      NeverRevived(timeout, alive, states, events, n - 1);
      assert WaitNext(states[n - 1], events[n - 1], states[n]);
    }
  }

  /** However a wait ends: a resolved one leaves the process gone, and no process comes back. */
  lemma PossibleGone(timeout: nat, alive: bool, r: WaitResult)
    requires Possible(timeout, alive, r)
    ensures r.resolved ==> !r.stillAlive
    ensures r.stillAlive ==> alive
  {
    var w :| Reached(timeout, alive, w) && Ends(w, r);
    var states, events :| IsWait(timeout, alive, states, events) && states[|states| - 1] == w;
    WaitInvHolds(timeout, alive, states, events, |states| - 1);
    NeverRevived(timeout, alive, states, events, |states| - 1);
  }

  // ---------- With exact timers ----------

  /** The first multiple of the poll interval at or after a time. */
  function RoundUp(ms: nat): nat {
    (ms + POLL_MS - 1) / POLL_MS * POLL_MS
  }

  /** The poll loop sees the process gone before the timer fires; on a tie it depends on
      which of the two callbacks runs first. */
  predicate GoneInTime(exitAt: Option<nat>, timeout: nat, timerFirst: bool) {
    exitAt.Some? && var seen := RoundUp(exitAt.value);
      seen == 0 || seen < timeout || (seen == timeout && !timerFirst)
  }

  /** The first poll that finds the timer fired. */
  function FirstLatePoll(timeout: nat, timerFirst: bool): nat {
    if timerFirst && timeout > 0 then RoundUp(timeout) else timeout / POLL_MS * POLL_MS + POLL_MS
  }

  lemma RoundUpIs(ms: nat, m: nat)
    requires m % POLL_MS == 0 && ms <= m < ms + POLL_MS
    ensures RoundUp(ms) == m
  {
  }

  /** `waitForProcess` for a process that exits at a given time, if ever.  It is one of the
      races above, with every timer running on time. */
  method WaitForProcess(exitAt: Option<nat>, timeout: nat, timerFirst: bool) returns (r: WaitResult, checks: nat, now: nat)
    ensures r.resolved <==> GoneInTime(exitAt, timeout, timerFirst)
    ensures now == if r.resolved then RoundUp(exitAt.value) else FirstLatePoll(timeout, timerFirst)
    ensures checks == now / POLL_MS + 1
    ensures checks <= RoundUp(timeout) / POLL_MS + 1 <==> r.resolved || BoundKept(timeout, timerFirst)
    ensures Possible(timeout, exitAt != Some(0), r)
  {
    var done, settled := false, Pending;
    now, checks := 0, 1;
    ghost var race := StartWait(timeout, exitAt != Some(0));
    ReachedStart(timeout, exitAt != Some(0));
    while (exitAt.None? || now < exitAt.value) && !done
      invariant now == POLL_MS * (checks - 1) && checks >= 1
      invariant done <==> settled == Rejected
      invariant settled != Resolved
      invariant !done ==> now <= timeout && (timerFirst && now > 0 ==> now < timeout)
      invariant done ==> now == FirstLatePoll(timeout, timerFirst) && !GoneInTime(exitAt, timeout, timerFirst)
      invariant exitAt.Some? && now > 0 ==> now - POLL_MS < exitAt.value
      invariant Reached(timeout, exitAt != Some(0), race) && OnTime(race, exitAt, now, timeout, done)
      decreases !done, timeout - now
    {
      ghost var before := now;
      now := now + POLL_MS;
      PollIndex(checks);
      var fires := timeout < now || (timeout == now && timerFirst);
      ReachedPoll(timeout, exitAt != Some(0), race, exitAt.Some? && exitAt.value <= now, fires);
      race := NextPoll(race, exitAt.Some? && exitAt.value <= now, fires);
      if fires {
        done, settled := true, Rejected;
        LatePoll(now, timeout, timerFirst);
        if exitAt.Some? {
          NotSeenInTime(exitAt.value, now, timeout, timerFirst);
        }
      }
      checks := checks + 1;
    }
    if settled == Pending {
      settled := Resolved;
      PollIndex(checks - 1);
      RoundUpIs(exitAt.value, now);
    }
    r := WaitResult(settled == Resolved, exitAt.None? || now < exitAt.value);
    PollIndex(checks - 1);
    BoundIff(exitAt, timeout, timerFirst);
  }

  /** Whether a wait that times out keeps to ceil(timeout/500) + 1 checks. */
  predicate BoundKept(timeout: nat, timerFirst: bool) {
    if timerFirst then timeout != 0 else timeout % POLL_MS != 0
  }

  lemma BoundIff(exitAt: Option<nat>, timeout: nat, timerFirst: bool)
    ensures var resolved := GoneInTime(exitAt, timeout, timerFirst);
      var now := if resolved then RoundUp(exitAt.value) else FirstLatePoll(timeout, timerFirst);
      now / POLL_MS + 1 <= RoundUp(timeout) / POLL_MS + 1 <==> resolved || BoundKept(timeout, timerFirst)
  {
    CheckBound(timeout);
  }

  /** The race after the poll at time `now`. */
  ghost predicate OnTime(w: Wait, exitAt: Option<nat>, now: nat, timeout: nat, done: bool) {
    && w.timeout == timeout && w.now == now && w.fired == done
    && (w.alive <==> exitAt.None? || now < exitAt.value)
    && w.wakeAt == (if w.alive && !done then Some(now + POLL_MS) else None)
    && w.settled == (if done then Rejected else if w.alive then Pending else Resolved)
    && (w.alive && !done ==> !w.done)
  }

  /** One poll interval: the process may exit, then the timer may fire, then the loop polls. */
  function NextPoll(w: Wait, exits: bool, fires: bool): Wait {
    if w.wakeAt.None? then w
    else
      var a := if exits then w.(alive := false) else w;
      var b := if fires then Fire(a, a.timeout) else a;
      Check(b.(now := w.wakeAt.value, wakeAt := None))
  }

  lemma ReachedStart(timeout: nat, alive: bool)
    ensures Reached(timeout, alive, StartWait(timeout, alive))
  {
    assert IsWait(timeout, alive, [StartWait(timeout, alive)], []);
  }

  lemma ReachedNext(timeout: nat, alive: bool, w: Wait, ev: WaitEvent, v: Wait)
    requires Reached(timeout, alive, w) && WaitNext(w, ev, v)
    ensures Reached(timeout, alive, v)
  {
    var states, events :| IsWait(timeout, alive, states, events) && states[|states| - 1] == w;
    assert IsWait(timeout, alive, states + [v], events + [ev]);
    assert (states + [v])[|states + [v]| - 1] == v;
  }

  lemma ReachedPoll(timeout: nat, alive: bool, w: Wait, exits: bool, fires: bool)
    requires Reached(timeout, alive, w) && w.wakeAt.Some? && w.now <= w.wakeAt.value
    requires fires ==> !w.fired && w.now <= w.timeout <= w.wakeAt.value
    ensures Reached(timeout, alive, NextPoll(w, exits, fires))
  {
    var a := if exits then w.(alive := false) else w;
    if exits {
      ReachedNext(timeout, alive, w, Die, a);
    }
    var b := if fires then Fire(a, a.timeout) else a;
    if fires {
      ReachedNext(timeout, alive, a, Timer(a.timeout), b);
    }
    ReachedNext(timeout, alive, b, Poll(w.wakeAt.value), NextPoll(w, exits, fires));
  }

  /** The k-th poll after the first check comes k intervals later. */
  lemma PollIndex(k: nat)
    ensures POLL_MS * k % POLL_MS == 0 && POLL_MS * k / POLL_MS == k
  {
  }

  lemma LatePoll(now: nat, timeout: nat, timerFirst: bool)
    requires now % POLL_MS == 0 && now >= POLL_MS
    requires timeout < now || (timeout == now && timerFirst)
    requires now - POLL_MS <= timeout && (timerFirst && now > POLL_MS ==> now - POLL_MS < timeout)
    ensures FirstLatePoll(timeout, timerFirst) == now
  {
  }

  lemma NotSeenInTime(exitAt: nat, now: nat, timeout: nat, timerFirst: bool)
    requires now % POLL_MS == 0 && now - POLL_MS < exitAt && now >= POLL_MS
    requires timeout < now || (timeout == now && timerFirst)
    ensures !GoneInTime(Some(exitAt), timeout, timerFirst)
  {
  }

  /** The bound of ceil(timeout/500) + 1 checks: if the timer wins ties it holds, with
      equality, exactly when the timeout is not zero; if the poll wins them it holds exactly
      when the timeout is no multiple of 500.  One more check is always enough. */
  lemma CheckBound(timeout: nat)
    ensures FirstLatePoll(timeout, true) / POLL_MS + 1 == RoundUp(timeout) / POLL_MS + (if timeout == 0 then 2 else 1)
    ensures FirstLatePoll(timeout, false) / POLL_MS + 1 == RoundUp(timeout) / POLL_MS + (if timeout % POLL_MS == 0 then 2 else 1)
  {
  }

  /** Both default timeouts, 10000 and 15000 ms, exceed the bound when the poll wins the tie. */
  lemma DefaultTimeoutsTie()
    ensures FirstLatePoll(10000, false) / POLL_MS + 1 == 22 && RoundUp(10000) / POLL_MS + 1 == 21
    ensures FirstLatePoll(15000, false) / POLL_MS + 1 == 32 && RoundUp(15000) / POLL_MS + 1 == 31
  {
  }

  // ---------- Shutting down ----------

  datatype ShutdownReply = Accepted | ConnectionRefused | RequestError | OtherFailure

  datatype ProcessError = Unknown | NotPermitted

  /** Unix processes: daemons lead their own process group, so that killing the group of
      a PID fails with ESRCH exactly when no such process exists. */
  class UnixHost {
    var alive: set<nat>
    const foreign: set<nat>

    constructor (alive: set<nat>, foreign: set<nat>)
      ensures this.alive == alive && this.foreign == foreign
    {
      this.alive, this.foreign := alive, foreign;
    }

    /** Signal 0 succeeds for our own processes, fails with EPERM for others' and with ESRCH for none. */
    method IsProcessRunning(pid: nat) returns (r: bool)
      ensures r <==> pid in alive
    {
      var permissionError := pid in alive && pid in foreign;
      var noSuchProcess := pid !in alive;
      if permissionError || noSuchProcess {
        r := permissionError;
      } else {
        r := true;
      }
    }

    method KillProcess(pid: nat) returns (r: Result<bool, ProcessError>)
      modifies this
      ensures pid in old(alive) && pid in foreign <==> r == Failure(NotPermitted)
      ensures r.Success? ==> r.value == (pid in old(alive)) && alive == old(alive) - {pid}
      ensures r.Failure? ==> r.error == NotPermitted && alive == old(alive)
    {
      if pid !in alive {
        return Success(false);
      }
      if pid in foreign {
        return Failure(NotPermitted);
      }
      alive := alive - {pid};
      r := Success(true);
    }

    /** `tryShutDownProcess`, for any way its wait can end: every result that is not an
        error means the process is gone.  The process may also die during the request. */
    method TryShutDownProcess(pid: nat, dies: bool, reply: ShutdownReply, timeout: nat, wait: WaitResult)
      returns (r: Result<KillResult, ProcessError>)
      requires Possible(timeout, pid in alive && !dies, wait)
      modifies this
      ensures r.Success? ==> pid !in alive && alive == old(alive) - {pid}
      ensures r == Success(KilledGracefully) <==> reply == Accepted && wait.resolved
      ensures r == Success(KilledForcefully) ==> pid in old(alive) && !dies && pid !in foreign
      ensures r == Success(NoLongerExists) ==> reply != OtherFailure && (reply != Accepted ==> pid !in old(alive) || dies)
      ensures r == Failure(Unknown) <==> reply == OtherFailure
      ensures r == Failure(NotPermitted) ==> pid in alive && pid in foreign
      ensures r.Failure? ==> alive == old(alive) - if dies then {pid} else {}
    {
      PossibleGone(timeout, pid in alive && !dies, wait);
      if dies {
        alive := alive - {pid};
      }
      if reply == OtherFailure {
        return Failure(Unknown);
      }
      if reply == Accepted {
        if !wait.stillAlive {
          alive := alive - {pid};
        }
        if wait.resolved {
          return Success(KilledGracefully);
        }
      }
      var killed := KillProcess(pid);
      if killed.Failure? {
        return Failure(killed.error);
      }
      r := Success(if killed.value then KilledForcefully else NoLongerExists);
    }

    /** With exact timers: graceful exactly when the process was seen gone in time. */
    method ShutDownOnTime(pid: nat, reply: ShutdownReply, timeout: nat, exitAt: Option<nat>, timerFirst: bool)
      returns (r: Result<KillResult, ProcessError>)
      requires pid in alive <==> exitAt != Some(0)
      modifies this
      ensures r.Success? ==> pid !in alive && alive == old(alive) - {pid}
      ensures r == Success(KilledGracefully) <==> reply == Accepted && GoneInTime(exitAt, timeout, timerFirst)
      ensures r == Failure(Unknown) <==> reply == OtherFailure
      ensures r.Failure? ==> alive == old(alive)
    {
      var wait, checks, now := WaitForProcess(exitAt, timeout, timerFirst);
      r := TryShutDownProcess(pid, false, reply, timeout, wait);
    }
  }
}
