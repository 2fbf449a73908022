/** `OAuthService.getTokenSet` (oauth.service.ts): any number of zli processes share
    one stored token set, and refresh it under a file lock that they check twice. */
module OAuth {
  import opened Wrappers

  datatype TokenSet = TokenSet(idToken: string, refreshToken: Option<string>, expiresAt: Option<nat>, idTokenExp: nat)

  const BUFFER_SECONDS := 60 * 5

  /** `TokenSet.expired()` of the OpenID client: no lifetime left.  A token set without an expiry time never expires. */
  predicate Expired(ts: TokenSet, nowMs: nat) {
    ts.expiresAt.Some? && ts.expiresAt.value <= nowMs / 1000
  }

  predicate IdTokenExpired(ts: TokenSet, nowMs: nat) {
    nowMs / 1000 + BUFFER_SECONDS >= ts.idTokenExp
  }

  predicate Authenticated(ts: TokenSet, nowMs: nat) {
    !Expired(ts, nowMs) && !IdTokenExpired(ts, nowMs)
  }

  /** In milliseconds: the access token has not run out, and the ID token has more than five minutes left. */
  lemma AuthenticatedIff(ts: TokenSet, nowMs: nat)
    ensures Authenticated(ts, nowMs) <==>
      && (ts.expiresAt.Some? ==> nowMs < 1000 * ts.expiresAt.value)
      && nowMs + 5 * 60 * 1000 < 1000 * ts.idTokenExp
  {
  }

  /** Once a token set stops being authenticated it never is again. */
  lemma AuthenticatedEarlier(ts: TokenSet, earlier: nat, later: nat)
    requires earlier <= later && Authenticated(ts, later)
    ensures Authenticated(ts, earlier)
  {
  }

  /** The token set can be refreshed again. */
  predicate Usable(ts: TokenSet) {
    ts.refreshToken.Some? && ts.refreshToken.value != ""
  }

  /** The response of a refresh request; a response without a refresh token keeps the
      previous one (section 6 of RFC 6749). */
  function Refreshed(previous: TokenSet, response: TokenSet): TokenSet {
    if Usable(response) then response else response.(refreshToken := previous.refreshToken)
  }

  /** The stored token set is the response, field by field, but for the refresh token of a
      response that has none: that one is the previous token set's. */
  predicate IsResponse(previous: TokenSet, response: TokenSet, stored: TokenSet) {
    && stored.idToken == response.idToken
    && stored.expiresAt == response.expiresAt
    && stored.idTokenExp == response.idTokenExp
    && stored.refreshToken == if Usable(response) then response.refreshToken else previous.refreshToken
  }

  datatype GetError = NotLoggedIn | ServiceAccountExpired | LockNotAcquired | RefreshFailed | RegisterFailed

  // ---------- One process on its own ----------

  class OAuthService {
    var stored: Option<TokenSet>
    var locked: bool
    const serviceAccount: bool

    constructor (stored: Option<TokenSet>, serviceAccount: bool)
      ensures this.stored == stored && this.serviceAccount == serviceAccount && !locked
    {
      this.stored, this.serviceAccount, this.locked := stored, serviceAccount, false;
    }

    method Refresh(response: Result<TokenSet, ()>) returns (r: Result<TokenSet, ()>)
      requires stored.Some?
      ensures response.Failure? ==> r.Failure?
      ensures response.Success? ==> r.Success? && IsResponse(stored.value, response.value, r.value)
    {
      var tokenSet := stored.value;
      var refreshToken := tokenSet.refreshToken;
      if response.Failure? {
        return Failure(());
      }
      var refreshedTokenSet := response.value;
      if refreshedTokenSet.refreshToken.None? || refreshedTokenSet.refreshToken.value == "" {
        refreshedTokenSet := refreshedTokenSet.(refreshToken := refreshToken);
      }
      r := Success(refreshedTokenSet);
    }

    /** One call; `meanwhile` is what other processes stored, if anything, until the lock
        was acquired.  A call that does not acquire the lock exits.  A refused refresh gives the lock back; a
        failed registration after the refresh does not. */
    method GetTokenSet(nowMs: nat, acquires: bool, meanwhile: Option<TokenSet>, lockedAtMs: nat, response: Result<TokenSet, ()>, registers: bool)
      returns (r: Result<TokenSet, GetError>)
      requires nowMs <= lockedAtMs && !locked
      modifies this
      ensures old(stored).None? ==> r == Failure(NotLoggedIn) && stored == None && !locked
      ensures old(stored).Some? && Authenticated(old(stored).value, nowMs) ==>
        r == Success(old(stored).value) && stored == old(stored) && !locked
      ensures old(stored).Some? && !Authenticated(old(stored).value, nowMs) && serviceAccount ==>
        r == Failure(ServiceAccountExpired) && stored == old(stored) && !locked
      ensures old(stored).Some? && !Authenticated(old(stored).value, nowMs) && !serviceAccount ==>
        var seen := if meanwhile.Some? then meanwhile.value else old(stored).value;
        if !acquires then r == Failure(LockNotAcquired) && stored == Some(seen) && !locked
        else if Authenticated(seen, lockedAtMs) then r == Success(seen) && stored == Some(seen) && !locked
        else if response.Failure? then r == Failure(RefreshFailed) && stored == Some(seen) && !locked
        else
          && stored.Some? && IsResponse(seen, response.value, stored.value)
          && r == (if registers then Success(stored.value) else Failure(RegisterFailed))
          && locked == !registers
    {
      if stored.None? {
        return Failure(NotLoggedIn);
      }
      var tokenSet := stored.value;
      if Authenticated(stored.value, nowMs) {
        return Success(tokenSet);
      }
      if serviceAccount {
        return Failure(ServiceAccountExpired);
      }
      if meanwhile.Some? {
        stored := meanwhile;
      }
      if !acquires {
        return Failure(LockNotAcquired);
      }
      locked := true;
      if Authenticated(stored.value, lockedAtMs) {
        tokenSet := stored.value;
      } else {
        var refreshed := Refresh(response);
        if refreshed.Failure? {
          locked := false;
          return Failure(RefreshFailed);
        }
        tokenSet := refreshed.value;
        stored := Some(tokenSet);
        if !registers {
          return Failure(RegisterFailed);
        }
      }
      locked := false;
      r := Success(tokenSet);
    }
  }

  // ---------- Any number of processes ----------

  /** How a process came by the version it returns: it saw version `seen` authenticated
      at some time, before or under the lock, or it stored the version itself. */
  datatype Reason = FastPath(seen: nat, at: nat) | UnderLock(at: nat) | OwnRefresh

  /** Where a process is in getTokenSet; versions are indices into the stored history. */
  datatype Proc =
    | Starting
    | FastCheck(read: nat)
    | Locking
    | LockedCheck
    | ReRead(at: nat)
    | RefreshRead(at: nat)
    | RefreshCall(from: nat, at: nat)
    | Storing(from: nat, at: nat, response: TokenSet, result: TokenSet)
    | Registering(version: nat)
    | Releasing(version: nat, reason: Reason)
    | Returned(version: nat, reason: Reason)
    | FailedHolding
    | Failed
    | Exited

  /** One completed refresh: the process, the version it refreshed, when that was found
      unauthenticated, and the response that was received. */
  datatype Write = Write(process: nat, from: nat, checkedAt: nat, response: TokenSet)

  datatype State = State(
    now: nat, versions: seq<TokenSet>, writes: seq<Write>, lock: Option<nat>, procs: seq<Proc>, serviceAccount: bool)

  datatype Event =
    | Tick(ms: nat)
    | Step(p: nat)
    | Acquire(p: nat)
    | GiveUp(p: nat)
    | Respond(p: nat, response: Result<TokenSet, ()>)
    | Register(p: nat, ok: bool)
    | Exit(p: nat)

  function Current(s: State): nat
    requires s.versions != []
  {
    |s.versions| - 1
  }

  predicate Holds(proc: Proc) {
    || proc.LockedCheck? || proc.ReRead? || proc.RefreshRead? || proc.RefreshCall?
    || proc.Storing? || proc.Registering? || proc.Releasing? || proc.FailedHolding?
  }

  function Move(s: State, p: nat, proc: Proc): State
    requires p < |s.procs|
  {
    s.(procs := s.procs[p := proc])
  }

  /** The steps a process takes without outside help. */
  function TakeStep(s: State, p: nat): State
    requires p < |s.procs|
  {
    match s.procs[p]
    case Starting =>
      if s.versions == [] then Move(s, p, Failed) else Move(s, p, FastCheck(Current(s)))
    case FastCheck(read) =>
      if s.versions == [] then s
      else if Authenticated(s.versions[Current(s)], s.now) then Move(s, p, Returned(read, FastPath(Current(s), s.now)))
      else if s.serviceAccount then Move(s, p, Failed)
      else Move(s, p, Locking)
    case LockedCheck =>
      if s.versions == [] then s
      else if Authenticated(s.versions[Current(s)], s.now) then Move(s, p, ReRead(s.now))
      else Move(s, p, RefreshRead(s.now))
    case ReRead(at) =>
      if s.versions == [] then s else Move(s, p, Releasing(Current(s), UnderLock(at)))
    case RefreshRead(at) =>
      if s.versions == [] then s else Move(s, p, RefreshCall(Current(s), at))
    case Storing(from, at, response, result) =>
      Move(s, p, Registering(|s.versions|)).(versions := s.versions + [result], writes := s.writes + [Write(p, from, at, response)])
    case Releasing(version, reason) =>
      Move(s, p, Returned(version, reason)).(lock := None)
    case _ => s
  }

  function Apply(s: State, ev: Event): State {
    match ev
    case Tick(ms) => s.(now := s.now + ms)
    case Step(p) => if p < |s.procs| then TakeStep(s, p) else s
    case Acquire(p) =>
      if p < |s.procs| && s.procs[p].Locking? && s.lock.None? then Move(s, p, LockedCheck).(lock := Some(p)) else s
    case GiveUp(p) =>
      if p < |s.procs| && s.procs[p].Locking? then Move(s, p, Exited) else s
    case Respond(p, response) =>
      if p < |s.procs| && s.procs[p].RefreshCall? && s.procs[p].from < |s.versions| then
        var from, at := s.procs[p].from, s.procs[p].at;
        match response
        case Success(ts) => Move(s, p, Storing(from, at, ts, Refreshed(s.versions[from], ts)))
        case Failure(_) => Move(s, p, Failed).(lock := None)
      else s
    case Register(p, ok) =>
      if p < |s.procs| && s.procs[p].Registering? then
        Move(s, p, if ok then Releasing(s.procs[p].version, OwnRefresh) else FailedHolding)
      else s
    case Exit(p) =>
      if p < |s.procs| then Move(s, p, Exited).(lock := if s.lock == Some(p) then None else s.lock) else s
  }

  // ---------- The invariant ----------

  /** A completed refresh started from the version stored just before its own, which had
      been found unauthenticated, and stored what its process received. */
  ghost predicate GoodWrite(s: State, k: nat)
    requires k < |s.writes| && |s.versions| == |s.writes| + 1
  {
    && s.writes[k].from == k
    && s.writes[k].checkedAt <= s.now
    && !Authenticated(s.versions[k], s.writes[k].checkedAt)
    && IsResponse(s.versions[k], s.writes[k].response, s.versions[k + 1])
  }

  /** Process `p` stored that version itself. */
  ghost predicate StoredBy(s: State, p: nat, version: nat) {
    0 < version <= |s.writes| && s.writes[version - 1].process == p
  }

  ghost predicate GoodReason(s: State, p: nat, version: nat, reason: Reason) {
    && version < |s.versions|
    && match reason
       case FastPath(seen, at) =>
         && version <= seen < |s.versions| && seen <= |s.writes| && at <= s.now && Authenticated(s.versions[seen], at)
         && forall k :: 0 <= k < seen ==> s.writes[k].checkedAt <= at
       case UnderLock(at) => at <= s.now && Authenticated(s.versions[version], at)
       case OwnRefresh => StoredBy(s, p, version)
  }

  ghost predicate GoodProc(s: State, p: nat, proc: Proc)
    requires s.versions != []
  {
    match proc
    case FastCheck(read) => read <= Current(s)
    case ReRead(at) => at <= s.now && Authenticated(s.versions[Current(s)], at)
    case RefreshRead(at) => at <= s.now && !Authenticated(s.versions[Current(s)], at)
    case RefreshCall(from, at) => from == Current(s) && at <= s.now && !Authenticated(s.versions[from], at)
    case Storing(from, at, response, result) =>
      && from == Current(s) && at <= s.now && !Authenticated(s.versions[from], at)
      && IsResponse(s.versions[from], response, result)
    case Registering(version) => version < |s.versions| && StoredBy(s, p, version)
    case Releasing(version, reason) => GoodReason(s, p, version, reason)
    case Returned(version, reason) => GoodReason(s, p, version, reason)
    case _ => true
  }

  ghost predicate Inv(s: State) {
    && |s.versions| == |s.writes| + 1
    && (forall k :: 0 <= k < |s.writes| ==> GoodWrite(s, k))
    && (forall p :: 0 <= p < |s.procs| ==> (Holds(s.procs[p]) <==> s.lock == Some(p)))
    && (forall p :: 0 <= p < |s.procs| ==> GoodProc(s, p, s.procs[p]))
  }

  ghost predicate Initial(s: State) {
    && |s.versions| == 1 && s.writes == [] && s.lock == None
    && forall p :: 0 <= p < |s.procs| ==> s.procs[p] == Starting
  }

  /** What does not touch the history keeps what is known about other processes. */
  lemma MoveInv(s: State, p: nat, proc: Proc, lock: Option<nat>)
    requires Inv(s) && p < |s.procs| && GoodProc(s, p, proc)
    requires Holds(proc) <==> lock == Some(p)
    requires lock == s.lock || (s.lock == None && lock == Some(p)) || (s.lock == Some(p) && lock == None)
    ensures Inv(Move(s, p, proc).(lock := lock))
  {
    var t := Move(s, p, proc).(lock := lock);
    forall k | 0 <= k < |t.writes| ensures GoodWrite(t, k) {
      assert GoodWrite(s, k);
    }
    forall q | 0 <= q < |t.procs| ensures GoodProc(t, q, t.procs[q]) {
      assert q != p ==> GoodProc(s, q, s.procs[q]);
    }
  }

  lemma StoreInv(s: State, p: nat)
    requires Inv(s) && p < |s.procs| && s.procs[p].Storing?
    ensures Inv(TakeStep(s, p))
  {
    var t := TakeStep(s, p);
    assert GoodProc(s, p, s.procs[p]);
    forall k | 0 <= k < |t.writes| ensures GoodWrite(t, k) {
      assert k < |s.writes| ==> GoodWrite(s, k);
    }
    forall q | 0 <= q < |t.procs| ensures GoodProc(t, q, t.procs[q]) {
      if q != p {
        assert GoodProc(s, q, s.procs[q]) && !Holds(s.procs[q]);
      }
    }
  }

  lemma StepInv(s: State, ev: Event)
    requires Inv(s)
    ensures Inv(Apply(s, ev))
  {
    var t := Apply(s, ev);
    match ev {
      case Tick(ms) =>
        forall k | 0 <= k < |t.writes| ensures GoodWrite(t, k) {
          assert GoodWrite(s, k);
        }
        forall q | 0 <= q < |t.procs| ensures GoodProc(t, q, t.procs[q]) {
          assert GoodProc(s, q, s.procs[q]);
        }
      case Step(p) =>
        if p < |s.procs| {
          OwnStepInv(s, p);
        }
      case Acquire(p) =>
        if p < |s.procs| && s.procs[p].Locking? && s.lock.None? {
          MoveInv(s, p, LockedCheck, Some(p));
        }
      case GiveUp(p) =>
        if p < |s.procs| && s.procs[p].Locking? {
          MoveInv(s, p, Exited, s.lock);
          assert t == Move(s, p, Exited).(lock := s.lock);
        }
      case Respond(p, response) =>
        if p < |s.procs| && s.procs[p].RefreshCall? {
          assert GoodProc(s, p, s.procs[p]);
          RespondInv(s, p, response);
        }
      case Register(p, ok) =>
        if p < |s.procs| && s.procs[p].Registering? {
          assert GoodProc(s, p, s.procs[p]);
          var proc := if ok then Releasing(s.procs[p].version, OwnRefresh) else FailedHolding;
          MoveInv(s, p, proc, s.lock);
          assert t == Move(s, p, proc).(lock := s.lock);
        }
      case Exit(p) =>
        if p < |s.procs| {
          MoveInv(s, p, Exited, if s.lock == Some(p) then None else s.lock);
        }
    }
  }

  lemma RespondInv(s: State, p: nat, response: Result<TokenSet, ()>)
    requires Inv(s) && p < |s.procs| && s.procs[p].RefreshCall?
    ensures Inv(Apply(s, Respond(p, response)))
  {
    assert GoodProc(s, p, s.procs[p]);
    var from, at := s.procs[p].from, s.procs[p].at;
    if response.Success? {
      var proc := Storing(from, at, response.value, Refreshed(s.versions[from], response.value));
      MoveInv(s, p, proc, s.lock);
      assert Apply(s, Respond(p, response)) == Move(s, p, proc).(lock := s.lock);
    } else {
      MoveInv(s, p, Failed, None);
    }
  }

  lemma OwnStepInv(s: State, p: nat)
    requires Inv(s) && p < |s.procs|
    ensures Inv(TakeStep(s, p))
  {
    assert GoodProc(s, p, s.procs[p]);
    if s.procs[p].Storing? {
      StoreInv(s, p);
    } else {
      var t := TakeStep(s, p);
      forall k | 0 <= k < |s.writes| ensures s.writes[k].checkedAt <= s.now {
        assert GoodWrite(s, k);
      }
      if t != s {
        MoveInv(s, p, t.procs[p], t.lock);
        assert t == Move(s, p, t.procs[p]).(lock := t.lock);
      }
    }
  }

  // ---------- Runs ----------

  ghost predicate IsRun(states: seq<State>, events: seq<Event>) {
    && |states| == |events| + 1 && Initial(states[0])
    && forall i :: 0 <= i < |events| ==> states[i + 1] == Apply(states[i], events[i])
  }

  lemma {:induction false} RunInv(states: seq<State>, events: seq<Event>, n: nat)
    requires IsRun(states, events) && n < |states|
    ensures Inv(states[n])
  {
    if n > 0 {
      RunInv(states, events, n - 1);
      StepInv(states[n - 1], events[n - 1]);
    }
  }

  /** Only the lock holder changes what is stored, and it only appends to the history. */
  lemma OnlyHolderWrites(states: seq<State>, events: seq<Event>, n: nat)
    requires IsRun(states, events) && n < |events| && states[n + 1].versions != states[n].versions
    ensures events[n].Step? && states[n].lock == Some(events[n].p)
    ensures states[n].versions < states[n + 1].versions && |states[n + 1].versions| == |states[n].versions| + 1
    ensures |states[n + 1].writes| == |states[n].writes| + 1
    ensures states[n + 1].writes[|states[n].writes|].process == events[n].p
    ensures states[n + 1].writes[|states[n].writes|].from == |states[n].versions| - 1
  {
    RunInv(states, events, n);
    var s, p := states[n], events[n].p;
    assert s.procs[p].Storing? && GoodProc(s, p, s.procs[p]);
  }

  /** At most one process is past the lock. */
  lemma MutualExclusion(states: seq<State>, events: seq<Event>, n: nat, p: nat, q: nat)
    requires IsRun(states, events) && n < |states| && p < |states[n].procs| && q < |states[n].procs|
    requires Holds(states[n].procs[p]) && Holds(states[n].procs[q])
    ensures p == q
  {
    RunInv(states, events, n);
  }

  /** A usable refresh token is never lost: once a stored version has one, every later version has. */
  lemma {:induction false} RefreshTokenNeverLost(states: seq<State>, events: seq<Event>, n: nat, j: nat, k: nat)
    requires IsRun(states, events) && n < |states| && j <= k < |states[n].versions|
    ensures Usable(states[n].versions[j]) ==> Usable(states[n].versions[k])
  {
    RunInv(states, events, n);
    if j < k {
      RefreshTokenNeverLost(states, events, n, j, k - 1);
      assert GoodWrite(states[n], k - 1);
    }
  }

  /** Every refreshed token set is still authenticated now. */
  ghost predicate RefreshedOutlive(s: State) {
    forall k :: 0 < k < |s.versions| ==> Authenticated(s.versions[k], s.now)
  }

  /** If refreshed token sets outlive the run, at most one refresh happens, however many
      processes start with the expired one; none happens if the first set outlives it too. */
  lemma AtMostOneRefresh(states: seq<State>, events: seq<Event>, n: nat)
    requires IsRun(states, events) && n < |states| && RefreshedOutlive(states[n])
    ensures |states[n].writes| <= 1
    ensures states[n].versions != [] && (Authenticated(states[n].versions[0], states[n].now) ==> states[n].writes == [])
  {
    var s := states[n];
    RunInv(states, events, n);
    if |s.writes| > 0 {
      var k := |s.writes| - 1;
      assert GoodWrite(s, k);
      if Authenticated(s.versions[k], s.now) {
        AuthenticatedEarlier(s.versions[k], s.writes[k].checkedAt, s.now);
      }
    }
  }

  /** A version returned by the slow path was authenticated when it was checked under the
      lock, or is the caller's own refresh.  One returned by the fast path was read before
      the check, which saw a version stored no earlier. */
  lemma ReturnedVersion(states: seq<State>, events: seq<Event>, n: nat, p: nat)
    requires IsRun(states, events) && n < |states| && p < |states[n].procs| && states[n].procs[p].Returned?
    ensures var s := states[n]; var version, reason := s.procs[p].version, s.procs[p].reason;
      && version < |s.versions|
      && (reason.UnderLock? ==> Authenticated(s.versions[version], reason.at))
      && (reason.OwnRefresh? ==> StoredBy(s, p, version))
      && (reason.FastPath? ==> version <= reason.seen < |s.versions| && Authenticated(s.versions[reason.seen], reason.at))
  {
    RunInv(states, events, n);
    assert GoodProc(states[n], p, states[n].procs[p]);
  }

  /** What the fast path returns was authenticated when it made its check if and only if
      nothing was stored between its two reads of the store. */
  lemma FastPathGoodIff(states: seq<State>, events: seq<Event>, n: nat, p: nat)
    requires IsRun(states, events) && n < |states| && p < |states[n].procs|
    requires states[n].procs[p].Returned? && states[n].procs[p].reason.FastPath?
    ensures var s := states[n]; var version, reason := s.procs[p].version, s.procs[p].reason;
      && version <= reason.seen < |s.versions|
      && (Authenticated(s.versions[version], reason.at) <==> version == reason.seen)
  {
    var s := states[n];
    RunInv(states, events, n);
    assert GoodProc(s, p, s.procs[p]);
    var version, reason := s.procs[p].version, s.procs[p].reason;
    if version < reason.seen {
      assert GoodWrite(s, version);
      if Authenticated(s.versions[version], reason.at) {
        AuthenticatedEarlier(s.versions[version], s.writes[version].checkedAt, reason.at);
      }
    }
  }

  // ---------- The checks in the run ----------

  /** Process `p` is about to check the stored version `v` while it holds the lock. */
  ghost predicate ChecksUnderLock(s: State, p: nat, at: nat, v: nat) {
    p < |s.procs| && s.procs[p].LockedCheck? && s.lock == Some(p) && s.now == at && |s.versions| == v + 1
  }

  /** Process `p` has read version `read` and is about to check version `seen` without the lock. */
  ghost predicate ChecksFast(s: State, p: nat, read: nat, at: nat, seen: nat) {
    p < |s.procs| && s.procs[p] == FastCheck(read) && s.now == at && |s.versions| == seen + 1
  }

  ghost predicate CheckedUnderLock(states: seq<State>, n: nat, p: nat, at: nat, v: nat) {
    exists m :: 0 <= m < n && m < |states| && ChecksUnderLock(states[m], p, at, v)
  }

  ghost predicate CheckedFast(states: seq<State>, n: nat, p: nat, read: nat, at: nat, seen: nat) {
    exists m :: 0 <= m < n && m < |states| && ChecksFast(states[m], p, read, at, seen)
  }

  /** The check that a process refers to happened earlier in the run, as it says. */
  ghost predicate Traced(states: seq<State>, n: nat, p: nat)
    requires n < |states| && p < |states[n].procs| && states[n].versions != []
  {
    match states[n].procs[p]
    case ReRead(at) => CheckedUnderLock(states, n, p, at, Current(states[n]))
    case RefreshRead(at) => CheckedUnderLock(states, n, p, at, Current(states[n]))
    case RefreshCall(from, at) => CheckedUnderLock(states, n, p, at, from)
    case Storing(from, at, _, _) => CheckedUnderLock(states, n, p, at, from)
    case Releasing(version, reason) => TracedReason(states, n, p, version, reason)
    case Returned(version, reason) => TracedReason(states, n, p, version, reason)
    case _ => true
  }

  ghost predicate TracedReason(states: seq<State>, n: nat, p: nat, version: nat, reason: Reason) {
    match reason
    case FastPath(seen, at) => CheckedFast(states, n, p, version, at, seen)
    case UnderLock(at) => CheckedUnderLock(states, n, p, at, version)
    case OwnRefresh => true
  }

  lemma TracedStays(states: seq<State>, n: nat, p: nat)
    requires 0 < n < |states| && p < |states[n].procs| && p < |states[n - 1].procs|
    requires Inv(states[n - 1]) && Inv(states[n]) && Traced(states, n - 1, p)
    requires states[n].procs[p] == states[n - 1].procs[p]
    requires Holds(states[n].procs[p]) ==> |states[n].versions| == |states[n - 1].versions|
    ensures Traced(states, n, p)
  {
  }

  /** Only its own steps move a process, and nobody stores while another holds the lock. */
  lemma OthersStay(s: State, ev: Event, p: nat)
    requires Inv(s) && p < |s.procs|
    ensures Apply(s, ev).procs[p] == s.procs[p] && Holds(s.procs[p]) ==> Apply(s, ev).versions == s.versions
  {
  }

  lemma TracedMoves(states: seq<State>, ev: Event, n: nat, p: nat)
    requires 0 < n < |states| && states[n] == Apply(states[n - 1], ev)
    requires p < |states[n - 1].procs| && states[n - 1].versions != [] && Traced(states, n - 1, p)
    requires Holds(states[n - 1].procs[p]) ==> states[n - 1].lock == Some(p)
    requires states[n].procs[p] != states[n - 1].procs[p]
    ensures states[n].versions != [] && Traced(states, n, p)
  {
    var s := states[n - 1];
    match s.procs[p] {
      case LockedCheck =>
        assert ChecksUnderLock(s, p, s.now, Current(s));
      case FastCheck(read) =>
        assert ChecksFast(s, p, read, s.now, Current(s));
      case _ =>
    }
  }

  lemma {:induction false} ProcTraced(states: seq<State>, events: seq<Event>, n: nat, p: nat)
    requires IsRun(states, events) && n < |states| && p < |states[n].procs|
    ensures states[n].versions != [] && Traced(states, n, p)
  {
    RunInv(states, events, n);
    if n > 0 {
      RunStep(states, events, n);
      ProcTraced(states, events, n - 1, p);
      TracedStep(states, events[n - 1], n, p);
    }
  }

  lemma RunStep(states: seq<State>, events: seq<Event>, n: nat)
    requires IsRun(states, events) && 0 < n < |states|
    ensures Inv(states[n - 1]) && Inv(states[n]) && states[n] == Apply(states[n - 1], events[n - 1])
    ensures |states[n].procs| == |states[n - 1].procs|
  {
    RunInv(states, events, n - 1);
    RunInv(states, events, n);
  }

  lemma TracedStep(states: seq<State>, ev: Event, n: nat, p: nat)
    requires 0 < n < |states| && Inv(states[n - 1]) && states[n] == Apply(states[n - 1], ev) && Inv(states[n])
    requires p < |states[n - 1].procs| && Traced(states, n - 1, p)
    ensures Traced(states, n, p)
  {
    if states[n].procs[p] == states[n - 1].procs[p] {
      OthersStay(states[n - 1], ev, p);
      TracedStays(states, n, p);
    } else {
      TracedMoves(states, ev, n, p);
    }
  }

  lemma {:induction false} WriteTraced(states: seq<State>, events: seq<Event>, n: nat, k: nat)
    requires IsRun(states, events) && n < |states| && k < |states[n].writes|
    ensures CheckedUnderLock(states, n, states[n].writes[k].process, states[n].writes[k].checkedAt, k)
  {
    var s, t := states[n - 1], states[n];
    RunInv(states, events, n - 1);
    if k < |s.writes| {
      WriteTraced(states, events, n - 1, k);
      assert t.writes[k] == s.writes[k];
    } else {
      var p := events[n - 1].p;
      assert s.procs[p].Storing? && GoodProc(s, p, s.procs[p]);
      ProcTraced(states, events, n - 1, p);
    }
  }

  /** Over every interleaving the stored token sets form a chain: each completed refresh
      started from the version stored just before its own, and only after its process,
      holding the lock, had found that version stored and unauthenticated. */
  lemma RefreshesFormChain(states: seq<State>, events: seq<Event>, n: nat, k: nat)
    requires IsRun(states, events) && n < |states| && k < |states[n].writes|
    ensures |states[n].versions| == |states[n].writes| + 1
    ensures var w := states[n].writes[k];
      w.from == k && CheckedUnderLock(states, n, w.process, w.checkedAt, k) && !Authenticated(states[n].versions[k], w.checkedAt)
  {
    RunInv(states, events, n);
    assert GoodWrite(states[n], k);
    WriteTraced(states, events, n, k);
  }

  lemma {:induction false} StoringReceived(states: seq<State>, events: seq<Event>, n: nat, p: nat)
    requires IsRun(states, events) && n < |states| && p < |states[n].procs| && states[n].procs[p].Storing?
    ensures Respond(p, Success(states[n].procs[p].response)) in events[..n]
  {
    if n > 0 {
      assert p < |states[n - 1].procs|;
      assert forall e :: e in events[..n - 1] ==> e in events[..n];
      if states[n - 1].procs[p] == states[n].procs[p] {
        StoringReceived(states, events, n - 1, p);
      } else {
        assert events[..n][n - 1] == events[n - 1];
      }
    }
  }

  lemma {:induction false} WriteReceived(states: seq<State>, events: seq<Event>, n: nat, k: nat)
    requires IsRun(states, events) && n < |states| && k < |states[n].writes|
    ensures Respond(states[n].writes[k].process, Success(states[n].writes[k].response)) in events[..n]
  {
    assert forall e :: e in events[..n - 1] ==> e in events[..n];
    if k < |states[n - 1].writes| {
      WriteReceived(states, events, n - 1, k);
    } else {
      StoringReceived(states, events, n - 1, events[n - 1].p);
    }
  }

  /** Each stored version is the response that its process received in the run, field by
      field, but for a refresh token that the response lacks.  So it is authenticated at
      the same times as the response. */
  lemma StoredIsResponse(states: seq<State>, events: seq<Event>, n: nat, k: nat)
    requires IsRun(states, events) && n < |states| && k < |states[n].writes|
    ensures |states[n].versions| == |states[n].writes| + 1
    ensures var s := states[n]; var response := s.writes[k].response;
      && Respond(s.writes[k].process, Success(response)) in events[..n]
      && s.versions[k + 1].idToken == response.idToken
      && s.versions[k + 1].expiresAt == response.expiresAt
      && s.versions[k + 1].idTokenExp == response.idTokenExp
      && s.versions[k + 1].refreshToken ==
        (if response.refreshToken.Some? && response.refreshToken.value != "" then response.refreshToken
         else s.versions[k].refreshToken)
      && forall at :: Authenticated(s.versions[k + 1], at) <==> Authenticated(response, at)
  {
    RunInv(states, events, n);
    assert GoodWrite(states[n], k);
    WriteReceived(states, events, n, k);
  }

  /** The session of a service account is never refreshed. */
  lemma {:induction false} ServiceAccountsNeverRefresh(states: seq<State>, events: seq<Event>, n: nat)
    requires IsRun(states, events) && n < |states| && states[0].serviceAccount
    ensures states[n].serviceAccount && states[n].writes == [] && |states[n].versions| == 1
    ensures forall p :: 0 <= p < |states[n].procs| ==> ServiceProc(states[n].procs[p])
  {
    if n > 0 {
      ServiceAccountsNeverRefresh(states, events, n - 1);
      ServiceStep(states[n - 1], events[n - 1]);
    }
  }

  predicate ServiceProc(proc: Proc) {
    proc.Starting? || proc.FastCheck? || proc.Failed? || proc.Exited? || (proc.Returned? && proc.reason.FastPath?)
  }

  lemma ServiceStep(s: State, ev: Event)
    requires s.serviceAccount && s.writes == [] && |s.versions| == 1
    requires forall p :: 0 <= p < |s.procs| ==> ServiceProc(s.procs[p])
    ensures var t := Apply(s, ev);
      t.serviceAccount && t.writes == [] && |t.versions| == 1 && forall p :: 0 <= p < |t.procs| ==> ServiceProc(t.procs[p])
  {
  }

  /** The same holds of a refresh still in flight, whether or not it completes. */
  lemma RefreshInFlight(states: seq<State>, events: seq<Event>, n: nat, p: nat)
    requires IsRun(states, events) && n < |states| && p < |states[n].procs| && states[n].procs[p].RefreshCall?
    ensures var s := states[n]; var from, at := s.procs[p].from, s.procs[p].at;
      && s.lock == Some(p) && |s.versions| == from + 1
      && CheckedUnderLock(states, n, p, at, from) && !Authenticated(s.versions[from], at)
  {
    RunInv(states, events, n);
    assert GoodProc(states[n], p, states[n].procs[p]);
    ProcTraced(states, events, n, p);
  }

  /** What a returned version is traced back to: the check that its reason names took place in the run. */
  lemma ReturnTraced(states: seq<State>, events: seq<Event>, n: nat, p: nat)
    requires IsRun(states, events) && n < |states| && p < |states[n].procs| && states[n].procs[p].Returned?
    ensures TracedReason(states, n, p, states[n].procs[p].version, states[n].procs[p].reason)
  {
    ProcTraced(states, events, n, p);
  }

  // ---------- What can go wrong ----------

  function Run(s: State, events: seq<Event>): State
    decreases |events|
  {
    if events == [] then s else Run(Apply(s, events[0]), events[1..])
  }

  const OLD := TokenSet("old", Some("r"), None, 0)
  const KEPT := TokenSet("new", Some("r"), None, 1000)

  const INTERLEAVING: seq<Event> :=
    [Step(0), Step(1), Step(1), Acquire(1), Step(1), Step(1), Respond(1, Success(KEPT.(refreshToken := None))), Step(1), Step(0)]

  function StageProcs(k: nat): seq<Proc> {
    if k == 0 then [Starting, Starting]
    else if k == 1 then [FastCheck(0), Starting]
    else if k == 2 then [FastCheck(0), FastCheck(0)]
    else if k == 3 then [FastCheck(0), Locking]
    else if k == 4 then [FastCheck(0), LockedCheck]
    else if k == 5 then [FastCheck(0), RefreshRead(0)]
    else if k == 6 then [FastCheck(0), RefreshCall(0, 0)]
    else if k == 7 then [FastCheck(0), Storing(0, 0, KEPT.(refreshToken := None), KEPT)]
    else if k == 8 then [FastCheck(0), Registering(1)]
    else [Returned(0, FastPath(1, 0)), Registering(1)]
  }

  /** The states of that interleaving. */
  function Stage(k: nat): State {
    State(0, if k < 8 then [OLD] else [OLD, KEPT], if k < 8 then [] else [Write(1, 0, 0, KEPT.(refreshToken := None))],
      if k < 4 then None else Some(1), StageProcs(k), false)
  }

  lemma EarlyStep(k: nat)
    requires k < 4
    ensures Apply(Stage(k), INTERLEAVING[k]) == Stage(k + 1)
  {
    assert !Authenticated(OLD, 0);
    assert Apply(Stage(k), INTERLEAVING[k]).procs == StageProcs(k + 1);
  }

  lemma LateStep(k: nat)
    requires 4 <= k < 7
    ensures Apply(Stage(k), INTERLEAVING[k]) == Stage(k + 1)
  {
    assert !Authenticated(OLD, 0);
    assert Apply(Stage(k), INTERLEAVING[k]).procs == StageProcs(k + 1);
  }

  lemma LastStep(k: nat)
    requires 7 <= k < 9
    ensures Apply(Stage(k), INTERLEAVING[k]) == Stage(k + 1)
  {
    assert Authenticated(KEPT, 0);
    assert Apply(Stage(k), INTERLEAVING[k]).procs == StageProcs(k + 1);
  }

  lemma {:induction false} StageRun(k: nat)
    requires k <= 9
    ensures Run(Stage(k), INTERLEAVING[k..]) == Stage(9)
    decreases 9 - k
  {
    if k < 9 {
      if k < 4 { EarlyStep(k); } else if k < 7 { LateStep(k); } else { LastStep(k); }
      assert INTERLEAVING[k..][0] == INTERLEAVING[k] && INTERLEAVING[k..][1..] == INTERLEAVING[k + 1..];
      StageRun(k + 1);
    }
  }

  /** The fast path may return a token set that had expired before it was checked: the
      store is read twice, and another process may refresh in between. */
  lemma FastPathMayReturnExpired()
    ensures exists s: State, events: seq<Event> ::
      Initial(s) && ReturnsExpired(Run(s, events))
  {
    StageRun(0);
    assert INTERLEAVING[0..] == INTERLEAVING;
    assert Initial(Stage(0)) && ReturnsExpired(Run(Stage(0), INTERLEAVING));
  }

  /** Process 0 returned, by the fast path, a version that was not authenticated at any time. */
  ghost predicate ReturnsExpired(s: State) {
    && |s.procs| > 0 && s.procs[0].Returned? && s.procs[0].reason.FastPath? && s.procs[0].version < |s.versions|
    && forall at :: !Authenticated(s.versions[s.procs[0].version], at)
  }

  lemma {:induction false} RunConcat(s: State, a: seq<Event>, b: seq<Event>)
    ensures Run(s, a + b) == Run(Run(s, a), b)
    decreases |a|
  {
    if a == [] {
      assert a + b == b;
    } else {
      RunConcat(Apply(s, a[0]), a[1..], b);
      assert (a + b)[0] == a[0] && (a + b)[1..] == a[1..] + b;
    }
  }

  /** Such a failed registration is reached: the process has refreshed and stored the
      token set, and still holds the lock. */
  lemma FailedRegisterReached()
    ensures exists s: State, events: seq<Event> :: Initial(s) && HoldsAfterFailing(Run(s, events))
  {
    StageRun(0);
    var failing := [Register(1, false)];
    RunConcat(Stage(0), INTERLEAVING, failing);
    assert INTERLEAVING[0..] == INTERLEAVING;
    assert Run(Stage(9), failing) == Run(Apply(Stage(9), failing[0]), failing[1..]) == Apply(Stage(9), failing[0]);
    assert Initial(Stage(0)) && HoldsAfterFailing(Run(Stage(0), INTERLEAVING + failing));
  }

  /** Process 1 failed to register, after storing its refresh. */
  ghost predicate HoldsAfterFailing(s: State) {
    |s.procs| > 1 && s.procs[1].FailedHolding? && s.lock == Some(1) && |s.versions| == 2
  }

  lemma ExitedStep(s: State, p: nat, ev: Event)
    requires p < |s.procs| && s.procs[p].Exited?
    ensures |Apply(s, ev).procs| == |s.procs| && Apply(s, ev).procs[p].Exited?
  {
  }

  lemma {:induction false} ExitedStays(s: State, p: nat, events: seq<Event>)
    requires p < |s.procs| && s.procs[p].Exited? && Inv(s)
    ensures var t := Run(s, events); Inv(t) && p < |t.procs| && t.procs[p].Exited?
    decreases |events|
  {
    if events != [] {
      StepInv(s, events[0]);
      ExitedStep(s, p, events[0]);
      ExitedStays(Apply(s, events[0]), p, events[1..]);
    }
  }

  /** When registering after a refresh fails, the lock is not released: another process
      can get it, and store anything, if and only if the failed process exits. */
  lemma {:induction false} FailedRegisterBlocks(s: State, p: nat, events: seq<Event>)
    requires p < |s.procs| && s.procs[p].FailedHolding? && Inv(s)
    ensures Run(s, events).lock == Some(p) <==> Exit(p) !in events
    ensures Exit(p) !in events ==> Run(s, events).versions == s.versions
    decreases |events|
  {
    if events != [] {
      StepInv(s, events[0]);
      var t := Apply(s, events[0]);
      assert events == [events[0]] + events[1..];
      if events[0] == Exit(p) {
        ExitedStays(t, p, events[1..]);
      } else {
        assert t.procs[p].FailedHolding? && t.versions == s.versions;
        FailedRegisterBlocks(t, p, events[1..]);
      }
    }
  }
}
