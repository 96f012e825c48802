/**
 Teardown of one deleted grant (internal/controller/agentgatewaysession_teardown.go):
 the registration is removed, or given up on after a bounded window.
 */
module Teardown {
  import opened Common

  /** requeueShort, in seconds. */
  const REQUEUE_SHORT: nat := 15

  /** What teardown can see of the platform singleton. */
  datatype Platform = Absent | Present(published: string, configured: string) {
    /** The published namespace, or the configured one while nothing is published. */
    function GatewayNamespace(): string {
      if Absent? then "" else if published != "" then published else configured
    }
  }

  datatype State = State(platform: Platform, gateway: Phase, registered: bool, finalizer: bool)

  datatype GrantWrite = Written | Moved | Refused     // Moved: gone or changed meanwhile

  datatype Faults = Faults(
    platformRead: bool,
    namespaceRead: bool,
    removal: bool,
    grantRead: bool,
    grantGone: bool,
    grantWrite: GrantWrite)

  datatype Outcome = NothingToDo | Released | AlreadyGone | RetryShort | RetryPromptly | Error

  /** No platform, no namespace, or a namespace on its way out: nothing is left to clean. */
  predicate NothingToClean(platform: Platform, gateway: Phase) {
    platform.GatewayNamespace() == "" || gateway != Active
  }

  predicate WindowOver(now: nat, deletedAt: nat, timeout: nat) {
    now - deletedAt >= timeout
  }

  function ReleaseAfter(s: State, f: Faults): (State, Outcome) {
    if f.grantGone then (s, AlreadyGone)
    else if f.grantRead then (s, Error)
    else match f.grantWrite
      case Written => (s.(finalizer := false), Released)
      case Moved => (s, RetryPromptly)
      case Refused => (s, Error)
  }

  function TeardownAfter(s: State, now: nat, deletedAt: nat, timeout: nat, f: Faults): (State, Outcome) {
    if !s.finalizer then (s, NothingToDo)
    else if f.platformRead || (s.platform.GatewayNamespace() != "" && f.namespaceRead) then (s, Error)
    else if NothingToClean(s.platform, s.gateway) then ReleaseAfter(s, f)
    else if !f.removal then ReleaseAfter(s.(registered := false), f)
    else if WindowOver(now, deletedAt, timeout) then ReleaseAfter(s, f)
    else (s, RetryShort)
  }

  class SessionTeardown {
    var platform: Platform
    var gateway: Phase
    var registered: bool
    var finalizer: bool

    function Now(): State
      reads this
    {
      State(platform, gateway, registered, finalizer)
    }

    constructor (s: State)
      ensures Now() == s
    {
      platform, gateway := s.platform, s.gateway;
      registered, finalizer := s.registered, s.finalizer;
    }

    /** The namespace to clean; none when there is nothing left to do there. */
    method GatewayNamespaceForTeardown(f: Faults) returns (r: Result<Option<string>, ()>)
      ensures r.Err? <==> f.platformRead || (platform.GatewayNamespace() != "" && f.namespaceRead)
      ensures r.Ok? ==> r.value == if NothingToClean(platform, gateway) then None else Some(platform.GatewayNamespace())
      ensures r.Ok? && r.value.Some? ==>
                r.value.value == if platform.published != "" then platform.published else platform.configured
    {
      if f.platformRead {
        return Err(());
      }
      if platform.Absent? {
        return Ok(None);
      }
      var namespace := platform.published;
      if namespace == "" {
        namespace := platform.configured;
      }
      if namespace == "" {
        return Ok(None);
      }
      if f.namespaceRead {
        return Err(());
      }
      if gateway == Gone || gateway == Terminating {
        return Ok(None);
      }
      return Ok(Some(namespace));
    }

    method RemoveRegistration(f: Faults) returns (ok: bool)
      modifies this`registered
      ensures ok <==> !f.removal
      ensures registered == (old(registered) && f.removal)
    {
      if f.removal {
        return false;
      }
      registered := false;
      return true;
    }

    method ReleaseFinalizer(f: Faults) returns (r: Outcome)
      modifies this`finalizer
      ensures (Now(), r) == ReleaseAfter(old(Now()), f)
    {
      if f.grantGone {
        return AlreadyGone;
      }
      if f.grantRead {
        return Error;
      }
      match f.grantWrite {
        case Written =>
          finalizer := false;
          return Released;
        case Moved => return RetryPromptly;
        case Refused => return Error;
      }
    }

    method ReconcileDelete(now: nat, deletedAt: nat, timeout: nat, f: Faults) returns (r: Outcome)
      modifies this
      ensures (Now(), r) == TeardownAfter(old(Now()), now, deletedAt, timeout, f)
    {
      if !finalizer {
        return NothingToDo;
      }
      var lookup := GatewayNamespaceForTeardown(f);
      if lookup.Err? {
        return Error;
      }
      if lookup.value.None? {
        r := ReleaseFinalizer(f);
        return;
      }
      var removed := RemoveRegistration(f);
      if removed {
        r := ReleaseFinalizer(f);
        return;
      }
      var elapsed := now - deletedAt;
      if elapsed < timeout {
        return RetryShort;
      }
      r := ReleaseFinalizer(f);
    }
  }

  // ----- Bounds -----

  /** The calls teardown depends on work; removing the registration may still fail. */
  predicate Reachable(f: Faults) {
    !f.platformRead && !f.namespaceRead && !f.grantRead && !f.grantGone && f.grantWrite == Written
  }

  /**
   At or past the deadline a pass whose platform, namespace and grant calls
   succeed releases the finalizer, even though the registration cannot be
   removed; before it, exactly when there is nothing to clean or it was removed.
   */
  lemma ReleasesWhen(s: State, now: nat, deletedAt: nat, timeout: nat, f: Faults)
    requires s.finalizer && Reachable(f)
    ensures var (t, r) := TeardownAfter(s, now, deletedAt, timeout, f);
            && (r == Released <==> !t.finalizer)
            && (r == Released <==>
                  || NothingToClean(s.platform, s.gateway) || !f.removal || WindowOver(now, deletedAt, timeout))
            && (r != Released ==> r == RetryShort)
            && (r == Released && t.registered && !NothingToClean(s.platform, s.gateway) ==>
                  WindowOver(now, deletedAt, timeout))
  {
  }

  /** The namespace to clean is there: a platform, a name for it, and a namespace that is not on its way out. */
  predicate CanClean(s: State) {
    && s.platform.Present? && (s.platform.published != "" || s.platform.configured != "")
    && s.gateway != Terminating && s.gateway != Gone
  }

  /** The lookup of that namespace works. */
  predicate LooksUp(s: State, f: Faults) {
    && !f.platformRead
    && (f.namespaceRead ==> s.platform.Absent? || (s.platform.published == "" && s.platform.configured == ""))
  }

  /** The pass gets as far as releasing the finalizer. */
  predicate GoesOn(s: State, now: nat, deletedAt: nat, timeout: nat, f: Faults) {
    s.finalizer && LooksUp(s, f) && (!CanClean(s) || !f.removal || now >= deletedAt + timeout)
  }

  /** How each pass ends and what it leaves, whichever of its calls fail. */
  lemma TeardownEndsAs(s: State, now: nat, deletedAt: nat, timeout: nat, f: Faults)
    ensures var (t, r) := TeardownAfter(s, now, deletedAt, timeout, f);
            var on := GoesOn(s, now, deletedAt, timeout, f);
            && (r == NothingToDo <==> !s.finalizer)
            && (r == RetryShort <==> s.finalizer && LooksUp(s, f) && !on)
            && (r == AlreadyGone <==> on && f.grantGone)
            && (r == Released <==> on && !f.grantGone && !f.grantRead && f.grantWrite == Written)
            && (r == RetryPromptly <==> on && !f.grantGone && !f.grantRead && f.grantWrite == Moved)
            && (t.finalizer <==> s.finalizer && r != Released)
            && (t.registered <==> s.registered && !(s.finalizer && LooksUp(s, f) && CanClean(s) && !f.removal))
            && t.platform == s.platform && t.gateway == s.gateway
  {
  }

  /** Passes of one grant on the requeue schedule: each starts no sooner than the delay the one before asked for. */
  ghost predicate OnSchedule(times: seq<nat>, deletedAt: nat) {
    && (times != [] ==> times[0] >= deletedAt)
    && forall i | 0 < i < |times| :: times[i] >= times[i - 1] + REQUEUE_SHORT
  }

  ghost predicate AllRetry(times: seq<nat>, states: seq<State>, faults: seq<Faults>, deletedAt: nat, timeout: nat) {
    && |states| == |faults| == |times|
    && forall i | 0 <= i < |times| :: TeardownAfter(states[i], times[i], deletedAt, timeout, faults[i]).1 == RetryShort
  }

  lemma {:induction false} ScheduleAdvances(times: seq<nat>, deletedAt: nat, i: nat)
    requires OnSchedule(times, deletedAt) && i < |times|
    ensures times[i] >= deletedAt + i * REQUEUE_SHORT
  {
    if i > 0 {
      ScheduleAdvances(times, deletedAt, i - 1);
    }
  }

  /**
   A deleted grant is retried at most ceil(timeout / 15 s) times, whatever the
   passes find and however often the operator restarts between them: the decision
   uses only the deletion time and the clock.
   */
  lemma RetriesBounded(times: seq<nat>, states: seq<State>, faults: seq<Faults>, deletedAt: nat, timeout: nat)
    requires OnSchedule(times, deletedAt) && AllRetry(times, states, faults, deletedAt, timeout)
    ensures |times| <= (timeout + REQUEUE_SHORT - 1) / REQUEUE_SHORT
  {
    if times != [] {
      var last := |times| - 1;
      ScheduleAdvances(times, deletedAt, last);
      assert TeardownAfter(states[last], times[last], deletedAt, timeout, faults[last]).1 == RetryShort;
      assert last * REQUEUE_SHORT < timeout;
    }
  }

  /**
   If passes come when they are asked for, the first within one delay of the
   deletion, and only the removal keeps failing, the finalizer is released less
   than one delay after the window closes.
   */
  lemma {:induction false} ReleasedInTime(times: seq<nat>, s: State, faults: seq<Faults>, deletedAt: nat, timeout: nat)
    requires s.finalizer && |faults| == |times| && times != []
    requires forall i | 0 <= i < |times| :: Reachable(faults[i])
    requires deletedAt <= times[0] < deletedAt + REQUEUE_SHORT
    requires forall i | 0 < i < |times| :: times[i] == times[i - 1] + REQUEUE_SHORT
    requires times[|times| - 1] >= deletedAt + timeout
    ensures exists i :: 0 <= i < |times| && times[i] < deletedAt + timeout + REQUEUE_SHORT
                        && TeardownAfter(s, times[i], deletedAt, timeout, faults[i]).1 == Released
    decreases |times|
  {
    var last := |times| - 1;
    ReleasesWhen(s, times[last], deletedAt, timeout, faults[last]);
    if times[last] >= deletedAt + timeout + REQUEUE_SHORT {
      assert last > 0 && times[last - 1] == times[last] - REQUEUE_SHORT;
      ReleasedInTime(times[..last], s, faults[..last], deletedAt, timeout);
    }
  }
}
