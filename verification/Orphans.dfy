/**
 No orphan registration: sessions, the platform and the gateway namespace, with
 one pass under way per key and everything else free to happen between its calls.
 */
module Orphans {
  import opened Common
  import Registration
  import Session
  import Teardown

  datatype Platform =
    | NoPlatform
    | New                 // declared, its finalizer not yet added
    | Live
    | Deleting
    | Drained             // the namespace deletion was accepted; the finalizer is still there

  datatype Grant = Grant(finalizer: bool, deletedAt: Option<nat>)

  /** What the pass holding a session's key is about to do. */
  datatype Worker =
    | Registering
    | Removing
    | Releasing(gaveUp: bool)

  datatype Release = Release(deletedAt: nat, releasedAt: nat)

  datatype System = System(
    platform: Platform,
    gateway: Phase,
    grants: map<string, Grant>,
    registrations: set<string>,
    workers: map<string, Worker>,
    gaveUp: map<string, Release>,   // the release that left the registration there is
    now: nat,
    timeout: nat)

  datatype Step =
    | CreateGrant(id: string)
    | DeleteGrant(id: string)
    | BeginPass(id: string)              // adds the finalizer and reads the platform
    | WriteRegistration(id: string)
    | BeginTeardown(id: string)          // reads the platform and the gateway namespace
    | RemoveRegistration(id: string, fails: bool)
    | ReleaseGrant(id: string)
    | Abandon(id: string)                // any call of the pass fails
    | LoseRegistration(id: string)       // the expiry sweep, or anyone else
    | Tick
    | CreatePlatform
    | AddPlatformFinalizer
    | EnsureNamespace
    | DeletePlatform
    | DrainNamespace
    | ReleasePlatform
    | DeleteNamespace                    // by anyone
    | NamespaceGone

  function Seen(p: Platform): Teardown.Platform {
    if p.NoPlatform? then Teardown.Absent else Teardown.Present("agentgateway-system", "agentgateway-system")
  }

  function Unhold(s: System, id: string): System {
    s.(workers := s.workers - {id})
  }

  function Hold(s: System, id: string, w: Worker): System {
    s.(workers := s.workers[id := w])
  }

  function SessionStep(s: System, step: Step): System {
    match step
    case CreateGrant(id) =>
      if id in s.grants then s else s.(grants := s.grants[id := Grant(false, None)])
    case DeleteGrant(id) =>
      if id !in s.grants || s.grants[id].deletedAt.Some? then s
      else if s.grants[id].finalizer then s.(grants := s.grants[id := Grant(true, Some(s.now))])
      else s.(grants := s.grants - {id})
    case BeginPass(id) =>
      if id !in s.grants || id in s.workers || s.grants[id].deletedAt.Some? then s
      else
        var held := s.(grants := s.grants[id := Grant(true, None)]);
        if s.platform.NoPlatform? then held else Hold(held, id, Registering)
    case WriteRegistration(id) =>
      if id !in s.workers || s.workers[id] != Registering then s
      else if s.gateway == Active
      then Unhold(s.(registrations := s.registrations + {id}, gaveUp := s.gaveUp - {id}), id)
      else Unhold(s, id)
    case BeginTeardown(id) =>
      if id !in s.grants || id in s.workers || s.grants[id].deletedAt.None? then s
      else if Teardown.NothingToClean(Seen(s.platform), s.gateway) then Hold(s, id, Releasing(false))
      else Hold(s, id, Removing)
    case RemoveRegistration(id, fails) =>
      if id !in s.workers || s.workers[id] != Removing || id !in s.grants || s.grants[id].deletedAt.None? then s
      else if !fails
      then Hold(s.(registrations := s.registrations - {id}, gaveUp := s.gaveUp - {id}), id, Releasing(false))
      else if Teardown.WindowOver(s.now, s.grants[id].deletedAt.value, s.timeout) then Hold(s, id, Releasing(true))
      else Unhold(s, id)
    case ReleaseGrant(id) =>
      if id !in s.workers || !s.workers[id].Releasing? || id !in s.grants || s.grants[id].deletedAt.None? then s
      else
        var out := Unhold(s.(grants := s.grants - {id}), id);
        if s.workers[id].gaveUp && id in s.registrations
        then out.(gaveUp := s.gaveUp[id := Release(s.grants[id].deletedAt.value, s.now)])
        else out.(gaveUp := s.gaveUp - {id})
    case Abandon(id) => Unhold(s, id)
    case LoseRegistration(id) => s.(registrations := s.registrations - {id}, gaveUp := s.gaveUp - {id})
    case Tick => s.(now := s.now + 1)
    case _ => s
  }

  function PlatformStep(s: System, step: Step): System {
    match step
    case CreatePlatform => if s.platform.NoPlatform? then s.(platform := New) else s
    case AddPlatformFinalizer => if s.platform.New? then s.(platform := Live) else s
    case EnsureNamespace =>
      if (s.platform.Live? || s.platform.Deleting?) && s.gateway == Gone then s.(gateway := Active) else s
    case DeletePlatform =>
      if s.platform.New? then s.(platform := NoPlatform)
      else if s.platform.Live? then s.(platform := Deleting)
      else s
    case DrainNamespace =>
      if s.platform.Deleting?
      then s.(platform := Drained, gateway := if s.gateway == Active then Terminating else s.gateway) else s
    case ReleasePlatform => if s.platform.Drained? then s.(platform := NoPlatform) else s
    case DeleteNamespace => if s.gateway == Active then s.(gateway := Terminating) else s
    case NamespaceGone =>
      if s.gateway == Terminating then s.(gateway := Gone, registrations := {}, gaveUp := map[]) else s
    case _ => s
  }

  function Apply(s: System, step: Step): System {
    PlatformStep(SessionStep(s, step), step)
  }

  function Run(s: System, steps: seq<Step>): System
    decreases |steps|
  {
    if steps == [] then s else Run(Apply(s, steps[0]), steps[1..])
  }

  predicate Init(s: System) {
    && s.platform == NoPlatform && s.gateway == Gone
    && s.grants == map[] && s.registrations == {} && s.workers == map[] && s.gaveUp == map[]
  }

  // ----- The invariant -----

  predicate Held(s: System, id: string) {
    id in s.grants && s.grants[id].finalizer
  }

  ghost predicate WorkerGood(s: System, id: string)
    requires id in s.workers
  {
    && Held(s, id)
    && match s.workers[id]
       case Registering => true
       case Removing => s.grants[id].deletedAt.Some?
       case Releasing(gaveUp) =>
         && s.grants[id].deletedAt.Some?
         && (!gaveUp ==> id !in s.registrations || s.gateway != Active)
         && (gaveUp ==> Teardown.WindowOver(s.now, s.grants[id].deletedAt.value, s.timeout))
  }

  /** A gateway namespace is active only under a platform whose finalizer still stands. */
  predicate PlatformGood(s: System) {
    && (s.gateway == Active ==> s.platform.Live? || s.platform.Deleting?)
    && (s.gateway == Gone ==> s.registrations == {})
  }

  ghost predicate SessionGood(s: System, id: string) {
    && (id in s.workers ==> WorkerGood(s, id))
    && (id in s.grants && s.grants[id].deletedAt.Some? ==>
          s.grants[id].finalizer && s.grants[id].deletedAt.value <= s.now)
    && (id in s.gaveUp ==> s.gaveUp[id].releasedAt - s.gaveUp[id].deletedAt >= s.timeout && id in s.registrations)
    && (s.gateway == Active && id in s.registrations ==> Held(s, id) || id in s.gaveUp)
  }

  ghost predicate Inv(s: System) {
    PlatformGood(s) && forall id :: SessionGood(s, id)
  }

  /** The steps that concern one session only. */
  predicate Concerns(step: Step, id: string) {
    match step
    case CreateGrant(i) => i == id
    case DeleteGrant(i) => i == id
    case BeginPass(i) => i == id
    case WriteRegistration(i) => i == id
    case BeginTeardown(i) => i == id
    case RemoveRegistration(i, _) => i == id
    case ReleaseGrant(i) => i == id
    case Abandon(i) => i == id
    case LoseRegistration(i) => i == id
    case _ => false
  }

  /** The other sessions are not touched. */
  lemma SessionStepFrame(s: System, step: Step, id: string)
    requires !Concerns(step, id)
    ensures var t := SessionStep(s, step);
            && (id in t.grants <==> id in s.grants) && (id in s.grants ==> t.grants[id] == s.grants[id])
            && (id in t.workers <==> id in s.workers) && (id in s.workers ==> t.workers[id] == s.workers[id])
            && (id in t.gaveUp <==> id in s.gaveUp) && (id in s.gaveUp ==> t.gaveUp[id] == s.gaveUp[id])
            && (id in t.registrations <==> id in s.registrations)
            && t.now >= s.now && t.timeout == s.timeout && t.gateway == s.gateway && t.platform == s.platform
  {
  }

  lemma ConcernedGood(s: System, step: Step, id: string)
    requires PlatformGood(s) && SessionGood(s, id) && Concerns(step, id)
    ensures SessionGood(SessionStep(s, step), id)
  {
    match step
    case BeginTeardown(_) =>
    case RemoveRegistration(_, _) =>
    case ReleaseGrant(_) =>
    case _ =>
  }

  lemma SessionStepKeeps(s: System, step: Step)
    requires Inv(s)
    ensures Inv(SessionStep(s, step))
  {
    forall id ensures SessionGood(SessionStep(s, step), id) {
      assert SessionGood(s, id);
      if Concerns(step, id) {
        ConcernedGood(s, step, id);
      } else {
        SessionStepFrame(s, step, id);
      }
    }
  }

  lemma PlatformStepKeeps(s: System, step: Step)
    requires Inv(s)
    ensures Inv(PlatformStep(s, step))
  {
    forall id ensures SessionGood(PlatformStep(s, step), id) {
      assert SessionGood(s, id);
    }
  }

  lemma StepKeeps(s: System, step: Step)
    requires Inv(s)
    ensures Inv(Apply(s, step)) && Apply(s, step).timeout == s.timeout
  {
    SessionStepKeeps(s, step);
    PlatformStepKeeps(SessionStep(s, step), step);
  }

  lemma {:induction false} InvHolds(s: System, steps: seq<Step>)
    requires Inv(s)
    ensures Inv(Run(s, steps)) && Run(s, steps).timeout == s.timeout
    decreases |steps|
  {
    if steps != [] {
      StepKeeps(s, steps[0]);
      InvHolds(Apply(s, steps[0]), steps[1..]);
    }
  }

  /**
   No orphan registration. In every reachable state a registration in an active
   gateway namespace belongs to a grant that still exists with its finalizer, or
   was left there by the last release of its name, after the whole give-up window:
   a rewriting, a removal or any other release of the name clears that record. And
   teardown's reading of "no platform" as "nothing to clean" is sound.
   */
  lemma NoOrphans(s: System, steps: seq<Step>)
    requires Init(s)
    ensures var t := Run(s, steps);
            && (t.platform.NoPlatform? ==> t.gateway != Active)
            && t.gaveUp.Keys <= t.registrations
            && (t.gateway == Active ==> forall id | id in t.registrations ::
                  (id in t.grants && t.grants[id].finalizer)
                  || (id in t.gaveUp && t.gaveUp[id].releasedAt - t.gaveUp[id].deletedAt >= s.timeout))
  {
    InvHolds(s, steps);
    var t := Run(s, steps);
    forall id | id in t.gaveUp ensures id in t.registrations {
      assert SessionGood(t, id);
    }
    forall id | t.gateway == Active && id in t.registrations
      ensures Held(t, id) || (id in t.gaveUp && t.gaveUp[id].releasedAt - t.gaveUp[id].deletedAt >= s.timeout)
    {
      assert SessionGood(t, id);
    }
  }

  /**
   The platform's part is needed. Were the platform gone while its namespace is
   still active, teardown would read that as nothing to clean and leave the
   registration behind.
   */
  lemma OrphanedWithoutDrain(s: System, id: string)
    requires s.platform.NoPlatform? && s.gateway == Active
    requires id in s.grants && s.grants[id].deletedAt.Some? && id !in s.workers && id in s.registrations
    ensures var t := Run(s, [BeginTeardown(id), ReleaseGrant(id)]);
            t.gateway == Active && id in t.registrations && id !in t.grants && id !in t.gaveUp
  {
    var steps := [BeginTeardown(id), ReleaseGrant(id)];
    assert steps[1..] == [ReleaseGrant(id)] && steps[1..][1..] == [];
    assert Run(s, steps) == Run(Apply(s, BeginTeardown(id)), steps[1..])
        == Run(Apply(Apply(s, BeginTeardown(id)), ReleaseGrant(id)), []);
  }

  // ----- The steps are those of the passes -----

  /** Writing the registration: it is there afterwards exactly when the session pass's own step leaves it there. */
  lemma WriteAgrees(s: System, id: string, pass: Session.State, desired: Registration.Entry)
    requires id in s.workers && s.workers[id] == Registering
    requires pass.gatewayNamespace == s.gateway && (pass.registration.Some? <==> id in s.registrations)
    ensures var t := SessionStep(s, WriteRegistration(id));
            var (after, _) := Session.RegistrationAfter(pass, id, desired, Session.NO_FAULTS);
            (id in t.registrations <==> after.registration.Some?) && id !in t.workers
  {
  }

  /** The three teardown steps of a deleted grant, taken together, are one teardown pass. */
  lemma TeardownAgrees(s: System, id: string, fails: bool)
    requires id in s.grants && s.grants[id] == Grant(true, s.grants[id].deletedAt) && s.grants[id].deletedAt.Some?
    requires id !in s.workers
    ensures var before := Teardown.State(Seen(s.platform), s.gateway, id in s.registrations, true);
            var faults := Teardown.Faults(false, false, fails, false, false, Teardown.Written);
            var (after, r) := Teardown.TeardownAfter(before, s.now, s.grants[id].deletedAt.value, s.timeout, faults);
            var begun := SessionStep(s, BeginTeardown(id));
            var cleaned := SessionStep(begun, RemoveRegistration(id, fails));
            var t := SessionStep(cleaned, ReleaseGrant(id));
            && (id in t.grants <==> after.finalizer)
            && (id in t.registrations <==> after.registered)
            && id !in t.workers
  {
    var begun := SessionStep(s, BeginTeardown(id));
    var cleaned := SessionStep(begun, RemoveRegistration(id, fails));
    assert cleaned.grants == s.grants && cleaned.now == s.now;
  }
}
