/**
 Tearing a platform down (internal/controller/agentgatewayplatform_teardown.go):
 an ordered drain, cut short anywhere and retried, before the finalizer goes.
 */
module Drain {
  import opened Common

  datatype Provider = Bundled | External

  /** An object that carries this operator's label, or does not. */
  datatype Label = Managed | Unmanaged

  /** What is in the gateway namespace, the namespace itself, and the platform's finalizer. */
  datatype Store = Store(
    policy: bool,
    gateway: bool,
    legacyGateway: Option<Label>,
    parameters: bool,
    models: map<string, Label>,
    releases: set<string>,
    namespace: Phase,
    finalizer: bool)

  const RATE_LIMIT: string := "agentgateway-ratelimit"
  const AGENTGATEWAY: string := "agentgateway"
  const AGENTGATEWAY_CRDS: string := "agentgateway-crds"

  datatype Step =
    | DropPolicy
    | DropGateway
    | DropLegacyGateway
    | DropParameters
    | DropModels
    | Uninstall(release: string)
    | DropNamespace
    | DropFinalizer

  function ManagedModels(models: map<string, Label>): set<string> {
    set n | n in models && models[n].Managed?
  }

  /** Deleting what is not there is a success that changes nothing. */
  function Do(s: Store, step: Step): Store {
    match step
    case DropPolicy => s.(policy := false)
    case DropGateway => s.(gateway := false)
    case DropLegacyGateway => if s.legacyGateway == Some(Managed) then s.(legacyGateway := None) else s
    case DropParameters => s.(parameters := false)
    case DropModels => s.(models := s.models - ManagedModels(s.models))
    case Uninstall(release) => s.(releases := s.releases - {release})
    case DropNamespace => if s.namespace.Active? then s.(namespace := Terminating) else s
    case DropFinalizer => s.(finalizer := false)
  }

  function DoAll(s: Store, steps: seq<Step>): Store {
    if steps == [] then s else Do(DoAll(s, steps[..|steps| - 1]), steps[|steps| - 1])
  }

  /** The strict reverse of the install order. */
  function Plan(provider: Provider): seq<Step> {
    match provider
    case External => [DropPolicy, DropGateway, DropLegacyGateway, DropParameters, DropModels, DropFinalizer]
    case Bundled =>
      [DropPolicy, DropGateway, DropLegacyGateway, DropParameters, DropModels,
       Uninstall(RATE_LIMIT), Uninstall(AGENTGATEWAY), Uninstall(AGENTGATEWAY_CRDS), DropNamespace, DropFinalizer]
  }

  /** A drain of the plan that stopped somewhere, perhaps among the models. */
  ghost predicate Stopped(before: Store, plan: seq<Step>, after: Store) {
    exists k: nat, gone :: StoppedAt(before, plan, after, k, gone)
  }

  ghost predicate StoppedAt(before: Store, plan: seq<Step>, after: Store, k: nat, gone: set<string>) {
    && k <= |plan|
    && var reached := DoAll(before, plan[..k]);
       && after == reached.(models := reached.models - gone)
       && gone <= ManagedModels(reached.models)
       && (gone != {} ==> k < |plan| && plan[k] == DropModels)
  }

  /** What one pass may make of a store: nothing without the finalizer. */
  ghost predicate Next(provider: Provider, a: Store, b: Store) {
    if a.finalizer then Stopped(a, Plan(provider), b) else b == a
  }

  // ----- One pass -----

  class Drainer {
    var s: Store
    var calls: nat      // calls that succeed before the first failure
    const lost: bool    // whether the failing call took effect all the same

    constructor (s: Store, calls: nat, lost: bool)
      ensures this.s == s && this.calls == calls && this.lost == lost
    {
      this.s := s;
      this.calls := calls;
      this.lost := lost;
    }

    method Call(step: Step, ghost before: Store, ghost plan: seq<Step>, ghost k: nat) returns (ok: bool)
      requires k < |plan| && plan[k] == step && s == DoAll(before, plan[..k])
      modifies this
      ensures ok <==> old(calls) > 0
      ensures step != DropModels ==> s.models == old(s).models
      ensures ok ==> calls == old(calls) - 1 && s == DoAll(before, plan[..k + 1])
      ensures s == old(s) || s == Do(old(s), step)
      ensures !s.finalizer && old(s).finalizer ==> step == DropFinalizer && (ok || lost)
      ensures step == DropFinalizer && (ok || lost) ==> !s.finalizer
      ensures Stopped(before, plan, s)
    {
      ok := calls > 0;
      if ok || lost {
        s := Do(s, step);
      }
      if ok {
        calls := calls - 1;
      }
      OneStepOn(before, plan, k);
    }

    /** What the operator creates directly, as opposed to through Helm. */
    method DrainConfiguration(ghost before: Store, ghost plan: seq<Step>) returns (ok: bool)
      requires |plan| > 5 && plan[0] == DropPolicy && plan[1] == DropGateway && plan[2] == DropLegacyGateway
      requires plan[3] == DropParameters && plan[4] == DropModels
      requires s == before
      modifies this
      ensures ok ==> s == DoAll(before, plan[..5])
      ensures s.finalizer == before.finalizer
      ensures ok <==> old(calls) >= 4 + |ManagedModels(before.models)|
      ensures ok ==> calls == old(calls) - 4 - |ManagedModels(before.models)|
      ensures Stopped(before, plan, s)
    {
      ok := Call(DropPolicy, before, plan, 0);
      if ok {
        ok := Call(DropGateway, before, plan, 1);
      }
      if ok {
        ok := Call(DropLegacyGateway, before, plan, 2);
      }
      if ok {
        ok := Call(DropParameters, before, plan, 3);
      }
      if ok {
        ok := DrainModels(before, plan, 4);
      }
    }

    /** The releases in reverse install order, then the namespace. */
    method DrainReleases(ghost before: Store, ghost plan: seq<Step>) returns (ok: bool)
      requires |plan| > 9
      requires plan[5] == Uninstall(RATE_LIMIT) && plan[6] == Uninstall(AGENTGATEWAY)
      requires plan[7] == Uninstall(AGENTGATEWAY_CRDS) && plan[8] == DropNamespace
      requires s == DoAll(before, plan[..5])
      modifies this
      ensures ok ==> s == DoAll(before, plan[..9]) && calls == old(calls) - 4
      ensures ok <==> old(calls) >= 4
      ensures s.finalizer == old(s).finalizer
      ensures Stopped(before, plan, s)
    {
      ok := Call(Uninstall(RATE_LIMIT), before, plan, 5);
      if ok {
        ok := Call(Uninstall(AGENTGATEWAY), before, plan, 6);
      }
      if ok {
        ok := Call(Uninstall(AGENTGATEWAY_CRDS), before, plan, 7);
      }
      if ok {
        ok := Call(DropNamespace, before, plan, 8);
      }
    }

    /**
     A deleted platform's pass. Failing to read the platform back before the last
     step ends the pass quietly, with the finalizer still there and no retry asked for.
     */
    method ReconcileDelete(provider: Provider, readable: bool) returns (ok: bool)
      modifies this
      ensures Next(provider, old(s), s)
      ensures old(s).finalizer ==>
                (!s.finalizer <==> readable && Cost(provider, old(s)) <= old(calls) + if lost then 1 else 0)
      ensures ok && s.finalizer <==> old(s).finalizer && !readable && Cost(provider, old(s)) <= old(calls) + 1
      ensures !ok ==> old(calls) < Cost(provider, old(s))
    {
      ghost var before, plan := s, Plan(provider);
      if !s.finalizer {
        return true;
      }
      ghost var n := |plan| - 1;
      ok := DrainConfiguration(before, plan);
      if ok && provider.Bundled? {
        ok := DrainReleases(before, plan);
      }
      if !ok {
        return false;
      }
      if !readable {
        StopsHere(before, plan, n);
        return true;
      }
      assert plan[..n + 1] == plan;
      ok := Call(DropFinalizer, before, plan, n);
    }

    /** The models are found by label; each deletion is a call of its own. */
    method DrainModels(ghost before: Store, ghost plan: seq<Step>, ghost k: nat) returns (ok: bool)
      requires k < |plan| && plan[k] == DropModels && s == DoAll(before, plan[..k])
      modifies this
      ensures ok ==> s == DoAll(before, plan[..k + 1])
      ensures s.finalizer == old(s).finalizer
      ensures ok <==> old(calls) >= |ManagedModels(old(s).models)|
      ensures ok ==> calls == old(calls) - |ManagedModels(old(s).models)|
      ensures Stopped(before, plan, s)
    {
      ghost var reached := s;
      ghost var gone;
      ok, gone := DeleteModels(ManagedModels(s.models));
      assert plan[..k + 1][..k] == plan[..k];
      assert StoppedAt(before, plan, s, if ok then k + 1 else k, if ok then {} else gone) by {
        assert s.models - {} == s.models;
      }
    }

    method DeleteModel(n: string) returns (ok: bool)
      modifies this
      ensures ok <==> old(calls) > 0
      ensures ok ==> calls == old(calls) - 1
      ensures s == if ok || lost then old(s).(models := old(s).models - {n}) else old(s)
    {
      ok := calls > 0;
      if ok || lost {
        s := s.(models := s.models - {n});
      }
      if ok {
        calls := calls - 1;
      }
    }

    method DeleteModels(listed: set<string>) returns (ok: bool, ghost gone: set<string>)
      modifies this
      ensures gone <= listed && s == old(s).(models := old(s).models - gone)
      ensures ok ==> gone == listed && calls == old(calls) - |listed|
      ensures ok <==> |listed| <= old(calls)
    {
      ghost var was, start := s, calls;
      var left := listed;
      assert was.models - (listed - left) == was.models;
      while left != {}
        invariant left <= listed
        invariant s == was.(models := was.models - (listed - left))
        invariant calls == start - |listed| + |left|
        decreases |left|
      {
        var n :| n in left;
        TakeOne(was.models, listed, left, n);
        ok := DeleteModel(n);
        if !ok {
          return false, listed - if lost then left - {n} else left;
        }
        left := left - {n};
      }
      return true, listed;
    }
  }

  lemma TakeOne<K, V>(m: map<K, V>, all: set<K>, left: set<K>, n: K)
    requires n in left && left <= all
    ensures m - (all - left) - {n} == m - (all - (left - {n}))
  {
  }

  /**
   At an input: every call works, the platform cannot be read back, and the pass
   reports success over a standing finalizer.
   */
  method LeftQuietly(models: map<string, Label>) returns (ok: bool, finalizer: bool)
    ensures ok && finalizer
  {
    var releases := {RATE_LIMIT, AGENTGATEWAY, AGENTGATEWAY_CRDS};
    var s := Store(true, true, None, true, models, releases, Active, true);
    var drainer := new Drainer(s, 9 + |ManagedModels(models)|, false);
    ok := drainer.ReconcileDelete(Bundled, false);
    finalizer := drainer.s.finalizer;
  }

  /** The calls a whole drain makes: one for each step but the models', and one for each labelled model. */
  function Cost(provider: Provider, s: Store): nat {
    |Plan(provider)| - 1 + |ManagedModels(s.models)|
  }

  lemma OneStepOn(before: Store, plan: seq<Step>, k: nat)
    requires k < |plan|
    ensures Do(DoAll(before, plan[..k]), plan[k]) == DoAll(before, plan[..k + 1])
    ensures Stopped(before, plan, DoAll(before, plan[..k]))
    ensures Stopped(before, plan, DoAll(before, plan[..k + 1]))
  {
    assert plan[..k + 1][..k] == plan[..k];
    StopsHere(before, plan, k);
    StopsHere(before, plan, k + 1);
  }

  lemma StopsHere(before: Store, plan: seq<Step>, k: nat)
    requires k <= |plan|
    ensures Stopped(before, plan, DoAll(before, plan[..k]))
  {
    var s := DoAll(before, plan[..k]);
    assert s.models - {} == s.models;
    assert StoppedAt(before, plan, s, k, {});
  }

  // ----- What the operator owns -----

  datatype Thing =
    | PolicyObject
    | GatewayObject
    | LegacyObject
    | ParametersObject
    | ModelObject(name: string)
    | HelmRelease(name: string)
    | ActiveNamespace

  /** The operator's objects; other people's models, legacy Gateway and releases are not among them. */
  ghost predicate Owns(s: Store, t: Thing) {
    match t
    case PolicyObject => s.policy
    case GatewayObject => s.gateway
    case LegacyObject => s.legacyGateway == Some(Managed)
    case ParametersObject => s.parameters
    case ModelObject(n) => n in s.models && s.models[n].Managed?
    case HelmRelease(n) => n in s.releases && n in {RATE_LIMIT, AGENTGATEWAY, AGENTGATEWAY_CRDS}
    case ActiveNamespace => s.namespace.Active?
  }

  ghost predicate Foreign(s: Store, t: Thing) {
    match t
    case LegacyObject => s.legacyGateway == Some(Unmanaged)
    case ModelObject(n) => n in s.models && s.models[n].Unmanaged?
    case HelmRelease(n) => n in s.releases && n !in {RATE_LIMIT, AGENTGATEWAY, AGENTGATEWAY_CRDS}
    case _ => false
  }

  /** The whole of a step's effect on one thing. */
  ghost predicate Removes(step: Step, t: Thing) {
    match step
    case DropPolicy => t == PolicyObject
    case DropGateway => t == GatewayObject
    case DropLegacyGateway => t == LegacyObject
    case DropParameters => t == ParametersObject
    case DropModels => t.ModelObject?
    case Uninstall(release) => t == HelmRelease(release)
    case DropNamespace => t == ActiveNamespace
    case DropFinalizer => false
  }

  predicate InPlan(step: Step) {
    step.Uninstall? ==> step.release in {RATE_LIMIT, AGENTGATEWAY, AGENTGATEWAY_CRDS}
  }

  lemma StepRemoves(s: Store, step: Step, t: Thing)
    requires InPlan(step)
    ensures Owns(Do(s, step), t) <==> Owns(s, t) && !Removes(step, t)
    ensures Foreign(Do(s, step), t) <==> Foreign(s, t)
    ensures Do(s, step).finalizer <==> s.finalizer && step != DropFinalizer
  {
  }

  lemma {:induction false} StepsRemove(s: Store, steps: seq<Step>, t: Thing)
    requires forall step | step in steps :: InPlan(step)
    ensures Owns(DoAll(s, steps), t) <==> Owns(s, t) && forall step | step in steps :: !Removes(step, t)
    ensures Foreign(DoAll(s, steps), t) <==> Foreign(s, t)
    ensures DoAll(s, steps).finalizer <==> s.finalizer && DropFinalizer !in steps
  {
    if steps != [] {
      var init, last := steps[..|steps| - 1], steps[|steps| - 1];
      assert steps == init + [last];
      StepsRemove(s, init, t);
      StepRemoves(DoAll(s, init), last, t);
    }
  }

  /** Installed by the operator whichever provider is set, or only by a bundled one. */
  predicate BundledOnly(t: Thing) {
    t.HelmRelease? || t.ActiveNamespace?
  }

  lemma PlanRemoves(provider: Provider, s: Store, t: Thing)
    requires Owns(s, t)
    ensures (exists step :: step in Plan(provider) && Removes(step, t)) <==> provider.Bundled? || !BundledOnly(t)
  {
    var step :=
      match t
      case PolicyObject => DropPolicy
      case GatewayObject => DropGateway
      case LegacyObject => DropLegacyGateway
      case ParametersObject => DropParameters
      case ModelObject(_) => DropModels
      case HelmRelease(n) => Uninstall(n)
      case ActiveNamespace => DropNamespace;
    assert Removes(step, t);
    assert provider.Bundled? || !BundledOnly(t) <==> step in Plan(provider) by {
      OnlyBundledPlan(step);
    }
  }

  lemma OnlyBundledPlan(step: Step)
    requires InPlan(step)
    ensures step in Plan(Bundled)
    ensures step in Plan(External) <==> !step.Uninstall? && step != DropNamespace
  {
    var b, e := Plan(Bundled), Plan(External);
    assert b[0] == DropPolicy && b[1] == DropGateway && b[2] == DropLegacyGateway;
    assert b[3] == DropParameters && b[4] == DropModels;
    assert b[5] == Uninstall(RATE_LIMIT) && b[6] == Uninstall(AGENTGATEWAY) && b[7] == Uninstall(AGENTGATEWAY_CRDS);
    assert b[8] == DropNamespace && b[9] == DropFinalizer;
    assert e[0] == DropPolicy && e[1] == DropGateway && e[2] == DropLegacyGateway;
    assert e[3] == DropParameters && e[4] == DropModels;
    assert e[5] == DropFinalizer;
  }

  lemma FinalizerIsLast(provider: Provider, k: nat)
    requires k <= |Plan(provider)|
    ensures DropFinalizer in Plan(provider)[..k] <==> k == |Plan(provider)|
    ensures forall step | step in Plan(provider)[..k] :: InPlan(step) && step in Plan(provider)
  {
    var plan := Plan(provider);
    assert plan[|plan| - 1] == DropFinalizer;
    assert forall i | 0 <= i < |plan| - 1 :: plan[i] != DropFinalizer;
  }

  /**
   One pass, wherever it stops: it adds nothing, leaves what is not the operator's, and
   finishes only when it finished everything.
   */
  lemma PassEffect(provider: Provider, a: Store, b: Store, t: Thing)
    requires Next(provider, a, b)
    ensures Owns(b, t) ==> Owns(a, t)
    ensures Foreign(b, t) <==> Foreign(a, t)
    ensures provider.External? && BundledOnly(t) ==> (Owns(b, t) <==> Owns(a, t))
    ensures a.finalizer && !b.finalizer && Owns(b, t) ==> provider.External? && BundledOnly(t)
    ensures b.finalizer ==> a.finalizer
  {
    if a.finalizer {
      var plan := Plan(provider);
      var k: nat, gone :| StoppedAt(a, plan, b, k, gone);
      FinalizerIsLast(provider, k);
      StepsRemove(a, plan[..k], t);
      if Owns(a, t) {
        PlanRemoves(provider, a, t);
        assert plan[..|plan|] == plan;
      }
    }
  }

  /** The place of a thing in the drain order, the reverse of the order it is installed in. */
  function Rank(t: Thing): nat {
    match t
    case PolicyObject => 0
    case GatewayObject => 1
    case LegacyObject => 2
    case ParametersObject => 3
    case ModelObject(_) => 4
    case HelmRelease(n) => if n == RATE_LIMIT then 5 else if n == AGENTGATEWAY then 6 else 7
    case ActiveNamespace => 8
  }

  lemma PlanFollowsRank(provider: Provider, i: nat, s: Store, t: Thing)
    requires i < |Plan(provider)| && Owns(s, t)
    ensures Removes(Plan(provider)[i], t) <==> i == Rank(t) && (provider.Bundled? || !BundledOnly(t))
  {
  }

  lemma PassInOrder(provider: Provider, a: Store, b: Store, t: Thing, earlier: Thing)
    requires Next(provider, a, b)
    requires Owns(a, t) && !Owns(b, t) && Rank(earlier) < Rank(t)
    ensures !Owns(b, earlier)
  {
    var plan := Plan(provider);
    var k: nat, gone :| StoppedAt(a, plan, b, k, gone);
    FinalizerIsLast(provider, k);
    StepsRemove(a, plan[..k], earlier);
    if Owns(a, earlier) {
      RanThrough(provider, a, b, t, k, gone);
      PlanFollowsRank(provider, Rank(earlier), a, earlier);
      assert plan[Rank(earlier)] in plan[..k];
    }
  }

  /** What is no longer there was reached. */
  lemma RanThrough(provider: Provider, a: Store, b: Store, t: Thing, k: nat, gone: set<string>)
    requires StoppedAt(a, Plan(provider), b, k, gone)
    requires Owns(a, t) && !Owns(b, t)
    ensures Rank(t) <= k && (provider.Bundled? || !BundledOnly(t))
  {
    var plan := Plan(provider);
    FinalizerIsLast(provider, k);
    StepsRemove(a, plan[..k], t);
    if !Owns(DoAll(a, plan[..k]), t) {
      var step :| step in plan[..k] && Removes(step, t);
      var i :| 0 <= i < k && plan[i] == step;
      PlanFollowsRank(provider, i, a, t);
    } else {
      assert t.ModelObject? && k < |plan| && plan[k] == DropModels;
    }
  }

  // ----- Whole runs -----

  /** The namespace controller finishes: whatever was inside is gone. */
  ghost predicate Collected(a: Store, b: Store) {
    a.namespace.Terminating? && b == Store(false, false, None, false, map[], {}, Gone, a.finalizer)
  }

  ghost predicate Run(provider: Provider, trace: seq<Store>) {
    && trace != []
    && forall i | 0 <= i < |trace| - 1 :: Next(provider, trace[i], trace[i + 1]) || Collected(trace[i], trace[i + 1])
  }

  /** However many passes failed, and wherever, nothing the operator owns comes back. */
  lemma {:induction false} OwnedNeverGrows(provider: Provider, trace: seq<Store>, t: Thing)
    requires Run(provider, trace) && Owns(trace[|trace| - 1], t)
    ensures Owns(trace[0], t)
    decreases |trace|
  {
    var n := |trace| - 1;
    if n > 0 {
      if Next(provider, trace[n - 1], trace[n]) {
        PassEffect(provider, trace[n - 1], trace[n], t);
      }
      OwnedNeverGrows(provider, trace[..n], t);
    }
  }

  /**
   A run that released the finalizer left nothing of the operator's: with a
   bundled gateway not even a release or an undeleted namespace, with an external
   one nothing but the namespace and releases that were never this operator's to remove.
   */
  lemma {:induction false} ReleasedOnlyWhenDrained(provider: Provider, trace: seq<Store>, t: Thing)
    requires Run(provider, trace) && trace[0].finalizer && !trace[|trace| - 1].finalizer
    ensures Owns(trace[|trace| - 1], t) ==> provider.External? && BundledOnly(t)
    decreases |trace|
  {
    var n := |trace| - 1;
    if Next(provider, trace[n - 1], trace[n]) {
      PassEffect(provider, trace[n - 1], trace[n], t);
    }
    if !trace[n - 1].finalizer {
      ReleasedOnlyWhenDrained(provider, trace[..n], t);
    }
  }

  /**
   Hand-written models, an unlabelled legacy Gateway and other releases outlive every
   drain step; only the namespace takes them.
   */
  lemma {:induction false} ForeignOutlivesTheDrain(provider: Provider, trace: seq<Store>, t: Thing)
    requires Run(provider, trace) && !trace[|trace| - 1].namespace.Gone?
    ensures Foreign(trace[|trace| - 1], t) <==> Foreign(trace[0], t)
    decreases |trace|
  {
    var n := |trace| - 1;
    if n > 0 {
      PassEffect(provider, trace[n - 1], trace[n], t);
      PassKeepsGone(provider, trace[n - 1], trace[n]);
      ForeignOutlivesTheDrain(provider, trace[..n], t);
    }
  }

  lemma PassKeepsGone(provider: Provider, a: Store, b: Store)
    requires Next(provider, a, b)
    ensures b.namespace.Gone? <==> a.namespace.Gone?
  {
    if a.finalizer {
      var plan := Plan(provider);
      var k: nat, gone :| StoppedAt(a, plan, b, k, gone);
      StepsKeepGone(a, plan[..k]);
    }
  }

  lemma {:induction false} StepsKeepGone(s: Store, steps: seq<Step>)
    ensures DoAll(s, steps).namespace.Gone? <==> s.namespace.Gone?
  {
    if steps != [] {
      var init := steps[..|steps| - 1];
      StepsKeepGone(s, init);
      StepKeepsGone(DoAll(s, init), steps[|steps| - 1]);
    }
  }

  lemma StepKeepsGone(s: Store, step: Step)
    ensures Do(s, step).namespace.Gone? <==> s.namespace.Gone?
  {
  }

  /** Strict reverse install order: when one thing is gone, everything installed after it is gone too. */
  lemma {:induction false} DrainedInReverseOrder(provider: Provider, trace: seq<Store>, t: Thing, earlier: Thing)
    requires Run(provider, trace)
    requires Owns(trace[0], t) && !Owns(trace[|trace| - 1], t) && Rank(earlier) < Rank(t)
    ensures !Owns(trace[|trace| - 1], earlier)
    decreases |trace|
  {
    var n := |trace| - 1;
    if Next(provider, trace[n - 1], trace[n]) {
      if Owns(trace[n - 1], t) {
        PassInOrder(provider, trace[n - 1], trace[n], t, earlier);
      } else {
        DrainedInReverseOrder(provider, trace[..n], t, earlier);
        PassEffect(provider, trace[n - 1], trace[n], earlier);
      }
    }
  }
}
