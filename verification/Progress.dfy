/**
 Left alone, the catalog-edit system comes to rest: every run of the operator's own
 steps, none of them failing, runs out of anything to do, and then nothing is
 outstanding. What then holds is said by Sync.DrainedEnforces.
 */
module Progress {
  import opened Common
  import opened Money
  import Decimal
  import opened Budget
  import opened Registration
  import opened Sync

  /** A step the operator or the event delivery takes, as opposed to an edit or a loss. */
  predicate Internal(step: Step) {
    !(step.EditCatalog? || step.EditGrant? || step.ChangeKey? || step.LoseRegistration?)
  }

  predicate AllInternal(steps: seq<Step>) {
    forall i | 0 <= i < |steps| :: Internal(steps[i])
  }

  /** A step of the operator's that works. */
  predicate Works(step: Step) {
    && Internal(step) && !step.Fail? && !step.PlatformFail?
    && (step.DeliverCatalog? ==> step.oldListed && step.newListed)
  }

  predicate AllWork(steps: seq<Step>) {
    forall i | 0 <= i < |steps| :: Works(steps[i])
  }

  /** Every grant names the one catalog. */
  predicate Serviceable(s: System) {
    forall id | id in s.grants :: s.grants[id].CatalogName() == SINGLETON_NAME
  }

  lemma {:induction false} RunJoins(s: System, a: seq<Step>, b: seq<Step>)
    requires Shape(s)
    ensures Run(s, a + b) == Run(Run(s, a), b)
    decreases |a|
  {
    if a == [] {
      assert a + b == b;
    } else {
      assert (a + b)[1..] == a[1..] + b;
      RunJoins(Apply(s, a[0]), a[1..], b);
    }
  }

  lemma RunOne(s: System, step: Step)
    requires Shape(s)
    ensures Run(s, [step]) == Apply(s, step)
  {
    assert [step][1..] == [];
  }

  /** What working steps leave as it was: the grants, the keys that are there, and the catalog they all work towards. */
  predicate SameWorld(s: System, t: System)
    requires Shape(s) && Shape(t)
  {
    && t.grants == s.grants && Current(t) == Current(s)
    && forall id | id in s.keys :: id in t.keys && t.keys[id] == s.keys[id]
  }

  /** How far a pass has got. */
  function Stage(w: Worker): nat {
    match w
    case Started => 0
    case HasGrant(_) => 1
    case HasCatalog(_, _) => 2
    case Wants(_) => 3
    case Compares(_, _) => 4
  }

  /** The call a pass makes at a stage, whichever version it reads and whatever key it would mint. */
  function StageStep(id: string, stage: nat, at: nat, minted: string): Step {
    match stage
    case 0 => ReadGrant(id)
    case 1 => ReadCatalog(id, at)
    case 2 => ReadKey(id, minted)
    case 3 => ReadRegistration(id)
    case _ => Publish(id)
  }

  /** What the calls of one pass leave as it was. */
  predicate OnlyPassMoved(s: System, t: System, id: string) {
    && t == s.(workers := t.workers, registrations := t.registrations, queue := t.queue, keys := t.keys)
    && t.workers - {id} == s.workers - {id}
  }

  /** A call that works takes a pass one stage on, or ends it. */
  lemma StageMoves(s: System, id: string, stage: nat, at: nat, minted: string)
    requires Shape(s) && id in s.workers && Stage(s.workers[id]) == stage && at < |s.catalogs|
    ensures var t := Apply(s, StageStep(id, stage, at, minted));
            && OnlyPassMoved(s, t, id)
            && (id in t.workers ==> Stage(t.workers[id]) == stage + 1)
  {
    var step := StageStep(id, stage, at, minted);
    assert Apply(s, step) == Advance(s, id, step);
    OthersStay(s, id, step);
    StageRises(s, id, stage, at, minted);
  }

  lemma OthersStay(s: System, id: string, step: Step)
    requires Shape(s) && id in s.workers
    ensures OnlyPassMoved(s, Advance(s, id, step), id)
  {
    var t := Advance(s, id, step);
    forall other | other != id
      ensures other in t.workers <==> other in s.workers
      ensures other in t.workers ==> t.workers[other] == s.workers[other]
    {
      AdvanceFrame(s, id, step, other);
    }
  }

  lemma StageRises(s: System, id: string, stage: nat, at: nat, minted: string)
    requires Shape(s) && id in s.workers && Stage(s.workers[id]) == stage && at < |s.catalogs|
    ensures var t := Advance(s, id, StageStep(id, stage, at, minted));
            id in t.workers ==> Stage(t.workers[id]) == stage + 1
  {
    match s.workers[id]
    case Started =>
    case HasGrant(_) =>
    case HasCatalog(_, _) =>
    case Wants(_) =>
    case Compares(_, seen) =>
  }

  /** A pass whose calls work comes to its end from any stage, on whatever data it holds. */
  lemma {:induction false} PassEnds(s: System, id: string, minted: string) returns (steps: seq<Step>)
    requires Shape(s)
    ensures AllWork(steps)
    ensures OnlyPassMoved(s, Run(s, steps), id) && id !in Run(s, steps).workers
    decreases if id in s.workers then 5 - Stage(s.workers[id]) else 0
  {
    if id !in s.workers {
      steps := [];
    } else {
      var step := StageStep(id, Stage(s.workers[id]), 0, minted);
      StageMoves(s, id, Stage(s.workers[id]), 0, minted);
      var rest := PassEnds(Apply(s, step), id, minted);
      RunOne(s, step);
      RunJoins(s, [step], rest);
      steps := [step] + rest;
    }
  }

  // ----- A measure of what is outstanding -----

  /** The calls a pass still makes, and what its key costs if it goes back to the queue on old data. */
  function PassCost(s: System, id: string): nat
    requires id in s.workers
  {
    match s.workers[id]
    case Started => 5
    case HasGrant(g) => if g.CatalogName() == SINGLETON_NAME then 4 else 7
    case HasCatalog(_, _) => 3
    case Wants(_) => 2
    case Compares(desired, seen) =>
      if seen.Some? && seen.value != desired && Get(s.registrations, id) != seen then 7 else 1
  }

  function Costs(s: System): map<string, nat> {
    map id | id in s.workers :: PassCost(s, id)
  }

  /** The sessions a key may still be minted for. */
  function Unkeyed(s: System): set<string> {
    s.grants.Keys + s.workers.Keys + s.queue - s.keys.Keys
  }

  ghost function SessionWork(s: System): nat {
    6 * |s.queue| + Sum(Costs(s)) + 6 * |Unkeyed(s)|
  }

  /** What one event may queue. */
  function EventCost(s: System): nat {
    6 * |s.grants| + 7
  }

  function EventWork(s: System): nat
    requires Shape(s)
  {
    (EventCost(s) + 1) * s.statusOwed + EventCost(s) * (|s.catalogs| - 1)
  }

  /** The next call of the platform pass under way, and how many it still has to make. */
  function PlatformNext(p: PlatformWorker): (Step, nat) {
    match p
    case Begun => (PlatformReadRow(0), 4)
    case RowRead(_) => (PlatformWriteRow, 3)
    case RowWritten => (PlatformReadPolicy(0), 2)
    case PolicyRead(_) => (PlatformWritePolicy, 1)
    case _ => (PlatformBegin, 0)
  }

  function PlatformWork(s: System): nat {
    (if s.platformQueued then 6 else 0) + PlatformNext(s.platform).1
  }

  ghost function Outstanding(s: System): nat
    requires Shape(s)
  {
    EventWork(s) + SessionWork(s) + PlatformWork(s)
  }

  // ----- It falls with every working step -----

  lemma UnkeyedShrinks(s: System, t: System, id: string)
    requires id in s.workers && t.grants == s.grants
    requires t.workers.Keys <= s.workers.Keys && t.queue <= s.queue + {id} && s.keys.Keys <= t.keys.Keys
    ensures |Unkeyed(t)| <= |Unkeyed(s)|
    ensures id !in s.keys && id in t.keys ==> |Unkeyed(t)| < |Unkeyed(s)|
  {
    assert Unkeyed(t) <= Unkeyed(s);
    SubsetIsNoLarger(Unkeyed(t), Unkeyed(s));
    if id !in s.keys && id in t.keys {
      ProperSubsetIsSmaller(Unkeyed(t), Unkeyed(s), id);
    }
  }

  /** What one pass's step leaves outstanding of its own, beyond what was queued and unkeyed before it. */
  function Left(s: System, t: System, id: string): int {
    (if id in t.workers then PassCost(t, id) else 0)
    + (if id in t.queue && id !in s.queue then 6 else 0)
    - (if id in t.keys && id !in s.keys then 6 else 0)
  }

  /** One pass's own share of the work. */
  lemma CallFalls(s: System, id: string, step: Step)
    requires Shape(s) && Serviceable(s) && id in s.workers && Works(step) && OfPass(s, step) && step.id == id
    requires Advance(s, id, step) != s
    ensures Left(s, Advance(s, id, step), id) < PassCost(s, id)
  {
    match s.workers[id]
    case Started => StartedFalls(s, id, step);
    case HasGrant(_) => CatalogReadFalls(s, id, step);
    case HasCatalog(_, _) => KeyReadFalls(s, id, step);
    case Wants(_) => RegistrationReadFalls(s, id, step);
    case Compares(_, _) => PublishFalls(s, id, step);
  }

  lemma StartedFalls(s: System, id: string, step: Step)
    requires Shape(s) && Serviceable(s) && id in s.workers && s.workers[id].Started? && !step.Fail?
    requires Advance(s, id, step) != s
    ensures Left(s, Advance(s, id, step), id) < PassCost(s, id)
  {
  }

  lemma CatalogReadFalls(s: System, id: string, step: Step)
    requires Shape(s) && id in s.workers && s.workers[id].HasGrant? && !step.Fail?
    requires Advance(s, id, step) != s
    ensures Left(s, Advance(s, id, step), id) < PassCost(s, id)
  {
  }

  lemma KeyReadFalls(s: System, id: string, step: Step)
    requires Shape(s) && id in s.workers && s.workers[id].HasCatalog? && !step.Fail?
    requires Advance(s, id, step) != s
    ensures Left(s, Advance(s, id, step), id) < PassCost(s, id)
  {
    assert Advance(s, id, step).workers[id].Wants?;
  }

  lemma RegistrationReadFalls(s: System, id: string, step: Step)
    requires Shape(s) && id in s.workers && s.workers[id].Wants? && !step.Fail?
    requires Advance(s, id, step) != s
    ensures Left(s, Advance(s, id, step), id) < PassCost(s, id)
  {
  }

  lemma PublishFalls(s: System, id: string, step: Step)
    requires Shape(s) && id in s.workers && s.workers[id].Compares? && !step.Fail?
    requires Advance(s, id, step) != s
    ensures Left(s, Advance(s, id, step), id) < PassCost(s, id)
  {
    assert id !in Advance(s, id, step).workers;
  }

  /** A pass keeps to its own session, and only ever adds keys. */
  lemma PassKeysGrow(s: System, id: string, step: Step)
    requires Shape(s) && id in s.workers
    ensures var t := Advance(s, id, step);
            t.workers.Keys <= s.workers.Keys && s.keys.Keys <= t.keys.Keys
  {
    var t := Advance(s, id, step);
    forall other ensures other in t.workers ==> other in s.workers
                 ensures other in s.keys ==> other in t.keys
    {
      AdvanceFrame(s, id, step, other);
    }
  }

  lemma CostsOfTheOthers(s: System, id: string, step: Step)
    requires Shape(s) && id in s.workers
    ensures Costs(Advance(s, id, step)) - {id} == Costs(s) - {id}
  {
    var t := Advance(s, id, step);
    forall other | other != id
      ensures other in Costs(t) <==> other in Costs(s)
      ensures other in Costs(t) ==> Costs(t)[other] == Costs(s)[other]
    {
      AdvanceFrame(s, id, step, other);
    }
  }

  lemma CostsAfter(s: System, id: string, step: Step)
    requires Shape(s) && id in s.workers
    ensures var t := Advance(s, id, step);
            Sum(Costs(t)) == Sum(Costs(s)) - PassCost(s, id) + if id in t.workers then PassCost(t, id) else 0
  {
    var t := Advance(s, id, step);
    CostsOfTheOthers(s, id, step);
    SumSplit(Costs(s), id);
    if id in t.workers {
      SumSplit(Costs(t), id);
    } else {
      assert Costs(t) - {id} == Costs(t);
    }
  }

  lemma PassStepFalls(s: System, id: string, step: Step)
    requires Shape(s) && Serviceable(s) && id in s.workers && Works(step) && OfPass(s, step) && step.id == id
    requires Advance(s, id, step) != s
    ensures SessionWork(Advance(s, id, step)) < SessionWork(s)
  {
    var t := Advance(s, id, step);
    CallFalls(s, id, step);
    CostsAfter(s, id, step);
    PassKeysGrow(s, id, step);
    UnkeyedShrinks(s, t, id);
    QueueGrows(s.queue, t.queue, id);
  }

  lemma QueueGrows(before: set<string>, after: set<string>, id: string)
    requires before <= after <= before + {id}
    ensures |after| == |before| + if id in after && id !in before then 1 else 0
  {
    assert after == before || (after == before + {id} && id !in before);
  }

  /** A key taken off the queue. */
  function Taken(s: System, id: string): System {
    s.(queue := s.queue - {id}, workers := s.workers[id := Started])
  }

  lemma BeginFalls(s: System, id: string)
    requires id in s.queue && id !in s.workers
    ensures SessionWork(Taken(s, id)) < SessionWork(s)
  {
    TakenCosts(s, id);
    TakenUnkeyed(s, id);
    assert |s.queue - {id}| == |s.queue| - 1;
  }

  lemma TakenCosts(s: System, id: string)
    requires id !in s.workers
    ensures Sum(Costs(Taken(s, id))) == Sum(Costs(s)) + 5
  {
    var t := Taken(s, id);
    SumSplit(Costs(t), id);
    assert Costs(t) - {id} == Costs(s);
  }

  lemma TakenUnkeyed(s: System, id: string)
    requires id in s.queue
    ensures Unkeyed(Taken(s, id)) == Unkeyed(s)
  {
    assert Taken(s, id).workers.Keys == s.workers.Keys + {id};
  }

  /** What the work on sessions does not depend on. */
  lemma SameSessions(s: System, t: System)
    requires t.grants == s.grants && t.keys == s.keys && t.workers == s.workers && t.registrations == s.registrations
    requires t.queue == s.queue
    ensures SessionWork(t) == SessionWork(s)
  {
    assert Costs(t) == Costs(s);
  }

  lemma DeliveryQueues(s: System, woken: set<string>)
    requires woken <= s.grants.Keys
    ensures SessionWork(s.(queue := s.queue + woken)) <= SessionWork(s) + 6 * |s.grants|
  {
    var t := s.(queue := s.queue + woken);
    SubsetIsNoLarger(woken, s.grants.Keys);
    assert |s.grants.Keys| == |s.grants|;
    UnionIsNoLarger(s.queue, woken);
    assert Costs(t) == Costs(s);
    assert Unkeyed(t) == Unkeyed(s);
  }

  lemma DeliveryFalls(s: System)
    requires Shape(s) && |s.catalogs| > 1
    ensures Outstanding(Apply(s, DeliverCatalog(true, true))) < Outstanding(s)
  {
    var t := Apply(s, DeliverCatalog(true, true));
    var woken := Selected(s.grants, s.catalogs[0], s.catalogs[1], true, true);
    DeliveryQueues(s, woken);
    SameSessions(s.(queue := s.queue + woken), t);
    DeliveryEvents(s);
  }

  lemma DeliveryEvents(s: System)
    requires Shape(s) && |s.catalogs| > 1
    ensures EventWork(Apply(s, DeliverCatalog(true, true))) == EventWork(s) - EventCost(s)
  {
    OneFewer(EventCost(s), |s.catalogs| - 1);
  }

  lemma OneFewer(cost: nat, n: nat)
    requires n >= 1
    ensures cost * (n - 1) == cost * n - cost
  {
  }

  /** A report of some of the edited generations. */
  function Reported(s: System, covers: nat): System
    requires Shape(s) && covers <= s.statusOwed
  {
    s.(catalogs := s.catalogs + [Current(s)], statusOwed := s.statusOwed - covers)
  }

  lemma StatusWriteFalls(s: System, covers: nat)
    requires Shape(s) && 1 <= covers <= s.statusOwed
    ensures Outstanding(Reported(s, covers)) < Outstanding(s)
  {
    SameSessions(s, Reported(s, covers));
    ReportedEvents(s, covers);
  }

  lemma ReportedEvents(s: System, covers: nat)
    requires Shape(s) && 1 <= covers <= s.statusOwed
    ensures EventWork(Reported(s, covers)) < EventWork(s)
  {
    var t := Reported(s, covers);
    assert EventCost(t) == EventCost(s) && |t.catalogs| - 1 == |s.catalogs|;
    StatusWriteEvents(EventCost(s), s.statusOwed, covers, |s.catalogs|);
  }

  lemma StatusWriteEvents(e: nat, owed: nat, covers: nat, n: nat)
    requires 1 <= covers <= owed && n >= 1
    ensures (e + 1) * (owed - covers) + e * n < (e + 1) * owed + e * (n - 1)
  {
    OneFewer(e, n);
    assert (e + 1) * (owed - covers) == (e + 1) * owed - (e + 1) * covers;
    assert (e + 1) * covers >= e + 1;
  }

  lemma PlatformStepFalls(s: System, step: Step)
    requires Shape(s) && Works(step) && OfPlatform(step) && Apply(s, step) != s
    ensures var t := Apply(s, step);
            && t == s.(platform := t.platform, platformQueued := t.platformQueued, row := t.row, fallback := t.fallback)
            && PlatformWork(t) < PlatformWork(s)
            && !t.platform.Incomplete?
  {
  }

  predicate OfPlatform(step: Step) {
    step.PlatformBegin? || step.PlatformReadRow? || step.PlatformWriteRow? || step.PlatformReadPolicy?
    || step.PlatformWritePolicy?
  }

  /** What a working step amounts to. */
  lemma WorkIs(s: System, step: Step)
    requires Shape(s) && Works(step) && Apply(s, step) != s
    ensures || OfPlatform(step)
            || (step == DeliverCatalog(true, true) && |s.catalogs| > 1)
            || (step.WriteStatus? && 1 <= step.covers <= s.statusOwed && Apply(s, step) == Reported(s, step.covers))
            || (step.Begin? && step.id in s.queue && step.id !in s.workers && Apply(s, step) == Taken(s, step.id))
            || (OfPass(s, step) && Apply(s, step) == Advance(s, step.id, step))
  {
  }

  /** What the events to come do not depend on. */
  lemma SameEvents(s: System, t: System)
    requires Shape(s) && Shape(t)
    requires t.grants == s.grants && t.catalogs == s.catalogs && t.statusOwed == s.statusOwed
    requires t.platform == s.platform && t.platformQueued == s.platformQueued
    ensures EventWork(t) == EventWork(s) && PlatformWork(t) == PlatformWork(s)
  {
  }

  /** Every working step that does anything leaves less outstanding. */
  lemma WorkFalls(s: System, step: Step)
    requires Shape(s) && Serviceable(s) && Works(step) && Apply(s, step) != s
    ensures Outstanding(Apply(s, step)) < Outstanding(s)
  {
    WorkIs(s, step);
    if OfPlatform(step) {
      PlatformFalls(s, step);
    } else if step.DeliverCatalog? {
      DeliveryFalls(s);
    } else if step.WriteStatus? {
      StatusWriteFalls(s, step.covers);
    } else if step.Begin? {
      BeginFalls(s, step.id);
      SameEvents(s, Taken(s, step.id));
    } else {
      PassStepFalls(s, step.id, step);
      SameEvents(s, Advance(s, step.id, step));
    }
  }

  lemma PlatformFalls(s: System, step: Step)
    requires Shape(s) && Works(step) && OfPlatform(step) && Apply(s, step) != s
    ensures Outstanding(Apply(s, step)) < Outstanding(s)
  {
    PlatformStepFalls(s, step);
    SameSessions(s, Apply(s, step));
    SameBacklog(s, Apply(s, step));
  }

  lemma SameBacklog(s: System, t: System)
    requires Shape(s) && Shape(t)
    requires t.grants == s.grants && t.catalogs == s.catalogs && t.statusOwed == s.statusOwed
    ensures EventWork(t) == EventWork(s)
  {
  }

  // ----- Until nothing is left to do -----

  /**
   A platform pass is done, under way or still to come. The one that stopped early
   without being requeued waits for the next event, its own status write included.
   */
  predicate PlatformOwed(s: System) {
    s.platform.Incomplete? ==> s.platformQueued || |s.catalogs| > 1 || s.statusOwed > 0
  }

  /** Nothing to deliver, to report, to take from a queue or to go on with. */
  predicate Quiet(s: System) {
    && |s.catalogs| == 1 && s.statusOwed == 0 && s.queue == {} && s.workers == map[]
    && !s.platformQueued && (s.platform.Complete? || s.platform.Incomplete?)
  }

  /** No working step does anything. */
  ghost predicate Idle(s: System)
    requires Shape(s)
  {
    forall step | Works(step) :: Apply(s, step) == s
  }

  /** Wherever something is outstanding, some working step gets on with it. */
  lemma SomethingToDo(s: System) returns (step: Step)
    requires Shape(s) && !Quiet(s)
    ensures Works(step) && Apply(s, step) != s
  {
    if |s.catalogs| > 1 {
      step := DeliverCatalog(true, true);
      DeliveryDoes(s);
    } else if s.statusOwed > 0 {
      step := WriteStatus(1);
      ReportDoes(s);
    } else if s.workers != map[] {
      var id :| id in s.workers;
      step := StageStep(id, Stage(s.workers[id]), 0, "sk-new");
      CallDoes(s, id);
    } else if s.queue != {} {
      var id :| id in s.queue;
      step := Begin(id);
      BeginDoes(s, id);
    } else {
      step := PlatformNext(s.platform).0;
      PlatformDoes(s);
    }
  }

  lemma DeliveryDoes(s: System)
    requires Shape(s) && |s.catalogs| > 1
    ensures Apply(s, DeliverCatalog(true, true)) != s
  {
    assert |Apply(s, DeliverCatalog(true, true)).catalogs| != |s.catalogs|;
  }

  lemma ReportDoes(s: System)
    requires Shape(s) && s.statusOwed > 0
    ensures Apply(s, WriteStatus(1)) != s
  {
    assert Apply(s, WriteStatus(1)).statusOwed != s.statusOwed;
  }

  lemma CallDoes(s: System, id: string)
    requires Shape(s) && id in s.workers
    ensures Apply(s, StageStep(id, Stage(s.workers[id]), 0, "sk-new")) != s
  {
    StageMoves(s, id, Stage(s.workers[id]), 0, "sk-new");
  }

  lemma BeginDoes(s: System, id: string)
    requires Shape(s) && id in s.queue && id !in s.workers
    ensures Apply(s, Begin(id)) != s
  {
    assert id !in Apply(s, Begin(id)).queue;
  }

  lemma PlatformDoes(s: System)
    requires Shape(s) && (s.platformQueued || !(s.platform.Complete? || s.platform.Incomplete?))
    ensures Apply(s, PlatformNext(s.platform).0) != s
  {
    assert Apply(s, PlatformNext(s.platform).0).platform != s.platform;
  }

  /** So the states in which no working step does anything are the quiet ones. */
  lemma IdleIffQuiet(s: System)
    requires Shape(s)
    ensures Idle(s) <==> Quiet(s)
  {
    if !Quiet(s) {
      var step := SomethingToDo(s);
    }
  }

  lemma WorkKeepsTheWorld(s: System, step: Step)
    requires Shape(s) && Serviceable(s) && Works(step) && Apply(s, step) != s
    ensures var t := Apply(s, step);
            SameWorld(s, t) && Serviceable(t) && (PlatformOwed(s) ==> PlatformOwed(t))
  {
    WorkIs(s, step);
    if OfPlatform(step) {
      PlatformStepFalls(s, step);
    } else if step.DeliverCatalog? {
      DeliveryKeepsTheWorld(s);
    } else if OfPass(s, step) {
      PassKeepsTheWorld(s, step.id, step);
    }
  }

  lemma DeliveryKeepsTheWorld(s: System)
    requires Shape(s) && |s.catalogs| > 1
    ensures var t := Apply(s, DeliverCatalog(true, true));
            SameWorld(s, t) && t.platformQueued
  {
    assert Apply(s, DeliverCatalog(true, true)).catalogs == s.catalogs[1..];
  }

  lemma PassKeepsTheWorld(s: System, id: string, step: Step)
    requires Shape(s) && id in s.workers
    ensures SameWorld(s, Advance(s, id, step))
  {
    forall other | other in s.keys
      ensures Get(Advance(s, id, step).keys, other) == Get(s.keys, other)
    {
      AdvanceFrame(s, id, step, other);
    }
  }

  /** Every step of the run does something. */
  ghost predicate Busy(s: System, steps: seq<Step>)
    requires Shape(s)
    decreases |steps|
  {
    steps != [] ==> Apply(s, steps[0]) != s && Busy(Apply(s, steps[0]), steps[1..])
  }

  /**
   Every run drains. A run of working steps that each do something is no longer than
   what was outstanding, so all of them come to an end; and where nothing is left to
   do, nothing is outstanding, with the platform pass through unless it had been
   dropped without a requeue and no event was to come.
   */
  lemma {:induction false} EveryRunDrains(s: System, steps: seq<Step>)
    requires Shape(s) && Serviceable(s) && AllWork(steps) && Busy(s, steps)
    ensures var t := Run(s, steps);
            && |steps| + Outstanding(t) <= Outstanding(s)
            && SameWorld(s, t) && Serviceable(t)
            && (PlatformOwed(s) ==> PlatformOwed(t))
            && (PlatformOwed(s) ==> (Idle(t) <==> Drained(t)))
    decreases |steps|
  {
    if steps == [] {
      IdleIffQuiet(s);
    } else {
      assert Works(steps[0]);
      assert forall i | 0 <= i < |steps[1..]| :: steps[1..][i] == steps[i + 1];
      WorkFalls(s, steps[0]);
      WorkKeepsTheWorld(s, steps[0]);
      EveryRunDrains(Apply(s, steps[0]), steps[1..]);
    }
  }

  /** Working steps can leave nothing outstanding, with the grants, the keys and the current catalog as they were. */
  ghost predicate CanDrain(s: System)
    requires Shape(s)
  {
    exists steps :: AllWork(steps) && Drained(Run(s, steps)) && SameWorld(s, Run(s, steps))
  }

  lemma {:induction false} DrainsFrom(s: System) returns (steps: seq<Step>)
    requires Shape(s) && Serviceable(s) && PlatformOwed(s)
    ensures AllWork(steps) && Drained(Run(s, steps)) && SameWorld(s, Run(s, steps))
    decreases Outstanding(s)
  {
    if Quiet(s) {
      steps := [];
    } else {
      var step := SomethingToDo(s);
      WorkFalls(s, step);
      WorkKeepsTheWorld(s, step);
      var rest := DrainsFrom(Apply(s, step));
      StepThen(s, step, rest);
      steps := [step] + rest;
    }
  }

  lemma StepThen(s: System, step: Step, rest: seq<Step>)
    requires Shape(s) && Works(step) && AllWork(rest)
    ensures Run(s, [step] + rest) == Run(Apply(s, step), rest) && AllWork([step] + rest)
  {
    assert ([step] + rest)[1..] == rest;
  }

  /**
   What gets stuck. While every grant names the catalog, working steps bring the system
   to rest from exactly the states in which the last platform pass was not dropped
   without a requeue, or another catalog event or status write is still to come. From
   the others no run of internal steps does, failing ones included.
   */
  lemma DrainsIffPlatformOwed(s: System)
    requires Shape(s) && Serviceable(s)
    ensures CanDrain(s) <==>
            (s.platform.Incomplete? ==> s.platformQueued || |s.catalogs| > 1 || s.statusOwed > 0)
    ensures !CanDrain(s) ==> forall steps | AllInternal(steps) :: !Drained(Run(s, steps))
  {
    if PlatformOwed(s) {
      var steps := DrainsFrom(s);
    } else {
      forall steps | AllInternal(steps) ensures !Drained(Run(s, steps)) {
        DroppedStaysDropped(s, steps);
      }
      assert forall steps | AllWork(steps) :: AllInternal(steps);
    }
  }

  lemma {:induction false} DroppedStaysDropped(s: System, steps: seq<Step>)
    requires Shape(s) && AllInternal(steps)
    requires s.platform.Incomplete? && !s.platformQueued && |s.catalogs| == 1 && s.statusOwed == 0
    ensures Run(s, steps).platform.Incomplete?
    decreases |steps|
  {
    if steps != [] {
      assert Internal(steps[0]);
      assert forall i | 0 <= i < |steps[1..]| :: steps[1..][i] == steps[i + 1];
      DroppedStaysDropped(Apply(s, steps[0]), steps[1..]);
    }
  }

  /**
   At an input: right after a start over a reported catalog, a platform pass whose
   rate-limit step fails leaves a system that its own steps cannot bring to rest.
   */
  lemma DroppedPassIsReached(s: System)
    requires Init(s) && Serviceable(s) && s.statusOwed == 0
    ensures var t := Run(s, [PlatformBegin, PlatformFail(false)]);
            Serviceable(t) && !CanDrain(t)
  {
    RunTwo(s, PlatformBegin, PlatformFail(false));
    var begun := s.(platformQueued := false, platform := Begun);
    assert Apply(s, PlatformBegin) == begun;
    var t := begun.(platform := Incomplete);
    assert Apply(begun, PlatformFail(false)) == t;
    DrainsIffPlatformOwed(t);
  }

  // ----- Undisturbed passes -----

  function QuietPass(id: string, at: nat, minted: string): seq<Step> {
    [Begin(id), ReadGrant(id)] + ([ReadCatalog(id, at), ReadKey(id, minted)] + [ReadRegistration(id), Publish(id)])
  }

  lemma RunTwo(s: System, a: Step, b: Step)
    requires Shape(s)
    ensures Run(s, [a, b]) == Apply(Apply(s, a), b)
  {
    assert [a, b][1..] == [b];
    RunOne(Apply(s, a), b);
  }

  lemma RunQuietPass(s: System, id: string, at: nat, minted: string)
    requires Shape(s)
    ensures Run(s, QuietPass(id, at, minted)) ==
            Run(Run(Run(s, [Begin(id), ReadGrant(id)]), [ReadCatalog(id, at), ReadKey(id, minted)]),
                [ReadRegistration(id), Publish(id)])
  {
    var a, b := [Begin(id), ReadGrant(id)], [ReadCatalog(id, at), ReadKey(id, minted)];
    var c := [ReadRegistration(id), Publish(id)];
    RunJoins(s, a, b + c);
    RunJoins(Run(s, a), b, c);
  }

  /** The key a pass finds, or mints. */
  function KeyFor(s: System, id: string, minted: string): string {
    if id in s.keys then s.keys[id] else minted
  }

  /** A pass that has its key; one that minted it is queued again by the new Secret. */
  function Keyed(s: System, id: string, minted: string): System {
    if id in s.keys then s.(queue := s.queue - {id}) else s.(keys := s.keys[id := minted], queue := s.queue + {id})
  }

  lemma QuietPassWants(s: System, id: string, g: Grant, at: nat, minted: string)
    requires Shape(s) && g.CatalogName() == SINGLETON_NAME && at < |s.catalogs| && id in s.queue
    ensures Run(Holding(s, id, HasGrant(g)), [ReadCatalog(id, at), ReadKey(id, minted)]) ==
            Keyed(s, id, minted).(workers := map[id := Wants(DesiredEntry(g, KeyFor(s, id, minted), s.catalogs[at]))])
  {
    RunTwo(Holding(s, id, HasGrant(g)), ReadCatalog(id, at), ReadKey(id, minted));
    CatalogRead(s, id, g, at);
    KeyRead(s, id, g, s.catalogs[at], minted, DesiredEntry(g, KeyFor(s, id, minted), s.catalogs[at]));
  }

  lemma CatalogRead(s: System, id: string, g: Grant, at: nat)
    requires Shape(s) && g.CatalogName() == SINGLETON_NAME && at < |s.catalogs|
    ensures Apply(Holding(s, id, HasGrant(g)), ReadCatalog(id, at)) == Holding(s, id, HasCatalog(g, s.catalogs[at]))
  {
    HoldingMoves(s, id, HasGrant(g), HasCatalog(g, s.catalogs[at]));
  }

  lemma KeyRead(s: System, id: string, g: Grant, c: Catalog, minted: string, desired: Entry)
    requires Shape(s) && id in s.queue && desired == DesiredEntry(g, KeyFor(s, id, minted), c)
    ensures Apply(Holding(s, id, HasCatalog(g, c)), ReadKey(id, minted)) ==
            Keyed(s, id, minted).(workers := map[id := Wants(desired)])
  {
    HoldingMoves(s, id, HasCatalog(g, c), Wants(desired));
    assert s.queue - {id} + {id} == s.queue + {id};
  }

  function Holding(s: System, id: string, w: Worker): System {
    s.(queue := s.queue - {id}, workers := map[id := w])
  }

  lemma HoldingMoves(s: System, id: string, before: Worker, after: Worker)
    ensures var h := Holding(s, id, before);
            h.(workers := h.workers[id := after]) == Holding(s, id, after)
  {
    assert map[id := before][id := after] == map[id := after];
  }

  lemma QuietPassStarts(s: System, id: string)
    requires Shape(s) && s.workers == map[] && id in s.queue && id in s.grants
    ensures Run(s, [Begin(id), ReadGrant(id)]) == Holding(s, id, HasGrant(s.grants[id]))
  {
    RunTwo(s, Begin(id), ReadGrant(id));
    assert s.workers[id := Started] == map[id := Started];
    assert Apply(s, Begin(id)) == Holding(s, id, Started);
    HoldingMoves(s, id, Started, HasGrant(s.grants[id]));
  }

  lemma QuietPassWrites(w: System, id: string, desired: Entry)
    requires Shape(w) && w.workers == map[id := Wants(desired)]
    ensures Run(w, [ReadRegistration(id), Publish(id)]) ==
            w.(workers := map[], registrations := w.registrations[id := desired])
  {
    RunTwo(w, ReadRegistration(id), Publish(id));
    RegistrationRead(w, id, desired);
    Published(w, id, desired);
  }

  lemma RegistrationRead(w: System, id: string, desired: Entry)
    requires Shape(w) && w.workers == map[id := Wants(desired)]
    ensures Apply(w, ReadRegistration(id)) == w.(workers := map[id := Compares(desired, Get(w.registrations, id))])
  {
    var compares := Compares(desired, Get(w.registrations, id));
    assert w.workers[id := compares] == map[id := compares];
  }

  lemma Published(w: System, id: string, desired: Entry)
    requires Shape(w)
    ensures var compares := w.(workers := map[id := Compares(desired, Get(w.registrations, id))]);
            Apply(compares, Publish(id)) == w.(workers := map[], registrations := w.registrations[id := desired])
  {
    assert map[id := Compares(desired, Get(w.registrations, id))] - {id} == map[];
    if id in w.registrations && w.registrations[id] == desired {
      assert w.registrations[id := desired] == w.registrations;
    }
  }

  lemma QuietPassOfNobody(s: System, id: string, at: nat, minted: string)
    requires Shape(s) && s.workers == map[] && id in s.queue && id !in s.grants
    ensures Run(s, QuietPass(id, at, minted)) == s.(queue := s.queue - {id})
  {
    RunQuietPass(s, id, at, minted);
    var done := s.(queue := s.queue - {id});
    NobodyFound(s, id);
    NobodysCalls(done, id, ReadCatalog(id, at), ReadKey(id, minted));
    NobodysCalls(done, id, ReadRegistration(id), Publish(id));
  }

  lemma NobodysCalls(s: System, id: string, a: Step, b: Step)
    requires Shape(s) && id !in s.workers
    requires a == ReadRegistration(id) || (a.ReadCatalog? && a.id == id)
    requires b == Publish(id) || (b.ReadKey? && b.id == id)
    ensures Run(s, [a, b]) == s
  {
    RunTwo(s, a, b);
  }

  lemma NobodyFound(s: System, id: string)
    requires Shape(s) && s.workers == map[] && id in s.queue && id !in s.grants
    ensures Run(s, [Begin(id), ReadGrant(id)]) == s.(queue := s.queue - {id})
  {
    RunTwo(s, Begin(id), ReadGrant(id));
    assert s.workers[id := Started] - {id} == s.workers;
  }

  function AfterQuietPass(s: System, id: string, at: nat, minted: string): System
    requires at < |s.catalogs|
  {
    if id !in s.grants then s.(queue := s.queue - {id})
    else
      var entry := DesiredEntry(s.grants[id], KeyFor(s, id, minted), s.catalogs[at]);
      Keyed(s, id, minted).(registrations := s.registrations[id := entry])
  }

  /**
   One undisturbed pass takes its key off the queue and leaves the entry of the catalog
   it read; one that minted leaves the key as well, and its session queued once more.
   */
  lemma QuietPassSettles(s: System, id: string, at: nat, minted: string)
    requires Shape(s) && Serviceable(s) && s.workers == map[] && id in s.queue && at < |s.catalogs|
    ensures Run(s, QuietPass(id, at, minted)) == AfterQuietPass(s, id, at, minted)
  {
    if id in s.grants {
      var entry := DesiredEntry(s.grants[id], KeyFor(s, id, minted), s.catalogs[at]);
      RunQuietPass(s, id, at, minted);
      QuietPassStarts(s, id);
      QuietPassWants(s, id, s.grants[id], at, minted);
      QuietPassWrites(Keyed(s, id, minted).(workers := map[id := Wants(entry)]), id, entry);
    } else {
      QuietPassOfNobody(s, id, at, minted);
    }
  }

  function PlatformPass(rowAt: nat, policyAt: nat): seq<Step> {
    [PlatformBegin, PlatformReadRow(rowAt)]
    + ([PlatformWriteRow, PlatformReadPolicy(policyAt)] + [PlatformWritePolicy])
  }

  /** A platform pass that nothing interrupts writes the default of the version it reads for each place. */
  lemma PlatformSettles(s: System, rowAt: nat, policyAt: nat)
    requires Shape(s) && s.platformQueued && (s.platform.Complete? || s.platform.Incomplete?)
    requires rowAt < |s.catalogs| && policyAt < |s.catalogs|
    ensures Run(s, PlatformPass(rowAt, policyAt)) ==
            s.(platformQueued := false, platform := Complete,
               row := s.catalogs[rowAt].EffectiveDefaultTokenBudget(),
               fallback := s.catalogs[policyAt].EffectiveDefaultTokenBudget())
  {
    var c, d := s.catalogs[rowAt], s.catalogs[policyAt];
    var read := s.(platformQueued := false, platform := RowRead(c));
    RunPlatformPass(s, rowAt, policyAt);
    PlatformReads(s, rowAt);
    PlatformWritesRow(read, c, policyAt);
    PlatformWritesPolicy(s, d, c.EffectiveDefaultTokenBudget());
  }

  lemma RunPlatformPass(s: System, rowAt: nat, policyAt: nat)
    requires Shape(s)
    ensures Run(s, PlatformPass(rowAt, policyAt)) ==
            Apply(Run(Run(s, [PlatformBegin, PlatformReadRow(rowAt)]),
                      [PlatformWriteRow, PlatformReadPolicy(policyAt)]),
                  PlatformWritePolicy)
  {
    var a, b := [PlatformBegin, PlatformReadRow(rowAt)], [PlatformWriteRow, PlatformReadPolicy(policyAt)];
    var c := [PlatformWritePolicy];
    RunJoins(s, a, b + c);
    RunJoins(Run(s, a), b, c);
    RunOne(Run(Run(s, a), b), PlatformWritePolicy);
  }

  lemma PlatformReads(s: System, at: nat)
    requires Shape(s) && s.platformQueued && (s.platform.Complete? || s.platform.Incomplete?) && at < |s.catalogs|
    ensures Run(s, [PlatformBegin, PlatformReadRow(at)]) ==
            s.(platformQueued := false, platform := RowRead(s.catalogs[at]))
  {
    RunTwo(s, PlatformBegin, PlatformReadRow(at));
    assert Apply(s, PlatformBegin) == s.(platformQueued := false, platform := Begun);
  }

  lemma PlatformWritesRow(s: System, c: Catalog, at: nat)
    requires Shape(s) && s.platform == RowRead(c) && at < |s.catalogs|
    ensures Run(s, [PlatformWriteRow, PlatformReadPolicy(at)]) ==
            s.(platform := PolicyRead(s.catalogs[at]), row := c.EffectiveDefaultTokenBudget())
  {
    RunTwo(s, PlatformWriteRow, PlatformReadPolicy(at));
    RowWrite(s, c);
    CatalogForPolicy(s.(platform := RowWritten, row := c.EffectiveDefaultTokenBudget()), at);
  }

  lemma RowWrite(s: System, c: Catalog)
    requires Shape(s) && s.platform == RowRead(c)
    ensures Apply(s, PlatformWriteRow) == s.(platform := RowWritten, row := c.EffectiveDefaultTokenBudget())
  {
  }

  lemma CatalogForPolicy(s: System, at: nat)
    requires Shape(s) && s.platform.RowWritten? && at < |s.catalogs|
    ensures Apply(s, PlatformReadPolicy(at)) == s.(platform := PolicyRead(s.catalogs[at]))
  {
  }

  lemma PlatformWritesPolicy(s: System, c: Catalog, row: int)
    requires Shape(s)
    ensures Apply(s.(platformQueued := false, platform := PolicyRead(c), row := row), PlatformWritePolicy) ==
            s.(platformQueued := false, platform := Complete, row := row,
               fallback := c.EffectiveDefaultTokenBudget())
  {
  }

  // ----- An edit that one failed listing loses -----

  const FIVE_DOLLARS := Catalog(Some(BudgetSpec(None, None, "5.00", "")))
  const NO_BUDGETS := Catalog(None)

  function AsksForNothing(): Grant {
    Grant("s1", "workshop", "", None, "", "", Unset, 0)
  }

  /** The default cost is removed; of the four listings made for the edit and its status write the first alone fails. */
  function RemovedDefault(): seq<Step> {
    [EditCatalog(NO_BUDGETS), WriteStatus(1)] + Deliveries([(false, true), (true, true)])
  }

  lemma FiveDollarsReads()
    ensures ReadDollars("5.00") == Ok(5_000_000)
  {
    PrintedReadsBack(5_000_000);
    assert Decimal.Format(5) == "5";
    assert FormatMicroDollars(5_000_000) == "$5.00";
  }

  /**
   At an input: a grant that asks for nothing is registered with the default cost, which
   is then removed. Only the mapping on the old object selects it, so when that one
   listing fails the old ceiling stays pinned, with nothing queued to lift it.
   */
  lemma RemovedDefaultIsMissed(s: System)
    requires Init(s) && Serviceable(s) && s.catalogs == [FIVE_DOLLARS] && s.queue == {"s1"}
    requires "s1" in s.grants && s.grants["s1"] == AsksForNothing() && "s1" in s.keys
    ensures var t := Run(Run(s, QuietPass("s1", 0, "")), RemovedDefault());
            && Shape(t) && |t.catalogs| == 1 && t.statusOwed == s.statusOwed
            && !Landed(t, "s1") && t.workers == map[]
  {
    QuietPassSettles(s, "s1", 0, "");
    var settled := AfterQuietPass(s, "s1", 0, "");
    assert Settled(settled, "s1") && settled.workers == map[];
    RemovedDefaultIsLost(settled);
  }

  lemma RemovedDefaultIsLost(s: System)
    requires Shape(s) && s.catalogs == [FIVE_DOLLARS] && Settled(s, "s1") && s.grants["s1"] == AsksForNothing()
    ensures var t := Run(s, RemovedDefault());
            && Shape(t) && |t.catalogs| == 1 && t.statusOwed == s.statusOwed && t.workers == s.workers
            && !Landed(t, "s1")
  {
    var listings := [(false, true), (true, true)];
    var written := Apply(Apply(s, EditCatalog(NO_BUDGETS)), WriteStatus(1));
    RunTwo(s, EditCatalog(NO_BUDGETS), WriteStatus(1));
    RunJoins(s, [EditCatalog(NO_BUDGETS), WriteStatus(1)], Deliveries(listings));
    BacklogQueuesIff(written, listings, "s1");
    OnlyTheOldTermsSelect();
    EditAndStatusLandIff(s, NO_BUDGETS, 1, (false, true), (true, true), "s1");
  }

  lemma OnlyTheOldTermsSelect()
    ensures Needs(AsksForNothing(), FIVE_DOLLARS) && !Needs(AsksForNothing(), NO_BUDGETS)
    ensures Pinned(AsksForNothing(), FIVE_DOLLARS) != Pinned(AsksForNothing(), NO_BUDGETS)
  {
    FiveDollarsReads();
    EmptyNeverReads();
  }
}
