/**
 Catalog edits against concurrent reconcile passes. Every step is one call to the
 API server, one event delivery or one queue operation; passes may fail anywhere,
 and edits may arrive in the middle of any pass.
 */
module Sync {
  import opened Common
  import opened Money
  import opened Budget
  import opened Registration
  import Policy

  /** How far the pass holding one session's key has got. */
  datatype Worker =
    | Started
    | HasGrant(grant: Grant)
    | HasCatalog(grant: Grant, catalog: Catalog)
    | Wants(desired: Entry)
    | Compares(desired: Entry, seen: Option<Entry>)

  datatype PlatformWorker =
    | Complete
    | Incomplete                    // the last pass stopped early, and may not have been requeued
    | Begun
    | RowRead(catalog: Catalog)
    | RowWritten
    | PolicyRead(catalog: Catalog)

  datatype System = System(
    catalogs: seq<Catalog>,             // versions, from the last one whose event was delivered to the stored one
    statusOwed: nat,                    // edited generations the catalog controller has not reported yet
    grants: map<string, Grant>,
    keys: map<string, string>,
    registrations: map<string, Entry>,
    queue: set<string>,
    workers: map<string, Worker>,
    row: int,
    fallback: int,
    platformQueued: bool,
    platform: PlatformWorker)

  datatype Step =
    | EditCatalog(c: Catalog)
    | WriteStatus(covers: nat)          // the catalog controller reports some of them, in a version of its own
    | DeliverCatalog(oldListed: bool, newListed: bool)    // whether each of the two mapping calls could list
    | EditGrant(id: string, grant: Grant)
    | ChangeKey(id: string, key: string)
    | LoseRegistration(id: string)
    | Begin(id: string)
    | ReadGrant(id: string)
    | ReadCatalog(id: string, at: nat)  // which version the cache answers with
    | ReadKey(id: string, minted: string)
    | ReadRegistration(id: string)
    | Publish(id: string)
    | Fail(id: string)
    | PlatformBegin
    | PlatformReadRow(at: nat)
    | PlatformWriteRow
    | PlatformReadPolicy(at: nat)
    | PlatformWritePolicy
    | PlatformFail(requeued: bool)

  predicate Shape(s: System) {
    && s.catalogs != []
    && forall id | id in s.grants :: s.grants[id].name == id
  }

  function Current(s: System): Catalog
    requires Shape(s)
  {
    s.catalogs[|s.catalogs| - 1]
  }

  /** The grant is selected by the mapping on one object. */
  predicate Needs(g: Grant, c: Catalog) {
    g.CatalogName() == SINGLETON_NAME && g.NeedsReconcileOnCatalogChange(OffersCost(c))
  }

  /** The sessions woken for one update: the mapping runs on the old and on the new object, and lists for each. */
  function Selected(grants: map<string, Grant>, before: Catalog, after: Catalog, oldListed: bool, newListed: bool)
    : set<string>
  {
    set id | id in grants && ((oldListed && Needs(grants[id], before)) || (newListed && Needs(grants[id], after)))
  }

  function Get<V>(m: map<string, V>, id: string): Option<V> {
    if id in m then Some(m[id]) else None
  }

  function Enqueue(s: System, id: string): System {
    s.(queue := s.queue + {id})
  }

  /** The pass ends in an error and its key goes back to the queue. */
  function Requeue(s: System, id: string): System {
    Enqueue(s.(workers := s.workers - {id}), id)
  }

  /** The pass ends well; whatever marked the key dirty meanwhile stays in the queue. */
  function Finish(s: System, id: string): System {
    s.(workers := s.workers - {id})
  }

  /** One session pass moves on by one call. */
  function Advance(s: System, id: string, step: Step): (t: System)
    requires Shape(s) && id in s.workers
    ensures t == s.(workers := t.workers, registrations := t.registrations, queue := t.queue, keys := t.keys)
    ensures s.queue <= t.queue <= s.queue + {id}
  {
    match (s.workers[id], step)
    case (Started, ReadGrant(_)) =>
      if id in s.grants then s.(workers := s.workers[id := HasGrant(s.grants[id])]) else Finish(s, id)
    case (HasGrant(g), ReadCatalog(_, at)) =>
      if at >= |s.catalogs| then s
      else if g.CatalogName() == SINGLETON_NAME then s.(workers := s.workers[id := HasCatalog(g, s.catalogs[at])])
      else Requeue(s, id)
    case (HasCatalog(g, c), ReadKey(_, minted)) =>
      // The Secret of a minted key is an event of its own, which marks the session's key dirty.
      var t := if id in s.keys then s else Enqueue(s.(keys := s.keys[id := minted]), id);
      t.(workers := s.workers[id := Wants(DesiredEntry(g, t.keys[id], c))])
    case (Wants(desired), ReadRegistration(_)) =>
      s.(workers := s.workers[id := Compares(desired, Get(s.registrations, id))])
    case (Compares(desired, None), Publish(_)) =>
      // A create that finds the object there already is not an error, and changes nothing.
      if id in s.registrations then Finish(s, id)
      else Finish(s.(registrations := s.registrations[id := desired]), id)
    case (Compares(desired, Some(seen)), Publish(_)) =>
      if seen == desired then Finish(s, id)
      else if Get(s.registrations, id) != Some(seen) then Requeue(s, id)
      else Finish(s.(registrations := s.registrations[id := desired]), id)
    case (_, Fail(_)) => Requeue(s, id)
    case _ => s
  }

  /** What a pass leaves as it was: everything of the other sessions, and a key that is there. */
  lemma AdvanceFrame(s: System, id: string, step: Step, other: string)
    requires Shape(s) && id in s.workers
    ensures var t := Advance(s, id, step);
            && (other != id ==>
                  && Get(t.workers, other) == Get(s.workers, other)
                  && Get(t.registrations, other) == Get(s.registrations, other))
            && (other != id || other in s.keys ==> Get(t.keys, other) == Get(s.keys, other))
  {
  }

  function AdvancePlatform(s: System, step: Step): (t: System)
    requires Shape(s)
    ensures t == s.(platform := t.platform, platformQueued := t.platformQueued, row := t.row, fallback := t.fallback)
  {
    match (s.platform, step)
    case (Begun, PlatformReadRow(at)) =>
      if at < |s.catalogs| then s.(platform := RowRead(s.catalogs[at])) else s
    case (RowRead(c), PlatformWriteRow) => s.(platform := RowWritten, row := c.EffectiveDefaultTokenBudget())
    case (RowWritten, PlatformReadPolicy(at)) =>
      if at < |s.catalogs| then s.(platform := PolicyRead(s.catalogs[at])) else s
    case (PolicyRead(c), PlatformWritePolicy) => s.(platform := Complete, fallback := c.EffectiveDefaultTokenBudget())
    case (_, PlatformFail(requeued)) =>
      if s.platform.Complete? || s.platform.Incomplete? then s
      else s.(platform := Incomplete, platformQueued := s.platformQueued || requeued)
    case _ => s
  }

  /** A step that is not possible where it is taken changes nothing. */
  function Apply(s: System, step: Step): (t: System)
    requires Shape(s)
    ensures Shape(t)
  {
    match step
    case EditCatalog(c) => s.(catalogs := s.catalogs + [c], statusOwed := s.statusOwed + 1)
    case WriteStatus(covers) =>
      if 1 <= covers <= s.statusOwed
      then s.(catalogs := s.catalogs + [Current(s)], statusOwed := s.statusOwed - covers) else s
    case DeliverCatalog(oldListed, newListed) =>
      if |s.catalogs| == 1 then s
      else s.(queue := s.queue + Selected(s.grants, s.catalogs[0], s.catalogs[1], oldListed, newListed),
              platformQueued := true,
              catalogs := s.catalogs[1..])
    case EditGrant(id, g) => if g.name == id then Enqueue(s.(grants := s.grants[id := g]), id) else s
    case ChangeKey(id, key) => Enqueue(s.(keys := s.keys[id := key]), id)
    case LoseRegistration(id) => s.(registrations := s.registrations - {id})
    case Begin(id) =>
      if id in s.queue && id !in s.workers
      then s.(queue := s.queue - {id}, workers := s.workers[id := Started]) else s
    case PlatformBegin =>
      if s.platformQueued && (s.platform.Complete? || s.platform.Incomplete?)
      then s.(platformQueued := false, platform := Begun) else s
    case PlatformReadRow(_) => AdvancePlatform(s, step)
    case PlatformWriteRow => AdvancePlatform(s, step)
    case PlatformReadPolicy(_) => AdvancePlatform(s, step)
    case PlatformWritePolicy => AdvancePlatform(s, step)
    case PlatformFail(_) => AdvancePlatform(s, step)
    case _ => if step.id in s.workers then Advance(s, step.id, step) else s
  }

  function Run(s: System, steps: seq<Step>): (t: System)
    requires Shape(s)
    ensures Shape(t)
    decreases |steps|
  {
    if steps == [] then s else Run(Apply(s, steps[0]), steps[1..])
  }

  /** The operator has just started: everything is queued, and nothing is known of what an earlier one left behind. */
  predicate Init(s: System) {
    && Shape(s) && |s.catalogs| == 1
    && s.grants.Keys <= s.queue && s.workers == map[]
    && s.platformQueued && s.platform == Incomplete
  }

  // ----- The invariant -----

  /**
   Pins that are up to date, or that an undelivered event accounts for: they come from
   a catalog not yet passed over.
   */
  ghost predicate FreshPins(s: System, id: string, pins: (Option<nat>, Option<nat>)) {
    id in s.grants && exists j :: 0 <= j < |s.catalogs| && pins == Pinned(s.grants[id], s.catalogs[j])
  }

  ghost predicate Fresh(s: System, id: string, e: Entry) {
    && id in s.grants && id in s.keys && s.grants[id].CatalogName() == SINGLETON_NAME
    && exists j :: 0 <= j < |s.catalogs| && e == DesiredEntry(s.grants[id], s.keys[id], s.catalogs[j])
  }

  ghost predicate WorkerGood(s: System, id: string)
    requires id in s.workers
  {
    match s.workers[id]
    case Started => true
    case HasGrant(g) => Some(g) == Get(s.grants, id)
    case HasCatalog(g, c) =>
      Some(g) == Get(s.grants, id) && g.CatalogName() == SINGLETON_NAME && FreshPins(s, id, Pinned(g, c))
    case Wants(desired) => Fresh(s, id, desired)
    case Compares(desired, seen) =>
      && Fresh(s, id, desired)
      && (id in s.registrations ==> seen == Some(s.registrations[id]))
  }

  /** A session outside the queue is being dealt with on current data, or carries a fresh entry. */
  ghost predicate Settles(s: System, id: string) {
    id in s.queue ||
    if id in s.workers then WorkerGood(s, id)
    else id in s.registrations ==> Fresh(s, id, s.registrations[id])
  }

  ghost predicate Among(s: System, n: int) {
    exists j :: 0 <= j < |s.catalogs| && n == s.catalogs[j].EffectiveDefaultTokenBudget()
  }

  ghost predicate PlatformGood(s: System) {
    s.platformQueued ||
    match s.platform
    case Complete => Among(s, s.row) && Among(s, s.fallback)
    case Incomplete => true
    case Begun => true
    case RowRead(c) => Among(s, c.EffectiveDefaultTokenBudget())
    case RowWritten => Among(s, s.row)
    case PolicyRead(c) => Among(s, s.row) && Among(s, c.EffectiveDefaultTokenBudget())
  }

  /** Everything but the sessions an edit was lost on stands well. */
  ghost predicate Inv(s: System, lost: set<string>) {
    Shape(s) && PlatformGood(s) && forall id | id in s.grants && id !in lost :: Settles(s, id)
  }

  /** The next event changes what the session's grant pins. */
  predicate Repins(s: System, id: string) {
    && |s.catalogs| > 1 && id in s.grants && s.grants[id].CatalogName() == SINGLETON_NAME
    && Pinned(s.grants[id], s.catalogs[0]) != Pinned(s.grants[id], s.catalogs[1])
  }

  /** The sessions whose pins a delivery changes without waking them, because a listing failed. */
  function LostBy(s: System, step: Step): set<string> {
    if step.DeliverCatalog? && |s.catalogs| > 1
    then (set id | id in s.grants && Repins(s, id))
         - Selected(s.grants, s.catalogs[0], s.catalogs[1], step.oldListed, step.newListed)
    else {}
  }

  /** The sessions an edit was lost on and that were not queued since. */
  function Lost(s: System, steps: seq<Step>, lost: set<string>): set<string>
    requires Shape(s)
    decreases |steps|
  {
    if steps == [] then lost
    else
      var t := Apply(s, steps[0]);
      Lost(t, steps[1..], lost + LostBy(s, steps[0]) - t.queue)
  }

  // ----- It is kept by every step -----

  /**
   The catalogs of two states, seen from one session: grown by a write, or shortened
   past an event that left its pins as they were.
   */
  ghost predicate Follows(s: System, t: System, id: string) {
    && Shape(s) && Shape(t)
    && Get(t.grants, id) == Get(s.grants, id) && Get(t.keys, id) == Get(s.keys, id)
    && (|| s.catalogs <= t.catalogs
        || (|s.catalogs| > 1 && t.catalogs == s.catalogs[1..]
            && !Repins(s, id)))
  }

  /** Whatever index accounted for a session's pins before, some index does after. */
  lemma PinsSurvive(s: System, t: System, id: string, j: nat) returns (j': nat)
    requires Follows(s, t, id) && id in s.grants && s.grants[id].CatalogName() == SINGLETON_NAME
    requires j < |s.catalogs|
    ensures j' < |t.catalogs| && Pinned(t.grants[id], t.catalogs[j']) == Pinned(s.grants[id], s.catalogs[j])
  {
    if s.catalogs <= t.catalogs {
      j' := j;
    } else if j == 0 {
      j' := 0;
    } else {
      j' := j - 1;
    }
  }

  lemma FreshSurvives(s: System, t: System, id: string, e: Entry)
    requires Follows(s, t, id) && Fresh(s, id, e)
    ensures Fresh(t, id, e)
  {
    var j :| 0 <= j < |s.catalogs| && e == DesiredEntry(s.grants[id], s.keys[id], s.catalogs[j]);
    var j' := PinsSurvive(s, t, id, j);
    assert e == DesiredEntry(t.grants[id], t.keys[id], t.catalogs[j']);
  }

  lemma FreshPinsSurvive(s: System, t: System, id: string, pins: (Option<nat>, Option<nat>))
    requires Follows(s, t, id) && FreshPins(s, id, pins) && s.grants[id].CatalogName() == SINGLETON_NAME
    ensures FreshPins(t, id, pins)
  {
    var j :| 0 <= j < |s.catalogs| && pins == Pinned(s.grants[id], s.catalogs[j]);
    var j' := PinsSurvive(s, t, id, j);
  }

  /** A session nothing happened to, apart from the catalog, keeps its standing. */
  lemma UntouchedSettles(s: System, t: System, id: string)
    requires Settles(s, id) && Follows(s, t, id)
    requires id in t.queue || id !in s.queue
    requires Get(t.workers, id) == Get(s.workers, id)
    requires Get(t.registrations, id) == Get(s.registrations, id) || Get(t.registrations, id).None?
    ensures Settles(t, id)
  {
    if id !in t.queue {
      if id in s.workers {
        match s.workers[id]
        case HasCatalog(g, c) => FreshPinsSurvive(s, t, id, Pinned(g, c));
        case Wants(desired) => FreshSurvives(s, t, id, desired);
        case Compares(desired, _) => FreshSurvives(s, t, id, desired);
        case _ =>
      } else if id in s.registrations {
        FreshSurvives(s, t, id, s.registrations[id]);
      }
    }
  }

  /** The pass has read the catalog and now reads the key: what it wants is fresh. */
  lemma WantsFresh(s: System, id: string, g: Grant, c: Catalog)
    requires Shape(s) && id in s.workers && s.workers[id] == HasCatalog(g, c) && WorkerGood(s, id) && id in s.keys
    ensures Fresh(s, id, DesiredEntry(g, s.keys[id], c))
  {
    var j :| 0 <= j < |s.catalogs| && Pinned(g, c) == Pinned(s.grants[id], s.catalogs[j]);
    assert DesiredEntry(g, s.keys[id], c) == DesiredEntry(s.grants[id], s.keys[id], s.catalogs[j]);
  }

  /** The pass that wanted a fresh entry has read or written the registration. */
  lemma PublishSettles(s: System, id: string, step: Step, desired: Entry)
    requires Shape(s) && id in s.workers && id in s.grants && WorkerGood(s, id)
    requires s.workers[id].Wants? || s.workers[id].Compares?
    requires desired == s.workers[id].desired
    ensures Settles(Advance(s, id, step), id)
  {
    AdvanceFrame(s, id, step, id);
    FreshSurvives(s, Advance(s, id, step), id, desired);
    PublishedEntry(s, id, step, desired);
    DealtWith(s, Advance(s, id, step), id, desired);
  }

  lemma DealtWith(s: System, t: System, id: string, desired: Entry)
    requires Shape(t) && Fresh(t, id, desired) && t.grants == s.grants && id in s.workers && WorkerGood(s, id)
    requires s.workers[id] == Wants(desired) || (s.workers[id].Compares? && s.workers[id].desired == desired)
    requires if id in t.workers
             then (t.workers[id] == s.workers[id] || t.workers[id] == Compares(desired, Get(s.registrations, id)))
                  && t.registrations == s.registrations
             else id in t.queue || (id in t.registrations ==> t.registrations[id] == desired)
    ensures Settles(t, id)
  {
  }

  lemma PublishedEntry(s: System, id: string, step: Step, desired: Entry)
    requires Shape(s) && id in s.workers
    requires s.workers[id] == Wants(desired) || (s.workers[id].Compares? && s.workers[id].desired == desired)
    requires s.workers[id].Compares? && id in s.registrations ==> s.workers[id].seen == Some(s.registrations[id])
    ensures var t := Advance(s, id, step);
            if id in t.workers
            then (t.workers[id] == s.workers[id] || t.workers[id] == Compares(desired, Get(s.registrations, id)))
                 && t.registrations == s.registrations
            else id in t.queue || (id in t.registrations ==> t.registrations[id] == desired)
  {
  }

  lemma CatalogReadSettles(s: System, id: string, g: Grant, step: Step)
    requires Shape(s) && id in s.workers && s.workers[id] == HasGrant(g) && WorkerGood(s, id) && id !in s.queue
    ensures id in s.grants ==> Settles(Advance(s, id, step), id)
  {
    if id in s.grants && step.ReadCatalog? && step.at < |s.catalogs| {
      assert FreshPins(s, id, Pinned(g, s.catalogs[step.at]));
    }
  }

  lemma KeyReadSettles(s: System, id: string, g: Grant, c: Catalog, step: Step)
    requires Shape(s) && id in s.workers && s.workers[id] == HasCatalog(g, c) && WorkerGood(s, id) && id !in s.queue
    ensures Settles(Advance(s, id, step), id)
  {
    if id in s.keys {
      FoundKeySettles(s, id, g, c, step);
    } else {
      assert step.ReadKey? || step.Fail? ==> id in Advance(s, id, step).queue;
    }
  }

  lemma FoundKeySettles(s: System, id: string, g: Grant, c: Catalog, step: Step)
    requires Shape(s) && id in s.workers && s.workers[id] == HasCatalog(g, c) && WorkerGood(s, id) && id in s.keys
    ensures Settles(Advance(s, id, step), id)
  {
    var t := Advance(s, id, step);
    AdvanceFrame(s, id, step, id);
    WantsFresh(s, id, g, c);
    FreshSurvives(s, t, id, DesiredEntry(g, s.keys[id], c));
    assert id in t.queue || t.workers[id] == s.workers[id] || t.workers[id] == Wants(DesiredEntry(g, s.keys[id], c));
  }

  /** The session whose pass moves on keeps its standing. */
  lemma AdvanceSettles(s: System, id: string, step: Step)
    requires Shape(s) && Settles(s, id) && id in s.workers && id in s.grants
    ensures Settles(Advance(s, id, step), id)
  {
    if id !in s.queue {
      match s.workers[id]
      case Started =>
      case HasGrant(g) => CatalogReadSettles(s, id, g, step);
      case HasCatalog(g, c) => KeyReadSettles(s, id, g, c, step);
      case Wants(desired) => PublishSettles(s, id, step, desired);
      case Compares(desired, _) => PublishSettles(s, id, step, desired);
    }
  }

  /** The step belongs to a session pass under way. */
  predicate OfPass(s: System, step: Step) {
    match step
    case ReadGrant(id) => id in s.workers
    case ReadCatalog(id, _) => id in s.workers
    case ReadKey(id, _) => id in s.workers
    case ReadRegistration(id) => id in s.workers
    case Publish(id) => id in s.workers
    case Fail(id) => id in s.workers
    case _ => false
  }

  lemma PassStepSettles(s: System, step: Step, id: string)
    requires Shape(s) && id in s.grants && Settles(s, id) && OfPass(s, step)
    ensures Settles(Apply(s, step), id)
  {
    if step.id == id {
      AdvanceSettles(s, id, step);
    } else {
      AdvanceFrame(s, step.id, step, id);
      UntouchedSettles(s, Advance(s, step.id, step), id);
    }
  }

  /** The step changes a grant or a key, or takes a key off the queue. */
  predicate OfQueue(step: Step) {
    step.EditGrant? || step.ChangeKey? || step.Begin?
  }

  lemma QueueStepSettles(s: System, step: Step, id: string)
    requires Shape(s) && id in Apply(s, step).grants && (id in s.grants ==> Settles(s, id)) && OfQueue(step)
    ensures Settles(Apply(s, step), id)
  {
    var t := Apply(s, step);
    if step.id != id || t == s {
      assert Follows(s, t, id);
      UntouchedSettles(s, t, id);
    }
  }

  lemma OtherStepSettles(s: System, step: Step, id: string)
    requires Shape(s) && id in Apply(s, step).grants && (id in s.grants ==> Settles(s, id))
    requires !OfPass(s, step) && !OfQueue(step) && id !in LostBy(s, step)
    ensures Settles(Apply(s, step), id)
  {
    var t := Apply(s, step);
    assert t.grants == s.grants && t.keys == s.keys && t.workers == s.workers;
    if id !in t.queue {
      assert Follows(s, t, id);
      UntouchedSettles(s, t, id);
    }
  }

  /** A step loses a session only by a failed listing, and whatever queues a session makes up for it. */
  lemma StepSettles(s: System, step: Step, lost: set<string>)
    requires Inv(s, lost)
    ensures var t := Apply(s, step);
            forall id | id in t.grants && id !in lost + LostBy(s, step) - t.queue :: Settles(t, id)
  {
    var t := Apply(s, step);
    forall id | id in t.grants && id !in lost + LostBy(s, step) - t.queue ensures Settles(t, id) {
      if id !in t.queue {
        if OfPass(s, step) {
          PassStepSettles(s, step, id);
        } else if OfQueue(step) {
          QueueStepSettles(s, step, id);
        } else {
          OtherStepSettles(s, step, id);
        }
      }
    }
  }

  lemma AmongSurvives(s: System, t: System, n: int)
    requires Among(s, n) && s.catalogs <= t.catalogs
    ensures Among(t, n)
  {
    var j :| 0 <= j < |s.catalogs| && n == s.catalogs[j].EffectiveDefaultTokenBudget();
    assert n == t.catalogs[j].EffectiveDefaultTokenBudget();
  }

  lemma PlatformStepGood(s: System, step: Step)
    requires Shape(s) && PlatformGood(s)
    ensures PlatformGood(AdvancePlatform(s, step))
  {
    assert forall at: nat | at < |s.catalogs| :: Among(s, s.catalogs[at].EffectiveDefaultTokenBudget());
    var t := AdvancePlatform(s, step);
    forall n | Among(s, n) ensures Among(t, n) { AmongSurvives(s, t, n); }
  }

  lemma StepKeepsPlatform(s: System, step: Step)
    requires Shape(s) && PlatformGood(s)
    ensures PlatformGood(Apply(s, step))
  {
    var t := Apply(s, step);
    if t == AdvancePlatform(s, step) {
      PlatformStepGood(s, step);
    } else if !t.platformQueued {
      forall n | Among(s, n) ensures s.catalogs <= t.catalogs ==> Among(t, n) {
        if s.catalogs <= t.catalogs { AmongSurvives(s, t, n); }
      }
    }
  }

  lemma {:induction false} InvHolds(s: System, steps: seq<Step>, lost: set<string>)
    requires Inv(s, lost)
    ensures Inv(Run(s, steps), Lost(s, steps, lost))
    decreases |steps|
  {
    if steps != [] {
      StepSettles(s, steps[0], lost);
      StepKeepsPlatform(s, steps[0]);
      InvHolds(Apply(s, steps[0]), steps[1..], lost + LostBy(s, steps[0]) - Apply(s, steps[0]).queue);
    }
  }

  /** No listing of the run fails. */
  predicate AllListed(steps: seq<Step>) {
    forall i | 0 <= i < |steps| :: steps[i].DeliverCatalog? ==> steps[i].oldListed && steps[i].newListed
  }

  /** A delivery whose listings work wakes exactly the grants the mapping selects on the old or the new object. */
  lemma ListedSelectsWoken(grants: map<string, Grant>, before: Catalog, after: Catalog)
    ensures Selected(grants, before, after, true, true) == set id | id in grants && Woken(grants[id], before, after)
  {
  }

  /** While every listing works, the mapping loses nothing. */
  lemma {:induction false} ListedLosesNothing(s: System, steps: seq<Step>)
    requires Shape(s) && AllListed(steps)
    ensures Lost(s, steps, {}) == {}
    decreases |steps|
  {
    if steps != [] {
      var step := steps[0];
      assert step.DeliverCatalog? ==> step.oldListed && step.newListed;
      forall id ensures id !in LostBy(s, step) {
        if id in LostBy(s, step) {
          WakeSetSound(s.grants[id], s.catalogs[0], s.catalogs[1]);
        }
      }
      assert LostBy(s, step) == {};
      assert {} + LostBy(s, step) - Apply(s, step).queue == {};
      assert forall i | 0 <= i < |steps[1..]| :: steps[1..][i] == steps[i + 1];
      ListedLosesNothing(Apply(s, step), steps[1..]);
    }
  }

  // ----- What it means -----

  /** No event or status write is to come, nothing is queued or under way, and the last platform pass went through. */
  predicate Drained(s: System) {
    && |s.catalogs| == 1 && s.statusOwed == 0 && s.queue == {} && s.workers == map[]
    && !s.platformQueued && s.platform.Complete?
  }

  lemma InvMeans(t: System, id: string)
    requires Shape(t) && Settles(t, id) && |t.catalogs| == 1 && id in t.grants && id in t.registrations
    requires id !in t.queue && id !in t.workers
    ensures id in t.keys && t.registrations[id] == DesiredEntry(t.grants[id], t.keys[id], Current(t))
  {
    OnlyCatalog(t, id, t.registrations[id]);
  }

  lemma OnlyCatalog(t: System, id: string, e: Entry)
    requires Shape(t) && Fresh(t, id, e) && |t.catalogs| == 1
    ensures e == DesiredEntry(t.grants[id], t.keys[id], Current(t))
  {
    var j :| 0 <= j < |t.catalogs| && e == DesiredEntry(t.grants[id], t.keys[id], t.catalogs[j]);
    assert t.catalogs[j] == Current(t);
  }

  /**
   Catalog edits land. In every reachable state, once the events are delivered
   every registered session is queued, in a pass, or carries exactly the entry of
   the current catalog, unless an edit was lost on it to a failed listing and
   nothing queued it since; and unless a platform pass is still owed, the shared row
   and the policy's fallback are the current effective default.
   */
  lemma EditsLand(s: System, steps: seq<Step>)
    requires Init(s)
    ensures var t := Run(s, steps);
            && Shape(t)
            && (|t.catalogs| == 1 ==>
                forall id | id in t.grants && id in t.registrations && id !in t.queue && id !in t.workers
                            && id !in Lost(s, steps, {}) ::
                  id in t.keys && t.registrations[id] == DesiredEntry(t.grants[id], t.keys[id], Current(t)))
            && (|t.catalogs| == 1 && !t.platformQueued && t.platform.Complete? ==>
                t.row == t.fallback == Current(t).EffectiveDefaultTokenBudget())
  {
    InvHolds(s, steps, {});
    var t := Run(s, steps);
    if |t.catalogs| == 1 {
      forall id | id in t.grants && id in t.registrations && id !in t.queue && id !in t.workers
                  && id !in Lost(s, steps, {})
        ensures id in t.keys && t.registrations[id] == DesiredEntry(t.grants[id], t.keys[id], Current(t))
      {
        InvMeans(t, id);
      }
    }
  }

  /** With every listing working that is every session. */
  lemma ListedEditsLand(s: System, steps: seq<Step>)
    requires Init(s) && AllListed(steps)
    ensures var t := Run(s, steps);
            && Shape(t)
            && (|t.catalogs| == 1 ==>
                forall id | id in t.grants && id in t.registrations && id !in t.queue && id !in t.workers ::
                  id in t.keys && t.registrations[id] == DesiredEntry(t.grants[id], t.keys[id], Current(t)))
  {
    EditsLand(s, steps);
    ListedLosesNothing(s, steps);
  }

  /**
   Once everything has drained, what the gateway enforces on every registered key,
   reading the registrations, the policy and the shared row as they are stored, is
   what the resolver says for the current catalog, and no ceiling exceeds a
   maximum that the catalog sets and that can be read.
   */
  lemma DrainedEnforces(s: System, steps: seq<Step>, id: string, cost: Option<real>)
    requires Init(s) && Drained(Run(s, steps)) && id !in Lost(s, steps, {})
    requires id in Run(s, steps).grants && id in Run(s, steps).registrations
    ensures var t := Run(s, steps);
            && t.fallback >= 1
            && var ctx := Policy.Context(t.registrations[id].metadata, cost);
               var row := Policy.Ceiling(DEFAULT_BUDGET_WINDOW, t.row);
               var tokens := Policy.Enforced(Policy.TokenDescriptor(DEFAULT_BUDGET_WINDOW, t.fallback), ctx, row);
               var spend := Policy.Enforced(Policy.CostDescriptor(DEFAULT_BUDGET_WINDOW), ctx, row);
               var (c, g) := (Current(t), t.grants[id]);
               && tokens == Some(Policy.Ceiling(g.Window(), TokensOf(g, c).value))
               && spend == (if CostOf(g, c).configured
                            then Some(Policy.Ceiling(g.Window(), CostOf(g, c).micros)) else None)
               && (Set(c.MaxToken()) ==> tokens.value.amount <= c.MaxToken().value)
               && (spend.Some? && ReadDollars(c.MaxCost()).Ok? ==>
                     spend.value.amount <= ReadDollars(c.MaxCost()).value)
  {
    EditsLand(s, steps);
    var t := Run(s, steps);
    var (c, g) := (Current(t), t.grants[id]);
    var row := Policy.Ceiling(DEFAULT_BUDGET_WINDOW, t.row);
    Policy.EnforcedExactly(g, t.keys[id], c, cost, row);
    TokenCeiling(g.tokenBudget, c);
    CostCeiling(g, c);
  }

  // ----- The listings the wake-up depends on -----

  /** How the two listings of one delivery ended: on the old object, and on the new one. */
  type Listings = (bool, bool)

  function Deliveries(outcomes: seq<Listings>): (steps: seq<Step>)
    ensures |steps| == |outcomes|
    ensures forall k | 0 <= k < |outcomes| :: steps[k] == DeliverCatalog(outcomes[k].0, outcomes[k].1)
  {
    seq(|outcomes|, k requires 0 <= k < |outcomes| => DeliverCatalog(outcomes[k].0, outcomes[k].1))
  }

  /** Some working listing of the backlog selects the grant. */
  ghost predicate Reached(g: Grant, catalogs: seq<Catalog>, outcomes: seq<Listings>)
    requires |catalogs| == |outcomes| + 1
  {
    exists k :: 0 <= k < |outcomes| && Reaches(g, catalogs, outcomes, k)
  }

  predicate Reaches(g: Grant, catalogs: seq<Catalog>, outcomes: seq<Listings>, k: nat)
    requires |catalogs| == |outcomes| + 1 && k < |outcomes|
  {
    (outcomes[k].0 && Needs(g, catalogs[k])) || (outcomes[k].1 && Needs(g, catalogs[k + 1]))
  }

  /** Delivering a whole backlog queues a session that was not queued exactly when a working listing reached it. */
  lemma {:induction false} BacklogQueuesIff(s: System, outcomes: seq<Listings>, id: string)
    requires Shape(s) && |s.catalogs| == |outcomes| + 1 && id in s.grants
    ensures var t := Run(s, Deliveries(outcomes));
            && t == s.(queue := t.queue, platformQueued := t.platformQueued, catalogs := [Current(s)])
            && (id in t.queue <==> id in s.queue || Reached(s.grants[id], s.catalogs, outcomes))
    decreases |outcomes|
  {
    if outcomes != [] {
      var g, rest := s.grants[id], outcomes[1..];
      var step := DeliverCatalog(outcomes[0].0, outcomes[0].1);
      var t := Apply(s, step);
      assert Deliveries(outcomes)[0] == step && Deliveries(outcomes)[1..] == Deliveries(rest);
      BacklogQueuesIff(t, rest, id);
      ReachedByFirstOrRest(g, s.catalogs, outcomes);
    } else {
      assert s.catalogs == [Current(s)];
    }
  }

  lemma ReachedByFirstOrRest(g: Grant, catalogs: seq<Catalog>, outcomes: seq<Listings>)
    requires |catalogs| == |outcomes| + 1 && outcomes != []
    ensures Reached(g, catalogs, outcomes) <==>
            Reaches(g, catalogs, outcomes, 0) || Reached(g, catalogs[1..], outcomes[1..])
  {
    forall k | 0 < k < |outcomes|
      ensures Reaches(g, catalogs, outcomes, k) <==> Reaches(g, catalogs[1..], outcomes[1..], k - 1)
    {
    }
    if Reached(g, catalogs[1..], outcomes[1..]) {
      var k :| 0 <= k < |outcomes[1..]| && Reaches(g, catalogs[1..], outcomes[1..], k);
      assert Reaches(g, catalogs, outcomes, k + 1);
    }
    if Reached(g, catalogs, outcomes) && !Reaches(g, catalogs, outcomes, 0) {
      var k :| 0 <= k < |outcomes| && Reaches(g, catalogs, outcomes, k);
      assert Reaches(g, catalogs[1..], outcomes[1..], k - 1);
    }
  }

  /** The edits land on a session: it is queued, or its entry is the current one. */
  predicate Landed(t: System, id: string)
    requires Shape(t)
  {
    id in t.queue ||
    (id in t.grants && id in t.keys && id in t.registrations
     && t.registrations[id] == DesiredEntry(t.grants[id], t.keys[id], Current(t)))
  }

  /** A session that nothing is outstanding for, carrying the entry of the last delivered catalog. */
  predicate Settled(s: System, id: string)
    requires Shape(s)
  {
    && id in s.grants && id in s.keys && id in s.registrations && id !in s.queue && id !in s.workers
    && s.registrations[id] == DesiredEntry(s.grants[id], s.keys[id], s.catalogs[0])
  }

  /**
   A listing that fails selects nobody. When a backlog of events has been delivered to
   a settled session, the edits in it landed if and only if they pin the grant to what
   it was pinned to, or some listing that worked selected the grant.
   */
  lemma UnlistedEditLandsWhen(s: System, outcomes: seq<Listings>, id: string)
    requires Shape(s) && |s.catalogs| == |outcomes| + 1 && Settled(s, id)
    ensures Landed(Run(s, Deliveries(outcomes)), id) <==>
            || Pinned(s.grants[id], s.catalogs[0]) == Pinned(s.grants[id], Current(s))
            || Reached(s.grants[id], s.catalogs, outcomes)
  {
    var (g, key) := (s.grants[id], s.keys[id]);
    BacklogQueuesIff(s, outcomes, id);
    if DesiredEntry(g, key, s.catalogs[0]) == DesiredEntry(g, key, Current(s)) {
      PinsInEntry(g, key, s.catalogs[0], Current(s));
    }
  }

  /**
   One edit is always two events, its own and that of the catalog controller's status
   write. The edit lands on a settled session if and only if the pins stay, the one
   listing made under the old terms worked and needed the grant, or one of the three
   made under the new terms did.
   */
  lemma EditAndStatusLandIff(s: System, c: Catalog, covers: nat, first: Listings, second: Listings, id: string)
    requires Shape(s) && |s.catalogs| == 1 && Settled(s, id) && 1 <= covers <= s.statusOwed + 1
    ensures var steps := [EditCatalog(c), WriteStatus(covers)] + Deliveries([first, second]);
            var g := s.grants[id];
            Landed(Run(s, steps), id) <==>
            || Pinned(g, Current(s)) == Pinned(g, c)
            || (first.0 && Needs(g, Current(s)))
            || ((first.1 || second.0 || second.1) && Needs(g, c))
  {
    var written := Apply(Apply(s, EditCatalog(c)), WriteStatus(covers));
    EditedAndReported(s, c, covers, Deliveries([first, second]));
    UnlistedEditLandsWhen(written, [first, second], id);
    ReachedByTwo(s.grants[id], Current(s), c, first, second);
  }

  lemma EditedAndReported(s: System, c: Catalog, covers: nat, rest: seq<Step>)
    requires Shape(s) && |s.catalogs| == 1 && 1 <= covers <= s.statusOwed + 1
    ensures var written := Apply(Apply(s, EditCatalog(c)), WriteStatus(covers));
            && written == s.(catalogs := [Current(s), c, c], statusOwed := s.statusOwed + 1 - covers)
            && Run(s, [EditCatalog(c), WriteStatus(covers)] + rest) == Run(written, rest)
  {
    var steps := [EditCatalog(c), WriteStatus(covers)] + rest;
    assert steps[1..] == [WriteStatus(covers)] + rest && steps[1..][1..] == rest;
    assert s.catalogs + [c] + [c] == [Current(s), c, c];
  }

  lemma ReachedByTwo(g: Grant, before: Catalog, after: Catalog, first: Listings, second: Listings)
    ensures Reached(g, [before, after, after], [first, second]) <==>
            (first.0 && Needs(g, before)) || ((first.1 || second.0 || second.1) && Needs(g, after))
  {
    var cs, os := [before, after, after], [first, second];
    assert Reaches(g, cs, os, 0) <==> (first.0 && Needs(g, before)) || (first.1 && Needs(g, after));
    assert Reaches(g, cs, os, 1) <==> (second.0 && Needs(g, after)) || (second.1 && Needs(g, after));
  }
}
