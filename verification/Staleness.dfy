/**
 The Secret under arbitrarily stale reads: any number of passes, each working from
 any version the object ever had, against a store that creates only what is
 absent and updates only what has not changed.
 */
module Staleness {
  import opened Common
  import opened Budget
  import opened Registration
  import opened Session
  import Sync

  /** The stored object, and every version any reader may still be holding. */
  datatype Store = Store(current: Option<Stored<Secret>>, history: map<nat, Secret>, next: nat)

  ghost predicate Valid(s: Store) {
    && (s.current.Some? ==>
        && s.current.value.version in s.history
        && s.history[s.current.value.version] == s.current.value.obj)
    && forall v | v in s.history :: v < s.next
  }

  function Put(s: Store, obj: Secret): Store {
    Store(Some(Stored(obj, s.next)), s.history[s.next := obj], s.next + 1)
  }

  /** Create succeeds only when the object is absent. */
  function Create(s: Store, obj: Secret): Store {
    if s.current.None? then Put(s, obj) else s
  }

  /** Update succeeds only against the version that was read. */
  function Update(s: Store, read: nat, obj: Secret): Store {
    if s.current.Some? && s.current.value.version == read then Put(s, obj) else s
  }

  /** What a pass does next with what it read, however old: absent, or some version of the object. */
  datatype Decision = Mint | Repair | FixUrl | Reuse

  function Decide(seen: Option<Secret>, gatewayUrl: string): Decision {
    if seen.None? then Mint
    else if seen.value.key == "" then Repair
    else if seen.value.baseUrl != gatewayUrl then FixUrl
    else Reuse
  }

  /** What a pass would put into a Secret of its own making. */
  datatype Minted = Minted(key: string, labels: map<string, string>, owner: Option<string>)

  datatype Step =
    /** A pass that read the given version, or read that there was none, makes its one write. */
    | Write(read: Option<nat>, gatewayUrl: string, minted: Minted)
    /** Anyone else replaces or deletes the object. */
    | External(obj: Option<Secret>)

  predicate Possible(s: Store, step: Step) {
    step.Write? && step.read.Some? ==> step.read.value in s.history
  }

  /** The object as a reader sees it: absent, or some version it had. */
  function Seen(s: Store, read: Option<nat>): Option<Secret>
    requires read.Some? ==> read.value in s.history
  {
    if read.None? then None else Some(s.history[read.value])
  }

  function Apply(s: Store, step: Step): Store
    requires Possible(s, step)
  {
    match step
    case External(None) => s.(current := None)
    case External(Some(obj)) => Put(s, obj)
    case Write(read, url, m) =>
      var seen := Seen(s, read);
      match Decide(seen, url)
      case Mint => Create(s, Secret(m.key, url, m.labels, m.owner))
      case Repair => Update(s, read.value, seen.value.(key := m.key, baseUrl := url, labels := m.labels))
      case FixUrl => Update(s, read.value, seen.value.(baseUrl := url))
      case Reuse => s
  }

  function KeyIn(s: Store): string {
    if s.current.Some? then s.current.value.obj.key else ""
  }

  /** A run: each state follows from the one before by a possible step. */
  ghost predicate Run(states: seq<Store>, steps: seq<Step>) {
    && |states| == |steps| + 1
    && forall i | 0 <= i < |steps| :: Possible(states[i], steps[i]) && states[i + 1] == Apply(states[i], steps[i])
  }

  lemma StepKeeps(s: Store, step: Step)
    requires Valid(s) && Possible(s, step)
    ensures Valid(Apply(s, step))
    ensures step.Write? && KeyIn(s) != "" ==> KeyIn(Apply(s, step)) == KeyIn(s)
  {
  }

  lemma {:induction false} AlwaysValid(states: seq<Store>, steps: seq<Step>, i: nat)
    requires Run(states, steps) && Valid(states[0]) && i < |states|
    ensures Valid(states[i])
  {
    if i > 0 {
      AlwaysValid(states, steps, i - 1);
      StepKeeps(states[i - 1], steps[i - 1]);
    }
  }

  /**
   A live key is never rotated: over any run and between any two of its moments,
   if a non-empty key is replaced or lost then some external write or deletion
   happened in between.
   */
  lemma {:induction false} LiveKeyIsNeverRotated(states: seq<Store>, steps: seq<Step>, i: nat, j: nat)
    requires Run(states, steps) && Valid(states[0]) && i <= j < |states|
    requires KeyIn(states[i]) != "" && KeyIn(states[j]) != KeyIn(states[i])
    ensures exists k :: i <= k < j && steps[k].External? && KeyIn(states[k]) == KeyIn(states[i]) != KeyIn(states[k + 1])
    decreases j
  {
    if j > i {
      if KeyIn(states[j - 1]) == KeyIn(states[i]) {
        AlwaysValid(states, steps, j - 1);
        StepKeeps(states[j - 1], steps[j - 1]);
        var k := j - 1;
        assert steps[k].External? && KeyIn(states[k]) == KeyIn(states[i]) != KeyIn(states[k + 1]);
      } else {
        LiveKeyIsNeverRotated(states, steps, i, j - 1);
      }
    }
  }

  /** With a read that is current, the write and the key handed on are the pass's own, object and version alike. */
  lemma CurrentReadAgrees(s: State, p: PassInputs, store: Store)
    requires !NamespaceEnding(s) && Valid(store) && store.current == s.secret && store.next == s.nextVersion
    ensures var read := if s.secret.Some? then Some(s.secret.value.version) else None;
            var owner := if s.sessionNamespace == Gone then None else Some(p.grant.name);
            var w := Write(read, p.gatewayUrl, Minted(p.newKey, SecretLabels(p.grant), owner));
            var (t, r) := SecretAfter(s, p, NO_FAULTS);
            && Possible(store, w)
            && Apply(store, w).current == t.secret && Apply(store, w).next == t.nextVersion
            && r.Key? && Handed(store, w, None) == Some(r.key)
            && (r.generated <==> !HasKey(s))
  {
  }

  // ----- The key a pass hands on -----

  /**
   What a pass relied on for its key, when that was not a write of its own: the version
   it reused, or read after losing a create.
   */
  function ReliedOn(s: Store, w: Step, reread: Option<nat>): Option<Secret>
    requires w.Write? && Possible(s, w) && (reread.Some? ==> reread.value in s.history)
  {
    match Decide(Seen(s, w.read), w.gatewayUrl)
    case Reuse => Seen(s, w.read)
    case Mint => if s.current.Some? then Seen(s, reread) else None
    case _ => None
  }

  /** The key a pass goes on to register; none when it fails. */
  function Handed(s: Store, w: Step, reread: Option<nat>): Option<string>
    requires w.Write? && Possible(s, w) && (reread.Some? ==> reread.value in s.history)
  {
    var seen := Seen(s, w.read);
    var written := s.current.Some? && w.read == Some(s.current.value.version);
    match Decide(seen, w.gatewayUrl)
    case Reuse => Some(seen.value.key)
    case FixUrl => if written then Some(seen.value.key) else None
    case Repair => if written then Some(w.minted.key) else None
    case Mint =>
      if s.current.None? then Some(w.minted.key)
      else
        // A lost create: the object is read again, and its key used if it has one.
        var again := Seen(s, reread);
        if again.Some? && again.value.key != "" then Some(again.value.key) else None
  }

  /**
   When a pass has a key to go on with: it read a live one, with the gateway's address or
   from the version that is stored; or it read an object without one, from the version
   that is stored; or it read none, and either there is none or reading again finds a key.
   */
  lemma HandsOnIff(s: Store, w: Step, reread: Option<nat>)
    requires w.Write? && Possible(s, w) && (reread.Some? ==> reread.value in s.history)
    ensures var (seen, again) := (Seen(s, w.read), Seen(s, reread));
            var stored := s.current.Some? && w.read == Some(s.current.value.version);
            Handed(s, w, reread).Some? <==>
            || (seen.Some? && seen.value.key != "" && (seen.value.baseUrl == w.gatewayUrl || stored))
            || (seen.Some? && seen.value.key == "" && stored)
            || (seen.None? && (s.current.None? || (again.Some? && again.value.key != "")))
  {
  }

  /**
   The hash a pass registers is that of the stored key exactly when it wrote the
   Secret itself, or the version it relied on still carries the stored key.
   */
  lemma RegisteredHashIsStoredIff(s: Store, w: Step, reread: Option<nat>, g: Grant, c: Catalog)
    requires Valid(s) && w.Write? && Possible(s, w) && (reread.Some? ==> reread.value in s.history)
    requires Handed(s, w, reread).Some?
    ensures DesiredEntry(g, Handed(s, w, reread).value, c).keyHash == Sha256(KeyIn(Apply(s, w))) <==>
            (ReliedOn(s, w, reread).Some? ==> ReliedOn(s, w, reread).value.key == KeyIn(s))
  {
    HandedIs(s, w, reread);
  }

  lemma HandedIs(s: Store, w: Step, reread: Option<nat>)
    requires Valid(s) && w.Write? && Possible(s, w) && (reread.Some? ==> reread.value in s.history)
    requires Handed(s, w, reread).Some?
    ensures if ReliedOn(s, w, reread).Some?
            then Handed(s, w, reread).value == ReliedOn(s, w, reread).value.key && KeyIn(Apply(s, w)) == KeyIn(s)
            else Handed(s, w, reread).value == KeyIn(Apply(s, w))
  {
  }

  /**
   If a version that was current at one moment of a run is relied on at a later one,
   its key is the stored one unless somebody else replaced it.
   */
  lemma OldKeyNeedsExternal(states: seq<Store>, steps: seq<Step>, i: nat, j: nat, was: Secret)
    requires Run(states, steps) && Valid(states[0]) && i <= j < |states|
    requires states[i].current.Some? && states[i].current.value.obj == was
    requires was.key != "" && was.key != KeyIn(states[j])
    ensures exists k :: i <= k < j && steps[k].External? && KeyIn(states[k]) == was.key != KeyIn(states[k + 1])
  {
    LiveKeyIsNeverRotated(states, steps, i, j);
  }

  /**
   How that comes about: the Secret is deleted, a pass mints a new key, and the next
   one still reads the old version.
   */
  lemma OldKeyRegistered(obj: Secret, m: Minted, g: Grant, c: Catalog)
    requires obj.key != "" && m.key != "" && m.key != obj.key
    ensures var s0 := Put(Store(None, map[], 0), obj);
            var s1 := Apply(s0, External(None));
            var s2 := Apply(s1, Write(None, obj.baseUrl, m));
            var late := Write(Some(0), obj.baseUrl, m);
            && Valid(s2) && Possible(s2, late) && KeyIn(s2) == m.key
            && Handed(s2, late, None) == Some(obj.key)
            && DesiredEntry(g, Handed(s2, late, None).value, c).keyHash != Sha256(KeyIn(Apply(s2, late)))
  {
    var s0 := Put(Store(None, map[], 0), obj);
    var s1 := Apply(s0, External(None));
    var s2 := Apply(s1, Write(None, obj.baseUrl, m));
    assert s1.next == 1 && s2.history == map[0 := obj][1 := Secret(m.key, obj.baseUrl, m.labels, m.owner)];
    RegisteredHashIsStoredIff(s2, Write(Some(0), obj.baseUrl, m), None, g, c);
  }

  // ----- The registration under a stale read -----

  type Data = map<string, Payload>

  predicate Carries(stored: Option<Stored<Data>>, name: string, desired: Entry) {
    stored.Some? && name in stored.value.obj && stored.value.obj[name] == Json(desired)
  }

  /**
   ensureRegistration over a store holding `current`, having read `seen`: what is
   stored after, and whether it reports success.
   */
  function RegisterSeeing(current: Option<Stored<Data>>, seen: Option<Stored<Data>>,
                          name: string, desired: Entry, next: nat)
    : (Option<Stored<Data>>, bool)
  {
    var written := Some(Stored(map[name := Json(desired)], next));
    if seen.None? then
      // A create that finds the object already there counts as success.
      (if current.None? then written else current, true)
    else if Carries(seen, name, desired) then (current, true)
    else if current.Some? && current.value.version == seen.value.version then (written, true)
    else (current, false)
  }

  /**
   The registration, unlike the key, has no such safety: a pass that reports
   success leaves the wanted entry if and only if its read was current or the
   entry stored was the wanted one already.
   */
  lemma RegisteredIffReadCurrent(current: Option<Stored<Data>>, seen: Option<Stored<Data>>,
                                 name: string, desired: Entry, next: nat)
    requires current.Some? && seen.Some? && current.value.version == seen.value.version ==> seen == current
    requires RegisterSeeing(current, seen, name, desired, next).1
    ensures Carries(RegisterSeeing(current, seen, name, desired, next).0, name, desired) <==>
            seen == current || Carries(current, name, desired)
  {
    var written := Some(Stored(map[name := Json(desired)], next));
    assert Carries(written, name, desired);
  }

  /**
   How the older entry survives: the catalog's maximum is lowered, and the pass that
   should pin the new ceiling reads that there is no registration yet. It reports
   success and the entry pinned under the old maximum stays.
   */
  lemma OlderEntryKept(key: string, version: nat, next: nat)
    ensures var g := Grant("s1", "workshop", "", Some(500), "", "", Unset, 0);
            var before := DesiredEntry(g, key, Catalog(None));
            var wanted := DesiredEntry(g, key, Catalog(Some(BudgetSpec(None, Some(100), "", ""))));
            var stored := Some(Stored(map["s1" := Json(before)], version));
            RegisterSeeing(stored, None, "s1", wanted, next) == (stored, true) && !Carries(stored, "s1", wanted)
  {
    var g := Grant("s1", "workshop", "", Some(500), "", "", Unset, 0);
    var lowered := Catalog(Some(BudgetSpec(None, Some(100), "", "")));
    assert Pinned(g, Catalog(None)).0 == Some(500) && Pinned(g, lowered).0 == Some(100);
    if DesiredEntry(g, key, Catalog(None)) == DesiredEntry(g, key, lowered) {
      PinsInEntry(g, key, Catalog(None), lowered);
    }
  }

  /** With a read that is current this is the pass's own registration step. */
  lemma CurrentRegistrationAgrees(s: State, name: string, desired: Entry)
    requires s.gatewayNamespace == Active
    ensures var (stored, ok) := RegisterSeeing(s.registration, s.registration, name, desired, s.nextVersion);
            var (t, registered) := RegistrationAfter(s, name, desired, NO_FAULTS);
            t.registration == stored && registered == ok
  {
  }

  /**
   The publishing call of the call-grained model is the same step: over any versions
   that tell apart the entries that differ, it stores the same entry, and its key goes
   back to the queue exactly when the step reports a failure.
   */
  lemma PublishAgrees(s: Sync.System, id: string, stored: nat, seen: nat, next: nat)
    requires Sync.Shape(s) && id in s.workers && s.workers[id].Compares? && id !in s.queue
    requires stored == seen <==> Sync.Get(s.registrations, id) == s.workers[id].seen
    ensures var t := Sync.Advance(s, id, Sync.Publish(id));
            var (after, ok) := RegisterSeeing(AsObject(Sync.Get(s.registrations, id), id, stored),
                                              AsObject(s.workers[id].seen, id, seen), id, s.workers[id].desired, next);
            && id !in t.workers && (ok <==> id !in t.queue)
            && (match Sync.Get(t.registrations, id)
                case None => after.None?
                case Some(e) => after.Some? && after.value.obj == map[id := Json(e)])
  {
  }

  function AsObject(e: Option<Entry>, id: string, version: nat): Option<Stored<Data>> {
    if e.None? then None else Some(Stored(map[id := Json(e.value)], version))
  }
}
