/**
 The status of a grant under a stale read. A pass works on the copy of the grant it
 read, and whichever way it ends it writes that copy's whole status back, re-reading
 the object only to have a current version to write over.
 */
module StaleStatus {
  import opened Common
  import opened Registration
  import opened Session
  import opened Lifecycle

  /** The pass got as far as looking up the Secret's owner, whose failure ends it without a status write. */
  predicate LooksUpOwner(s: State, p: PassInputs, f: Faults) {
    && p.catalog.Some?
    && var (t, secret) := SecretAfter(s.(finalizer := true), p, f);
       && secret.Key?
       && RegistrationAfter(t, p.grant.name, DesiredEntry(p.grant, secret.key, p.catalog.value), f).1
  }

  /** The pass ends in a status write, and the write goes through. */
  predicate WritesStatus(s: State, p: PassInputs, f: Faults) {
    && !f.statusWrite
    && (p.placementValid ==>
          && (s.finalizer || !f.finalizerWrite) && !f.catalogRead
          && (f.ownerLookup ==> !LooksUpOwner(s, p, f)))
  }

  /** Which passes write the status, by what each finds and which of its calls fail. */
  lemma WritesStatusIff(s: State, p: PassInputs, f: Faults)
    requires p.newKey != ""
    ensures WritesStatus(s, p, f) <==>
            && !f.statusWrite
            && (|| !p.placementValid
                || (Proceeds(s, p, f) && p.catalog.None?)
                || (&& Proceeds(s, p, f) && p.catalog.Some?
                    && !(&& f.ownerLookup && SecretWorks(s, p, f)
                         && RegistrationWorks(s, p.grant.name,
                                              DesiredEntry(p.grant, KeyToUse(s, p), p.catalog.value), f))))
  {
  }

  /**
   A pass whose copy of the grant records `seen` as the owning namespace, and has the
   finalizer if `held`. Adding the finalizer from an old copy is a conflict, which ends
   the pass before anything else.
   */
  function StalePassAfter(s: State, seen: string, held: bool, p: PassInputs, f: Faults): (State, PassResult)
    requires held ==> s.finalizer
  {
    var view := s.(recordedNamespace := seen);
    if p.placementValid && !held && (s.finalizer || seen != s.recordedNamespace) then (s, Failed)
    else
      var (t, r) := PassAfter(view, p, f);
      (t.(recordedNamespace := if WritesStatus(view, p, f) then t.recordedNamespace else s.recordedNamespace), r)
  }

  /** With a current copy this is the pass itself. */
  lemma CurrentCopyIsThePass(s: State, p: PassInputs, f: Faults)
    ensures StalePassAfter(s, s.recordedNamespace, s.finalizer, p, f) == PassAfter(s, p, f)
  {
    assert s.(recordedNamespace := s.recordedNamespace) == s;
    RecordAfter(s, p, f);
  }

  /** What a pass does to the record. */
  lemma RecordAfter(s: State, p: PassInputs, f: Faults)
    ensures var (t, r) := PassAfter(s, p, f);
            && t.recordedNamespace ==
               (if r == Ready && Owner(t) != "" then Owner(t) else s.recordedNamespace)
            && (r == Ready ==> WritesStatus(s, p, f))
  {
  }

  function Owner(s: State): string {
    if s.secret.Some? && s.secret.value.obj.owner.Some? then s.secret.value.obj.owner.value else ""
  }

  /**
   The record is lost exactly when the copy was from before the first record but had
   the finalizer already, or its placement is refused, the pass ends in a status write
   that goes through, and it is not a Ready pass over an owned Secret.
   */
  lemma ForgetsIff(s: State, seen: string, held: bool, p: PassInputs, f: Faults)
    requires s.recordedNamespace != "" && (held ==> s.finalizer)
    ensures var (t, r) := StalePassAfter(s, seen, held, p, f);
            t.recordedNamespace == "" <==>
            && seen == "" && WritesStatus(s.(recordedNamespace := seen), p, f)
            && (p.placementValid ==> held)
            && !(r == Ready && Owner(t) != "")
  {
    RecordAfter(s.(recordedNamespace := seen), p, f);
  }

  /**
   A pass over a recorded and ended session mints again exactly when the namespace
   is gone, its copy was from before the first record but had the finalizer already,
   and its calls work.
   */
  lemma StaleMintsWhen(s: State, seen: string, held: bool, p: PassInputs, f: Faults)
    requires Ended(s) && s.recordedNamespace != "" && KeyOf(s) == "" && p.newKey != "" && (held ==> s.finalizer)
    ensures KeyOf(StalePassAfter(s, seen, held, p, f).0) != "" <==>
            && s.sessionNamespace == Gone && seen == "" && held
            && p.placementValid && p.catalog.Some?
            && !(f.catalogRead || f.secretRead || f.namespaceRead || f.ownerRead || f.secretWrite)
  {
    var view := s.(recordedNamespace := seen);
    assert !HasKey(view);
    PassMintsWhen(view, p, f);
  }

  // ----- Runs -----

  datatype Moment =
    | Fresh(step: Step)                                       // a step as Lifecycle has it, its reads current
    | Stale(seen: string, held: bool, p: PassInputs, f: Faults)

  /** No copy has a finalizer that was not there yet. */
  function Happen(s: State, m: Moment): State {
    match m
    case Fresh(step) => Apply(s, step)
    case Stale(seen, held, p, f) => StalePassAfter(s, seen, held && s.finalizer, p, f).0
  }

  function RunAll(s: State, moments: seq<Moment>): State
    decreases |moments|
  {
    if moments == [] then s else RunAll(Happen(s, moments[0]), moments[1..])
  }

  /** No copy is from before the first record. */
  predicate Remembering(moments: seq<Moment>) {
    forall i | 0 <= i < |moments| :: moments[i].Stale? ==> moments[i].seen != ""
  }

  lemma MomentAfterEnd(s: State, m: Moment)
    requires Ended(s) && s.recordedNamespace != "" && (m.Stale? ==> m.seen != "")
    ensures var t := Happen(s, m);
            && Ended(t) && t.recordedNamespace != ""
            && (KeyOf(t) == KeyOf(s) || KeyOf(t) == "")
  {
    match m
    case Fresh(step) => StepAfterEnd(s, step);
    case Stale(seen, held, p, f) =>
      var view := s.(recordedNamespace := seen);
      StepAfterEnd(view, Pass(p, f));
  }

  /** No resurrection under stale reads, as long as no read is from before the first record. */
  lemma {:induction false} NoResurrectionWhileRemembered(s: State, moments: seq<Moment>)
    requires Ended(s) && s.recordedNamespace != "" && Remembering(moments)
    ensures var t := RunAll(s, moments);
            && Ended(t) && t.recordedNamespace != ""
            && (KeyOf(t) == KeyOf(s) || KeyOf(t) == "")
    decreases |moments|
  {
    if moments != [] {
      MomentAfterEnd(s, moments[0]);
      assert forall i | 0 <= i < |moments[1..]| :: moments[1..][i] == moments[i + 1];
      NoResurrectionWhileRemembered(Happen(s, moments[0]), moments[1..]);
    }
  }

  /**
   How a key comes back: a grant that has its finalizer becomes Ready and its session
   is recorded, the namespace ends and the Secret is collected, and a pass still reads
   the grant as it was before that record. A copy from before the finalizer would have
   ended in a conflict.
   */
  lemma OldCopyResurrects(s: State, name: string)
    requires s.secret.None? && s.sessionNamespace == Active && s.gatewayNamespace == Active && name != ""
    requires s.recordedNamespace == "" && s.finalizer
    ensures var p := PlainPass(name);
            var recorded := Apply(s, Pass(p, NO_FAULTS));
            var ended := Apply(Apply(Apply(recorded, EndSessionNamespace), RemoveSessionNamespace), DeleteSecret);
            && PassAfter(s, p, NO_FAULTS).1 == Ready && recorded.recordedNamespace == name
            && ended.secret.None? && ended.recordedNamespace == name
            && ended.finalizer
            && KeyOf(StalePassAfter(ended, s.recordedNamespace, s.finalizer, p, NO_FAULTS).0) != ""
            && StalePassAfter(ended, s.recordedNamespace, false, p, NO_FAULTS) == (ended, Failed)
  {
    var p := PlainPass(name);
    FirstPassIsReady(s, p);
    FirstReadyRecords(s, p, NO_FAULTS);
    var recorded := Apply(s, Pass(p, NO_FAULTS));
    PassFrame(s, p, NO_FAULTS);
    var ended := Apply(Apply(Apply(recorded, EndSessionNamespace), RemoveSessionNamespace), DeleteSecret);
    StaleMintsWhen(ended, "", true, p, NO_FAULTS);
  }

  lemma FirstPassIsReady(s: State, p: PassInputs)
    requires !HasKey(s) && s.sessionNamespace == Active && s.gatewayNamespace == Active
    requires p.placementValid && p.catalog.Some?
    ensures PassAfter(s, p, NO_FAULTS).1 == Ready && PassAfter(s, p, NO_FAULTS).0.finalizer
  {
  }
}
