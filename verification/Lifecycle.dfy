/**
 A participant key over whole runs: passes that may fail anywhere, and an
 environment that deletes Secrets and ends namespaces between them. No bound on
 the length of a run.
 */
module Lifecycle {
  import opened Common
  import opened Budget
  import opened Registration
  import opened Session

  datatype Step =
    | Pass(p: PassInputs, f: Faults)
    | DeleteSecret              // the garbage collector, or anyone else
    | EmptySecret               // its key is removed, the object stays
    | CreateKeyless(owner: Option<string>)      // someone else creates the object, without a key
    | EndSessionNamespace       // deletion is requested
    | RemoveSessionNamespace    // deletion completes
    | LoseRegistration
    | GatewayNamespace(phase: Phase)

  /** A step that is not possible where it is taken changes nothing. */
  function Apply(s: State, step: Step): State {
    match step
    case Pass(p, f) => PassAfter(s, p, f).0
    case DeleteSecret => s.(secret := None)
    case EmptySecret =>
      if s.secret.Some? then PutSecret(s, s.secret.value.obj.(key := "")) else s
    case CreateKeyless(owner) =>
      if s.secret.None? then PutSecret(s, Secret("", "", map[], owner)) else s
    case EndSessionNamespace =>
      if s.sessionNamespace == Active then s.(sessionNamespace := Terminating) else s
    case RemoveSessionNamespace =>
      if s.sessionNamespace == Terminating then s.(sessionNamespace := Gone) else s
    case LoseRegistration => s.(registration := None)
    case GatewayNamespace(phase) => s.(gatewayNamespace := phase)
  }

  function Run(s: State, steps: seq<Step>): State
    decreases |steps|
  {
    if steps == [] then s else Run(Apply(s, steps[0]), steps[1..])
  }

  function KeyOf(s: State): string {
    if s.secret.Some? then s.secret.value.obj.key else ""
  }

  predicate Ended(s: State) {
    s.sessionNamespace != Active
  }

  /** What no pass touches: the namespaces stay, and a recorded owner is only ever replaced by another. */
  lemma PassFrame(s: State, p: PassInputs, f: Faults)
    ensures var t := PassAfter(s, p, f).0;
            && t.sessionNamespace == s.sessionNamespace && t.gatewayNamespace == s.gatewayNamespace
            && (s.recordedNamespace != "" ==> t.recordedNamespace != "")
  {
    var s1 := s.(finalizer := true);
    var (s2, secret) := SecretAfter(s1, p, f);
    assert s2.sessionNamespace == s.sessionNamespace && s2.recordedNamespace == s.recordedNamespace;
    if secret.Key? && p.catalog.Some? {
      var s3 := RegistrationAfter(s2, p.grant.name, DesiredEntry(p.grant, secret.key, p.catalog.value), f).0;
      assert s3.sessionNamespace == s.sessionNamespace && s3.recordedNamespace == s.recordedNamespace;
    }
  }

  lemma PassAfterEnd(s: State, p: PassInputs, f: Faults)
    requires NamespaceEnding(s)
    ensures KeyOf(PassAfter(s, p, f).0) == KeyOf(s)
    ensures s.secret.None? ==> PassAfter(s, p, f).0.secret.None?
  {
  }

  lemma StepAfterEnd(s: State, step: Step)
    requires Ended(s) && s.recordedNamespace != ""
    ensures var t := Apply(s, step);
            && Ended(t) && t.recordedNamespace != ""
            && (KeyOf(t) == KeyOf(s) || KeyOf(t) == "")
            && (s.secret.None? && !step.CreateKeyless? ==> t.secret.None?)
  {
    if step.Pass? {
      PassFrame(s, step.p, step.f);
      PassAfterEnd(s, step.p, step.f);
    }
  }

  /**
   No resurrection. Once the session namespace is ending and its ownership was
   recorded, no continuation ever shows a key other than the one already there;
   once the Secret is collected no key comes back, and no Secret either unless
   someone else creates one.
   */
  lemma {:induction false} NoResurrection(s: State, steps: seq<Step>)
    requires Ended(s) && s.recordedNamespace != ""
    ensures var t := Run(s, steps);
            && Ended(t) && t.recordedNamespace != ""
            && (KeyOf(t) == KeyOf(s) || KeyOf(t) == "")
            && (KeyOf(s) == "" ==> KeyOf(t) == "")
            && (s.secret.None? && (forall i | 0 <= i < |steps| :: !steps[i].CreateKeyless?) ==> t.secret.None?)
    decreases |steps|
  {
    if steps != [] {
      assert forall i | 0 <= i < |steps[1..]| :: steps[1..][i] == steps[i + 1];
      StepAfterEnd(s, steps[0]);
      NoResurrection(Apply(s, steps[0]), steps[1..]);
    }
  }

  /** Some continuation gives the session a key again. */
  ghost predicate CanReturn(s: State) {
    exists steps :: KeyOf(Run(s, steps)) != ""
  }

  /**
   The exact condition: a session whose namespace is ending and whose key is
   gone can get one again if and only if no owning namespace was ever recorded.
   */
  lemma ReturnsIffUnrecorded(s: State, name: string)
    requires Ended(s) && KeyOf(s) == ""
    ensures CanReturn(s) <==> s.recordedNamespace == ""
  {
    if s.recordedNamespace == "" {
      ReturnsUnrecorded(s, name);
    } else {
      forall steps ensures KeyOf(Run(s, steps)) == "" {
        NoResurrection(s, steps);
      }
    }
  }

  /** A pass over a grant that asks for nothing, under a catalog that offers nothing. */
  function PlainPass(name: string): PassInputs {
    var grant := Grant(name, "workshop", "", None, "", "", Unset, 0);
    PassInputs(grant, Some(Catalog(None)), "http://gateway", true, "sk-new")
  }

  lemma RunTwo(s: State, a: Step, b: Step)
    ensures Run(s, [a, b]) == Apply(Apply(s, a), b)
  {
    assert [a, b][1..] == [b] && [b][1..] == [];
    assert Run(s, [a, b]) == Run(Apply(s, a), [b]) == Run(Apply(Apply(s, a), b), []);
  }

  lemma ReturnsUnrecorded(s: State, name: string)
    requires Ended(s) && KeyOf(s) == "" && s.recordedNamespace == ""
    ensures CanReturn(s)
  {
    var gone := Apply(s, RemoveSessionNamespace);
    assert gone.sessionNamespace == Gone && !HasKey(gone);
    PassMintsWhen(gone, PlainPass(name), NO_FAULTS);
    RunTwo(s, RemoveSessionNamespace, Pass(PlainPass(name), NO_FAULTS));
    assert KeyOf(Run(s, [RemoveSessionNamespace, Pass(PlainPass(name), NO_FAULTS)])) != "";
  }

  /**
   How a minted Secret comes to be unowned: someone else creates it without a key
   and the next pass repairs it. The session's namespace is there, yet the Secret
   is not given it as an owner, so nothing records it and its end collects nothing.
   */
  lemma RepairedSecretIsUnowned(s: State, name: string)
    requires s.secret.None? && s.sessionNamespace == Active && s.recordedNamespace == ""
    ensures var t := Run(s, [CreateKeyless(None), Pass(PlainPass(name), NO_FAULTS)]);
            HasKey(t) && t.secret.value.obj.owner == None && t.recordedNamespace == ""
  {
    var keyless := Apply(s, CreateKeyless(None));
    RunTwo(s, CreateKeyless(None), Pass(PlainPass(name), NO_FAULTS));
    PassMintsWhen(keyless, PlainPass(name), NO_FAULTS);
    PassSecret(keyless, PlainPass(name), NO_FAULTS);
  }

  /** A recorded namespace is never forgotten. */
  lemma {:induction false} RecordPersists(s: State, steps: seq<Step>)
    requires s.recordedNamespace != ""
    ensures Run(s, steps).recordedNamespace != ""
    decreases |steps|
  {
    if steps != [] {
      if steps[0].Pass? {
        PassFrame(s, steps[0].p, steps[0].f);
      }
      RecordPersists(Apply(s, steps[0]), steps[1..]);
    }
  }

  /**
   From the first complete pass on: a pass that mints while the session namespace
   is there and ends Ready records it, and then, whatever happens in between, from
   the moment the namespace is ending no key is ever created.
   */
  lemma AfterFirstReadyPass(s: State, p: PassInputs, f: Faults, before: seq<Step>, after: seq<Step>)
    requires s.secret.None? && s.sessionNamespace == Active && p.grant.name != ""
    requires p.newKey != "" && PassAfter(s, p, f).1 == Ready
    requires Ended(Run(PassAfter(s, p, f).0, before))
    ensures var ending := Run(PassAfter(s, p, f).0, before);
            KeyOf(Run(ending, after)) == KeyOf(ending) || KeyOf(Run(ending, after)) == ""
  {
    FirstReadyRecords(s, p, f);
    RecordPersists(PassAfter(s, p, f).0, before);
    NoResurrection(Run(PassAfter(s, p, f).0, before), after);
  }

  /** A step that takes a live key away. */
  predicate Destroys(step: Step) {
    step.DeleteSecret? || step.EmptySecret?
  }

  /** While nobody deletes or empties the Secret, every pass of every run hands out one and the same key. */
  lemma {:induction false} KeyIsStable(s: State, steps: seq<Step>)
    requires HasKey(s) && forall i | 0 <= i < |steps| :: !Destroys(steps[i])
    ensures HasKey(Run(s, steps)) && KeyOf(Run(s, steps)) == KeyOf(s)
    decreases |steps|
  {
    if steps != [] {
      assert !Destroys(steps[0]);
      if steps[0].Pass? {
        PassKeepsKey(s, steps[0].p, steps[0].f);
      }
      assert forall i | 0 <= i < |steps[1..]| :: steps[1..][i] == steps[i + 1];
      KeyIsStable(Apply(s, steps[0]), steps[1..]);
    }
  }
}
