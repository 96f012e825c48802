/**
 One reconcile pass of a session grant (internal/controller/agentgatewaysession_controller.go),
 over the objects it reads and writes. Any call to the API server may fail; which
 ones do is a parameter of the pass.
 */
module Session {
  import opened Common
  import opened Money
  import opened Budget
  import opened Registration

  datatype Secret = Secret(key: string, baseUrl: string, labels: map<string, string>, owner: Option<string>)

  /** Who made a Secret, and for which session. */
  function SecretLabels(grant: Grant): map<string, string> {
    map[MANAGED_BY_LABEL := MANAGED_BY_VALUE,
        "agentgateway.operators.educates.dev/session" := grant.name,
        "agentgateway.operators.educates.dev/session-namespace" := grant.namespace]
  }

  /** An object as stored: its content and its resource version. */
  datatype Stored<+T> = Stored(obj: T, version: nat)

  /** Every object one session's passes touch, at one moment. */
  datatype State = State(
    secret: Option<Stored<Secret>>,
    registration: Option<Stored<map<string, Payload>>>,
    sessionNamespace: Phase,
    gatewayNamespace: Phase,
    recordedNamespace: string,
    finalizer: bool,
    nextVersion: nat)

  /** The calls that fail in one pass. */
  datatype Faults = Faults(
    finalizerWrite: bool,
    catalogRead: bool,
    secretRead: bool,
    namespaceRead: bool,
    ownerRead: bool,
    secretWrite: bool,
    registrationRead: bool,
    registrationWrite: bool,
    ownerLookup: bool,
    statusWrite: bool)

  const NO_FAULTS := Faults(false, false, false, false, false, false, false, false, false, false)

  /**
   What one pass is run with. The catalog is absent while it is not ready; `newKey` is
   what a key generator would answer.
   */
  datatype PassInputs = PassInputs(
    grant: Grant,
    catalog: Option<Catalog>,
    gatewayUrl: string,
    placementValid: bool,
    newKey: string)

  datatype SecretResult = Key(key: string, generated: bool) | SessionEnding | SecretFailed

  datatype PassResult = Rejected | Waiting | Ending | Failed | Ready

  /** No key is minted once the session namespace is terminating, or has gone after it was recorded as the owner. */
  predicate NamespaceEnding(s: State) {
    if s.sessionNamespace == Gone then s.recordedNamespace != "" else s.sessionNamespace == Terminating
  }

  predicate HasKey(s: State) {
    s.secret.Some? && s.secret.value.obj.key != ""
  }

  // ----- Specification of a pass -----

  function PutSecret(s: State, secret: Secret): State {
    s.(secret := Some(Stored(secret, s.nextVersion)), nextVersion := s.nextVersion + 1)
  }

  function PutRegistration(s: State, data: map<string, Payload>): State {
    s.(registration := Some(Stored(data, s.nextVersion)), nextVersion := s.nextVersion + 1)
  }

  function SecretAfter(s: State, p: PassInputs, f: Faults): (r: (State, SecretResult))
    ensures r.0 == s.(secret := r.0.secret, nextVersion := r.0.nextVersion)
    ensures r.1.Key? ==> r.0.secret.Some?
  {
    if f.secretRead then (s, SecretFailed)
    else if HasKey(s) then
      var live := s.secret.value.obj;
      if live.baseUrl == p.gatewayUrl then (s, Key(live.key, false))
      else if f.secretWrite then (s, SecretFailed)
      else (PutSecret(s, live.(baseUrl := p.gatewayUrl)), Key(live.key, false))
    else if f.namespaceRead then (s, SecretFailed)
    else if NamespaceEnding(s) then (s, SessionEnding)
    else if f.ownerRead || f.secretWrite then (s, SecretFailed)
    else
      var owner := if s.secret.Some? then s.secret.value.obj.owner
                   else if s.sessionNamespace == Gone then None else Some(p.grant.name);
      (PutSecret(s, Secret(p.newKey, p.gatewayUrl, SecretLabels(p.grant), owner)), Key(p.newKey, true))
  }

  function RegistrationAfter(s: State, name: string, desired: Entry, f: Faults): (r: (State, bool))
    ensures r.0 == s.(registration := r.0.registration, nextVersion := r.0.nextVersion)
  {
    if f.registrationRead then (s, false)
    else if s.registration.None? then
      if f.registrationWrite || s.gatewayNamespace != Active then (s, false)
      else (PutRegistration(s, map[name := Json(desired)]), true)
    else if name in s.registration.value.obj && s.registration.value.obj[name] == Json(desired) then (s, true)
    else if f.registrationWrite then (s, false)
    else (PutRegistration(s, map[name := Json(desired)]), true)
  }

  function PassAfter(s: State, p: PassInputs, f: Faults): (State, PassResult) {
    if !p.placementValid then (s, Rejected)
    else if !s.finalizer && f.finalizerWrite then (s, Failed)
    else
      var s1 := s.(finalizer := true);
      if f.catalogRead then (s1, Failed)
      else if p.catalog.None? then (s1, Waiting)
      else
        var (s2, secret) := SecretAfter(s1, p, f);
        match secret
        case SecretFailed => (s2, Failed)
        case SessionEnding => (s2, Ending)
        case Key(key, _) =>
          var (s3, registered) := RegistrationAfter(s2, p.grant.name, DesiredEntry(p.grant, key, p.catalog.value), f);
          if !registered || f.ownerLookup || f.statusWrite then (s3, Failed)
          else
            var owner := s3.secret.value.obj.owner;
            (if owner.Some? && owner.value != "" then s3.(recordedNamespace := owner.value) else s3, Ready)
  }

  // ----- The pass itself, in place -----

  class Cluster {
    var secret: Option<Stored<Secret>>
    var registration: Option<Stored<map<string, Payload>>>
    var sessionNamespace: Phase
    var gatewayNamespace: Phase
    var recordedNamespace: string
    var finalizer: bool
    var nextVersion: nat

    function Now(): State
      reads this
    {
      State(secret, registration, sessionNamespace, gatewayNamespace, recordedNamespace, finalizer, nextVersion)
    }

    constructor (s: State)
      ensures Now() == s
    {
      secret, registration := s.secret, s.registration;
      sessionNamespace, gatewayNamespace := s.sessionNamespace, s.gatewayNamespace;
      recordedNamespace, finalizer, nextVersion := s.recordedNamespace, s.finalizer, s.nextVersion;
    }

    method WriteSecret(s: Secret)
      modifies this`secret, this`nextVersion
      ensures Now() == PutSecret(old(Now()), s)
    {
      secret := Some(Stored(s, nextVersion));
      nextVersion := nextVersion + 1;
    }

    method WriteRegistration(data: map<string, Payload>)
      modifies this`registration, this`nextVersion
      ensures Now() == PutRegistration(old(Now()), data)
    {
      registration := Some(Stored(data, nextVersion));
      nextVersion := nextVersion + 1;
    }

    method EnsureSecret(p: PassInputs, f: Faults) returns (r: SecretResult)
      modifies this`secret, this`nextVersion
      ensures (Now(), r) == SecretAfter(old(Now()), p, f)
    {
      if f.secretRead {
        return SecretFailed;
      }
      if secret.Some? {
        var live := secret.value.obj;
        if live.key != "" {
          if live.baseUrl != p.gatewayUrl {
            if f.secretWrite {
              return SecretFailed;
            }
            WriteSecret(live.(baseUrl := p.gatewayUrl));
          }
          return Key(live.key, false);
        }
      }
      if f.namespaceRead {
        return SecretFailed;
      }
      if sessionNamespace == Terminating || (sessionNamespace == Gone && recordedNamespace != "") {
        return SessionEnding;
      }
      if f.ownerRead {
        return SecretFailed;
      }
      var owner := if sessionNamespace == Gone then None else Some(p.grant.name);
      if f.secretWrite {
        return SecretFailed;
      }
      if secret.Some? {
        // An existing Secret has its data and labels replaced; its owner reference is left as it is.
        WriteSecret(secret.value.obj.(key := p.newKey, baseUrl := p.gatewayUrl, labels := SecretLabels(p.grant)));
      } else {
        WriteSecret(Secret(p.newKey, p.gatewayUrl, SecretLabels(p.grant), owner));
      }
      return Key(p.newKey, true);
    }

    method EnsureRegistration(name: string, desired: Entry, f: Faults) returns (ok: bool)
      modifies this`registration, this`nextVersion
      ensures (Now(), ok) == RegistrationAfter(old(Now()), name, desired, f)
    {
      if f.registrationRead {
        return false;
      }
      if registration.None? {
        if f.registrationWrite || gatewayNamespace != Active {
          return false;
        }
        WriteRegistration(map[name := Json(desired)]);
        return true;
      }
      var live := registration.value.obj;
      if name in live && live[name].Json? {
        var same := Equals(live[name].entry, desired);
        if same {
          return true;
        }
      }
      if f.registrationWrite {
        return false;
      }
      WriteRegistration(map[name := Json(desired)]);
      return true;
    }

    method Reconcile(p: PassInputs, f: Faults) returns (r: PassResult)
      modifies this
      ensures (Now(), r) == PassAfter(old(Now()), p, f)
    {
      if !p.placementValid {
        return Rejected;
      }
      if !finalizer {
        if f.finalizerWrite {
          return Failed;
        }
        finalizer := true;
      }
      if f.catalogRead {
        return Failed;
      }
      if p.catalog.None? {
        return Waiting;
      }
      var key := EnsureSecret(p, f);
      if key.SessionEnding? {
        return Ending;
      }
      if key.SecretFailed? {
        return Failed;
      }
      var registered := EnsureRegistration(p.grant.name, DesiredEntry(p.grant, key.key, p.catalog.value), f);
      if !registered || f.ownerLookup {
        return Failed;
      }
      var owner := secret.value.obj.owner;
      if f.statusWrite {
        return Failed;
      }
      if owner.Some? && owner.value != "" {
        recordedNamespace := owner.value;
      }
      return Ready;
    }
  }

  // ----- What a pass guarantees -----

  /**
   After every pass that ends Ready, from any prior contents, the session's one
   entry carries the hash of the stored key with the resolved budgets, the window
   and the expiry, and the Secret names the gateway.
   */
  lemma ReadyAgrees(s: State, p: PassInputs, f: Faults)
    requires p.newKey != "" && PassAfter(s, p, f).1 == Ready
    ensures var t := PassAfter(s, p, f).0;
            && HasKey(t) && p.catalog.Some?
            && t.secret.value.obj.baseUrl == p.gatewayUrl
            && t.registration.Some? && p.grant.name in t.registration.value.obj
            && t.registration.value.obj[p.grant.name] ==
               Json(DesiredEntry(p.grant, t.secret.value.obj.key, p.catalog.value))
            && (t.secret.value.obj.owner.Some? && t.secret.value.obj.owner.value != "" ==>
                t.recordedNamespace == t.secret.value.obj.owner.value)
  {
    var s1 := s.(finalizer := true);
    SecretAgrees(s1, p, f);
    var (s2, secret) := SecretAfter(s1, p, f);
    RegistrationAgrees(s2, p.grant.name, DesiredEntry(p.grant, secret.key, p.catalog.value), f);
  }

  lemma SecretAgrees(s: State, p: PassInputs, f: Faults)
    requires p.newKey != ""
    ensures var (t, r) := SecretAfter(s, p, f);
            r.Key? ==> HasKey(t) && t.secret.value.obj.key == r.key && t.secret.value.obj.baseUrl == p.gatewayUrl
  {
  }

  lemma RegistrationAgrees(s: State, name: string, desired: Entry, f: Faults)
    ensures var (t, ok) := RegistrationAfter(s, name, desired, f);
            ok ==> t.registration.Some? && name in t.registration.value.obj
                   && t.registration.value.obj[name] == Json(desired)
  {
  }

  /** An immediate second pass ends Ready too and writes nothing at all, whatever key the generator would offer. */
  lemma SecondPassWritesNothing(s: State, p: PassInputs, f: Faults, newKey: string)
    requires p.newKey != "" && PassAfter(s, p, f).1 == Ready
    ensures var t := PassAfter(s, p, f).0;
            PassAfter(t, p.(newKey := newKey), NO_FAULTS) == (t, Ready)
  {
    ReadyAgrees(s, p, f);
  }

  /**
   The finalizer comes first: it is stored by every pass whose placement is valid and
   whose write of it works, however that pass ends, and a pass that leaves a grant
   without it has left everything as it was.
   */
  lemma FinalizerFirst(s: State, p: PassInputs, f: Faults)
    ensures var t := PassAfter(s, p, f).0;
            && (t.finalizer <==> s.finalizer || (p.placementValid && !f.finalizerWrite))
            && (!t.finalizer ==> t == s)
  {
  }

  /** The key a pass goes on with: the one that is there, or a new one. */
  function KeyToUse(s: State, p: PassInputs): string {
    if HasKey(s) then s.secret.value.obj.key else p.newKey
  }

  /** The pass gets past its finalizer and finds its catalog. */
  predicate Proceeds(s: State, p: PassInputs, f: Faults) {
    p.placementValid && (s.finalizer || !f.finalizerWrite) && !f.catalogRead
  }

  /** The calls it takes to have a key. */
  predicate SecretWorks(s: State, p: PassInputs, f: Faults) {
    && !f.secretRead
    && if HasKey(s) then s.secret.value.obj.baseUrl == p.gatewayUrl || !f.secretWrite
       else !f.namespaceRead && !f.ownerRead && !f.secretWrite
            && s.sessionNamespace != Terminating && (s.sessionNamespace == Gone ==> s.recordedNamespace == "")
  }

  /** The calls it takes to have that key registered. */
  predicate RegistrationWorks(s: State, name: string, desired: Entry, f: Faults) {
    && !f.registrationRead
    && if s.registration.None? then !f.registrationWrite && s.gatewayNamespace == Active
       else !f.registrationWrite
            || (name in s.registration.value.obj && s.registration.value.obj[name] == Json(desired))
  }

  /** How each pass ends, by what it finds and which of its calls fail. */
  lemma PassEndsAs(s: State, p: PassInputs, f: Faults)
    requires p.newKey != ""
    ensures var (t, r) := PassAfter(s, p, f);
            && (r == Rejected <==> !p.placementValid)
            && (r == Waiting <==> Proceeds(s, p, f) && p.catalog.None?)
            && (r == Ending <==>
                  && Proceeds(s, p, f) && p.catalog.Some? && !f.secretRead && !f.namespaceRead && !HasKey(s)
                  && (s.sessionNamespace == Terminating || (s.sessionNamespace == Gone && s.recordedNamespace != "")))
            && (r == Ready <==>
                  && Proceeds(s, p, f) && p.catalog.Some? && SecretWorks(s, p, f)
                  && RegistrationWorks(s, p.grant.name, DesiredEntry(p.grant, KeyToUse(s, p), p.catalog.value), f)
                  && !f.ownerLookup && !f.statusWrite)
            && (r == Rejected ==> t == s)
            && (r == Waiting || r == Ending ==> t == s.(finalizer := true))
  {
  }

  /** Whatever a pass does to the registration, it leaves one entry, of the stored key under the resolved terms. */
  lemma RegistrationFollowsKey(s: State, p: PassInputs, f: Faults)
    requires p.newKey != "" && PassAfter(s, p, f).0.registration != s.registration
    ensures var t := PassAfter(s, p, f).0;
            && HasKey(t) && p.catalog.Some? && t.registration.Some?
            && t.registration.value.obj ==
               map[p.grant.name := Json(DesiredEntry(p.grant, t.secret.value.obj.key, p.catalog.value))]
  {
    var s1 := s.(finalizer := true);
    SecretAgrees(s1, p, f);
    var (s2, secret) := SecretAfter(s1, p, f);
    WrittenRegistration(s2, p.grant.name, DesiredEntry(p.grant, secret.key, p.catalog.value), f);
  }

  lemma WrittenRegistration(s: State, name: string, desired: Entry, f: Faults)
    ensures var t := RegistrationAfter(s, name, desired, f).0;
            t.registration != s.registration ==>
              t.registration.Some? && t.registration.value.obj == map[name := Json(desired)]
  {
  }

  /** A live Secret keeps everything but the gateway's address. */
  lemma ReusedSecret(s: State, p: PassInputs, f: Faults)
    requires HasKey(s)
    ensures var (was, now) := (s.secret.value.obj, PassAfter(s, p, f).0.secret);
            now.Some? && (now.value.obj == was || now.value.obj == was.(baseUrl := p.gatewayUrl))
    ensures s.secret.value.obj.baseUrl == p.gatewayUrl ==> PassAfter(s, p, f).0.secret == s.secret
  {
    PassSecret(s, p, f);
  }

  /** No pass, however it fails, replaces or removes a live key. */
  lemma PassKeepsKey(s: State, p: PassInputs, f: Faults)
    requires HasKey(s)
    ensures HasKey(PassAfter(s, p, f).0)
    ensures PassAfter(s, p, f).0.secret.value.obj.key == s.secret.value.obj.key
  {
  }

  /** What a pass leaves in the Secret is what its Secret step left there. */
  lemma PassSecret(s: State, p: PassInputs, f: Faults)
    ensures PassAfter(s, p, f).0.secret ==
            if p.placementValid && p.catalog.Some? && (s.finalizer || !f.finalizerWrite) && !f.catalogRead
            then SecretAfter(s.(finalizer := true), p, f).0.secret else s.secret
  {
  }

  /** Exactly when a pass mints. */
  lemma PassMintsWhen(s: State, p: PassInputs, f: Faults)
    requires !HasKey(s) && p.newKey != ""
    ensures HasKey(PassAfter(s, p, f).0) <==>
            && p.placementValid && p.catalog.Some? && (s.finalizer || !f.finalizerWrite)
            && !(f.catalogRead || f.secretRead || f.namespaceRead || f.ownerRead || f.secretWrite)
            && s.sessionNamespace != Terminating && (s.sessionNamespace == Gone ==> s.recordedNamespace == "")
    ensures HasKey(PassAfter(s, p, f).0) ==>
              var minted := PassAfter(s, p, f).0.secret.value.obj;
              minted.key == p.newKey && minted.baseUrl == p.gatewayUrl && minted.labels == SecretLabels(p.grant)
  {
    PassSecret(s, p, f);
  }

  /**
   Which minted Secrets the session's end will collect: a created one exactly when
   the session namespace is there, a repaired one exactly when it was owned before,
   since repairing an emptied Secret does not give it an owner.
   */
  lemma MintedIsOwnedIff(s: State, p: PassInputs, f: Faults)
    requires !HasKey(s) && p.newKey != "" && HasKey(PassAfter(s, p, f).0)
    ensures PassAfter(s, p, f).0.secret.value.obj.owner == Some(p.grant.name) <==>
            if s.secret.Some? then s.secret.value.obj.owner == Some(p.grant.name) else s.sessionNamespace == Active
  {
    PassSecret(s, p, f);
    PassMintsWhen(s, p, f);
  }

  /** The pass that mints under a session namespace and ends Ready records that namespace. */
  lemma FirstReadyRecords(s: State, p: PassInputs, f: Faults)
    requires s.secret.None? && s.sessionNamespace != Gone && p.grant.name != ""
    requires p.newKey != "" && PassAfter(s, p, f).1 == Ready
    ensures PassAfter(s, p, f).0.recordedNamespace == p.grant.name
  {
    assert SecretAfter(s.(finalizer := true), p, f).0.secret.value.obj.owner == Some(p.grant.name);
  }
}
