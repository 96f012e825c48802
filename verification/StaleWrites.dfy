/**
 The objects that are created or overwritten without being compared: the shared row
 (applyOwned in internal/controller/ratelimit.go), the policy (ensurePolicy in
 internal/controller/policy.go) and the catalog's models (applyModel in
 internal/controller/agentgatewaycatalog_controller.go), when the read before the
 write is stale.
 */
module StaleWrites {
  import opened Common
  import opened Budget
  import Models
  import opened Session

  /**
   The write all three share, over a store holding `current`, having read `seen`: what
   is stored after, and whether it reports success. `updated` is the read object with
   the operator's part replaced.
   */
  function EnsureSeeing<T>(current: Option<Stored<T>>, seen: Option<Stored<T>>, created: T, updated: T, next: nat)
    : (Option<Stored<T>>, bool)
  {
    if seen.None? then
      // A create that finds the object already there counts as success.
      (if current.None? then Some(Stored(created, next)) else current, true)
    else if current.Some? && current.value.version == seen.value.version then (Some(Stored(updated, next)), true)
    else (current, false)
  }

  /**
   A write that reports success leaves what was wanted exactly when its read found the
   object, or the object was not there, or held what was wanted already.
   */
  lemma EnsuredIff<T>(current: Option<Stored<T>>, seen: Option<Stored<T>>, created: T, updated: T, next: nat,
                      wanted: T -> bool)
    requires wanted(created) && wanted(updated)
    requires EnsureSeeing(current, seen, created, updated, next).1
    ensures EnsureSeeing(current, seen, created, updated, next).0.Some?
    ensures wanted(EnsureSeeing(current, seen, created, updated, next).0.value.obj) <==>
            seen.Some? || current.None? || wanted(current.value.obj)
  {
  }

  // ----- The shared row and the policy's fallback -----

  /** What a platform pass stores in one of its two places. */
  function DefaultAfter(current: Option<Stored<int>>, seen: Option<Stored<int>>, c: Catalog, next: nat)
    : (Option<Stored<int>>, bool)
  {
    EnsureSeeing(current, seen, c.EffectiveDefaultTokenBudget(), c.EffectiveDefaultTokenBudget(), next)
  }

  predicate Holds(stored: Option<Stored<int>>, c: Catalog) {
    stored.Some? && stored.value.obj == c.EffectiveDefaultTokenBudget()
  }

  /**
   A platform pass whose two writes report success leaves the row and the fallback at
   the catalog's default exactly when neither read missed an object that held another.
   */
  lemma DefaultsStoredIff(row: Option<Stored<int>>, rowSeen: Option<Stored<int>>, policy: Option<Stored<int>>,
                          policySeen: Option<Stored<int>>, c: Catalog, next: nat)
    requires DefaultAfter(row, rowSeen, c, next).1 && DefaultAfter(policy, policySeen, c, next + 1).1
    ensures Holds(DefaultAfter(row, rowSeen, c, next).0, c) && Holds(DefaultAfter(policy, policySeen, c, next + 1).0, c)
            <==> && (rowSeen.Some? || row.None? || Holds(row, c))
                 && (policySeen.Some? || policy.None? || Holds(policy, c))
  {
    var now := c.EffectiveDefaultTokenBudget();
    EnsuredIff(row, rowSeen, now, now, next, n => n == now);
    EnsuredIff(policy, policySeen, now, now, next + 1, n => n == now);
  }

  /**
   At an input: the default is lowered to 500 while the cache does not know the row yet.
   The pass reports success, the row stays at the built-in constant, and the policy,
   which was found, falls back to the new default: the two disagree.
   */
  lemma OlderRowKept(version: nat, policy: Stored<int>, next: nat)
    ensures var lowered := Catalog(Some(BudgetSpec(Some(500), None, "", "")));
            var row := Some(Stored(DEFAULT_TOKEN_BUDGET, version));
            var (rowAfter, rowOk) := DefaultAfter(row, None, lowered, next);
            var (policyAfter, policyOk) := DefaultAfter(Some(policy), Some(policy), lowered, next + 1);
            rowOk && policyOk && rowAfter.value.obj == 100_000 && policyAfter.value.obj == 500
  {
    var lowered := Catalog(Some(BudgetSpec(Some(500), None, "", "")));
    assert lowered.EffectiveDefaultTokenBudget() == 500;
  }

  // ----- A model object -----

  /** applyModel: a created object carries the label and the spec, an updated one keeps its other labels. */
  function ModelAfter(current: Option<Stored<Models.Object>>, seen: Option<Stored<Models.Object>>,
                      spec: Models.Spec, next: nat)
    : (Option<Stored<Models.Object>>, bool)
  {
    var labels := if seen.Some? then seen.value.obj.labels else map[];
    var written := Models.Object(Models.Marked(labels), spec);
    EnsureSeeing(current, seen, written, written, next)
  }

  /** A render's write of one model leaves its spec, labelled, exactly when its read did not miss another one. */
  lemma ModelStoredIff(current: Option<Stored<Models.Object>>, seen: Option<Stored<Models.Object>>,
                       spec: Models.Spec, next: nat)
    requires ModelAfter(current, seen, spec, next).1
    ensures ModelAfter(current, seen, spec, next).0.Some?
    ensures var o := ModelAfter(current, seen, spec, next).0.value.obj;
            (o.spec == spec && o.Managed()) <==>
            || seen.Some? || current.None?
            || (current.value.obj.spec == spec && current.value.obj.Managed())
  {
    var labels := if seen.Some? then seen.value.obj.labels else map[];
    var written := Models.Object(Models.Marked(labels), spec);
    EnsuredIff(current, seen, written, written, next, (o: Models.Object) => o.spec == spec && o.Managed());
  }

  /** With a read that is current the write is the render's own. */
  lemma CurrentModelAgrees(models: Models.Store, name: string, spec: Models.Spec, version: nat, next: nat)
    ensures var stored := if name in models then Some(Stored(models[name], version)) else None;
            var (after, ok) := ModelAfter(stored, stored, spec, next);
            ok && after.value.obj == Models.Put(models, name, spec)[name]
  {
  }

  /** At an input: an alias repointed while the cache does not know it yet goes on answering as before. */
  lemma OlderModelKept(labels: map<string, string>, before: Models.Spec, after: Models.Spec, version: nat, next: nat)
    requires before != after
    ensures var stored := Some(Stored(Models.Object(labels, before), version));
            ModelAfter(stored, None, after, next) == (stored, true)
  {
  }
}
