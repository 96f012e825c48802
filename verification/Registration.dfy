/**
 The per-session key registration (internal/controller/registration.go).
 */
module Registration {
  import opened Common
  import opened Money
  import opened Budget
  import Decimal

  const SESSION_KEY := "session"
  const TOKEN_BUDGET_KEY := "tokenBudget"
  const EXPIRES_AT_KEY := "expiresAt"
  const BUDGET_WINDOW_KEY := "budgetWindow"
  const COST_BUDGET_KEY := "costBudget"

  /** A digest is known by the one text it was taken of. */
  datatype Digest = Sha256(preimage: string)

  datatype Entry = Entry(keyHash: Digest, metadata: map<string, string>)

  /** What one data key of a registration ConfigMap holds: an encoded entry, or text that does not decode. */
  datatype Payload = Json(entry: Entry) | Garbage(raw: string)

  // ----- Expiry text, at second grain -----

  function FormatTime(seconds: nat): string {
    Decimal.Format(seconds)
  }

  function ParseTime(s: string): Option<nat> {
    if s != "" && Decimal.AllDigits(s) then Some(Decimal.Value(s)) else None
  }

  lemma TimeReadsBack(seconds: nat)
    ensures ParseTime(FormatTime(seconds)) == Some(seconds)
  {
    Decimal.FormatReads(seconds);
  }

  // ----- Building -----

  datatype Inputs = Inputs(
    keyHash: Digest,
    sessionName: string,
    tokenBudget: Option<nat>,
    costMicroDollars: Option<nat>,
    window: string,
    expiresAt: nat)

  function BuildRegistration(inputs: Inputs): Entry {
    var always := map[SESSION_KEY := inputs.sessionName,
                      EXPIRES_AT_KEY := FormatTime(inputs.expiresAt),
                      BUDGET_WINDOW_KEY := inputs.window];
    var tokens := if inputs.tokenBudget.Some?
                  then always[TOKEN_BUDGET_KEY := Decimal.Format(inputs.tokenBudget.value)] else always;
    var all := if inputs.costMicroDollars.Some?
               then tokens[COST_BUDGET_KEY := Decimal.Format(inputs.costMicroDollars.value)] else tokens;
    Entry(inputs.keyHash, all)
  }

  /** The two budgets a registration pins: an inherited token budget is left out, a cost ceiling never is. */
  function Pinned(grant: Grant, c: Catalog): (Option<nat>, Option<nat>) {
    var budget, cost := TokensOf(grant, c), CostOf(grant, c);
    TokenCeiling(grant.tokenBudget, c);
    (if budget.inherited then None else Some(budget.value),
     if cost.configured then Some(cost.micros) else None)
  }

  /** The entry one reconcile pass wants. */
  function DesiredEntry(grant: Grant, key: string, c: Catalog): Entry {
    var (budget, cost) := Pinned(grant, c);
    BuildRegistration(Inputs(Sha256(key), grant.name, budget, cost, grant.Window(), grant.Expiry()))
  }

  /** Fields read back from a desired entry, one by one. */
  lemma DesiredFields(grant: Grant, key: string, c: Catalog)
    ensures DesiredEntry(grant, key, c).keyHash == Sha256(key)
    ensures DesiredEntry(grant, key, c).metadata.Keys <=
            {SESSION_KEY, BUDGET_WINDOW_KEY, EXPIRES_AT_KEY, TOKEN_BUDGET_KEY, COST_BUDGET_KEY}
    ensures var m := DesiredEntry(grant, key, c).metadata;
            && SESSION_KEY in m && m[SESSION_KEY] == grant.name
            && BUDGET_WINDOW_KEY in m
            && m[BUDGET_WINDOW_KEY] == grant.Window()
            && grant.Window() == (if grant.budgetWindow == "" then "day" else grant.budgetWindow)
            && EXPIRES_AT_KEY in m && ParseTime(m[EXPIRES_AT_KEY]) == Some(grant.Expiry())
            && grant.Expiry() == grant.created + (match grant.ttl case Seconds(n) => n case _ => 14_400)
            && TokensOf(grant, c).value >= 1
            && (TOKEN_BUDGET_KEY in m <==> Set(grant.tokenBudget))
            && (Set(grant.tokenBudget) ==> m[TOKEN_BUDGET_KEY] == Decimal.Format(TokensOf(grant, c).value))
            && (COST_BUDGET_KEY in m <==> CostOf(grant, c).configured)
            && (CostOf(grant, c).configured ==> m[COST_BUDGET_KEY] == Decimal.Format(CostOf(grant, c).micros))
  {
    TokenCeiling(grant.tokenBudget, c);
    TimeReadsBack(grant.Expiry());
    assert SESSION_KEY[0] != COST_BUDGET_KEY[0] && BUDGET_WINDOW_KEY[0] != COST_BUDGET_KEY[0];
    assert EXPIRES_AT_KEY[0] != COST_BUDGET_KEY[0] && TOKEN_BUDGET_KEY[0] != COST_BUDGET_KEY[0];
    assert SESSION_KEY[0] != TOKEN_BUDGET_KEY[0] && BUDGET_WINDOW_KEY[0] != TOKEN_BUDGET_KEY[0];
    assert EXPIRES_AT_KEY[0] != TOKEN_BUDGET_KEY[0] && SESSION_KEY[0] != BUDGET_WINDOW_KEY[0];
    assert EXPIRES_AT_KEY[0] != SESSION_KEY[0] && EXPIRES_AT_KEY[0] != BUDGET_WINDOW_KEY[0];
  }

  /** Entries built alike pin alike: different pins are visible in the entry. */
  lemma PinsInEntry(grant: Grant, key: string, a: Catalog, b: Catalog)
    requires DesiredEntry(grant, key, a) == DesiredEntry(grant, key, b)
    ensures Pinned(grant, a) == Pinned(grant, b)
  {
    DesiredFields(grant, key, a);
    DesiredFields(grant, key, b);
    Decimal.FormatReads(TokensOf(grant, a).value);
    Decimal.FormatReads(TokensOf(grant, b).value);
    Decimal.FormatReads(CostOf(grant, a).micros);
    Decimal.FormatReads(CostOf(grant, b).micros);
  }

  // ----- Comparing -----

  /**
   Equal sizes and a one-way lookup are enough: the comparison answers true for
   equal entries and for no others.
   */
  method Equals(e: Entry, other: Entry) returns (same: bool)
    ensures same <==> e == other
  {
    if e.keyHash != other.keyHash || |e.metadata| != |other.metadata| {
      return false;
    }
    var left := e.metadata.Keys;
    while left != {}
      invariant left <= e.metadata.Keys
      invariant forall k | k in e.metadata.Keys - left ::
                  k in other.metadata && other.metadata[k] == e.metadata[k]
      decreases |left|
    {
      var k :| k in left;
      if k !in other.metadata || e.metadata[k] != other.metadata[k] {
        return false;
      }
      left := left - {k};
    }
    assert e.metadata.Keys <= other.metadata.Keys;
    assert |e.metadata.Keys| == |e.metadata| && |other.metadata.Keys| == |other.metadata|;
    SubsetOfSameSize(e.metadata.Keys, other.metadata.Keys);
    assert e.metadata == other.metadata;
    return true;
  }

  // ----- Which catalog edits can move an entry -----

  predicate OffersCost(c: Catalog) {
    c.DefaultCost() != ""
  }

  /** The grant is woken for an update from one catalog to another: the mapping runs on both objects. */
  predicate Woken(grant: Grant, before: Catalog, after: Catalog) {
    && grant.CatalogName() == SINGLETON_NAME
    && (|| grant.NeedsReconcileOnCatalogChange(OffersCost(before))
        || grant.NeedsReconcileOnCatalogChange(OffersCost(after)))
  }

  /**
   Wake-set soundness: if an edit changes what a grant pins, and so the entry it
   would be given, the grant is woken by it. A sleeping grant needs nothing.
   */
  lemma WakeSetSound(grant: Grant, before: Catalog, after: Catalog)
    requires grant.CatalogName() == SINGLETON_NAME && !Woken(grant, before, after)
    ensures Pinned(grant, before) == Pinned(grant, after) == (None, None)
    ensures forall key :: DesiredEntry(grant, key, before) == DesiredEntry(grant, key, after)
  {
    EmptyNeverReads();
  }

  /**
   The wake-up set exactly: of the grants that name the catalog, those with a positive
   token budget or any cost text of their own, and all of them when the catalog offered
   a cost before or offers one now. The rest are never selected.
   */
  lemma WokenIff(grant: Grant, before: Catalog, after: Catalog)
    ensures Woken(grant, before, after) <==>
            && (grant.catalogRef == "" || grant.catalogRef == "cluster")
            && ((grant.tokenBudget.Some? && grant.tokenBudget.value > 0) || grant.costBudget != ""
                || before.DefaultCost() != "" || after.DefaultCost() != "")
  {
  }

  /** The requests of a listing, in its order. */
  function Requests(sessions: seq<Grant>, catalogName: string, catalog: Catalog): seq<(string, string)> {
    if sessions == [] then []
    else
      var g := sessions[|sessions| - 1];
      Requests(sessions[..|sessions| - 1], catalogName, catalog)
      + if g.CatalogName() == catalogName && g.NeedsReconcileOnCatalogChange(OffersCost(catalog))
        then [(g.namespace, g.name)] else []
  }

  /** mapCatalogToSessions for one of the two objects: the requests, in listing order. */
  method MapCatalogToSessions(sessions: seq<Grant>, catalogName: string, catalog: Catalog)
    returns (requests: seq<(string, string)>)
    ensures forall r :: r in requests <==>
              exists i :: 0 <= i < |sessions| && r == (sessions[i].namespace, sessions[i].name)
                          && sessions[i].CatalogName() == catalogName
                          && sessions[i].NeedsReconcileOnCatalogChange(OffersCost(catalog))
    ensures |requests| <= |sessions|
    ensures requests == Requests(sessions, catalogName, catalog)
  {
    requests := [];
    for i := 0 to |sessions|
      invariant |requests| <= i
      invariant requests == Requests(sessions[..i], catalogName, catalog)
      invariant forall r :: r in requests <==>
                  exists k :: 0 <= k < i && r == (sessions[k].namespace, sessions[k].name)
                              && sessions[k].CatalogName() == catalogName
                              && sessions[k].NeedsReconcileOnCatalogChange(OffersCost(catalog))
    {
      var session := sessions[i];
      assert sessions[..i + 1][..i] == sessions[..i];
      if session.CatalogName() != catalogName {
        continue;
      }
      if !session.NeedsReconcileOnCatalogChange(OffersCost(catalog)) {
        continue;
      }
      requests := requests + [(session.namespace, session.name)];
    }
    assert sessions[..|sessions|] == sessions;
  }
}
