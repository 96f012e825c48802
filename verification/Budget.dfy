/**
 Budget resolution: a grant, a catalog and the built-in constant to one ceiling
 (api/agentgateway/v1alpha1/budget.go, cost.go and agentgatewaysession_types.go).
 */
module Budget {
  import opened Common
  import opened Money

  const DEFAULT_TOKEN_BUDGET: Int64 := 100_000
  const DEFAULT_BUDGET_WINDOW := "day"
  const SINGLETON_NAME := "cluster"
  const DEFAULT_TTL_SECONDS: nat := 4 * 60 * 60

  datatype BudgetSpec = BudgetSpec(
    defaultToken: Option<Int64>,
    maxToken: Option<Int64>,
    defaultCost: string,
    maxCost: string)

  /** The budget half of a catalog; the accessors treat a missing block as no opinion. */
  datatype Catalog = Catalog(budgets: Option<BudgetSpec>) {
    function DefaultToken(): Option<Int64> {
      if budgets.None? then None else budgets.value.defaultToken
    }

    function MaxToken(): Option<Int64> {
      if budgets.None? then None else budgets.value.maxToken
    }

    function DefaultCost(): string {
      if budgets.None? then "" else budgets.value.defaultCost
    }

    function MaxCost(): string {
      if budgets.None? then "" else budgets.value.maxCost
    }

    function EffectiveDefaultTokenBudget(): Int64 {
      ResolveTokenBudget(None, DefaultToken(), MaxToken()).value
    }
  }

  /** The authored lifetime: a duration text that reads as whole seconds, or does not read at all. */
  datatype Ttl = Unset | Seconds(length: nat) | Unreadable

  datatype Grant = Grant(
    name: string,
    namespace: string,
    catalogRef: string,
    tokenBudget: Option<Int64>,
    costBudget: string,
    budgetWindow: string,
    ttl: Ttl,
    created: nat)
  {
    function CatalogName(): string {
      if catalogRef != "" then catalogRef else SINGLETON_NAME
    }

    function Window(): string {
      if budgetWindow != "" then budgetWindow else DEFAULT_BUDGET_WINDOW
    }

    /** Whether a catalog edit can reach this grant only by reconciling it. */
    predicate NeedsReconcileOnCatalogChange(catalogOffersCost: bool) {
      (tokenBudget.Some? && tokenBudget.value > 0) || costBudget != "" || catalogOffersCost
    }

    /** Measured from creation, so no later pass can push it out. */
    function Expiry(): nat {
      created + if ttl.Seconds? then ttl.length else DEFAULT_TTL_SECONDS
    }
  }

  // ----- Token budgets -----

  datatype ResolvedToken = ResolvedToken(value: Int64, inherited: bool, clamped: bool, requested: Int64)

  predicate Set(limit: Option<Int64>) {
    limit.Some? && limit.value > 0
  }

  function ResolveTokenBudget(grant: Option<Int64>, catalogDefault: Option<Int64>, catalogMax: Option<Int64>)
    : ResolvedToken
  {
    var asked := if Set(grant) then grant.value
                 else if Set(catalogDefault) then catalogDefault.value
                 else DEFAULT_TOKEN_BUDGET;
    var inherited := !Set(grant);
    if Set(catalogMax) && asked > catalogMax.value
    then ResolvedToken(catalogMax.value, inherited, !inherited, asked)
    else ResolvedToken(asked, inherited, false, 0)
  }

  /** The smaller of a number and a maximum, where there is one. */
  function AtMost(limit: Option<Int64>, n: Int64): Int64 {
    if Set(limit) && limit.value < n then limit.value else n
  }

  /**
   A resolved token ceiling is positive and is the smaller of the maximum and what was
   asked: the grant's number, or where it names none the catalog's default, or where
   there is none 100000. It is reported as clamped, with the number asked, exactly when
   the grant's own number did not survive; and a grant that names nothing gets the
   number the shared row is rendered with.
   */
  lemma TokenCeiling(grant: Option<Int64>, c: Catalog)
    ensures var r := ResolveTokenBudget(grant, c.DefaultToken(), c.MaxToken());
            && r.value >= 1
            && (Set(c.MaxToken()) ==> r.value <= c.MaxToken().value)
            && (Set(grant) ==> r.value <= grant.value)
            && (r.clamped <==> Set(grant) && r.value != grant.value)
            && (r.clamped ==> r.requested == grant.value && Some(r.value) == c.MaxToken())
            && (r.inherited <==> grant.None? || grant.value <= 0)
            && (Set(grant) ==> r.value == AtMost(c.MaxToken(), grant.value))
            && (r.inherited ==> r.value == c.EffectiveDefaultTokenBudget())
            && c.EffectiveDefaultTokenBudget() ==
               AtMost(c.MaxToken(), if Set(c.DefaultToken()) then c.DefaultToken().value else 100_000)
  {
  }

  // ----- Cost budgets -----

  datatype ResolvedCost = ResolvedCost(configured: bool, micros: nat, inherited: bool, clamped: bool, requested: nat)

  function ResolveCostBudget(grant: string, catalogDefault: string, catalogMax: string): ResolvedCost {
    var own, fallback := ReadDollars(grant), ReadDollars(catalogDefault);
    if own.Err? && fallback.Err? then ResolvedCost(false, 0, false, false, 0)
    else
      var inherited := own.Err?;
      var micros := if own.Ok? then own.value else fallback.value;
      if TrimSpace(catalogMax) == "" then ResolvedCost(true, micros, inherited, false, 0)
      else match ReadDollars(catalogMax)
        case Err(_) => ResolvedCost(true, 1, inherited, true, micros)
        case Ok(max) =>
          if micros > max then ResolvedCost(true, max, inherited, !inherited, micros)
          else ResolvedCost(true, micros, inherited, false, 0)
  }

  function CostOf(grant: Grant, c: Catalog): ResolvedCost {
    ResolveCostBudget(grant.costBudget, c.DefaultCost(), c.MaxCost())
  }

  function TokensOf(grant: Grant, c: Catalog): ResolvedToken {
    ResolveTokenBudget(grant.tokenBudget, c.DefaultToken(), c.MaxToken())
  }

  /** A read amount is a positive int64. */
  lemma ReadInRange(s: string)
    ensures ReadDollars(s).Ok? ==> 1 <= ReadDollars(s).value <= MAX_INT64
  {
  }

  /**
   A cost ceiling applies exactly when the grant or the catalog default reads as an
   amount, and what is asked is the grant's amount when it reads and the default's
   otherwise. That is the ceiling while no maximum is written; under one that reads it
   is the smaller of the two; under one that does not it is one micro-dollar. A grant's
   amount that was lowered is reported with what it asked, and so is any ceiling under
   an unreadable maximum; a lowered default is not.
   */
  lemma CostCeiling(grant: Grant, c: Catalog)
    ensures var r := CostOf(grant, c);
            var (own, max) := (ReadDollars(grant.costBudget), ReadDollars(c.MaxCost()));
            r.configured ==>
              var asked := if own.Ok? then own.value else ReadDollars(c.DefaultCost()).value;
              && (r.inherited <==> own.Err?)
              && (TrimSpace(c.MaxCost()) == "" ==> r.micros == asked && !r.clamped)
              && (TrimSpace(c.MaxCost()) != "" ==>
                    && r.micros == (if max.Err? then 1 else if max.value < asked then max.value else asked)
                    && (r.clamped <==> max.Err? || (own.Ok? && max.value < asked)))
              && (r.clamped ==> r.requested == asked)
    ensures var r := CostOf(grant, c);
            && (r.configured <==> ReadDollars(grant.costBudget).Ok? || ReadDollars(c.DefaultCost()).Ok?)
            && (r.configured ==> 1 <= r.micros <= MAX_INT64)
            && (r.configured && ReadDollars(c.MaxCost()).Ok? ==> r.micros <= ReadDollars(c.MaxCost()).value)
            && (r.configured && ReadDollars(c.MaxCost()).Err? && TrimSpace(c.MaxCost()) != "" ==>
                  r.micros == 1 && r.clamped)
            && (r.configured && ReadDollars(grant.costBudget).Ok? ==> r.micros <= ReadDollars(grant.costBudget).value)
  {
    ReadInRange(grant.costBudget);
    ReadInRange(c.DefaultCost());
    ReadInRange(c.MaxCost());
  }

  /** An empty text is never an amount. */
  lemma EmptyNeverReads()
    ensures ReadDollars("") == Err(Empty)
  {
  }
}
