/**
 The limit overrides and the charge the policy renders (internal/controller/policy.go),
 as expressions, with the text they print to and a small evaluator of the
 Common Expression Language. A missing field is an evaluation error; has() is not.
 */
module Policy {
  import opened Common
  import opened Money
  import opened Budget
  import opened Registration
  import Decimal

  datatype Expr =
    | HasKey(field: string)          // has(apiKey.field)
    | Key(field: string)             // apiKey.field
    | HasCost                        // has(llm.cost)
    | CostTotal                      // llm.cost.total
    | Text(s: string)
    | Number(n: nat)
    | ToInt(e: Expr)
    | Times(e: Expr, factor: nat)
    | Positive(e: Expr)              // e > 0
    | Choice(test: Expr, yes: Expr, no: Expr)
    | Limit(unit: Expr, requests: Expr)

  // ----- The text of an expression -----

  function Show(e: Expr): string {
    match e
    case Choice(test, yes, no) => ShowInner(test) + " ? " + ShowInner(yes) + " : " + ShowInner(no)
    case _ => ShowInner(e)
  }

  /** A choice inside another expression is put in parentheses. */
  function ShowInner(e: Expr): string {
    match e
    case HasKey(f) => "has(apiKey." + f + ")"
    case Key(f) => "apiKey." + f
    case HasCost => "has(llm.cost)"
    case CostTotal => "llm.cost.total"
    case Text(s) => "\"" + s + "\""
    case Number(n) => Decimal.Format(n)
    case ToInt(x) => "int(" + ShowInner(x) + ")"
    case Times(x, factor) => ShowInner(x) + " * " + Decimal.Format(factor)
    case Positive(x) => ShowInner(x) + " > 0"
    case Choice(test, yes, no) =>
      "(" + ShowInner(test) + " ? " + ShowInner(yes) + " : " + ShowInner(no) + ")"
    case Limit(unit, requests) =>
      "{\"unit\": " + ShowInner(unit) + ", \"requestsPerUnit\": " + ShowInner(requests) + "}"
  }

  // ----- Evaluation -----

  /** What an expression can see: the key's flattened metadata and the realized cost, when the model was priced. */
  datatype Context = Context(apiKey: map<string, string>, cost: Option<real>)

  datatype CelValue =
    | CelBool(b: bool)
    | CelString(s: string)
    | CelInt(n: int)
    | CelDouble(x: real)
    | CelLimit(unit: string, requestsPerUnit: int)

  function Truncate(x: real): int {
    if x < 0.0 then -((-x).Floor) else x.Floor
  }

  /** int() of a text: an optional sign and digits, within int64. */
  function IntOfText(s: string): Option<int> {
    var minus := s != "" && s[0] == '-';
    var signed := s != "" && (s[0] == '-' || s[0] == '+');
    var digits := if signed then s[1..] else s;
    if digits == "" || !Decimal.AllDigits(digits) then None
    else if minus then (if Decimal.Value(digits) <= MAX_INT64 + 1 then Some(-(Decimal.Value(digits) as int)) else None)
    else if Decimal.Value(digits) <= MAX_INT64 then Some(Decimal.Value(digits)) else None
  }

  function IntOfDouble(x: real): Option<int> {
    var n := Truncate(x);
    if -(MAX_INT64 as int) - 1 <= n <= MAX_INT64 then Some(n) else None
  }

  /** None is an evaluation error. */
  function Eval(e: Expr, ctx: Context): Option<CelValue> {
    match e
    case HasKey(f) => Some(CelBool(f in ctx.apiKey))
    case Key(f) => if f in ctx.apiKey then Some(CelString(ctx.apiKey[f])) else None
    case HasCost => Some(CelBool(ctx.cost.Some?))
    case CostTotal => if ctx.cost.Some? then Some(CelDouble(ctx.cost.value)) else None
    case Text(s) => Some(CelString(s))
    case Number(n) => Some(CelInt(n))
    case ToInt(x) => (
      match Eval(x, ctx)
      case Some(CelString(s)) => (match IntOfText(s) case Some(n) => Some(CelInt(n)) case None => None)
      case Some(CelDouble(d)) => (match IntOfDouble(d) case Some(n) => Some(CelInt(n)) case None => None)
      case Some(CelInt(n)) => Some(CelInt(n))
      case _ => None)
    case Times(x, factor) => (
      match Eval(x, ctx)
      case Some(CelDouble(d)) => Some(CelDouble(d * factor as real))
      case _ => None)
    case Positive(x) => (
      match Eval(x, ctx)
      case Some(CelInt(n)) => Some(CelBool(n > 0))
      case _ => None)
    case Choice(test, yes, no) => (
      match Eval(test, ctx)
      case Some(CelBool(b)) => if b then Eval(yes, ctx) else Eval(no, ctx)
      case _ => None)
    case Limit(unit, requests) => (
      match (Eval(unit, ctx), Eval(requests, ctx))
      case (Some(CelString(u)), Some(CelInt(n))) => Some(CelLimit(u, n))
      case _ => None)
  }

  // ----- The three generated expressions -----

  function WindowExpression(window: string): Expr {
    Choice(HasKey(BUDGET_WINDOW_KEY), Key(BUDGET_WINDOW_KEY), Text(window))
  }

  function TokenBudgetOverride(window: string, fallback: nat): Expr {
    Choice(HasKey(TOKEN_BUDGET_KEY),
           Limit(WindowExpression(window), ToInt(Key(TOKEN_BUDGET_KEY))),
           Limit(WindowExpression(window), Number(fallback)))
  }

  function CostBudgetOverride(window: string): Expr {
    Choice(HasKey(COST_BUDGET_KEY),
           Limit(WindowExpression(window), ToInt(Key(COST_BUDGET_KEY))),
           Limit(WindowExpression(window), Number(1)))
  }

  const UNPRICED_REQUEST_MICRO_DOLLARS: nat := 1000

  function CostExpression(): Expr {
    var priced := ToInt(Times(CostTotal, MICRO_DOLLARS_PER_DOLLAR));
    Choice(HasCost,
           Choice(Positive(priced), priced, Number(UNPRICED_REQUEST_MICRO_DOLLARS)),
           Number(UNPRICED_REQUEST_MICRO_DOLLARS))
  }

  // ----- The texts the operator writes -----

  function WindowExpressionText(window: string): string {
    "(has(apiKey." + BUDGET_WINDOW_KEY + ") ? " +
    "apiKey." + BUDGET_WINDOW_KEY + " : \"" + window + "\")"
  }

  /** The shape both overrides share: a test, the key's own limit, and the limit otherwise. */
  function OverrideText(test: string, own: string, otherwise: string, window: string): string {
    var unit := WindowExpressionText(window);
    test + " ? " + "{\"unit\": " + unit + own + "{\"unit\": " + unit + otherwise
  }

  function TokenBudgetOverrideText(window: string, fallback: nat): string {
    OverrideText("has(apiKey.tokenBudget)",
                 ", \"requestsPerUnit\": int(apiKey.tokenBudget)} : ",
                 ", \"requestsPerUnit\": " + Decimal.Format(fallback) + "}",
                 window)
  }

  function CostBudgetOverrideText(window: string): string {
    OverrideText("has(apiKey." + COST_BUDGET_KEY + ")",
                 ", \"requestsPerUnit\": int(apiKey." + COST_BUDGET_KEY + ")} : ",
                 ", \"requestsPerUnit\": 1}",
                 window)
  }

  function CostExpressionText(): string {
    var priced := "int(llm.cost.total * " + Decimal.Format(MICRO_DOLLARS_PER_DOLLAR) + ")";
    var fallback := Decimal.Format(UNPRICED_REQUEST_MICRO_DOLLARS);
    "has(llm.cost) ? (" + priced + " > 0 ? " + priced + " : " + fallback + ") : " + fallback
  }

  lemma SpliceWindow(o: string, h: string, k: string, c: string, q: string,
                     a: string, s: string, quote: string, w: string)
    ensures o + (h + k + c) + q + (a + k) + s + (quote + w + quote) + c
         == (o + h) + k + (c + q) + a + k + (s + quote) + w + (quote + c)
  {
  }

  lemma WindowTextAgrees(window: string)
    ensures ShowInner(WindowExpression(window)) == WindowExpressionText(window)
  {
    SpliceWindow("(", "has(apiKey.", BUDGET_WINDOW_KEY, ")", " ? ", "apiKey.", " : ", "\"", window);
    assert "(" + "has(apiKey." == "(has(apiKey.";
    assert ")" + " ? " == ") ? ";
    assert " : " + "\"" == " : \"";
    assert "\"" + ")" == "\")";
  }

  lemma SpliceOverride(test: string, open: string, unit: string, mid: string, own: string, other: string)
    ensures test + " ? " + (open + unit + mid + own + "}") + " : " + (open + unit + mid + other + "}")
         == test + " ? " + open + unit + (mid + own + ("}" + " : ")) + open + unit + (mid + other + "}")
  {
  }

  lemma OverrideTextAgrees(field: string, window: string, other: Expr, own: string)
    requires ", \"requestsPerUnit\": " + ("int(" + ("apiKey." + field) + ")") + ("}" + " : ") == own
    ensures var unit := WindowExpression(window);
            Show(Choice(HasKey(field), Limit(unit, ToInt(Key(field))), Limit(unit, other))) ==
            OverrideText("has(apiKey." + field + ")", own,
                         ", \"requestsPerUnit\": " + ShowInner(other) + "}", window)
  {
    WindowTextAgrees(window);
    var value := "int(" + ("apiKey." + field) + ")";
    assert ShowInner(ToInt(Key(field))) == value;
    SpliceOverride("has(apiKey." + field + ")", "{\"unit\": ", WindowExpressionText(window),
                   ", \"requestsPerUnit\": ", value, ShowInner(other));
  }

  /** The expressions reasoned about are the texts written into the policy: the token override. */
  lemma TokenTextAgrees(window: string, fallback: nat)
    ensures Show(TokenBudgetOverride(window, fallback)) == TokenBudgetOverrideText(window, fallback)
  {
    OverrideTextAgrees(TOKEN_BUDGET_KEY, window, Number(fallback),
                       ", \"requestsPerUnit\": int(apiKey.tokenBudget)} : ");
    assert "has(apiKey." + TOKEN_BUDGET_KEY + ")" == "has(apiKey.tokenBudget)";
  }

  lemma CostTextAgrees(window: string)
    ensures Show(CostBudgetOverride(window)) == CostBudgetOverrideText(window)
  {
    OverrideTextAgrees(COST_BUDGET_KEY, window, Number(1),
                       ", \"requestsPerUnit\": int(apiKey." + COST_BUDGET_KEY + ")} : ");
    assert Decimal.Format(1) == "1";
    assert ", \"requestsPerUnit\": " + "1" + "}" == ", \"requestsPerUnit\": 1}";
  }

  lemma SpliceCharge(priced: string, fallback: string)
    ensures "has(llm.cost)" + " ? "
            + ("(" + (priced + " > 0") + " ? " + priced + " : " + fallback + ")") + " : " + fallback
         == "has(llm.cost) ? (" + priced + " > 0 ? " + priced + " : " + fallback + ") : " + fallback
  {
    SplitAround("has(llm.cost)", " ? ", "(", priced, " > 0", " : ", fallback, ")");
    assert ("has(llm.cost)" + " ? ") + "(" == "has(llm.cost) ? (";
    assert " > 0" + " ? " == " > 0 ? ";
    assert ")" + " : " == ") : ";
  }

  lemma SplitAround(h: string, q: string, open: string, p: string, gt: string, c: string, f: string, close: string)
    ensures h + q + (open + (p + gt) + q + p + c + f + close) + c + f
         == ((h + q) + open) + p + (gt + q) + p + c + f + (close + c) + f
  {
  }

  lemma PricedText(total: string, million: string)
    ensures "int(" + (total + " * " + million) + ")" == "int(" + total + " * " + million + ")"
    ensures "int(" + "llm.cost.total" + " * " == "int(llm.cost.total * "
  {
  }

  lemma PricedTextAgrees()
    ensures ShowInner(ToInt(Times(CostTotal, MICRO_DOLLARS_PER_DOLLAR)))
         == "int(llm.cost.total * " + Decimal.Format(MICRO_DOLLARS_PER_DOLLAR) + ")"
  {
    PricedText("llm.cost.total", Decimal.Format(MICRO_DOLLARS_PER_DOLLAR));
  }

  lemma ChargeTextAgrees()
    ensures Show(CostExpression()) == CostExpressionText()
  {
    var priced := ToInt(Times(CostTotal, MICRO_DOLLARS_PER_DOLLAR));
    var text, fallback := ShowInner(priced), Decimal.Format(UNPRICED_REQUEST_MICRO_DOLLARS);
    PricedTextAgrees();
    assert ShowInner(Choice(Positive(priced), priced, Number(UNPRICED_REQUEST_MICRO_DOLLARS)))
        == "(" + (text + " > 0") + " ? " + text + " : " + fallback + ")";
    SpliceCharge(text, fallback);
  }

  // ----- What a key is held to -----

  /** A rate-limit descriptor: the entries it keys on and the override of its limit. */
  datatype Descriptor = Descriptor(entries: seq<Expr>, limitOverride: Expr)

  datatype Ceiling = Ceiling(window: string, amount: int)

  function TokenDescriptor(window: string, fallback: nat): Descriptor {
    Descriptor([Key(SESSION_KEY)], TokenBudgetOverride(window, fallback))
  }

  function CostDescriptor(window: string): Descriptor {
    Descriptor([Key(SESSION_KEY), Key(COST_BUDGET_KEY)], CostBudgetOverride(window))
  }

  predicate Applies(d: Descriptor, ctx: Context) {
    forall i | 0 <= i < |d.entries| :: Eval(d.entries[i], ctx).Some?
  }

  /**
   The ceiling a descriptor imposes on one key: none when an entry cannot be
   evaluated, the shared row when the override cannot.
   */
  function Enforced(d: Descriptor, ctx: Context, row: Ceiling): Option<Ceiling> {
    if !Applies(d, ctx) then None
    else match Eval(d.limitOverride, ctx)
      case Some(CelLimit(unit, n)) => Some(Ceiling(unit, n))
      case _ => Some(row)
  }

  lemma PrintedBudgetReads(n: nat)
    requires n <= MAX_INT64
    ensures IntOfText(Decimal.Format(n)) == Some(n)
  {
    Decimal.FormatReads(n);
    assert !Decimal.IsDigit('-') && !Decimal.IsDigit('+');
  }

  /** Both overrides take their window from the key, and from the policy when the key has none. */
  lemma WindowRead(window: string, ctx: Context)
    ensures Eval(WindowExpression(window), ctx) ==
            Some(CelString(if BUDGET_WINDOW_KEY in ctx.apiKey then ctx.apiKey[BUDGET_WINDOW_KEY] else window))
  {
  }

  function UnitFor(window: string, ctx: Context): string {
    if BUDGET_WINDOW_KEY in ctx.apiKey then ctx.apiKey[BUDGET_WINDOW_KEY] else window
  }

  /** What an override of either kind evaluates to, over any metadata at all. */
  lemma OverrideRead(field: string, window: string, otherwise: nat, ctx: Context)
    ensures var unit := WindowExpression(window);
            Eval(Choice(HasKey(field), Limit(unit, ToInt(Key(field))), Limit(unit, Number(otherwise))), ctx) ==
            if field !in ctx.apiKey then Some(CelLimit(UnitFor(window, ctx), otherwise))
            else match IntOfText(ctx.apiKey[field])
              case Some(n) => Some(CelLimit(UnitFor(window, ctx), n))
              case None => None
  {
    WindowRead(window, ctx);
    var unit := WindowExpression(window);
    var own, other := Limit(unit, ToInt(Key(field))), Limit(unit, Number(otherwise));
    assert Eval(other, ctx) == Some(CelLimit(UnitFor(window, ctx), otherwise));
    if field in ctx.apiKey {
      assert Eval(Key(field), ctx) == Some(CelString(ctx.apiKey[field]));
      assert Eval(ToInt(Key(field)), ctx) ==
             match IntOfText(ctx.apiKey[field]) case Some(n) => Some(CelInt(n)) case None => None;
    }
  }

  lemma TokensEnforced(ctx: Context, budget: Option<nat>, fallback: nat, row: Ceiling)
    requires SESSION_KEY in ctx.apiKey
    requires TOKEN_BUDGET_KEY in ctx.apiKey <==> budget.Some?
    requires budget.Some? ==> budget.value <= MAX_INT64 && ctx.apiKey[TOKEN_BUDGET_KEY] == Decimal.Format(budget.value)
    ensures var d := TokenDescriptor(DEFAULT_BUDGET_WINDOW, fallback);
            && Eval(d.limitOverride, ctx).Some?
            && Enforced(d, ctx, row) ==
               Some(Ceiling(UnitFor(DEFAULT_BUDGET_WINDOW, ctx), if budget.Some? then budget.value else fallback))
  {
    OverrideRead(TOKEN_BUDGET_KEY, DEFAULT_BUDGET_WINDOW, fallback, ctx);
    if budget.Some? {
      PrintedBudgetReads(budget.value);
    }
  }

  lemma SpendEnforced(ctx: Context, budget: Option<nat>, row: Ceiling)
    requires SESSION_KEY in ctx.apiKey
    requires COST_BUDGET_KEY in ctx.apiKey <==> budget.Some?
    requires budget.Some? ==> budget.value <= MAX_INT64 && ctx.apiKey[COST_BUDGET_KEY] == Decimal.Format(budget.value)
    ensures var d := CostDescriptor(DEFAULT_BUDGET_WINDOW);
            && Eval(d.limitOverride, ctx).Some?
            && Enforced(d, ctx, row) ==
               if budget.Some? then Some(Ceiling(UnitFor(DEFAULT_BUDGET_WINDOW, ctx), budget.value)) else None
  {
    OverrideRead(COST_BUDGET_KEY, DEFAULT_BUDGET_WINDOW, 1, ctx);
    var d := CostDescriptor(DEFAULT_BUDGET_WINDOW);
    assert Eval(d.entries[0], ctx).Some? && (Eval(d.entries[1], ctx).Some? <==> COST_BUDGET_KEY in ctx.apiKey);
    if budget.Some? {
      PrintedBudgetReads(budget.value);
    }
  }

  /**
   End to end: whatever the grant and the catalog say, the overrides evaluate
   over the registration built from them, and the key is held to exactly the
   resolved ceilings over the grant's own window. The cost descriptor applies
   exactly when a cost ceiling is configured.
   */
  lemma EnforcedExactly(grant: Grant, key: string, c: Catalog, cost: Option<real>, row: Ceiling)
    ensures c.EffectiveDefaultTokenBudget() >= 1
    ensures var ctx := Context(DesiredEntry(grant, key, c).metadata, cost);
            var tokens := TokenDescriptor(DEFAULT_BUDGET_WINDOW, c.EffectiveDefaultTokenBudget());
            var spend := CostDescriptor(DEFAULT_BUDGET_WINDOW);
            var window := if grant.budgetWindow == "" then "day" else grant.budgetWindow;
            && Eval(tokens.limitOverride, ctx).Some? && Eval(spend.limitOverride, ctx).Some?
            && Enforced(tokens, ctx, row) == Some(Ceiling(window, TokensOf(grant, c).value))
            && Enforced(spend, ctx, row) ==
               if CostOf(grant, c).configured then Some(Ceiling(window, CostOf(grant, c).micros)) else None
  {
    var ctx := Context(DesiredEntry(grant, key, c).metadata, cost);
    TokenCeiling(grant.tokenBudget, c);
    TokenCeiling(None, c);
    CostCeiling(grant, c);
    DesiredFields(grant, key, c);
    var pinned := if Set(grant.tokenBudget) then Some(TokensOf(grant, c).value as nat) else None;
    var spent := if CostOf(grant, c).configured then Some(CostOf(grant, c).micros) else None;
    TokensEnforced(ctx, pinned, c.EffectiveDefaultTokenBudget(), row);
    SpendEnforced(ctx, spent, row);
  }

  /**
   The token override over any metadata at all: it fails exactly when a budget is
   present that does not read as a number. A missing budget falls back; an
   unreadable one does not.
   */
  lemma TokenOverrideFailsWhen(window: string, fallback: nat, ctx: Context)
    ensures Eval(TokenBudgetOverride(window, fallback), ctx).None? <==>
            TOKEN_BUDGET_KEY in ctx.apiKey && IntOfText(ctx.apiKey[TOKEN_BUDGET_KEY]).None?
    ensures TOKEN_BUDGET_KEY !in ctx.apiKey ==>
            Eval(TokenBudgetOverride(window, fallback), ctx) == Some(CelLimit(UnitFor(window, ctx), fallback))
  {
    OverrideRead(TOKEN_BUDGET_KEY, window, fallback, ctx);
  }

  /** Which texts int() reads, and as what: digits within int64, with either sign or none. */
  lemma IntOfTextIs(digits: string)
    requires digits != "" && Decimal.AllDigits(digits)
    ensures var n := Decimal.Value(digits);
            && IntOfText(digits) == IntOfText("+" + digits) == (if n <= MAX_INT64 then Some(n) else None)
            && IntOfText("-" + digits) == (if n <= MAX_INT64 + 1 then Some(-(n as int)) else None)
  {
    assert ("+" + digits)[1..] == digits && ("-" + digits)[1..] == digits;
    assert !Decimal.IsDigit('+') && !Decimal.IsDigit('-');
  }

  lemma OnlySignedDigitsRead(s: string)
    requires IntOfText(s).Some?
    ensures exists digits :: digits != "" && Decimal.AllDigits(digits)
                             && (s == digits || s == "+" + digits || s == "-" + digits)
  {
    if s[0] == '+' || s[0] == '-' {
      assert s == [s[0]] + s[1..];
    }
  }

  /**
   At an input: a budget written as a word is an error, so the key is held to the
   shared row and not to the fallback.
   */
  lemma WrittenBudgetDoesNotFallBack(fallback: nat, row: Ceiling)
    ensures var ctx := Context(map[SESSION_KEY := "s1", TOKEN_BUDGET_KEY := "many"], None);
            && Eval(TokenBudgetOverride(DEFAULT_BUDGET_WINDOW, fallback), ctx) == None
            && Enforced(TokenDescriptor(DEFAULT_BUDGET_WINDOW, fallback), ctx, row) == Some(row)
  {
    var ctx := Context(map[SESSION_KEY := "s1", TOKEN_BUDGET_KEY := "many"], None);
    assert !Decimal.IsDigit("many"[0]);
    assert IntOfText("many") == None;
    OverrideRead(TOKEN_BUDGET_KEY, DEFAULT_BUDGET_WINDOW, fallback, ctx);
    assert Eval(Key(SESSION_KEY), ctx).Some?;
  }

  /**
   Every request costs something: the charge is the priced amount in whole
   micro-dollars, or the flat fallback when that is not positive or the model was
   not priced. It is an error only when the priced amount leaves int64.
   */
  lemma ChargeIsPositive(ctx: Context)
    ensures var charge := Eval(CostExpression(), ctx);
            match ctx.cost
            case None => charge == Some(CelInt(1000))
            case Some(total) =>
              var micros := Truncate(total * 1_000_000.0);
              && (charge.None? <==> micros < -(MAX_INT64 as int) - 1 || micros > MAX_INT64)
              && (charge.Some? ==> charge == Some(CelInt(if total >= 0.000001 then micros else 1000)))
              && (charge.Some? ==> charge.value.CelInt? && charge.value.n >= 1)
              && (total >= 0.0 ==> micros as real <= total * 1_000_000.0 < micros as real + 1.0)
              && (total <= 0.0 ==> micros as real - 1.0 < total * 1_000_000.0 <= micros as real)
  {
    if ctx.cost.Some? {
      var priced, total := ToInt(Times(CostTotal, MICRO_DOLLARS_PER_DOLLAR)), ctx.cost.value;
      var micros := Truncate(total * 1_000_000.0);
      assert Eval(Times(CostTotal, MICRO_DOLLARS_PER_DOLLAR), ctx) == Some(CelDouble(total * 1_000_000.0));
      assert Eval(priced, ctx) ==
             match IntOfDouble(total * 1_000_000.0) case Some(n) => Some(CelInt(n)) case None => None;
      ChargeInner(priced, ctx);
      assert micros > 0 <==> total >= 0.000001;
    }
  }

  lemma ChargeInner(priced: Expr, ctx: Context)
    requires ctx.cost.Some?
    requires Eval(priced, ctx).Some? ==> Eval(priced, ctx).value.CelInt?
    ensures var inner := Choice(Positive(priced), priced, Number(UNPRICED_REQUEST_MICRO_DOLLARS));
            Eval(Choice(HasCost, inner, Number(UNPRICED_REQUEST_MICRO_DOLLARS)), ctx) ==
            match Eval(priced, ctx)
            case Some(CelInt(n)) => Some(CelInt(if n > 0 then n else UNPRICED_REQUEST_MICRO_DOLLARS))
            case _ => None
  {
    var flat := Number(UNPRICED_REQUEST_MICRO_DOLLARS);
    var inner := Choice(Positive(priced), priced, flat);
    assert Eval(flat, ctx) == Some(CelInt(UNPRICED_REQUEST_MICRO_DOLLARS));
    if Eval(priced, ctx).Some? {
      var n := Eval(priced, ctx).value.n;
      assert Eval(Positive(priced), ctx) == Some(CelBool(n > 0));
      assert Eval(inner, ctx) == if n > 0 then Eval(priced, ctx) else Eval(flat, ctx);
    } else {
      assert Eval(Positive(priced), ctx) == None;
      assert Eval(inner, ctx) == None;
    }
    assert Eval(HasCost, ctx) == Some(CelBool(true));
    assert Eval(Choice(HasCost, inner, flat), ctx) == Eval(inner, ctx);
  }
}
