/** The session budget: recorded spend, one-time warnings, and the preflight check. Money is real, not rounded. */
module Cost {
  import opened Basics

  /** USD per 1000 tokens. */
  datatype Price = Price(prompt: real, completion: real)

  datatype Usage = Usage(promptTokens: nat, completionTokens: nat, providerCost: Option<real>)

  datatype Warning = Warn70 | Warn90

  datatype CostState = CostState(
    budget: real, spent: real, promptTokens: nat, completionTokens: nat, unknownCalls: nat,
    warnings: seq<Warning>, hardStopped: bool)

  datatype CostUpdate = CostUpdate(cost: real, approximate: bool, state: CostState, fired: seq<Warning>)

  datatype Preflight = Preflight(blocked: bool, projected: CostState, worstCase: real)

  /** Price entries are positive. */
  predicate ValidTable(table: map<string, Price>) {
    forall k :: k in table ==> table[k].prompt > 0.0 && table[k].completion > 0.0
  }

  /** A reported provider cost is not negative. */
  predicate ValidUsage(usage: Usage) {
    usage.providerCost.Some? ==> usage.providerCost.value >= 0.0
  }

  /** None for a model that the table does not price. */
  function EstimateCost(
      table: map<string, Price>, provider: string, model: string, prompt: nat, completion: nat): Option<real>
  {
    var key := provider + "/" + model;
    if key in table then
      Some(prompt as real / 1000.0 * table[key].prompt + completion as real / 1000.0 * table[key].completion)
    else None
  }

  /** What a call is charged: the provider's figure, else the table's, else nothing. */
  function Charge(table: map<string, Price>, provider: string, model: string, usage: Usage): real {
    if usage.providerCost.Some? then usage.providerCost.value
    else match EstimateCost(table, provider, model, usage.promptTokens, usage.completionTokens)
         case Some(cost) => cost
         case None => 0.0
  }

  predicate Unpriced(table: map<string, Price>, provider: string, model: string, usage: Usage) {
    usage.providerCost.None? && EstimateCost(table, provider, model, usage.promptTokens, usage.completionTokens).None?
  }

  /** The warnings that a budget and a spend call for. */
  function Due(budget: real, spent: real): seq<Warning> {
    if budget <= 0.0 || spent < 0.7 * budget then []
    else if spent < 0.9 * budget then [Warn70]
    else [Warn70, Warn90]
  }

  function AfterUsage(
      s: CostState, table: map<string, Price>, provider: string, model: string, usage: Usage): CostState
  {
    var spent := s.spent + Charge(table, provider, model, usage);
    s.(spent := spent,
       promptTokens := s.promptTokens + usage.promptTokens,
       completionTokens := s.completionTokens + usage.completionTokens,
       unknownCalls := s.unknownCalls + (if Unpriced(table, provider, model, usage) then 1 else 0),
       warnings := Due(s.budget, spent))
  }

  /**
   One more call: its cost is the provider's figure, else the table's, else nothing, when it counts as
   unpriced; it is added to the spend, and the warnings are those of the new spend.
   */
  lemma UsageMeans(s: CostState, table: map<string, Price>, provider: string, model: string, usage: Usage)
    ensures var t, cost := AfterUsage(s, table, provider, model, usage), Charge(table, provider, model, usage);
            var estimate := EstimateCost(table, provider, model, usage.promptTokens, usage.completionTokens);
            && cost == (if usage.providerCost.Some? then usage.providerCost.value
                        else if estimate.Some? then estimate.value else 0.0)
            && t.spent == s.spent + cost && t.budget == s.budget && t.hardStopped == s.hardStopped
            && t.promptTokens == s.promptTokens + usage.promptTokens
            && t.completionTokens == s.completionTokens + usage.completionTokens
            && t.unknownCalls == s.unknownCalls + (if usage.providerCost.None? && estimate.None? then 1 else 0)
            && (Warn70 in t.warnings <==> s.budget > 0.0 && 10.0 * t.spent >= 7.0 * s.budget)
            && (Warn90 in t.warnings <==> s.budget > 0.0 && 10.0 * t.spent >= 9.0 * s.budget)
            && |t.warnings| <= 2 && (|t.warnings| == 2 ==> t.warnings == [Warn70, Warn90])
  {
  }

  function PreflightOf(
      s: CostState, table: map<string, Price>, provider: string, model: string, prompt: nat, maxTokens: nat)
    : Preflight
  {
    var worst := WorstCase(table, provider, model, prompt, maxTokens);
    var blocked := s.budget > 0.0 && s.spent + worst > s.budget;
    Preflight(blocked, s.(spent := s.spent + worst, hardStopped := blocked), worst)
  }

  function WorstCase(table: map<string, Price>, provider: string, model: string, prompt: nat, maxTokens: nat): real {
    match EstimateCost(table, provider, model, prompt, maxTokens) case Some(cost) => cost case None => 0.0
  }

  /** Spend is not negative and the warnings sent are the ones due: no more, no fewer, in order. */
  predicate ValidState(s: CostState) {
    s.budget >= 0.0 && s.spent >= 0.0 && s.warnings == Due(s.budget, s.spent)
  }

  /** A priced call costs its tokens by the thousand, prompt and completion each at its own price. */
  lemma EstimateMeans(table: map<string, Price>, provider: string, model: string, prompt: nat, completion: nat)
    ensures var cost, key := EstimateCost(table, provider, model, prompt, completion), provider + "/" + model;
            && (cost.Some? <==> key in table)
            && (cost.Some? ==> 1000.0 * cost.value ==
                               prompt as real * table[key].prompt + completion as real * table[key].completion)
  {
    var key := provider + "/" + model;
    if key in table {
      ThousandTimes(prompt as real, table[key].prompt);
      ThousandTimes(completion as real, table[key].completion);
    }
  }

  lemma ThousandTimes(tokens: real, price: real)
    ensures 1000.0 * (tokens / 1000.0 * price) == tokens * price
  {
    var share := tokens / 1000.0;
    assert 1000.0 * share == tokens;
    assert 1000.0 * (share * price) == (1000.0 * share) * price;
  }

  lemma FractionBelow(spent: real, budget: real, limit: real)
    requires budget > 0.0
    ensures spent / budget < limit <==> spent < limit * budget
  {
    var fraction := spent / budget;
    assert fraction * budget == spent;
    if fraction < limit {
      assert (limit - fraction) * budget > 0.0;
    } else {
      assert (fraction - limit) * budget >= 0.0;
    }
  }

  lemma ProductMonotone(x: real, y: real, k: real)
    requires 0.0 <= x <= y && k > 0.0
    ensures 0.0 <= x * k <= y * k
  {
    assert (y - x) * k >= 0.0 && x * k >= 0.0;
  }

  /** Fewer tokens never cost more. */
  lemma EstimateMonotone(table: map<string, Price>, provider: string, model: string, p: nat, c: nat, p': nat, c': nat)
    requires ValidTable(table) && p <= p' && c <= c'
    ensures var low, high := EstimateCost(table, provider, model, p, c), EstimateCost(table, provider, model, p', c');
            && (low.Some? <==> high.Some?)
            && (low.Some? ==> 0.0 <= low.value <= high.value)
  {
    var key := provider + "/" + model;
    if key in table {
      ProductMonotone(p as real / 1000.0, p' as real / 1000.0, table[key].prompt);
      ProductMonotone(c as real / 1000.0, c' as real / 1000.0, table[key].completion);
    }
  }

  lemma ChargeNotNegative(table: map<string, Price>, provider: string, model: string, usage: Usage)
    requires ValidTable(table) && ValidUsage(usage)
    ensures Charge(table, provider, model, usage) >= 0.0
  {
    var p, c := usage.promptTokens, usage.completionTokens;
    EstimateMonotone(table, provider, model, p, c, p, c);
  }

  class CostGovernor {
    const budget: real
    const table: map<string, Price>
    var spent: real
    var promptTokens: nat
    var completionTokens: nat
    var unknownCalls: nat
    var warningsSent: seq<Warning>
    var hardStopped: bool

    function State(): CostState
      reads this
    {
      CostState(budget, spent, promptTokens, completionTokens, unknownCalls, warningsSent, hardStopped)
    }

    predicate Valid()
      reads this
    {
      ValidTable(table) && ValidState(State())
    }

    constructor (sessionBudget: real, prices: map<string, Price>)
      requires sessionBudget >= 0.0 && ValidTable(prices)
      ensures Valid() && table == prices
      ensures State() == CostState(sessionBudget, 0.0, 0, 0, 0, [], false)
    {
      budget, table := sessionBudget, prices;
      spent, promptTokens, completionTokens, unknownCalls := 0.0, 0, 0, 0;
      warningsSent, hardStopped := [], false;
    }

    /** Adds up one call and sends each warning that is now due and was not sent before. */
    method RecordUsage(provider: string, model: string, usage: Usage) returns (r: CostUpdate)
      requires Valid() && ValidUsage(usage)
      modifies this
      ensures Valid() && State() == AfterUsage(old(State()), table, provider, model, usage)
      ensures r.cost == Charge(table, provider, model, usage) && r.approximate == usage.providerCost.None?
      ensures r.state == State() && State().warnings == old(State().warnings) + r.fired
    {
      var cost, approximate := 0.0, false;
      if usage.providerCost.Some? {
        cost := usage.providerCost.value;
      } else {
        approximate := true;
        var estimate := EstimateCost(table, provider, model, usage.promptTokens, usage.completionTokens);
        if estimate.Some? { cost := estimate.value; } else { unknownCalls := unknownCalls + 1; }
      }
      ChargeNotNegative(table, provider, model, usage);
      spent := spent + cost;
      promptTokens := promptTokens + usage.promptTokens;
      completionTokens := completionTokens + usage.completionTokens;
      var fired: seq<Warning> := [];
      if budget > 0.0 {
        var fraction := spent / budget;
        FractionBelow(spent, budget, 0.7);
        FractionBelow(spent, budget, 0.9);
        if fraction >= 0.7 && Warn70 !in warningsSent {
          warningsSent, fired := warningsSent + [Warn70], fired + [Warn70];
        }
        if fraction >= 0.9 && Warn90 !in warningsSent {
          warningsSent, fired := warningsSent + [Warn90], fired + [Warn90];
        }
      }
      r := CostUpdate(cost, approximate, State(), fired);
    }

    method CheckPreflight(provider: string, model: string, prompt: nat, maxTokens: nat) returns (r: Preflight)
      requires Valid()
      ensures r == PreflightOf(State(), table, provider, model, prompt, maxTokens)
      ensures var estimate := EstimateCost(table, provider, model, prompt, maxTokens);
              && r.worstCase == (if estimate.Some? then estimate.value else 0.0)
              && (r.blocked <==> budget > 0.0 && spent + r.worstCase > budget)
              && r.projected == State().(spent := spent + r.worstCase, hardStopped := r.blocked)
    {
      var worst := 0.0;
      var estimate := EstimateCost(table, provider, model, prompt, maxTokens);
      if estimate.Some? { worst := estimate.value; }
      var projected := spent + worst;
      if budget > 0.0 && projected > budget {
        return Preflight(true, State().(spent := projected, hardStopped := true), worst);
      }
      return Preflight(false, State().(spent := projected, hardStopped := false), worst);
    }

    method ApplyHardStop()
      requires Valid()
      modifies this
      ensures Valid() && State() == old(State()).(hardStopped := true)
    {
      hardStopped := true;
    }
  }

  /** Opening a session: a negative budget is an error. */
  method OpenSession(budget: real, prices: map<string, Price>) returns (governor: Option<CostGovernor>)
    requires ValidTable(prices)
    ensures governor.None? <==> budget < 0.0
    ensures governor.Some? ==> fresh(governor.value) && governor.value.Valid() && governor.value.table == prices
    ensures governor.Some? ==> governor.value.State() == CostState(budget, 0.0, 0, 0, 0, [], false)
  {
    if budget < 0.0 { return None; }
    var g := new CostGovernor(budget, prices);
    return Some(g);
  }

  // ---------------------------------------------------------------- runs

  /** A call made only after an unblocked preflight, a usage recorded without one, or a hard stop. */
  datatype Event =
    | Checked(provider: string, model: string, prompt: nat, maxTokens: nat, usage: Usage)
    | Unchecked(provider: string, model: string, usage: Usage)
    | HardStop

  function Step(s: CostState, table: map<string, Price>, e: Event): CostState {
    match e
    case Checked(provider, model, prompt, maxTokens, usage) =>
      if PreflightOf(s, table, provider, model, prompt, maxTokens).blocked then s
      else AfterUsage(s, table, provider, model, usage)
    case Unchecked(provider, model, usage) => AfterUsage(s, table, provider, model, usage)
    case HardStop => s.(hardStopped := true)
  }

  function Run(s: CostState, table: map<string, Price>, events: seq<Event>): CostState {
    if events == [] then s else Step(Run(s, table, events[..|events| - 1]), table, events[|events| - 1])
  }

  predicate ValidEvent(e: Event) {
    !e.HardStop? ==> ValidUsage(e.usage)
  }

  /** A checked call that stayed within the tokens, and any reported cost within the estimate, of its preflight. */
  predicate Disciplined(table: map<string, Price>, e: Event) {
    match e
    case HardStop => true
    case Unchecked(_, _, _) => false
    case Checked(provider, model, prompt, maxTokens, usage) =>
      && usage.promptTokens <= prompt && usage.completionTokens <= maxTokens
      && (usage.providerCost.Some? ==>
          0.0 <= usage.providerCost.value <= WorstCase(table, provider, model, prompt, maxTokens))
  }

  lemma StepKeeps(s: CostState, table: map<string, Price>, e: Event)
    requires ValidTable(table) && ValidState(s) && ValidEvent(e)
    ensures ValidState(Step(s, table, e)) && Step(s, table, e).budget == s.budget
    ensures s.spent <= Step(s, table, e).spent && s.warnings <= Step(s, table, e).warnings
  {
    if !e.HardStop? { ChargeNotNegative(table, e.provider, e.model, e.usage); }
  }

  /** Over every run: the warnings sent are [], [70] or [70, 90], decided by the spend, and are never taken back. */
  lemma {:induction false} WarningsDecidedBySpend(s: CostState, table: map<string, Price>, events: seq<Event>)
    requires ValidTable(table) && ValidState(s) && forall e :: e in events ==> ValidEvent(e)
    ensures ValidState(Run(s, table, events)) && Run(s, table, events).budget == s.budget
    ensures s.spent <= Run(s, table, events).spent && s.warnings <= Run(s, table, events).warnings
  {
    if events != [] {
      var front := events[..|events| - 1];
      WarningsDecidedBySpend(s, table, front);
      StepKeeps(Run(s, table, front), table, events[|events| - 1]);
    }
  }

  /** The warnings fired by each step of a run, one after the other. */
  function Fired(s: CostState, table: map<string, Price>, events: seq<Event>): seq<Warning> {
    if events == [] then []
    else
      var before := Run(s, table, events[..|events| - 1]);
      Fired(s, table, events[..|events| - 1])
      + LastN(Step(before, table, events[|events| - 1]).warnings,
              Growth(before.warnings, Step(before, table, events[|events| - 1]).warnings))
  }

  function Growth(before: seq<Warning>, after: seq<Warning>): nat {
    if |after| > |before| then |after| - |before| else 0
  }

  lemma Grown(before: seq<Warning>, after: seq<Warning>)
    requires before <= after
    ensures before + LastN(after, Growth(before, after)) == after
  {
  }

  /** Each warning fires at most once in a session, 70 before 90, exactly when the spend has reached it. */
  lemma {:induction false} EachWarningOnce(budget: real, table: map<string, Price>, events: seq<Event>)
    requires ValidTable(table) && budget >= 0.0 && forall e :: e in events ==> ValidEvent(e)
    ensures var start := CostState(budget, 0.0, 0, 0, 0, [], false);
            Fired(start, table, events) == Due(budget, Run(start, table, events).spent)
  {
    if events != [] {
      var start := CostState(budget, 0.0, 0, 0, 0, [], false);
      var front := events[..|events| - 1];
      var before, last := Run(start, table, front), events[|events| - 1];
      EachWarningOnce(budget, table, front);
      WarningsDecidedBySpend(start, table, front);
      StepKeeps(before, table, last);
      Grown(before.warnings, Step(before, table, last).warnings);
    }
  }

  lemma DisciplinedCharge(table: map<string, Price>, e: Event)
    requires ValidTable(table) && Disciplined(table, e) && e.Checked?
    ensures Charge(table, e.provider, e.model, e.usage) <= WorstCase(table, e.provider, e.model, e.prompt, e.maxTokens)
  {
    EstimateMonotone(table, e.provider, e.model, e.usage.promptTokens, e.usage.completionTokens, e.prompt, e.maxTokens);
  }

  lemma DisciplinedStep(s: CostState, table: map<string, Price>, e: Event)
    requires ValidTable(table) && s.budget > 0.0 && s.spent <= s.budget && Disciplined(table, e)
    ensures Step(s, table, e).spent <= s.budget && Step(s, table, e).budget == s.budget
  {
    if e.Checked? {
      DisciplinedCharge(table, e);
      var worst := WorstCase(table, e.provider, e.model, e.prompt, e.maxTokens);
      if s.spent + worst <= s.budget {
        assert Step(s, table, e).spent == s.spent + Charge(table, e.provider, e.model, e.usage);
      } else {
        assert Step(s, table, e) == s;
      }
    }
  }

  /** When every call follows an unblocked preflight and stays within it, no run spends more than a positive budget. */
  lemma {:induction false} NeverOverBudget(s: CostState, table: map<string, Price>, events: seq<Event>)
    requires ValidTable(table) && s.budget > 0.0 && s.spent <= s.budget
    requires forall e :: e in events ==> Disciplined(table, e)
    ensures Run(s, table, events).spent <= s.budget && Run(s, table, events).budget == s.budget
  {
    if events != [] {
      NeverOverBudget(s, table, events[..|events| - 1]);
      DisciplinedStep(Run(s, table, events[..|events| - 1]), table, events[|events| - 1]);
    }
  }

  /**
   One checked call on a session within its budget goes over it exactly when the preflight lets
   the call through and the charge exceeds what is left.
   */
  lemma OverspendExactly(s: CostState, table: map<string, Price>, e: Event)
    requires ValidTable(table) && s.budget > 0.0 && s.spent <= s.budget && e.Checked?
    ensures Step(s, table, e).spent > s.budget
            <==> && WorstCase(table, e.provider, e.model, e.prompt, e.maxTokens) <= s.budget - s.spent
                 && s.budget - s.spent < Charge(table, e.provider, e.model, e.usage)
  {
  }

  /** A model without a price is never blocked within the budget, so only its reported cost decides. */
  lemma UnpricedModelCanOverspend(
      budget: real, provider: string, model: string, prompt: nat, maxTokens: nat, cost: real)
    requires 0.0 < budget < cost
    ensures var s := CostState(budget, 0.0, 0, 0, 0, [], false);
            && !PreflightOf(s, map[], provider, model, prompt, maxTokens).blocked
            && Step(s, map[],
                    Checked(provider, model, prompt, maxTokens, Usage(prompt, maxTokens, Some(cost)))).spent > budget
  {
  }

  /** A zero budget blocks nothing and warns of nothing. */
  lemma ZeroBudgetIsUnlimited(
      s: CostState, table: map<string, Price>, provider: string, model: string, prompt: nat, maxTokens: nat)
    requires s.budget == 0.0
    ensures !PreflightOf(s, table, provider, model, prompt, maxTokens).blocked && Due(s.budget, s.spent) == []
  {
  }

  /** The hard stop is a mark only: it changes no preflight answer. */
  lemma HardStopBlocksNothing(
      s: CostState, table: map<string, Price>, provider: string, model: string, prompt: nat, maxTokens: nat)
    ensures PreflightOf(s.(hardStopped := true), table, provider, model, prompt, maxTokens)
            == PreflightOf(s.(hardStopped := false), table, provider, model, prompt, maxTokens)
  {
  }
}
