/**
  `optimize_plan_notebook` end to end (app/app.py:134-281): the unlock filter,
  the per-key dictionaries, the stocks, the finals, the MILP and the
  extraction. The solve itself (`model.solve`) is not modelled: its status and
  variable values come in as parameters, as does the order in which
  `items_set` is visited.
*/
module Pipeline {
  import opened Wrappers
  import opened Catalogue
  import opened Milp
  import opened Recipes
  import opened Builder
  import opened Extraction

  /** Everything one run produces: the builder's inputs, the problem, and the returned dictionary. */
  datatype Outcome = Outcome(input: BuildInput, problem: Problem, result: RunResult)

  /** `finals_raw`: the normalised names of the unlocked goods no unlocked good consumes. */
  ghost function RawFinals(df: Table, av: Table): set<string> {
    NormAll(FinalNames(df, av))
  }

  /** Every key of the unlocked rows is a key of the full table. */
  lemma UnlockedKeys(df: Table, level: int)
    ensures Keys(Unlocked(df, level)) <= Keys(df)
  {
    var av := Unlocked(df, level);
    forall k | k in Keys(av) ensures k in Keys(df) {
      var i :| 0 <= i < |av| && av[i].key == k;
      assert av[i] in df;
    }
  }

  /**
    One run of `optimize_plan_notebook(df, level, T_hours, integer_solution)`
    with `df` also standing for the global table `finals_in_unlocked` reads.
    It fails when a final's recipe tree is cyclic; otherwise the builder's
    inputs are the ones the source computes, the problem is built from them,
    and the result is extracted from the solver's `status` and `values`.
  */
  method OptimizePlan(df: Table, level: int, tHours: real, integer: bool,
                      status: Status, values: map<string, real>, order: seq<string>)
      returns (r: Result<Outcome, RecipeError>)
    requires Enumerates(order, Keys(Unlocked(df, level)))
    ensures var av := Unlocked(df, level);
      var m := MapsOf(av);
      r.Failure? <==> Finals(m.needs, m.items, RawFinals(df, av)).Failure?
    ensures r.Success? ==>
      var av := Unlocked(df, level);
      var m := MapsOf(av);
      var input := r.value.input;
      && input.av == av && input.m == m
      && Finals(m.needs, m.items, RawFinals(df, av)) == Success(input.finals)
      && (forall k :: InitialStock(input.stock, k) == if HasCropRow(av, k) then CROP_STOCK else 0.0)
      && input.ingredients == IngredientKeys(m.needs, m.items)
      && input.tHours == tHours && input.integer == integer
      && input.Valid() && BuiltFrom(r.value.problem, input)
      && m.items <= Keys(df)
      && Extracted(Inputs(df, m, input.finals, tHours, integer), status, values, order, r.value.result)
  {
    var av := Unlocked(df, level);
    var m := MapsOf(av);
    var stock := InitialStockMap(av);
    var finalsAll := FinalsInUnlocked(df, av);
    var finalsRaw := NormAll(finalsAll);
    var finals := Finals(m.needs, m.items, finalsRaw);
    if finals.Failure? {
      return Failure(finals.error);
    }
    var ings := IngredientItems(m.needs, m.items);
    var input := BuildInput(av, m, finals.value, stock, ings, tHours, integer);
    var problem := BuildProblem(input);
    UnlockedKeys(df, level);
    var result := Extract(Inputs(df, m, finals.value, tHours, integer), status, values, order);
    r := Success(Outcome(input, problem, result));
  }

  // ---------------------------------------------------------------------------
  // Properties of a run
  // ---------------------------------------------------------------------------

  /**
    With one-to-one names and keys, no ingredient item is a final (nor any
    other raw final, of which the finals are a subset: `Recipes.Finals`): a raw
    final is consumed by no unlocked good, an ingredient item by at least one.
  */
  lemma IngredientsAreNotFinal(df: Table, level: int, finals: set<string>, k: string)
    requires WellFormed(df)
    requires finals <= RawFinals(df, Unlocked(df, level))
    requires var m := MapsOf(Unlocked(df, level));
      k in IngredientKeys(m.needs, m.items)
    ensures k !in finals
  {
    var av := Unlocked(df, level);
    var j := ConsumingRow(av, k);
    ConsumedIsNotRaw(df, av, j, k);
  }

  /** So the balance of an ingredient item is `>=` exactly when it has stock, `==` otherwise. */
  lemma IngredientBalanceFollowsStock(df: Table, level: int, finals: set<string>, stock: map<string, real>, k: string)
    requires WellFormed(df)
    requires finals <= RawFinals(df, Unlocked(df, level))
    requires var m := MapsOf(Unlocked(df, level));
      k in IngredientKeys(m.needs, m.items)
    ensures BalanceFor(MapsOf(Unlocked(df, level)), finals, stock, k).BalanceGe? <==> InitialStock(stock, k) > 0.0
  {
    IngredientsAreNotFinal(df, level, finals, k);
  }

  /** An ingredient item is listed in the recipe of some unlocked row. */
  lemma ConsumingRow(av: Table, k: string) returns (j: nat)
    requires k in IngredientKeys(MapsOf(av).needs, MapsOf(av).items)
    ensures j < |av| && k in av[j].needs
  {
    var m := MapsOf(av);
    var i :| i in m.needs && k in m.needs[i] && k in m.items;
    j :| 0 <= j < |av| && av[j].key == i && RowAgrees(m, i, av[j]);
  }

  /** A key some unlocked row consumes is not among the raw finals. */
  lemma ConsumedIsNotRaw(df: Table, av: Table, j: nat, k: string)
    requires WellFormed(df) && (forall g :: g in av ==> g in df)
    requires j < |av| && k in av[j].needs
    ensures k !in RawFinals(df, av)
  {
    FinalsRawAreUnconsumed(df, av);
  }

  /**
    As written, a run over a well-formed table aborts with `NameError` as soon
    as some unlocked ingredient has no field, tree or bush source: its balance
    takes the `ield_map` branch.
  */
  lemma AsWrittenAbortsOnProcessedIngredient(df: Table, level: int, finals: set<string>, k: string, stock: map<string, real>)
    requires WellFormed(df)
    requires finals <= RawFinals(df, Unlocked(df, level))
    requires var m := MapsOf(Unlocked(df, level));
      k in IngredientKeys(m.needs, m.items)
    requires InitialStock(stock, k) == 0.0
    ensures BalanceAsWritten(MapsOf(Unlocked(df, level)), finals, stock, k) == Failure(NameError("ield_map"))
  {
    IngredientsAreNotFinal(df, level, finals, k);
  }

  /** A whole number above the tolerance is at least 1, and rounds to itself. */
  lemma WholeQuantity(v: real)
    requires v >= 0.0 && IsWhole(v)
    ensures Quantity(v, true) == v
    ensures Quantity(v, true) > TOLERANCE <==> v != 0.0
  {
    assert RoundHalfEven(v) == v.Floor;
  }

  /** What each item adds to the XP total: its row's total when it gets a row, else nothing. */
  ghost function XpAdded(run: Inputs, values: map<string, real>): (c: map<string, real>)
    requires run.Valid()
    ensures forall k :: k in run.m.items ==> k in c
  {
    map k | k in run.m.items ::
      if Chosen(values, run.integer, k) then RowFor(run, k, Quantity(values[k], run.integer)).xpTotal else 0.0
  }

  /** What each item adds to the time total. */
  ghost function TimeAdded(run: Inputs, values: map<string, real>): (c: map<string, real>)
    requires run.Valid()
    ensures forall k :: k in run.m.items ==> k in c
  {
    map k | k in run.m.items ::
      if Chosen(values, run.integer, k) then RowFor(run, k, Quantity(values[k], run.integer)).timeTotal else 0.0
  }

  /** The amounts `c` of the items of `order`, added up in visiting order. */
  function Total(c: map<string, real>, order: seq<string>): real
    requires forall j :: 0 <= j < |order| ==> order[j] in c
  {
    if order == [] then 0.0 else Total(c, order[..|order| - 1]) + c[order[|order| - 1]]
  }

  /** Visiting one more item adds what it adds to the rows' totals. */
  lemma RowsStep(run: Inputs, values: map<string, real>, order: seq<string>)
    requires run.Valid() && forall j :: 0 <= j < |order| ==> order[j] in run.m.items
    requires order != []
    ensures SumXp(RowsOf(run, values, order)) ==
      SumXp(RowsOf(run, values, order[..|order| - 1])) + XpAdded(run, values)[order[|order| - 1]]
    ensures SumTime(RowsOf(run, values, order)) ==
      SumTime(RowsOf(run, values, order[..|order| - 1])) + TimeAdded(run, values)[order[|order| - 1]]
  {
    var k := order[|order| - 1];
    var before := RowsOf(run, values, order[..|order| - 1]);
    if Chosen(values, run.integer, k) {
      var e := RowFor(run, k, Quantity(values[k], run.integer));
      assert RowsOf(run, values, order) == before + [e];
      SumsSnoc(before, e);
    } else {
      assert RowsOf(run, values, order) == before;
    }
  }

  /** The rows' running totals are what the visited items add. */
  lemma {:induction false} RowsAddUp(run: Inputs, values: map<string, real>, order: seq<string>)
    requires run.Valid() && forall j :: 0 <= j < |order| ==> order[j] in run.m.items
    ensures SumXp(RowsOf(run, values, order)) == Total(XpAdded(run, values), order)
    ensures SumTime(RowsOf(run, values, order)) == Total(TimeAdded(run, values), order)
    decreases |order|
  {
    if order != [] {
      RowsStep(run, values, order);
      var init := order[..|order| - 1];
      assert forall j :: 0 <= j < |init| ==> init[j] in run.m.items by {
        assert forall j :: 0 <= j < |init| ==> init[j] == order[j];
      }
      RowsAddUp(run, values, init);
    }
  }

  /** Amounts that are the terms of `e` add up to the ordered sum of `e`. */
  lemma {:induction false} TotalIsSeqSum(c: map<string, real>, e: LinExpr, a: Assignment, order: seq<string>)
    requires forall j :: 0 <= j < |order| ==> order[j] in c && order[j] in e && c[order[j]] == Term(e, a, order[j])
    ensures Total(c, order) == SeqSum(e, a, order)
    decreases |order|
  {
    if order != [] {
      var init := order[..|order| - 1];
      assert forall j :: 0 <= j < |init| ==> init[j] == order[j];
      TotalIsSeqSum(c, e, a, init);
    }
  }

  /** In integer mode what an item with an admissible value adds is its objective and time terms. */
  lemma AddedIsTerm(run: Inputs, values: map<string, real>, k: string)
    requires run.Valid() && run.integer && k in run.m.items
    requires k in values && values[k] >= 0.0 && IsWhole(values[k])
    ensures XpAdded(run, values)[k] == Term(Objective(run.m), values, k)
    ensures TimeAdded(run, values)[k] == Term(TotalTime(run.m), values, k)
  {
    var v := values[k];
    var ex, et := Objective(run.m), TotalTime(run.m);
    WholeQuantity(v);
    assert Val(values, k) == v;
    if Chosen(values, true, k) {
      var e := RowFor(run, k, v);
      assert XpAdded(run, values)[k] == e.xpTotal && TimeAdded(run, values)[k] == e.timeTotal;
      SameProduct(e.xpEach, e.qty, ex[k], Val(values, k));
      SameProduct(e.timeEach, e.qty, et[k], Val(values, k));
      assert e.xpTotal == Term(ex, values, k);
      assert e.timeTotal == Term(et, values, k);
    } else {
      SameProduct(ex[k], Val(values, k), ex[k], 0.0);
      SameProduct(et[k], Val(values, k), et[k], 0.0);
      assert Term(ex, values, k) == 0.0;
      assert Term(et, values, k) == 0.0;
    }
  }

  /** Equal factors give equal products. */
  lemma SameProduct(a: real, b: real, c: real, d: real)
    requires a == c && b == d
    ensures a * b == c * d
  {
  }

  /** In integer mode the rows' totals are the objective and the global time usage of the values. */
  lemma IntegerTotals(run: Inputs, values: map<string, real>, order: seq<string>)
    requires run.Valid() && run.integer && Enumerates(order, run.m.items)
    requires forall k :: k in run.m.items ==> k in values && values[k] >= 0.0 && IsWhole(values[k])
    ensures SumXp(RowsOf(run, values, order)) == Eval(Objective(run.m), values)
    ensures SumTime(RowsOf(run, values, order)) == Eval(TotalTime(run.m), values)
  {
    RowsAddUp(run, values, order);
    forall k | k in run.m.items
      ensures XpAdded(run, values)[k] == Term(Objective(run.m), values, k)
      ensures TimeAdded(run, values)[k] == Term(TotalTime(run.m), values, k)
    {
      AddedIsTerm(run, values, k);
    }
    TotalIsSeqSum(XpAdded(run, values), Objective(run.m), values, order);
    TotalIsSeqSum(TimeAdded(run, values), TotalTime(run.m), values, order);
    SeqSumIsEval(Objective(run.m), values, order);
    SeqSumIsEval(TotalTime(run.m), values, order);
  }

  /**
    For an integer run whose solver values satisfy the problem, the reported
    XP is the objective's value, the reported time is the global time usage,
    and it is within the reported capacity.
  */
  lemma ReportedTotalsMatchSolution(df: Table, values: map<string, real>, order: seq<string>, o: Outcome)
    requires o.input.Valid() && o.input.integer && BuiltFrom(o.problem, o.input)
    requires Satisfies(values, o.problem)
    requires o.input.m.items <= Keys(df) && Enumerates(order, o.input.m.items)
    requires Extracted(Inputs(df, o.input.m, o.input.finals, o.input.tHours, true), Optimal, values, order, o.result)
    ensures o.result.xpTotal == Eval(o.problem.objective, values)
    ensures o.result.timeUsed == Eval(TotalTime(o.input.m), values)
    ensures o.result.timeUsed <= o.result.timeCapacity
  {
    var run := Inputs(df, o.input.m, o.input.finals, o.input.tHours, true);
    IntegerTotals(run, values, order);
    SolutionMeetsEveryCap(o.input, o.problem, values);
  }

  /** A solution of the problem meets every balance, machine cap and the global cap the builder meant. */
  lemma SolutionMeetsEveryCap(input: BuildInput, p: Problem, a: Assignment)
    requires input.Valid() && BuiltFrom(p, input) && Satisfies(a, p)
    ensures forall b :: b in Buildings(input.av) ==> Eval(MachineTime(input.av, input.m, b), a) <= MACHINE_CAP_MIN
    ensures Eval(TotalTime(input.m), a) <= TimeCapacity(input.tHours)
    ensures forall k :: k in input.ingredients ==> Holds(a, BalanceFor(input.m, input.finals, input.stock, k))
  {
    forall b | b in Buildings(input.av) ensures Eval(MachineTime(input.av, input.m, b), a) <= MACHINE_CAP_MIN {
      assert MachineTag(b) in input.Tags();
      var j :| 0 <= j < |p.constraints| && TagOf(p.constraints[j]) == MachineTag(b);
      assert Holds(a, p.constraints[j]);
    }
    assert GlobalTag in input.Tags();
    var g :| 0 <= g < |p.constraints| && TagOf(p.constraints[g]) == GlobalTag;
    assert Holds(a, p.constraints[g]);
    forall k | k in input.ingredients ensures Holds(a, BalanceFor(input.m, input.finals, input.stock, k)) {
      assert BalanceTag(k) in input.Tags();
      var j :| 0 <= j < |p.constraints| && TagOf(p.constraints[j]) == BalanceTag(k);
      assert Holds(a, p.constraints[j]);
    }
  }
}
