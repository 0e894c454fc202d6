/**
  Model construction in `optimize_plan_notebook` (app/app.py:141-213): initial
  stocks, the ingredient items, and the balance, machine and global time
  constraints added to the `LpProblem`.
*/
module Builder {
  import opened Wrappers
  import opened Catalogue
  import opened Milp
  import Normalize

  const CROP_STOCK: real := 30.0
  const MACHINE_CAP_MIN: real := 1440.0

  // ---------------------------------------------------------------------------
  // Initial stock
  // ---------------------------------------------------------------------------

  /** `re.search(pat, s, re.I)` for a lower-case literal `pat`: `s` holds `pat` in some letter case. */
  predicate ContainsIgnoreCase(s: string, pat: string) {
    exists i :: 0 <= i <= |s| - |pat| && MatchesAt(s, pat, i)
  }

  /** The slice of `s` at `i` is `pat` once lower-cased. */
  predicate MatchesAt(s: string, pat: string, i: int)
    requires 0 <= i <= |s| - |pat|
  {
    Normalize.Lower(s[i..i + |pat|]) == pat
  }

  /** `re.search(r'Field|Tree|Bush', str(source), re.I)`. */
  predicate IsCropSource(source: string) {
    ContainsIgnoreCase(source, "field") || ContainsIgnoreCase(source, "tree") || ContainsIgnoreCase(source, "bush")
  }

  /** `re.I`: whether a source is a crop source does not depend on its letter case. */
  lemma CropSourceIgnoresCase(source: string)
    ensures IsCropSource(Normalize.Lower(source)) <==> IsCropSource(source)
  {
    ContainsIgnoresCase(source, "field");
    ContainsIgnoresCase(source, "tree");
    ContainsIgnoresCase(source, "bush");
  }

  lemma ContainsIgnoresCase(s: string, pat: string)
    ensures ContainsIgnoreCase(Normalize.Lower(s), pat) <==> ContainsIgnoreCase(s, pat)
  {
    var ls := Normalize.Lower(s);
    forall i | 0 <= i <= |s| - |pat| ensures MatchesAt(ls, pat, i) <==> MatchesAt(s, pat, i) {
      var a := s[i..i + |pat|];
      assert ls[i..i + |pat|] == Normalize.Lower(a);
      assert Normalize.Lower(Normalize.Lower(a)) == Normalize.Lower(a);
    }
  }

  /** Sources the pattern accepts and one it does not. */
  lemma CropSourceExamples()
    ensures IsCropSource("Field") && IsCropSource("Fruit Tree") && IsCropSource("BUSH")
    ensures !IsCropSource("Bakery")
  {
    assert MatchesAt("Field", "field", 0);
    assert MatchesAt("Fruit Tree", "tree", 6);
    assert MatchesAt("BUSH", "bush", 0);
    var s := "Bakery";
    forall i | 0 <= i <= |s| - 5 ensures !MatchesAt(s, "field", i) {
      assert Normalize.Lower(s[i..i + 5])[0] != 'f';
    }
    forall i | 0 <= i <= |s| - 4 ensures !MatchesAt(s, "tree", i) && !MatchesAt(s, "bush", i) {
      assert Normalize.Lower(s[i..i + 4])[0] != 't';
      assert i > 0 ==> Normalize.Lower(s[i..i + 4])[0] != 'b';
      assert i == 0 ==> Normalize.Lower(s[i..i + 4])[1] != 'u';
    }
  }

  /** Some unlocked row with key `k` comes from a field, tree or bush. */
  ghost predicate HasCropRow(av: Table, k: string) {
    exists j :: 0 <= j < |av| && av[j].key == k && IsCropSource(av[j].source)
  }

  /** `initial_stock_map.get(k, 0.0)`. */
  function InitialStock(stock: map<string, real>, k: string): real {
    if k in stock then stock[k] else 0.0
  }

  /**
    The loop filling `initial_stock_map`: 30.0 for every key one of whose rows
    comes from a field, tree or bush, and no entry for any other key.
  */
  method InitialStockMap(av: Table) returns (stock: map<string, real>)
    ensures forall k :: k in stock ==> stock[k] == CROP_STOCK
    ensures forall k :: InitialStock(stock, k) == if HasCropRow(av, k) then CROP_STOCK else 0.0
  {
    stock := map[];
    var i := 0;
    while i < |av|
      invariant 0 <= i <= |av|
      invariant forall k :: k in stock ==> stock[k] == CROP_STOCK
      invariant forall k :: k in stock <==> exists j :: 0 <= j < i && av[j].key == k && IsCropSource(av[j].source)
    {
      if IsCropSource(av[i].source) {
        stock := stock[av[i].key := CROP_STOCK];
      }
      i := i + 1;
    }
  }

  // ---------------------------------------------------------------------------
  // Ingredient items
  // ---------------------------------------------------------------------------

  /** The unlocked keys some recipe in `needs` lists as an ingredient. */
  ghost function IngredientKeys(needs: map<string, map<string, real>>, items: set<string>): set<string> {
    set i, k | i in needs && k in needs[i] && k in items :: k
  }

  /** The loops filling `ingredient_items`. */
  method IngredientItems(needs: map<string, map<string, real>>, items: set<string>) returns (ings: set<string>)
    ensures ings == IngredientKeys(needs, items)
    ensures ings <= items
  {
    ings := {};
    var todo := needs.Keys;
    while todo != {}
      invariant todo <= needs.Keys
      invariant ings == IngredientKeys(needs - todo, items)
      decreases todo
    {
      var i :| i in todo;
      var ks := needs[i].Keys;
      ghost var before := ings;
      while ks != {}
        invariant ks <= needs[i].Keys
        invariant ings == before + (needs[i].Keys - ks) * items
        decreases ks
      {
        var k :| k in ks;
        if k in items {
          ings := ings + {k};
        }
        ks := ks - {k};
      }
      IngredientKeysAdd(needs, items, todo, i);
      todo := todo - {i};
    }
    assert needs - {} == needs;
  }

  /** Moving recipe `i` from the pending set to the done part adds its unlocked ingredients. */
  lemma IngredientKeysAdd(needs: map<string, map<string, real>>, items: set<string>, todo: set<string>, i: string)
    requires todo <= needs.Keys && i in todo
    ensures IngredientKeys(needs - (todo - {i}), items) == IngredientKeys(needs - todo, items) + needs[i].Keys * items
  {
    var after := needs - (todo - {i});
    var before := needs - todo;
    forall k | k in IngredientKeys(after, items)
      ensures k in IngredientKeys(before, items) + needs[i].Keys * items
    {
      var j :| j in after && k in after[j] && k in items;
      if j != i {
        assert j in before && before[j] == after[j];
      }
    }
    forall k | k in IngredientKeys(before, items) + needs[i].Keys * items
      ensures k in IngredientKeys(after, items)
    {
      if k in needs[i].Keys * items {
        assert i in after && k in after[i];
      } else {
        var j :| j in before && k in before[j] && k in items;
        assert j in after && after[j] == before[j];
      }
    }
  }

  // ---------------------------------------------------------------------------
  // Constraints
  // ---------------------------------------------------------------------------

  /** `needs.get(k, 0.0)`. */
  function NeedOf(needs: map<string, real>, k: string): real {
    if k in needs then needs[k] else 0.0
  }

  /** `lpSum(needs_map[i].get(k, 0.0) * x[i] for i in items_set)`. */
  function Consume(m: Maps, k: string): (e: LinExpr)
    requires m.Valid()
    ensures e.Keys == m.items
    ensures forall i :: i in e ==> e[i] == NeedOf(m.needs[i], k)
    ensures k !in IngredientKeys(m.needs, m.items) && k in m.items ==> forall i :: i in e ==> e[i] == 0.0
  {
    map i | i in m.items :: NeedOf(m.needs[i], k)
  }

  /** An unlocked good that no recipe lists is consumed by nothing, whatever is produced. */
  lemma UnlistedIsNotConsumed(m: Maps, k: string, a: Assignment)
    requires m.Valid() && k in m.items && k !in IngredientKeys(m.needs, m.items)
    ensures Eval(Consume(m, k), a) == 0.0
  {
    EvalNoCoefficient(Consume(m, k), a);
  }

  /** `yield_map.get(k, 1.0)`. */
  function YieldOf(m: Maps, k: string): real {
    if k in m.yieldQty then m.yieldQty[k] else 1.0
  }

  /**
    The balance constraint for ingredient `k`: `>=` with the stock subtracted
    when `k` is final or stocked, `==` otherwise.
  */
  function BalanceFor(m: Maps, finals: set<string>, stock: map<string, real>, k: string): (c: Constraint)
    requires m.Valid()
    ensures c.BalanceGe? || c.BalanceEq?
    ensures TagOf(c) == BalanceTag(k)
    ensures c.BalanceGe? <==> k in finals || InitialStock(stock, k) > 0.0
    ensures c.yieldQty == YieldOf(m, k) && c.consume == Consume(m, k)
    ensures c.BalanceGe? ==> c.stock == InitialStock(stock, k)
  {
    var s := InitialStock(stock, k);
    if k in finals || s > 0.0 then BalanceGe(k, YieldOf(m, k), Consume(m, k), s)
    else BalanceEq(k, YieldOf(m, k), Consume(m, k))
  }

  /** The items counted against `machine`: those whose first unlocked row is built there. */
  predicate OnMachine(av: Table, i: string, machine: string) {
    FirstWithKey(av, i).Some? && FirstWithKey(av, i).value.building == machine
  }

  /** `lpSum(tmin[i] * x[i] for i in items_set if <first row of i>['Building'] == machine)`. */
  function MachineTime(av: Table, m: Maps, machine: string): (e: LinExpr)
    requires m.Valid()
    ensures forall i :: i in e <==> i in m.items && OnMachine(av, i, machine)
    ensures forall i :: i in e ==> e[i] == m.tmin[i]
  {
    map i | i in m.items && OnMachine(av, i, machine) :: m.tmin[i]
  }

  /**
    Every item is counted against exactly one building: the building of its
    first unlocked row, which is one of the buildings that get a cap.
  */
  lemma ItemOnOneMachine(av: Table, m: Maps, i: string)
    requires m.Valid() && m.items == Keys(av) && i in m.items
    ensures FirstWithKey(av, i).Some?
    ensures var b := FirstWithKey(av, i).value.building;
      && b in Buildings(av) && i in MachineTime(av, m, b)
      && forall other :: i in MachineTime(av, m, other) ==> other == b
  {
    var g := FirstWithKey(av, i).value;
    var j :| 0 <= j < |av| && av[j] == g;
    assert av[j].building in Buildings(av);
  }

  function MachineFor(av: Table, m: Maps, machine: string): Constraint
    requires m.Valid()
  {
    MachineCap(machine, MachineTime(av, m, machine), MACHINE_CAP_MIN)
  }

  /** `lpSum(tmin[i] * x[i] for i in items_set)`. */
  function TotalTime(m: Maps): (e: LinExpr)
    requires m.Valid()
    ensures e.Keys == m.items
    ensures forall i :: i in e ==> e[i] == m.tmin[i]
  {
    map i | i in m.items :: m.tmin[i]
  }

  /** `total_cap_min = max(0.0, T_hours * 60.0)`. */
  function TimeCapacity(tHours: real): (cap: real)
    ensures cap >= 0.0 && cap >= tHours * 60.0
    ensures cap == 0.0 || cap == tHours * 60.0
  {
    if tHours * 60.0 > 0.0 then tHours * 60.0 else 0.0
  }

  function GlobalFor(m: Maps, tHours: real): Constraint
    requires m.Valid()
  {
    GlobalCap(TotalTime(m), TimeCapacity(tHours))
  }

  /** `lpSum(xp[i] * x[i] for i in items_set)`. */
  function Objective(m: Maps): (e: LinExpr)
    requires m.Valid()
    ensures e.Keys == m.items
    ensures forall i :: i in e ==> e[i] == m.xp[i]
  {
    map i | i in m.items :: m.xp[i]
  }

  /** What a constraint is about; the source names each constraint after it. */
  datatype Tag = BalanceTag(item: string) | MachineTag(building: string) | GlobalTag

  function TagOf(c: Constraint): Tag {
    match c
    case BalanceGe(k, _, _, _) => BalanceTag(k)
    case BalanceEq(k, _, _) => BalanceTag(k)
    case MachineCap(b, _, _) => MachineTag(b)
    case GlobalCap(_, _) => GlobalTag
  }

  /** The inputs the builder reads. */
  datatype BuildInput = BuildInput(
    av: Table,
    m: Maps,
    finals: set<string>,
    stock: map<string, real>,
    ingredients: set<string>,
    tHours: real,
    integer: bool)
  {
    predicate Valid() {
      m.Valid() && ingredients <= m.items
    }

    /** The constraint the builder emits for a tag. */
    function Expected(t: Tag): Constraint
      requires Valid()
    {
      match t
      case BalanceTag(k) => BalanceFor(m, finals, stock, k)
      case MachineTag(b) => MachineFor(av, m, b)
      case GlobalTag => GlobalFor(m, tHours)
    }

    /** One balance per ingredient item, one machine cap per building of the unlocked rows, one global cap. */
    function Tags(): set<Tag> {
      (set k | k in ingredients :: BalanceTag(k)) + (set b | b in Buildings(av) :: MachineTag(b)) + {GlobalTag}
    }
  }

  function TagsOf(cs: seq<Constraint>): set<Tag> {
    set j | 0 <= j < |cs| :: TagOf(cs[j])
  }

  predicate DistinctTags(cs: seq<Constraint>) {
    forall i, j :: 0 <= i < j < |cs| ==> TagOf(cs[i]) != TagOf(cs[j])
  }

  /** Every constraint of `cs` is the one the builder emits for its tag. */
  predicate AllExpected(input: BuildInput, cs: seq<Constraint>)
    requires input.Valid()
  {
    forall j :: 0 <= j < |cs| ==> cs[j] == input.Expected(TagOf(cs[j]))
  }

  /** Appending a constraint with a fresh tag keeps the tags distinct and adds that tag. */
  lemma Append(input: BuildInput, cs: seq<Constraint>, c: Constraint)
    requires input.Valid() && AllExpected(input, cs) && DistinctTags(cs)
    requires c == input.Expected(TagOf(c)) && TagOf(c) !in TagsOf(cs)
    ensures AllExpected(input, cs + [c]) && DistinctTags(cs + [c])
    ensures TagsOf(cs + [c]) == TagsOf(cs) + {TagOf(c)}
  {
    var cs' := cs + [c];
    assert cs'[|cs|] == c;
    assert forall j :: 0 <= j < |cs| ==> cs'[j] == cs[j];
  }

  /** Joining two runs of constraints whose tags are disjoint. */
  lemma Concat(input: BuildInput, xs: seq<Constraint>, ys: seq<Constraint>)
    requires input.Valid() && AllExpected(input, xs) && DistinctTags(xs) && AllExpected(input, ys) && DistinctTags(ys)
    requires TagsOf(xs) !! TagsOf(ys)
    ensures AllExpected(input, xs + ys) && DistinctTags(xs + ys)
    ensures TagsOf(xs + ys) == TagsOf(xs) + TagsOf(ys)
  {
    var zs := xs + ys;
    assert forall j :: 0 <= j < |xs| ==> zs[j] == xs[j];
    assert forall j :: |xs| <= j < |zs| ==> zs[j] == ys[j - |xs|];
    forall i, j | 0 <= i < j < |zs| ensures TagOf(zs[i]) != TagOf(zs[j]) {
      if i < |xs| && |xs| <= j {
        assert TagOf(zs[i]) in TagsOf(xs);
        assert TagOf(zs[j]) in TagsOf(ys);
      }
    }
    forall t | t in TagsOf(xs) + TagsOf(ys) ensures t in TagsOf(zs) {
      if t in TagsOf(xs) {
        var j :| 0 <= j < |xs| && TagOf(xs[j]) == t;
        assert zs[j] == xs[j];
      } else {
        var j :| 0 <= j < |ys| && TagOf(ys[j]) == t;
        assert zs[|xs| + j] == ys[j];
      }
    }
  }

  /**
    `p` is the problem the builder makes from `input`: one variable per unlocked
    item, the XP objective, and exactly one constraint for each tag of the
    input, each the expected one.
  */
  ghost predicate BuiltFrom(p: Problem, input: BuildInput)
    requires input.Valid()
  {
    && p.vars == input.m.items
    && p.integer == input.integer
    && p.objective == Objective(input.m)
    && AllExpected(input, p.constraints)
    && TagsOf(p.constraints) == input.Tags()
    && DistinctTags(p.constraints)
  }

  /** The loop over `ingredient_items`: one balance constraint each. */
  method BalanceConstraints(input: BuildInput) returns (cs: seq<Constraint>)
    requires input.Valid()
    ensures AllExpected(input, cs) && DistinctTags(cs)
    ensures TagsOf(cs) == set k | k in input.ingredients :: BalanceTag(k)
  {
    cs := [];
    var todo := input.ingredients;
    while todo != {}
      invariant todo <= input.ingredients
      invariant AllExpected(input, cs) && DistinctTags(cs)
      invariant TagsOf(cs) == set k | k in input.ingredients - todo :: BalanceTag(k)
      decreases todo
    {
      var k :| k in todo;
      var c := BalanceFor(input.m, input.finals, input.stock, k);
      Append(input, cs, c);
      cs := cs + [c];
      todo := todo - {k};
    }
  }

  /** The loop over the buildings of the unlocked rows: one time cap each. */
  method MachineConstraints(input: BuildInput) returns (cs: seq<Constraint>)
    requires input.Valid()
    ensures AllExpected(input, cs) && DistinctTags(cs)
    ensures TagsOf(cs) == set b | b in Buildings(input.av) :: MachineTag(b)
  {
    cs := [];
    var buildings := set i | 0 <= i < |input.av| :: input.av[i].building;
    var rest := buildings;
    while rest != {}
      invariant rest <= buildings
      invariant AllExpected(input, cs) && DistinctTags(cs)
      invariant TagsOf(cs) == set b | b in buildings - rest :: MachineTag(b)
      decreases rest
    {
      var machine :| machine in rest;
      var c := MachineFor(input.av, input.m, machine);
      Append(input, cs, c);
      cs := cs + [c];
      rest := rest - {machine};
    }
  }

  /** The `model += ...` statements of app/app.py:179-213, in their order. */
  method BuildProblem(input: BuildInput) returns (p: Problem)
    requires input.Valid()
    ensures BuiltFrom(p, input)
  {
    var balances := BalanceConstraints(input);
    var machines := MachineConstraints(input);
    Concat(input, balances, machines);
    var c := GlobalFor(input.m, input.tHours);
    Append(input, balances + machines, c);
    p := Problem(input.m.items, input.integer, Objective(input.m), balances + machines + [c]);
  }

  /** The constraint expected for any tag is met when every variable is 0. */
  lemma ZeroMeets(input: BuildInput, t: Tag, a: Assignment)
    requires input.Valid()
    requires forall k :: k in input.stock ==> input.stock[k] >= 0.0
    requires forall v :: Val(a, v) == 0.0
    ensures Holds(a, input.Expected(t))
  {
    match t
    case BalanceTag(k) =>
      EvalZero(Consume(input.m, k), a);
      assert InitialStock(input.stock, k) >= 0.0;
      assert YieldOf(input.m, k) * Val(a, k) == 0.0;
    case MachineTag(b) =>
      EvalZero(MachineTime(input.av, input.m, b), a);
    case GlobalTag =>
      EvalZero(TotalTime(input.m), a);
  }

  /** Every constraint the builder emits is met by producing nothing. */
  lemma ZeroSatisfies(p: Problem, input: BuildInput)
    requires input.Valid() && BuiltFrom(p, input)
    requires forall k :: k in input.stock ==> input.stock[k] >= 0.0
    ensures Satisfies(Zero(p.vars), p)
  {
    var a := Zero(p.vars);
    forall j | 0 <= j < |p.constraints| ensures Holds(a, p.constraints[j]) {
      ZeroMeets(input, TagOf(p.constraints[j]), a);
    }
  }

  // ---------------------------------------------------------------------------
  // The `ield_map` line as written
  // ---------------------------------------------------------------------------

  datatype BuildError = NameError(name: string)

  /**
    app/app.py:193-198 as written: the `==` branch evaluates `ield_map`, a name
    that is never bound, so it raises instead of making a constraint.
  */
  function BalanceAsWritten(m: Maps, finals: set<string>, stock: map<string, real>, k: string): (r: Result<Constraint, BuildError>)
    requires m.Valid()
    ensures r.Failure? <==> k !in finals && InitialStock(stock, k) <= 0.0
    ensures r.Failure? ==> r.error == NameError("ield_map")
    ensures r.Success? ==> r.value.BalanceGe? && TagOf(r.value) == BalanceTag(k)
  {
    var s := InitialStock(stock, k);
    if k in finals || s > 0.0 then Success(BalanceGe(k, YieldOf(m, k), Consume(m, k), s))
    else Failure(NameError("ield_map"))
  }

  /**
    As written, every ingredient that is neither final nor stocked aborts the
    build, where the intended code makes its `==` balance; elsewhere the two agree.
  */
  lemma AsWrittenFailsOnPureIntermediate(m: Maps, finals: set<string>, stock: map<string, real>, k: string)
    requires m.Valid()
    ensures BalanceAsWritten(m, finals, stock, k).Failure? <==> BalanceFor(m, finals, stock, k).BalanceEq?
    ensures BalanceAsWritten(m, finals, stock, k).Success? ==>
      BalanceAsWritten(m, finals, stock, k).value == BalanceFor(m, finals, stock, k)
  {
  }
}
