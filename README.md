# Hay Day XP optimiser: a Dafny model

This project models the planning core of the Hay Day XP optimiser (`app/app.py`).
Given the cleaned goods table, a player level, a time horizon in hours and an
integer/continuous switch, `optimize_plan_notebook` does the following:

- it keeps the goods unlocked at that level;
- it builds the per-good dictionaries (XP, minutes per batch, recipe, yield,
  building, production type) and the initial stock (30 units of every field,
  tree or bush good);
- it finds the final goods, meaning those no unlocked recipe consumes and
  whose whole ingredient tree is unlocked;
- it builds a mixed-integer linear program:
  - maximise the total XP;
  - an ingredient balance for every consumed good;
  - a 1440-minute cap per building;
  - a global time cap;
- it reads the solver's answer back into a plan:
  - in integer mode it rounds each value to a quantity; in either mode it drops
    quantities at or below `1e-6`;
  - it adds up the XP and time totals;
  - it keeps only the Machine/Processed rows;
  - it sorts them finals first, then by XP per batch descending, then by time per batch ascending.

Modules, one per stage:

- `Wrappers`: `Option` and `Result`.
- `Normalize`: `norm`, its stages, and the shape of a normalised key.
- `Catalogue`: a table row, the unlock filter, the dictionaries keyed by
  normalised name, and the "first row with this key" lookup.
- `Recipes`:
  - `finals_in_unlocked`, written as a loop, with the set it computes;
  - `closure_ok`, with the reachability property it decides;
  - the filtered finals.
- `Milp`: linear expressions, the four kinds of constraint, and what it means
  for an assignment to satisfy a problem.
- `Builder`: the stock loop, the ingredient loop, and the loops that add
  constraints. `BuildProblem` emits exactly one constraint per expected tag,
  each equal to the intended one.
- `Extraction`:
  - the non-optimal fallback result;
  - the row loop with its running totals;
  - the Machine/Processed filter and the three-key sort.
- `Pipeline`:
  - the whole run;
  - lemmas that relate the stages: ingredients are never finals, and an
    ingredient's balance is `>=` exactly when it is stocked;
  - for an integer run, the reported totals equal the solution's objective
    and time usage, and the time used is within the capacity.

The solver call, the order in which Python visits a set, and the values the
solver assigns are parameters. `OptimizePlan` takes `status`, `values` and
`order` (where `order` lists `items_set` once each). The properties hold for
every choice of them.

Behaviour of the code worth knowing:

- In integer mode the code rounds each value first and then compares the
  rounded quantity with the tolerance. So 0.4 is dropped and 0.6 becomes 1.
  `Extraction.Quantity` and `Extraction.Chosen` say so.
- `XP_per_hour` is NaN when the horizon is not positive, and it is 0.0 in the
  non-optimal result.
- In the non-optimal result the time capacity is `T_hours * 60.0` without the
  clamp at zero.
- A run that makes no row at all (`rows == []`) does not return an empty plan.
  It raises `KeyError` (see Findings). When rows were made but none of them is
  Machine/Processed, the filtered plan is empty and is returned.
- A pure intermediate ingredient is one that is neither final nor stocked.
  Such a balance does not build (see Findings).
- The model reports a reachable cycle as an error (`CyclicRecipe`) instead of
  recursing without end.

## Model

| member | source | states |
|---|---|---|
| Normalize.NormText | app/app.py:90-95 | `norm` of any text is normalised: it has no en or em dash, no upper-case ASCII letter, no white space other than single inner `' '`, and no space at either end |
| Normalize.NormFixes | app/app.py:90-95 | `norm` leaves an already normalised key unchanged |
| Normalize.NormIdempotent | app/app.py:90-95 | `norm(norm(s)) == norm(s)` |
| Normalize.Norm | app/app.py:90-95 | a missing cell (`pd.isna`) normalises to the empty string, and every result is a normalised key, which `NormFixes` shows `norm` leaves unchanged |
| Normalize.CollapseSpace | app/app.py:94 | `re.sub(r"\s+", " ", s)`: the result is no longer than `s`; it starts with a space exactly where `s` starts with white space; its only white space is `' '`; every other character comes from `s`; and no two spaces are adjacent |
| Normalize.CollapseKeepsText | app/app.py:94 | collapsing white space keeps every character other than white space, in order: dropping the white space of the result and of `s` gives the same text |
| Normalize.CollapseRun | app/app.py:94 | a non-empty run of white space in front of text that does not start with white space becomes one `' '` |
| Normalize.CollapseAppend | app/app.py:94 | no run of white space crosses the end of a text that ends in another character: collapsing `x + z` is collapsing `x` and `z` apart |
| Normalize.CollapseRunBetween | app/app.py:94 | a run of white space between two other characters becomes exactly one `' '`, and the text on either side collapses on its own (so `"a\tb"` becomes `"a b"`) |
| Normalize.TrimStartSpec | app/app.py:94 | the left half of `.strip()`: it returns a suffix that does not start with white space, and everything it drops is white space |
| Normalize.TrimEndSpec | app/app.py:94 | the right half of `.strip()`: it returns a prefix that does not end with white space, and everything it drops is white space |
| Normalize.StripSpec | app/app.py:94 | `.strip()` returns a slice of its input with no white space at either end, and everything outside the slice is white space |
| Normalize.CollapseFixes | app/app.py:94 | collapsing white space changes nothing in a text whose only spaces are single `' '` |
| Catalogue.Unlocked | app/app.py:141 | a row is unlocked exactly when it is in the table and its level is at most the player's |
| Catalogue.UnlockedKeepsOrder | app/app.py:141 | the mask keeps table order and duplicates: filtering a concatenation concatenates the filtered parts, and a single row is kept exactly when its level is at most the player's |
| Catalogue.ByKey | app/app.py:146-151 | a comprehension keyed by `name_norm` has exactly the table's keys, and each maps to a row with that key |
| Catalogue.ByKeyLastWins | app/app.py:146-151 | the row a comprehension keeps for a key is the last row of the table with that key |
| Catalogue.MapsOf | app/app.py:145-151 | `items_set` is the set of unlocked keys; `xp`, `tmin`, `needs_map`, `yield_map`, `machine_map` and `type_map` are all keyed by it; for each key, all six take the fields of one unlocked row with that key |
| Catalogue.MapsOfLastRow | app/app.py:146-151 | for each key, all six dictionaries take the fields of the last unlocked row with that key, as a dict comprehension keeps it |
| Catalogue.FirstWithKey | app/app.py:208 | `.iloc[0]` of the rows with key `k` exists exactly when some row has key `k`, and it is a row with key `k` |
| Catalogue.FirstWithKeyIsFirst | app/app.py:208 | the row `.iloc[0]` returns is the first row of the table with key `k`: no earlier row has that key |
| Catalogue.FirstNameOfKey | app/app.py:242 | with one-to-one names and keys, the first row with a row's key carries that row's display name |
| Recipes.FinalsInUnlocked | app/app.py:97-108 | the loop returns the unlocked names minus every name that an ingredient key of an unlocked row resolves to through the global table, and only unlocked names |
| Recipes.UsedByMember | app/app.py:99-107 | a name is in `used` after `n` rows exactly when one of those rows has an ingredient key whose first catalogue row bears that unlocked name |
| Recipes.FinalsRawAreUnconsumed | app/app.py:169-170 | with one-to-one names and keys, `finals_raw` is exactly the set of unlocked keys that no unlocked row lists as an ingredient |
| Recipes.ClosureOk | app/app.py:162-167 | a good without a recipe passes, and a good with an ingredient outside `items_set` does not |
| Recipes.VisitMeaning | app/app.py:163-167 | a check that meets no cycle answers whether every good reachable through recipes is unlocked |
| Recipes.ClosureCyclicIff | app/app.py:163-167 | the check reports a cycle exactly when some chain of recipe edges from `u` returns to a good it has already passed |
| Recipes.ClosureMeaning | app/app.py:163-167 | when no cycle is reachable, `closure_ok(u)` is true exactly when every good reachable from `u` through recipes is unlocked; in particular a good without ingredients passes |
| Recipes.Finals | app/app.py:171 | the finals are a subset of `finals_raw` |
| Recipes.FinalsMeaning | app/app.py:171 | the filter fails exactly when some raw final reaches a cycle; otherwise a good is final exactly when it is a raw final whose whole ingredient tree is unlocked |
| Recipes.MissingIngredientExcluded | app/app.py:163-171 | a raw final that requires a locked good at any depth is not a final |
| Milp.SeqSumIsEval | app/app.py:186 | `lpSum` over the items in any visiting order, each once, is the value of the linear expression |
| Milp.EvalZero | app/app.py:186 | a linear expression evaluates to 0 when all its variables are 0 |
| Builder.InitialStockMap | app/app.py:154-159 | every stock entry is 30.0, and a key has stock 30.0 exactly when one of its unlocked rows has a source matching Field, Tree or Bush in any letter case (otherwise 0.0) |
| Builder.IngredientItems | app/app.py:173-176 | `ingredient_items` is exactly the set of unlocked keys listed in some recipe of `needs_map`, and it is a subset of `items_set` |
| Builder.CropSourceIgnoresCase | app/app.py:156-159 | the Field/Tree/Bush test ignores letter case |
| Builder.CropSourceExamples | app/app.py:156-159 | `Field`, `Fruit Tree` and `BUSH` match the crop pattern and `Bakery` does not |
| Builder.TimeCapacity | app/app.py:142 | `total_cap_min` is `T_hours * 60` when that is positive and 0 otherwise |
| Builder.UnlistedIsNotConsumed | app/app.py:190 | `consume` (`Consume`) of an unlocked good that no recipe lists is 0 whatever is produced |
| Builder.BalanceConstraints | app/app.py:189-198 | the loop adds one balance per ingredient item and no other tag; each is `>=` with the stock subtracted when the item is final or stocked, and `==` otherwise, with yield default 1.0 |
| Builder.MachineConstraints | app/app.py:201-210 | one capacity constraint per building of the unlocked rows: the minutes of the items whose first unlocked row is in that building, at most 1440 |
| Builder.ItemOnOneMachine | app/app.py:204-210 | every item is counted in exactly one machine's time (`MachineTime`): that of the building of its first unlocked row, which is an active building |
| Builder.BuildProblem | app/app.py:179-213 | the problem has one variable per item (integer in integer mode), the XP objective, and exactly the balances, the machine caps and the global cap, each added once |
| Builder.ZeroMeets | app/app.py:188-213 | the all-zero production meets each constraint the builder emits (each `BalanceFor` balance, each machine cap and the global cap), given non-negative stocks |
| Builder.ZeroSatisfies | app/app.py:183-213 | the all-zero production is a feasible solution of the built problem |
| Builder.AsWrittenFailsOnPureIntermediate | app/app.py:193-198 | as written (`BalanceAsWritten`), a balance fails with `NameError` exactly where the intended balance (`BalanceFor`) is `==`; everywhere else the two are the same constraint |
| Extraction.RoundHalfEven | app/app.py:239 | `round` returns a whole number within one half of its argument, and the even one on a tie |
| Extraction.Quantity | app/app.py:239-240 | in integer mode the quantity is `round(v)`, half-even, and it passes the tolerance exactly when it is at least 1; in continuous mode it is the value itself |
| Extraction.Chosen | app/app.py:237-240 | an item gets a row exactly when it has a value and, in integer mode, that value is above one half (so `round` gives at least 1), or, in continuous mode, it is above `1e-6` |
| Extraction.RowsOf | app/app.py:233-256 | the loop makes at most one row per visited item |
| Extraction.RowsOfMembers | app/app.py:235-253 | the rows are exactly the rows of the items that got a value and whose quantity passes the tolerance |
| Extraction.RowQuantities | app/app.py:239-240 | every row's quantity (`RowFor`) is above `1e-6`; in integer mode it is a whole number and at least 1 |
| Extraction.CollectRows | app/app.py:233-255 | `rows`, `total_xp` and `total_time_used` are the rows made in visiting order and their XP and time totals |
| Extraction.KeepMachine | app/app.py:264-266 | the filter keeps exactly the rows whose type is Machine/Processed; it is a sub-multiset of the rows |
| Extraction.KeepMachineCounts | app/app.py:264-266 | the filter keeps every copy of a kept row and no copy of any other: the count of each row in the result is its count in the input, or 0 |
| Extraction.MachineOnly | app/app.py:259-266 | the Machine/Processed filter over the production-type column (`TypeColumn`) keeps exactly the rows whose normalised display name has that production type, each as many times as it occurs, and no other row |
| Extraction.MachineFilterByKey | app/app.py:259-266 | with one-to-one names and keys, an item's row survives the filter exactly when its own production type is Machine/Processed |
| Extraction.Insert | app/app.py:268-271 | inserting into a sorted plan keeps it sorted and adds exactly that row |
| Extraction.SortPlan | app/app.py:268-271 | the sort returns a permutation of the rows in which finals come first, then higher `xp_each`, then lower `time_min_each` |
| Extraction.PlanFrame | app/app.py:257-271 | the plan is sorted and is a permutation of exactly the Machine/Processed rows |
| Extraction.NoneChosenNoRows | app/app.py:235-240 | when no item passes the tolerance, no row is made |
| Extraction.ZeroSolutionHasNoRows | app/app.py:233-262 | an optimal all-zero solution makes no row, so the code as written (`PlanFrameAsWritten`, which raises exactly when no row was made) raises on it |
| Extraction.FallbackVersusOptimal | app/app.py:220-230 | the non-optimal result (`FallbackResult`) reports the clamped capacity only when `T_hours >= 0`, and its 0.0 XP per hour agrees with the optimal path's only when `T_hours > 0` |
| Extraction.PerHour | app/app.py:277 | XP per hour is defined exactly when `T_hours > 0`, and then it times `T_hours` is the total XP |
| Extraction.Extract | app/app.py:219-281 | the result is the fallback for a non-optimal status; otherwise it holds the totals of the rows, the XP per hour, the clamped capacity and the filtered, sorted plan |
| Pipeline.OptimizePlan | app/app.py:134-281 | with lines 198 and 257-262 corrected, a run fails exactly when a raw final reaches a recipe cycle; otherwise it builds from the unlocked rows, their dictionaries, the stocks, the finals and the ingredient items the source computes, and its problem and result are the ones specified for them |
| Pipeline.UnlockedKeys | app/app.py:141-145 | every unlocked key is a key of the full table, so each item has a display name |
| Pipeline.IngredientsAreNotFinal | app/app.py:169-176 | with one-to-one names and keys, no ingredient item is a final |
| Pipeline.IngredientBalanceFollowsStock | app/app.py:189-198 | hence an ingredient's balance is `>=` exactly when it has initial stock, and `==` otherwise |
| Pipeline.AsWrittenAbortsOnProcessedIngredient | app/app.py:189-198 | as written, a run in which no recipe cycle is reachable from a raw final aborts with `NameError` whenever an unlocked ingredient has no field, tree or bush stock |
| Pipeline.WholeQuantity | app/app.py:239-240 | a non-negative whole value rounds to itself and passes the tolerance exactly when it is not 0 |
| Pipeline.RowsAddUp | app/app.py:233-255 | the running totals are the sum, in visiting order, of what each chosen item's row (`RowFor`) adds: its XP and time per batch times its quantity |
| Pipeline.IntegerTotals | app/app.py:233-255 | in integer mode, with admissible values, `total_xp` is the value of the objective (`Objective`, `xp[i]` per item) and `total_time_used` is that of the global time (`TotalTime`, `tmin[i]` per item) |
| Pipeline.ReportedTotalsMatchSolution | app/app.py:274-281 | for an integer run on a feasible solution, the reported XP is the objective's value, the reported time is the global usage (`TotalTime`), and the time used is at most the reported capacity |
| Pipeline.SolutionMeetsEveryCap | app/app.py:189-213 | a solution meets every machine's 1440-minute cap, the global capacity, and every ingredient balance |

## Left out

- Streamlit UI, CSV loading, `load_final_data` and `safe_literal_eval`: they are I/O. The `needs` field holds the already-parsed dictionary.
- The PuLP/CBC solve (`model.solve`, `LpStatus`): it is a foreign call. Its status and the variables' values are parameters of `OptimizePlan`, and the order in which `items_set` is visited is a parameter too.
- The name mangler `v` and the constraint and variable names: they only label constraints. PuLP would reject two keys whose mangled names collide; that is not modelled.
- `canon_name` and `machine_map` are computed but never read after they are built. `machine_map` is still modelled as a field of `Maps`.
- `lru_cache` on `closure_ok`: memoisation does not change any answer.
- Normalize.NormText: `str.lower` and `re.I` are modelled for ASCII letters only, and `str(s)` of a non-string cell is not modelled. White space is Python's `str.isspace` set for code points up to U+3000.
- Recipes.Finals: when a cycle is reachable from a raw final, the source either recurses until `RecursionError` or, if its dictionary order reaches a locked ingredient first, returns False. The model always reports `CyclicRecipe`.
- Recipes.FinalsInUnlocked: the source reads the module-level table `df` for ingredient names. The model passes it as `catalogue`, and the run passes `df_cleaned`.
- Extraction.SortPlan: it states sortedness and permutation but not the stability of `sort_values` among rows equal on all three keys.
- Extraction.Quantity: floating point is modelled as exact reals, so `round` and the sums carry no rounding error.
- Extraction.PerHour: NaN is modelled as `None`.
- Pipeline.IntegerTotals: this equality is stated for integer mode only. In continuous mode the reported totals follow the same rows but are not related to `Eval`.

## Findings

| source | as written | input that shows it | evidently intended | confidence | as-written member | corrected member |
|---|---|---|---|---|---|---|
| app/app.py:198 | the `==` balance reads `ield_map.get(k, 1.0)`, a name bound nowhere, which raises `NameError` | a level with no recipe cycle reachable from a raw final (otherwise line 171 fails first) at which some unlocked recipe lists an unlocked good that is not final and has no field, tree or bush source | `yield_map.get(k, 1.0) * x[k] == consume` | high, not executed | Builder.BalanceAsWritten, Pipeline.AsWrittenAbortsOnProcessedIngredient | Builder.BalanceFor, Builder.BuildProblem |
| app/app.py:257-262 | `pd.DataFrame([])` has no `item` column, so `plan_df['item']` raises `KeyError` when no row was made | `T_hours = 0`, every good taking positive time, at a level with no recipe cycle reachable from a raw final (otherwise line 171 fails first) where every consumed good is a field, tree or bush good (otherwise line 198 raises first): the only feasible, hence optimal, solution is all 0 | an empty plan with status Optimal and zero totals | high, not executed | Extraction.PlanFrameAsWritten, Extraction.ZeroSolutionHasNoRows | Extraction.PlanFrame |
