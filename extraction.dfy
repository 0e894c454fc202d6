/**
  Reading the solution back (app/app.py:219-281): the fallback result for a
  non-optimal solve, and for an optimal one the plan rows, the XP and time
  totals, the Machine/Processed filter and the three-key sort.
*/
module Extraction {
  import opened Wrappers
  import opened Catalogue
  import Normalize
  import Builder

  /** `pl.LpStatus[model.status]`. */
  datatype Status = Optimal | NotSolved | Infeasible | Unbounded | Undefined

  /** One row of `plan`. */
  datatype PlanEntry = PlanEntry(
    item: string,      // display name
    isFinal: bool,
    qty: real,         // a whole number in integer mode
    xpEach: real,
    xpTotal: real,
    timeEach: real,    // time_min_each
    timeTotal: real)   // time_min_total

  /** The dictionary `optimize_plan_notebook` returns; `None` per hour stands for `float("nan")`. */
  datatype RunResult = RunResult(
    status: Status,
    xpTotal: real,
    xpPerHour: Option<real>,
    timeUsed: real,
    timeCapacity: real,
    plan: seq<PlanEntry>)

  /** `1e-6`: quantities at or below it are left out of the plan. */
  const TOLERANCE: real := 0.000001

  const MACHINE_TYPE: string := "Machine/Processed"

  /** Python's `round` on a real: the nearest whole number, the even one on a tie. */
  function RoundHalfEven(x: real): (r: int)
    ensures -0.5 <= x - r as real <= 0.5
    ensures (x - r as real == 0.5 || r as real - x == 0.5) ==> r % 2 == 0
  {
    var f := x.Floor;
    var d := x - f as real;
    if d < 0.5 then f
    else if d > 0.5 then f + 1
    else if f % 2 == 0 then f
    else f + 1
  }

  /** `int(round(val)) if integer_solution else float(val)`. */
  function Quantity(v: real, integer: bool): (q: real)
    ensures integer ==> q == q.Floor as real && -0.5 <= v - q <= 0.5
    ensures integer ==> q == RoundHalfEven(v) as real
    ensures integer ==> (q > TOLERANCE <==> q >= 1.0)
    ensures !integer ==> q == v
  {
    if integer then
      var n := RoundHalfEven(v);
      assert n as real > TOLERANCE <==> n >= 1;
      n as real
    else v
  }

  /** What the extraction reads besides the solver's output. */
  datatype Inputs = Inputs(df: Table, m: Maps, finals: set<string>, tHours: real, integer: bool)
  {
    /** Every variable is a key of the full table, so its display name can be looked up. */
    predicate Valid() {
      m.Valid() && m.items <= Keys(df)
    }
  }

  /** `order` lists every item exactly once: the order in which `for i in items_set` visits them. */
  predicate Enumerates(order: seq<string>, items: set<string>) {
    && (forall i, j :: 0 <= i < j < |order| ==> order[i] != order[j])
    && (forall j :: 0 <= j < |order| ==> order[j] in items)
    && (forall k :: k in items ==> k in order)
  }

  /**
    Item `k` gets a row: the solver gave it a value, and its quantity is above
    the tolerance. In integer mode that is a value above one half, since
    `round(0.5) == 0`.
  */
  predicate Chosen(values: map<string, real>, integer: bool, k: string)
    ensures Chosen(values, integer, k) ==> k in values
    ensures integer ==> (Chosen(values, integer, k) <==> k in values && values[k] > 0.5)
    ensures !integer ==> (Chosen(values, integer, k) <==> k in values && values[k] > TOLERANCE)
  {
    if k in values && integer then
      var v := values[k];
      assert RoundHalfEven(v) >= 1 <==> v > 0.5 by {
        var f := v.Floor;
        if v > 0.5 {
          assert f >= 1 || (f == 0 && v - f as real > 0.5);
        } else {
          assert f <= 0;
        }
      }
      Quantity(v, integer) > TOLERANCE
    else
      k in values && Quantity(values[k], integer) > TOLERANCE
  }

  /** The row for item `k`, named after the first row of the full table with that key. */
  function RowFor(run: Inputs, k: string, qty: real): (e: PlanEntry)
    requires run.Valid() && k in run.m.items
    ensures e.isFinal <==> k in run.finals
    ensures e.qty == qty && e.xpEach == run.m.xp[k] && e.timeEach == run.m.tmin[k]
    ensures e.xpTotal == e.xpEach * e.qty && e.timeTotal == e.timeEach * e.qty
    ensures FirstWithKey(run.df, k).Some? && e.item == FirstWithKey(run.df, k).value.name
  {
    var g := FirstWithKey(run.df, k).value;
    PlanEntry(g.name, k in run.finals, qty, run.m.xp[k], run.m.xp[k] * qty, run.m.tmin[k], run.m.tmin[k] * qty)
  }

  /**
    The rows appended while visiting `order`: exactly one per chosen item, in
    the visiting order.
  */
  function RowsOf(run: Inputs, values: map<string, real>, order: seq<string>): (rows: seq<PlanEntry>)
    requires run.Valid() && forall j :: 0 <= j < |order| ==> order[j] in run.m.items
    ensures |rows| <= |order|
    decreases |order|
  {
    if order == [] then []
    else
      var init := order[..|order| - 1];
      var k := order[|order| - 1];
      var before := RowsOf(run, values, init);
      if Chosen(values, run.integer, k) then
        before + [RowFor(run, k, Quantity(values[k], run.integer))]
      else
        before
  }

  /** The rows are exactly one per chosen item. */
  lemma {:induction false} RowsOfMembers(run: Inputs, values: map<string, real>, order: seq<string>)
    requires run.Valid() && forall j :: 0 <= j < |order| ==> order[j] in run.m.items
    ensures forall e :: e in RowsOf(run, values, order) <==>
      exists j :: 0 <= j < |order| && Chosen(values, run.integer, order[j])
        && e == RowFor(run, order[j], Quantity(values[order[j]], run.integer))
    decreases |order|
  {
    if order != [] {
      var init := order[..|order| - 1];
      assert forall j :: 0 <= j < |init| ==> init[j] == order[j];
      RowsOfMembers(run, values, init);
    }
  }

  /** Every row's quantity is above the tolerance; in integer mode it is a whole number, hence at least 1. */
  lemma RowQuantities(run: Inputs, values: map<string, real>, order: seq<string>)
    requires run.Valid() && forall j :: 0 <= j < |order| ==> order[j] in run.m.items
    ensures forall e :: e in RowsOf(run, values, order) ==> e.qty > TOLERANCE
    ensures run.integer ==> forall e :: e in RowsOf(run, values, order) ==> e.qty == e.qty.Floor as real && e.qty >= 1.0
  {
    RowsOfMembers(run, values, order);
  }

  /** Visiting one more item appends its row when it is chosen. */
  lemma RowsOfSnoc(run: Inputs, values: map<string, real>, order: seq<string>, idx: nat)
    requires run.Valid() && forall j :: 0 <= j < |order| ==> order[j] in run.m.items
    requires idx < |order|
    ensures RowsOf(run, values, order[..idx + 1]) ==
      RowsOf(run, values, order[..idx]) +
      (if Chosen(values, run.integer, order[idx]) then [RowFor(run, order[idx], Quantity(values[order[idx]], run.integer))] else [])
  {
    var p := order[..idx + 1];
    assert p[..|p| - 1] == order[..idx];
    assert p[|p| - 1] == order[idx];
  }

  /** Appending a row adds its XP and its time to the totals. */
  lemma SumsSnoc(rows: seq<PlanEntry>, e: PlanEntry)
    ensures SumXp(rows + [e]) == SumXp(rows) + e.xpTotal
    ensures SumTime(rows + [e]) == SumTime(rows) + e.timeTotal
  {
    assert (rows + [e])[..|rows|] == rows;
  }

  /** `total_xp`: the XP of the rows, added up in row order. */
  function SumXp(rows: seq<PlanEntry>): real {
    if rows == [] then 0.0 else SumXp(rows[..|rows| - 1]) + rows[|rows| - 1].xpTotal
  }

  /** `total_time_used`. */
  function SumTime(rows: seq<PlanEntry>): real {
    if rows == [] then 0.0 else SumTime(rows[..|rows| - 1]) + rows[|rows| - 1].timeTotal
  }

  /** `type_map.get(norm(item), 'Unknown')`. */
  function TypeOf(m: Maps, key: string): string {
    if key in m.productionType then m.productionType[key] else "Unknown"
  }

  predicate IsMachineRow(m: Maps, e: PlanEntry) {
    TypeOf(m, Normalize.NormText(e.item)) == MACHINE_TYPE
  }

  /** `plan_df['item'].apply(lambda x: type_map.get(norm(x), 'Unknown'))`: the production type column. */
  function TypeColumn(m: Maps, rows: seq<PlanEntry>): (types: seq<string>)
    ensures |types| == |rows|
    ensures forall i :: 0 <= i < |rows| ==> types[i] == TypeOf(m, Normalize.NormText(rows[i].item))
  {
    seq(|rows|, i requires 0 <= i < |rows| => TypeOf(m, Normalize.NormText(rows[i].item)))
  }

  /** `plan_df[plan_df['production_type'] == 'Machine/Processed']`: the rows whose type is Machine/Processed, in order. */
  function KeepMachine(rows: seq<PlanEntry>, types: seq<string>): (r: seq<PlanEntry>)
    requires |types| == |rows|
    ensures |r| <= |rows|
    ensures forall e :: e in r <==> exists i :: 0 <= i < |rows| && rows[i] == e && types[i] == MACHINE_TYPE
    ensures multiset(r) <= multiset(rows)
  {
    if rows == [] then []
    else
      var rest := KeepMachine(rows[1..], types[1..]);
      assert rows == [rows[0]] + rows[1..];
      assert forall i :: 1 <= i < |rows| ==> rows[i] == rows[1..][i - 1] && types[i] == types[1..][i - 1];
      if types[0] == MACHINE_TYPE then [rows[0]] + rest else rest
  }

  /** The Machine/Processed filter on the plan rows. */
  function MachineOnly(m: Maps, rows: seq<PlanEntry>): (r: seq<PlanEntry>)
    ensures |r| <= |rows|
    ensures forall e :: e in r <==> exists i :: 0 <= i < |rows| && rows[i] == e && IsMachineRow(m, rows[i])
    ensures multiset(r) <= multiset(rows)
    ensures forall e :: multiset(r)[e] == if IsMachineRow(m, e) then multiset(rows)[e] else 0
  {
    var keep := set e | e in rows && IsMachineRow(m, e);
    KeepMachineCounts(rows, TypeColumn(m, rows), keep);
    KeepMachine(rows, TypeColumn(m, rows))
  }

  /** The filter keeps every copy of a row marked Machine/Processed and no copy of any other row. */
  lemma {:induction false} KeepMachineCounts(rows: seq<PlanEntry>, types: seq<string>, keep: set<PlanEntry>)
    requires |types| == |rows|
    requires forall i :: 0 <= i < |rows| ==> (types[i] == MACHINE_TYPE <==> rows[i] in keep)
    ensures forall e :: multiset(KeepMachine(rows, types))[e] == if e in keep then multiset(rows)[e] else 0
    decreases |rows|
  {
    if rows != [] {
      var rest, restTypes := rows[1..], types[1..];
      var head := if rows[0] in keep then [rows[0]] else [];
      assert forall i :: 0 <= i < |rest| ==> (restTypes[i] == MACHINE_TYPE <==> rest[i] in keep) by {
        assert forall i :: 0 <= i < |rest| ==> rest[i] == rows[i + 1] && restTypes[i] == types[i + 1];
      }
      KeepMachineCounts(rest, restTypes, keep);
      KeepMachineUnfold(rows, types);
      assert rows == [rows[0]] + rest;
      CountsStep(rows[0], rest, head, KeepMachine(rest, restTypes), keep);
    }
  }

  lemma KeepMachineUnfold(rows: seq<PlanEntry>, types: seq<string>)
    requires |types| == |rows| && rows != []
    ensures KeepMachine(rows, types) == (if types[0] == MACHINE_TYPE then [rows[0]] else []) + KeepMachine(rows[1..], types[1..])
  {
  }

  /** Putting one row in front adds one copy of it to the input and, when it is kept, to the output. */
  lemma CountsStep(x: PlanEntry, rest: seq<PlanEntry>, head: seq<PlanEntry>, kept: seq<PlanEntry>, keep: set<PlanEntry>)
    requires head == if x in keep then [x] else []
    requires forall e :: multiset(kept)[e] == if e in keep then multiset(rest)[e] else 0
    ensures forall e :: multiset(head + kept)[e] == if e in keep then multiset([x] + rest)[e] else 0
  {
    assert multiset([x] + rest) == multiset{x} + multiset(rest);
    assert multiset(head + kept) == multiset(head) + multiset(kept);
  }

  /**
    The order of `sort_values(["is_final", "xp_each", "time_min_each"],
    ascending=[False, False, True])`: finals first, then more XP each, then
    less time each. `Before(a, b)` when `a` may come first.
  */
  predicate Before(a: PlanEntry, b: PlanEntry) {
    || (a.isFinal && !b.isFinal)
    || (a.isFinal == b.isFinal && a.xpEach > b.xpEach)
    || (a.isFinal == b.isFinal && a.xpEach == b.xpEach && a.timeEach <= b.timeEach)
  }

  predicate Sorted(s: seq<PlanEntry>) {
    forall i, j :: 0 <= i < j < |s| ==> Before(s[i], s[j])
  }

  /** A sorted sequence stays sorted under a head that may come before all of it. */
  lemma ConsSorted(h: PlanEntry, t: seq<PlanEntry>)
    requires Sorted(t) && forall j :: 0 <= j < |t| ==> Before(h, t[j])
    ensures Sorted([h] + t)
  {
    var r := [h] + t;
    forall i, j | 0 <= i < j < |r| ensures Before(r[i], r[j]) {
      assert r[j] == t[j - 1];
      if i > 0 {
        assert r[i] == t[i - 1];
      }
    }
  }

  /** Places `x` into a sorted sequence. */
  function Insert(x: PlanEntry, s: seq<PlanEntry>): (r: seq<PlanEntry>)
    requires Sorted(s)
    ensures Sorted(r)
    ensures multiset(r) == multiset(s) + multiset{x}
    ensures |r| == |s| + 1
  {
    if s == [] then [x]
    else if Before(x, s[0]) then
      ConsSorted(x, s);
      [x] + s
    else
      var rest := Insert(x, s[1..]);
      assert s == [s[0]] + s[1..];
      assert forall j :: 0 <= j < |rest| ==> Before(s[0], rest[j]) by {
        forall j | 0 <= j < |rest| ensures Before(s[0], rest[j]) {
          assert rest[j] in multiset(rest);
          if rest[j] != x {
            assert rest[j] in s[1..];
          }
        }
      }
      ConsSorted(s[0], rest);
      [s[0]] + rest
  }

  /** `sort_values`: a sorted permutation of the rows. */
  function SortPlan(rows: seq<PlanEntry>): (r: seq<PlanEntry>)
    ensures Sorted(r)
    ensures multiset(r) == multiset(rows)
  {
    if rows == [] then []
    else
      assert rows == [rows[0]] + rows[1..];
      Insert(rows[0], SortPlan(rows[1..]))
  }

  /** The plan as intended: the Machine/Processed rows, sorted; empty when no row was made. */
  function PlanFrame(m: Maps, rows: seq<PlanEntry>): (plan: seq<PlanEntry>)
    ensures Sorted(plan)
    ensures multiset(plan) == multiset(MachineOnly(m, rows))
    ensures forall e :: e in plan <==> exists i :: 0 <= i < |rows| && rows[i] == e && IsMachineRow(m, rows[i])
  {
    var r := SortPlan(MachineOnly(m, rows));
    assert forall e :: e in r <==> e in multiset(r);
    assert forall e :: e in MachineOnly(m, rows) <==> e in multiset(MachineOnly(m, rows));
    r
  }

  datatype FrameError = KeyError(column: string)

  /**
    app/app.py:257-260 as written: `pd.DataFrame([])` has no `item` column, so
    reading `plan_df['item']` raises when no row was made.
  */
  function PlanFrameAsWritten(m: Maps, rows: seq<PlanEntry>): (r: Result<seq<PlanEntry>, FrameError>)
    ensures r.Failure? <==> rows == []
    ensures r.Success? ==> r.value == PlanFrame(m, rows)
  {
    if rows == [] then Failure(KeyError("item")) else Success(PlanFrame(m, rows))
  }

  /** `time_capacity_min` in the non-optimal result: `T_hours * 60.0`, not clamped at 0. */
  function FallbackResult(status: Status, tHours: real): (res: RunResult)
    requires status != Optimal
    ensures res.status == status && res.plan == []
    ensures res.xpTotal == 0.0 && res.xpPerHour == Some(0.0) && res.timeUsed == 0.0
    ensures res.timeCapacity == tHours * 60.0
  {
    RunResult(status, 0.0, Some(0.0), 0.0, tHours * 60.0, [])
  }

  /**
    The non-optimal result is not what an optimal solve without rows reports:
    its capacity is the clamped one only when the horizon is not negative, and
    it reports 0.0 XP per hour where the optimal path reports NaN.
  */
  lemma FallbackVersusOptimal(status: Status, tHours: real)
    requires status != Optimal
    ensures FallbackResult(status, tHours).timeCapacity == Builder.TimeCapacity(tHours) <==> tHours >= 0.0
    ensures FallbackResult(status, tHours).xpPerHour == PerHour(0.0, tHours) <==> tHours > 0.0
  {
    if tHours > 0.0 {
      assert PerHour(0.0, tHours) == Some(0.0 / tHours);
    }
  }

  /** `XP_per_hour`: NaN when the horizon is not positive. */
  function PerHour(total: real, tHours: real): (r: Option<real>)
    ensures r.Some? <==> tHours > 0.0
    ensures r.Some? ==> r.value * tHours == total
  {
    if tHours > 0.0 then Some(total / tHours) else None
  }

  /**
    `res` is what the extraction returns: the fallback for a non-optimal solve;
    otherwise the totals of the rows made while visiting `order`, the XP per
    hour, the clamped capacity and the filtered, sorted plan.
  */
  predicate Extracted(run: Inputs, status: Status, values: map<string, real>, order: seq<string>, res: RunResult)
    requires run.Valid() && forall j :: 0 <= j < |order| ==> order[j] in run.m.items
  {
    if status != Optimal then res == FallbackResult(status, run.tHours)
    else
      var rows := RowsOf(run, values, order);
      && res.status == Optimal
      && res.xpTotal == SumXp(rows) && res.timeUsed == SumTime(rows)
      && res.xpPerHour == PerHour(SumXp(rows), run.tHours)
      && res.timeCapacity == Builder.TimeCapacity(run.tHours)
      && res.plan == PlanFrame(run.m, rows)
  }

  /**
    The extraction after `model.solve`: `values` holds `x[i].value()` for the
    variables the solver gave a value, `order` the iteration order of `items_set`.
  */
  method Extract(run: Inputs, status: Status, values: map<string, real>, order: seq<string>) returns (res: RunResult)
    requires run.Valid() && Enumerates(order, run.m.items)
    ensures Extracted(run, status, values, order, res)
  {
    if status != Optimal {
      return FallbackResult(status, run.tHours);
    }
    var rows, totalXp, totalTime := CollectRows(run, values, order);
    res := RunResult(Optimal, totalXp, PerHour(totalXp, run.tHours), totalTime,
      Builder.TimeCapacity(run.tHours), PlanFrame(run.m, rows));
  }

  /** The `for i in items_set` loop: the rows and the running XP and time totals. */
  method CollectRows(run: Inputs, values: map<string, real>, order: seq<string>)
      returns (rows: seq<PlanEntry>, totalXp: real, totalTime: real)
    requires run.Valid() && forall j :: 0 <= j < |order| ==> order[j] in run.m.items
    ensures rows == RowsOf(run, values, order)
    ensures totalXp == SumXp(rows) && totalTime == SumTime(rows)
  {
    rows, totalXp, totalTime := [], 0.0, 0.0;
    var idx := 0;
    while idx < |order|
      invariant 0 <= idx <= |order|
      invariant rows == RowsOf(run, values, order[..idx])
      invariant totalXp == SumXp(rows) && totalTime == SumTime(rows)
    {
      var i := order[idx];
      RowsOfSnoc(run, values, order, idx);
      if i in values {
        var qty := Quantity(values[i], run.integer);
        if qty > TOLERANCE {
          var e := RowFor(run, i, qty);
          SumsSnoc(rows, e);
          rows := rows + [e];
          totalXp := totalXp + e.xpTotal;
          totalTime := totalTime + e.timeTotal;
        }
      }
      idx := idx + 1;
    }
    assert order[..|order|] == order;
  }

  // ---------------------------------------------------------------------------
  // Properties of the extraction
  // ---------------------------------------------------------------------------

  /**
    With a well-formed table the Machine/Processed filter keeps the row of item
    `k` exactly when `k` itself is a Machine/Processed good: `norm` of its
    display name leads back to `k`.
  */
  lemma MachineFilterByKey(run: Inputs, k: string, qty: real)
    requires run.Valid() && WellFormed(run.df) && k in run.m.items
    ensures IsMachineRow(run.m, RowFor(run, k, qty)) <==> run.m.productionType[k] == MACHINE_TYPE
  {
    var e := RowFor(run, k, qty);
    var g := FirstWithKey(run.df, k).value;
    var i :| 0 <= i < |run.df| && run.df[i] == g;
    assert Normalize.NormText(run.df[i].name) == k;
  }

  /** When no item is chosen no row is made. */
  lemma {:induction false} NoneChosenNoRows(run: Inputs, values: map<string, real>, order: seq<string>)
    requires run.Valid() && forall j :: 0 <= j < |order| ==> order[j] in run.m.items
    requires forall j :: 0 <= j < |order| ==> !Chosen(values, run.integer, order[j])
    ensures RowsOf(run, values, order) == []
    decreases |order|
  {
    if order != [] {
      var init := order[..|order| - 1];
      assert forall j :: 0 <= j < |init| ==> init[j] == order[j];
      NoneChosenNoRows(run, values, init);
    }
  }

  /** Setting every variable to 0 is a solution the extraction turns into no rows, where the code as written raises. */
  lemma ZeroSolutionHasNoRows(run: Inputs, order: seq<string>)
    requires run.Valid() && Enumerates(order, run.m.items)
    ensures RowsOf(run, map k | k in run.m.items :: 0.0, order) == []
    ensures PlanFrameAsWritten(run.m, RowsOf(run, map k | k in run.m.items :: 0.0, order)).Failure?
  {
    var values := map k | k in run.m.items :: 0.0;
    forall j | 0 <= j < |order| ensures !Chosen(values, run.integer, order[j]) {
      assert RoundHalfEven(0.0) == 0;
    }
    NoneChosenNoRows(run, values, order);
  }
}
