/**
  The mixed-integer linear program the optimiser hands to the solver: linear
  expressions over the production variables `x[i]`, the constraints the
  builder adds with `model += ...`, and what it means for an assignment of the
  variables to satisfy them.
*/
module Milp {

  /** A linear expression: the coefficient of each variable it mentions. */
  type LinExpr = map<string, real>

  /** Values of the variables, as `x[i].value()` reads them. */
  type Assignment = map<string, real>

  /** The value of `v`; a variable the assignment does not mention counts as 0. */
  function Val(a: Assignment, v: string): real {
    if v in a then a[v] else 0.0
  }

  /** The value of `e` under `a`: the sum of coefficient times value over the variables of `e`. */
  ghost function Eval(e: LinExpr, a: Assignment): real {
    SumOver(e, a, e.Keys)
  }

  /** The term of variable `v` in `e`. */
  function Term(e: LinExpr, a: Assignment, v: string): real
    requires v in e
  {
    e[v] * Val(a, v)
  }

  /** The sum of coefficient times value over the variables `vs` of `e`, taken in any order. */
  ghost function SumOver(e: LinExpr, a: Assignment, vs: set<string>): real
    requires vs <= e.Keys
    decreases |vs|
  {
    if vs == {} then 0.0
    else
      var v :| v in vs;
      Term(e, a, v) + SumOver(e, a, vs - {v})
  }

  /** Any variable can be taken out of the sum first. */
  lemma {:induction false} SumOverRemove(e: LinExpr, a: Assignment, vs: set<string>, v: string)
    requires vs <= e.Keys && v in vs
    ensures SumOver(e, a, vs) == Term(e, a, v) + SumOver(e, a, vs - {v})
    decreases |vs|
  {
    var w :| w in vs && SumOver(e, a, vs) == Term(e, a, w) + SumOver(e, a, vs - {w});
    if w != v {
      SumOverRemove(e, a, vs - {w}, v);
      SumOverRemove(e, a, vs - {v}, w);
      assert vs - {w} - {v} == vs - {v} - {w};
    }
  }

  /** The sum of the terms of `vs`, added up in the order of `vs`. */
  function SeqSum(e: LinExpr, a: Assignment, vs: seq<string>): real
    requires forall i :: 0 <= i < |vs| ==> vs[i] in e
  {
    if vs == [] then 0.0 else SeqSum(e, a, vs[..|vs| - 1]) + Term(e, a, vs[|vs| - 1])
  }

  /** Adding the terms up in the order of a list without repeats gives the sum over its variables. */
  lemma {:induction false} SeqSumIsSumOver(e: LinExpr, a: Assignment, vs: seq<string>)
    requires forall i :: 0 <= i < |vs| ==> vs[i] in e
    requires forall i, j :: 0 <= i < j < |vs| ==> vs[i] != vs[j]
    ensures SeqSum(e, a, vs) == SumOver(e, a, set i | 0 <= i < |vs| :: vs[i])
    decreases |vs|
  {
    if vs != [] {
      var init := vs[..|vs| - 1];
      var last := vs[|vs| - 1];
      var all := set i | 0 <= i < |vs| :: vs[i];
      assert forall i :: 0 <= i < |init| ==> init[i] == vs[i];
      SeqSumIsSumOver(e, a, init);
      assert all - {last} == set i | 0 <= i < |init| :: init[i] by {
        forall v | v in all - {last} ensures v in set i | 0 <= i < |init| :: init[i] {
          var i :| 0 <= i < |vs| && vs[i] == v;
          assert i < |init|;
        }
      }
      SumOverRemove(e, a, all, last);
    }
  }

  /** Adding up the terms along a list of the variables of `e`, each once, gives the value of `e`. */
  lemma SeqSumIsEval(e: LinExpr, a: Assignment, vs: seq<string>)
    requires forall i, j :: 0 <= i < j < |vs| ==> vs[i] != vs[j]
    requires forall i :: 0 <= i < |vs| ==> vs[i] in e
    requires forall v :: v in e ==> v in vs
    ensures SeqSum(e, a, vs) == Eval(e, a)
  {
    SeqSumIsSumOver(e, a, vs);
    assert (set i | 0 <= i < |vs| :: vs[i]) == e.Keys;
  }

  /** A sum over variables that are all 0 is 0. */
  lemma {:induction false} SumOverZero(e: LinExpr, a: Assignment, vs: set<string>)
    requires vs <= e.Keys
    requires forall v :: v in vs ==> Val(a, v) == 0.0
    ensures SumOver(e, a, vs) == 0.0
    decreases |vs|
  {
    if vs != {} {
      var v :| v in vs && SumOver(e, a, vs) == Term(e, a, v) + SumOver(e, a, vs - {v});
      assert Term(e, a, v) == e[v] * 0.0;
      SumOverZero(e, a, vs - {v});
    }
  }

  /** An expression whose variables are all 0 evaluates to 0. */
  lemma EvalZero(e: LinExpr, a: Assignment)
    requires forall v :: v in e ==> Val(a, v) == 0.0
    ensures Eval(e, a) == 0.0
  {
    SumOverZero(e, a, e.Keys);
  }

  /** A sum over variables whose coefficients are all 0 is 0, whatever their values. */
  lemma {:induction false} SumOverNoCoefficient(e: LinExpr, a: Assignment, vs: set<string>)
    requires vs <= e.Keys
    requires forall v :: v in vs ==> e[v] == 0.0
    ensures SumOver(e, a, vs) == 0.0
    decreases |vs|
  {
    if vs != {} {
      var v :| v in vs && SumOver(e, a, vs) == Term(e, a, v) + SumOver(e, a, vs - {v});
      assert Term(e, a, v) == 0.0 * Val(a, v);
      SumOverNoCoefficient(e, a, vs - {v});
    }
  }

  /** An expression whose coefficients are all 0 evaluates to 0 under every assignment. */
  lemma EvalNoCoefficient(e: LinExpr, a: Assignment)
    requires forall v :: v in e ==> e[v] == 0.0
    ensures Eval(e, a) == 0.0
  {
    SumOverNoCoefficient(e, a, e.Keys);
  }

  /** `pl.LpVariable(..., cat="Integer")`: the value is a whole number. */
  predicate IsWhole(x: real) {
    x == x.Floor as real
  }

  /** The constraints `optimize_plan_notebook` adds, each read as `lhs sense rhs`. */
  datatype Constraint =
    | BalanceGe(item: string, yieldQty: real, consume: LinExpr, stock: real)
        // yieldQty * x[item] >= consume - stock
    | BalanceEq(item: string, yieldQty: real, consume: LinExpr)
        // yieldQty * x[item] == consume
    | MachineCap(building: string, usage: LinExpr, cap: real)
        // usage <= cap
    | GlobalCap(usage: LinExpr, cap: real)
        // usage <= cap

  ghost predicate Holds(a: Assignment, c: Constraint) {
    match c
    case BalanceGe(k, y, consume, stock) => y * Val(a, k) >= Eval(consume, a) - stock
    case BalanceEq(k, y, consume) => y * Val(a, k) == Eval(consume, a)
    case MachineCap(_, usage, cap) => Eval(usage, a) <= cap
    case GlobalCap(usage, cap) => Eval(usage, a) <= cap
  }

  /** An `LpProblem` to maximise `objective` over non-negative variables `vars`, integer ones when `integer`. */
  datatype Problem = Problem(vars: set<string>, integer: bool, objective: LinExpr, constraints: seq<Constraint>)

  /** `a` gives every variable an admissible value (`lowBound=0`, its category) and meets every constraint. */
  ghost predicate Satisfies(a: Assignment, p: Problem) {
    && (forall v :: v in p.vars ==> v in a && a[v] >= 0.0 && (p.integer ==> IsWhole(a[v])))
    && (forall j :: 0 <= j < |p.constraints| ==> Holds(a, p.constraints[j]))
  }

  /** Every variable set to 0. */
  function Zero(vars: set<string>): (a: Assignment)
    ensures a.Keys == vars
    ensures forall v :: Val(a, v) == 0.0
  {
    map v | v in vars :: 0.0
  }
}
