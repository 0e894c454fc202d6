/**
  Recipe analysis: which unlocked goods are final (`finals_in_unlocked`,
  app/app.py:97-108), whether a good's whole ingredient tree is unlocked
  (`closure_ok`, app/app.py:162-167), and the producible finals
  (app/app.py:169-171).
*/
module Recipes {
  import opened Wrappers
  import opened Catalogue
  import Normalize

  // ---------------------------------------------------------------------------
  // finals_in_unlocked
  // ---------------------------------------------------------------------------

  /**
    The display name `finals_in_unlocked` finds for an ingredient key: the name
    of the first catalogue row with that key, or `None` when no row has it.
  */
  function IngredientName(catalogue: Table, k: string): Option<string> {
    match FirstWithKey(catalogue, k)
    case None => None
    case Some(g) => Some(g.name)
  }

  /** Ingredient key `k` names one of the unlocked goods. */
  predicate NamesUnlocked(catalogue: Table, av: Table, k: string) {
    IngredientName(catalogue, k).Some? && IngredientName(catalogue, k).value in Names(av)
  }

  /** The names one row adds to `used` for the ingredient keys in `ks`. */
  ghost function UsedByRow(catalogue: Table, av: Table, ks: set<string>): set<string> {
    set k | k in ks && NamesUnlocked(catalogue, av, k) :: IngredientName(catalogue, k).value
  }

  /** The names the first `n` unlocked rows add to `used`. */
  ghost function UsedBy(catalogue: Table, av: Table, n: nat): set<string>
    requires n <= |av|
  {
    if n == 0 then {} else UsedBy(catalogue, av, n - 1) + UsedByRow(catalogue, av, av[n - 1].needs.Keys)
  }

  /** A name is used by the first `n` rows exactly when one of their ingredient keys names it. */
  lemma {:induction false} UsedByMember(catalogue: Table, av: Table, n: nat, name: string)
    requires n <= |av|
    ensures name in UsedBy(catalogue, av, n) <==>
      exists j, k :: 0 <= j < n && k in av[j].needs && NamesUnlocked(catalogue, av, k) && IngredientName(catalogue, k).value == name
  {
    if n > 0 {
      UsedByMember(catalogue, av, n - 1, name);
    }
  }

  /** The display names of the unlocked goods that no unlocked row lists as an ingredient. */
  ghost function FinalNames(catalogue: Table, av: Table): set<string> {
    Names(av) - UsedBy(catalogue, av, |av|)
  }

  /**
    `finals_in_unlocked`: collects in `used` the name of every unlocked good some
    unlocked row needs, and returns the unlocked names not used. The source reads
    the module-level `df` for the name lookup; here that table is `catalogue`.
  */
  method FinalsInUnlocked(catalogue: Table, av: Table) returns (finals: set<string>)
    ensures finals == FinalNames(catalogue, av)
    ensures finals <= Names(av)
  {
    var items := set i | 0 <= i < |av| :: av[i].name;
    var used: set<string> := {};
    var i := 0;
    while i < |av|
      invariant 0 <= i <= |av|
      invariant used == UsedBy(catalogue, av, i)
    {
      var todo := av[i].needs.Keys;
      ghost var before := used;
      while todo != {}
        invariant todo <= av[i].needs.Keys
        invariant used == before + UsedByRow(catalogue, av, av[i].needs.Keys - todo)
        decreases todo
      {
        var ing :| ing in todo;
        var original := IngredientName(catalogue, ing);
        if original.Some? && original.value in items {
          used := used + {original.value};
        }
        UsedByRowAdd(catalogue, av, av[i].needs.Keys - todo, ing);
        assert av[i].needs.Keys - (todo - {ing}) == (av[i].needs.Keys - todo) + {ing};
        todo := todo - {ing};
      }
      assert av[i].needs.Keys - {} == av[i].needs.Keys;
      i := i + 1;
    }
    finals := items - used;
  }

  lemma UsedByRowAdd(catalogue: Table, av: Table, ks: set<string>, k: string)
    ensures UsedByRow(catalogue, av, ks + {k}) ==
      UsedByRow(catalogue, av, ks) + (if NamesUnlocked(catalogue, av, k) then {IngredientName(catalogue, k).value} else {})
  {
  }

  /** The keys of the unlocked goods that no unlocked row lists as an ingredient. */
  ghost function Unconsumed(av: Table): set<string> {
    set k | k in Keys(av) && forall j :: 0 <= j < |av| ==> k !in av[j].needs
  }

  /** `finals_raw = {norm(i) for i in finals_all}`. */
  function NormAll(names: set<string>): set<string> {
    set n | n in names :: Normalize.NormText(n)
  }

  /**
    With one-to-one names and keys, the normalised final names are exactly the
    unlocked keys that no unlocked good consumes.
  */
  lemma FinalsRawAreUnconsumed(catalogue: Table, av: Table)
    requires WellFormed(catalogue)
    requires forall g :: g in av ==> g in catalogue
    ensures NormAll(FinalNames(catalogue, av)) == Unconsumed(av)
  {
    forall k | k in NormAll(FinalNames(catalogue, av)) ensures k in Unconsumed(av) {
      var n :| n in FinalNames(catalogue, av) && Normalize.NormText(n) == k;
      var j :| 0 <= j < |av| && av[j].name == n;
      assert av[j] in catalogue;
      var cj :| 0 <= cj < |catalogue| && catalogue[cj] == av[j];
      FinalIsUnconsumed(catalogue, av, j);
    }
    forall k | k in Unconsumed(av) ensures k in NormAll(FinalNames(catalogue, av)) {
      var j :| 0 <= j < |av| && av[j].key == k;
      UnconsumedIsFinal(catalogue, av, j);
    }
  }

  lemma FinalIsUnconsumed(catalogue: Table, av: Table, j: nat)
    requires WellFormed(catalogue)
    requires forall g :: g in av ==> g in catalogue
    requires j < |av|
    ensures av[j].name !in UsedBy(catalogue, av, |av|) ==> av[j].key in Unconsumed(av)
  {
    var n := av[j].name;
    var k := av[j].key;
    assert av[j] in catalogue;
    var cj :| 0 <= cj < |catalogue| && catalogue[cj] == av[j];
    FirstNameOfKey(catalogue, cj);
    assert NamesUnlocked(catalogue, av, k);
    forall i | 0 <= i < |av| && k in av[i].needs ensures n in UsedBy(catalogue, av, |av|) {
      UsedByMember(catalogue, av, |av|, n);
      assert IngredientName(catalogue, k).value == n;
    }
  }

  lemma UnconsumedIsFinal(catalogue: Table, av: Table, j: nat)
    requires WellFormed(catalogue)
    requires forall g :: g in av ==> g in catalogue
    requires j < |av| && av[j].key in Unconsumed(av)
    ensures av[j].key in NormAll(FinalNames(catalogue, av))
  {
    var n := av[j].name;
    assert av[j] in catalogue;
    var cj :| 0 <= cj < |catalogue| && catalogue[cj] == av[j];
    assert Normalize.NormText(n) == av[j].key;
    forall i, ing | 0 <= i < |av| && ing in av[i].needs && NamesUnlocked(catalogue, av, ing)
      ensures IngredientName(catalogue, ing).value != n
    {
      var g := FirstWithKey(catalogue, ing).value;
      assert g in catalogue;
      var cg :| 0 <= cg < |catalogue| && catalogue[cg] == g;
      assert Normalize.NormText(g.name) == ing != av[j].key;
    }
    UsedByMember(catalogue, av, |av|, n);
    assert n in FinalNames(catalogue, av);
  }

  // ---------------------------------------------------------------------------
  // closure_ok
  // ---------------------------------------------------------------------------

  /** What the closure check says about one good. */
  datatype Closure = Resolved(ok: bool) | Cyclic

  type Recipes = map<string, map<string, real>>

  /**
    `closure_ok(u)` with the in-progress set `path` of the goods whose check is
    still running: a good with no recipe entry resolves to true; otherwise every
    ingredient must be unlocked and pass the check itself. Meeting a good that
    is already on `path` reports a cycle.
  */
  function Visit(needs: Recipes, items: set<string>, u: string, path: set<string>): (c: Closure)
    requires needs.Keys <= items && path <= items
    decreases items - path
  {
    if u !in needs then Resolved(true)
    else if u in path then Cyclic
    else if exists ing :: ing in needs[u] && ing in items && Visit(needs, items, ing, path + {u}) == Cyclic then Cyclic
    else Resolved(forall ing :: ing in needs[u] ==> ing in items && Visit(needs, items, ing, path + {u}) == Resolved(true))
  }

  /** `closure_ok(u)`, started with nothing in progress. */
  function ClosureOk(needs: Recipes, items: set<string>, u: string): (c: Closure)
    requires needs.Keys <= items
    ensures u !in needs ==> c == Resolved(true)
    ensures u in needs && (exists ing :: ing in needs[u] && ing !in items) ==> c != Resolved(true)
  {
    Visit(needs, items, u, {})
  }

  /** `p` follows recipe edges: each good but the last has a recipe listing the next. */
  ghost predicate IsChain(needs: Recipes, p: seq<string>) {
    forall i :: 0 <= i < |p| - 1 ==> p[i] in needs && p[i + 1] in needs[p[i]]
  }

  /** Every good `u` requires, at any depth, is unlocked. */
  ghost predicate AllRequiredUnlocked(needs: Recipes, items: set<string>, u: string) {
    forall p :: |p| >= 2 && p[0] == u && IsChain(needs, p) ==> p[|p| - 1] in items
  }

  /** Some chain of requirements from `u` comes back to a good it already passed. */
  ghost predicate ReachesCycle(needs: Recipes, u: string) {
    exists p :: |p| >= 2 && p[0] == u && IsChain(needs, p) && p[|p| - 1] in p[..|p| - 1]
  }

  lemma ChainTail(needs: Recipes, p: seq<string>)
    requires |p| >= 2 && IsChain(needs, p)
    ensures IsChain(needs, p[1..])
  {
    var q := p[1..];
    forall i | 0 <= i < |q| - 1 ensures q[i] in needs && q[i + 1] in needs[q[i]] {
      assert q[i] == p[i + 1] && q[i + 1] == p[i + 2];
    }
  }

  lemma ChainCons(needs: Recipes, u: string, q: seq<string>)
    requires |q| >= 1 && IsChain(needs, q) && u in needs && q[0] in needs[u]
    ensures IsChain(needs, [u] + q)
  {
    var p := [u] + q;
    forall i | 0 <= i < |p| - 1 ensures p[i] in needs && p[i + 1] in needs[p[i]] {
      if i > 0 {
        assert p[i] == q[i - 1] && p[i + 1] == q[i];
      }
    }
  }

  /** When no cycle is met, the check is true exactly when every transitive ingredient is unlocked. */
  lemma {:induction false} VisitMeaning(needs: Recipes, items: set<string>, u: string, path: set<string>)
    requires needs.Keys <= items && path <= items
    requires Visit(needs, items, u, path) != Cyclic
    ensures Visit(needs, items, u, path) == Resolved(AllRequiredUnlocked(needs, items, u))
    decreases items - path
  {
    if u !in needs {
      forall p | |p| >= 2 && IsChain(needs, p) ensures p[0] in needs {
        assert 0 < |p| - 1;
      }
    } else {
      var next := path + {u};
      forall ing | ing in needs[u] && ing in items
        ensures Visit(needs, items, ing, next) == Resolved(AllRequiredUnlocked(needs, items, ing))
      {
        VisitMeaning(needs, items, ing, next);
      }
      var b := Visit(needs, items, u, path).ok;
      if b {
        forall p | |p| >= 2 && p[0] == u && IsChain(needs, p) ensures p[|p| - 1] in items {
          assert p[1] in needs[u];
          if |p| > 2 {
            ChainTail(needs, p);
            assert AllRequiredUnlocked(needs, items, p[1]);
            assert p[1..][|p[1..]| - 1] == p[|p| - 1];
          }
        }
      } else {
        var ing :| ing in needs[u] && !(ing in items && Visit(needs, items, ing, next) == Resolved(true));
        if ing !in items {
          var p := [u, ing];
          assert IsChain(needs, p);
        } else {
          assert !AllRequiredUnlocked(needs, items, ing);
          var q :| |q| >= 2 && q[0] == ing && IsChain(needs, q) && q[|q| - 1] !in items;
          ChainCons(needs, u, q);
          var p := [u] + q;
          assert p[|p| - 1] == q[|q| - 1];
        }
      }
    }
  }

  /** A reported cycle is a real one: some chain from `u` returns to `path` or to itself. */
  lemma {:induction false} VisitCyclicSound(needs: Recipes, items: set<string>, u: string, path: set<string>)
    requires needs.Keys <= items && path <= items
    requires Visit(needs, items, u, path) == Cyclic
    ensures exists p :: |p| >= 1 && p[0] == u && IsChain(needs, p)
                        && (p[|p| - 1] in path || p[|p| - 1] in p[..|p| - 1])
    decreases items - path
  {
    if u in path {
      assert [u][0] == u && IsChain(needs, [u]);
    } else {
      var ing :| ing in needs[u] && ing in items && Visit(needs, items, ing, path + {u}) == Cyclic;
      VisitCyclicSound(needs, items, ing, path + {u});
      var q :| |q| >= 1 && q[0] == ing && IsChain(needs, q)
               && (q[|q| - 1] in path + {u} || q[|q| - 1] in q[..|q| - 1]);
      ChainCons(needs, u, q);
      var p := [u] + q;
      assert p[|p| - 1] == q[|q| - 1];
      assert p[..|p| - 1] == [u] + q[..|q| - 1];
      assert p[0] == u;
    }
  }

  /** Every chain of unlocked requirements that comes back to `path` or to itself is reported. */
  lemma {:induction false} VisitCyclicComplete(needs: Recipes, items: set<string>, p: seq<string>, path: set<string>)
    requires needs.Keys <= items && path <= needs.Keys
    requires |p| >= 1 && IsChain(needs, p)
    requires p[|p| - 1] in path || p[|p| - 1] in p[..|p| - 1]
    ensures Visit(needs, items, p[0], path) == Cyclic
    decreases |p|
  {
    var u := p[0];
    if u !in path {
      assert |p| >= 2;
      assert u in needs;
      var ing := p[1];
      var q := p[1..];
      ChainTail(needs, p);
      assert q[|q| - 1] == p[|p| - 1];
      assert p[..|p| - 1] == [u] + q[..|q| - 1];
      assert ing in items by {
        if |p| > 2 {
          assert ing in needs;
        }
      }
      VisitCyclicComplete(needs, items, q, path + {u});
    }
  }

  /** The closure check reports a cycle exactly when one is reachable from the good. */
  lemma ClosureCyclicIff(needs: Recipes, items: set<string>, u: string)
    requires needs.Keys <= items
    ensures ClosureOk(needs, items, u) == Cyclic <==> ReachesCycle(needs, u)
  {
    if ClosureOk(needs, items, u) == Cyclic {
      VisitCyclicSound(needs, items, u, {});
      var p :| |p| >= 1 && p[0] == u && IsChain(needs, p) && p[|p| - 1] in p[..|p| - 1];
    }
    if ReachesCycle(needs, u) {
      var p :| |p| >= 2 && p[0] == u && IsChain(needs, p) && p[|p| - 1] in p[..|p| - 1];
      VisitCyclicComplete(needs, items, p, {});
    }
  }

  /**
    Without a reachable cycle, `closure_ok(u)` holds exactly when every good `u`
    requires at any depth is unlocked; in particular a good with no
    ingredients passes.
  */
  lemma ClosureMeaning(needs: Recipes, items: set<string>, u: string)
    requires needs.Keys <= items
    requires !ReachesCycle(needs, u)
    ensures ClosureOk(needs, items, u) == Resolved(AllRequiredUnlocked(needs, items, u))
    ensures (u !in needs || needs[u] == map[]) ==> ClosureOk(needs, items, u) == Resolved(true)
  {
    ClosureCyclicIff(needs, items, u);
    VisitMeaning(needs, items, u, {});
  }

  // ---------------------------------------------------------------------------
  // finals
  // ---------------------------------------------------------------------------

  /** The run stops on a cyclic recipe graph instead of recursing without end. */
  datatype RecipeError = CyclicRecipe

  /** `finals = {i for i in finals_raw if closure_ok(i)}`, failing when a check meets a cycle. */
  function Finals(needs: Recipes, items: set<string>, raw: set<string>): (r: Result<set<string>, RecipeError>)
    requires needs.Keys <= items
    ensures r.Success? ==> r.value <= raw
  {
    if exists u :: u in raw && ClosureOk(needs, items, u) == Cyclic then Failure(CyclicRecipe)
    else Success(set u | u in raw && ClosureOk(needs, items, u) == Resolved(true))
  }

  /**
    The producible finals are the raw finals whose whole ingredient tree is
    unlocked; the computation fails exactly when some raw final reaches a cycle.
  */
  lemma FinalsMeaning(needs: Recipes, items: set<string>, raw: set<string>)
    requires needs.Keys <= items
    ensures Finals(needs, items, raw).Failure? <==> exists u :: u in raw && ReachesCycle(needs, u)
    ensures Finals(needs, items, raw).Success? ==>
      && Finals(needs, items, raw).value <= raw
      && forall u :: u in Finals(needs, items, raw).value <==> u in raw && AllRequiredUnlocked(needs, items, u)
  {
    forall u | u in raw ensures ClosureOk(needs, items, u) == Cyclic <==> ReachesCycle(needs, u) {
      ClosureCyclicIff(needs, items, u);
    }
    if Finals(needs, items, raw).Success? {
      forall u | u in raw ensures ClosureOk(needs, items, u) == Resolved(AllRequiredUnlocked(needs, items, u)) {
        ClosureMeaning(needs, items, u);
      }
    }
  }

  /** A good that needs a locked ingredient at any depth is not among the finals. */
  lemma MissingIngredientExcluded(needs: Recipes, items: set<string>, raw: set<string>, p: seq<string>)
    requires needs.Keys <= items
    requires |p| >= 2 && IsChain(needs, p) && p[|p| - 1] !in items
    requires Finals(needs, items, raw).Success?
    ensures p[0] !in Finals(needs, items, raw).value
  {
    FinalsMeaning(needs, items, raw);
  }
}
