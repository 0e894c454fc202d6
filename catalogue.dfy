/**
  The cleaned goods table and the lookups `optimize_plan_notebook` makes in it:
  the unlock filter, `items_set`, the per-key dictionaries (`xp`, `tmin`,
  `needs_map`, `yield_map`, `machine_map`, `type_map`) and the "first row with
  this key" lookups done through pandas boolean indexing.
*/
module Catalogue {
  import opened Wrappers
  import Normalize

  /** One row of the goods table; `needs` is the already-parsed `needs_norm` column. */
  datatype Good = Good(
    name: string,              // Name, the display name
    key: string,               // name_norm
    level: int,                // Level_num
    xp: real,                  // XP
    timeMin: real,             // time_min, minutes per batch
    yieldQty: real,            // Yield_qty, units per batch
    building: string,          // Building
    productionType: string,    // Production_Type
    source: string,            // Source ("" when the column is absent)
    needs: map<string, real>)  // needs_norm: ingredient key -> quantity per batch

  type Table = seq<Good>

  /**
    Display names and keys are in one-to-one correspondence: every row's key is
    the normalised display name, and rows that share a key share a name.
  */
  predicate WellFormed(df: Table) {
    && (forall i :: 0 <= i < |df| ==> Normalize.NormText(df[i].name) == df[i].key)
    && (forall i, j :: 0 <= i < |df| && 0 <= j < |df| && df[i].key == df[j].key ==> df[i].name == df[j].name)
  }

  /** `df_cleaned[df_cleaned["Level_num"] <= player_level]`: the rows unlocked at this level, in table order. */
  function Unlocked(df: Table, level: int): (av: Table)
    ensures |av| <= |df|
    ensures forall g :: g in av <==> g in df && g.level <= level
  {
    if df == [] then []
    else
      var head := if df[0].level <= level then [df[0]] else [];
      head + Unlocked(df[1..], level)
  }

  /**
    The mask keeps table order and duplicates: filtering a concatenation is
    concatenating the filtered parts, and a single row is kept exactly when it
    is unlocked.
  */
  lemma {:induction false} UnlockedKeepsOrder(a: Table, b: Table, level: int)
    ensures Unlocked(a + b, level) == Unlocked(a, level) + Unlocked(b, level)
    ensures forall g :: Unlocked([g], level) == if g.level <= level then [g] else []
    decreases |a|
  {
    if a == [] {
      assert a + b == b;
    } else {
      var head := if a[0].level <= level then [a[0]] else [];
      var tail := a[1..];
      assert Unlocked(a + b, level) == head + Unlocked(tail + b, level) by {
        assert (a + b)[0] == a[0] && (a + b)[1..] == tail + b;
      }
      assert Unlocked(a, level) == head + Unlocked(tail, level);
      UnlockedKeepsOrder(tail, b, level);
      Associative(head, Unlocked(tail, level), Unlocked(b, level));
    }
    forall g ensures Unlocked([g], level) == if g.level <= level then [g] else [] {
      assert [g][1..] == [];
    }
  }

  lemma Associative(x: Table, y: Table, z: Table)
    ensures x + (y + z) == (x + y) + z
  {
  }

  /** `set(av["name_norm"])`, the keys of the rows. */
  function Keys(av: Table): set<string> {
    set i | 0 <= i < |av| :: av[i].key
  }

  /** `set(av["Name"])`, the display names of the rows. */
  function Names(av: Table): set<string> {
    set i | 0 <= i < |av| :: av[i].name
  }

  /** `{r["Building"] for _, r in av.iterrows()}`. */
  function Buildings(av: Table): set<string> {
    set i | 0 <= i < |av| :: av[i].building
  }

  /**
    A dict comprehension keyed by `name_norm` over the rows: every key maps to a
    row of the table with that key, the last such row winning.
  */
  function ByKey(av: Table): (m: map<string, Good>)
    ensures m.Keys == Keys(av)
    ensures forall k :: k in m ==> m[k] in av && m[k].key == k
  {
    if av == [] then map[]
    else
      var init := av[..|av| - 1];
      var last := av[|av| - 1];
      assert Keys(av) == Keys(init) + {last.key} by {
        assert forall i :: 0 <= i < |init| ==> init[i] == av[i];
      }
      ByKey(init)[last.key := last]
  }

  /** Row `i` is the first row of `t` with key `k`. */
  predicate IsFirstWithKey(t: Table, i: int, k: string) {
    0 <= i < |t| && t[i].key == k && forall j :: 0 <= j < i ==> t[j].key != k
  }

  /** Row `i` is the last row of `av` with key `k`. */
  predicate IsLastWithKey(av: Table, i: int, k: string) {
    0 <= i < |av| && av[i].key == k && forall j :: i < j < |av| ==> av[j].key != k
  }

  /** In `ByKey` the last row with a key wins, as in a dict comprehension. */
  lemma {:induction false} ByKeyLastWins(av: Table, k: string)
    requires k in ByKey(av)
    ensures exists i :: IsLastWithKey(av, i, k) && av[i] == ByKey(av)[k]
    decreases |av|
  {
    var init := av[..|av| - 1];
    var last := av[|av| - 1];
    if k == last.key {
      assert ByKey(av)[k] == last;
      assert IsLastWithKey(av, |av| - 1, k);
    } else {
      assert ByKey(av)[k] == ByKey(init)[k];
      ByKeyLastWins(init, k);
      var i :| IsLastWithKey(init, i, k) && init[i] == ByKey(init)[k];
      LastWithKeyExtends(av, i, k);
    }
  }

  /** The last row with key `k` before a final row with another key is still the last one. */
  lemma LastWithKeyExtends(av: Table, i: int, k: string)
    requires av != [] && av[|av| - 1].key != k
    requires IsLastWithKey(av[..|av| - 1], i, k)
    ensures IsLastWithKey(av, i, k) && av[i] == av[..|av| - 1][i]
  {
    var init := av[..|av| - 1];
    assert forall j :: i <= j < |init| ==> av[j] == init[j];
  }

  /** `t[t['name_norm'] == k].iloc[0]`: the first row with key `k`, if any. */
  function FirstWithKey(t: Table, k: string): (r: Option<Good>)
    ensures r.Some? <==> k in Keys(t)
    ensures r.Some? ==> r.value in t && r.value.key == k
  {
    if t == [] then None
    else if t[0].key == k then Some(t[0])
    else
      var r := FirstWithKey(t[1..], k);
      assert Keys(t) == {t[0].key} + Keys(t[1..]) by {
        assert forall i :: 1 <= i < |t| ==> t[i] == t[1..][i - 1];
      }
      r
  }

  /** `.iloc[0]` is the first row with the key: no earlier row has it. */
  lemma {:induction false} FirstWithKeyIsFirst(t: Table, k: string)
    requires k in Keys(t)
    ensures exists i :: IsFirstWithKey(t, i, k) && t[i] == FirstWithKey(t, k).value
    decreases |t|
  {
    if t[0].key == k {
      assert IsFirstWithKey(t, 0, k);
    } else {
      assert Keys(t) == {t[0].key} + Keys(t[1..]) by {
        assert forall i :: 1 <= i < |t| ==> t[i] == t[1..][i - 1];
      }
      FirstWithKeyIsFirst(t[1..], k);
      var i :| IsFirstWithKey(t[1..], i, k) && t[1..][i] == FirstWithKey(t[1..], k).value;
      assert forall j :: 1 <= j < i + 1 ==> t[j] == t[1..][j - 1];
      assert IsFirstWithKey(t, i + 1, k) && t[i + 1] == FirstWithKey(t, k).value;
    }
  }

  /** The dictionaries built from the unlocked rows (app/app.py:145-151), all keyed by `items`. */
  datatype Maps = Maps(
    items: set<string>,
    xp: map<string, real>,
    tmin: map<string, real>,
    needs: map<string, map<string, real>>,
    yieldQty: map<string, real>,
    machine: map<string, string>,
    productionType: map<string, string>)
  {
    predicate Valid() {
      && xp.Keys == items && tmin.Keys == items && needs.Keys == items
      && yieldQty.Keys == items && machine.Keys == items && productionType.Keys == items
    }
  }

  /** Every dictionary takes, for each key, the fields of one unlocked row with that key. */
  function MapsOf(av: Table): (m: Maps)
    ensures m.Valid() && m.items == Keys(av)
    ensures forall k :: k in m.items ==> exists i :: 0 <= i < |av| && av[i].key == k && RowAgrees(m, k, av[i])
  {
    var rows := ByKey(av);
    var m := Maps(
      rows.Keys,
      map k | k in rows :: rows[k].xp,
      map k | k in rows :: rows[k].timeMin,
      NeedsOf(rows),
      map k | k in rows :: rows[k].yieldQty,
      map k | k in rows :: rows[k].building,
      map k | k in rows :: rows[k].productionType);
    assert forall k :: k in m.items ==> rows[k] in av && RowAgrees(m, k, rows[k]);
    m
  }

  /**
    Each dictionary takes its entry for a key from the last unlocked row with
    that key, as the comprehensions at app/app.py:146-151 do.
  */
  lemma MapsOfLastRow(av: Table, k: string)
    requires k in MapsOf(av).items
    ensures exists i :: IsLastWithKey(av, i, k) && RowAgrees(MapsOf(av), k, av[i])
  {
    var m := MapsOf(av);
    ByKeyLastWins(av, k);
    var i :| IsLastWithKey(av, i, k) && av[i] == ByKey(av)[k];
    assert RowAgrees(m, k, av[i]);
  }

  /** `needs_map`: the parsed needs of each key's row. */
  function NeedsOf(rows: map<string, Good>): (r: map<string, map<string, real>>)
    ensures r.Keys == rows.Keys
    ensures forall k :: k in rows ==> r[k] == rows[k].needs
  {
    map k | k in rows :: rows[k].needs
  }

  /** The entries for key `k` are the fields of row `g`. */
  predicate RowAgrees(m: Maps, k: string, g: Good)
    requires m.Valid() && k in m.items
  {
    && m.xp[k] == g.xp && m.tmin[k] == g.timeMin && m.needs[k] == g.needs
    && m.yieldQty[k] == g.yieldQty && m.machine[k] == g.building && m.productionType[k] == g.productionType
  }

  /** Under `WellFormed`, the first row with a key carries the display name of every row with that key. */
  lemma FirstNameOfKey(df: Table, i: nat)
    requires WellFormed(df) && i < |df|
    ensures FirstWithKey(df, df[i].key).Some?
    ensures FirstWithKey(df, df[i].key).value.name == df[i].name
  {
    assert df[i].key in Keys(df);
    var g := FirstWithKey(df, df[i].key).value;
    var j :| 0 <= j < |df| && df[j] == g;
  }
}
