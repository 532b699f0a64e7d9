/**
 Totals over the two shapes the contract sums: a map of amounts, and the
 balances of the projects named by an ID sequence.
 */
module Sums {
  import opened Options
  import opened SplitTypes
  import opened ProjectIndex

  // ---------- maps of amounts ----------

  ghost function MapTotal<K(!new)>(m: map<K, int>): int {
    if m == map[] then 0
    else var k :| k in m; m[k] + MapTotal(m - {k})
  }

  /** The total does not depend on the order the entries are taken in. */
  lemma {:induction false} TakeOut<K(!new)>(m: map<K, int>, k: K)
    requires k in m
    ensures MapTotal(m) == m[k] + MapTotal(m - {k})
    decreases |m|
  {
    var j :| j in m && MapTotal(m) == m[j] + MapTotal(m - {j});
    if j != k {
      TakeOut(m - {j}, k);
      TakeOut(m - {k}, j);
      assert m - {j} - {k} == m - {k} - {j};
    }
  }

  lemma MapTotalUpdate<K(!new)>(m: map<K, int>, k: K, v: int)
    ensures MapTotal(m[k := v]) == MapTotal(m) + v - (if k in m then m[k] else 0)
  {
    TakeOut(m[k := v], k);
    assert m[k := v] - {k} == m - {k};
    if k in m {
      TakeOut(m, k);
    } else {
      assert m - {k} == m;
    }
  }

  lemma {:induction false} MapTotalNonNegative<K(!new)>(m: map<K, int>)
    requires forall k :: k in m ==> m[k] >= 0
    ensures MapTotal(m) >= 0
    ensures forall k :: k in m ==> m[k] <= MapTotal(m)
    decreases |m|
  {
    forall k | k in m ensures 0 <= m[k] <= MapTotal(m) {
      TakeOut(m, k);
      MapTotalNonNegative(m - {k});
    }
  }

  // ---------- claimed ledger of one project ----------

  function ClaimedFor(claimed: map<(Symbol, Address), int>, id: Symbol): map<(Symbol, Address), int> {
    map k | k in claimed && k.0 == id :: claimed[k]
  }

  ghost function ClaimedTotal(claimed: map<(Symbol, Address), int>, id: Symbol): int {
    MapTotal(ClaimedFor(claimed, id))
  }

  function ClaimedBy(claimed: map<(Symbol, Address), int>, id: Symbol, who: Address): int {
    if (id, who) in claimed then claimed[(id, who)] else 0
  }

  lemma ClaimedUpdate(claimed: map<(Symbol, Address), int>, id: Symbol, who: Address, v: int, other: Symbol)
    ensures var after := claimed[(id, who) := v];
            ClaimedTotal(after, other) ==
            ClaimedTotal(claimed, other) + if other == id then v - ClaimedBy(claimed, id, who) else 0
  {
    var after := claimed[(id, who) := v];
    if other == id {
      MapTotalUpdate(ClaimedFor(claimed, id), (id, who), v);
      assert ClaimedFor(after, id) == ClaimedFor(claimed, id)[(id, who) := v];
    } else {
      assert ClaimedFor(after, other) == ClaimedFor(claimed, other);
    }
  }

  // ---------- project balances of one token ----------

  function BalanceOf(balances: map<Symbol, int>, id: Symbol): int {
    if id in balances then balances[id] else 0
  }

  function Credit(projects: map<Symbol, SplitProject>, balances: map<Symbol, int>, token: Address, id: Symbol): int {
    if id in projects && projects[id].token == token then BalanceOf(balances, id) else 0
  }

  function BalanceTotal(ids: seq<Symbol>, projects: map<Symbol, SplitProject>, balances: map<Symbol, int>, token: Address): int
  {
    if ids == [] then 0
    else BalanceTotal(ids[..|ids| - 1], projects, balances, token) + Credit(projects, balances, token, ids[|ids| - 1])
  }

  /** `sum_project_balances_for_token`: `None` when a checked addition overflows. */
  function CheckedTotal(ids: seq<Symbol>, projects: map<Symbol, SplitProject>, balances: map<Symbol, int>, token: Address): Option<int>
  {
    if ids == [] then Some(0)
    else
      var before := CheckedTotal(ids[..|ids| - 1], projects, balances, token);
      if before.None? then None
      else
        var total := before.value + Credit(projects, balances, token, ids[|ids| - 1]);
        if FitsI128(total) then Some(total) else None
  }

  /** Once a prefix overflows, the whole sum has failed. */
  lemma {:induction false} OverflowSticks(ids: seq<Symbol>, k: nat, projects: map<Symbol, SplitProject>, balances: map<Symbol, int>, token: Address)
    requires k <= |ids| && CheckedTotal(ids[..k], projects, balances, token).None?
    ensures CheckedTotal(ids, projects, balances, token).None?
    decreases |ids|
  {
    if k < |ids| {
      assert ids[..|ids| - 1][..k] == ids[..k];
      OverflowSticks(ids[..|ids| - 1], k, projects, balances, token);
    } else {
      assert ids[..k] == ids;
    }
  }

  ghost predicate NonNegative(balances: map<Symbol, int>) {
    forall id :: id in balances ==> balances[id] >= 0
  }

  lemma {:induction false} BalanceTotalBounds(ids: seq<Symbol>, projects: map<Symbol, SplitProject>, balances: map<Symbol, int>, token: Address)
    requires NonNegative(balances)
    ensures BalanceTotal(ids, projects, balances, token) >= 0
    ensures forall id :: id in ids ==> Credit(projects, balances, token, id) <= BalanceTotal(ids, projects, balances, token)
    ensures BalanceTotal(ids, projects, balances, token) <= I128_MAX ==>
      CheckedTotal(ids, projects, balances, token) == Some(BalanceTotal(ids, projects, balances, token))
    decreases |ids|
  {
    if ids != [] {
      var init, last := ids[..|ids| - 1], ids[|ids| - 1];
      BalanceTotalBounds(init, projects, balances, token);
      assert ids == init + [last];
    }
  }

  lemma DistinctInit<T>(ids: seq<T>)
    requires ids != [] && Distinct(ids)
    ensures Distinct(ids[..|ids| - 1])
    ensures forall x :: x in ids[..|ids| - 1] <==> x in ids && x != ids[|ids| - 1]
  {
    var init, last := ids[..|ids| - 1], ids[|ids| - 1];
    assert ids == init + [last];
    forall x | x in init ensures x != last {
      var i :| 0 <= i < |init| && init[i] == x;
      assert ids[i] != ids[|ids| - 1];
    }
  }

  /** Two stores that give every listed project the same credit have the same total. */
  lemma {:induction false} BalanceTotalFrame(ids: seq<Symbol>, p: map<Symbol, SplitProject>, b: map<Symbol, int>,
                                             p': map<Symbol, SplitProject>, b': map<Symbol, int>, token: Address)
    requires forall id :: id in ids ==> Credit(p, b, token, id) == Credit(p', b', token, id)
    ensures BalanceTotal(ids, p, b, token) == BalanceTotal(ids, p', b', token)
    decreases |ids|
  {
    if ids != [] {
      BalanceTotalFrame(ids[..|ids| - 1], p, b, p', b', token);
    }
  }

  /** Changing the credit of one listed project moves the total by exactly that change. */
  lemma {:induction false} BalanceTotalUpdate(ids: seq<Symbol>, p: map<Symbol, SplitProject>, b: map<Symbol, int>,
                                              p': map<Symbol, SplitProject>, b': map<Symbol, int>, token: Address, id: Symbol)
    requires Distinct(ids) && id in ids
    requires forall x :: x in ids && x != id ==> Credit(p, b, token, x) == Credit(p', b', token, x)
    ensures BalanceTotal(ids, p', b', token) ==
            BalanceTotal(ids, p, b, token) + Credit(p', b', token, id) - Credit(p, b, token, id)
    decreases |ids|
  {
    var init, last := ids[..|ids| - 1], ids[|ids| - 1];
    DistinctInit(ids);
    if last == id {
      BalanceTotalFrame(init, p, b, p', b', token);
    } else {
      BalanceTotalUpdate(init, p, b, p', b', token, id);
    }
  }

  /** The balances of the projects that use `token`, as a map: no index involved. */
  ghost function BalancesUsing(projects: map<Symbol, SplitProject>, balances: map<Symbol, int>, token: Address): map<Symbol, int> {
    map id | id in projects && projects[id].token == token :: BalanceOf(balances, id)
  }

  lemma DropProject(projects: map<Symbol, SplitProject>, balances: map<Symbol, int>, token: Address, id: Symbol)
    requires id in projects
    ensures MapTotal(BalancesUsing(projects, balances, token)) ==
            MapTotal(BalancesUsing(projects - {id}, balances, token)) + Credit(projects, balances, token, id)
  {
    var all, rest := BalancesUsing(projects, balances, token), BalancesUsing(projects - {id}, balances, token);
    if projects[id].token == token {
      TakeOut(all, id);
      assert all - {id} == rest;
    } else {
      assert all == rest;
    }
  }

  /** Walking an index that lists every project once totals the balances of all projects using the token. */
  lemma {:induction false} IndexWalkIsMapTotal(ids: seq<Symbol>, projects: map<Symbol, SplitProject>, balances: map<Symbol, int>, token: Address)
    requires Distinct(ids)
    requires forall id :: id in ids <==> id in projects
    ensures BalanceTotal(ids, projects, balances, token) == MapTotal(BalancesUsing(projects, balances, token))
    decreases |ids|
  {
    if ids == [] {
      assert BalancesUsing(projects, balances, token) == map[];
    } else {
      var init, last := ids[..|ids| - 1], ids[|ids| - 1];
      DistinctInit(ids);
      IndexWalkIsMapTotal(init, projects - {last}, balances, token);
      BalanceTotalFrame(init, projects, balances, projects - {last}, balances, token);
      DropProject(projects, balances, token, last);
    }
  }
}
