/**
 Largest-remainder allocation of an amount across integer weights.
 `FairAllocation` is the reference: it names no loop and no sort, and it fixes
 the result.
 */
module ProRata {
  import opened Arithmetic
  import opened DecimalAmounts

  datatype Share = Share(key: string, weight: int)

  datatype Allocation = Allocation(key: string, amount: string, units: int)

  // ---------- sums ----------

  function Total(s: seq<int>): int {
    if s == [] then 0 else Total(s[..|s| - 1]) + s[|s| - 1]
  }

  lemma {:induction false} TotalUpdate(s: seq<int>, i: nat, v: int)
    requires i < |s|
    ensures Total(s[i := v]) == Total(s) + v - s[i]
  {
    var init := s[..|s| - 1];
    if i == |s| - 1 {
      assert s[i := v][..|s| - 1] == init;
    } else {
      TotalUpdate(init, i, v);
      assert s[i := v][..|s| - 1] == init[i := v];
    }
  }

  lemma {:induction false} TotalLess(s: seq<int>, t: seq<int>)
    requires |s| == |t| && forall k :: 0 <= k < |s| ==> s[k] <= t[k]
    ensures Total(s) <= Total(t)
    ensures (exists k :: 0 <= k < |s| && s[k] < t[k]) ==> Total(s) < Total(t)
  {
    if s != [] {
      var n := |s|;
      TotalLess(s[..n - 1], t[..n - 1]);
      if k :| 0 <= k < n && s[k] < t[k] {
        assert k < n - 1 ==> s[..n - 1][k] < t[..n - 1][k];
      }
    }
  }

  /** Sums are linear: `a * s[k] + b * t[k]` totals `a * Total(s) + b * Total(t)`. */
  lemma {:induction false} TotalLinear(r: seq<int>, a: int, s: seq<int>, b: int, t: seq<int>)
    requires |r| == |s| == |t| && forall k :: 0 <= k < |r| ==> r[k] == a * s[k] + b * t[k]
    ensures Total(r) == a * Total(s) + b * Total(t)
  {
    if r != [] {
      var n := |r| - 1;
      TotalLinear(r[..n], a, s[..n], b, t[..n]);
      Distributes(a, Total(s[..n]), s[n]);
      Distributes(b, Total(t[..n]), t[n]);
    }
  }

  function NonZero(s: seq<int>): nat {
    if s == [] then 0 else NonZero(s[..|s| - 1]) + if s[|s| - 1] != 0 then 1 else 0
  }

  lemma {:induction false} TotalBelowCount(s: seq<int>, bound: int)
    requires forall k :: 0 <= k < |s| ==> 0 <= s[k] < bound
    ensures 0 <= Total(s) <= NonZero(s) * (bound - 1)
    ensures NonZero(s) <= |s|
  {
    if s != [] {
      TotalBelowCount(s[..|s| - 1], bound);
      var c, m := NonZero(s[..|s| - 1]), bound - 1;
      assert (c + 1) * m == c * m + m;
    }
  }

  // ---------- the exact shares ----------

  function FloorUnits(total: nat, weight: nat, sum: nat): int
    requires sum > 0
  {
    Quotient(total * weight, sum)
  }

  function RestUnits(total: nat, weight: nat, sum: nat): int
    requires sum > 0
  {
    total * weight - FloorUnits(total, weight, sum) * sum
  }

  predicate Weights(w: seq<int>) {
    forall k :: 0 <= k < |w| ==> w[k] >= 0
  }

  lemma FloorFacts(total: nat, weight: nat, sum: nat)
    requires sum > 0
    ensures FloorUnits(total, weight, sum) >= 0 && 0 <= RestUnits(total, weight, sum) < sum
    ensures weight == 0 ==> FloorUnits(total, weight, sum) == 0 && RestUnits(total, weight, sum) == 0
  {
    NonNegativeProduct(total, weight);
    Division(total * weight, sum);
  }

  /** Larger remainder first, input order on ties. */
  predicate Before(rests: seq<int>, a: int, b: int)
    requires 0 <= a < |rests| && 0 <= b < |rests|
  {
    rests[a] > rests[b] || (rests[a] == rests[b] && a < b)
  }

  ghost function Rests(total: nat, w: seq<int>): seq<int>
    requires Weights(w) && Total(w) > 0
  {
    seq(|w|, k requires 0 <= k < |w| => RestUnits(total, w[k], Total(w)))
  }

  /**
   Units add up to the total, everyone gets the floor of their exact share or one
   more, and the extra units go to those who come first by remainder.
   */
  ghost predicate FairAllocation(total: nat, w: seq<int>, units: seq<int>)
    requires Weights(w) && Total(w) > 0
  {
    && |units| == |w|
    && Total(units) == total
    && (forall k :: 0 <= k < |w| ==> FloorUnits(total, w[k], Total(w)) <= units[k] <= FloorUnits(total, w[k], Total(w)) + 1)
    && (forall i, j :: 0 <= i < |w| && 0 <= j < |w| && Extra(total, w, units, j) && !Extra(total, w, units, i) ==>
          Before(Rests(total, w), j, i))
  }

  ghost predicate Extra(total: nat, w: seq<int>, units: seq<int>, k: nat)
    requires Weights(w) && Total(w) > 0 && k < |w| == |units|
  {
    units[k] == FloorUnits(total, w[k], Total(w)) + 1
  }

  // ---------- consequences of fairness ----------

  /** What is left of the exact share above `units` whole units, times the sum of the weights. */
  function LeftAbove(total: int, weight: int, sum: int, units: int): int {
    total * weight - units * sum
  }

  /**
   Fairness with no quotient in it: nobody is a whole unit off, and of someone
   rounded up and someone not, the first lost the larger remainder, or the same
   one and stands earlier in the input.
   */
  lemma FairInPlainTerms(total: nat, w: seq<int>, units: seq<int>, i: nat, j: nat)
    requires Weights(w) && Total(w) > 0 && FairAllocation(total, w, units) && i < |w| && j < |w|
    ensures |units| == |w| && Total(units) == total
    ensures -Total(w) < LeftAbove(total, w[i], Total(w), units[i]) < Total(w)
    ensures LeftAbove(total, w[j], Total(w), units[j]) < 0 <= LeftAbove(total, w[i], Total(w), units[i]) ==>
      var up, down := LeftAbove(total, w[j], Total(w), units[j] - 1), LeftAbove(total, w[i], Total(w), units[i]);
      up > down || (up == down && j < i)
  {
    hide FloorUnits, RestUnits, Total, LeftAbove;
    var sum := Total(w);
    assert Rests(total, w)[i] == RestUnits(total, w[i], sum) && Rests(total, w)[j] == RestUnits(total, w[j], sum);
    ExtraIsNegative(total, w[i], sum, units[i]);
    if RestUnits(total, w[i], sum) == 0 {
      WholeShareGetsNoExtra(total, w, units, i);
    }
    ExtraIsNegative(total, w[j], sum, units[j]);
    if LeftAbove(total, w[j], sum, units[j]) < 0 <= LeftAbove(total, w[i], sum, units[i]) {
      assert Extra(total, w, units, j) && !Extra(total, w, units, i);
      assert Before(Rests(total, w), j, i);
    }
  }

  lemma ExtraIsNegative(total: nat, weight: nat, sum: nat, units: int)
    requires sum > 0 && FloorUnits(total, weight, sum) <= units <= FloorUnits(total, weight, sum) + 1
    ensures LeftAbove(total, weight, sum, units) ==
            RestUnits(total, weight, sum) - if units == FloorUnits(total, weight, sum) then 0 else sum
    ensures 0 <= RestUnits(total, weight, sum) < sum
    ensures LeftAbove(total, weight, sum, units) < 0 <==> units == FloorUnits(total, weight, sum) + 1
    ensures var floor := if LeftAbove(total, weight, sum, units) < 0 then units - 1 else units;
            LeftAbove(total, weight, sum, floor) == RestUnits(total, weight, sum)
  {
    hide FloorUnits;
    FloorFacts(total, weight, sum);
    var f := FloorUnits(total, weight, sum);
    Distributes(sum, f, 1);
    Commutes(sum, f);
    Commutes(sum, f + 1);
  }

  function Scale(s: seq<int>, a: int): seq<int> {
    seq(|s|, k requires 0 <= k < |s| => s[k] * a)
  }

  lemma {:induction false} TotalScale(s: seq<int>, a: int)
    ensures Total(Scale(s, a)) == Total(s) * a
  {
    if s != [] {
      var n := |s| - 1;
      TotalScale(s[..n], a);
      assert Scale(s, a)[..n] == Scale(s[..n], a);
      Distributes(a, Total(s[..n]), s[n]);
    }
  }

  /** Someone with a whole exact share and an extra unit: then nobody falls short of what they are due. */
  lemma NoShortfall(total: nat, w: seq<int>, units: seq<int>, i: nat, k: nat)
    requires Weights(w) && Total(w) > 0 && FairAllocation(total, w, units) && i < |w| && k < |w|
    requires RestUnits(total, w[i], Total(w)) == 0 && Extra(total, w, units, i)
    ensures w[k] * total <= units[k] * Total(w) && (k == i ==> w[k] * total < units[k] * Total(w))
  {
    hide FloorUnits, RestUnits, Total;
    assert Rests(total, w)[k] == RestUnits(total, w[k], Total(w)) && Rests(total, w)[i] == 0;
    assert Extra(total, w, units, k) || Before(Rests(total, w), i, k);
    Surplus(total, w[k], Total(w), units[k]);
  }

  /** Nobody whose exact share is whole receives an extra unit. */
  lemma WholeShareGetsNoExtra(total: nat, w: seq<int>, units: seq<int>, i: nat)
    requires Weights(w) && Total(w) > 0 && FairAllocation(total, w, units) && i < |w|
    requires RestUnits(total, w[i], Total(w)) == 0
    ensures units[i] == FloorUnits(total, w[i], Total(w))
  {
    hide FloorUnits, RestUnits, Total, Rests, Before;
    if Extra(total, w, units, i) {
      var got, due := Scale(units, Total(w)), Scale(w, total);
      forall k | 0 <= k < |w| ensures due[k] <= got[k] && (k == i ==> due[k] < got[k]) {
        NoShortfall(total, w, units, i, k);
      }
      assert due[i] < got[i];
      TotalLess(due, got);
      TotalScale(units, Total(w));
      TotalScale(w, total);
      Commutes(total, Total(w));
    }
  }

  lemma Surplus(total: nat, weight: nat, sum: nat, units: int)
    requires sum > 0 && FloorUnits(total, weight, sum) <= units <= FloorUnits(total, weight, sum) + 1
    ensures units == FloorUnits(total, weight, sum) + 1 ==> total * weight < units * sum
    ensures RestUnits(total, weight, sum) <= 0 ==> total * weight <= units * sum
  {
    hide FloorUnits;
    FloorFacts(total, weight, sum);
    Distributes(sum, FloorUnits(total, weight, sum), units - FloorUnits(total, weight, sum));
  }

  /** A share of weight zero receives exactly nothing. */
  lemma ZeroWeightGetsNothing(total: nat, w: seq<int>, units: seq<int>, i: nat)
    requires Weights(w) && Total(w) > 0 && FairAllocation(total, w, units) && i < |w| && w[i] == 0
    ensures units[i] == 0
  {
    hide FloorUnits, RestUnits, FairAllocation;
    FloorFacts(total, w[i], Total(w));
    WholeShareGetsNoExtra(total, w, units, i);
  }

  lemma FloorMonotone(total: nat, a: nat, b: nat, sum: nat)
    requires sum > 0 && a < b
    ensures FloorUnits(total, a, sum) <= FloorUnits(total, b, sum)
    ensures total > 0 && FloorUnits(total, a, sum) == FloorUnits(total, b, sum) ==> RestUnits(total, a, sum) < RestUnits(total, b, sum)
  {
    hide Quotient, Remainder;
    NonNegativeProduct(total, a);
    NonNegativeProduct(total, b);
    Division(total * a, sum);
    Division(total * b, sum);
    Distributes(total, a, b - a);
    NonNegativeProduct(total, b - a);
    if total > 0 {
      NonNegativeProduct(total - 1, b - a);
    }
    var p, q := FloorUnits(total, a, sum), FloorUnits(total, b, sum);
    if q < p {
      NonNegativeProduct(p - q - 1, sum);
    }
  }

  /** A larger weight never receives less. */
  lemma LargerWeightNeverLess(total: nat, w: seq<int>, units: seq<int>, i: nat, j: nat)
    requires Weights(w) && Total(w) > 0 && FairAllocation(total, w, units) && i < |w| && j < |w| && w[i] < w[j]
    ensures units[i] <= units[j]
  {
    hide FloorUnits, RestUnits;
    FloorMonotone(total, w[i], w[j], Total(w));
    if total == 0 {
      FloorOfNothing(w[i], Total(w));
      WholeShareGetsNoExtra(total, w, units, i);
    } else {
      assert Rests(total, w)[i] == RestUnits(total, w[i], Total(w)) && Rests(total, w)[j] == RestUnits(total, w[j], Total(w));
      assert Extra(total, w, units, i) && !Extra(total, w, units, j) ==> Before(Rests(total, w), i, j);
    }
  }

  lemma FloorOfNothing(weight: nat, sum: nat)
    requires sum > 0
    ensures RestUnits(0, weight, sum) == 0
  {
    Division(0, sum);
  }

  /** Fairness fixes the result: there is one fair allocation. */
  lemma FairAllocationUnique(total: nat, w: seq<int>, u: seq<int>, v: seq<int>)
    requires Weights(w) && Total(w) > 0 && FairAllocation(total, w, u) && FairAllocation(total, w, v)
    ensures u == v
  {
    hide FloorUnits, RestUnits;
    if i :| 0 <= i < |w| && u[i] != v[i] {
      if u[i] > v[i] {
        NoOneGainsAlone(total, w, u, v, i);
      } else {
        NoOneGainsAlone(total, w, v, u, i);
      }
    }
  }

  lemma GainIsExtra(total: nat, w: seq<int>, u: seq<int>, v: seq<int>, i: nat)
    requires Weights(w) && Total(w) > 0 && FairAllocation(total, w, u) && FairAllocation(total, w, v) && i < |w|
    ensures |u| == |v| == |w|
    ensures u[i] > v[i] ==> Extra(total, w, u, i) && !Extra(total, w, v, i)
  {
    hide FloorUnits, RestUnits, Total, Before, Rests;
  }

  lemma ExtraPrecedes(total: nat, w: seq<int>, u: seq<int>, i: nat, j: nat)
    requires Weights(w) && Total(w) > 0 && FairAllocation(total, w, u) && i < |w| == |u| && j < |w|
    ensures Extra(total, w, u, i) && !Extra(total, w, u, j) ==> Before(Rests(total, w), i, j)
  {
    hide FloorUnits, RestUnits, Total, Extra, Before;
  }

  lemma BeforeOneWay(rests: seq<int>, i: nat, j: nat)
    requires i < |rests| && j < |rests|
    ensures !(Before(rests, i, j) && Before(rests, j, i))
  {
  }

  lemma NoOneGainsAlone(total: nat, w: seq<int>, u: seq<int>, v: seq<int>, i: nat)
    requires Weights(w) && Total(w) > 0 && FairAllocation(total, w, u) && FairAllocation(total, w, v) && i < |w|
    ensures |u| == |v| == |w| && u[i] <= v[i]
  {
    hide FairAllocation, Extra, Before, Weights;
    FairTotals(total, w, u);
    FairTotals(total, w, v);
    if u[i] > v[i] {
      if forall k :: 0 <= k < |w| ==> v[k] <= u[k] {
        TotalLess(v, u);
      } else {
        var j :| 0 <= j < |w| && v[j] > u[j];
        GainIsExtra(total, w, u, v, i);
        GainIsExtra(total, w, v, u, j);
        ExtraPrecedes(total, w, u, i, j);
        ExtraPrecedes(total, w, v, j, i);
        BeforeOneWay(Rests(total, w), i, j);
      }
    }
  }

  lemma FairTotals(total: nat, w: seq<int>, u: seq<int>)
    requires Weights(w) && Total(w) > 0 && FairAllocation(total, w, u)
    ensures |u| == |w| && Total(u) == total
  {
    hide FloorUnits, RestUnits, Before;
  }

  // ---------- sorting by remainder ----------

  ghost predicate Ordered(order: seq<int>, rests: seq<int>, n: nat) {
    && |order| == n <= |rests|
    && (forall k :: 0 <= k < |order| ==> 0 <= order[k] < n)
    && (forall x :: 0 <= x < n ==> x in order)
    && (forall i, j :: 0 <= i < j < |order| ==> Before(rests, order[i], order[j]))
  }

  /** Puts position `x` in front of the first one it comes before. */
  function Insert(order: seq<int>, rests: seq<int>, x: nat): seq<int>
    requires x < |rests| && forall k :: 0 <= k < |order| ==> 0 <= order[k] < |rests|
  {
    if order == [] then [x]
    else if Before(rests, x, order[0]) then [x] + order
    else [order[0]] + Insert(order[1..], rests, x)
  }

  ghost predicate Descending(order: seq<int>, rests: seq<int>) {
    && (forall k :: 0 <= k < |order| ==> 0 <= order[k] < |rests|)
    && (forall i, j :: 0 <= i < j < |order| ==> Before(rests, order[i], order[j]))
  }

  ghost predicate BeforeAll(rests: seq<int>, x: int, order: seq<int>) {
    0 <= x < |rests| && forall y :: y in order ==> 0 <= y < |rests| && Before(rests, x, y)
  }

  lemma HeadFirst(order: seq<int>, rests: seq<int>)
    requires order != [] && Descending(order, rests)
    ensures Descending(order[1..], rests) && BeforeAll(rests, order[0], order[1..])
  {
  }

  lemma BeforeTheRest(rests: seq<int>, x: nat, order: seq<int>)
    requires order != [] && Descending(order, rests) && x < |rests| && Before(rests, x, order[0])
    ensures BeforeAll(rests, x, order)
  {
    HeadFirst(order, rests);
  }

  lemma InFrontOf(rests: seq<int>, x: nat, order: seq<int>)
    requires Descending(order, rests) && BeforeAll(rests, x, order)
    ensures Descending([x] + order, rests)
  {
    var all := [x] + order;
    forall i, j | 0 <= i < j < |all| ensures Before(rests, all[i], all[j]) {
      assert all[j] == order[j - 1] && all[j] in order;
      assert i > 0 ==> all[i] == order[i - 1];
    }
  }

  lemma {:induction false} InsertFacts(order: seq<int>, rests: seq<int>, x: nat)
    requires x < |rests| && Descending(order, rests) && x !in order
    ensures var r := Insert(order, rests, x);
            && |r| == |order| + 1 && Descending(r, rests)
            && (forall y :: y in r <==> y == x || y in order)
    decreases |order|
  {
    if order != [] {
      HeadFirst(order, rests);
      if Before(rests, x, order[0]) {
        BeforeTheRest(rests, x, order);
        InFrontOf(rests, x, order);
      } else {
        InsertFacts(order[1..], rests, x);
        InFrontOf(rests, order[0], Insert(order[1..], rests, x));
      }
    }
  }

  /** The order that the comparator of the sort fixes. */
  function SortedOrder(rests: seq<int>, n: nat): seq<int>
    requires n <= |rests|
    ensures Ordered(SortedOrder(rests, n), rests, n)
  {
    if n == 0 then []
    else
      var before := SortedOrder(rests, n - 1);
      InsertLast(before, rests, n - 1);
      Insert(before, rests, n - 1)
  }

  lemma InsertLast(order: seq<int>, rests: seq<int>, n: nat)
    requires n < |rests| && Ordered(order, rests, n)
    ensures Ordered(Insert(order, rests, n), rests, n + 1)
  {
    InsertFacts(order, rests, n);
    var r := Insert(order, rests, n);
    forall k | 0 <= k < |r| ensures 0 <= r[k] < n + 1 {
      assert r[k] in r;
    }
  }

  // ---------- allocation ----------

  function WeightsOf(shares: seq<Share>): seq<int> {
    seq(|shares|, k requires 0 <= k < |shares| => shares[k].weight)
  }

  lemma RestLinear(total: nat, weight: nat, sum: int)
    requires sum > 0
    ensures RestUnits(total, weight, sum) == total * weight + -sum * FloorUnits(total, weight, sum)
  {
  }

  /** The leftover after rounding down is smaller than the number of inexact shares. */
  lemma LeftoverSmall(total: nat, w: seq<int>, floors: seq<int>, rests: seq<int>)
    requires Weights(w) && Total(w) > 0 && |floors| == |rests| == |w|
    requires forall k :: 0 <= k < |w| ==> floors[k] == FloorUnits(total, w[k], Total(w)) && rests[k] == RestUnits(total, w[k], Total(w))
    ensures var leftover := total - Total(floors);
            0 <= leftover && (leftover == 0 || leftover < NonZero(rests) <= |w|)
  {
    hide FloorUnits, RestUnits;
    var sum, leftover := Total(w), total - Total(floors);
    forall k | 0 <= k < |w| ensures 0 <= rests[k] < sum && rests[k] == total * w[k] + -sum * floors[k] {
      FloorFacts(total, w[k], sum);
      RestLinear(total, w[k], sum);
    }
    TotalLinear(rests, total, w, -sum, floors);
    TotalBelowCount(rests, sum);
    LeftoverArithmetic(total, Total(floors), sum, Total(rests), NonZero(rests));
  }

  lemma LeftoverArithmetic(total: int, given: int, sum: int, rest: int, count: int)
    requires sum > 0 && rest == total * sum + -sum * given && 0 <= rest <= count * (sum - 1) && count >= 0
    ensures given <= total && (given == total || total - given < count)
  {
    var leftover := total - given;
    assert rest == leftover * sum;
    Distributes(count, sum, -1);
    if leftover < 0 {
      NonNegativeProduct(-leftover - 1, sum);
    } else if leftover >= count && leftover > 0 {
      Distributes(sum, leftover - count, count);
      NonNegativeProduct(leftover - count, sum);
    }
  }

  /** Handing one more unit to each of the first `given` positions of the order. */
  ghost predicate HandedOut(units: seq<int>, floors: seq<int>, order: seq<int>, given: nat)
    requires |units| == |floors| == |order| && given <= |order|
    requires forall k :: 0 <= k < |order| ==> 0 <= order[k] < |floors|
  {
    && (forall m :: 0 <= m < given ==> units[order[m]] == floors[order[m]] + 1)
    && (forall m :: given <= m < |order| ==> units[order[m]] == floors[order[m]])
  }

  lemma HandOne(units: seq<int>, floors: seq<int>, order: seq<int>, rests: seq<int>, given: nat)
    requires |units| == |floors| == |order| == |rests| && given < |order| && Ordered(order, rests, |rests|)
    requires forall k :: 0 <= k < |order| ==> 0 <= order[k] < |floors|
    requires HandedOut(units, floors, order, given)
    ensures HandedOut(units[order[given] := units[order[given]] + 1], floors, order, given + 1)
  {
    forall m | 0 <= m < |order| && m != given ensures order[m] != order[given] {
      assert m < given ==> Before(rests, order[m], order[given]);
      assert given < m ==> Before(rests, order[given], order[m]);
    }
  }

  /** Handing out the whole leftover in that order is fair. */
  lemma HandedOutIsFair(total: nat, w: seq<int>, floors: seq<int>, rests: seq<int>, order: seq<int>, units: seq<int>, given: nat)
    requires Weights(w) && Total(w) > 0 && |floors| == |rests| == |w| == |order| == |units| && given <= |w|
    requires forall k :: 0 <= k < |w| ==> floors[k] == FloorUnits(total, w[k], Total(w)) && rests[k] == RestUnits(total, w[k], Total(w))
    requires Ordered(order, rests, |rests|) && (forall k :: 0 <= k < |order| ==> 0 <= order[k] < |floors|)
    requires HandedOut(units, floors, order, given) && Total(units) == total
    ensures FairAllocation(total, w, units)
  {
    hide FloorUnits, RestUnits;
    assert rests == Rests(total, w);
    forall i, j | 0 <= i < |w| && 0 <= j < |w| && Extra(total, w, units, j) && !Extra(total, w, units, i)
      ensures Before(rests, j, i)
    {
      assert i in order && j in order;
      var a :| 0 <= a < |order| && order[a] == i;
      var b :| 0 <= b < |order| && order[b] == j;
      assert b < given <= a;
    }
    forall k | 0 <= k < |w| ensures floors[k] <= units[k] <= floors[k] + 1 {
      assert k in order;
      var m :| 0 <= m < |order| && order[m] == k;
    }
  }

  lemma {:induction false} UnitsWithinTotal(units: seq<int>, k: nat)
    requires k < |units| && forall i :: 0 <= i < |units| ==> units[i] >= 0
    ensures 0 <= units[k] <= Total(units)
  {
    var n := |units| - 1;
    if k < n {
      UnitsWithinTotal(units[..n], k);
    } else {
      TotalLess(seq(n, _ => 0), units[..n]);
      TotalZeros(n);
    }
  }

  lemma {:induction false} TotalZeros(n: nat)
    ensures Total(seq(n, _ => 0)) == 0
  {
    if n > 0 {
      TotalZeros(n - 1);
      assert seq(n, _ => 0)[..n - 1] == seq(n - 1, _ => 0);
    }
  }

  /** What the inputs must be for an allocation to exist. */
  predicate Allocatable(total: string, w: seq<int>) {
    && ToUnits(total).Ok? && Weights(w)
    && (Total(w) == 0 ==> ToUnits(total).value == 0)
  }

  lemma FairAmounts(total: nat, w: seq<int>, units: seq<int>)
    requires Weights(w) && Total(w) > 0 && FairAllocation(total, w, units)
    ensures |units| == |w| && Total(units) == total
    ensures forall k :: 0 <= k < |units| ==> 0 <= units[k] <= total
  {
    hide FloorUnits;
    forall k | 0 <= k < |units| ensures units[k] >= 0 {
      FloorFacts(total, w[k], Total(w));
    }
    forall k | 0 <= k < |units| ensures 0 <= units[k] <= total {
      UnitsWithinTotal(units, k);
    }
  }

  function UnitsOf(allocations: seq<Allocation>): seq<int> {
    seq(|allocations|, k requires 0 <= k < |allocations| => allocations[k].units)
  }

  /** The allocation echoes the keys in order and prints each share's units. */
  predicate Prints(out: seq<Allocation>, shares: seq<Share>, units: seq<int>) {
    |out| == |shares| == |units|
    && forall k :: 0 <= k < |shares| ==>
         out[k].key == shares[k].key && out[k].units == units[k] && Ok(out[k].amount) == FromUnits(units[k])
  }

  /** `allocateProRata`: it succeeds exactly when an allocation exists, and then returns the fair one. */
  method AllocateProRata(total: string, shares: seq<Share>) returns (r: Result<seq<Allocation>>)
    ensures r.Ok? <==> Allocatable(total, WeightsOf(shares))
    ensures r.Ok? ==>
      var units := UnitsOf(r.value);
      && Prints(r.value, shares, units)
      && Total(units) == ToUnits(total).value >= 0
      && (Total(WeightsOf(shares)) > 0 ==> FairAllocation(ToUnits(total).value, WeightsOf(shares), units))
  {
    hide ToUnits, FromUnits, FloorUnits, FairAllocation, Weights;
    var parsed := ToUnits(total);
    if parsed.AmountError? {
      return AmountError;
    }
    AcceptedIff(total);
    var totalUnits, n := parsed.value, |shares|;
    ghost var w := WeightsOf(shares);
    if n == 0 {
      assert Total(w) == 0 && Weights(w) by { NoWeights(w); }
      if totalUnits == 0 {
        return Ok([]);
      }
      return AmountError;
    }
    var valid := CheckWeights(shares);
    if !valid {
      return AmountError;
    }
    var sum := SumWeights(shares);
    if sum == 0 {
      if totalUnits == 0 {
        ZeroPrints();
        var none := seq(n, k requires 0 <= k < n => Allocation(shares[k].key, "0", 0));
        assert UnitsOf(none) == seq(n, _ => 0);
        TotalZeros(n);
        return Ok(none);
      }
      return AmountError;
    }
    var units := Apportion(totalUnits, shares, sum);
    FairAmounts(totalUnits, w, units);
    var out := PrintAll(shares, units);
    assert UnitsOf(out) == units;
    return Ok(out);
  }

  method CheckWeights(shares: seq<Share>) returns (valid: bool)
    ensures valid == Weights(WeightsOf(shares))
  {
    var i := 0;
    while i < |shares|
      invariant 0 <= i <= |shares| && forall k :: 0 <= k < i ==> shares[k].weight >= 0
    {
      if shares[i].weight < 0 {
        assert WeightsOf(shares)[i] < 0;
        return false;
      }
      i := i + 1;
    }
    return true;
  }

  method SumWeights(shares: seq<Share>) returns (sum: int)
    ensures sum == Total(WeightsOf(shares))
    ensures Weights(WeightsOf(shares)) ==> sum >= 0
  {
    ghost var w := WeightsOf(shares);
    var i := 0;
    sum := 0;
    while i < |shares|
      invariant 0 <= i <= |shares| && sum == Total(w[..i])
    {
      assert w[..i + 1][..i] == w[..i];
      sum := sum + shares[i].weight;
      i := i + 1;
    }
    assert w[..|w|] == w;
    if Weights(w) {
      TotalLess(seq(|w|, _ => 0), w);
      TotalZeros(|w|);
    }
  }

  method PrintAll(shares: seq<Share>, units: seq<int>) returns (out: seq<Allocation>)
    requires |shares| == |units| && forall k :: 0 <= k < |units| ==> 0 <= units[k] <= MAX_AMOUNT_UNITS
    ensures Prints(out, shares, units)
  {
    hide FromUnits, ToUnits;
    out := [];
    var i := 0;
    while i < |shares|
      invariant 0 <= i <= |shares| && Prints(out, shares[..i], units[..i])
    {
      PrintThenParse(units[i]);
      out := out + [Allocation(shares[i].key, FromUnits(units[i]).value, units[i])];
      i := i + 1;
    }
    assert shares[..i] == shares && units[..i] == units;
  }

  lemma NoWeights(w: seq<int>)
    requires w == []
    ensures Total(w) == 0 && Weights(w)
  {
  }

  lemma ZeroPrints()
    ensures FromUnits(0) == Ok("0")
  {
  }

  method SumOf(s: seq<int>) returns (sum: int)
    ensures sum == Total(s)
  {
    var k := 0;
    sum := 0;
    while k < |s|
      invariant 0 <= k <= |s| && sum == Total(s[..k])
    {
      assert s[..k + 1][..k] == s[..k];
      sum := sum + s[k];
      k := k + 1;
    }
    assert s[..k] == s;
  }

  /** The floors, the remainders, and the order that the sort puts the positions in. */
  method Apportion(totalUnits: nat, shares: seq<Share>, sum: nat) returns (units: seq<int>)
    requires Weights(WeightsOf(shares)) && sum == Total(WeightsOf(shares)) > 0
    ensures FairAllocation(totalUnits, WeightsOf(shares), units)
  {
    hide FloorUnits, RestUnits, Ordered, FairAllocation, Weights, HandedOut, Total, NonZero;
    ghost var w := WeightsOf(shares);
    NonNegativeWeights(shares);
    var n := |shares|;
    var floors := seq(n, k requires 0 <= k < n => FloorUnits(totalUnits, shares[k].weight, sum));
    var rests := seq(n, k requires 0 <= k < n => RestUnits(totalUnits, shares[k].weight, sum));
    LeftoverSmall(totalUnits, w, floors, rests);
    var given := SumOf(floors);
    var order := SortedOrder(rests, n);
    OrderedRange(order, rests);
    units := HandOutLeftover(floors, rests, order, totalUnits - given);
    HandedOutIsFair(totalUnits, w, floors, rests, order, units, totalUnits - given);
  }

  /** The loop that hands out the leftover one unit at a time; since the leftover is below the length it never wraps. */
  method HandOutLeftover(floors: seq<int>, rests: seq<int>, order: seq<int>, extra: nat) returns (result: seq<int>)
    requires |floors| == |rests| == |order| && (extra == 0 || extra < |order|)
    requires Ordered(order, rests, |rests|) && forall k :: 0 <= k < |order| ==> 0 <= order[k] < |floors|
    ensures |result| == |floors| && HandedOut(result, floors, order, extra)
    ensures Total(result) == Total(floors) + extra
  {
    hide Ordered, HandedOut, Total;
    var units := new int[|floors|](j requires 0 <= j < |floors| => floors[j]);
    assert units[..] == floors;
    NothingHanded(floors, order);
    var i, leftover := 0, extra;
    while leftover > 0
      invariant 0 <= leftover <= extra && i == extra - leftover
      invariant HandedOut(units[..], floors, order, i)
      invariant Total(units[..]) + leftover == Total(floors) + extra
    {
      ghost var before := units[..];
      HandOne(before, floors, order, rests, i);
      TotalUpdate(before, order[i], before[order[i]] + 1);
      units[order[i]] := units[order[i]] + 1;
      assert units[..] == before[order[i] := before[order[i]] + 1];
      leftover := leftover - 1;
      NoWrap(i + 1, |order|);
      i := (i + 1) % |order|;
    }
    return units[..];
  }

  lemma NoWrap(i: nat, n: nat)
    requires i < n
    ensures i % n == i
  {
  }

  lemma NothingHanded(floors: seq<int>, order: seq<int>)
    requires |floors| == |order| && forall k :: 0 <= k < |order| ==> 0 <= order[k] < |floors|
    ensures HandedOut(floors, floors, order, 0)
  {
  }

  lemma NonNegativeWeights(shares: seq<Share>)
    requires Weights(WeightsOf(shares))
    ensures forall k :: 0 <= k < |shares| ==> shares[k].weight >= 0
  {
    forall k | 0 <= k < |shares| ensures shares[k].weight >= 0 {
      assert WeightsOf(shares)[k] >= 0;
    }
  }

  lemma OrderedRange(order: seq<int>, rests: seq<int>)
    requires Ordered(order, rests, |rests|)
    ensures |order| == |rests| && forall k :: 0 <= k < |order| ==> 0 <= order[k] < |rests|
  {
  }
}
