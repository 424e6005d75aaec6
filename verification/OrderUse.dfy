// Sequential gas accounting in an arbitrary order: each transaction must find its limit in
// what the ones before it have left. How much can a given set use without any order breaking?
module OrderUse {
  import opened Base

  function Mask(f: seq<nat>, s: set<nat>): (r: seq<nat>) {
    seq(|f|, i requires 0 <= i < |f| => if i in s then f[i] else 0)
  }

  function Over(f: seq<nat>, s: set<nat>): (r: nat) {
    Sum(Mask(f, s))
  }

  function At(f: seq<nat>, i: nat): (r: nat) {
    if i < |f| then f[i] else 0
  }

  function SumAt(f: seq<nat>, order: seq<nat>): (r: nat) {
    if order == [] then 0 else At(f, order[0]) + SumAt(f, order[1..])
  }

  // ----- Sums over sets.

  lemma {:induction false} SumSplits(f: seq<nat>, g: seq<nat>, h: seq<nat>)
    requires |f| == |g| == |h| && forall i :: 0 <= i < |h| ==> h[i] == f[i] + g[i]
    ensures Sum(h) == Sum(f) + Sum(g)
  {
    if h != [] {
      SumSplits(f[1..], g[1..], h[1..]);
    }
  }

  lemma OverUnion(f: seq<nat>, s: set<nat>, t: set<nat>)
    requires s !! t
    ensures Over(f, s + t) == Over(f, s) + Over(f, t)
  {
    SumSplits(Mask(f, s), Mask(f, t), Mask(f, s + t));
  }

  lemma OverSplit(f: seq<nat>, s: set<nat>, t: set<nat>)
    ensures Over(f, s) == Over(f, s * t) + Over(f, s - t)
  {
    OverUnion(f, s * t, s - t);
    assert s * t + (s - t) == s;
  }

  lemma OverOne(f: seq<nat>, i: nat)
    ensures Over(f, {i}) == At(f, i) && Over(f, {}) == 0
  {
    SumOfZeros(Mask(f, {}));
    if i < |f| {
      assert Mask(f, {i}) == Mask(f, {})[i := f[i]];
      SumUpdate(Mask(f, {}), i, f[i]);
    } else {
      assert Mask(f, {i}) == Mask(f, {});
    }
  }

  lemma OverAtMost(f: seq<nat>, g: seq<nat>, s: set<nat>)
    requires |f| == |g| && forall i :: 0 <= i < |f| && i in s ==> f[i] <= g[i]
    ensures Over(f, s) <= Over(g, s)
  {
    SumDominated(Mask(f, s), Mask(g, s));
  }

  // ----- Sums along an order.

  lemma {:induction false} SumAtConcat(f: seq<nat>, x: seq<nat>, y: seq<nat>)
    ensures SumAt(f, x + y) == SumAt(f, x) + SumAt(f, y)
  {
    if x == [] {
      assert x + y == y;
    } else {
      assert (x + y)[1..] == x[1..] + y;
      SumAtConcat(f, x[1..], y);
    }
  }

  lemma {:induction false} SumAtIsOver(f: seq<nat>, order: seq<nat>)
    requires Distinct(order)
    ensures SumAt(f, order) == Over(f, Elems(order))
  {
    if order == [] {
      SumOfZeros(Mask(f, {}));
      assert Elems(order) == {};
    } else {
      SumAtIsOver(f, order[1..]);
      assert Elems(order) == {order[0]} + Elems(order[1..]);
      OverOne(f, order[0]);
      OverUnion(f, {order[0]}, Elems(order[1..]));
    }
  }

  lemma {:induction false} SumAtMost(f: seq<nat>, g: seq<nat>, order: seq<nat>)
    requires forall i :: i in order ==> At(f, i) <= At(g, i)
    ensures SumAt(f, order) <= SumAt(g, order)
  {
    if order != [] {
      SumAtMost(f, g, order[1..]);
    }
  }

  lemma {:induction false} SumAtSame(f: seq<nat>, g: seq<nat>, order: seq<nat>)
    requires forall i :: i in order ==> At(f, i) == At(g, i)
    ensures SumAt(f, order) == SumAt(g, order)
  {
    if order != [] {
      SumAtSame(f, g, order[1..]);
    }
  }

  // ----- Spending as much as the limits downstream allow.

  // With `spent` gone, the rest of the order gets through when it uses f.
  ghost predicate Through(order: seq<nat>, f: seq<nat>, limits: seq<nat>, total: nat, spent: nat)
  {
    forall k :: 0 <= k < |order| ==> spent + SumAt(f, order[..k]) + At(limits, order[k]) <= total
  }

  // The most the first one can use such that the rest still gets through at its least.
  lemma {:induction false} MostForOne(order: seq<nat>, least: seq<nat>, limits: seq<nat>, total: nat, spent: nat, low: nat, high: nat)
    returns (v: nat)
    requires low <= high
    requires Through(order, least, limits, total, spent + low)
    ensures low <= v <= high && Through(order, least, limits, total, spent + v)
    ensures v == high || exists k :: 0 <= k < |order| && spent + v + SumAt(least, order[..k]) + At(limits, order[k]) == total
    decreases high - low
  {
    if low == high || !Through(order, least, limits, total, spent + low + 1) {
      v := low;
    } else {
      v := MostForOne(order, least, limits, total, spent, low + 1, high);
    }
  }

  lemma ThroughRest(order: seq<nat>, f: seq<nat>, limits: seq<nat>, total: nat, spent: nat)
    requires order != []
    ensures Through(order, f, limits, total, spent) <==>
              spent + At(limits, order[0]) <= total && Through(order[1..], f, limits, total, spent + At(f, order[0]))
  {
    var rest := order[1..];
    forall k | 0 <= k < |rest| ensures SumAt(f, order[..k + 1]) == At(f, order[0]) + SumAt(f, rest[..k]) {
      assert order[..k + 1][1..] == rest[..k];
    }
    if Through(order, f, limits, total, spent) {
      forall k | 0 <= k < |rest| ensures spent + At(f, order[0]) + SumAt(f, rest[..k]) + At(limits, rest[k]) <= total {
        assert spent + SumAt(f, order[..k + 1]) + At(limits, order[k + 1]) <= total;
      }
      assert spent + SumAt(f, order[..0]) + At(limits, order[0]) <= total;
    }
    if spent + At(limits, order[0]) <= total && Through(rest, f, limits, total, spent + At(f, order[0])) {
      forall k | 0 <= k < |order| ensures spent + SumAt(f, order[..k]) + At(limits, order[k]) <= total {
        if k > 0 {
          assert spent + At(f, order[0]) + SumAt(f, rest[..k - 1]) + At(limits, rest[k - 1]) <= total;
        }
      }
    }
  }

  // Next to `sum`, transaction k's limit leaves nothing, even for what follows at its most.
  ghost predicate Tight(order: seq<nat>, most: seq<nat>, limits: seq<nat>, total: nat, sum: nat, k: nat) {
    k < |order| && sum + At(limits, order[k]) >= total + SumAt(most, order[k..])
  }

  ghost predicate SpentUp(order: seq<nat>, most: seq<nat>, limits: seq<nat>, total: nat, sum: nat) {
    exists k: nat :: Tight(order, most, limits, total, sum, k)
  }

  // Between `least` and `most`: everything at its most, or the pool is used up to what
  // some later transaction k needs, and everything from k on is at its most.
  lemma {:induction false} Spend(order: seq<nat>, least: seq<nat>, most: seq<nat>, limits: seq<nat>, total: nat, spent: nat)
    returns (used: seq<nat>)
    requires |least| == |most| && Distinct(order) && forall i :: i in order ==> i < |least|
    requires forall i :: 0 <= i < |least| ==> least[i] <= most[i]
    requires Through(order, least, limits, total, spent)
    ensures |used| == |least| && forall i :: 0 <= i < |least| ==> least[i] <= used[i] <= most[i]
    ensures Through(order, used, limits, total, spent)
    ensures || SumAt(used, order) == SumAt(most, order)
            || SpentUp(order, most, limits, total, spent + SumAt(used, order))
    decreases |order|
  {
    hide Through, SpentUp, SumAt;
    if order == [] {
      used := least;
      NothingToSpend(least, most, limits, total, spent);
    } else {
      var i, rest := order[0], order[1..];
      assert i in order && forall j :: j in rest ==> j in order;
      ThroughRest(order, least, limits, total, spent);
      var v := MostForOne(rest, least, limits, total, spent, least[i], most[i]);
      var later := Spend(rest, least, most, limits, total, spent + v);
      used := later[i := v];
      OthersKeep(later, i, v, rest, limits, total, spent + v);
      ThroughRest(order, used, limits, total, spent);
      ThroughRest(order, least, limits, total, spent);
      SpendTight(order, least, most, limits, total, spent, used, v);
    }
  }

  lemma NothingToSpend(f: seq<nat>, g: seq<nat>, limits: seq<nat>, total: nat, spent: nat)
    ensures SumAt(f, []) == SumAt(g, []) && Through([], f, limits, total, spent)
  {
  }

  lemma OthersKeep(f: seq<nat>, i: nat, v: nat, order: seq<nat>, limits: seq<nat>, total: nat, spent: nat)
    requires i < |f| && i !in order
    ensures SumAt(f[i := v], order) == SumAt(f, order)
    ensures Through(order, f[i := v], limits, total, spent) <==> Through(order, f, limits, total, spent)
  {
    SumAtSame(f[i := v], f, order);
    forall k | 0 <= k < |order| ensures SumAt(f[i := v], order[..k]) == SumAt(f, order[..k]) {
      SumAtSame(f[i := v], f, order[..k]);
    }
  }

  lemma SpendTight(order: seq<nat>, least: seq<nat>, most: seq<nat>, limits: seq<nat>, total: nat, spent: nat, used: seq<nat>, v: nat)
    requires order != [] && At(used, order[0]) == v
    requires forall i :: i in order ==> At(least, i) <= At(most, i)
    requires var rest := order[1..];
             v == At(most, order[0]) || exists k :: 0 <= k < |rest| && spent + v + SumAt(least, rest[..k]) + At(limits, rest[k]) == total
    requires var rest := order[1..];
             || SumAt(used, rest) == SumAt(most, rest)
             || SpentUp(rest, most, limits, total, spent + v + SumAt(used, rest))
    ensures || SumAt(used, order) == SumAt(most, order)
            || SpentUp(order, most, limits, total, spent + SumAt(used, order))
  {
    var rest := order[1..];
    var sum := spent + v + SumAt(used, rest);
    assert SumAt(used, order) == v + SumAt(used, rest) && SumAt(most, order) == At(most, order[0]) + SumAt(most, rest);
    hide SumAt;
    if SpentUp(rest, most, limits, total, sum) {
      var k: nat :| Tight(rest, most, limits, total, sum, k);
      assert order[k + 1..] == rest[k..];
      assert Tight(order, most, limits, total, sum, k + 1);
    } else if v != At(most, order[0]) {
      var k :| 0 <= k < |rest| && spent + v + SumAt(least, rest[..k]) + At(limits, rest[k]) == total;
      assert rest == rest[..k] + rest[k..] && order[k + 1..] == rest[k..];
      SumAtConcat(most, rest[..k], rest[k..]);
      SumAtMost(least, most, rest[..k]);
      assert Tight(order, most, limits, total, sum, k + 1);
    }
  }

  // ----- How much a set can use.

  // Every transaction finds its limit when it comes up in this order.
  ghost predicate Room(order: seq<nat>, used: seq<nat>, limits: seq<nat>, total: nat)
  {
    forall k :: 0 <= k < |order| ==> Over(used, Elems(order[..k])) + At(limits, order[k]) <= total
  }

  // An order that gets through leaves `amount` next to whatever the set x uses: because it
  // never gets through, because the limits of x leave it, or because some transaction k
  // needed as much at a time when at least the others before it had used their least.
  ghost predicate Covered(order: seq<nat>, x: set<nat>, amount: nat, least: seq<nat>, limits: seq<nat>, total: nat)
  {
    || !Room(order, least, limits, total)
    || amount + Over(limits, x) <= total
    || exists k :: 0 <= k < |order| && CoveredAt(order, x, amount, least, limits, k)
  }

  ghost predicate CoveredAt(order: seq<nat>, x: set<nat>, amount: nat, least: seq<nat>, limits: seq<nat>, k: nat)
    requires k < |order|
  {
    var before := Elems(order[..k]);
    amount + Over(limits, x - before) <= At(limits, order[k]) + Over(least, before - x)
  }

  ghost predicate Between(least: seq<nat>, used: seq<nat>, limits: seq<nat>) {
    |least| == |used| == |limits| && forall i :: 0 <= i < |used| ==> least[i] <= used[i] <= limits[i]
  }

  lemma RoomAtLeast(order: seq<nat>, least: seq<nat>, used: seq<nat>, limits: seq<nat>, total: nat)
    requires Between(least, used, limits) && Room(order, used, limits, total)
    ensures Room(order, least, limits, total)
  {
    forall k | 0 <= k < |order| ensures Over(least, Elems(order[..k])) + At(limits, order[k]) <= total {
      OverAtMost(least, used, Elems(order[..k]));
    }
  }

  lemma CoveredBounds(order: seq<nat>, x: set<nat>, amount: nat, least: seq<nat>, used: seq<nat>, limits: seq<nat>, total: nat)
    requires Between(least, used, limits)
    requires Covered(order, x, amount, least, limits, total) && Room(order, used, limits, total)
    ensures Over(used, x) + amount <= total
  {
    RoomAtLeast(order, least, used, limits, total);
    if amount + Over(limits, x) <= total {
      OverAtMost(used, limits, x);
    } else {
      var k :| 0 <= k < |order| && CoveredAt(order, x, amount, least, limits, k);
      var before := Elems(order[..k]);
      OverSplit(used, x, before);
      OverSplit(used, before, x);
      assert before * x == x * before;
      OverAtMost(used, limits, x - before);
      OverAtMost(least, used, before - x);
    }
  }

  // Conversely, what is not covered can be used up.
  lemma Uncovered(order: seq<nat>, x: set<nat>, amount: nat, least: seq<nat>, limits: seq<nat>, total: nat) returns (used: seq<nat>)
    requires Distinct(order) && x <= Elems(order) && Between(least, least, limits) && forall i :: i in order ==> i < |least|
    requires !Covered(order, x, amount, least, limits, total)
    ensures Between(least, used, limits) && Room(order, used, limits, total)
    ensures Over(used, x) + amount > total
  {
    var most := seq(|least|, i requires 0 <= i < |least| => if i in x then limits[i] else least[i]);
    ThroughIsRoom(order, least, limits, total);
    used := Spend(order, least, most, limits, total, 0);
    ThroughIsRoom(order, used, limits, total);
    UsedUp(order, x, amount, least, most, limits, total, used);
  }

  lemma {:induction false} DistinctPart(order: seq<nat>, k: nat)
    requires Distinct(order) && k <= |order|
    ensures Distinct(order[..k]) && Distinct(order[k..]) && Elems(order[..k]) !! Elems(order[k..])
    ensures Elems(order[..k]) + Elems(order[k..]) == Elems(order)
  {
    assert order == order[..k] + order[k..];
    forall i, j | 0 <= i < j < |order[k..]| ensures order[k..][i] != order[k..][j] {
      assert order[k..][i] == order[k + i] && order[k..][j] == order[k + j];
    }
  }

  lemma ThroughIsRoom(order: seq<nat>, f: seq<nat>, limits: seq<nat>, total: nat)
    requires Distinct(order)
    ensures Through(order, f, limits, total, 0) <==> Room(order, f, limits, total)
  {
    forall k | 0 <= k < |order| ensures SumAt(f, order[..k]) == Over(f, Elems(order[..k])) {
      DistinctPart(order, k);
      SumAtIsOver(f, order[..k]);
    }
  }

  lemma UsedUp(order: seq<nat>, x: set<nat>, amount: nat, least: seq<nat>, most: seq<nat>, limits: seq<nat>, total: nat, used: seq<nat>)
    requires Distinct(order) && x <= Elems(order) && Between(least, used, limits)
    requires |most| == |least| && forall i :: 0 <= i < |least| ==> most[i] == (if i in x then limits[i] else least[i]) && used[i] <= most[i]
    requires Room(order, least, limits, total) && !Covered(order, x, amount, least, limits, total)
    requires || SumAt(used, order) == SumAt(most, order)
             || SpentUp(order, most, limits, total, SumAt(used, order))
    ensures Over(used, x) + amount > total
  {
    var all := Elems(order);
    OverSplit(used, all, x);
    assert all * x == x;
    OverSame(used, least, all - x);
    SumAtIsOver(used, order);
    if SumAt(used, order) == SumAt(most, order) {
      SumAtIsOver(most, order);
      OverSplit(most, all, x);
      OverSame(most, least, all - x);
      OverSame(most, limits, x);
    } else {
      var sum := SumAt(used, order);
      var k: nat :| Tight(order, most, limits, total, sum, k);
      TightSum(order, x, least, most, limits, k);
      assert !CoveredAt(order, x, amount, least, limits, k);
    }
  }

  lemma TightSum(order: seq<nat>, x: set<nat>, least: seq<nat>, most: seq<nat>, limits: seq<nat>, k: nat)
    requires Distinct(order) && x <= Elems(order) && k <= |order| && |most| == |least| == |limits|
    requires forall i :: 0 <= i < |least| ==> most[i] == if i in x then limits[i] else least[i]
    ensures var before := Elems(order[..k]);
            SumAt(most, order[k..]) + Over(least, before - x) == Over(limits, x - before) + Over(least, Elems(order) - x)
  {
    var before, after := Elems(order[..k]), Elems(order[k..]);
    DistinctPart(order, k);
    SumAtIsOver(most, order[k..]);
    OverSplit(most, after, x);
    assert after * x == x - before;
    OverSame(most, limits, x - before);
    OverSame(most, least, after - x);
    OverUnion(least, before - x, after - x);
    assert (before - x) + (after - x) == Elems(order) - x;
  }

  lemma OverSame(f: seq<nat>, g: seq<nat>, s: set<nat>)
    requires |f| == |g| && forall i :: 0 <= i < |f| && i in s ==> f[i] == g[i]
    ensures Over(f, s) == Over(g, s)
  {
    assert Mask(f, s) == Mask(g, s);
  }
}
