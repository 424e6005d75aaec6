// The exact acceptance condition in the two plain cases, waves applied one by one and a
// block of a single wave, and blocks on which the processor and the in-order run differ.
module AcceptanceCases {
  import opened Base
  import opened WaveScheduler
  import opened Execution
  import opened WavePool
  import opened WaveRuns
  import opened BlockProcess
  import opened GasExactness
  import opened BlockGas
  import opened BuyOrders
  import opened BlockOrders
  import opened OrderUse
  import opened AcceptanceLimits

  // ----- Waves applied one by one.

  // The order in which they are applied.
  ghost function Flatten(groups: seq<seq<nat>>, w: nat): seq<nat>
    requires w <= |groups|
    decreases |groups| - w
  {
    if w == |groups| then [] else groups[w] + Flatten(groups, w + 1)
  }

  lemma {:induction false} OnlyOrder(cfg: Config, groups: seq<seq<nat>>, w: nat, order: seq<nat>)
    requires cfg.procs > 0 && w <= |groups| && forall v :: 0 <= v < |groups| ==> RunsDirectly(cfg, groups[v])
    ensures BlockOrder(cfg, groups, w, order) <==> order == Flatten(groups, w)
    decreases |groups| - w
  {
    if w < |groups| {
      var n := |groups[w]|;
      if n <= |order| {
        OnlyOrder(cfg, groups, w + 1, order[n..]);
        assert order == order[..n] + order[n..];
      }
      assert Flatten(groups, w)[..n] == groups[w] && Flatten(groups, w)[n..] == Flatten(groups, w + 1);
    }
  }

  // An order with `done` behind it never needs more than the other order leaves.
  ghost predicate AlwaysCovered(other: seq<nat>, done: set<nat>, order: seq<nat>, shape: Shape) {
    forall k :: 0 <= k < |order| ==>
      Covered(other, done + Elems(order[..k]), At(shape.limits, order[k]), shape.least, shape.limits, shape.gasLimit)
  }

  lemma CoveredConcat(other: seq<nat>, done: set<nat>, x: seq<nat>, y: seq<nat>, shape: Shape)
    ensures AlwaysCovered(other, done, x + y, shape) <==>
              AlwaysCovered(other, done, x, shape) && AlwaysCovered(other, done + Elems(x), y, shape)
  {
    hide Covered;
    var z := x + y;
    forall k | 0 <= k < |x| ensures z[..k] == x[..k] && z[k] == x[k] {
    }
    forall k | 0 <= k < |y| ensures done + Elems(z[..|x| + k]) == done + Elems(x) + Elems(y[..k]) && z[|x| + k] == y[k] {
      assert z[..|x| + k] == x + y[..k];
    }
    if AlwaysCovered(other, done, z, shape) {
      forall k | 0 <= k < |x| ensures CoveredTurn(other, done, x, shape, k) {
        assert CoveredTurn(other, done, z, shape, k);
      }
      forall k | 0 <= k < |y| ensures CoveredTurn(other, done + Elems(x), y, shape, k) {
        assert CoveredTurn(other, done, z, shape, |x| + k);
      }
    }
    if AlwaysCovered(other, done, x, shape) && AlwaysCovered(other, done + Elems(x), y, shape) {
      forall k | 0 <= k < |z| ensures CoveredTurn(other, done, z, shape, k) {
        if k < |x| {
          assert CoveredTurn(other, done, x, shape, k);
        } else {
          var r := k - |x|;
          assert CoveredTurn(other, done + Elems(x), y, shape, r) && z[|x| + r] == y[r];
        }
      }
    }
  }

  ghost predicate CoveredTurn(other: seq<nat>, done: set<nat>, order: seq<nat>, shape: Shape, k: nat)
    requires k < |order|
  {
    Covered(other, done + Elems(order[..k]), At(shape.limits, order[k]), shape.least, shape.limits, shape.gasLimit)
  }

  lemma NothingToCover(other: seq<nat>, done: set<nat>, shape: Shape)
    ensures AlwaysCovered(other, done, [], shape)
  {
  }

  lemma DirectCovered(shape: Shape, cfg: Config, jobs: seq<nat>, done: set<nat>)
    requires cfg.procs > 0 && RunsDirectly(cfg, jobs)
    ensures WaveCovered(shape, cfg, jobs, done) <==> AlwaysCovered(Indices(|shape.limits|), done, jobs, shape)
  {
    hide Covered;
  }

  lemma {:induction false} AlarmAlongOrder(shape: Shape, cfg: Config, groups: seq<seq<nat>>, w: nat)
    requires cfg.procs > 0 && w <= |groups| && forall v :: 0 <= v < |groups| ==> RunsDirectly(cfg, groups[v])
    ensures (forall v :: w <= v < |groups| ==> WaveCovered(shape, cfg, groups[v], DoneBefore(groups, v))) <==>
              AlwaysCovered(Indices(|shape.limits|), DoneBefore(groups, w), Flatten(groups, w), shape)
    decreases |groups| - w
  {
    hide WaveCovered, AlwaysCovered, RunsDirectly, DoneBefore, Elems;
    if w == |groups| {
      NothingToCover(Indices(|shape.limits|), DoneBefore(groups, w), shape);
    } else {
      AlarmAlongOrder(shape, cfg, groups, w + 1);
      DirectCovered(shape, cfg, groups[w], DoneBefore(groups, w));
      DoneNext(groups, w);
      CoveredConcat(Indices(|shape.limits|), DoneBefore(groups, w), groups[w], Flatten(groups, w + 1), shape);
    }
  }

  lemma DoneNext(groups: seq<seq<nat>>, w: nat)
    requires w < |groups|
    ensures DoneBefore(groups, w + 1) == DoneBefore(groups, w) + Elems(groups[w])
  {
  }

  // Waves applied one by one, as with wave execution switched off: the two orders, the
  // schedule's and the block's, never need more than the other one leaves.
  lemma OneByOneExact(headers: seq<TxHeader>, shape: Shape, cfg: Config, groups: seq<seq<nat>>, s0: State)
    requires cfg.procs > 0 && Posed(headers, shape, cfg, groups) && forall v :: 0 <= v < |groups| ==> RunsDirectly(cfg, groups[v])
    ensures var block, waves := Indices(|shape.limits|), Flatten(groups, 0);
            AllAlike(headers, shape, cfg, groups, s0) <==>
              AlwaysCovered(block, {}, waves, shape) && AlwaysCovered(waves, {}, block, shape)
  {
    hide Posed, AllAlike, WaveCovered, Covered, RunsDirectly;
    AcceptanceExact(headers, shape, cfg, groups, s0);
    AlarmAlongOrder(shape, cfg, groups, 0);
    var n, waves := |shape.limits|, Flatten(groups, 0);
    forall i | 0 <= i < n ensures {} + Elems(Indices(n)[..i]) == IndexSet(i) && At(shape.limits, Indices(n)[i]) == shape.limits[i] {
      IndicesPrefix(n, i);
    }
    OnlyOrder(cfg, groups, 0, waves);
    forall order | BlockOrder(cfg, groups, 0, order) ensures order == waves {
      OnlyOrder(cfg, groups, 0, order);
    }
    if NoFalsePass(shape, cfg, groups) {
      forall k | 0 <= k < n ensures CoveredTurn(waves, {}, Indices(n), shape, k) {
      }
    }
    if AlwaysCovered(waves, {}, Indices(n), shape) {
      forall i | 0 <= i < n ensures Covered(waves, IndexSet(i), shape.limits[i], shape.least, shape.limits, shape.gasLimit) {
        assert CoveredTurn(waves, {}, Indices(n), shape, i);
      }
    }
  }

  // ----- A block of a single wave on the worker pool.

  ghost predicate OneWave(headers: seq<TxHeader>) {
    forall i, k :: 0 <= i < k < |headers| ==> Declared(headers[i]) !! Declared(headers[k])
  }

  // The scheduler puts all of them into wave 0.
  lemma {:induction false} ScheduledTogether(headers: seq<TxHeader>, m: nat)
    requires OneWave(headers) && m <= |headers|
    ensures Level(DeclaredSets(headers), 0, m) == Indices(m)
  {
    if m > 0 {
      var decl, i := DeclaredSets(headers), m - 1;
      ScheduledTogether(headers, i);
      DepthFacts(decl, i);
      forall k | 0 <= k < i ensures !Conflict(decl, k, i) {
        assert Declared(headers[k]) !! Declared(headers[i]);
      }
      assert Indices(m) == Indices(m - 1) + [m - 1];
    }
  }

  ghost function Zeros(n: nat): (r: seq<nat>)
    ensures |r| == n && forall i :: 0 <= i < n ==> r[i] == 0
  {
    seq(n, i => 0)
  }

  lemma ZerosUseNothing(n: nat, s: set<nat>)
    ensures Over(Zeros(n), s) == 0
  {
    SumOfZeros(Mask(Zeros(n), s));
  }

  lemma {:induction false} LargestLimit(limits: seq<nat>) returns (x: nat)
    requires limits != []
    ensures x < |limits| && forall i :: 0 <= i < |limits| ==> limits[i] <= limits[x]
  {
    if |limits| == 1 {
      x := 0;
    } else {
      var y := LargestLimit(limits[1..]);
      x := if limits[0] <= limits[1..][y] then y + 1 else 0;
      forall i | 0 <= i < |limits| ensures limits[i] <= limits[x] {
        assert i > 0 ==> limits[i] == limits[1..][i - 1];
      }
    }
  }

  lemma {:induction false} LastPositive(limits: seq<nat>) returns (z: nat)
    requires Sum(limits) > 0
    ensures z < |limits| && limits[z] > 0 && forall i :: z < i < |limits| ==> limits[i] == 0
  {
    var n := |limits| - 1;
    assert limits[..n] + [limits[n]] == limits;
    SumAppend(limits[..n], limits[n]);
    if limits[n] > 0 {
      z := n;
    } else {
      z := LastPositive(limits[..n]);
    }
  }

  // Two transactions, the later one the last that wants any gas, one of them the largest.
  lemma ChoosePair(limits: seq<nat>, gasLimit: nat) returns (y: nat, z: nat, x: nat)
    requires Sum(limits) > gasLimit && forall i :: 0 <= i < |limits| ==> limits[i] <= gasLimit
    ensures y < z < |limits| && limits[y] > 0 && limits[z] > 0 && (x == y || x == z)
    ensures forall i :: 0 <= i < |limits| ==> limits[i] <= limits[x]
    ensures forall i :: z < i < |limits| ==> limits[i] == 0
  {
    assert limits != [];
    x := LargestLimit(limits);
    z := LastPositive(limits);
    if x != z {
      y := x;
    } else {
      SumUpdate(limits, z, 0);
      y := LastPositive(limits[z := 0]);
    }
  }

  // Some limit alone is too much: nothing ever gets through, in any order that lists it.
  lemma TooBigIsCovered(order: seq<nat>, x: set<nat>, amount: nat, limits: seq<nat>, total: nat, i: nat)
    requires i in order && i < |limits| && limits[i] > total
    ensures Covered(order, x, amount, Zeros(|limits|), limits, total)
  {
    var k :| 0 <= k < |order| && order[k] == i;
    ZerosUseNothing(|limits|, Elems(order[..k]));
    assert At(limits, order[k]) == limits[i];
  }

  // Limits that fit together leave enough at every moment.
  lemma FittingIsCovered(order: seq<nat>, x: set<nat>, flight: set<nat>, limits: seq<nat>, least: seq<nat>, total: nat)
    requires Sum(limits) <= total && x !! flight
    ensures Covered(order, x, Over(limits, flight), least, limits, total)
  {
    OverUnion(limits, x, flight);
    SumDominated(Mask(limits, x + flight), limits);
  }

  // One worker keeps the order of the queue.
  lemma {:induction false} OneWorkerKeepsOrder(jobs: seq<nat>, order: seq<nat>, j: nat)
    requires Feasible(jobs, 1, order) && Distinct(jobs) && j <= |jobs|
    ensures order[..j] == jobs[..j]
  {
    hide Overtakes, Elems;
    if j > 0 {
      OneWorkerKeepsOrder(jobs, order, j - 1);
      OneWorkerTurn(jobs, order, j - 1);
      assert order[..j] == order[..j - 1] + [order[j - 1]] && jobs[..j] == jobs[..j - 1] + [jobs[j - 1]];
    }
  }

  lemma OneWorkerTurn(jobs: seq<nat>, order: seq<nat>, j: nat)
    requires Feasible(jobs, 1, order) && Distinct(jobs) && j < |jobs| && order[..j] == jobs[..j]
    ensures order[j] == jobs[j]
  {
    assert order[j] in Elems(order);
    var q :| 0 <= q < |jobs| && jobs[q] == order[j];
    var ahead := Elems(jobs[..q]) - Elems(order[..j]);
    assert |ahead| == 0;
    assert Elems(jobs[..q]) <= Elems(order[..j]) by {
      forall x | x in Elems(jobs[..q]) ensures x in Elems(order[..j]) {
        assert x !in ahead;
      }
    }
    NotAhead(jobs, order, j, q);
  }

  lemma NotAhead(jobs: seq<nat>, order: seq<nat>, j: nat, q: nat)
    requires Distinct(jobs) && Distinct(order) && |order| == |jobs| && j < |jobs| && q < |jobs|
    requires order[..j] == jobs[..j] && jobs[q] == order[j] && Elems(jobs[..q]) <= Elems(order[..j])
    ensures q == j
  {
    DistinctCount(jobs[..q]);
    SubsetCount(Elems(jobs[..q]), Elems(jobs[..j]));
    JobCount(jobs[..j]);
    forall r | 0 <= r < j ensures jobs[r] != order[j] {
      assert jobs[..j][r] == order[..j][r];
    }
  }

  // A turn in its own order covers itself.
  lemma OwnTurn(n: nat, i: nat, limits: seq<nat>, least: seq<nat>, total: nat, x: set<nat>)
    requires i < n == |limits| && x == IndexSet(i)
    ensures Covered(Indices(n), x, limits[i], least, limits, total)
  {
    hide Over;
    IndicesPrefix(n, i);
    var before := Elems(Indices(n)[..i]);
    assert x - before == {};
    OverOne(limits, 0);
    assert At(limits, Indices(n)[i]) == limits[i];
    assert CoveredAt(Indices(n), x, limits[i], least, limits, i);
  }

  ghost predicate PoolWave(headers: seq<TxHeader>, shape: Shape, cfg: Config) {
    && cfg.procs > 0 && |headers| > 0 && !RunsDirectly(cfg, Indices(|headers|))
    && Posed(headers, shape, cfg, [Indices(|headers|)]) && shape.least == Zeros(|headers|)
  }

  lemma OneWaveConditions(headers: seq<TxHeader>, shape: Shape, cfg: Config)
    requires PoolWave(headers, shape, cfg)
    ensures |shape.limits| == |headers|
    ensures NoFalseAlarm(shape, cfg, [Indices(|headers|)]) <==>
              WaveCovered(shape, cfg, Indices(|headers|), {})
    ensures forall order :: BlockOrder(cfg, [Indices(|headers|)], 0, order) <==>
              Feasible(Indices(|headers|), WorkerCount(cfg, |headers|), order)
  {
    hide Posed, WaveCovered, Feasible;
    PosedBasics(headers, shape, cfg, [Indices(|headers|)]);
    var groups := [Indices(|headers|)];
    assert DoneBefore(groups, 0) == {};
    forall order ensures BlockOrder(cfg, groups, 0, order) <==> Feasible(Indices(|headers|), WorkerCount(cfg, |headers|), order) {
      if Feasible(Indices(|headers|), WorkerCount(cfg, |headers|), order) {
        assert |order| == |headers| by { FeasibleLength(Indices(|headers|), WorkerCount(cfg, |headers|), order); }
        assert order[..|headers|] == order && order[|headers|..] == [];
        assert BlockOrder(cfg, groups, 1, []);
      }
      if BlockOrder(cfg, groups, 0, order) {
        assert BlockOrder(cfg, groups, 1, order[|headers|..]);
        assert order[..|headers|] == order;
      }
    }
  }

  lemma FeasibleLength(jobs: seq<nat>, workers: nat, order: seq<nat>)
    requires Feasible(jobs, workers, order)
    ensures |order| == |jobs| && Distinct(order) && Elems(order) == Elems(jobs)
  {
  }

  lemma OneWaveEnough(headers: seq<TxHeader>, shape: Shape, cfg: Config)
    requires PoolWave(headers, shape, cfg)
    requires WorkerCount(cfg, |headers|) == 1 || Sum(shape.limits) <= shape.gasLimit ||
             exists i :: 0 <= i < |shape.limits| && shape.limits[i] > shape.gasLimit
    ensures NoFalseAlarm(shape, cfg, [Indices(|headers|)]) && NoFalsePass(shape, cfg, [Indices(|headers|)])
  {
    hide Covered, BlockOrder, NoFalseAlarm, Over, Sum, Feasible, RunsDirectly, Posed;
    var n, workers := |headers|, WorkerCount(cfg, |headers|);
    OneWaveConditions(headers, shape, cfg);
    AllIndices(n);
    forall flight: set<nat>, m: nat | Peak(Indices(n), workers, flight, m)
      ensures Covered(Indices(n), Others(Indices(n), {}, flight, m), Over(shape.limits, flight), shape.least, shape.limits, shape.gasLimit)
    {
      PeakIsCovered(shape, n, workers, flight, m);
    }
    forall order: seq<nat>, i: nat | BlockOrder(cfg, [Indices(n)], 0, order) && i < n
      ensures Covered(order, IndexSet(i), shape.limits[i], shape.least, shape.limits, shape.gasLimit)
    {
      TurnIsCovered(shape, n, workers, order, i);
    }
  }

  lemma PeakIsCovered(shape: Shape, n: nat, workers: nat, flight: set<nat>, m: nat)
    requires |shape.limits| == n && shape.least == Zeros(n) && Peak(Indices(n), workers, flight, m)
    requires workers == 1 || Sum(shape.limits) <= shape.gasLimit ||
             exists i :: 0 <= i < |shape.limits| && shape.limits[i] > shape.gasLimit
    ensures Covered(Indices(n), Others(Indices(n), {}, flight, m), Over(shape.limits, flight), shape.least, shape.limits, shape.gasLimit)
  {
    hide Covered, Over, Sum;
    var x := Others(Indices(n), {}, flight, m);
    if workers == 1 {
      LonePeak(n, flight, m);
      OverOne(shape.limits, m - 1);
      OwnTurn(n, m - 1, shape.limits, shape.least, shape.gasLimit, x);
    } else if Sum(shape.limits) <= shape.gasLimit {
      FittingIsCovered(Indices(n), x, flight, shape.limits, shape.least, shape.gasLimit);
    } else {
      var i :| 0 <= i < |shape.limits| && shape.limits[i] > shape.gasLimit;
      assert Indices(n)[i] == i;
      TooBigIsCovered(Indices(n), x, Over(shape.limits, flight), shape.limits, shape.gasLimit, i);
    }
  }

  lemma LonePeak(n: nat, flight: set<nat>, m: nat)
    requires Peak(Indices(n), 1, flight, m)
    ensures 0 < m <= n && flight == {m - 1} && Others(Indices(n), {}, flight, m) == IndexSet(m - 1)
  {
    assert |flight - {m - 1}| == 0;
    assert flight == {m - 1};
    IndicesPrefix(n, m);
  }

  lemma TurnIsCovered(shape: Shape, n: nat, workers: nat, order: seq<nat>, i: nat)
    requires |shape.limits| == n && shape.least == Zeros(n) && Feasible(Indices(n), workers, order) && i < n
    requires workers == 1 || Sum(shape.limits) <= shape.gasLimit ||
             exists k :: 0 <= k < |shape.limits| && shape.limits[k] > shape.gasLimit
    ensures Covered(order, IndexSet(i), shape.limits[i], shape.least, shape.limits, shape.gasLimit)
  {
    hide Covered, Over, Sum;
    AllIndices(n);
    if workers == 1 {
      OneWorkerKeepsOrder(Indices(n), order, n);
      assert order == order[..n] && Indices(n)[..n] == Indices(n);
      OwnTurn(n, i, shape.limits, shape.least, shape.gasLimit, IndexSet(i));
    } else if Sum(shape.limits) <= shape.gasLimit {
      OverOne(shape.limits, i);
      FittingIsCovered(order, IndexSet(i), {i}, shape.limits, shape.least, shape.gasLimit);
    } else {
      var k :| 0 <= k < |shape.limits| && shape.limits[k] > shape.gasLimit;
      assert k in Elems(order);
      TooBigIsCovered(order, IndexSet(i), shape.limits[i], shape.limits, shape.gasLimit, k);
    }
  }

  // Two of the transactions in flight after everybody else's work.
  lemma PairUncovered(shape: Shape, n: nat, workers: nat) returns (flight: set<nat>, m: nat)
    requires |shape.limits| == n && shape.least == Zeros(n) && workers >= 2
    requires Sum(shape.limits) > shape.gasLimit && forall i :: 0 <= i < n ==> shape.limits[i] <= shape.gasLimit
    ensures Peak(Indices(n), workers, flight, m)
    ensures !Covered(Indices(n), Others(Indices(n), {}, flight, m), Over(shape.limits, flight), shape.least, shape.limits, shape.gasLimit)
  {
    hide Over, Sum, Covered, Peak, Others;
    var y, z, x := ChoosePair(shape.limits, shape.gasLimit);
    flight, m := {y, z}, if workers == 2 then z + 1 else n;
    PairIsPeak(n, workers, y, z, m);
    PairSum(shape.limits, y, z, m);
    NothingCovers(shape, n, Others(Indices(n), {}, flight, m), Over(shape.limits, flight));
  }

  lemma PairIsPeak(n: nat, workers: nat, y: nat, z: nat, m: nat)
    requires y < z < n && workers >= 2 && m == if workers == 2 then z + 1 else n
    ensures Peak(Indices(n), workers, {y, z}, m)
  {
    var jobs := Indices(n);
    assert jobs[..m][y] == y && jobs[..m][z] == z;
  }

  lemma NothingCovers(shape: Shape, n: nat, x: set<nat>, amount: nat)
    requires |shape.limits| == n && shape.least == Zeros(n) && amount + Over(shape.limits, x) > shape.gasLimit
    requires forall i :: 0 <= i < n ==> shape.limits[i] <= shape.gasLimit && shape.limits[i] < amount
    ensures !Covered(Indices(n), x, amount, shape.least, shape.limits, shape.gasLimit)
  {
    hide Over, CoveredAt, Elems;
    var jobs := Indices(n);
    forall k | 0 <= k < n ensures Over(shape.least, Elems(jobs[..k])) + At(shape.limits, jobs[k]) <= shape.gasLimit {
      ZerosUseNothing(n, Elems(jobs[..k]));
    }
    forall k | 0 <= k < n ensures !CoveredAt(jobs, x, amount, shape.least, shape.limits, k) {
      NotCoveredAt(jobs, x, amount, shape.limits, k);
    }
  }

  lemma NotCoveredAt(jobs: seq<nat>, x: set<nat>, amount: nat, limits: seq<nat>, k: nat)
    requires k < |jobs| && amount > At(limits, jobs[k])
    ensures !CoveredAt(jobs, x, amount, Zeros(|limits|), limits, k)
  {
    ZerosUseNothing(|limits|, Elems(jobs[..k]) - x);
  }

  lemma PairSum(l: seq<nat>, y: nat, z: nat, m: nat)
    requires y < z < m <= |l| && forall i :: m <= i < |l| ==> l[i] == 0
    ensures Over(l, {y, z}) == l[y] + l[z] && Over(l, {y, z}) + Over(l, Others(Indices(|l|), {}, {y, z}, m)) == Sum(l)
  {
    hide Over, Sum;
    OverOne(l, y);
    OverOne(l, z);
    OverUnion(l, {y}, {z});
    assert {y} + {z} == {y, z};
    IndicesPrefix(|l|, m);
    var rest := IndexSet(m) - {y, z};
    assert Others(Indices(|l|), {}, {y, z}, m) == rest;
    OverUnion(l, {y, z}, rest);
    OverAll(l, {y, z} + rest);
  }

  lemma OverAll(l: seq<nat>, s: set<nat>)
    requires forall i :: 0 <= i < |l| && i !in s ==> l[i] == 0
    ensures Over(l, s) == Sum(l)
  {
    assert Mask(l, s) == l;
  }

  // For a block of one wave on the worker pool, whatever its transactions use: alike if and
  // only if there is one worker, or the limits fit together, or some limit alone does not.
  lemma OneWaveExact(headers: seq<TxHeader>, shape: Shape, cfg: Config, s0: State)
    requires PoolWave(headers, shape, cfg)
    ensures AllAlike(headers, shape, cfg, [Indices(|headers|)], s0) <==>
              WorkerCount(cfg, |headers|) == 1 || Sum(shape.limits) <= shape.gasLimit ||
              exists i :: 0 <= i < |shape.limits| && shape.limits[i] > shape.gasLimit
  {
    hide AllAlike, NoFalseAlarm, NoFalsePass, Posed, Covered, Sum, Peak, RunsDirectly;
    var n, workers := |headers|, WorkerCount(cfg, |headers|);
    AcceptanceExact(headers, shape, cfg, [Indices(n)], s0);
    OneWaveConditions(headers, shape, cfg);
    if workers == 1 || Sum(shape.limits) <= shape.gasLimit || exists i :: 0 <= i < |shape.limits| && shape.limits[i] > shape.gasLimit {
      OneWaveEnough(headers, shape, cfg);
    } else {
      var flight, m := PairUncovered(shape, n, workers);
    }
  }

  // ----- Blocks on which the two differ.

  function FromSender(a: Address): (h: TxHeader) {
    TxHeader(Some(a), None, [], [])
  }

  // The block of burners with these limits and uses, and coinbase 7.
  ghost function Example(headers: seq<TxHeader>, limits: seq<nat>, used: seq<nat>, gasLimit: nat): Block
    requires |headers| == |limits| == |used|
  {
    BurnerBlock(headers, Shape(limits, Zeros(|limits|), 7, gasLimit), used)
  }

  lemma ExampleFacts(headers: seq<TxHeader>, limits: seq<nat>, used: seq<nat>, gasLimit: nat, cfg: Config, groups: seq<seq<nat>>)
    requires |headers| == |limits| == |used| && gasLimit < TWO_64 && cfg.procs > 0
    requires forall i :: 0 <= i < |headers| ==> used[i] <= limits[i] && headers[i].sender.Some? && 7 !in Declared(headers[i])
    requires OrderRespecting(DeclaredSets(headers), groups) && forall w :: 0 <= w < |groups| ==> groups[w] != []
    ensures var b := Example(headers, limits, used, gasLimit);
            && |b.txs| == |headers| && Footprints(b) && Matches(b, headers) && BlockStands(b, map[], cfg, groups)
            && AllAccepted(b, map[], |b.txs|) && Used(b, map[]) == used && GasLimits(b) == limits && b.gasLimit == gasLimit
            && (InOrder(b, map[], |b.txs|).Done? <==>
                  forall i :: 0 <= i < |limits| ==> Over(used, IndexSet(i)) + limits[i] <= gasLimit)
  {
    hide OrderRespecting, BurnerBlock, Over, InOrder, Used, Room, Accepted, Footprints, BlockStands, Declared;
    var shape := Shape(limits, Zeros(|limits|), 7, gasLimit);
    var b := Example(headers, limits, used, gasLimit);
    BurnersFit(headers, shape, cfg, groups, used, map[]);
    PosedStands(b, headers, shape, cfg, groups, map[]);
    InOrderIsRoom(b, map[]);
    RoomByIndex(used, limits, gasLimit);
  }

  lemma SmallSums(f: seq<nat>)
    requires |f| >= 2
    ensures Over(f, IndexSet(0)) == 0 && Over(f, IndexSet(1)) == f[0] && Over(f, IndexSet(2)) == f[0] + f[1]
  {
    hide Over;
    OverOne(f, 0);
    OverOne(f, 1);
    assert IndexSet(0) == {} && IndexSet(1) == {0} && IndexSet(2) == {0} + {1};
    OverUnion(f, {0}, {1});
  }

  // Senders 1, 1, 2: the waves are [0, 2] and [1].
  lemma TwoWaves()
    ensures var headers := [FromSender(1), FromSender(1), FromSender(2)];
            && Level(DeclaredSets(headers), 0, 3) == [0, 2] && Level(DeclaredSets(headers), 1, 3) == [1]
            && OrderRespecting(DeclaredSets(headers), [[0, 2], [1]])
            && forall i :: 0 <= i < 3 ==> 7 !in Declared(headers[i])
  {
    var headers := [FromSender(1), FromSender(1), FromSender(2)];
    var decl := DeclaredSets(headers);
    assert decl[0] == {1} && decl[1] == {1} && decl[2] == {2};
    hide OrderRespecting;
    assert Conflict(decl, 0, 1) && !Conflict(decl, 0, 2) && !Conflict(decl, 1, 2) by {
      var same: set<Address> := decl[0] * decl[1];
      var other: set<Address> := decl[0] * decl[2];
      assert 1 in same && other == {};
    }
    DepthFacts(decl, 0);
    DepthFacts(decl, 1);
    DepthFacts(decl, 2);
    DepthAtMostIndex(decl, 1);
    assert Depth(decl, 0) == 0 && Depth(decl, 1) == 1 && Depth(decl, 2) == 0;
    ThreeLevels(decl);
    assert DeclaredSets(headers) == decl;
    LevelsOrderRespecting(decl, [[0, 2], [1]]);
  }

  lemma ThreeLevels(decl: seq<set<Address>>)
    requires |decl| == 3 && Depth(decl, 0) == 0 && Depth(decl, 1) == 1 && Depth(decl, 2) == 0
    ensures Level(decl, 0, 3) == [0, 2] && Level(decl, 1, 3) == [1]
  {
    hide Depth;
    assert Level(decl, 0, 0) == [] && Level(decl, 1, 0) == [];
    assert Level(decl, 0, 1) == [0] && Level(decl, 1, 1) == [];
    assert Level(decl, 0, 2) == [0] && Level(decl, 1, 2) == [1];
  }

  // No worker pool is needed for a difference: the waves alone reorder. In order 0, 1 and
  // 10 of 11 gas are used; wave [0, 2] uses 10 before transaction 1, which wants 10, comes up.
  lemma WavesAloneReject(cfg: Config) returns (b: Block, headers: seq<TxHeader>)
    requires !cfg.waveExecution && cfg.procs > 0
    ensures Footprints(b) && Matches(b, headers) && |headers| == |b.txs| == 3
    ensures Level(DeclaredSets(headers), 0, 3) == [0, 2] && Level(DeclaredSets(headers), 1, 3) == [1]
    ensures InOrder(b, map[], |b.txs|).Done? && (forall v :: 0 <= v < 2 ==> InRange(b, [[0, 2], [1]][v]))
    ensures BlockRun(b, map[], cfg, [[0, 2], [1]], 0, Some(TxError(1, GasLimitReached)))
  {
    hide OrderRespecting, Over, InOrder, Footprints, Matches, Level, Used, GasLeft, OwnError, Accepted, DeclaredSets, DirectRoom;
    var limits, used, groups := [1, 10, 10], [0, 1, 10], [[0, 2], [1]];
    headers := [FromSender(1), FromSender(1), FromSender(2)];
    TwoWaves();
    b := Example(headers, limits, used, 11);
    ExampleFacts(headers, limits, used, 11, cfg, groups);
    SmallSums(used);
    var second := DoneBefore(groups, 1);
    assert second == {} + Elems([0, 2]);
    assert DirectEnd(b, map[], [0, 2], {}).None? by { FirstWaveFits(b); }
    assert DirectEnd(b, map[], [1], second) == Some(TxError(1, GasLimitReached)) by { SecondWaveFails(b, second); }
    assert BlockRun(b, map[], cfg, groups, 1, Some(TxError(1, GasLimitReached)));
    assert DoneBefore(groups, 0) == {};
  }

  ghost predicate Reordered(b: Block) {
    && |b.txs| == 3 && AllAccepted(b, map[], 3) && Used(b, map[]) == [0, 1, 10] && GasLimits(b) == [1, 10, 10] && b.gasLimit == 11
  }

  lemma FirstWaveFits(b: Block)
    requires Reordered(b)
    ensures DirectEnd(b, map[], [0, 2], {}).None?
  {
    hide GasLeft, Over, Used, Accepted;
    assert GasLimits(b)[0] == 1 && GasLimits(b)[2] == 10;
    DirectExact(b, map[], [0, 2], {});
    forall q | 0 <= q < 2 ensures b.txs[[0, 2][q]].gasLimit <= GasLeft(b, map[], {} + Elems([0, 2][..q])) {
      LeftIsOver(b, map[], {} + Elems([0, 2][..q]));
      assert {} + Elems([0, 2][..q]) == if q == 0 then {} else {0};
      OverOne([0, 1, 10], 0);
    }
  }

  lemma SecondWaveFails(b: Block, done: set<nat>)
    requires Reordered(b) && done == {} + Elems([0, 2])
    ensures DirectEnd(b, map[], [1], done) == Some(TxError(1, GasLimitReached))
  {
    hide GasLeft, Over, Used;
    assert Accepted(b, map[], 1) && GasLimits(b)[1] == 10;
    LeftIsOver(b, map[], done);
    OverOne([0, 1, 10], 0);
    OverOne([0, 1, 10], 2);
    OverUnion([0, 1, 10], {0}, {2});
    assert done == {0} + {2};
  }

  // Two senders, hence one wave.
  lemma OneWaveOfTwo()
    ensures var headers := [FromSender(1), FromSender(2)];
            && Level(DeclaredSets(headers), 0, 2) == [0, 1] == Indices(2) && OrderRespecting(DeclaredSets(headers), [[0, 1]])
            && forall i :: 0 <= i < 2 ==> 7 !in Declared(headers[i])
  {
    var headers := [FromSender(1), FromSender(2)];
    var decl := DeclaredSets(headers);
    assert decl[0] == {1} && decl[1] == {2};
    hide OrderRespecting;
    ScheduledTogether(headers, 2);
    assert Indices(2) == [0, 1];
    LevelFacts(decl, 0, 2);
    assert Indices(2)[0] in Level(decl, 0, 2) && Indices(2)[1] in Level(decl, 0, 2);
    LevelsOrderRespecting(decl, [[0, 1]]);
  }

  // Two workers, a threshold below two.
  ghost predicate TwoWorkers(cfg: Config) {
    cfg.procs > 0 && cfg.waveExecution && cfg.workers == 2 && cfg.directMax < 2
  }

  // In order: 1 of 11 gas used, 10 left for the second. In parallel: 10 held, 1 left.
  lemma ParallelRejectsMore(cfg: Config) returns (b: Block, headers: seq<TxHeader>, e: TxError)
    requires TwoWorkers(cfg)
    ensures Footprints(b) && Matches(b, headers) && |headers| == |b.txs| == 2 && Level(DeclaredSets(headers), 0, 2) == [0, 1]
    ensures InOrder(b, map[], |b.txs|).Done? && InRange(b, [0, 1]) && BlockRun(b, map[], cfg, [[0, 1]], 0, Some(e))
  {
    hide OrderRespecting, Over, InOrder, Footprints, Matches, Level, Used, DeclaredSets, Accepted, BlockRun, WaveRoom;
    var limits, used, groups := [10, 10], [1, 1], [[0, 1]];
    headers := [FromSender(1), FromSender(2)];
    OneWaveOfTwo();
    b := Example(headers, limits, used, 11);
    ExampleFacts(headers, limits, used, 11, cfg, groups);
    SmallSums(used);
    FullAtStart(b, map[], groups);
    assert DoneBefore(groups, 0) == {};
    BothInFlight(b, cfg, limits);
    e := NoRoomFromHere(b, map[], cfg, groups, 0, 0);
  }

  lemma BothInFlight(b: Block, cfg: Config, limits: seq<nat>)
    requires TwoWorkers(cfg) && |b.txs| == 2 && GasLimits(b) == limits && limits[0] + limits[1] > b.gasLimit
    ensures InRange(b, [0, 1]) && !WaveRoom(b, map[], cfg, [0, 1], {})
  {
    hide Over, Used, Demand;
    SmallSums(limits);
    assert Indices(2) == [0, 1] && IndexSet(2) == {0, 1};
    PairIsPeak(2, 2, 0, 1, 2);
    DemandIsOver(b, map[], [0, 1], {}, {0, 1}, 2);
  }

  // In order: 5 of 10 gas used, the second wants 10. In parallel the second, cheaper one
  // may buy first and leave 9.
  lemma ParallelAcceptsMore(cfg: Config) returns (b: Block, headers: seq<TxHeader>)
    requires TwoWorkers(cfg)
    ensures Footprints(b) && Matches(b, headers) && |headers| == |b.txs| == 2 && Level(DeclaredSets(headers), 0, 2) == [0, 1]
    ensures InOrder(b, map[], |b.txs|).Error? && InRange(b, [0, 1]) && BlockRun(b, map[], cfg, [[0, 1]], 0, None)
  {
    hide OrderRespecting, Over, InOrder, Footprints, Matches, Level, Used, DeclaredSets, Accepted, BlockRun;
    var limits, used, groups := [5, 10], [5, 1], [[0, 1]];
    headers := [FromSender(1), FromSender(2)];
    OneWaveOfTwo();
    b := Example(headers, limits, used, 10);
    ExampleFacts(headers, limits, used, 10, cfg, groups);
    SmallSums(used);
    assert Over(used, IndexSet(1)) + limits[1] > 10;
    FullAtStart(b, map[], groups);
    SecondFirst(cfg);
    RoomIsRoom(b, map[], [1, 0]);
    assert Room([1, 0], used, limits, 10) by {
      OverOne(used, 1);
      assert Elems([1, 0][..0]) == {} && Elems([1, 0][..1]) == {1};
    }
    OrderRunsBlock(b, map[], cfg, groups, 0, [1, 0]);
  }

  lemma SecondFirst(cfg: Config)
    requires TwoWorkers(cfg)
    ensures BlockOrder(cfg, [[0, 1]], 0, [1, 0])
  {
    var jobs, order := [0, 1], [1, 0];
    assert Elems(jobs) == {0, 1} == Elems(order);
    forall j, q | 0 <= j < 2 && 0 <= q < 2 && jobs[q] == order[j] ensures |Elems(jobs[..q]) - Elems(order[..j])| < 2 {
      assert Elems(jobs[..q]) <= {0};
      SubsetCount(Elems(jobs[..q]) - Elems(order[..j]), {0});
    }
    assert order[..2] == order && order[2..] == [];
    assert BlockOrder(cfg, [jobs], 1, []);
  }
}
