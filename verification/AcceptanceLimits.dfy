// When does the wave processor accept the same blocks as the in-order run? The answer
// depends only on what is known before the call: the waves, the gas limits, a lower bound
// on what each transaction uses, the block gas limit and the configuration.
module AcceptanceLimits {
  import opened Base
  import opened WaveScheduler
  import opened Execution
  import opened WavePool
  import opened WaveRuns
  import opened BlockProcess
  import opened GasExactness
  import opened BlockGas
  import opened BuyOrders
  import opened BlockOrders
  import opened OrderUse

  // ----- Blocks whose behaviour is open.

  // A block with these transactions' declared sets, gas limits and least uses.
  ghost predicate Shaped(b: Block, headers: seq<TxHeader>, shape: Shape) {
    && Matches(b, headers) && Footprints(b) && b.coinbase == shape.coinbase && b.gasLimit == shape.gasLimit
    && GasLimits(b) == shape.limits && |shape.least| == |b.txs|
    && (forall i, s: State :: 0 <= i < |b.txs| && b.txs[i].run(s).Applied? ==> shape.least[i] <= b.txs[i].run(s).gasUsed)
  }

  datatype Shape = Shape(limits: seq<nat>, least: seq<nat>, coinbase: Address, gasLimit: nat)

  // Every run of the block ends without an error if and only if the in-order run does.
  ghost predicate Alike(b: Block, s0: State, cfg: Config, groups: seq<seq<nat>>)
    requires cfg.procs > 0 && forall v :: 0 <= v < |groups| ==> InRange(b, groups[v])
  {
    forall end :: BlockRun(b, s0, cfg, groups, 0, end) ==> (end.None? <==> InOrder(b, s0, |b.txs|).Done?)
  }

  ghost predicate AllAlike(headers: seq<TxHeader>, shape: Shape, cfg: Config, groups: seq<seq<nat>>, s0: State)
    requires cfg.procs > 0
  {
    forall b: Block :: Shaped(b, headers, shape) && (forall v :: 0 <= v < |groups| ==> InRange(b, groups[v])) ==>
      Alike(b, s0, cfg, groups)
  }

  // What the theorems ask of the caller: recoverable senders, a schedule as the scheduler
  // makes it, a coinbase nobody declares, lower bounds below the limits.
  ghost predicate Posed(headers: seq<TxHeader>, shape: Shape, cfg: Config, groups: seq<seq<nat>>) {
    && |shape.limits| == |headers| && Between(shape.least, shape.least, shape.limits) && shape.gasLimit < TWO_64
    && (forall i :: 0 <= i < |headers| ==> headers[i].sender.Some? && shape.coinbase !in Declared(headers[i]))
    && OrderRespecting(DeclaredSets(headers), groups) && cfg.procs > 0
    && (forall w :: 0 <= w < |groups| ==> groups[w] != [])
  }

  ghost function Indices(n: nat): (r: seq<nat>)
    ensures |r| == n && forall i :: 0 <= i < n ==> r[i] == i
  {
    seq(n, i => i)
  }

  // ----- The two conditions.

  // The in-order run leaves enough for every moment of this wave.
  ghost predicate WaveCovered(shape: Shape, cfg: Config, jobs: seq<nat>, done: set<nat>)
    requires cfg.procs > 0
  {
    var inOrder := Indices(|shape.limits|);
    if RunsDirectly(cfg, jobs) then
      forall q :: 0 <= q < |jobs| ==>
        Covered(inOrder, done + Elems(jobs[..q]), At(shape.limits, jobs[q]), shape.least, shape.limits, shape.gasLimit)
    else
      forall flight: set<nat>, m: nat :: Peak(jobs, WorkerCount(cfg, |jobs|), flight, m) ==>
        Covered(inOrder, Others(jobs, done, flight, m), Over(shape.limits, flight), shape.least, shape.limits, shape.gasLimit)
  }

  // Everything that has run while `flight` is in flight.
  ghost function Others(jobs: seq<nat>, done: set<nat>, flight: set<nat>, m: nat): set<nat>
    requires m <= |jobs|
  {
    done + Elems(jobs[..m]) - flight
  }

  // What passes in order passes in every run.
  ghost predicate NoFalseAlarm(shape: Shape, cfg: Config, groups: seq<seq<nat>>)
    requires cfg.procs > 0
  {
    forall w :: 0 <= w < |groups| ==> WaveCovered(shape, cfg, groups[w], DoneBefore(groups, w))
  }

  // What passes in some run passes in order.
  ghost predicate NoFalsePass(shape: Shape, cfg: Config, groups: seq<seq<nat>>)
    requires cfg.procs > 0
  {
    forall order: seq<nat>, i: nat :: BlockOrder(cfg, groups, 0, order) && i < |shape.limits| ==>
      Covered(order, IndexSet(i), shape.limits[i], shape.least, shape.limits, shape.gasLimit)
  }

  // ----- Blocks in terms of limits and uses.

  ghost function Used(b: Block, s0: State): seq<nat> {
    seq(|b.txs|, i requires 0 <= i < |b.txs| => GasOf(b, s0, i))
  }

  lemma LeftIsOver(b: Block, s0: State, done: set<nat>)
    ensures GasLeft(b, s0, done) == b.gasLimit - Over(Used(b, s0), done)
  {
    assert Charges(b, s0, done) == Mask(Used(b, s0), done);
  }

  lemma UsedBetween(b: Block, headers: seq<TxHeader>, shape: Shape, s0: State)
    requires Shaped(b, headers, shape) && AllAccepted(b, s0, |b.txs|)
    ensures Between(shape.least, Used(b, s0), shape.limits)
  {
    forall i | 0 <= i < |b.txs| ensures shape.least[i] <= Used(b, s0)[i] <= shape.limits[i] {
      GasWithinLimit(b, s0, i);
      assert Accepted(b, s0, i) && GasLimits(b)[i] == shape.limits[i];
    }
  }

  // Room in gas left is room in uses.
  lemma RoomIsRoom(b: Block, s0: State, order: seq<nat>)
    requires InRange(b, order)
    ensures DirectRoom(b, s0, order, {}) <==> Room(order, Used(b, s0), GasLimits(b), b.gasLimit)
  {
    hide GasLeft, Over, GasOf;
    var limits := GasLimits(b);
    forall k | 0 <= k < |order|
      ensures GasLeft(b, s0, {} + Elems(order[..k])) == b.gasLimit - Over(Used(b, s0), Elems(order[..k]))
      ensures At(limits, order[k]) == b.txs[order[k]].gasLimit
    {
      assert {} + Elems(order[..k]) == Elems(order[..k]);
      LeftIsOver(b, s0, Elems(order[..k]));
    }
  }

  lemma IndicesPrefix(n: nat, k: nat)
    requires k <= n
    ensures Elems(Indices(n)[..k]) == IndexSet(k) && Distinct(Indices(n))
  {
    forall i: nat ensures i in Elems(Indices(n)[..k]) <==> i in IndexSet(k) {
      assert i < k ==> Indices(n)[..k][i] == i;
    }
  }

  // The in-order run of acceptable transactions passes exactly when their order has room.
  lemma {:induction false} InOrderRoom(b: Block, s0: State, p: nat)
    requires Footprints(b) && p <= |b.txs| && AllAccepted(b, s0, p)
    ensures InOrder(b, s0, p).Done? <==> forall i :: 0 <= i < p ==> GasBefore(b, s0, i) + b.txs[i].gasLimit <= b.gasLimit
  {
    hide Footprints, GasBefore, InOrder;
    if p > 0 {
      InOrderRoom(b, s0, p - 1);
      assert Accepted(b, s0, p - 1);
      if InOrder(b, s0, p - 1).Done? {
        InOrderMeaning(b, s0, p - 1);
        InOrderNext(b, s0, p - 1, b.gasLimit - GasBefore(b, s0, p - 1));
      } else {
        InOrderStays(b, s0, p - 1, p);
      }
    } else {
      InOrderStart(b, s0);
    }
  }

  lemma InOrderIsRoom(b: Block, s0: State)
    requires Footprints(b) && AllAccepted(b, s0, |b.txs|)
    ensures InOrder(b, s0, |b.txs|).Done? <==> Room(Indices(|b.txs|), Used(b, s0), GasLimits(b), b.gasLimit)
  {
    hide Footprints, GasBefore, InOrder, Over, GasOf, Accepted;
    InOrderRoom(b, s0, |b.txs|);
    forall i | 0 <= i < |b.txs|
      ensures GasBefore(b, s0, i) == Over(Used(b, s0), Elems(Indices(|b.txs|)[..i])) && At(GasLimits(b), i) == b.txs[i].gasLimit
    {
      IndicesPrefix(|b.txs|, i);
      ChargesOfPrefix(b, s0, i);
      LeftIsOver(b, s0, IndexSet(i));
    }
    assert forall i :: 0 <= i < |b.txs| ==> Indices(|b.txs|)[i] == i;
  }

  // ----- Both conditions hold: every run agrees with the in-order run.

  lemma DemandIsOver(b: Block, s0: State, jobs: seq<nat>, done: set<nat>, flight: set<nat>, m: nat)
    requires m <= |jobs| && flight !! done
    ensures Sum(Demand(Wave(b, s0, jobs, done, s0), flight, m)) ==
              Over(Used(b, s0), Others(jobs, done, flight, m)) + Over(GasLimits(b), flight)
  {
    hide GasOf, Sum;
    SumSplits(Mask(Used(b, s0), Others(jobs, done, flight, m)), Mask(GasLimits(b), flight),
              Demand(Wave(b, s0, jobs, done, s0), flight, m));
  }

  lemma FlightIsNew(b: Block, jobs: seq<nat>, done: set<nat>, workers: nat, flight: set<nat>, m: nat)
    requires WaveReady(b, jobs, done) && Peak(jobs, workers, flight, m)
    ensures flight !! done && m <= |jobs|
  {
    forall i | i in flight ensures i !in done {
      assert i in jobs[..m] && i in jobs && Ready(b, done, i);
    }
  }

  lemma CoveredHasRoom(b: Block, headers: seq<TxHeader>, shape: Shape, cfg: Config, jobs: seq<nat>, done: set<nat>, s0: State)
    requires Shaped(b, headers, shape) && AllAccepted(b, s0, |b.txs|) && cfg.procs > 0 && InRange(b, jobs)
    requires WaveReady(b, jobs, done) && WaveCovered(shape, cfg, jobs, done)
    requires Room(Indices(|b.txs|), Used(b, s0), shape.limits, shape.gasLimit)
    ensures WaveRoom(b, s0, cfg, jobs, done)
  {
    hide Room, Covered, GasLeft, Over, GasOf, Sum, Accepted, Footprints, Matches, WaveReady;
    var used, inOrder := Used(b, s0), Indices(|b.txs|);
    UsedBetween(b, headers, shape, s0);
    if RunsDirectly(cfg, jobs) {
      forall q | 0 <= q < |jobs| ensures b.txs[jobs[q]].gasLimit <= GasLeft(b, s0, done + Elems(jobs[..q])) {
        CoveredBounds(inOrder, done + Elems(jobs[..q]), At(shape.limits, jobs[q]), shape.least, used, shape.limits, shape.gasLimit);
        LeftIsOver(b, s0, done + Elems(jobs[..q]));
        assert GasLimits(b)[jobs[q]] == b.txs[jobs[q]].gasLimit;
      }
    } else {
      var c, workers := Wave(b, s0, jobs, done, s0), WorkerCount(cfg, |jobs|);
      forall flight: set<nat>, m: nat | Peak(jobs, workers, flight, m) ensures Sum(Demand(c, flight, m)) <= b.gasLimit {
        FlightIsNew(b, jobs, done, workers, flight, m);
        CoveredBounds(inOrder, Others(jobs, done, flight, m), Over(shape.limits, flight), shape.least, used, shape.limits, shape.gasLimit);
        DemandIsOver(b, s0, jobs, done, flight, m);
      }
    }
  }

  lemma PosedStands(b: Block, headers: seq<TxHeader>, shape: Shape, cfg: Config, groups: seq<seq<nat>>, s0: State)
    requires Posed(headers, shape, cfg, groups) && Shaped(b, headers, shape)
    ensures |b.txs| == |shape.limits| && (forall v :: 0 <= v < |groups| ==> InRange(b, groups[v])) && BlockStands(b, s0, cfg, groups)
  {
    hide OrderRespecting, Footprints;
    MatchesDecls(b, headers);
    ScheduleInRange(b, groups);
  }

  // What passes has only accepted transactions.
  lemma PassedWave(b: Block, s0: State, cfg: Config, jobs: seq<nat>, done: set<nat>)
    requires cfg.procs > 0 && InRange(b, jobs) && Footprints(b) && WaveReady(b, jobs, done) && b.gasLimit < TWO_64 && jobs != []
    requires WaveRun(b, s0, cfg, jobs, done, None)
    ensures forall i :: i in jobs ==> i < |b.txs| && Accepted(b, s0, i)
  {
    hide Footprints, Synced, WaveReady, Accepted;
    if RunsDirectly(cfg, jobs) {
      PassedDirect(b, s0, jobs, done);
    } else {
      var workers := WorkerCount(cfg, |jobs|);
      var base, gas, schedule, q :| PoolRun(b, s0, jobs, workers, done, base, gas, schedule, q) && q.firstErr == None;
      PassedPool(b, s0, jobs, workers, done, base, gas, schedule, q);
    }
  }

  lemma PassedPool(b: Block, s0: State, jobs: seq<nat>, workers: nat, done: set<nat>, base: State, gas: nat, schedule: seq<nat>, q: Pool)
    requires Footprints(b) && WaveReady(b, jobs, done) && b.gasLimit < TWO_64 && workers > 0 && InRange(b, jobs)
    requires PoolRun(b, s0, jobs, workers, done, base, gas, schedule, q) && q.firstErr.None?
    ensures forall i :: i in jobs ==> i < |b.txs| && Accepted(b, s0, i)
  {
    hide Footprints, Synced, WaveReady, Accepted, Inv, Leads, AllStopped, Charges;
    var c := Wave(b, s0, jobs, done, base);
    GasIsLeft(b, s0, done, gas);
    PoolStarts(c, workers, gas, Charges(b, s0, done));
    RunKeepsInv(c, Start(base, workers, gas, Charges(b, s0, done)), schedule, q);
    CleanEnd(c, q);
    forall i | i in jobs ensures i < |b.txs| {
      var k :| 0 <= k < |jobs| && jobs[k] == i;
    }
  }

  lemma {:induction false} PassedDirect(b: Block, s0: State, jobs: seq<nat>, done: set<nat>)
    requires InRange(b, jobs) && DirectEnd(b, s0, jobs, done).None?
    ensures forall i :: i in jobs ==> i < |b.txs| && Accepted(b, s0, i)
    decreases |jobs|
  {
    hide GasLeft;
    if jobs != [] {
      PassedDirect(b, s0, jobs[1..], done + {jobs[0]});
      assert forall i :: i in jobs ==> i == jobs[0] || i in jobs[1..];
    }
  }

  lemma {:induction false} PassedBlock(b: Block, s0: State, cfg: Config, groups: seq<seq<nat>>, w: nat, v: nat)
    requires BlockStands(b, s0, cfg, groups) && w <= v < |groups| && BlockRun(b, s0, cfg, groups, w, None)
    ensures forall i :: i in groups[v] ==> i < |b.txs| && Accepted(b, s0, i)
    decreases v - w
  {
    hide Footprints, OrderRespecting, Accepted, WaveRun;
    if w < v {
      PassedBlock(b, s0, cfg, groups, w + 1, v);
    } else {
      ScheduleIsReady(b, groups, v);
      PassedWave(b, s0, cfg, groups[v], DoneBefore(groups, v));
    }
  }

  lemma PassedIsAccepted(b: Block, s0: State, cfg: Config, groups: seq<seq<nat>>)
    requires BlockStands(b, s0, cfg, groups) && BlockRun(b, s0, cfg, groups, 0, None)
    ensures AllAccepted(b, s0, |b.txs|)
  {
    hide Footprints, BlockRun, Accepted;
    forall i | 0 <= i < |b.txs| ensures Accepted(b, s0, i) {
      var v := WaveOf(Decls(b), groups, i);
      PassedBlock(b, s0, cfg, groups, 0, v);
    }
  }

  lemma NoAlarm(b: Block, headers: seq<TxHeader>, shape: Shape, cfg: Config, groups: seq<seq<nat>>, s0: State, end: Option<TxError>)
    requires Posed(headers, shape, cfg, groups) && Shaped(b, headers, shape) && NoFalseAlarm(shape, cfg, groups)
    requires (forall v :: 0 <= v < |groups| ==> InRange(b, groups[v])) && BlockRun(b, s0, cfg, groups, 0, end)
    requires AllAccepted(b, s0, |b.txs|) && InOrder(b, s0, |b.txs|).Done?
    ensures end.None?
  {
    hide Posed, Shaped, InOrder, WaveCovered, WaveRoom, BlockRun, Accepted, Room, Used, OrderRespecting, Footprints;
    PosedStands(b, headers, shape, cfg, groups, s0);
    InOrderIsRoom(b, s0);
    assert GasLimits(b) == shape.limits && b.gasLimit == shape.gasLimit by { ShapeOf(b, headers, shape); }
    forall w | 0 <= w < |groups| ensures WaveRoom(b, s0, cfg, groups[w], DoneBefore(groups, w)) {
      ScheduleIsReady(b, groups, w);
      CoveredHasRoom(b, headers, shape, cfg, groups[w], DoneBefore(groups, w), s0);
    }
    BlockGasExact(b, s0, cfg, groups);
  }

  lemma ShapeOf(b: Block, headers: seq<TxHeader>, shape: Shape)
    requires Shaped(b, headers, shape)
    ensures GasLimits(b) == shape.limits && b.gasLimit == shape.gasLimit && Footprints(b) && |b.txs| == |shape.limits|
  {
  }

  lemma NoPass(b: Block, headers: seq<TxHeader>, shape: Shape, cfg: Config, groups: seq<seq<nat>>, s0: State)
    requires Posed(headers, shape, cfg, groups) && Shaped(b, headers, shape) && NoFalsePass(shape, cfg, groups)
    requires (forall v :: 0 <= v < |groups| ==> InRange(b, groups[v])) && BlockRun(b, s0, cfg, groups, 0, None)
    ensures InOrder(b, s0, |b.txs|).Done?
  {
    hide Posed, Shaped, InOrder, BlockRun, Accepted, Room, Covered, OrderRespecting, Footprints, GasLeft, DirectRoom, Over, GasOf, BlockOrder;
    PosedStands(b, headers, shape, cfg, groups, s0);
    ShapeOf(b, headers, shape);
    PassedIsAccepted(b, s0, cfg, groups);
    FullAtStart(b, s0, groups);
    var order := CleanBlockOrder(b, s0, cfg, groups, 0);
    RoomIsRoom(b, s0, order);
    UsedBetween(b, headers, shape, s0);
    forall i | 0 <= i < |b.txs| ensures Over(Used(b, s0), IndexSet(i)) + shape.limits[i] <= shape.gasLimit {
      CoveredBounds(order, IndexSet(i), shape.limits[i], shape.least, Used(b, s0), shape.limits, shape.gasLimit);
    }
    InOrderIsRoom(b, s0);
    RoomByIndex(Used(b, s0), shape.limits, shape.gasLimit);
  }

  lemma RoomByIndex(used: seq<nat>, limits: seq<nat>, total: nat)
    requires |used| == |limits|
    ensures Room(Indices(|limits|), used, limits, total) <==> forall i :: 0 <= i < |limits| ==> Over(used, IndexSet(i)) + limits[i] <= total
  {
    hide Over;
    forall i | 0 <= i < |limits| ensures Elems(Indices(|limits|)[..i]) == IndexSet(i) && At(limits, Indices(|limits|)[i]) == limits[i] {
      IndicesPrefix(|limits|, i);
    }
  }

  lemma BothMakeAlike(b: Block, headers: seq<TxHeader>, shape: Shape, cfg: Config, groups: seq<seq<nat>>, s0: State)
    requires Posed(headers, shape, cfg, groups) && Shaped(b, headers, shape)
    requires NoFalseAlarm(shape, cfg, groups) && NoFalsePass(shape, cfg, groups)
    requires forall v :: 0 <= v < |groups| ==> InRange(b, groups[v])
    ensures Alike(b, s0, cfg, groups)
  {
    hide Posed, Shaped, NoFalseAlarm, NoFalsePass, InOrder, BlockRun, Footprints, Accepted, FinalReceipts;
    assert cfg.procs > 0 by { PosedStands(b, headers, shape, cfg, groups, s0); }
    ShapeOf(b, headers, shape);
    forall end | BlockRun(b, s0, cfg, groups, 0, end) ensures end.None? <==> InOrder(b, s0, |b.txs|).Done? {
      if InOrder(b, s0, |b.txs|).Done? {
        InOrderMeaning(b, s0, |b.txs|);
        NoAlarm(b, headers, shape, cfg, groups, s0, end);
      } else if end.None? {
        NoPass(b, headers, shape, cfg, groups, s0);
      }
    }
  }

  // ----- One condition fails: some block of the shape is treated differently.

  // Declares what it is told to, writes nothing, pays nothing, burns gas.
  function Burner(decl: set<Address>, gasLimit: nat, gasUsed: nat): (tx: Tx) {
    Tx(decl, gasLimit, (s: State) => Applied(s, {}, gasUsed, 0, true, []))
  }

  lemma BurnerRespectsFootprint(decl: set<Address>, gasLimit: nat, gasUsed: nat, coinbase: Address)
    requires gasUsed <= gasLimit && coinbase !in decl
    ensures RespectsFootprint(Burner(decl, gasLimit, gasUsed), coinbase)
  {
    var tx := Burner(decl, gasLimit, gasUsed);
    forall s: State ensures StaysInFootprint(tx, coinbase, s) {
    }
    forall s: State, t: State | AgreeOn(s, t, tx.decl) ensures SameVerdict(tx.run(s), tx.run(t), tx.decl) {
    }
  }

  ghost function BurnerBlock(headers: seq<TxHeader>, shape: Shape, used: seq<nat>): (b: Block)
    requires |headers| == |shape.limits| == |used|
    ensures |b.txs| == |headers|
  {
    Block(seq(|headers|, i requires 0 <= i < |headers| => Burner(Declared(headers[i]), shape.limits[i], used[i])),
          shape.coinbase, shape.gasLimit)
  }

  lemma BurnersFit(headers: seq<TxHeader>, shape: Shape, cfg: Config, groups: seq<seq<nat>>, used: seq<nat>, s0: State)
    requires Posed(headers, shape, cfg, groups) && Between(shape.least, used, shape.limits)
    ensures var b := BurnerBlock(headers, shape, used);
            Shaped(b, headers, shape) && AllAccepted(b, s0, |b.txs|) && Used(b, s0) == used
  {
    hide OrderRespecting;
    var b := BurnerBlock(headers, shape, used);
    forall i | 0 <= i < |b.txs| ensures RespectsFootprint(b.txs[i], b.coinbase) && Accepted(b, s0, i) && GasOf(b, s0, i) == used[i] {
      BurnerRespectsFootprint(Declared(headers[i]), shape.limits[i], used[i], shape.coinbase);
    }
    assert GasLimits(b) == shape.limits;
  }

  // The block of burners is one of the blocks in question, so treating it differently refutes.
  lemma Refutes(b: Block, headers: seq<TxHeader>, shape: Shape, cfg: Config, groups: seq<seq<nat>>, s0: State, end: Option<TxError>)
    requires cfg.procs > 0 && Shaped(b, headers, shape) && forall v :: 0 <= v < |groups| ==> InRange(b, groups[v])
    requires BlockRun(b, s0, cfg, groups, 0, end) && (end.None? != InOrder(b, s0, |b.txs|).Done?)
    ensures !AllAlike(headers, shape, cfg, groups, s0)
  {
    hide Shaped, BlockRun, InOrder;
    assert !Alike(b, s0, cfg, groups);
  }

  lemma DoneIsInRange(b: Block, groups: seq<seq<nat>>, w: nat)
    requires OrderRespecting(Decls(b), groups) && w <= |groups|
    ensures DoneBefore(groups, w) <= AllTxs(b) && (w < |groups| ==> Elems(groups[w]) <= AllTxs(b))
  {
    DoneBeforeMembers(groups, w);
  }

  lemma AllIndices(n: nat)
    ensures Elems(Indices(n)) == IndexSet(n) && Distinct(Indices(n))
  {
    IndicesPrefix(n, n);
    assert Indices(n)[..n] == Indices(n);
  }

  // Uses for which the in-order run passes and the set x needs more than it leaves.
  lemma FalseAlarm(headers: seq<TxHeader>, shape: Shape, cfg: Config, groups: seq<seq<nat>>, s0: State, x: set<nat>, amount: nat)
    returns (b: Block)
    requires Posed(headers, shape, cfg, groups) && x <= IndexSet(|shape.limits|)
    requires !Covered(Indices(|shape.limits|), x, amount, shape.least, shape.limits, shape.gasLimit)
    ensures |b.txs| == |shape.limits| && Shaped(b, headers, shape) && AllAccepted(b, s0, |b.txs|)
    ensures InOrder(b, s0, |b.txs|).Done? && Over(Used(b, s0), x) + amount > shape.gasLimit
  {
    hide OrderRespecting, Shaped, Covered, Over, BurnerBlock, InOrder, Accepted, Room, Used, Footprints;
    AllIndices(|shape.limits|);
    var used := Uncovered(Indices(|shape.limits|), x, amount, shape.least, shape.limits, shape.gasLimit);
    b := BurnerBlock(headers, shape, used);
    BurnersFit(headers, shape, cfg, groups, used, s0);
    ShapeOf(b, headers, shape);
    InOrderIsRoom(b, s0);
  }

  lemma AlarmRefutes(headers: seq<TxHeader>, shape: Shape, cfg: Config, groups: seq<seq<nat>>, s0: State, w: nat)
    requires Posed(headers, shape, cfg, groups) && w < |groups| && !WaveCovered(shape, cfg, groups[w], DoneBefore(groups, w))
    ensures !AllAlike(headers, shape, cfg, groups, s0)
  {
    hide Posed, WaveCovered, BlockStands, WaveRoom, AllAlike, InOrder, BlockRun, Shaped, Accepted;
    assert cfg.procs > 0 by { PosedBasics(headers, shape, cfg, groups); }
    var b := NoRoomInWave(headers, shape, cfg, groups, s0, w);
    PosedStands(b, headers, shape, cfg, groups, s0);
    BlockGasExact(b, s0, cfg, groups);
    var end :| BlockRun(b, s0, cfg, groups, 0, end) && end.Some?;
    Refutes(b, headers, shape, cfg, groups, s0, end);
  }

  lemma PosedBasics(headers: seq<TxHeader>, shape: Shape, cfg: Config, groups: seq<seq<nat>>)
    requires Posed(headers, shape, cfg, groups)
    ensures cfg.procs > 0 && |shape.limits| == |shape.least| == |headers|
  {
  }

  lemma NoRoomInWave(headers: seq<TxHeader>, shape: Shape, cfg: Config, groups: seq<seq<nat>>, s0: State, w: nat) returns (b: Block)
    requires Posed(headers, shape, cfg, groups) && w < |groups| && !WaveCovered(shape, cfg, groups[w], DoneBefore(groups, w))
    ensures Shaped(b, headers, shape) && AllAccepted(b, s0, |b.txs|) && InOrder(b, s0, |b.txs|).Done?
    ensures forall v :: 0 <= v < |groups| ==> InRange(b, groups[v])
    ensures !WaveRoom(b, s0, cfg, groups[w], DoneBefore(groups, w))
  {
    hide Posed, Shaped, Covered, Over, InOrder, Accepted, OrderRespecting, Footprints, GasLeft, Demand, Sum;
    PosedBasics(headers, shape, cfg, groups);
    var jobs, done := groups[w], DoneBefore(groups, w);
    WavesInRange(headers, shape, cfg, groups, w, s0);
    if RunsDirectly(cfg, jobs) {
      var q :| 0 <= q < |jobs| &&
        !Covered(Indices(|shape.limits|), done + Elems(jobs[..q]), At(shape.limits, jobs[q]), shape.least, shape.limits, shape.gasLimit);
      var x := done + Elems(jobs[..q]);
      PrefixElems(jobs, q);
      b := FalseAlarm(headers, shape, cfg, groups, s0, x, At(shape.limits, jobs[q]));
      PosedStands(b, headers, shape, cfg, groups, s0);
      ShapeOf(b, headers, shape);
      LeftIsOver(b, s0, x);
      assert GasLimits(b)[jobs[q]] == b.txs[jobs[q]].gasLimit;
    } else {
      var workers := WorkerCount(cfg, |jobs|);
      var flight: set<nat>, m: nat :| Peak(jobs, workers, flight, m) &&
        !Covered(Indices(|shape.limits|), Others(jobs, done, flight, m), Over(shape.limits, flight), shape.least, shape.limits, shape.gasLimit);
      PrefixElems(jobs, m);
      b := FalseAlarm(headers, shape, cfg, groups, s0, Others(jobs, done, flight, m), Over(shape.limits, flight));
      PosedStands(b, headers, shape, cfg, groups, s0);
      ShapeOf(b, headers, shape);
      ScheduleIsReady(b, groups, w);
      FlightIsNew(b, jobs, done, workers, flight, m);
      DemandIsOver(b, s0, jobs, done, flight, m);
    }
  }

  lemma PrefixElems(jobs: seq<nat>, q: nat)
    requires q <= |jobs|
    ensures Elems(jobs[..q]) <= Elems(jobs)
  {
  }

  lemma WavesInRange(headers: seq<TxHeader>, shape: Shape, cfg: Config, groups: seq<seq<nat>>, w: nat, s0: State)
    requires Posed(headers, shape, cfg, groups) && w < |groups|
    ensures DoneBefore(groups, w) <= IndexSet(|shape.limits|) && Elems(groups[w]) <= IndexSet(|shape.limits|)
  {
    hide OrderRespecting, BurnerBlock;
    var b := BurnerBlock(headers, shape, shape.least);
    BurnersFit(headers, shape, cfg, groups, shape.least, s0);
    MatchesDecls(b, headers);
    DoneIsInRange(b, groups, w);
  }

  lemma PassRefutes(headers: seq<TxHeader>, shape: Shape, cfg: Config, groups: seq<seq<nat>>, s0: State, order: seq<nat>, i: nat)
    requires Posed(headers, shape, cfg, groups) && cfg.procs > 0 && BlockOrder(cfg, groups, 0, order) && i < |shape.limits|
    requires !Covered(order, IndexSet(i), shape.limits[i], shape.least, shape.limits, shape.gasLimit)
    ensures !AllAlike(headers, shape, cfg, groups, s0)
  {
    hide Shaped, Covered, Over, BurnerBlock, InOrder, Accepted, Room, Used, OrderRespecting, Footprints, BlockOrder, GasLeft, DirectRoom, BlockRun, AllAlike;
    OrderOfAll(headers, shape, cfg, groups, s0, order);
    var used := Uncovered(order, IndexSet(i), shape.limits[i], shape.least, shape.limits, shape.gasLimit);
    var b := BurnerBlock(headers, shape, used);
    BurnersFit(headers, shape, cfg, groups, used, s0);
    ShapeOf(b, headers, shape);
    PosedStands(b, headers, shape, cfg, groups, s0);
    BlockOrderElems(b, cfg, groups, 0, order);
    RoomIsRoom(b, s0, order);
    FullAtStart(b, s0, groups);
    OrderRunsBlock(b, s0, cfg, groups, 0, order);
    InOrderIsRoom(b, s0);
    RoomByIndex(used, shape.limits, shape.gasLimit);
    Refutes(b, headers, shape, cfg, groups, s0, None);
  }

  lemma OrderOfAll(headers: seq<TxHeader>, shape: Shape, cfg: Config, groups: seq<seq<nat>>, s0: State, order: seq<nat>)
    requires Posed(headers, shape, cfg, groups) && cfg.procs > 0 && BlockOrder(cfg, groups, 0, order)
    ensures Distinct(order) && Elems(order) == IndexSet(|shape.limits|) && forall i :: i in order ==> i < |shape.limits|
  {
    hide OrderRespecting, BurnerBlock, BlockOrder;
    var b := BurnerBlock(headers, shape, shape.least);
    BurnersFit(headers, shape, cfg, groups, shape.least, s0);
    MatchesDecls(b, headers);
    BlockOrderElems(b, cfg, groups, 0, order);
    assert DoneBefore(groups, 0) + Elems(order) == Elems(order);
    forall i | i in order ensures i < |shape.limits| {
      assert i in Elems(order);
    }
  }

  // ----- The exact condition.

  // For every schedule, configuration, limits and least uses: all blocks of the shape are
  // accepted by every run exactly as in order if and only if no wave can raise a false
  // alarm and no order of purchases lets a block through that the in-order run rejects.
  lemma AcceptanceExact(headers: seq<TxHeader>, shape: Shape, cfg: Config, groups: seq<seq<nat>>, s0: State)
    requires cfg.procs > 0 && Posed(headers, shape, cfg, groups)
    ensures AllAlike(headers, shape, cfg, groups, s0) <==> NoFalseAlarm(shape, cfg, groups) && NoFalsePass(shape, cfg, groups)
  {
    hide Posed, Shaped, Alike, WaveCovered, Covered, BlockOrder;
    if NoFalseAlarm(shape, cfg, groups) && NoFalsePass(shape, cfg, groups) {
      forall b: Block | Shaped(b, headers, shape) && forall v :: 0 <= v < |groups| ==> InRange(b, groups[v])
        ensures Alike(b, s0, cfg, groups)
      {
        BothMakeAlike(b, headers, shape, cfg, groups, s0);
      }
    } else if !NoFalseAlarm(shape, cfg, groups) {
      var w :| 0 <= w < |groups| && !WaveCovered(shape, cfg, groups[w], DoneBefore(groups, w));
      AlarmRefutes(headers, shape, cfg, groups, s0, w);
    } else {
      var order: seq<nat>, i: nat :| BlockOrder(cfg, groups, 0, order) && i < |shape.limits| &&
        !Covered(order, IndexSet(i), shape.limits[i], shape.least, shape.limits, shape.gasLimit);
      PassRefutes(headers, shape, cfg, groups, s0, order, i);
    }
  }
}
