// Whole blocks: the orders in which the transactions of a block can buy their gas, and
// that a block of acceptable transactions can pass exactly when one of them has room.
module BlockOrders {
  import opened Base
  import opened WaveScheduler
  import opened Execution
  import opened WavePool
  import opened WaveRuns
  import opened BlockProcess
  import opened BlockGas
  import opened BuyOrders

  ghost predicate WaveOrder(cfg: Config, jobs: seq<nat>, order: seq<nat>)
    requires cfg.procs > 0
  {
    if RunsDirectly(cfg, jobs) then order == jobs else Feasible(jobs, WorkerCount(cfg, |jobs|), order)
  }

  // Wave after wave, each in one of its own orders.
  ghost predicate BlockOrder(cfg: Config, groups: seq<seq<nat>>, w: nat, order: seq<nat>)
    requires cfg.procs > 0 && w <= |groups|
    decreases |groups| - w
  {
    if w == |groups| then order == []
    else
      && |groups[w]| <= |order| && WaveOrder(cfg, groups[w], order[..|groups[w]|])
      && BlockOrder(cfg, groups, w + 1, order[|groups[w]|..])
  }

  lemma WaveOrderElems(b: Block, cfg: Config, jobs: seq<nat>, done: set<nat>, order: seq<nat>)
    requires cfg.procs > 0 && WaveReady(b, jobs, done) && WaveOrder(cfg, jobs, order)
    ensures Distinct(order) && Elems(order) == Elems(jobs) && |order| == |jobs| && InRange(b, order) && Elems(order) !! done
  {
    hide Overtakes;
    forall q | 0 <= q < |order| ensures order[q] < |b.txs| {
      assert order[q] in Elems(order) && order[q] in jobs && Ready(b, done, order[q]);
    }
    forall i | i in Elems(order) ensures i !in done {
      assert i in jobs && Ready(b, done, i);
    }
  }

  // ----- Room along a concatenation.

  lemma RoomConcat(b: Block, s0: State, x: seq<nat>, y: seq<nat>, done: set<nat>)
    requires InRange(b, x) && InRange(b, y)
    ensures InRange(b, x + y)
    ensures DirectRoom(b, s0, x + y, done) <==> DirectRoom(b, s0, x, done) && DirectRoom(b, s0, y, done + Elems(x))
  {
    hide GasLeft;
    forall q | 0 <= q < |x| ensures (x + y)[..q] == x[..q] {
    }
    forall q | 0 <= q < |y| ensures done + Elems((x + y)[..|x| + q]) == done + Elems(x) + Elems(y[..q]) {
      assert (x + y)[..|x| + q] == x + y[..q];
    }
    if DirectRoom(b, s0, x + y, done) {
      forall q | 0 <= q < |x| ensures b.txs[x[q]].gasLimit <= GasLeft(b, s0, done + Elems(x[..q])) {
        assert (x + y)[q] == x[q];
      }
      forall q | 0 <= q < |y| ensures b.txs[y[q]].gasLimit <= GasLeft(b, s0, done + Elems(x) + Elems(y[..q])) {
        assert (x + y)[|x| + q] == y[q];
      }
    }
    if DirectRoom(b, s0, x, done) && DirectRoom(b, s0, y, done + Elems(x)) {
      forall q | 0 <= q < |x + y| ensures b.txs[(x + y)[q]].gasLimit <= GasLeft(b, s0, done + Elems((x + y)[..q])) {
        if q >= |x| {
          var r := q - |x|;
          assert y[r] == (x + y)[|x| + r] && done + Elems((x + y)[..|x| + r]) == done + Elems(x) + Elems(y[..r]);
        }
      }
    }
  }

  lemma OrderNoDebt(b: Block, s0: State, order: seq<nat>, done: set<nat>)
    requires Footprints(b) && InRange(b, order) && order != [] && Distinct(order) && Elems(order) !! done
    requires DirectRoom(b, s0, order, done)
    ensures GasLeft(b, s0, done + Elems(order)) >= 0
  {
    hide Footprints;
    var n := |order| - 1;
    var i := order[n];
    assert order == order[..n] + [i];
    assert i in Elems(order) && i !in done + Elems(order[..n]);
    assert done + Elems(order) == done + Elems(order[..n]) + {i};
    GasWithinLimit(b, s0, i);
    ChargesAdd(b, s0, done + Elems(order[..n]), i);
  }

  // ----- One wave.

  lemma CleanWaveOrder(b: Block, s0: State, cfg: Config, jobs: seq<nat>, done: set<nat>, base: State) returns (order: seq<nat>)
    requires cfg.procs > 0 && InRange(b, jobs) && WaveStands(b, s0, jobs, done, base) && WaveRun(b, s0, cfg, jobs, done, None)
    ensures WaveOrder(cfg, jobs, order) && InRange(b, order) && DirectRoom(b, s0, order, done)
  {
    hide DirectRoom, GasLeft;
    if RunsDirectly(cfg, jobs) {
      DirectExact(b, s0, jobs, done);
      order := jobs;
    } else {
      var workers := WorkerCount(cfg, |jobs|);
      var base', gas, schedule, q :| PoolRun(b, s0, jobs, workers, done, base', gas, schedule, q) && q.firstErr == None;
      order := CleanRunOrder(b, s0, jobs, workers, done, base', gas, schedule, q);
    }
  }

  lemma OrderRunsWave(b: Block, s0: State, cfg: Config, jobs: seq<nat>, done: set<nat>, base: State, order: seq<nat>)
    requires cfg.procs > 0 && InRange(b, jobs) && WaveStands(b, s0, jobs, done, base)
    requires WaveOrder(cfg, jobs, order) && InRange(b, order) && DirectRoom(b, s0, order, done)
    ensures WaveRun(b, s0, cfg, jobs, done, None)
  {
    if RunsDirectly(cfg, jobs) {
      DirectExact(b, s0, jobs, done);
    } else {
      var gas, schedule, q := OrderRuns(b, s0, jobs, WorkerCount(cfg, |jobs|), done, base, order);
    }
  }

  // ----- The block.

  // A run that passes has bought in some order of the block, with room at every turn.
  lemma {:induction false} CleanBlockOrder(b: Block, s0: State, cfg: Config, groups: seq<seq<nat>>, w: nat) returns (order: seq<nat>)
    requires BlockStands(b, s0, cfg, groups) && AllAccepted(b, s0, |b.txs|) && w <= |groups|
    requires GasLeft(b, s0, DoneBefore(groups, w)) >= 0 && BlockRun(b, s0, cfg, groups, w, None)
    ensures BlockOrder(cfg, groups, w, order) && InRange(b, order) && DirectRoom(b, s0, order, DoneBefore(groups, w))
    decreases |groups| - w
  {
    hide Footprints, OrderRespecting, WaveStands, WaveRun, WaveOrder, GasLeft, Accepted, WaveReady, DirectRoom;
    if w == |groups| {
      order := [];
      NoneLeft(b, s0, DoneBefore(groups, w));
    } else {
      var jobs, done := groups[w], DoneBefore(groups, w);
      var base := WaveAt(b, s0, cfg, groups, w);
      var first := CleanWaveOrder(b, s0, cfg, jobs, done, base);
      ScheduleIsReady(b, groups, w);
      WaveOrderElems(b, cfg, jobs, done, first);
      OrderNoDebt(b, s0, first, done);
      var rest := CleanBlockOrder(b, s0, cfg, groups, w + 1);
      RoomConcat(b, s0, first, rest, done);
      order := first + rest;
      assert order[..|jobs|] == first && order[|jobs|..] == rest;
    }
  }

  lemma NoneLeft(b: Block, s0: State, done: set<nat>)
    ensures DirectRoom(b, s0, [], done)
  {
  }

  // An order of the block with room at every turn is a run that passes.
  lemma {:induction false} OrderRunsBlock(b: Block, s0: State, cfg: Config, groups: seq<seq<nat>>, w: nat, order: seq<nat>)
    requires BlockStands(b, s0, cfg, groups) && AllAccepted(b, s0, |b.txs|) && w <= |groups|
    requires GasLeft(b, s0, DoneBefore(groups, w)) >= 0 && BlockOrder(cfg, groups, w, order)
    requires InRange(b, order) && DirectRoom(b, s0, order, DoneBefore(groups, w))
    ensures BlockRun(b, s0, cfg, groups, w, None)
    decreases |groups| - w
  {
    hide Footprints, OrderRespecting, WaveStands, WaveRun, WaveOrder, GasLeft, Accepted, WaveReady, DirectRoom;
    if w < |groups| {
      var jobs, done := groups[w], DoneBefore(groups, w);
      var first, rest := order[..|jobs|], order[|jobs|..];
      assert order == first + rest;
      var base := WaveAt(b, s0, cfg, groups, w);
      ScheduleIsReady(b, groups, w);
      WaveOrderElems(b, cfg, jobs, done, first);
      RoomConcat(b, s0, first, rest, done);
      OrderRunsWave(b, s0, cfg, jobs, done, base, first);
      OrderNoDebt(b, s0, first, done);
      OrderRunsBlock(b, s0, cfg, groups, w + 1, rest);
    }
  }

  // Every order of the block lists every transaction once.
  lemma {:induction false} BlockOrderElems(b: Block, cfg: Config, groups: seq<seq<nat>>, w: nat, order: seq<nat>)
    requires cfg.procs > 0 && OrderRespecting(Decls(b), groups) && w <= |groups| && BlockOrder(cfg, groups, w, order)
    ensures Distinct(order) && InRange(b, order) && Elems(order) !! DoneBefore(groups, w)
    ensures DoneBefore(groups, w) + Elems(order) == AllTxs(b)
    decreases |groups| - w
  {
    hide OrderRespecting, WaveOrder, WaveReady;
    if w == |groups| {
      ScheduleCoversAll(b, groups);
    } else {
      var jobs, done := groups[w], DoneBefore(groups, w);
      var first, rest := order[..|jobs|], order[|jobs|..];
      assert order == first + rest;
      ScheduleIsReady(b, groups, w);
      WaveOrderElems(b, cfg, jobs, done, first);
      BlockOrderElems(b, cfg, groups, w + 1, rest);
      DistinctConcat(first, rest);
      assert Elems(order) == Elems(first) + Elems(rest);
    }
  }

  lemma DistinctConcat(x: seq<nat>, y: seq<nat>)
    requires Distinct(x) && Distinct(y) && Elems(x) !! Elems(y)
    ensures Distinct(x + y)
  {
    forall i, j | 0 <= i < |x| && 0 <= j < |y| ensures x[i] != y[j] {
      assert x[i] in Elems(x) && y[j] in Elems(y);
    }
  }
}
