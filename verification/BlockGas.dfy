// When a block of acceptable transactions gets through: wave by wave, whatever the
// schedules, in terms of the gas the transactions use.
module BlockGas {
  import opened Base
  import opened WaveScheduler
  import opened Execution
  import opened WavePool
  import opened WaveRuns
  import opened BlockProcess
  import opened GasExactness

  // The pool cannot stop this wave: applied one by one each transaction finds its limit,
  // on the worker pool every peak fits.
  ghost predicate WaveRoom(b: Block, s0: State, cfg: Config, jobs: seq<nat>, done: set<nat>)
    requires cfg.procs > 0 && InRange(b, jobs)
  {
    if RunsDirectly(cfg, jobs) then DirectRoom(b, s0, jobs, done)
    else PeaksFit(Wave(b, s0, jobs, done, s0), WorkerCount(cfg, |jobs|))
  }

  ghost predicate DirectRoom(b: Block, s0: State, jobs: seq<nat>, done: set<nat>)
    requires InRange(b, jobs)
  {
    forall q :: 0 <= q < |jobs| ==> b.txs[jobs[q]].gasLimit <= GasLeft(b, s0, done + Elems(jobs[..q]))
  }

  ghost predicate BlockRoom(b: Block, s0: State, cfg: Config, groups: seq<seq<nat>>)
    requires cfg.procs > 0 && forall v :: 0 <= v < |groups| ==> InRange(b, groups[v])
  {
    forall w :: 0 <= w < |groups| ==> WaveRoom(b, s0, cfg, groups[w], DoneBefore(groups, w))
  }

  // ----- Direct waves.

  lemma {:induction false} DirectExact(b: Block, s0: State, jobs: seq<nat>, done: set<nat>)
    requires InRange(b, jobs) && AllAccepted(b, s0, |b.txs|)
    ensures DirectEnd(b, s0, jobs, done).None? <==> DirectRoom(b, s0, jobs, done)
    decreases |jobs|
  {
    hide GasLeft;
    if jobs != [] {
      var i, rest := jobs[0], jobs[1..];
      DirectExact(b, s0, rest, done + {i});
      assert Accepted(b, s0, i);
      assert done + Elems(jobs[..0]) == done;
      forall q | 0 <= q < |rest| ensures done + {i} + Elems(rest[..q]) == done + Elems(jobs[..q + 1]) {
        assert jobs[..q + 1] == [i] + rest[..q];
      }
      if DirectRoom(b, s0, rest, done + {i}) && b.txs[i].gasLimit <= GasLeft(b, s0, done) {
        forall q | 0 <= q < |jobs| ensures b.txs[jobs[q]].gasLimit <= GasLeft(b, s0, done + Elems(jobs[..q])) {
          if q > 0 {
            assert rest[q - 1] == jobs[q] && done + {i} + Elems(rest[..q - 1]) == done + Elems(jobs[..q]);
          }
        }
      }
      if DirectRoom(b, s0, jobs, done) {
        forall q | 0 <= q < |rest| ensures b.txs[rest[q]].gasLimit <= GasLeft(b, s0, done + {i} + Elems(rest[..q])) {
          assert rest[q] == jobs[q + 1];
        }
        assert b.txs[jobs[0]].gasLimit <= GasLeft(b, s0, done + Elems(jobs[..0]));
      }
    }
  }

  // ----- A wave, however it is run.

  ghost predicate WaveStands(b: Block, s0: State, jobs: seq<nat>, done: set<nat>, base: State) {
    && Footprints(b) && WaveReady(b, jobs, done) && Synced(b, s0, done, base) && jobs != []
    && b.gasLimit < TWO_64 && AllAccepted(b, s0, |b.txs|) && GasLeft(b, s0, done) >= 0
  }

  // PeaksFit does not look at the state the workers start from.
  lemma SamePeaks(b: Block, s0: State, jobs: seq<nat>, done: set<nat>, s: State, t: State, workers: nat)
    ensures PeaksFit(Wave(b, s0, jobs, done, s), workers) <==> PeaksFit(Wave(b, s0, jobs, done, t), workers)
  {
    var c, d := Wave(b, s0, jobs, done, s), Wave(b, s0, jobs, done, t);
    forall flight: set<nat>, m: nat | m <= |jobs| ensures Demand(c, flight, m) == Demand(d, flight, m) {
    }
  }

  lemma WaveAcceptable(b: Block, s0: State, jobs: seq<nat>, done: set<nat>, base: State)
    requires WaveStands(b, s0, jobs, done, base)
    ensures WaveOk(Wave(b, s0, jobs, done, base)) && Acceptable(Wave(b, s0, jobs, done, base))
  {
    hide Footprints, Synced;
    forall i | i in jobs ensures i < |b.txs| && Accepted(b, s0, i) {
      assert Ready(b, done, i);
    }
  }

  // With room, no run of the wave fails.
  lemma RoomNeverFails(b: Block, s0: State, cfg: Config, jobs: seq<nat>, done: set<nat>, base: State, end: Option<TxError>)
    requires cfg.procs > 0 && InRange(b, jobs) && WaveStands(b, s0, jobs, done, base)
    requires WaveRoom(b, s0, cfg, jobs, done) && WaveRun(b, s0, cfg, jobs, done, end)
    ensures end.None?
  {
    if RunsDirectly(cfg, jobs) {
      DirectExact(b, s0, jobs, done);
    } else {
      var workers := WorkerCount(cfg, |jobs|);
      var base', gas, schedule, q :| PoolRun(b, s0, jobs, workers, done, base', gas, schedule, q) && q.firstErr == end;
      PoolNeverFails(b, s0, jobs, workers, done, base', gas, schedule, q);
    }
  }

  lemma PoolNeverFails(b: Block, s0: State, jobs: seq<nat>, workers: nat, done: set<nat>, base: State, gas: nat,
                       schedule: seq<nat>, q: Pool)
    requires WaveStands(b, s0, jobs, done, base) && PoolRun(b, s0, jobs, workers, done, base, gas, schedule, q)
    requires PeaksFit(Wave(b, s0, jobs, done, s0), workers)
    ensures q.firstErr.None?
  {
    hide Footprints, Synced, WaveReady, Leads, AllStopped, Charges, PeaksFit, WaveOk, Acceptable;
    var c := Wave(b, s0, jobs, done, base);
    WaveAcceptable(b, s0, jobs, done, base);
    SamePeaks(b, s0, jobs, done, s0, base, workers);
    GasLimitExact(c, workers, gas);
    assert Leads(c.block, c.jobs, Start(c.base, workers, gas, Charges(c.block, c.s0, c.before)), schedule, q);
  }

  // Without room, some run fails.
  lemma NoRoomFails(b: Block, s0: State, cfg: Config, jobs: seq<nat>, done: set<nat>, base: State) returns (e: TxError)
    requires cfg.procs > 0 && InRange(b, jobs) && WaveStands(b, s0, jobs, done, base)
    requires !WaveRoom(b, s0, cfg, jobs, done)
    ensures WaveRun(b, s0, cfg, jobs, done, Some(e))
  {
    if RunsDirectly(cfg, jobs) {
      DirectExact(b, s0, jobs, done);
      e := DirectEnd(b, s0, jobs, done).value;
    } else {
      var gas, schedule, q;
      e, gas, schedule, q := PoolFails(b, s0, jobs, WorkerCount(cfg, |jobs|), done, base);
    }
  }

  lemma PoolFails(b: Block, s0: State, jobs: seq<nat>, workers: nat, done: set<nat>, base: State)
    returns (e: TxError, gas: nat, schedule: seq<nat>, q: Pool)
    requires WaveStands(b, s0, jobs, done, base) && !PeaksFit(Wave(b, s0, jobs, done, s0), workers)
    ensures PoolRun(b, s0, jobs, workers, done, base, gas, schedule, q) && q.firstErr == Some(e)
  {
    hide Footprints, Synced, WaveReady, Leads, AllStopped, Charges, PeaksFit, WaveOk, Acceptable, Inv;
    var c := Wave(b, s0, jobs, done, base);
    WaveAcceptable(b, s0, jobs, done, base);
    SamePeaks(b, s0, jobs, done, s0, base, workers);
    gas := GasLeft(b, s0, done);
    PoolStarts(c, workers, gas, Charges(b, s0, done));
    var s, p := GasRunsOut(c, workers, gas);
    schedule, q := CompleteWithError(c, Start(base, workers, gas, Charges(b, s0, done)), s, p);
    e := q.firstErr.value;
  }

  // With room, the wave can end clean.
  lemma RoomRuns(b: Block, s0: State, cfg: Config, jobs: seq<nat>, done: set<nat>, base: State)
    requires cfg.procs > 0 && InRange(b, jobs) && WaveStands(b, s0, jobs, done, base)
    requires WaveRoom(b, s0, cfg, jobs, done)
    ensures WaveRun(b, s0, cfg, jobs, done, None)
  {
    if RunsDirectly(cfg, jobs) {
      DirectExact(b, s0, jobs, done);
    } else {
      var workers := WorkerCount(cfg, |jobs|);
      var gas, schedule, q := PoolRuns(b, s0, jobs, workers, done, base);
      PoolNeverFails(b, s0, jobs, workers, done, base, gas, schedule, q);
    }
  }

  lemma PoolRuns(b: Block, s0: State, jobs: seq<nat>, workers: nat, done: set<nat>, base: State)
    returns (gas: nat, schedule: seq<nat>, q: Pool)
    requires WaveStands(b, s0, jobs, done, base)
    ensures PoolRun(b, s0, jobs, workers, done, base, gas, schedule, q)
  {
    hide Footprints, Synced, WaveReady, Leads, AllStopped, Charges, WaveOk, Acceptable, Inv, JobsInRange;
    var c := Wave(b, s0, jobs, done, base);
    WaveAcceptable(b, s0, jobs, done, base);
    gas := GasLeft(b, s0, done);
    PoolStarts(c, workers, gas, Charges(b, s0, done));
    RangeFromInv(c, Start(base, workers, gas, Charges(b, s0, done)));
    schedule, q := Completes(c, Start(base, workers, gas, Charges(b, s0, done)));
  }

  // ----- From wave to wave.

  lemma {:induction false} AfterSome(b: Block, s0: State, jobs: seq<nat>, done: set<nat>, base: State, q: nat) returns (t: State)
    requires Footprints(b) && WaveReady(b, jobs, done) && Synced(b, s0, done, base) && q <= |jobs| && AllAccepted(b, s0, |b.txs|)
    ensures Synced(b, s0, done + Elems(jobs[..q]), t)
  {
    hide Footprints, WaveReady, Synced, Accepted;
    if q == 0 {
      assert done + Elems(jobs[..0]) == done;
      t := base;
    } else {
      var s := AfterSome(b, s0, jobs, done, base, q - 1);
      var i := jobs[q - 1];
      NextReady(b, jobs, done, q - 1);
      ReadyInRange(b, done + Elems(jobs[..q - 1]), i);
      assert Accepted(b, s0, i);
      ReadyVerdict(b, s0, done + Elems(jobs[..q - 1]), s, i);
      ReadyStep(b, s0, done + Elems(jobs[..q - 1]), s, i);
      assert jobs[..q] == jobs[..q - 1] + [i];
      assert done + Elems(jobs[..q - 1]) + {i} == done + Elems(jobs[..q]);
      t := b.txs[i].run(s).post;
    }
  }

  // Every wave of the schedule has a state to start from.
  lemma {:induction false} StateAtWave(b: Block, s0: State, groups: seq<seq<nat>>, w: nat) returns (t: State)
    requires Footprints(b) && OrderRespecting(Decls(b), groups) && w <= |groups| && AllAccepted(b, s0, |b.txs|)
    ensures Synced(b, s0, DoneBefore(groups, w), t)
  {
    hide Footprints, OrderRespecting, Synced, WaveReady, Accepted;
    if w == 0 {
      SyncedAtStart(b, s0);
      t := s0;
    } else {
      var s := StateAtWave(b, s0, groups, w - 1);
      ScheduleIsReady(b, groups, w - 1);
      t := AfterSome(b, s0, groups[w - 1], DoneBefore(groups, w - 1), s, |groups[w - 1]|);
      assert groups[w - 1][..|groups[w - 1]|] == groups[w - 1];
    }
  }

  // A wave with room leaves no debt: its last transaction bought its limit last.
  lemma NoDebt(b: Block, s0: State, cfg: Config, jobs: seq<nat>, done: set<nat>)
    requires cfg.procs > 0 && InRange(b, jobs) && jobs != [] && Footprints(b) && WaveReady(b, jobs, done)
    requires WaveRoom(b, s0, cfg, jobs, done)
    ensures GasLeft(b, s0, done + Elems(jobs)) >= 0
  {
    hide Footprints, WaveReady;
    var n := |jobs| - 1;
    var i := jobs[n];
    LastIsNew(b, jobs, done);
    assert jobs == jobs[..n] + [i];
    assert done + Elems(jobs) == done + Elems(jobs[..n]) + {i};
    GasWithinLimit(b, s0, i);
    if RunsDirectly(cfg, jobs) {
      ChargesAdd(b, s0, done + Elems(jobs[..n]), i);
    } else {
      LastPeak(b, s0, jobs, done, WorkerCount(cfg, |jobs|));
    }
  }

  lemma LastIsNew(b: Block, jobs: seq<nat>, done: set<nat>)
    requires WaveReady(b, jobs, done) && jobs != []
    ensures var n := |jobs| - 1;
            jobs[n] < |b.txs| && jobs[n] !in done + Elems(jobs[..n])
  {
    assert jobs[|jobs| - 1] in jobs && Ready(b, done, jobs[|jobs| - 1]);
  }

  lemma LastPeak(b: Block, s0: State, jobs: seq<nat>, done: set<nat>, workers: nat)
    requires Footprints(b) && jobs != [] && workers > 0 && PeaksFit(Wave(b, s0, jobs, done, s0), workers)
    ensures GasLeft(b, s0, done + Elems(jobs)) >= 0
  {
    var c, i, m := Wave(b, s0, jobs, done, s0), jobs[|jobs| - 1], |jobs|;
    assert jobs[..m] == jobs && i in jobs;
    assert Peak(c.jobs, workers, {i}, m);
    var charge, demand := Charges(b, s0, done + Elems(jobs)), Demand(c, {i}, m);
    forall k | 0 <= k < |charge| ensures charge[k] <= demand[k] {
      GasWithinLimit(b, s0, k);
    }
    SumDominated(charge, demand);
  }

  // ----- The whole block.

  ghost predicate BlockStands(b: Block, s0: State, cfg: Config, groups: seq<seq<nat>>) {
    && Footprints(b) && OrderRespecting(Decls(b), groups) && b.gasLimit < TWO_64 && cfg.procs > 0
    && (forall w :: 0 <= w < |groups| ==> groups[w] != [] && InRange(b, groups[w]))
  }

  lemma WaveAt(b: Block, s0: State, cfg: Config, groups: seq<seq<nat>>, w: nat) returns (base: State)
    requires BlockStands(b, s0, cfg, groups) && AllAccepted(b, s0, |b.txs|) && w < |groups|
    requires GasLeft(b, s0, DoneBefore(groups, w)) >= 0
    ensures WaveStands(b, s0, groups[w], DoneBefore(groups, w), base)
  {
    hide Footprints, OrderRespecting, Synced, WaveReady, Accepted, GasLeft;
    base := StateAtWave(b, s0, groups, w);
    ScheduleIsReady(b, groups, w);
  }

  lemma {:induction false} RoomFromHere(b: Block, s0: State, cfg: Config, groups: seq<seq<nat>>, w: nat, end: Option<TxError>)
    requires BlockStands(b, s0, cfg, groups) && AllAccepted(b, s0, |b.txs|) && BlockRoom(b, s0, cfg, groups) && w <= |groups|
    requires GasLeft(b, s0, DoneBefore(groups, w)) >= 0 && BlockRun(b, s0, cfg, groups, w, end)
    ensures end.None?
    decreases |groups| - w
  {
    hide Footprints, OrderRespecting, WaveStands, WaveRoom, WaveRun, GasLeft, Accepted;
    if w < |groups| {
      var jobs, done := groups[w], DoneBefore(groups, w);
      var base := WaveAt(b, s0, cfg, groups, w);
      if WaveRun(b, s0, cfg, jobs, done, end) && end.Some? {
        RoomNeverFails(b, s0, cfg, jobs, done, base, end);
      } else {
        ScheduleIsReady(b, groups, w);
        NoDebt(b, s0, cfg, jobs, done);
        RoomFromHere(b, s0, cfg, groups, w + 1, end);
      }
    }
  }

  lemma {:induction false} NoRoomFromHere(b: Block, s0: State, cfg: Config, groups: seq<seq<nat>>, w: nat, bad: nat) returns (e: TxError)
    requires BlockStands(b, s0, cfg, groups) && AllAccepted(b, s0, |b.txs|) && w <= bad < |groups|
    requires !WaveRoom(b, s0, cfg, groups[bad], DoneBefore(groups, bad)) && GasLeft(b, s0, DoneBefore(groups, w)) >= 0
    ensures BlockRun(b, s0, cfg, groups, w, Some(e))
    decreases bad - w
  {
    hide Footprints, OrderRespecting, WaveStands, WaveRoom, WaveRun, GasLeft, Accepted;
    var jobs, done := groups[w], DoneBefore(groups, w);
    var base := WaveAt(b, s0, cfg, groups, w);
    if WaveRoom(b, s0, cfg, jobs, done) {
      RoomRuns(b, s0, cfg, jobs, done, base);
      ScheduleIsReady(b, groups, w);
      NoDebt(b, s0, cfg, jobs, done);
      e := NoRoomFromHere(b, s0, cfg, groups, w + 1, bad);
    } else {
      e := NoRoomFails(b, s0, cfg, jobs, done, base);
    }
  }

  lemma FullAtStart(b: Block, s0: State, groups: seq<seq<nat>>)
    ensures GasLeft(b, s0, DoneBefore(groups, 0)) == b.gasLimit
  {
    SumOfZeros(Charges(b, s0, {}));
  }

  // For every configuration: a block of acceptable transactions passes in every run if and
  // only if every wave has room for it.
  lemma BlockGasExact(b: Block, s0: State, cfg: Config, groups: seq<seq<nat>>)
    requires BlockStands(b, s0, cfg, groups) && AllAccepted(b, s0, |b.txs|)
    ensures (forall end :: BlockRun(b, s0, cfg, groups, 0, end) ==> end.None?) <==> BlockRoom(b, s0, cfg, groups)
  {
    hide Footprints, OrderRespecting, WaveRoom, BlockRun, GasLeft, Accepted;
    FullAtStart(b, s0, groups);
    if BlockRoom(b, s0, cfg, groups) {
      forall end | BlockRun(b, s0, cfg, groups, 0, end) ensures end.None? {
        RoomFromHere(b, s0, cfg, groups, 0, end);
      }
    } else {
      var bad :| 0 <= bad < |groups| && !WaveRoom(b, s0, cfg, groups[bad], DoneBefore(groups, bad));
      var e := NoRoomFromHere(b, s0, cfg, groups, 0, bad);
    }
  }
}
