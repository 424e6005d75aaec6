// In which orders the transactions of a wave can buy their gas, and that a wave can end
// clean exactly when one of these orders finds enough gas at every turn.
module BuyOrders {
  import opened Base
  import opened Execution
  import opened WavePool
  import opened WaveRuns
  import opened BlockProcess
  import opened GasExactness
  import opened BlockGas

  // Whoever comes before a buyer in the queue and has not bought yet sits on another worker.
  ghost predicate Overtakes(jobs: seq<nat>, workers: nat, order: seq<nat>) {
    forall j, q :: 0 <= j < |order| && 0 <= q < |jobs| && jobs[q] == order[j] ==>
      |Elems(jobs[..q]) - Elems(order[..j])| < workers
  }

  ghost predicate Feasible(jobs: seq<nat>, workers: nat, order: seq<nat>) {
    && Distinct(order) && |order| == |jobs| && Elems(order) == Elems(jobs) && Overtakes(jobs, workers, order)
  }

  // ----- Every clean run buys in a feasible order with room.

  ghost predicate Paid(p: Pool, i: nat) {
    i in p.forkOf || exists w :: 0 <= w < |p.workers| && InFlight(p.workers[w].phase) && p.workers[w].phase.job == i
  }

  predicate InFlight(ph: Phase) {
    ph.Running? || ph.Returning?
  }

  // The purchases so far, oldest first.
  ghost predicate BuyInv(c: Wave, p: Pool, bought: seq<nat>) {
    && Distinct(bought) && InRange(c.block, bought)
    && (forall i: nat :: i in bought <==> Paid(p, i))
    && DirectRoom(c.block, c.s0, bought, c.before)
    && Overtakes(c.jobs, |p.workers|, bought)
  }

  // Of a step without an error only the successful swap of SubGas changes who has paid.
  lemma StepPays(b: Block, jobs: seq<nat>, p: Pool, w: nat)
    requires JobsInRange(b, jobs, p) && JobInv(jobs, p) && w < |p.workers| && !Stopped(p.workers[w].phase)
    requires Step(b, jobs, p, w).firstErr.None? && !Step(b, jobs, p, w).workers[w].phase.Panicked?
    ensures var q, ph := Step(b, jobs, p, w), p.workers[w].phase;
            var buys := ph.Buying? && q.workers[w].phase.Running?;
            && |q.workers| == |p.workers|
            && (buys ==> b.txs[ph.job].gasLimit <= p.gas && ph.job < |b.txs|)
            && forall i: nat :: Paid(q, i) <==> Paid(p, i) || (buys && i == ph.job)
  {
    StepFlight(b, jobs, p, w);
    hide Step;
    var q, ph := Step(b, jobs, p, w), p.workers[w].phase;
    forall i: nat ensures Paid(q, i) <==> Paid(p, i) || (ph.Buying? && q.workers[w].phase.Running? && i == ph.job) {
      if v :| 0 <= v < |p.workers| && InFlight(p.workers[v].phase) && p.workers[v].phase.job == i {
        assert v != w ==> q.workers[v] == p.workers[v];
        assert q.workers[w].phase.Idle? || InFlight(q.workers[v].phase) || v != w;
      }
      if v :| 0 <= v < |q.workers| && InFlight(q.workers[v].phase) && q.workers[v].phase.job == i {
        assert v != w ==> q.workers[v] == p.workers[v];
      }
    }
  }

  lemma StepFlight(b: Block, jobs: seq<nat>, p: Pool, w: nat)
    requires JobsInRange(b, jobs, p) && w < |p.workers| && !Stopped(p.workers[w].phase)
    requires Step(b, jobs, p, w).firstErr.None? && !Step(b, jobs, p, w).workers[w].phase.Panicked?
    ensures var q, ph := Step(b, jobs, p, w), p.workers[w].phase;
            && |q.workers| == |p.workers| && (forall v :: 0 <= v < |p.workers| && v != w ==> q.workers[v] == p.workers[v])
            && (InFlight(ph) ==> (InFlight(q.workers[w].phase) && q.workers[w].phase.job == ph.job && q.forkOf == p.forkOf) ||
                                 (q.workers[w].phase == Idle && q.forkOf == p.forkOf[ph.job := w]))
            && (!InFlight(ph) ==> q.forkOf == p.forkOf && (InFlight(q.workers[w].phase) <==> ph.Buying? && q.workers[w].phase.Running?))
            && (ph.Buying? && q.workers[w].phase.Running? ==> q.workers[w].phase.job == ph.job && b.txs[ph.job].gasLimit <= p.gas)
  {
    match p.workers[w].phase {
      case Idle =>
      case Holding(i) =>
      case Buying(i, seen) =>
      case Running(i) =>
      case Returning(i, seen) =>
    }
  }

  // What a buyer finds is what the earlier buyers leave at most.
  lemma PaidCharges(c: Wave, p: Pool, bought: seq<nat>)
    requires Footprints(c.block) && GasInv(c, p) && InRange(c.block, bought) && forall i: nat :: i in bought ==> Paid(p, i)
    ensures p.gas <= GasLeft(c.block, c.s0, c.before + Elems(bought))
  {
    hide GasOf, Sum;
    var charge := Charges(c.block, c.s0, c.before + Elems(bought));
    forall k | 0 <= k < |charge| ensures charge[k] <= p.charge[k] {
      GasWithinLimit(c.block, c.s0, k);
      if k !in c.before && k in bought && k !in p.forkOf {
        assert Paid(p, k);
        var w :| 0 <= w < |p.workers| && InFlight(p.workers[w].phase) && p.workers[w].phase.job == k;
        assert ChargeOk(c.block, p.workers[w].phase, p.charge);
      }
    }
    SumDominated(charge, p.charge);
  }

  // Everybody it overtakes is in other hands.
  lemma OvertakesFew(c: Wave, p: Pool, bought: seq<nat>, w: nat, q: nat)
    requires Distinct(c.jobs) && JobInv(c.jobs, p) && (forall i: nat :: i in bought <==> Paid(p, i))
    requires w < |p.workers| && HasJob(p.workers[w].phase) && q < |c.jobs| && c.jobs[q] == p.workers[w].phase.job
    ensures |Elems(c.jobs[..q]) - Elems(bought)| < |p.workers|
  {
    hide HeldBy;
    var i, held, waiting := c.jobs[q], HeldBy(p, |p.workers|), Elems(c.jobs[..q]) - Elems(bought);
    HeldByFacts(p, |p.workers|);
    HeldCount(p, |p.workers|, 0);
    assert i in held;
    forall k | k in waiting ensures k in held - {i} {
      var r :| 0 <= r < q && c.jobs[r] == k;
      Earlier(c.jobs, p, q, r);
      assert !Paid(p, c.jobs[r]) && Held(p, c.jobs[r]);
    }
    SubsetCount(waiting, held - {i});
  }

  lemma Earlier(jobs: seq<nat>, p: Pool, q: nat, r: nat)
    requires Distinct(jobs) && p.next <= |jobs| && r < q < |jobs| && jobs[q] in jobs[..p.next]
    ensures r < p.next && jobs[r] != jobs[q]
  {
    var t :| 0 <= t < p.next && jobs[t] == jobs[q];
    assert t == q;
  }

  lemma StepKeepsBuyInv(c: Wave, p: Pool, bought: seq<nat>, w: nat) returns (more: seq<nat>)
    requires WaveOk(c) && Inv(c, p) && BuyInv(c, p, bought) && w < |p.workers| && !Stopped(p.workers[w].phase)
    requires JobsInRange(c.block, c.jobs, p) && Step(c.block, c.jobs, p, w).firstErr.None?
    ensures BuyInv(c, Step(c.block, c.jobs, p, w), more)
  {
    hide WaveOk, Inv, BuyInv, Step, JobsInRange, JobInv, GasInv, Paid;
    var q, ph := Step(c.block, c.jobs, p, w), p.workers[w].phase;
    StepKeepsInv(c, p, w);
    NeverPanics(c, q, w);
    assert JobInv(c.jobs, p) && GasInv(c, p) by { TwoOfThem(c, p); }
    StepPays(c.block, c.jobs, p, w);
    if ph.Buying? && q.workers[w].phase.Running? {
      more := bought + [ph.job];
      NotPaidYet(c, p, w);
      BuysNext(c, p, bought, w);
      OneMorePaid(c, p, q, bought, ph.job);
    } else {
      more := bought;
      SamePaid(c, p, q, bought);
    }
  }

  lemma TwoOfThem(c: Wave, p: Pool)
    requires Inv(c, p)
    ensures JobInv(c.jobs, p) && GasInv(c, p)
  {
  }

  lemma SamePaid(c: Wave, p: Pool, q: Pool, bought: seq<nat>)
    requires BuyInv(c, p, bought) && |q.workers| == |p.workers| && forall i: nat :: Paid(q, i) <==> Paid(p, i)
    ensures BuyInv(c, q, bought)
  {
    hide Paid, DirectRoom, Overtakes;
  }

  lemma OneMorePaid(c: Wave, p: Pool, q: Pool, bought: seq<nat>, i: nat)
    requires BuyInv(c, p, bought) && |q.workers| == |p.workers| && !Paid(p, i)
    requires forall k: nat :: Paid(q, k) <==> Paid(p, k) || k == i
    requires InRange(c.block, bought + [i]) && DirectRoom(c.block, c.s0, bought + [i], c.before)
    requires Overtakes(c.jobs, |p.workers|, bought + [i])
    ensures BuyInv(c, q, bought + [i])
  {
    hide Paid, DirectRoom, Overtakes;
  }

  lemma NotPaidYet(c: Wave, p: Pool, w: nat)
    requires JobInv(c.jobs, p) && w < |p.workers| && p.workers[w].phase.Buying?
    ensures !Paid(p, p.workers[w].phase.job)
  {
  }

  lemma BuysNext(c: Wave, p: Pool, bought: seq<nat>, w: nat)
    requires WaveOk(c) && JobInv(c.jobs, p) && GasInv(c, p) && BuyInv(c, p, bought)
    requires w < |p.workers| && p.workers[w].phase.Buying? && p.workers[w].phase.job < |c.block.txs|
    requires c.block.txs[p.workers[w].phase.job].gasLimit <= p.gas
    ensures var more := bought + [p.workers[w].phase.job];
            InRange(c.block, more) && DirectRoom(c.block, c.s0, more, c.before) && Overtakes(c.jobs, |p.workers|, more)
  {
    hide WaveOk, JobInv, GasInv, Paid, GasLeft, Footprints, DirectRoom, Overtakes;
    Basics(c, p);
    WaveFootprints(c);
    PaidCharges(c, p, bought);
    RoomForOneMore(c.block, c.s0, bought, c.before, p.workers[w].phase.job);
    forall q | 0 <= q < |c.jobs| && c.jobs[q] == p.workers[w].phase.job
      ensures |Elems(c.jobs[..q]) - Elems(bought)| < |p.workers|
    {
      OvertakesFew(c, p, bought, w, q);
    }
    OvertakesOneMore(c.jobs, |p.workers|, bought, p.workers[w].phase.job);
  }

  lemma RoomForOneMore(b: Block, s0: State, bought: seq<nat>, done: set<nat>, i: nat)
    requires InRange(b, bought) && DirectRoom(b, s0, bought, done) && i < |b.txs|
    requires b.txs[i].gasLimit <= GasLeft(b, s0, done + Elems(bought))
    ensures InRange(b, bought + [i]) && DirectRoom(b, s0, bought + [i], done)
  {
    hide GasLeft;
    var more := bought + [i];
    forall j | 0 <= j < |more| ensures b.txs[more[j]].gasLimit <= GasLeft(b, s0, done + Elems(more[..j])) {
      assert more[..j] == bought[..j];
      assert j == |bought| ==> bought[..j] == bought;
    }
  }

  lemma OvertakesOneMore(jobs: seq<nat>, workers: nat, bought: seq<nat>, i: nat)
    requires Overtakes(jobs, workers, bought)
    requires forall q :: 0 <= q < |jobs| && jobs[q] == i ==> |Elems(jobs[..q]) - Elems(bought)| < workers
    ensures Overtakes(jobs, workers, bought + [i])
  {
    var more := bought + [i];
    forall j, q | 0 <= j < |more| && 0 <= q < |jobs| && jobs[q] == more[j]
      ensures |Elems(jobs[..q]) - Elems(more[..j])| < workers
    {
      assert more[..j] == bought[..j];
      assert j == |bought| ==> bought[..j] == bought;
    }
  }

  lemma {:induction false} RunKeepsBuyInv(c: Wave, p: Pool, bought: seq<nat>, schedule: seq<nat>, q: Pool) returns (more: seq<nat>)
    requires WaveOk(c) && Inv(c, p) && BuyInv(c, p, bought) && Leads(c.block, c.jobs, p, schedule, q) && q.firstErr.None?
    ensures BuyInv(c, q, more)
    decreases schedule
  {
    hide WaveOk, Inv, BuyInv, Step, JobsInRange;
    if schedule == [] {
      more := bought;
    } else {
      var p1 := Step(c.block, c.jobs, p, schedule[0]);
      StepKeepsInv(c, p, schedule[0]);
      if p1.firstErr.Some? {
        ErrorStaysAll(c, p1, schedule[1..], q);
      }
      var b1 := StepKeepsBuyInv(c, p, bought, schedule[0]);
      more := RunKeepsBuyInv(c, p1, b1, schedule[1..], q);
    }
  }

  lemma {:induction false} ErrorStaysAll(c: Wave, p: Pool, schedule: seq<nat>, q: Pool)
    requires Leads(c.block, c.jobs, p, schedule, q) && p.firstErr.Some?
    ensures q.firstErr.Some?
    decreases schedule
  {
    hide Step, JobsInRange;
    if schedule != [] {
      ErrorStays(c.block, c.jobs, p, schedule[0]);
      ErrorStaysAll(c, Step(c.block, c.jobs, p, schedule[0]), schedule[1..], q);
    }
  }

  lemma {:induction false} DistinctCount(s: seq<nat>)
    requires Distinct(s)
    ensures |Elems(s)| == |s|
  {
    if s != [] {
      DistinctCount(s[1..]);
      assert Elems(s) == Elems(s[1..]) + {s[0]};
    }
  }

  // A clean pool run has bought in a feasible order, with room at every turn.
  lemma CleanRunOrder(b: Block, s0: State, jobs: seq<nat>, workers: nat, done: set<nat>, base: State, gas: nat,
                      schedule: seq<nat>, q: Pool) returns (order: seq<nat>)
    requires WaveStands(b, s0, jobs, done, base) && workers > 0
    requires PoolRun(b, s0, jobs, workers, done, base, gas, schedule, q) && q.firstErr.None?
    ensures Feasible(jobs, workers, order) && InRange(b, order) && DirectRoom(b, s0, order, done)
  {
    hide WaveOk, Inv, Leads, AllStopped, Charges, Footprints, Synced, WaveReady, Acceptable, DirectRoom, GasLeft, Overtakes;
    var c, start := Wave(b, s0, jobs, done, base), Start(base, workers, gas, Charges(b, s0, done));
    WaveAcceptable(b, s0, jobs, done, base);
    GasIsLeft(b, s0, done, gas);
    PoolStarts(c, workers, gas, Charges(b, s0, done));
    NothingBought(c, start);
    order := RunKeepsBuyInv(c, start, [], schedule, q);
    RunKeepsInv(c, start, schedule, q);
    CleanEnd(c, q);
    AllPaid(c, q, order);
    PoolGas(c, q);
    Basics(c, q);
    DistinctCount(order);
    DistinctCount(jobs);
  }

  lemma GasIsLeft(b: Block, s0: State, done: set<nat>, gas: nat)
    requires gas == GasLeft(b, s0, done)
    ensures gas + Sum(Charges(b, s0, done)) == b.gasLimit
  {
  }

  lemma NothingBought(c: Wave, p: Pool)
    requires p.forkOf == map[] && forall w :: 0 <= w < |p.workers| ==> p.workers[w].phase == Idle
    ensures BuyInv(c, p, [])
  {
  }

  lemma AllPaid(c: Wave, p: Pool, bought: seq<nat>)
    requires BuyInv(c, p, bought) && AllStopped(p) && p.forkOf.Keys == Elems(c.jobs)
    ensures Elems(bought) == Elems(c.jobs)
  {
    hide DirectRoom, Overtakes;
    forall i: nat ensures i in Elems(bought) <==> i in Elems(c.jobs) {
      assert i in bought <==> Paid(p, i);
      assert i in Elems(c.jobs) <==> i in p.forkOf;
    }
  }

  // ----- Every feasible order with room is some clean run.

  // The first j of the order are done, the first k of the queue taken, the rest of those
  // wait on one worker each, and nobody else has anything in hand.
  ghost predicate Paced(c: Wave, p: Pool, order: seq<nat>, j: nat, k: nat) {
    && j <= |order| && p.next == k <= |c.jobs| && p.firstErr.None?
    && Elems(order[..j]) <= Elems(c.jobs[..k]) && p.forkOf.Keys == Elems(order[..j])
    && p.charge == Charges(c.block, c.s0, c.before + Elems(order[..j]))
    && (forall w :: 0 <= w < |p.workers| ==> p.workers[w].phase.Idle? || p.workers[w].phase.Holding?)
  }

  // Whoever waits is held.
  lemma WaitersHeld(c: Wave, p: Pool, order: seq<nat>, j: nat, k: nat)
    requires JobInv(c.jobs, p) && Paced(c, p, order, j, k)
    ensures HeldBy(p, |p.workers|) == Elems(c.jobs[..k]) - Elems(order[..j])
  {
    HeldByFacts(p, |p.workers|);
    hide HeldBy, Charges;
    var held := HeldBy(p, |p.workers|);
    forall i | i in held ensures i in Elems(c.jobs[..k]) - Elems(order[..j]) {
      assert Held(p, i) && i !in p.forkOf.Keys;
    }
    forall i | i in Elems(c.jobs[..k]) - Elems(order[..j]) ensures i in held {
      var q :| 0 <= q < k && c.jobs[q] == i;
      assert i !in p.forkOf.Keys && Held(p, c.jobs[q]);
    }
  }

  // With everybody busy there are as many transactions in hand as workers.
  lemma {:induction false} AllBusy(p: Pool, n: nat)
    requires n <= |p.workers| && forall w :: 0 <= w < n ==> HasJob(p.workers[w].phase)
    requires forall v, w :: 0 <= v < w < n && HasJob(p.workers[v].phase) && HasJob(p.workers[w].phase) ==>
               p.workers[v].phase.job != p.workers[w].phase.job
    ensures |HeldBy(p, n)| == n
    ensures forall i :: i in HeldBy(p, n) ==> exists w :: 0 <= w < n && HasJob(p.workers[w].phase) && p.workers[w].phase.job == i
  {
    if n > 0 {
      AllBusy(p, n - 1);
    }
  }

  // As long as the next buyer is not taken, somebody is free to take.
  lemma FreeWorker(c: Wave, p: Pool, order: seq<nat>, j: nat, k: nat, q: nat) returns (w: nat)
    requires JobInv(c.jobs, p) && Paced(c, p, order, j, k) && k <= q < |c.jobs|
    requires |Elems(c.jobs[..q]) - Elems(order[..j])| < |p.workers|
    ensures w < |p.workers| && p.workers[w].phase == Idle
  {
    WaitersHeld(c, p, order, j, k);
    SubsetCount(HeldBy(p, |p.workers|), Elems(c.jobs[..q]) - Elems(order[..j]));
    w := SomeoneFree(c.jobs, p);
  }

  lemma SomeoneFree(jobs: seq<nat>, p: Pool) returns (w: nat)
    requires JobInv(jobs, p) && |HeldBy(p, |p.workers|)| < |p.workers|
    ensures w < |p.workers| && !HasJob(p.workers[w].phase)
  {
    hide HeldBy;
    if forall v :: 0 <= v < |p.workers| ==> HasJob(p.workers[v].phase) {
      AllBusy(p, |p.workers|);
    }
    w :| 0 <= w < |p.workers| && !HasJob(p.workers[w].phase);
  }

  // Takes until the transaction at q is in hand.
  lemma {:induction false} TakeUpTo(c: Wave, start: Pool, s: seq<nat>, p: Pool, order: seq<nat>, j: nat, k: nat, q: nat)
    returns (t: seq<nat>, r: Pool, k': nat)
    requires WaveOk(c) && Inv(c, start) && Leads(c.block, c.jobs, start, s, p) && Paced(c, p, order, j, k) && q < |c.jobs|
    requires |Elems(c.jobs[..q]) - Elems(order[..j])| < |p.workers|
    ensures Leads(c.block, c.jobs, start, t, r) && Paced(c, r, order, j, k') && q < k' && |r.workers| == |p.workers|
    decreases |c.jobs| - k
  {
    hide WaveOk, Inv, Leads, Charges, Elems, JobInv, GasInv;
    if q < k {
      t, r, k' := s, p, k;
    } else {
      RunKeepsInv(c, start, s, p);
      assert JobInv(c.jobs, p) by { TwoOfThem(c, p); }
      var w := FreeWorker(c, p, order, j, k, q);
      var p1 := Take(c, start, s, p, w);
      MoreTaken(c, order, j, k);
      t, r, k' := TakeUpTo(c, start, s + [w], p1, order, j, k + 1, q);
    }
  }

  lemma MoreTaken(c: Wave, order: seq<nat>, j: nat, k: nat)
    requires j <= |order| && k < |c.jobs| && Elems(order[..j]) <= Elems(c.jobs[..k])
    ensures Elems(order[..j]) <= Elems(c.jobs[..k + 1])
  {
    assert c.jobs[..k + 1] == c.jobs[..k] + [c.jobs[k]];
  }

  // The next one in the order buys, runs and finishes.
  lemma NextBuyer(c: Wave, start: Pool, s: seq<nat>, p: Pool, order: seq<nat>, j: nat, k: nat, q: nat)
    returns (t: seq<nat>, r: Pool)
    requires WaveOk(c) && Acceptable(c) && Inv(c, start) && Leads(c.block, c.jobs, start, s, p) && Paced(c, p, order, j, k)
    requires q < k && j < |order| && c.jobs[q] == order[j] && Distinct(order) && order[j] < |c.block.txs|
    requires c.block.txs[order[j]].gasLimit <= GasLeft(c.block, c.s0, c.before + Elems(order[..j]))
    ensures Leads(c.block, c.jobs, start, t, r) && Paced(c, r, order, j + 1, k) && |r.workers| == |p.workers|
  {
    hide WaveOk, Inv, Leads, Acceptable, GasOf, Sum, JobInv, GasInv, Elems;
    RunKeepsInv(c, start, s, p);
    assert JobInv(c.jobs, p) && GasInv(c, p) by { TwoOfThem(c, p); }
    PoolGas(c, p);
    var w := InHand(c, p, order, j, k, q);
    var s1, p1 := Buy(c, start, s, p, w);
    t, r := RunOut(c, start, s1, p1, w);
    OneMoreDone(c, p, r, order, j, k, q, w);
  }

  lemma OneMoreDone(c: Wave, p: Pool, r: Pool, order: seq<nat>, j: nat, k: nat, q: nat, w: nat)
    requires WaveOk(c) && Paced(c, p, order, j, k) && q < k && j < |order| && c.jobs[q] == order[j] && Distinct(order)
    requires order[j] < |c.block.txs| && w < |p.workers| == |r.workers| && r.next == p.next && r.firstErr.None?
    requires r.charge == p.charge[order[j] := c.block.txs[order[j]].gasLimit][order[j] := GasOf(c.block, c.s0, order[j])]
    requires r.forkOf == p.forkOf[order[j] := w] && r.workers[w].phase == Idle
    requires forall v :: 0 <= v < |p.workers| && v != w ==> r.workers[v] == p.workers[v]
    ensures Paced(c, r, order, j + 1, k)
  {
    hide WaveOk, GasOf;
    var i := order[j];
    assert order[..j + 1] == order[..j] + [i];
    assert c.before + Elems(order[..j + 1]) == c.before + Elems(order[..j]) + {i};
    NotDone(c, order, j, i);
    ChargesAdd(c.block, c.s0, c.before + Elems(order[..j]), i);
    assert c.jobs[..k][q] == i;
  }

  lemma NotDone(c: Wave, order: seq<nat>, j: nat, i: nat)
    requires WaveOk(c) && j < |order| && order[j] == i && Distinct(order) && i in c.jobs
    ensures i !in c.before + Elems(order[..j])
  {
    assert Ready(c.block, c.before, i);
  }

  lemma InHand(c: Wave, p: Pool, order: seq<nat>, j: nat, k: nat, q: nat) returns (w: nat)
    requires JobInv(c.jobs, p) && Paced(c, p, order, j, k) && q < k && j < |order| && c.jobs[q] == order[j] && Distinct(order)
    ensures w < |p.workers| && p.workers[w].phase == Holding(order[j])
  {
    assert order[j] !in order[..j];
    assert c.jobs[q] !in p.forkOf.Keys && Held(p, c.jobs[q]);
    w :| 0 <= w < |p.workers| && HasJob(p.workers[w].phase) && p.workers[w].phase.job == order[j];
  }

  lemma {:induction false} FollowOrder(c: Wave, start: Pool, s: seq<nat>, p: Pool, order: seq<nat>, j: nat, k: nat)
    returns (t: seq<nat>, r: Pool, k': nat)
    requires WaveOk(c) && Acceptable(c) && Inv(c, start) && Leads(c.block, c.jobs, start, s, p) && Paced(c, p, order, j, k)
    requires Feasible(c.jobs, |p.workers|, order) && InRange(c.block, order) && DirectRoom(c.block, c.s0, order, c.before)
    ensures Leads(c.block, c.jobs, start, t, r) && Paced(c, r, order, |order|, k') && |r.workers| == |p.workers|
    decreases |order| - j
  {
    hide WaveOk, Inv, Leads, Acceptable, Paced;
    if Paced(c, p, order, j, k) && j == |order| {
      t, r, k' := s, p, k;
    } else {
      assert j < |order| by { PacedRange(c, p, order, j, k); }
      assert order[j] in Elems(order);
      var q :| 0 <= q < |c.jobs| && c.jobs[q] == order[j];
      var t1, r1, k1 := TakeUpTo(c, start, s, p, order, j, k, q);
      var t2, r2 := NextBuyer(c, start, t1, r1, order, j, k1, q);
      t, r, k' := FollowOrder(c, start, t2, r2, order, j + 1, k1);
    }
  }

  lemma PacedRange(c: Wave, p: Pool, order: seq<nat>, j: nat, k: nat)
    requires Paced(c, p, order, j, k)
    ensures j <= |order| && k <= |c.jobs|
  {
  }

  // The queue is drained and everybody is free: they leave one by one.
  lemma {:induction false} AllLeave(c: Wave, start: Pool, s: seq<nat>, p: Pool, n: nat) returns (t: seq<nat>, r: Pool)
    requires WaveOk(c) && Inv(c, start) && Leads(c.block, c.jobs, start, s, p) && p.next == |c.jobs| && p.firstErr.None?
    requires n <= |p.workers|
    requires forall w :: 0 <= w < |p.workers| ==> p.workers[w].phase == if w < n then Exited else Idle
    ensures Leads(c.block, c.jobs, start, t, r) && AllStopped(r) && r.firstErr.None?
    decreases |p.workers| - n
  {
    hide WaveOk, Inv, Leads;
    if n == |p.workers| {
      t, r := s, p;
    } else {
      var p1 := Extend(c, start, s, p, n);
      t, r := AllLeave(c, start, s + [n], p1, n + 1);
    }
  }

  lemma DrainedAndFree(c: Wave, p: Pool, order: seq<nat>, k: nat)
    requires JobInv(c.jobs, p) && Distinct(c.jobs) && Paced(c, p, order, |order|, k) && Elems(order) == Elems(c.jobs)
    ensures k == |c.jobs| && forall w :: 0 <= w < |p.workers| ==> p.workers[w].phase == Idle
  {
    hide JobInv, Charges, HeldBy, Elems;
    assert order[..|order|] == order;
    AllTaken(c.jobs, k);
    WaitersHeld(c, p, order, |order|, k);
    assert c.jobs[..k] == c.jobs;
    NobodyHolds(p, Elems(c.jobs) - Elems(order));
  }

  lemma AllTaken(jobs: seq<nat>, k: nat)
    requires Distinct(jobs) && k <= |jobs| && Elems(jobs) <= Elems(jobs[..k])
    ensures k == |jobs|
  {
    DistinctCount(jobs);
    SubsetCount(Elems(jobs), Elems(jobs[..k]));
    JobCount(jobs[..k]);
  }

  lemma NobodyHolds(p: Pool, held: set<nat>)
    requires HeldBy(p, |p.workers|) == held && held == {}
    ensures forall w :: 0 <= w < |p.workers| ==> !HasJob(p.workers[w].phase)
  {
    HeldByFacts(p, |p.workers|);
  }

  // A feasible order with room is a clean run.
  lemma OrderRuns(b: Block, s0: State, jobs: seq<nat>, workers: nat, done: set<nat>, base: State, order: seq<nat>)
    returns (gas: nat, schedule: seq<nat>, q: Pool)
    requires WaveStands(b, s0, jobs, done, base)
    requires Feasible(jobs, workers, order) && InRange(b, order) && DirectRoom(b, s0, order, done)
    ensures PoolRun(b, s0, jobs, workers, done, base, gas, schedule, q) && q.firstErr.None?
  {
    hide WaveOk, Inv, Leads, AllStopped, Footprints, Synced, WaveReady, Acceptable, DirectRoom, Overtakes, Paced;
    gas := GasLeft(b, s0, done);
    var c, start := Wave(b, s0, jobs, done, base), Start(base, workers, gas, Charges(b, s0, done));
    WaveAcceptable(b, s0, jobs, done, base);
    PoolStarts(c, workers, gas, Charges(b, s0, done));
    NoSteps(b, jobs, start);
    PacedAtStart(c, start, order);
    var s, p, k := FollowOrder(c, start, [], start, order, 0, 0);
    RunKeepsInv(c, start, s, p);
    assert JobInv(c.jobs, p) by { TwoOfThem(c, p); }
    WaveDistinct(c);
    DrainedAndFree(c, p, order, k);
    assert p.next == k && p.firstErr.None? by { PacedNext(c, p, order, |order|, k); }
    schedule, q := AllLeave(c, start, s, p, 0);
  }

  lemma PacedNext(c: Wave, p: Pool, order: seq<nat>, j: nat, k: nat)
    requires Paced(c, p, order, j, k)
    ensures p.next == k && p.firstErr.None?
  {
  }

  lemma WaveDistinct(c: Wave)
    requires WaveOk(c)
    ensures Distinct(c.jobs)
  {
  }

  lemma PacedAtStart(c: Wave, p: Pool, order: seq<nat>)
    requires p.next == 0 && p.firstErr.None? && p.forkOf == map[] && p.charge == Charges(c.block, c.s0, c.before)
    requires forall w :: 0 <= w < |p.workers| ==> p.workers[w].phase == Idle
    ensures Paced(c, p, order, 0, 0)
  {
    assert c.before + Elems(order[..0]) == c.before;
  }
}
