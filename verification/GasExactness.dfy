// How far the shared gas pool can decide the fate of a wave. The pool holds the whole
// gas limit of every transaction in flight, so a schedule can run it dry although the
// in-order run never does.
module GasExactness {
  import opened Base
  import opened Execution
  import opened WavePool
  import opened WaveRuns

  // ----- The worst moments of a wave.

  // What is held when the transactions of `flight` are in flight and all others among the
  // first m queued ones are finished.
  ghost function Demand(c: Wave, flight: set<nat>, m: nat): seq<nat>
    requires m <= |c.jobs|
  {
    seq(|c.block.txs|, i requires 0 <= i < |c.block.txs| =>
      if i in c.before then GasOf(c.block, c.s0, i)
      else if i in flight then c.block.txs[i].gasLimit
      else if i in c.jobs[..m] then GasOf(c.block, c.s0, i)
      else 0)
  }

  // With a worker to spare the others can finish the whole queue first; with all workers
  // in flight the queue is taken up to the last transaction in flight.
  ghost predicate Peak(jobs: seq<nat>, workers: nat, flight: set<nat>, m: nat) {
    && 0 < |flight| <= workers && 0 < m <= |jobs| && flight <= Elems(jobs[..m])
    && (if |flight| < workers then m == |jobs| else jobs[m - 1] in flight)
  }

  ghost predicate PeaksFit(c: Wave, workers: nat) {
    forall flight: set<nat>, m: nat :: Peak(c.jobs, workers, flight, m) ==> Sum(Demand(c, flight, m)) <= c.block.gasLimit
  }

  ghost predicate Acceptable(c: Wave) {
    forall i :: i in c.jobs ==> i < |c.block.txs| && Accepted(c.block, c.s0, i)
  }

  // ----- If every peak fits, no load is ever too small.

  // The transactions held by the first n workers.
  ghost function HeldBy(p: Pool, n: nat): set<nat>
    requires n <= |p.workers|
  {
    if n == 0 then {}
    else HeldBy(p, n - 1) + (if HasJob(p.workers[n - 1].phase) then {p.workers[n - 1].phase.job} else {})
  }

  lemma {:induction false} HeldByFacts(p: Pool, n: nat)
    requires n <= |p.workers|
    ensures forall w :: 0 <= w < n && HasJob(p.workers[w].phase) ==> p.workers[w].phase.job in HeldBy(p, n)
    ensures forall i :: i in HeldBy(p, n) ==> Held(p, i)
  {
    if n > 0 {
      HeldByFacts(p, n - 1);
    }
  }

  // At most one each, and fewer than workers as soon as one has nothing in hand.
  lemma {:induction false} HeldCount(p: Pool, n: nat, free: nat)
    requires n <= |p.workers|
    ensures |HeldBy(p, n)| <= n
    ensures free < n && !HasJob(p.workers[free].phase) ==> |HeldBy(p, n)| < n
  {
    if n > 0 {
      HeldCount(p, n - 1, free);
      UnionCount(HeldBy(p, n - 1), if HasJob(p.workers[n - 1].phase) then {p.workers[n - 1].phase.job} else {});
    }
  }

  lemma UnionCount(s: set<nat>, t: set<nat>)
    ensures |s + t| <= |s| + |t|
  {
    assert |s + t| + |s * t| == |s| + |t|;
  }

  // When the last taken transaction is finished, its worker has nothing in hand.
  ghost predicate LastTaken(jobs: seq<nat>, p: Pool) {
    0 < p.next <= |jobs| && jobs[p.next - 1] in p.forkOf ==>
      exists w :: 0 <= w < |p.workers| && !HasJob(p.workers[w].phase)
  }

  lemma StepKeepsLastTaken(b: Block, jobs: seq<nat>, p: Pool, w: nat)
    requires JobsInRange(b, jobs, p) && w < |p.workers| && !Stopped(p.workers[w].phase)
    requires JobInv(jobs, p) && Distinct(jobs) && LastTaken(jobs, p)
    ensures LastTaken(jobs, Step(b, jobs, p, w))
  {
    var q := Step(b, jobs, p, w);
    if p.workers[w].phase.Idle? {
      if p.next == |jobs| {
        assert !HasJob(q.workers[w].phase);
      } else {
        assert jobs[p.next] !in jobs[..p.next];
      }
    } else {
      StepShape(b, jobs, p, w);
      if p.workers[w].phase.Returning? && q == Finish(p, w, p.workers[w].phase.job, Attempt(b, p, w, p.workers[w].phase.job), q.gas) {
        assert !HasJob(q.workers[w].phase);
      } else if 0 < p.next && jobs[p.next - 1] in p.forkOf {
        var v :| 0 <= v < |p.workers| && !HasJob(p.workers[v].phase);
        assert v != w && q.workers[v] == p.workers[v];
      }
    }
  }

  // What is in hand right now is part of some peak.
  lemma HeldIsPeak(c: Wave, p: Pool, w: nat) returns (m: nat)
    requires JobInv(c.jobs, p) && LastTaken(c.jobs, p) && w < |p.workers| && HasJob(p.workers[w].phase)
    ensures Peak(c.jobs, |p.workers|, HeldBy(p, |p.workers|), m) && p.next <= m
  {
    hide HeldBy, JobInv, LastTaken;
    var held := HeldBy(p, |p.workers|);
    m := if |held| < |p.workers| then |c.jobs| else p.next;
    HeldCount(p, |p.workers|, 0);
    HeldAreTaken(c.jobs, p, w, m);
    if |held| == |p.workers| {
      LastIsHeld(c.jobs, p);
    }
  }

  lemma HeldAreTaken(jobs: seq<nat>, p: Pool, w: nat, m: nat)
    requires JobInv(jobs, p) && w < |p.workers| && HasJob(p.workers[w].phase) && (m == |jobs| || m == p.next)
    ensures 0 < p.next <= m <= |jobs| && HeldBy(p, |p.workers|) <= Elems(jobs[..m]) && |HeldBy(p, |p.workers|)| > 0
  {
    HeldByFacts(p, |p.workers|);
    assert p.workers[w].phase.job in HeldBy(p, |p.workers|) && p.workers[w].phase.job in jobs[..p.next];
    hide HeldBy;
    forall i | i in HeldBy(p, |p.workers|) ensures i in jobs[..m] {
      assert Held(p, i) && i in jobs[..p.next];
    }
  }

  lemma LastIsHeld(jobs: seq<nat>, p: Pool)
    requires JobInv(jobs, p) && LastTaken(jobs, p) && p.next > 0 && |HeldBy(p, |p.workers|)| == |p.workers|
    ensures jobs[p.next - 1] in HeldBy(p, |p.workers|)
  {
    forall v | 0 <= v < |p.workers| ensures HasJob(p.workers[v].phase) {
      HeldCount(p, |p.workers|, v);
    }
    assert Held(p, jobs[p.next - 1]);
    HeldByFacts(p, |p.workers|);
  }

  lemma LoadIsEnough(c: Wave, p: Pool, w: nat)
    requires WaveOk(c) && JobInv(c.jobs, p) && GasInv(c, p) && LastTaken(c.jobs, p) && PeaksFit(c, |p.workers|)
    requires w < |p.workers| && p.workers[w].phase.Holding? && p.workers[w].phase.job < |c.block.txs|
    ensures c.block.txs[p.workers[w].phase.job].gasLimit <= p.gas
  {
    hide WaveOk, JobInv, GasInv, Peak, LastTaken, Demand, HeldBy, Sum;
    var held, i := HeldBy(p, |p.workers|), p.workers[w].phase.job;
    JobInHand(c, p, w);
    var m := HeldIsPeak(c, p, w);
    PeakRange(c.jobs, |p.workers|, held, m);
    DemandAt(c, held, m, i);
    forall k | 0 <= k < |p.charge| ensures p.charge[k] <= Demand(c, held, m)[k] {
      ChargeBelowDemand(c, p, m, k);
    }
    EnoughGas(p.charge, Demand(c, held, m), p.gas, i);
  }

  lemma JobInHand(c: Wave, p: Pool, w: nat)
    requires WaveOk(c) && JobInv(c.jobs, p) && GasInv(c, p) && w < |p.workers| && p.workers[w].phase.Holding?
    requires p.workers[w].phase.job < |c.block.txs|
    ensures var i := p.workers[w].phase.job;
            |p.charge| == |c.block.txs| && i in HeldBy(p, |p.workers|) && i !in c.before && p.charge[i] == 0
    ensures p.gas + Sum(p.charge) == c.block.gasLimit
  {
    hide WaveOk, Sum;
    Basics(c, p);
    HeldByFacts(p, |p.workers|);
    assert ChargeOk(c.block, p.workers[w].phase, p.charge);
    assert p.workers[w].phase.job in c.jobs[..p.next];
  }

  lemma DemandAt(c: Wave, flight: set<nat>, m: nat, i: nat)
    requires m <= |c.jobs| && i < |c.block.txs| && i in flight && i !in c.before
    ensures |Demand(c, flight, m)| == |c.block.txs| && Demand(c, flight, m)[i] == c.block.txs[i].gasLimit
  {
  }

  lemma PeakRange(jobs: seq<nat>, workers: nat, flight: set<nat>, m: nat)
    requires Peak(jobs, workers, flight, m)
    ensures m <= |jobs| && flight <= Elems(jobs[..m])
  {
  }

  lemma ChargeBelowDemand(c: Wave, p: Pool, m: nat, k: nat)
    requires JobInv(c.jobs, p) && GasInv(c, p) && p.next <= m <= |c.jobs| && k < |p.charge|
    ensures |Demand(c, HeldBy(p, |p.workers|), m)| == |p.charge|
    ensures p.charge[k] <= Demand(c, HeldBy(p, |p.workers|), m)[k]
  {
    HeldByFacts(p, |p.workers|);
    if k !in c.before && k in c.jobs[..p.next] && k !in HeldBy(p, |p.workers|) {
      var q :| 0 <= q < p.next && c.jobs[q] == k;
      assert !Held(p, c.jobs[q]);
      assert c.jobs[..m][q] == k;
    }
  }

  // A run in which nothing has gone wrong yet, nor will at the next swap.
  ghost predicate Clear(c: Wave, p: Pool) {
    && Inv(c, p) && LastTaken(c.jobs, p) && p.firstErr.None?
    && (forall w :: 0 <= w < |p.workers| && p.workers[w].phase.Buying? ==>
          p.workers[w].phase.job < |c.block.txs| && c.block.txs[p.workers[w].phase.job].gasLimit <= p.workers[w].phase.seen)
  }

  lemma StepStaysClear(c: Wave, p: Pool, w: nat)
    requires WaveOk(c) && Acceptable(c) && PeaksFit(c, |p.workers|) && Clear(c, p)
    requires w < |p.workers| && !Stopped(p.workers[w].phase)
    ensures JobsInRange(c.block, c.jobs, p) && Clear(c, Step(c.block, c.jobs, p, w))
    ensures |Step(c.block, c.jobs, p, w).workers| == |p.workers|
  {
    hide WaveOk, JobInv, ForkInv, ReceiptInv, PhaseInv, GasInv, SeenInv, BoughtInv, ErrInv, PeaksFit, LastTaken;
    StepKeepsInv(c, p, w);
    Basics(c, p);
    StepKeepsLastTaken(c.block, c.jobs, p, w);
    StepLoads(c.block, c.jobs, p, w);
    if p.workers[w].phase.Holding? {
      assert p.workers[w].phase.job in c.jobs;
      LoadIsEnough(c, p, w);
    }
    if HasJob(p.workers[w].phase) {
      AttemptAccepted(c, p, w);
    }
    NoFailure(c, p, w);
  }

  lemma NoFailure(c: Wave, p: Pool, w: nat)
    requires JobsInRange(c.block, c.jobs, p) && w < |p.workers| && !Stopped(p.workers[w].phase) && p.firstErr.None?
    requires HasJob(p.workers[w].phase) ==>
               p.workers[w].phase.job < |c.block.txs| && Attempt(c.block, p, w, p.workers[w].phase.job).Applied?
    requires p.workers[w].phase.Buying? ==> c.block.txs[p.workers[w].phase.job].gasLimit <= p.workers[w].phase.seen
    ensures Step(c.block, c.jobs, p, w).firstErr.None?
  {
    match p.workers[w].phase {
      case Idle =>
      case Holding(i) =>
      case Buying(i, seen) =>
      case Running(i) =>
      case Returning(i, seen) =>
    }
  }

  lemma {:induction false} RunStaysClear(c: Wave, p: Pool, schedule: seq<nat>, q: Pool)
    requires WaveOk(c) && Acceptable(c) && PeaksFit(c, |p.workers|) && Clear(c, p)
    requires Leads(c.block, c.jobs, p, schedule, q)
    ensures q.firstErr.None?
    decreases schedule
  {
    hide WaveOk, Acceptable, PeaksFit, Step, JobsInRange, Inv;
    if schedule != [] {
      StepStaysClear(c, p, schedule[0]);
      RunStaysClear(c, Step(c.block, c.jobs, p, schedule[0]), schedule[1..], q);
    }
  }

  lemma AttemptAccepted(c: Wave, p: Pool, w: nat)
    requires WaveOk(c) && Inv(c, p) && w < |p.workers| && HasJob(p.workers[w].phase)
    requires Acceptable(c)
    ensures var i := p.workers[w].phase.job;
            && i < |c.block.txs| && Attempt(c.block, p, w, i).Applied?
            && Attempt(c.block, p, w, i).gasUsed == GasOf(c.block, c.s0, i) <= c.block.txs[i].gasLimit
  {
    hide WaveOk, JobInv, ForkInv, PhaseInv, ReceiptInv, GasInv, ErrInv, SeenInv;
    HeldVerdict(c, p, w);
  }

  // ----- If some peak does not fit, a schedule reaches it.

  // One more step at the end of a run.
  lemma Extend(c: Wave, start: Pool, schedule: seq<nat>, p: Pool, w: nat) returns (q: Pool)
    requires WaveOk(c) && Inv(c, start) && Leads(c.block, c.jobs, start, schedule, p)
    requires w < |p.workers| && !Stopped(p.workers[w].phase)
    ensures Inv(c, p) && JobsInRange(c.block, c.jobs, p) && q == Step(c.block, c.jobs, p, w)
    ensures Inv(c, q) && |q.workers| == |p.workers|
    ensures Leads(c.block, c.jobs, start, schedule + [w], q)
  {
    hide WaveOk, Inv, Leads, JobsInRange;
    RunKeepsInv(c, start, schedule, p);
    StepKeepsInv(c, p, w);
    q := Step(c.block, c.jobs, p, w);
    OneStep(c.block, c.jobs, p, w);
    LeadsThen(c.block, c.jobs, start, schedule, p, [w], q);
  }

  ghost predicate ShortOfGas(p: Pool) {
    p.firstErr.Some? && p.firstErr.value.cause == GasLimitReached
  }

  // Worker w takes the next transaction.
  lemma Take(c: Wave, start: Pool, s: seq<nat>, p: Pool, w: nat) returns (q: Pool)
    requires WaveOk(c) && Inv(c, start) && Leads(c.block, c.jobs, start, s, p)
    requires w < |p.workers| && p.workers[w].phase == Idle && p.next < |c.jobs|
    ensures Leads(c.block, c.jobs, start, s + [w], q)
    ensures q == MoveTo(p, w, Holding(c.jobs[p.next])).(next := p.next + 1)
  {
    hide WaveOk, Inv, Leads;
    q := Extend(c, start, s, p, w);
  }

  // Worker w, undisturbed: loads and swaps. It fails, or its transaction holds its limit.
  lemma Buy(c: Wave, start: Pool, s: seq<nat>, p: Pool, w: nat) returns (t: seq<nat>, q: Pool)
    requires WaveOk(c) && Acceptable(c) && Inv(c, start) && Leads(c.block, c.jobs, start, s, p) && p.firstErr.None?
    requires w < |p.workers| && p.workers[w].phase.Holding? && p.workers[w].phase.job < |p.charge| == |c.block.txs|
    ensures Leads(c.block, c.jobs, start, t, q)
    ensures var i := p.workers[w].phase.job;
            if p.gas < c.block.txs[i].gasLimit then ShortOfGas(q) && |q.workers| == |p.workers|
            else q == MoveTo(p, w, Running(i)).(gas := p.gas - c.block.txs[i].gasLimit,
                                                charge := p.charge[i := c.block.txs[i].gasLimit])
  {
    hide WaveOk, Inv, Leads, JobsInRange, Acceptable;
    var i := p.workers[w].phase.job;
    var p1 := Extend(c, start, s, p, w);
    AttemptAccepted(c, p, w);
    assert p1 == MoveTo(p, w, Buying(i, p.gas));
    q := Extend(c, start, s + [w], p1, w);
    t := s + [w] + [w];
  }

  // Worker w, undisturbed: runs the transaction and gives back what it did not use.
  lemma RunOut(c: Wave, start: Pool, s: seq<nat>, p: Pool, w: nat) returns (t: seq<nat>, q: Pool)
    requires WaveOk(c) && Acceptable(c) && Inv(c, start) && Leads(c.block, c.jobs, start, s, p) && p.firstErr.None?
    requires w < |p.workers| && p.workers[w].phase.Running? && p.workers[w].phase.job < |p.charge| == |c.block.txs|
    ensures Leads(c.block, c.jobs, start, t, q)
    ensures var i := p.workers[w].phase.job;
            && q.next == p.next && q.firstErr.None? && q.charge == p.charge[i := GasOf(c.block, c.s0, i)]
            && q.forkOf == p.forkOf[i := w] && |q.workers| == |p.workers| && q.workers[w].phase == Idle
            && forall v :: 0 <= v < |p.workers| && v != w ==> q.workers[v] == p.workers[v]
  {
    hide WaveOk, Inv, Leads, JobsInRange, Acceptable, StateBefore;
    var i := p.workers[w].phase.job;
    var p1 := Extend(c, start, s, p, w);
    AttemptAccepted(c, p, w);
    assert p1 == MoveTo(p, w, Returning(i, p.gas));
    q := Extend(c, start, s + [w], p1, w);
    AttemptAccepted(c, p1, w);
    NeverPanics(c, q, w);
    assert q == Finish(p1, w, i, Attempt(c.block, p1, w, i), q.gas);
    t := s + [w] + [w];
  }

  lemma NeverPanics(c: Wave, p: Pool, w: nat)
    requires Inv(c, p) && w < |p.workers|
    ensures !p.workers[w].phase.Panicked?
  {
    hide JobInv, ForkInv, ReceiptInv, GasInv, ErrInv, SeenInv, BoughtInv;
    assert PhaseOk(c, p.workers[w].phase);
  }

  // The ledger on the way to a peak: the first k queued transactions have been taken,
  // those of `flight` except `last` hold their limits, `last` waits, the others are done.
  ghost function StagedCharge(c: Wave, flight: set<nat>, last: nat, k: nat): seq<nat>
    requires k <= |c.jobs|
  {
    seq(|c.block.txs|, i requires 0 <= i < |c.block.txs| =>
      if i in c.before then GasOf(c.block, c.s0, i)
      else if i !in c.jobs[..k] || i == last then 0
      else if i in flight then c.block.txs[i].gasLimit
      else GasOf(c.block, c.s0, i))
  }

  // The first z workers hold one transaction of `flight` each, the others are free.
  ghost predicate Staged(c: Wave, p: Pool, flight: set<nat>, last: nat, k: nat, z: nat) {
    && p.next == k <= |c.jobs| && p.firstErr.None? && z <= |p.workers|
    && z == |flight * Elems(c.jobs[..k])|
    && (forall w :: z <= w < |p.workers| ==> p.workers[w].phase == Idle)
    && (last in c.jobs[..k] ==> exists w :: 0 <= w < z && p.workers[w].phase == Holding(last))
    && p.charge == StagedCharge(c, flight, last, k)
  }

  // Taking one more transaction into account.
  lemma StagedNext(c: Wave, flight: set<nat>, last: nat, k: nat)
    requires WaveOk(c) && Acceptable(c) && k < |c.jobs| && last in flight
    ensures var i, z := c.jobs[k], |flight * Elems(c.jobs[..k])|;
            && i < |c.block.txs| == |StagedCharge(c, flight, last, k)|
            && |flight * Elems(c.jobs[..k + 1])| == (if i in flight then z + 1 else z)
            && StagedCharge(c, flight, last, k + 1) ==
                 (if i == last then StagedCharge(c, flight, last, k)
                  else if i in flight then StagedCharge(c, flight, last, k)[i := c.block.txs[i].gasLimit]
                  else StagedCharge(c, flight, last, k)[i := GasOf(c.block, c.s0, i)])
  {
    var i := c.jobs[k];
    assert i in c.jobs && Ready(c.block, c.before, i);
    hide WaveOk, Acceptable, GasOf;
    assert c.jobs[..k + 1] == c.jobs[..k] + [i];
    assert i !in c.jobs[..k];
    var was, now := flight * Elems(c.jobs[..k]), flight * Elems(c.jobs[..k + 1]);
    assert now == if i in flight then was + {i} else was;
    StagedChargeNext(c, flight, last, k);
  }

  lemma StagedChargeNext(c: Wave, flight: set<nat>, last: nat, k: nat)
    requires k < |c.jobs| && last in flight && c.jobs[k] < |c.block.txs|
    requires c.jobs[k] !in c.before && c.jobs[k] !in c.jobs[..k]
    ensures var i, was := c.jobs[k], StagedCharge(c, flight, last, k);
            StagedCharge(c, flight, last, k + 1) ==
              (if i == last then was
               else if i in flight then was[i := c.block.txs[i].gasLimit]
               else was[i := GasOf(c.block, c.s0, i)])
  {
    hide GasOf;
    var was, now := StagedCharge(c, flight, last, k), StagedCharge(c, flight, last, k + 1);
    assert c.jobs[..k + 1] == c.jobs[..k] + [c.jobs[k]];
    forall x | 0 <= x < |was| && x != c.jobs[k] ensures now[x] == was[x] {
      assert x in c.jobs[..k + 1] <==> x in c.jobs[..k];
    }
  }

  // Takes the next transaction and brings it where the peak wants it, or fails earlier.
  lemma Advance(c: Wave, start: Pool, s: seq<nat>, p: Pool, flight: set<nat>, last: nat, k: nat, z: nat)
    returns (t: seq<nat>, q: Pool)
    requires WaveOk(c) && Acceptable(c) && Inv(c, start) && Leads(c.block, c.jobs, start, s, p)
    requires Staged(c, p, flight, last, k, z) && k < |c.jobs| && z < |p.workers| && last in flight
    ensures Leads(c.block, c.jobs, start, t, q) && |q.workers| == |p.workers|
    ensures ShortOfGas(q) || Staged(c, q, flight, last, k + 1, if c.jobs[k] in flight then z + 1 else z)
  {
    hide WaveOk, Inv, Leads, Acceptable, StagedCharge, Elems, GasOf, Step, JobsInRange;
    StagedNext(c, flight, last, k);
    var i := c.jobs[k];
    assert c.jobs[..k + 1] == c.jobs[..k] + [i];
    var p1 := Take(c, start, s, p, z);
    if i == last {
      t, q := s + [z], p1;
      assert q.workers[z].phase == Holding(last);
    } else {
      var r, p2 := Buy(c, start, s + [z], p1, z);
      if p1.gas < c.block.txs[i].gasLimit || i in flight {
        t, q := r, p2;
      } else {
        t, q := RunOut(c, start, r, p2, z);
      }
      if last in c.jobs[..k] && !ShortOfGas(q) {
        StillWaiting(p, q, z, last);
      }
    }
  }

  lemma StillWaiting(p: Pool, q: Pool, z: nat, last: nat)
    requires z < |p.workers| == |q.workers| && forall v :: 0 <= v < z ==> q.workers[v] == p.workers[v]
    requires exists w :: 0 <= w < z && p.workers[w].phase == Holding(last)
    ensures exists w :: 0 <= w < z && q.workers[w].phase == Holding(last)
  {
    var w :| 0 <= w < z && p.workers[w].phase == Holding(last);
    assert q.workers[w].phase == Holding(last);
  }

  // Before the peak is reached one worker is free.
  lemma WorkerLeft(c: Wave, workers: nat, flight: set<nat>, m: nat, k: nat)
    requires Distinct(c.jobs) && Peak(c.jobs, workers, flight, m) && k < m
    ensures |flight * Elems(c.jobs[..k])| < workers
  {
    var taken := flight * Elems(c.jobs[..k]);
    if |flight| == workers {
      var x := c.jobs[m - 1];
      assert x !in c.jobs[..k];
      SubsetCount(taken, flight - {x});
    } else {
      SubsetCount(taken, flight);
    }
  }

  lemma {:induction false} SubsetCount(s: set<nat>, t: set<nat>)
    requires s <= t
    ensures |s| <= |t|
  {
    if s != {} {
      var x :| x in s;
      SubsetCount(s - {x}, t - {x});
    }
  }

  lemma WaitingForMore(c: Wave, flight: set<nat>, last: nat, m: nat)
    requires m <= |c.jobs| && flight <= Elems(c.jobs[..m]) && last in flight && last < |c.block.txs| && last !in c.before
    ensures |StagedCharge(c, flight, last, m)| == |c.block.txs|
    ensures Sum(Demand(c, flight, m)) == Sum(StagedCharge(c, flight, last, m)) + c.block.txs[last].gasLimit
  {
    var charge := StagedCharge(c, flight, last, m);
    forall i | 0 <= i < |charge| && i in flight ensures i in c.jobs[..m] {
      assert i in Elems(c.jobs[..m]);
    }
    assert Demand(c, flight, m) == charge[last := c.block.txs[last].gasLimit];
    SumUpdate(charge, last, c.block.txs[last].gasLimit);
  }

  // A peak that does not fit is reached by parking its transactions and running the others.
  lemma {:induction false} Overcommitted(c: Wave, start: Pool, s: seq<nat>, p: Pool, flight: set<nat>, m: nat, last: nat, k: nat)
    returns (t: seq<nat>, q: Pool)
    requires WaveOk(c) && Acceptable(c) && Inv(c, start) && Leads(c.block, c.jobs, start, s, p)
    requires Peak(c.jobs, |p.workers|, flight, m) && Sum(Demand(c, flight, m)) > c.block.gasLimit
    requires last in flight && k <= m
    requires Staged(c, p, flight, last, k, |flight * Elems(c.jobs[..k])|)
    ensures Leads(c.block, c.jobs, start, t, q) && ShortOfGas(q)
    decreases m - k
  {
    hide WaveOk, Inv, Leads, Acceptable, Demand, StagedCharge, Peak, GasInv;
    RunKeepsInv(c, start, s, p);
    assert GasInv(c, p) by { PoolGas(c, p); }
    Basics(c, p);
    PeakRange(c.jobs, |p.workers|, flight, m);
    if k < m {
      WorkerLeft(c, |p.workers|, flight, m, k);
      var t1, q1 := Advance(c, start, s, p, flight, last, k, |flight * Elems(c.jobs[..k])|);
      if ShortOfGas(q1) {
        t, q := t1, q1;
      } else {
        t, q := Overcommitted(c, start, t1, q1, flight, m, last, k + 1);
      }
    } else {
      assert last in Elems(c.jobs[..m]);
      var w :| 0 <= w < |p.workers| && p.workers[w].phase == Holding(last);
      AttemptAccepted(c, p, w);
      assert last in c.jobs;
      WaitingForMore(c, flight, last, m);
      assert p.gas + Sum(p.charge) == c.block.gasLimit by { PoolGas(c, p); }
      t, q := Buy(c, start, s, p, w);
    }
  }

  lemma PoolGas(c: Wave, p: Pool)
    requires Inv(c, p)
    ensures GasInv(c, p) && p.gas + Sum(p.charge) == c.block.gasLimit
  {
  }

  lemma StartStaged(c: Wave, workers: nat, gas: nat, flight: set<nat>, last: nat)
    ensures Staged(c, Start(c.base, workers, gas, Charges(c.block, c.s0, c.before)), flight, last, 0, |flight * Elems(c.jobs[..0])|)
  {
    assert flight * Elems(c.jobs[..0]) == {};
    assert Charges(c.block, c.s0, c.before) == StagedCharge(c, flight, last, 0);
  }

  // For every number of workers: on a wave without a rejected transaction, every schedule
  // stays clear of ErrGasLimitReached if and only if every peak fits the pool.
  lemma GasLimitExact(c: Wave, workers: nat, gas: nat)
    requires WaveOk(c) && Acceptable(c)
    requires gas + Sum(Charges(c.block, c.s0, c.before)) == c.block.gasLimit < TWO_64
    ensures var start := Start(c.base, workers, gas, Charges(c.block, c.s0, c.before));
            (forall schedule, q :: Leads(c.block, c.jobs, start, schedule, q) ==> q.firstErr.None?) <==> PeaksFit(c, workers)
  {
    hide WaveOk, Acceptable, Leads, Peak, Demand, Charges, Inv;
    var start := Start(c.base, workers, gas, Charges(c.block, c.s0, c.before));
    StartsClear(c, workers, gas);
    if PeaksFit(c, workers) {
      forall schedule, q | Leads(c.block, c.jobs, start, schedule, q) ensures q.firstErr.None? {
        RunStaysClear(c, start, schedule, q);
      }
    } else {
      var schedule, q := GasRunsOut(c, workers, gas);
    }
  }

  lemma StartsClear(c: Wave, workers: nat, gas: nat)
    requires WaveOk(c)
    requires gas + Sum(Charges(c.block, c.s0, c.before)) == c.block.gasLimit < TWO_64
    ensures Clear(c, Start(c.base, workers, gas, Charges(c.block, c.s0, c.before)))
  {
    hide WaveOk, Inv;
    StartInv(c, workers, gas, Charges(c.block, c.s0, c.before));
  }

  lemma GasRunsOut(c: Wave, workers: nat, gas: nat) returns (schedule: seq<nat>, q: Pool)
    requires WaveOk(c) && Acceptable(c) && !PeaksFit(c, workers)
    requires gas + Sum(Charges(c.block, c.s0, c.before)) == c.block.gasLimit < TWO_64
    ensures Leads(c.block, c.jobs, Start(c.base, workers, gas, Charges(c.block, c.s0, c.before)), schedule, q) && ShortOfGas(q)
  {
    var flight, m :| Peak(c.jobs, workers, flight, m) && Sum(Demand(c, flight, m)) > c.block.gasLimit;
    var last :| last in flight;
    hide WaveOk, Inv, Acceptable, Charges, Demand, Staged, Peak;
    var start := Start(c.base, workers, gas, Charges(c.block, c.s0, c.before));
    StartsClear(c, workers, gas);
    StartStaged(c, workers, gas, flight, last);
    schedule, q := Overcommitted(c, start, [], start, flight, m, last, 0);
  }

  lemma WaveFootprints(c: Wave)
    requires WaveOk(c)
    ensures Footprints(c.block)
  {
  }

  // ----- Every run can be completed.

  lemma {:induction false} Completes(c: Wave, p: Pool) returns (s: seq<nat>, q: Pool)
    requires WaveOk(c) && Inv(c, p) && JobsInRange(c.block, c.jobs, p)
    ensures Leads(c.block, c.jobs, p, s, q) && AllStopped(q) && (p.firstErr.Some? ==> q.firstErr == p.firstErr)
    decreases SwapMeasure(c.jobs, p), Sum(Steps(p))
  {
    hide WaveOk, Inv, Step, SwapMeasure, Steps, Sum, JobsInRange, Leads, Stopped;
    if w :| 0 <= w < |p.workers| && !Stopped(p.workers[w].phase) {
      var p1 := Step(c.block, c.jobs, p, w);
      StepKeepsInv(c, p, w);
      RangeFromInv(c, p1);
      StepMakesProgress(c.block, c.jobs, p, w);
      ErrorStays(c.block, c.jobs, p, w);
      OneStep(c.block, c.jobs, p, w);
      var s1;
      s1, q := Completes(c, p1);
      LeadsThen(c.block, c.jobs, p, [w], p1, s1, q);
      s := [w] + s1;
    } else {
      NoSteps(c.block, c.jobs, p);
      s, q := [], p;
    }
  }

  lemma ErrorStays(b: Block, jobs: seq<nat>, p: Pool, w: nat)
    requires JobsInRange(b, jobs, p) && w < |p.workers| && !Stopped(p.workers[w].phase)
    ensures p.firstErr.Some? ==> Step(b, jobs, p, w).firstErr == p.firstErr
  {
  }

  // An error on some schedule is an error on some complete schedule.
  lemma CompleteWithError(c: Wave, start: Pool, s: seq<nat>, p: Pool) returns (t: seq<nat>, q: Pool)
    requires WaveOk(c) && Inv(c, start) && Leads(c.block, c.jobs, start, s, p) && p.firstErr.Some?
    ensures Leads(c.block, c.jobs, start, t, q) && AllStopped(q) && q.firstErr == p.firstErr
  {
    hide WaveOk, Inv, Leads, AllStopped, JobsInRange;
    RunKeepsInv(c, start, s, p);
    RangeFromInv(c, p);
    var r;
    r, q := Completes(c, p);
    LeadsThen(c.block, c.jobs, start, s, p, r, q);
    t := s + r;
  }

  // ----- What the condition comes to.

  // Limits that fit together make every peak fit, whatever the number of workers.
  lemma LimitsMakePeaksFit(c: Wave, workers: nat)
    requires Footprints(c.block) && WaveFits(c)
    ensures PeaksFit(c, workers)
  {
    forall flight: set<nat>, m: nat | Peak(c.jobs, workers, flight, m) ensures Sum(Demand(c, flight, m)) <= c.block.gasLimit {
      forall i | 0 <= i < |c.block.txs| ensures Demand(c, flight, m)[i] <= Ceiling(c)[i] {
        GasWithinLimit(c.block, c.s0, i);
        assert i in flight ==> i in Elems(c.jobs[..m]);
      }
      SumDominated(Demand(c, flight, m), Ceiling(c));
    }
  }

  // With a worker for every transaction the condition is that the limits fit together.
  lemma WorkerPerTransaction(c: Wave, workers: nat)
    requires Footprints(c.block) && c.jobs != [] && |c.jobs| <= workers
    ensures PeaksFit(c, workers) <==> WaveFits(c)
  {
    if PeaksFit(c, workers) {
      var flight := Elems(c.jobs);
      JobCount(c.jobs);
      assert c.jobs[0] in flight && c.jobs[|c.jobs| - 1] in flight && c.jobs[..|c.jobs|] == c.jobs;
      assert Peak(c.jobs, workers, flight, |c.jobs|);
      assert Demand(c, flight, |c.jobs|) == Ceiling(c);
    }
    if WaveFits(c) {
      LimitsMakePeaksFit(c, workers);
    }
  }

  lemma {:induction false} JobCount(jobs: seq<nat>)
    ensures |Elems(jobs)| <= |jobs|
  {
    if jobs != [] {
      JobCount(jobs[1..]);
      assert Elems(jobs) == Elems(jobs[1..]) + {jobs[0]};
      UnionCount(Elems(jobs[1..]), {jobs[0]});
    }
  }
}
