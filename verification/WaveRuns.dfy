// Whole runs of the worker pool: what holds after every schedule, and that every
// schedule comes to an end.
module WaveRuns {
  import opened Base
  import opened Execution
  import opened WavePool

  // The gas limits of the block fit its gas limit.
  ghost predicate GasFits(b: Block) {
    Sum(GasLimits(b)) <= b.gasLimit
  }

  // The most gas that can be held at once during a wave: what the earlier waves used plus
  // the full limit of every queued transaction.
  ghost function Ceiling(c: Wave): seq<nat> {
    seq(|c.block.txs|, i requires 0 <= i < |c.block.txs| =>
      if i in c.before then GasOf(c.block, c.s0, i)
      else if i in c.jobs then c.block.txs[i].gasLimit else 0)
  }

  // The pool cannot be the deciding factor in this wave.
  ghost predicate WaveFits(c: Wave) {
    Sum(Ceiling(c)) <= c.block.gasLimit
  }

  lemma GasFitsEveryWave(c: Wave)
    requires Footprints(c.block) && GasFits(c.block)
    ensures WaveFits(c)
  {
    forall i | 0 <= i < |c.block.txs| ensures Ceiling(c)[i] <= GasLimits(c.block)[i] {
      GasWithinLimit(c.block, c.s0, i);
    }
    SumDominated(Ceiling(c), GasLimits(c.block));
  }

  // An error is recorded exactly when a worker failed, and it is justified.
  ghost predicate ErrInv(c: Wave, p: Pool) {
    && (p.firstErr.None? <==> forall w :: 0 <= w < |p.workers| ==> !p.workers[w].phase.Failed?)
    && (p.firstErr.Some? ==> Justified(c, p.firstErr.value))
  }

  ghost predicate SeenInv(c: Wave, p: Pool) {
    forall w :: 0 <= w < |p.workers| && p.workers[w].phase.Buying? && WaveFits(c) ==>
      && p.workers[w].phase.job < |c.block.txs|
      && c.block.txs[p.workers[w].phase.job].gasLimit <= p.workers[w].phase.seen
  }

  // The limit of transaction i fits what the earlier waves left.
  ghost predicate OwnFits(c: Wave, i: nat) {
    i < |c.block.txs| && Sum(Charges(c.block, c.s0, c.before)) + c.block.txs[i].gasLimit <= c.block.gasLimit
  }

  // Whoever bought gas could afford it at the start of the wave.
  ghost predicate BoughtInv(c: Wave, p: Pool) {
    && (forall w :: 0 <= w < |p.workers| && (p.workers[w].phase.Running? || p.workers[w].phase.Returning?) ==>
          OwnFits(c, p.workers[w].phase.job))
    && (forall i :: i in p.forkOf ==> OwnFits(c, i))
    && (p.firstErr.Some? ==> Afforded(c, p.firstErr.value))
  }

  // An error after buying had the gas; a gas-limit error did not come before the earlier checks.
  ghost predicate Afforded(c: Wave, e: TxError) {
    && e.index < |c.block.txs|
    && var v := Verdict(c.block, c.s0, e.index);
       && (v.Rejected? && v.gasBought && e.cause.Core? ==> OwnFits(c, e.index))
       && (v.Rejected? && !v.gasBought ==> e.cause.Core?)
  }

  ghost predicate Inv(c: Wave, p: Pool) {
    && JobInv(c.jobs, p) && ForkInv(c, p) && ReceiptInv(c, p) && PhaseInv(c, p)
    && GasInv(c, p) && ErrInv(c, p) && SeenInv(c, p) && BoughtInv(c, p)
  }

  // The pool never holds more than at the start of the wave.
  lemma PoolAtMost(c: Wave, p: Pool)
    requires GasInv(c, p)
    ensures p.gas + Sum(Charges(c.block, c.s0, c.before)) <= c.block.gasLimit
  {
    SumDominated(Charges(c.block, c.s0, c.before), p.charge);
  }

  lemma StepBuys(c: Wave, p: Pool, w: nat)
    requires JobsInRange(c.block, c.jobs, p) && w < |p.workers| && !Stopped(p.workers[w].phase)
    requires p.gas + Sum(Charges(c.block, c.s0, c.before)) <= c.block.gasLimit
    requires HasJob(p.workers[w].phase) ==> HeldOk(c, p, w) && PhaseOk(c, p.workers[w].phase)
    requires BoughtInv(c, p)
    ensures var q, ph := Step(c.block, c.jobs, p, w), p.workers[w].phase;
            && |q.workers| == |p.workers|
            && (forall v :: 0 <= v < |p.workers| && v != w ==> q.workers[v] == p.workers[v])
            && (q.workers[w].phase.Running? || q.workers[w].phase.Returning? ==> OwnFits(c, q.workers[w].phase.job))
            && (forall i :: i in q.forkOf ==> OwnFits(c, i))
            && (q.firstErr.Some? && q.firstErr != p.firstErr ==> Afforded(c, q.firstErr.value))
  {
    hide StateBefore, Sum, Charges;
    match p.workers[w].phase {
      case Idle =>
      case Holding(i) =>
      case Buying(i, seen) =>
      case Running(i) =>
      case Returning(i, seen) =>
    }
  }

  lemma StepKeepsBoughtInv(c: Wave, p: Pool, w: nat)
    requires BoughtInv(c, p) && GasInv(c, p) && PhaseInv(c, p) && JobsInRange(c.block, c.jobs, p)
    requires w < |p.workers| && !Stopped(p.workers[w].phase)
    requires HasJob(p.workers[w].phase) ==> HeldOk(c, p, w)
    ensures BoughtInv(c, Step(c.block, c.jobs, p, w))
  {
    PoolAtMost(c, p);
    hide Step, HeldOk, GasInv, OwnFits, Afforded;
    assert PhaseOk(c, p.workers[w].phase);
    StepBuys(c, p, w);
  }

  // A transaction that has not bought gas yet finds its whole limit in the pool, provided
  // the charges stay below a cap that fits.
  lemma EnoughGas(charge: seq<nat>, cap: seq<nat>, gas: nat, i: nat)
    requires |charge| == |cap| && i < |charge| && charge[i] == 0
    requires Sum(cap) <= gas + Sum(charge)
    requires forall k :: 0 <= k < |charge| ==> charge[k] <= cap[k]
    ensures cap[i] <= gas
  {
    var full := charge[i := cap[i]];
    SumUpdate(charge, i, cap[i]);
    SumDominated(full, cap);
  }

  lemma EnoughGasInWave(c: Wave, p: Pool, w: nat)
    requires GasInv(c, p) && WaveFits(c)
    requires w < |p.workers| && p.workers[w].phase.Holding? && p.workers[w].phase.job < |c.block.txs|
    requires p.workers[w].phase.job in c.jobs && p.workers[w].phase.job !in c.before
    ensures c.block.txs[p.workers[w].phase.job].gasLimit <= p.gas
  {
    assert ChargeOk(c.block, p.workers[w].phase, p.charge);
    forall k | 0 <= k < |p.charge| ensures p.charge[k] <= Ceiling(c)[k] {
      assert k in c.jobs[..p.next] ==> k in c.jobs;
    }
    EnoughGas(p.charge, Ceiling(c), p.gas, p.workers[w].phase.job);
  }

  // SubGas loads the pool as it is right now.
  lemma StepLoads(b: Block, jobs: seq<nat>, p: Pool, w: nat)
    requires JobsInRange(b, jobs, p) && w < |p.workers| && !Stopped(p.workers[w].phase)
    ensures var q := Step(b, jobs, p, w);
            && |q.workers| == |p.workers|
            && (forall v :: 0 <= v < |p.workers| && v != w ==> q.workers[v] == p.workers[v])
            && (q.workers[w].phase.Buying? ==>
                  p.workers[w].phase == Holding(q.workers[w].phase.job) && q.workers[w].phase.seen == p.gas)
  {
  }

  lemma StepKeepsSeenInv(c: Wave, p: Pool, w: nat)
    requires SeenInv(c, p) && GasInv(c, p) && JobsInRange(c.block, c.jobs, p)
    requires forall i :: i in c.jobs ==> i !in c.before
    requires w < |p.workers| && !Stopped(p.workers[w].phase)
    ensures SeenInv(c, Step(c.block, c.jobs, p, w))
  {
    hide Step, WaveFits, GasInv;
    StepLoads(c.block, c.jobs, p, w);
    if p.workers[w].phase.Holding? && WaveFits(c) {
      EnoughGasInWave(c, p, w);
    }
  }

  // A step records an error only together with failing, and blames its own transaction.
  lemma StepError(c: Wave, p: Pool, w: nat)
    requires JobsInRange(c.block, c.jobs, p) && w < |p.workers| && !Stopped(p.workers[w].phase)
    requires HasJob(p.workers[w].phase) ==> HeldOk(c, p, w)
    requires p.workers[w].phase.Buying? && WaveFits(c) ==>
               c.block.txs[p.workers[w].phase.job].gasLimit <= p.workers[w].phase.seen
    ensures var q := Step(c.block, c.jobs, p, w);
            && |q.workers| == |p.workers|
            && (forall v :: 0 <= v < |p.workers| && v != w ==> q.workers[v] == p.workers[v])
            && (!q.workers[w].phase.Failed? ==> q.firstErr == p.firstErr)
            && (q.workers[w].phase.Failed? ==>
                  q.firstErr.Some? && (q.firstErr == p.firstErr || Justified(c, q.firstErr.value)))
  {
    hide StateBefore, WaveFits;
    match p.workers[w].phase {
      case Idle =>
      case Holding(i) =>
      case Buying(i, seen) =>
      case Running(i) =>
      case Returning(i, seen) =>
    }
  }

  // The error names a transaction the in-order run rejects in the same way, unless the
  // gas limits of the wave overcommit the pool.
  ghost predicate Justified(c: Wave, e: TxError) {
    && e.index < |c.block.txs| && e.index in c.jobs
    && (e.cause.Core? ==> !Accepted(c.block, c.s0, e.index) && Verdict(c.block, c.s0, e.index).error == e.cause.error)
    && (e.cause.GasLimitReached? ==> !WaveFits(c))
  }

  lemma StepKeepsErrInv(c: Wave, p: Pool, w: nat)
    requires ErrInv(c, p) && SeenInv(c, p) && JobsInRange(c.block, c.jobs, p)
    requires w < |p.workers| && !Stopped(p.workers[w].phase)
    requires HasJob(p.workers[w].phase) ==> HeldOk(c, p, w)
    ensures ErrInv(c, Step(c.block, c.jobs, p, w))
  {
    hide Step, HeldOk, Justified;
    StepError(c, p, w);
  }

  lemma Basics(c: Wave, p: Pool)
    requires WaveOk(c) && GasInv(c, p)
    ensures Distinct(c.jobs) && |p.charge| == |c.block.txs|
    ensures forall i :: i in c.jobs ==> i !in c.before
  {
    assert forall i :: i in c.jobs ==> Ready(c.block, c.before, i);
  }

  // Every step of every worker keeps all invariants; in particular AddGas never panics.
  lemma StepKeepsInv(c: Wave, p: Pool, w: nat)
    requires WaveOk(c) && Inv(c, p) && w < |p.workers| && !Stopped(p.workers[w].phase)
    ensures JobsInRange(c.block, c.jobs, p) && Inv(c, Step(c.block, c.jobs, p, w))
    ensures |Step(c.block, c.jobs, p, w).workers| == |p.workers|
  {
    hide WaveOk, JobInv, ForkInv, ReceiptInv, GasInv, ErrInv, BoughtInv;
    Basics(c, p);
    InvGivesRange(c, p);
    var q := Step(c.block, c.jobs, p, w);
    StepKeepsJobInv(c.block, c.jobs, p, w);
    StepKeepsForkInv(c, p, w);
    StepKeepsReceiptInv(c, p, w);
    if HasJob(p.workers[w].phase) {
      StepKeepsGasInv(c, p, w);
      StepShape(c.block, c.jobs, p, w);
    } else {
      IdleStepKeepsGasInv(c, p, w);
    }
    StepKeepsSeenInv(c, p, w);
    StepKeepsErrInv(c, p, w);
    StepKeepsBoughtInv(c, p, w);
    StepKeepsPhaseOk(c, p, w);
    StepKeepsPhaseInv(c, p, w, q);
  }

  lemma StartForkInv(c: Wave, p: Pool)
    requires Synced(c.block, c.s0, c.before, c.base) && p.forkOf == map[]
    requires forall w :: 0 <= w < |p.workers| ==> p.workers[w].fork == CopyForParallelTx(c.base)
    ensures ForkInv(c, p)
  {
    hide Synced;
    forall w | 0 <= w < |p.workers| ensures ForkOk(c, p.workers[w].fork, DoneBy(p, w)) {
      assert DoneBy(p, w) == {};
      assert c.before + {} == c.before;
    }
  }

  lemma StartGasInv(c: Wave, p: Pool)
    requires Footprints(c.block) && WaveReady(c.block, c.jobs, c.before)
    requires p.next == 0 && p.forkOf == map[] && forall w :: 0 <= w < |p.workers| ==> p.workers[w].phase == Idle
    requires |p.charge| == |c.block.txs| && p.gas + Sum(p.charge) == c.block.gasLimit < TWO_64
    requires forall i :: 0 <= i < |p.charge| ==>
               p.charge[i] == (if i in c.before then GasOf(c.block, c.s0, i) else 0)
    ensures GasInv(c, p)
  {
    forall i | 0 <= i < |p.charge| ensures p.charge[i] <= c.block.txs[i].gasLimit {
      GasWithinLimit(c.block, c.s0, i);
    }
  }

  lemma GasWithinLimit(b: Block, s0: State, i: nat)
    requires Footprints(b) && i < |b.txs|
    ensures GasOf(b, s0, i) <= b.txs[i].gasLimit
  {
    assert RespectsFootprint(b.txs[i], b.coinbase);
    assert StaysInFootprint(b.txs[i], b.coinbase, StateBefore(b, s0, i));
  }

  lemma StartInv(c: Wave, workers: nat, gas: nat, charge: seq<nat>)
    requires WaveOk(c) && |charge| == |c.block.txs|
    requires gas + Sum(charge) == c.block.gasLimit < TWO_64
    requires forall i :: 0 <= i < |charge| ==>
               charge[i] == (if i in c.before then GasOf(c.block, c.s0, i) else 0)
    ensures Inv(c, Start(c.base, workers, gas, charge))
  {
    hide Footprints, WaveReady, Synced, ForkInv, GasInv, ReceiptInv, ErrInv, SeenInv, BoughtInv, PhaseInv, JobInv;
    var p := Start(c.base, workers, gas, charge);
    StartForkInv(c, p);
    StartGasInv(c, p);
    StartRest(c, p);
  }

  lemma StartRest(c: Wave, p: Pool)
    requires p.next == 0 && p.forkOf == map[] && p.receipts == map[] && p.firstErr.None?
    requires forall w :: 0 <= w < |p.workers| ==> p.workers[w].phase == Idle
    ensures JobInv(c.jobs, p) && ReceiptInv(c, p) && PhaseInv(c, p) && ErrInv(c, p) && SeenInv(c, p) && BoughtInv(c, p)
  {
    hide Verdict, WaveFits, OwnFits, Afforded, Justified;
  }

  // q is reached from p when the workers step in the order given by the schedule.
  ghost predicate Leads(b: Block, jobs: seq<nat>, p: Pool, schedule: seq<nat>, q: Pool)
    decreases schedule
  {
    if schedule == [] then p == q
    else
      && schedule[0] < |p.workers| && !Stopped(p.workers[schedule[0]].phase) && JobsInRange(b, jobs, p)
      && Leads(b, jobs, Step(b, jobs, p, schedule[0]), schedule[1..], q)
  }

  lemma {:induction false} RunKeepsInv(c: Wave, p: Pool, schedule: seq<nat>, q: Pool)
    requires WaveOk(c) && Inv(c, p) && Leads(c.block, c.jobs, p, schedule, q)
    ensures Inv(c, q) && |q.workers| == |p.workers|
    decreases schedule
  {
    hide Inv, WaveOk, Step, JobsInRange;
    if schedule != [] {
      StepKeepsInv(c, p, schedule[0]);
      RunKeepsInv(c, Step(c.block, c.jobs, p, schedule[0]), schedule[1..], q);
    }
  }

  lemma NoSteps(b: Block, jobs: seq<nat>, p: Pool)
    ensures Leads(b, jobs, p, [], p)
  {
  }

  lemma OneStep(b: Block, jobs: seq<nat>, p: Pool, w: nat)
    requires JobsInRange(b, jobs, p) && w < |p.workers| && !Stopped(p.workers[w].phase)
    ensures Leads(b, jobs, p, [w], Step(b, jobs, p, w))
  {
    assert [w][1..] == [];
    assert Leads(b, jobs, Step(b, jobs, p, w), [], Step(b, jobs, p, w));
  }

  lemma {:induction false} LeadsThen(b: Block, jobs: seq<nat>, p: Pool, s: seq<nat>, q: Pool, t: seq<nat>, r: Pool)
    requires Leads(b, jobs, p, s, q) && Leads(b, jobs, q, t, r)
    ensures Leads(b, jobs, p, s + t, r)
    decreases s
  {
    if s == [] {
      assert s + t == t;
    } else {
      LeadsThen(b, jobs, Step(b, jobs, p, s[0]), s[1..], q, t, r);
      assert (s + t)[1..] == s[1..] + t;
    }
  }

  ghost predicate AllStopped(p: Pool) {
    forall w :: 0 <= w < |p.workers| ==> Stopped(p.workers[w].phase)
  }

  // A run that ends without an error has executed every queued transaction on exactly
  // one fork, and each of them is accepted by the in-order run with the same receipt.
  lemma CleanEnd(c: Wave, p: Pool)
    requires WaveOk(c) && Inv(c, p) && AllStopped(p) && p.firstErr.None? && |p.workers| > 0
    ensures p.forkOf.Keys == Elems(c.jobs) == p.receipts.Keys
    ensures forall i :: i in c.jobs ==> Accepted(c.block, c.s0, i) && p.receipts[i] == ReceiptFor(i, Verdict(c.block, c.s0, i))
  {
    hide WaveOk, ForkInv, GasInv, SeenInv;
    forall w | 0 <= w < |p.workers| ensures p.workers[w].phase.Exited? {
      assert PhaseOk(c, p.workers[w].phase);
    }
    assert p.workers[0].phase.Exited?;
    forall i | i in c.jobs ensures i in p.forkOf {
      var q :| 0 <= q < |c.jobs| && c.jobs[q] == i;
      assert !Held(p, c.jobs[q]);
    }
    assert c.jobs[..p.next] == c.jobs;
  }

  // If some queued transaction is rejected by the in-order run, every complete run
  // of the wave reports an error.
  lemma RejectionIsReported(c: Wave, p: Pool, i: nat)
    requires WaveOk(c) && Inv(c, p) && AllStopped(p) && |p.workers| > 0
    requires i in c.jobs && i < |c.block.txs| && !Accepted(c.block, c.s0, i)
    ensures p.firstErr.Some?
  {
    if p.firstErr.None? {
      CleanEnd(c, p);
    }
  }

  // If all are accepted and the gas fits, no run of the wave reports an error.
  lemma AcceptanceIsReported(c: Wave, p: Pool)
    requires Inv(c, p) && WaveFits(c)
    requires forall i :: i in c.jobs && i < |c.block.txs| ==> Accepted(c.block, c.s0, i)
    ensures p.firstErr.None?
  {
  }

  // ----- Every schedule terminates: the retry loops are lock-free.

  // Successful swaps still ahead of a worker in this phase.
  ghost function SwapsLeft(ph: Phase): nat {
    match ph
    case Holding(_) => 2
    case Buying(_, _) => 2
    case Running(_) => 1
    case Returning(_, _) => 1
    case _ => 0
  }

  // Steps a worker can take before somebody's swap succeeds.
  ghost function StepsLeft(gas: nat, ph: Phase): nat {
    match ph
    case Idle => 5
    case Holding(_) => 3
    case Running(_) => 3
    case Buying(_, seen) => if seen == gas then 1 else 4
    case Returning(_, seen) => if seen == gas then 1 else 4
    case _ => 0
  }

  ghost function Swaps(p: Pool): seq<nat> {
    seq(|p.workers|, w requires 0 <= w < |p.workers| => SwapsLeft(p.workers[w].phase))
  }

  ghost function Steps(p: Pool): seq<nat> {
    seq(|p.workers|, w requires 0 <= w < |p.workers| => StepsLeft(p.gas, p.workers[w].phase))
  }

  ghost function SwapMeasure(jobs: seq<nat>, p: Pool): nat
    requires p.next <= |jobs|
  {
    2 * (|jobs| - p.next) + Sum(Swaps(p))
  }

  // The same on the stepping worker alone.
  lemma StepProgress(b: Block, jobs: seq<nat>, p: Pool, w: nat)
    requires JobsInRange(b, jobs, p) && w < |p.workers| && !Stopped(p.workers[w].phase)
    ensures var q := Step(b, jobs, p, w);
            var before, after := p.workers[w].phase, q.workers[w].phase;
            && |q.workers| == |p.workers| && p.next <= q.next <= |jobs|
            && (forall v :: 0 <= v < |p.workers| && v != w ==> q.workers[v] == p.workers[v])
            && (|| SwapsLeft(after) + 2 * p.next < SwapsLeft(before) + 2 * q.next
                || (&& SwapsLeft(after) + 2 * p.next == SwapsLeft(before) + 2 * q.next
                    && q.gas == p.gas && StepsLeft(p.gas, after) < StepsLeft(p.gas, before)))
  {
    match p.workers[w].phase {
      case Idle =>
      case Holding(i) =>
      case Buying(i, seen) =>
      case Running(i) =>
      case Returning(i, seen) =>
    }
  }

  // Each step either uses up a swap or brings its worker closer to one.
  lemma StepMakesProgress(b: Block, jobs: seq<nat>, p: Pool, w: nat)
    requires JobsInRange(b, jobs, p) && w < |p.workers| && !Stopped(p.workers[w].phase)
    ensures var q := Step(b, jobs, p, w);
            && q.next <= |jobs|
            && (|| SwapMeasure(jobs, q) < SwapMeasure(jobs, p)
                || (SwapMeasure(jobs, q) == SwapMeasure(jobs, p) && Sum(Steps(q)) < Sum(Steps(p))))
  {
    hide Step;
    var q := Step(b, jobs, p, w);
    StepProgress(b, jobs, p, w);
    var ph := q.workers[w].phase;
    assert Swaps(q) == Swaps(p)[w := SwapsLeft(ph)];
    SumUpdate(Swaps(p), w, SwapsLeft(ph));
    if q.gas == p.gas {
      assert Steps(q) == Steps(p)[w := StepsLeft(p.gas, ph)];
      SumUpdate(Steps(p), w, StepsLeft(p.gas, ph));
    }
  }

  lemma RangeFromInv(c: Wave, p: Pool)
    requires WaveOk(c) && Inv(c, p)
    ensures JobsInRange(c.block, c.jobs, p)
  {
    hide WaveOk, JobInv, ForkInv, ReceiptInv, PhaseInv, JobsInRange;
    InvGivesRange(c, p);
  }

  // The wave, run under whatever schedule happens: at each turn any worker that has not
  // stopped may take the next step.
  method RunWave(b: Block, jobs: seq<nat>, start: Pool, ghost c: Wave) returns (p: Pool, ghost schedule: seq<nat>)
    requires c.block == b && c.jobs == jobs && WaveOk(c) && Inv(c, start)
    ensures Inv(c, p) && AllStopped(p) && |p.workers| == |start.workers|
    ensures Leads(b, jobs, start, schedule, p)
  {
    hide Inv, WaveOk, Step, SwapMeasure, Steps, Leads;
    p, schedule := start, [];
    RangeFromInv(c, p);
    NoSteps(b, jobs, start);
    while exists w :: 0 <= w < |p.workers| && !Stopped(p.workers[w].phase)
      invariant Inv(c, p) && JobsInRange(b, jobs, p) && |p.workers| == |start.workers|
      invariant Leads(b, jobs, start, schedule, p)
      decreases SwapMeasure(jobs, p), Sum(Steps(p))
    {
      var w :| 0 <= w < |p.workers| && !Stopped(p.workers[w].phase);
      StepKeepsInv(c, p, w);
      StepMakesProgress(b, jobs, p, w);
      OneStep(b, jobs, p, w);
      LeadsThen(b, jobs, start, schedule, p, [w], Step(b, jobs, p, w));
      p, schedule := Step(b, jobs, p, w), schedule + [w];
      RangeFromInv(c, p);
    }
  }
}
