// The worker pool of one parallel wave (core/state_processor.go): every worker forks the
// wave-start state once and then takes transactions from a shared queue. A schedule is
// the order in which the workers take their next step, down to the single load and
// compare-and-swap of the shared gas counter.
module WavePool {
  import opened Base
  import opened Execution
  import GasPool

  // Where a worker stands between two of its steps.
  datatype Phase =
    | Idle                          // about to receive from the queue
    | Holding(job: nat)             // about to check the message and load the pool
    | Buying(job: nat, seen: nat)   // SubGas loaded `seen`
    | Running(job: nat)             // gas bought
    | Returning(job: nat, seen: nat)// executed, AddGas loaded `seen`
    | Failed(job: nat)              // returned after recording an error
    | Panicked(job: nat)            // AddGas overflow
    | Exited                        // queue drained

  // A private fork of the state: accounts, the accumulated dirty addresses, logs by transaction.
  datatype Fork = Fork(accounts: State, merge: set<Address>, logs: map<nat, seq<Log>>)

  datatype Worker = Worker(phase: Phase, fork: Fork)

  datatype Cause = GasLimitReached | Core(error: nat)

  datatype TxError = TxError(index: nat, cause: Cause)

  // `charge` is a ledger kept for the proofs: the gas each transaction holds right now.
  datatype Pool = Pool(next: nat, gas: nat, workers: seq<Worker>, receipts: map<nat, Receipt>,
                       forkOf: map<nat, nat>, firstErr: Option<TxError>, charge: seq<nat>)

  predicate Stopped(ph: Phase) {
    ph.Exited? || ph.Failed? || ph.Panicked?
  }

  function CopyForParallelTx(s: State): (f: Fork) {
    Fork(s, {}, map[])
  }

  function ReceiptFor(i: nat, o: Outcome): (r: Receipt)
    requires o.Applied?
  {
    Receipt(i, o.ok, o.gasUsed, o.gasUsed, o.logs)
  }

  // The state right after the workers have been started.
  function Start(s: State, workers: nat, gas: nat, charge: seq<nat>): (p: Pool) {
    Pool(0, gas, seq(workers, _ => Worker(Idle, CopyForParallelTx(s))), map[], map[], None, charge)
  }

  function MoveTo(p: Pool, w: nat, ph: Phase): (q: Pool)
    requires w < |p.workers|
  {
    p.(workers := p.workers[w := p.workers[w].(phase := ph)])
  }

  // Records the error unless one is recorded already, and stops the worker.
  function Fail(p: Pool, w: nat, i: nat, cause: Cause): (q: Pool)
    requires w < |p.workers|
  {
    var e := if p.firstErr.None? then Some(TxError(i, cause)) else p.firstErr;
    MoveTo(p, w, Failed(i)).(firstErr := e)
  }

  function Attempt(b: Block, p: Pool, w: nat, i: nat): (o: Outcome)
    requires i < |b.txs| && w < |p.workers|
  {
    b.txs[i].run(p.workers[w].fork.accounts)
  }

  // The transaction is done: its writes and logs stay in the fork, its receipt and its
  // fork are filed under its index, the unused gas is back in the pool.
  function Finish(p: Pool, w: nat, i: nat, o: Outcome, gas: nat): (q: Pool)
    requires w < |p.workers| && i < |p.charge| && o.Applied?
  {
    var f := p.workers[w].fork;
    var f' := Fork(o.post, f.merge + o.dirty, f.logs[i := o.logs]);
    p.(gas := gas,
       workers := p.workers[w := Worker(Idle, f')],
       receipts := p.receipts[i := ReceiptFor(i, o)],
       forkOf := p.forkOf[i := w],
       charge := p.charge[i := o.gasUsed])
  }

  predicate JobsInRange(b: Block, jobs: seq<nat>, p: Pool) {
    && p.next <= |jobs| && |p.charge| == |b.txs|
    && (forall i :: i in jobs ==> i < |b.txs|)
    && (forall w :: 0 <= w < |p.workers| && p.workers[w].phase != Idle && p.workers[w].phase != Exited ==>
          p.workers[w].phase.job in jobs)
    && (forall w :: 0 <= w < |p.workers| && p.workers[w].phase.Returning? ==>
          var o := Attempt(b, p, w, p.workers[w].phase.job);
          o.Applied? && o.gasUsed <= b.txs[p.workers[w].phase.job].gasLimit)
  }

  // The next step of worker w.
  function Step(b: Block, jobs: seq<nat>, p: Pool, w: nat): (q: Pool)
    requires JobsInRange(b, jobs, p) && w < |p.workers| && !Stopped(p.workers[w].phase)
  {
    match p.workers[w].phase
    case Idle =>
      if p.next == |jobs| then MoveTo(p, w, Exited)
      else MoveTo(p, w, Holding(jobs[p.next])).(next := p.next + 1)
    case Holding(i) =>
      var o := Attempt(b, p, w, i);
      if o.Rejected? && !o.gasBought then Fail(p, w, i, Core(o.error))
      else MoveTo(p, w, Buying(i, p.gas))
    case Buying(i, seen) =>
      (match GasPool.SubGas(p.gas, seen, b.txs[i].gasLimit)
       case LimitReached => Fail(p, w, i, GasLimitReached)
       case SubRetry => MoveTo(p, w, Holding(i))
       case SubDone(left) =>
         MoveTo(p, w, Running(i)).(gas := left, charge := p.charge[i := b.txs[i].gasLimit]))
    case Running(i) =>
      var o := Attempt(b, p, w, i);
      if o.Rejected? then Fail(p, w, i, Core(o.error))
      else if b.txs[i].gasLimit < o.gasUsed then MoveTo(p, w, Panicked(i))
      else MoveTo(p, w, Returning(i, p.gas))
    case Returning(i, seen) =>
      var o := Attempt(b, p, w, i);
      (match GasPool.AddGas(p.gas, seen, b.txs[i].gasLimit - o.gasUsed)
       case Overflow => MoveTo(p, w, Panicked(i))
       case AddRetry => MoveTo(p, w, Running(i))
       case AddDone(left) => Finish(p, w, i, o, left))
  }

  // ----- Who holds which transaction.

  predicate HasJob(ph: Phase) {
    !ph.Idle? && !ph.Exited?
  }

  ghost predicate Held(p: Pool, i: nat) {
    exists w :: 0 <= w < |p.workers| && HasJob(p.workers[w].phase) && p.workers[w].phase.job == i
  }

  ghost function DoneBy(p: Pool, w: nat): set<nat> {
    set i | i in p.forkOf && p.forkOf[i] == w
  }

  // Every taken transaction is finished on one fork or held by one worker.
  ghost predicate JobInv(jobs: seq<nat>, p: Pool) {
    && p.next <= |jobs|
    && (forall i :: i in p.forkOf ==> i in jobs[..p.next] && p.forkOf[i] < |p.workers|)
    && (forall w :: 0 <= w < |p.workers| && HasJob(p.workers[w].phase) ==>
          p.workers[w].phase.job in jobs[..p.next] && p.workers[w].phase.job !in p.forkOf)
    && (forall v, w :: 0 <= v < w < |p.workers| && HasJob(p.workers[v].phase) && HasJob(p.workers[w].phase) ==>
          p.workers[v].phase.job != p.workers[w].phase.job)
    && (forall q :: 0 <= q < p.next ==> jobs[q] in p.forkOf || Held(p, jobs[q]))
    && (forall w :: 0 <= w < |p.workers| && p.workers[w].phase.Exited? ==> p.next == |jobs|)
  }

  // A worker that keeps its job does not disturb the bookkeeping.
  lemma SameJobKeepsJobInv(jobs: seq<nat>, p: Pool, w: nat, q: Pool)
    requires JobInv(jobs, p) && w < |p.workers| && HasJob(p.workers[w].phase)
    requires |q.workers| == |p.workers| && q.next == p.next && q.forkOf == p.forkOf
    requires forall v :: 0 <= v < |p.workers| && v != w ==> q.workers[v] == p.workers[v]
    requires HasJob(q.workers[w].phase) && q.workers[w].phase.job == p.workers[w].phase.job
    ensures JobInv(jobs, q)
  {
    forall r | 0 <= r < q.next ensures jobs[r] in q.forkOf || Held(q, jobs[r]) {
      if jobs[r] !in q.forkOf {
        var v :| 0 <= v < |p.workers| && HasJob(p.workers[v].phase) && p.workers[v].phase.job == jobs[r];
        assert HasJob(q.workers[v].phase) && q.workers[v].phase.job == jobs[r];
      }
    }
  }

  lemma TakeKeepsJobInv(jobs: seq<nat>, p: Pool, w: nat)
    requires JobInv(jobs, p) && Distinct(jobs) && w < |p.workers| && p.workers[w].phase.Idle?
    requires p.next < |jobs|
    ensures JobInv(jobs, MoveTo(p, w, Holding(jobs[p.next])).(next := p.next + 1))
  {
    var q := MoveTo(p, w, Holding(jobs[p.next])).(next := p.next + 1);
    assert jobs[..q.next] == jobs[..p.next] + [jobs[p.next]];
    assert q.workers[w].phase.job == jobs[p.next];
    assert jobs[p.next] !in jobs[..p.next];
    forall r | 0 <= r < q.next ensures jobs[r] in q.forkOf || Held(q, jobs[r]) {
      if r < p.next && jobs[r] !in q.forkOf {
        var v :| 0 <= v < |p.workers| && HasJob(p.workers[v].phase) && p.workers[v].phase.job == jobs[r];
        assert q.workers[v] == p.workers[v];
      }
    }
  }

  lemma FinishKeepsJobInv(jobs: seq<nat>, p: Pool, w: nat, i: nat, o: Outcome, gas: nat)
    requires JobInv(jobs, p) && w < |p.workers| && HasJob(p.workers[w].phase) && p.workers[w].phase.job == i
    requires i < |p.charge| && o.Applied?
    ensures JobInv(jobs, Finish(p, w, i, o, gas))
  {
    var q := Finish(p, w, i, o, gas);
    forall r | 0 <= r < q.next ensures jobs[r] in q.forkOf || Held(q, jobs[r]) {
      if jobs[r] !in q.forkOf {
        var v :| 0 <= v < |p.workers| && HasJob(p.workers[v].phase) && p.workers[v].phase.job == jobs[r];
        assert q.workers[v] == p.workers[v];
      }
    }
  }

  lemma ExitKeepsJobInv(jobs: seq<nat>, p: Pool, w: nat)
    requires JobInv(jobs, p) && w < |p.workers| && p.workers[w].phase.Idle? && p.next == |jobs|
    ensures JobInv(jobs, MoveTo(p, w, Exited))
  {
    var q := MoveTo(p, w, Exited);
    forall r | 0 <= r < q.next ensures jobs[r] in q.forkOf || Held(q, jobs[r]) {
      if jobs[r] !in q.forkOf {
        var v :| 0 <= v < |p.workers| && HasJob(p.workers[v].phase) && p.workers[v].phase.job == jobs[r];
        assert q.workers[v] == p.workers[v];
      }
    }
  }

  // How a step of a worker that holds a job can look: it keeps the job or finishes it.
  lemma StepShape(b: Block, jobs: seq<nat>, p: Pool, w: nat)
    requires JobsInRange(b, jobs, p) && w < |p.workers| && !Stopped(p.workers[w].phase)
    requires HasJob(p.workers[w].phase)
    ensures var q, i := Step(b, jobs, p, w), p.workers[w].phase.job;
            || (p.workers[w].phase.Returning? && q == Finish(p, w, i, Attempt(b, p, w, i), q.gas))
            || (&& q.next == p.next && q.forkOf == p.forkOf && q.receipts == p.receipts
                && q.workers == p.workers[w := p.workers[w].(phase := q.workers[w].phase)]
                && HasJob(q.workers[w].phase) && q.workers[w].phase.job == i)
  {
  }

  lemma StepKeepsJobInv(b: Block, jobs: seq<nat>, p: Pool, w: nat)
    requires JobsInRange(b, jobs, p) && w < |p.workers| && !Stopped(p.workers[w].phase)
    requires JobInv(jobs, p) && Distinct(jobs)
    ensures JobInv(jobs, Step(b, jobs, p, w))
  {
    if p.workers[w].phase.Idle? {
      if p.next < |jobs| {
        TakeKeepsJobInv(jobs, p, w);
      } else {
        ExitKeepsJobInv(jobs, p, w);
      }
    } else {
      var q, i := Step(b, jobs, p, w), p.workers[w].phase.job;
      StepShape(b, jobs, p, w);
      if p.workers[w].phase.Returning? && q == Finish(p, w, i, Attempt(b, p, w, i), q.gas) {
        FinishKeepsJobInv(jobs, p, w, i, Attempt(b, p, w, i), q.gas);
      } else {
        SameJobKeepsJobInv(jobs, p, w, q);
      }
    }
  }

  // ----- What the forks hold.

  // The fixed facts of a wave: the block and its start state, the transactions executed by
  // earlier waves, and the state the workers fork from.
  datatype Wave = Wave(block: Block, s0: State, jobs: seq<nat>, before: set<nat>, base: State)

  ghost predicate WaveReady(b: Block, jobs: seq<nat>, before: set<nat>) {
    && Distinct(jobs)
    && (forall i :: i in jobs ==> Ready(b, before, i))
    && (forall i, k :: i in jobs && k in jobs && i != k ==> b.txs[i].decl !! b.txs[k].decl)
  }

  ghost predicate WaveOk(c: Wave) {
    && Footprints(c.block) && WaveReady(c.block, c.jobs, c.before)
    && Synced(c.block, c.s0, c.before, c.base)
  }

  lemma StillReady(b: Block, jobs: seq<nat>, before: set<nat>, done: set<nat>, i: nat)
    requires WaveReady(b, jobs, before) && i in jobs && i !in done
    requires forall k :: k in done ==> k in jobs
    ensures Ready(b, before + done, i)
  {
    forall k | 0 <= k < |b.txs| && k != i && b.txs[k].decl * b.txs[i].decl != {}
      ensures k in before + done <==> k < i
    {
      assert k !in jobs;
    }
  }

  // The writes of a fork are confined to its dirty addresses, and those to the
  // footprints of the transactions it ran.
  ghost predicate MergeOk(c: Wave, f: Fork, done: set<nat>) {
    && (forall a: Address :: a !in f.merge ==> Get(f.accounts, a) == Get(c.base, a))
    && (forall a :: a in f.merge && a != c.block.coinbase ==> DeclaredBy(c.block, done, a))
  }

  ghost predicate DeclaredBy(b: Block, done: set<nat>, a: Address) {
    exists i :: i in done && i < |b.txs| && a in b.txs[i].decl
  }

  ghost predicate ForkOk(c: Wave, f: Fork, done: set<nat>) {
    && Synced(c.block, c.s0, c.before + done, f.accounts)
    && MergeOk(c, f, done)
    && (forall i :: i in done ==> i < |c.block.txs| && i in f.logs && Accepted(c.block, c.s0, i) &&
                                  f.logs[i] == Verdict(c.block, c.s0, i).logs)
  }

  ghost predicate ForkInv(c: Wave, p: Pool) {
    forall w :: 0 <= w < |p.workers| ==> ForkOk(c, p.workers[w].fork, DoneBy(p, w))
  }

  // Receipts are filed for exactly the finished transactions and are those of the in-order run.
  ghost predicate ReceiptInv(c: Wave, p: Pool) {
    && p.receipts.Keys == p.forkOf.Keys
    && (forall i :: i in p.receipts ==> i < |c.block.txs| && Accepted(c.block, c.s0, i) &&
                                        p.receipts[i] == ReceiptFor(i, Verdict(c.block, c.s0, i)))
  }

  // What each phase promises about the transaction it works on.
  ghost predicate PhaseOk(c: Wave, ph: Phase) {
    HasJob(ph) ==>
      && ph.job in c.jobs && ph.job < |c.block.txs|
      && var v := Verdict(c.block, c.s0, ph.job);
         && (ph.Buying? || ph.Running? ==> v.Applied? || v.gasBought)
         && (ph.Returning? ==> v.Applied?)
         && !ph.Panicked?
  }

  ghost predicate PhaseInv(c: Wave, p: Pool) {
    forall w :: 0 <= w < |p.workers| ==> PhaseOk(c, p.workers[w].phase)
  }

  // The outcome worker w is about to see is the one of the in-order run.
  ghost predicate HeldOk(c: Wave, p: Pool, w: nat)
    requires w < |p.workers| && HasJob(p.workers[w].phase)
  {
    var i := p.workers[w].phase.job;
    && i < |c.block.txs| && i in c.jobs && i !in c.before
    && var o, v := Attempt(c.block, p, w, i), Verdict(c.block, c.s0, i);
       && (v.Rejected? ==> o == v)
       && (v.Applied? ==> o.Applied? && o.gasUsed == v.gasUsed <= c.block.txs[i].gasLimit && o.ok == v.ok && o.logs == v.logs)
  }

  // A held transaction runs on its fork as it does in the in-order run.
  lemma HeldVerdict(c: Wave, p: Pool, w: nat)
    requires WaveOk(c) && JobInv(c.jobs, p) && ForkInv(c, p)
    requires w < |p.workers| && HasJob(p.workers[w].phase)
    ensures p.workers[w].phase.job in c.jobs && Ready(c.block, c.before + DoneBy(p, w), p.workers[w].phase.job)
    ensures HeldOk(c, p, w)
  {
    var i, f := p.workers[w].phase.job, p.workers[w].fork.accounts;
    assert forall k :: k in DoneBy(p, w) ==> k in c.jobs[..p.next];
    StillReady(c.block, c.jobs, c.before, DoneBy(p, w), i);
    assert ForkOk(c, p.workers[w].fork, DoneBy(p, w));
    ReadyVerdict(c.block, c.s0, c.before + DoneBy(p, w), f, i);
    assert RespectsFootprint(c.block.txs[i], c.block.coinbase);
    assert StaysInFootprint(c.block.txs[i], c.block.coinbase, f);
  }

  lemma InvGivesRange(c: Wave, p: Pool)
    requires WaveOk(c) && JobInv(c.jobs, p) && ForkInv(c, p) && PhaseInv(c, p)
    requires |p.charge| == |c.block.txs|
    ensures JobsInRange(c.block, c.jobs, p)
    ensures forall w :: 0 <= w < |p.workers| && HasJob(p.workers[w].phase) ==> HeldOk(c, p, w)
  {
    forall w | 0 <= w < |p.workers| && HasJob(p.workers[w].phase)
      ensures HeldOk(c, p, w) && PhaseOk(c, p.workers[w].phase)
    {
      HeldVerdict(c, p, w);
    }
    assert forall i :: i in c.jobs ==> Ready(c.block, c.before, i);
  }

  // Finishing a transaction advances its own fork by that transaction.
  lemma FinishFork(c: Wave, f: Fork, done: set<nat>, i: nat)
    requires WaveOk(c) && ForkOk(c, f, done) && Ready(c.block, c.before + done, i) && i !in done
    requires c.block.txs[i].run(f.accounts).Applied?
    ensures var o := c.block.txs[i].run(f.accounts);
            ForkOk(c, Fork(o.post, f.merge + o.dirty, f.logs[i := o.logs]), done + {i})
  {
    var b := c.block;
    var o := b.txs[i].run(f.accounts);
    var g := Fork(o.post, f.merge + o.dirty, f.logs[i := o.logs]);
    ReadyVerdict(b, c.s0, c.before + done, f.accounts, i);
    ReadyStep(b, c.s0, c.before + done, f.accounts, i);
    assert c.before + done + {i} == c.before + (done + {i});
    assert RespectsFootprint(b.txs[i], b.coinbase);
    assert StaysInFootprint(b.txs[i], b.coinbase, f.accounts);
    forall a | a in g.merge && a != b.coinbase ensures DeclaredBy(b, done + {i}, a) {
      if a in f.merge {
        var k :| k in done && k < |b.txs| && a in b.txs[k].decl;
        assert k in done + {i};
      } else {
        assert i in done + {i} && a in b.txs[i].decl;
      }
    }
  }

  lemma FinishKeepsForkInv(c: Wave, p: Pool, w: nat, gas: nat)
    requires WaveOk(c) && JobInv(c.jobs, p) && ForkInv(c, p) && PhaseInv(c, p)
    requires |p.charge| == |c.block.txs|
    requires w < |p.workers| && p.workers[w].phase.Returning?
    requires p.workers[w].phase.job < |c.block.txs| && Attempt(c.block, p, w, p.workers[w].phase.job).Applied?
    ensures var i := p.workers[w].phase.job;
            ForkInv(c, Finish(p, w, i, Attempt(c.block, p, w, i), gas))
  {
    hide ForkOk, WaveOk;
    var i := p.workers[w].phase.job;
    var q := Finish(p, w, i, Attempt(c.block, p, w, i), gas);
    forall v | 0 <= v < |q.workers| ensures ForkOk(c, q.workers[v].fork, DoneBy(q, v)) {
      if v == w {
        assert DoneBy(q, w) == DoneBy(p, w) + {i};
        HeldVerdict(c, p, w);
        FinishFork(c, p.workers[w].fork, DoneBy(p, w), i);
      } else {
        assert DoneBy(q, v) == DoneBy(p, v);
        assert q.workers[v] == p.workers[v];
      }
    }
  }

  lemma SameForksKeepForkInv(c: Wave, p: Pool, q: Pool)
    requires ForkInv(c, p)
    requires |q.workers| == |p.workers| && q.forkOf == p.forkOf
    requires forall v :: 0 <= v < |p.workers| ==> q.workers[v].fork == p.workers[v].fork
    ensures ForkInv(c, q)
  {
    forall v | 0 <= v < |q.workers| ensures ForkOk(c, q.workers[v].fork, DoneBy(q, v)) {
      assert DoneBy(q, v) == DoneBy(p, v);
      assert ForkOk(c, p.workers[v].fork, DoneBy(p, v));
    }
  }

  lemma StepKeepsForkInv(c: Wave, p: Pool, w: nat)
    requires WaveOk(c) && JobInv(c.jobs, p) && ForkInv(c, p) && PhaseInv(c, p)
    requires JobsInRange(c.block, c.jobs, p)
    requires w < |p.workers| && !Stopped(p.workers[w].phase)
    ensures ForkInv(c, Step(c.block, c.jobs, p, w))
  {
    var q := Step(c.block, c.jobs, p, w);
    if p.workers[w].phase.Idle? {
      SameForksKeepForkInv(c, p, q);
    } else {
      var i := p.workers[w].phase.job;
      StepShape(c.block, c.jobs, p, w);
      if p.workers[w].phase.Returning? && q == Finish(p, w, i, Attempt(c.block, p, w, i), q.gas) {
        FinishKeepsForkInv(c, p, w, q.gas);
      } else {
        SameForksKeepForkInv(c, p, q);
      }
    }
  }

  lemma StepKeepsReceiptInv(c: Wave, p: Pool, w: nat)
    requires ReceiptInv(c, p) && JobsInRange(c.block, c.jobs, p)
    requires w < |p.workers| && !Stopped(p.workers[w].phase)
    requires HasJob(p.workers[w].phase) ==> HeldOk(c, p, w)
    ensures ReceiptInv(c, Step(c.block, c.jobs, p, w))
  {
    if HasJob(p.workers[w].phase) {
      StepShape(c.block, c.jobs, p, w);
    }
  }

  lemma StepKeepsPhaseOk(c: Wave, p: Pool, w: nat)
    requires JobsInRange(c.block, c.jobs, p)
    requires w < |p.workers| && !Stopped(p.workers[w].phase)
    requires PhaseOk(c, p.workers[w].phase)
    requires HasJob(p.workers[w].phase) ==> HeldOk(c, p, w)
    ensures var q := Step(c.block, c.jobs, p, w);
            && |q.workers| == |p.workers|
            && ((q.workers[w].phase.Panicked? && p.workers[w].phase.Returning?) || PhaseOk(c, q.workers[w].phase))
  {
    if p.workers[w].phase.Idle? {
      if p.next < |c.jobs| {
        assert c.jobs[p.next] in c.jobs;
      }
    } else {
      StepShape(c.block, c.jobs, p, w);
    }
  }

  lemma StepKeepsPhaseInv(c: Wave, p: Pool, w: nat, q: Pool)
    requires PhaseInv(c, p) && w < |p.workers|
    requires |q.workers| == |p.workers| && PhaseOk(c, q.workers[w].phase)
    requires forall v :: 0 <= v < |p.workers| && v != w ==> q.workers[v] == p.workers[v]
    ensures PhaseInv(c, q)
  {
  }

  // ----- The gas ledger.

  ghost function GasLimits(b: Block): seq<nat> {
    seq(|b.txs|, i requires 0 <= i < |b.txs| => b.txs[i].gasLimit)
  }

  // The charges while exactly the transactions of `done` are finished and none is in flight.
  ghost function Charges(b: Block, s0: State, done: set<nat>): seq<nat> {
    seq(|b.txs|, i requires 0 <= i < |b.txs| => if i in done then GasOf(b, s0, i) else 0)
  }

  // What transaction i holds while worker phase ph works on it.
  ghost predicate ChargeOk(b: Block, ph: Phase, charge: seq<nat>)
    requires |charge| == |b.txs|
  {
    HasJob(ph) && ph.job < |b.txs| ==>
      && (ph.Holding? || ph.Buying? ==> charge[ph.job] == 0)
      && (ph.Running? || ph.Returning? ==> charge[ph.job] == b.txs[ph.job].gasLimit)
      && (ph.Returning? ==> ph.seen + b.txs[ph.job].gasLimit <= b.gasLimit)
  }

  // Remaining gas, limits of transactions in flight and gas of finished ones add up to
  // the block gas limit at every moment.
  ghost predicate GasInv(c: Wave, p: Pool) {
    && |p.charge| == |c.block.txs| && p.next <= |c.jobs|
    && p.gas + Sum(p.charge) == c.block.gasLimit < TWO_64
    && (forall i :: 0 <= i < |p.charge| ==> p.charge[i] <= c.block.txs[i].gasLimit)
    && (forall w :: 0 <= w < |p.workers| ==> ChargeOk(c.block, p.workers[w].phase, p.charge))
    && (forall i :: 0 <= i < |p.charge| && (i in c.before || i in p.forkOf) ==> p.charge[i] == GasOf(c.block, c.s0, i))
    && (forall i :: 0 <= i < |p.charge| && i !in c.before && i !in c.jobs[..p.next] ==> p.charge[i] == 0)
  }

  // Re-charging a held transaction leaves everybody else's charge alone.
  lemma ChargeUpdate(c: Wave, p: Pool, w: nat, v: nat)
    requires GasInv(c, p) && JobInv(c.jobs, p) && Distinct(c.jobs)
    requires w < |p.workers| && HasJob(p.workers[w].phase) && p.workers[w].phase.job < |p.charge|
    requires p.workers[w].phase.job !in c.before
    ensures var i := p.workers[w].phase.job;
            && Sum(p.charge[i := v]) == Sum(p.charge) - p.charge[i] + v
            && p.charge[i] <= Sum(p.charge)
            && (forall u :: 0 <= u < |p.workers| && u != w ==> ChargeOk(c.block, p.workers[u].phase, p.charge[i := v]))
            && (forall k :: 0 <= k < |p.charge| && (k in c.before || k in p.forkOf) ==>
                  p.charge[i := v][k] == GasOf(c.block, c.s0, k))
            && (forall k :: 0 <= k < |p.charge| && k !in c.before && k !in c.jobs[..p.next] ==> p.charge[i := v][k] == 0)
  {
    var i := p.workers[w].phase.job;
    SumUpdate(p.charge, i, v);
    SumAtLeast(p.charge, i);
    forall u | 0 <= u < |p.workers| && u != w ensures ChargeOk(c.block, p.workers[u].phase, p.charge[i := v]) {
      assert ChargeOk(c.block, p.workers[u].phase, p.charge);
    }
  }

  // The effect of one step on the pool and the ledger, transaction by transaction.
  lemma StepGas(c: Wave, p: Pool, w: nat)
    requires JobsInRange(c.block, c.jobs, p) && w < |p.workers| && HasJob(p.workers[w].phase)
    requires !Stopped(p.workers[w].phase) && HeldOk(c, p, w) && PhaseOk(c, p.workers[w].phase)
    requires ChargeOk(c.block, p.workers[w].phase, p.charge)
    requires p.charge[p.workers[w].phase.job] <= c.block.txs[p.workers[w].phase.job].gasLimit
    requires p.gas + p.charge[p.workers[w].phase.job] <= c.block.gasLimit < TWO_64
    ensures var q, i := Step(c.block, c.jobs, p, w), p.workers[w].phase.job;
            && |q.workers| == |p.workers| && !q.workers[w].phase.Panicked? && |q.charge| == |p.charge|
            && q.charge == p.charge[i := q.charge[i]] && q.charge[i] <= c.block.txs[i].gasLimit
            && q.gas + q.charge[i] == p.gas + p.charge[i]
            && ChargeOk(c.block, q.workers[w].phase, q.charge)
            && (i in q.forkOf && i !in p.forkOf ==> q.charge[i] == GasOf(c.block, c.s0, i))
  {
    hide StateBefore;
    match p.workers[w].phase {
      case Holding(i) =>
      case Buying(i, seen) =>
      case Running(i) =>
      case Returning(i, seen) =>
    }
  }

  lemma StepKeepsGasInv(c: Wave, p: Pool, w: nat)
    requires JobInv(c.jobs, p) && Distinct(c.jobs) && GasInv(c, p) && JobsInRange(c.block, c.jobs, p)
    requires w < |p.workers| && HasJob(p.workers[w].phase) && !Stopped(p.workers[w].phase)
    requires HeldOk(c, p, w) && PhaseOk(c, p.workers[w].phase)
    ensures var q := Step(c.block, c.jobs, p, w);
            |q.workers| == |p.workers| && !q.workers[w].phase.Panicked? && GasInv(c, q)
  {
    var b, q, i := c.block, Step(c.block, c.jobs, p, w), p.workers[w].phase.job;
    SumAtLeast(p.charge, i);
    StepGas(c, p, w);
    ChargeUpdate(c, p, w, q.charge[i]);
    StepShape(b, c.jobs, p, w);
    forall v | 0 <= v < |q.workers| ensures ChargeOk(b, q.workers[v].phase, q.charge) {
      if v != w {
        assert q.workers[v] == p.workers[v];
      }
    }
  }

  lemma IdleStepKeepsGasInv(c: Wave, p: Pool, w: nat)
    requires Distinct(c.jobs) && GasInv(c, p) && JobsInRange(c.block, c.jobs, p)
    requires forall i :: i in c.jobs ==> i !in c.before
    requires w < |p.workers| && p.workers[w].phase.Idle?
    ensures var q := Step(c.block, c.jobs, p, w);
            |q.workers| == |p.workers| && !q.workers[w].phase.Panicked? && GasInv(c, q)
  {
    var q := Step(c.block, c.jobs, p, w);
    if p.next < |c.jobs| {
      assert c.jobs[..p.next + 1] == c.jobs[..p.next] + [c.jobs[p.next]];
      assert c.jobs[p.next] !in c.jobs[..p.next];
    }
    forall v | 0 <= v < |q.workers| ensures ChargeOk(c.block, q.workers[v].phase, q.charge) {
      if v != w {
        assert q.workers[v] == p.workers[v];
        assert ChargeOk(c.block, p.workers[v].phase, p.charge);
      }
    }
  }
}
