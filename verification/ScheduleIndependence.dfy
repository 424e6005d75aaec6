// What the order of worker steps can and cannot influence in one wave.
module ScheduleIndependence {
  import opened Base
  import opened Execution
  import opened WavePool
  import opened WaveRuns
  import opened BlockProcess

  // At every moment of every schedule: what is left in the pool and what the transactions
  // hold add up to the block gas limit, nobody holds more than the own limit, a
  // transaction in flight holds exactly its limit, a finished one exactly what it used,
  // and no AddGas has overflowed.
  lemma PoolConservation(c: Wave, start: Pool, schedule: seq<nat>, q: Pool)
    requires WaveOk(c) && Inv(c, start) && Leads(c.block, c.jobs, start, schedule, q)
    ensures |q.charge| == |c.block.txs| && q.gas + Sum(q.charge) == c.block.gasLimit
    ensures forall i :: 0 <= i < |q.charge| ==> q.charge[i] <= c.block.txs[i].gasLimit
    ensures forall i :: 0 <= i < |q.charge| && i in q.forkOf ==> q.charge[i] == GasOf(c.block, c.s0, i)
    ensures forall w :: 0 <= w < |q.workers| ==>
              var ph := q.workers[w].phase;
              !ph.Panicked? && ((ph.Running? || ph.Returning?) ==>
                ph.job < |q.charge| && q.charge[ph.job] == c.block.txs[ph.job].gasLimit)
  {
    hide WaveOk, Leads;
    RunKeepsInv(c, start, schedule, q);
    hide JobInv, ForkInv, ReceiptInv, ErrInv, SeenInv;
    forall w | 0 <= w < |q.workers|
      ensures PhaseOk(c, q.workers[w].phase) && ChargeOk(c.block, q.workers[w].phase, q.charge)
    {
    }
  }

  // Two complete clean runs of the same wave file the same receipts, charge the same gas
  // and leave the same pool, whoever ran what.
  lemma CleanRunsAgree(c: Wave, start: Pool, s: seq<nat>, p: Pool, t: seq<nat>, q: Pool)
    requires WaveOk(c) && Inv(c, start) && |start.workers| > 0
    requires Leads(c.block, c.jobs, start, s, p) && Leads(c.block, c.jobs, start, t, q)
    requires AllStopped(p) && AllStopped(q) && p.firstErr.None? && q.firstErr.None?
    ensures p.receipts == q.receipts && p.charge == q.charge && p.gas == q.gas
  {
    hide WaveOk, Inv, Leads, Charges, AllStopped;
    RunKeepsInv(c, start, s, p);
    RunKeepsInv(c, start, t, q);
    CleanEnd(c, p);
    CleanEnd(c, q);
    PoolLedger(c, p);
    PoolLedger(c, q);
    forall i | i in p.receipts ensures p.receipts[i] == q.receipts[i] {
      assert i in Elems(c.jobs);
    }
  }

  // When the limits of the wave fit, one complete schedule reports an error if and only if
  // every complete schedule does, if and only if the in-order run rejects a queued transaction.
  lemma ErrorsAgree(c: Wave, start: Pool, s: seq<nat>, p: Pool, t: seq<nat>, q: Pool)
    requires WaveOk(c) && Inv(c, start) && |start.workers| > 0 && WaveFits(c)
    requires Leads(c.block, c.jobs, start, s, p) && Leads(c.block, c.jobs, start, t, q)
    requires AllStopped(p) && AllStopped(q)
    ensures p.firstErr.Some? <==> q.firstErr.Some?
    ensures p.firstErr.Some? <==> exists i :: i in c.jobs && i < |c.block.txs| && !Accepted(c.block, c.s0, i)
  {
    hide WaveOk, Inv, Leads, WaveFits, AllStopped;
    RunKeepsInv(c, start, s, p);
    RunKeepsInv(c, start, t, q);
    if i :| i in c.jobs && i < |c.block.txs| && !Accepted(c.block, c.s0, i) {
      RejectionIsReported(c, p, i);
      RejectionIsReported(c, q, i);
    } else {
      AcceptanceIsReported(c, p);
      AcceptanceIsReported(c, q);
    }
  }
}
