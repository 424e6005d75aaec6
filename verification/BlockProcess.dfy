// The whole block: Process against the in-order execution of transactions 0..n-1.
module BlockProcess {
  import opened Base
  import opened WaveScheduler
  import opened Execution
  import opened WavePool
  import opened WaveRuns
  import opened WaveMerge
  import opened Processor

  // ----- The reference: one transaction after the other on one state and one gas pool.

  datatype InOrderResult = Done(state: State, gas: int, receipts: seq<Receipt>) | Error(error: TxError)

  // Transaction i on top of what has been executed before it.
  ghost function Apply(b: Block, i: nat, s: State, gas: int, receipts: seq<Receipt>): InOrderResult
    requires i < |b.txs|
  {
    var o := b.txs[i].run(s);
    if o.Rejected? && !o.gasBought then Error(TxError(i, Core(o.error)))
    else if gas < b.txs[i].gasLimit then Error(TxError(i, GasLimitReached))
    else if o.Rejected? then Error(TxError(i, Core(o.error)))
    else
      var cumulative := if receipts == [] then 0 else receipts[|receipts| - 1].cumulativeGasUsed;
      Done(o.post, gas - o.gasUsed, receipts + [Receipt(i, o.ok, o.gasUsed, cumulative + o.gasUsed, o.logs)])
  }

  ghost function InOrder(b: Block, s0: State, p: nat): InOrderResult
    requires p <= |b.txs|
  {
    if p == 0 then Done(s0, b.gasLimit, [])
    else
      match InOrder(b, s0, p - 1)
      case Error(e) => Error(e)
      case Done(s, gas, receipts) => Apply(b, p - 1, s, gas, receipts)
  }

  ghost function GasBefore(b: Block, s0: State, p: nat): nat
    requires p <= |b.txs|
  {
    if p == 0 then 0 else GasBefore(b, s0, p - 1) + GasOf(b, s0, p - 1)
  }

  ghost function FinalReceipt(b: Block, s0: State, i: nat): Receipt
    requires i < |b.txs| && Accepted(b, s0, i)
  {
    ReceiptFor(i, Verdict(b, s0, i)).(cumulativeGasUsed := GasBefore(b, s0, i + 1))
  }

  ghost predicate AllAccepted(b: Block, s0: State, p: nat)
    requires p <= |b.txs|
  {
    forall i :: 0 <= i < p ==> Accepted(b, s0, i)
  }

  lemma ChargesAdd(b: Block, s0: State, done: set<nat>, i: nat)
    requires i < |b.txs| && i !in done
    ensures Charges(b, s0, done + {i}) == Charges(b, s0, done)[i := GasOf(b, s0, i)]
    ensures Sum(Charges(b, s0, done + {i})) == Sum(Charges(b, s0, done)) + GasOf(b, s0, i)
  {
    assert Charges(b, s0, done + {i}) == Charges(b, s0, done)[i := GasOf(b, s0, i)];
    SumUpdate(Charges(b, s0, done), i, GasOf(b, s0, i));
  }

  lemma {:induction false} ChargesOfPrefix(b: Block, s0: State, p: nat)
    requires p <= |b.txs|
    ensures Sum(Charges(b, s0, IndexSet(p))) == GasBefore(b, s0, p)
  {
    if p == 0 {
      SumOfZeros(Charges(b, s0, {}));
    } else {
      ChargesOfPrefix(b, s0, p - 1);
      ChargesAdd(b, s0, IndexSet(p - 1), p - 1);
    }
  }

  lemma ChargesWithinLimits(b: Block, s0: State, done: set<nat>)
    requires Footprints(b)
    ensures forall i :: 0 <= i < |b.txs| ==> Charges(b, s0, done)[i] <= b.txs[i].gasLimit
  {
    forall i | 0 <= i < |b.txs| ensures Charges(b, s0, done)[i] <= b.txs[i].gasLimit {
      GasWithinLimit(b, s0, i);
    }
  }

  lemma ApplyMeaning(b: Block, s0: State, i: nat, gas: int, receipts: seq<Receipt>)
    requires i < |b.txs| && GasOf(b, s0, i) <= b.txs[i].gasLimit && FinalReceipts(b, s0, receipts, i)
    ensures var r := Apply(b, i, StateBefore(b, s0, i), gas, receipts);
            && (r.Done? <==> Accepted(b, s0, i) && b.txs[i].gasLimit <= gas)
            && (r.Done? ==> r.state == StateBefore(b, s0, i + 1) && r.gas == gas - GasOf(b, s0, i) >= 0 &&
                            FinalReceipts(b, s0, r.receipts, i + 1))
  {
    var r := Apply(b, i, StateBefore(b, s0, i), gas, receipts);
    if r.Done? {
      assert r.receipts == receipts + [FinalReceipt(b, s0, i)];
    }
  }

  // A clean in-order run passes through the states, receipts and pool levels of the simulation.
  lemma {:induction false} InOrderMeaning(b: Block, s0: State, p: nat)
    requires Footprints(b) && p <= |b.txs| && InOrder(b, s0, p).Done?
    ensures var r := InOrder(b, s0, p);
            && AllAccepted(b, s0, p) && r.state == StateBefore(b, s0, p)
            && r.gas >= 0 && r.gas + GasBefore(b, s0, p) == b.gasLimit
            && FinalReceipts(b, s0, r.receipts, p)
  {
    hide Footprints, Apply, StateBefore, FinalReceipts;
    if p == 0 {
      assert StateBefore(b, s0, 0) == s0 && FinalReceipts(b, s0, [], 0) by { FromTheStart(b, s0); }
    } else {
      InOrderMeaning(b, s0, p - 1);
      GasWithinLimit(b, s0, p - 1);
      var prev := InOrder(b, s0, p - 1);
      ApplyMeaning(b, s0, p - 1, prev.gas, prev.receipts);
    }
  }

  lemma FromTheStart(b: Block, s0: State)
    ensures StateBefore(b, s0, 0) == s0 && FinalReceipts(b, s0, [], 0)
  {
  }

  ghost predicate FinalReceipts(b: Block, s0: State, receipts: seq<Receipt>, p: nat)
    requires p <= |b.txs|
  {
    && |receipts| == p
    && forall i :: 0 <= i < p ==> Accepted(b, s0, i) && receipts[i] == FinalReceipt(b, s0, i)
  }

  // When the gas limits fit the block, the in-order run is clean exactly when every
  // transaction is accepted.
  lemma {:induction false} InOrderAccepts(b: Block, s0: State, p: nat)
    requires Footprints(b) && GasFits(b) && p <= |b.txs|
    ensures InOrder(b, s0, p).Done? <==> AllAccepted(b, s0, p)
  {
    hide Footprints;
    if p > 0 {
      InOrderAccepts(b, s0, p - 1);
      if InOrder(b, s0, p - 1).Done? {
        var prev := InOrder(b, s0, p - 1);
        InOrderMeaning(b, s0, p - 1);
        EnoughInOrder(b, s0, p - 1);
        GasWithinLimit(b, s0, p - 1);
        ApplyMeaning(b, s0, p - 1, prev.gas, prev.receipts);
      }
      assert AllAccepted(b, s0, p) <==> AllAccepted(b, s0, p - 1) && Accepted(b, s0, p - 1);
    }
  }

  // When the gas limits fit, the in-order run stops at the first rejected transaction,
  // with that transaction's own error.
  lemma {:induction false} FirstRejection(b: Block, s0: State, p: nat)
    requires Footprints(b) && GasFits(b) && p <= |b.txs| && InOrder(b, s0, p).Error?
    ensures var e := InOrder(b, s0, p).error;
            && e.index < p && AllAccepted(b, s0, e.index) && !Accepted(b, s0, e.index)
            && e.cause == Core(Verdict(b, s0, e.index).error)
  {
    hide Footprints;
    if InOrder(b, s0, p - 1).Error? {
      FirstRejection(b, s0, p - 1);
    } else {
      InOrderAccepts(b, s0, p - 1);
      InOrderAccepts(b, s0, p);
      InOrderMeaning(b, s0, p - 1);
      EnoughInOrder(b, s0, p - 1);
    }
  }

  // With fitting limits the in-order pool covers the next transaction.
  lemma EnoughInOrder(b: Block, s0: State, i: nat)
    requires Footprints(b) && GasFits(b) && i < |b.txs|
    ensures GasBefore(b, s0, i) + b.txs[i].gasLimit <= b.gasLimit
  {
    ChargesOfPrefix(b, s0, i);
    ChargesWithinLimits(b, s0, IndexSet(i));
    var charge := Charges(b, s0, IndexSet(i));
    SumUpdate(charge, i, b.txs[i].gasLimit);
    SumDominated(charge[i := b.txs[i].gasLimit], GasLimits(b));
  }

  // The error of transaction i when it is next and the pool holds `gas`.
  ghost function OwnError(b: Block, s0: State, i: nat, gas: int): Option<TxError>
    requires i < |b.txs|
  {
    var v := Verdict(b, s0, i);
    if v.Rejected? && !v.gasBought then Some(TxError(i, Core(v.error)))
    else if gas < b.txs[i].gasLimit then Some(TxError(i, GasLimitReached))
    else if v.Rejected? then Some(TxError(i, Core(v.error)))
    else None
  }

  // Where the in-order run has come to transaction i, that error decides how it goes on.
  lemma InOrderNext(b: Block, s0: State, i: nat, gas: nat)
    requires Footprints(b) && i < |b.txs| && InOrder(b, s0, i).Done? && gas + GasBefore(b, s0, i) == b.gasLimit
    ensures match OwnError(b, s0, i, gas)
            case None => InOrder(b, s0, i + 1).Done?
            case Some(e) => InOrder(b, s0, i + 1) == InOrderResult.Error(e)
  {
    hide Footprints;
    InOrderMeaning(b, s0, i);
  }

  lemma {:induction false} InOrderStays(b: Block, s0: State, p: nat, q: nat)
    requires p <= q <= |b.txs| && InOrder(b, s0, p).Error?
    ensures InOrder(b, s0, q) == InOrder(b, s0, p)
    decreases q
  {
    if p < q {
      InOrderStays(b, s0, p, q - 1);
    }
  }

  // ----- The schedule delivers ready waves.

  ghost function DoneBefore(groups: seq<seq<nat>>, w: nat): set<nat>
    requires w <= |groups|
  {
    if w == 0 then {} else DoneBefore(groups, w - 1) + Elems(groups[w - 1])
  }

  // The transactions in the order in which the first w waves list them.
  ghost function InWaveOrder(groups: seq<seq<nat>>, w: nat): seq<nat>
    requires w <= |groups|
  {
    if w == 0 then [] else InWaveOrder(groups, w - 1) + groups[w - 1]
  }

  lemma {:induction false} InWaveOrderElems(groups: seq<seq<nat>>, w: nat)
    requires w <= |groups|
    ensures Elems(InWaveOrder(groups, w)) == DoneBefore(groups, w)
  {
    if w > 0 {
      InWaveOrderElems(groups, w - 1);
    }
  }

  lemma WaveOrderIsDone(groups: seq<seq<nat>>, w: nat)
    requires w < |groups|
    ensures Elems(InWaveOrder(groups, w)) == DoneBefore(groups, w)
    ensures InWaveOrder(groups, w + 1) == InWaveOrder(groups, w) + groups[w]
    ensures DoneBefore(groups, w + 1) == DoneBefore(groups, w) + Elems(groups[w])
  {
    InWaveOrderElems(groups, w);
  }

  lemma NothingNumbered(b: Block, s0: State, from: nat, groups: seq<seq<nat>>, starts: map<nat, nat>)
    ensures LogsNumbered(b, s0, from, InWaveOrder(groups, 0), starts, from) && DoneBefore(groups, 0) == {}
  {
  }

  lemma {:induction false} DoneBeforeMembers(groups: seq<seq<nat>>, w: nat)
    requires w <= |groups|
    ensures forall i :: i in DoneBefore(groups, w) <==> exists v :: 0 <= v < w && i in groups[v]
  {
    if w > 0 {
      DoneBeforeMembers(groups, w - 1);
    }
  }

  lemma ScheduleIsReady(b: Block, groups: seq<seq<nat>>, w: nat)
    requires OrderRespecting(Decls(b), groups) && w < |groups|
    ensures WaveReady(b, groups[w], DoneBefore(groups, w))
  {
    var decl: seq<set<Address>> := Decls(b);
    DoneBeforeMembers(groups, w);
    forall i | i in groups[w] ensures Ready(b, DoneBefore(groups, w), i) {
      forall k | 0 <= k < |b.txs| && k != i && b.txs[k].decl * b.txs[i].decl != {}
        ensures k in DoneBefore(groups, w) <==> k < i
      {
        var v := WaveOf(decl, groups, k);
        assert Conflict(decl, k, i) && Conflict(decl, i, k) by {
          assert decl[k] * decl[i] == decl[i] * decl[k];
        }
      }
    }
    forall i, k | i in groups[w] && k in groups[w] && i != k ensures b.txs[i].decl !! b.txs[k].decl {
      WaveDisjoint(decl, groups, w, i, k);
    }
  }

  lemma WaveDisjoint(decl: seq<set<Address>>, groups: seq<seq<nat>>, w: nat, i: nat, k: nat)
    requires OrderRespecting(decl, groups) && w < |groups| && i in groups[w] && k in groups[w] && i != k
    ensures i < |decl| && k < |decl| && decl[i] !! decl[k]
  {
    assert decl[i] * decl[k] == decl[k] * decl[i];
    assert if i < k then !Conflict(decl, i, k) else !Conflict(decl, k, i);
    forall a | a in decl[i] ensures a !in decl[k] {
      var both := decl[i] * decl[k];
      assert a in decl[k] <==> a in both;
    }
  }

  lemma ScheduleCoversAll(b: Block, groups: seq<seq<nat>>)
    requires OrderRespecting(Decls(b), groups)
    ensures DoneBefore(groups, |groups|) == AllTxs(b)
  {
    DoneBeforeMembers(groups, |groups|);
    forall i | i in AllTxs(b) ensures i in DoneBefore(groups, |groups|) {
      var v := WaveOf(Decls(b), groups, i);
    }
  }

  // ----- The wave loop.

  // The switches of core/parallel_flags.go and the processor count.
  datatype Config = Config(grouping: bool, waveExecution: bool, workers: int, directMax: int, procs: nat)

  datatype ProcessResult =
    | Success(receipts: seq<Receipt>, logs: seq<Log>, gasUsed: nat, gasLeft: nat)
    | Failure(error: TxError)
    | BadSender(index: nat)

  // The block as the scheduler and as the executor see it.
  ghost predicate Matches(b: Block, headers: seq<TxHeader>) {
    && |headers| == |b.txs|
    && (forall i :: 0 <= i < |headers| ==> b.txs[i].decl == Declared(headers[i]))
    && (forall i, s: State :: 0 <= i < |headers| && headers[i].sender.None? ==> b.txs[i].run(s).Rejected?)
  }

  // ----- All ways a block can go, as far as acceptance is concerned.

  ghost predicate InRange(b: Block, jobs: seq<nat>) {
    forall q :: 0 <= q < |jobs| ==> jobs[q] < |b.txs|
  }

  // What the transactions of `done` leave in the pool.
  ghost function GasLeft(b: Block, s0: State, done: set<nat>): int {
    b.gasLimit - Sum(Charges(b, s0, done))
  }

  // How the transactions of a wave end when they are applied one after the other.
  ghost function DirectEnd(b: Block, s0: State, jobs: seq<nat>, done: set<nat>): Option<TxError>
    requires InRange(b, jobs)
  {
    if jobs == [] then None
    else
      match OwnError(b, s0, jobs[0], GasLeft(b, s0, done))
      case Some(e) => Some(e)
      case None => DirectEnd(b, s0, jobs[1..], done + {jobs[0]})
  }

  predicate RunsDirectly(cfg: Config, jobs: seq<nat>) {
    |jobs| <= cfg.directMax || !cfg.waveExecution
  }

  // A complete schedule of the pool from a state in which `done` has run.
  ghost predicate PoolRun(b: Block, s0: State, jobs: seq<nat>, workers: nat, done: set<nat>, base: State, gas: nat,
                          schedule: seq<nat>, q: Pool) {
    && Synced(b, s0, done, base) && gas == GasLeft(b, s0, done)
    && Leads(b, jobs, Start(base, workers, gas, Charges(b, s0, done)), schedule, q) && AllStopped(q)
  }

  // The wave can end this way.
  ghost predicate WaveRun(b: Block, s0: State, cfg: Config, jobs: seq<nat>, done: set<nat>, end: Option<TxError>)
    requires cfg.procs > 0 && InRange(b, jobs)
  {
    if RunsDirectly(cfg, jobs) then end == DirectEnd(b, s0, jobs, done)
    else exists base, gas, schedule, q ::
      PoolRun(b, s0, jobs, WorkerCount(cfg, |jobs|), done, base, gas, schedule, q) && q.firstErr == end
  }

  // The waves from w on can end this way.
  ghost predicate BlockRun(b: Block, s0: State, cfg: Config, groups: seq<seq<nat>>, w: nat, end: Option<TxError>)
    requires cfg.procs > 0 && w <= |groups| && forall v :: 0 <= v < |groups| ==> InRange(b, groups[v])
    decreases |groups| - w
  {
    if w == |groups| then end == None
    else
      || (end.Some? && WaveRun(b, s0, cfg, groups[w], DoneBefore(groups, w), end))
      || (WaveRun(b, s0, cfg, groups[w], DoneBefore(groups, w), None) && BlockRun(b, s0, cfg, groups, w + 1, end))
  }

  // A wave above the direct limit, with wave execution switched on, ends in exactly the ways
  // the pool ends with one goroutine per processor or as many as asked for, and never more
  // than there are transactions.
  lemma LongWaveIsPooled(b: Block, s0: State, cfg: Config, jobs: seq<nat>, done: set<nat>, workers: nat, end: Option<TxError>)
    requires cfg.procs > 0 && InRange(b, jobs) && cfg.waveExecution && |jobs| > cfg.directMax
    requires workers == Min(|jobs|, if cfg.workers > 0 then cfg.workers else cfg.procs)
    ensures WaveRun(b, s0, cfg, jobs, done, end) <==>
              exists base, gas, schedule, q :: PoolRun(b, s0, jobs, workers, done, base, gas, schedule, q) && q.firstErr == end
  {
    hide PoolRun, DirectEnd;
    assert workers == WorkerCount(cfg, |jobs|);
  }

  // Waves within the direct limit do not see the switch: the block ends as with wave
  // execution off.
  lemma {:induction false} SmallWavesRunDirectly(b: Block, s0: State, cfg: Config, groups: seq<seq<nat>>, w: nat,
                                                 end: Option<TxError>)
    requires cfg.procs > 0 && w <= |groups| && forall v :: 0 <= v < |groups| ==> InRange(b, groups[v])
    requires forall v :: w <= v < |groups| ==> |groups[v]| <= cfg.directMax
    ensures BlockRun(b, s0, cfg, groups, w, end) <==> BlockRun(b, s0, cfg.(waveExecution := false), groups, w, end)
    decreases |groups| - w
  {
    hide PoolRun, DirectEnd, DoneBefore;
    if w < |groups| {
      SmallWavesRunDirectly(b, s0, cfg, groups, w + 1, end);
    }
  }

  // With wave execution off a block ends in exactly one way: with the first wave that fails.
  lemma {:induction false} SwitchedOffIsDeterministic(b: Block, s0: State, cfg: Config, groups: seq<seq<nat>>, w: nat,
                                                      end: Option<TxError>)
    requires cfg.procs > 0 && w <= |groups| && forall v :: 0 <= v < |groups| ==> InRange(b, groups[v])
    requires !cfg.waveExecution
    ensures BlockRun(b, s0, cfg, groups, w, end) <==>
              if end.None? then forall v :: w <= v < |groups| ==> DirectEnd(b, s0, groups[v], DoneBefore(groups, v)) == None
              else FailsFirst(b, s0, groups, w, end)
    decreases |groups| - w
  {
    hide PoolRun, DirectEnd, DoneBefore;
    if w < |groups| {
      SwitchedOffIsDeterministic(b, s0, cfg, groups, w + 1, end);
      var here := DirectEnd(b, s0, groups[w], DoneBefore(groups, w));
      if here.Some? {
        assert end == here ==> FailsAt(b, s0, groups, w, w, end);
      } else {
        assert BlockRun(b, s0, cfg, groups, w, end) <==> BlockRun(b, s0, cfg, groups, w + 1, end);
        PassesOver(b, s0, groups, w, end);
      }
    }
  }

  lemma PassesOver(b: Block, s0: State, groups: seq<seq<nat>>, w: nat, end: Option<TxError>)
    requires w < |groups| && forall u :: 0 <= u < |groups| ==> InRange(b, groups[u])
    requires DirectEnd(b, s0, groups[w], DoneBefore(groups, w)) == None
    ensures FailsFirst(b, s0, groups, w + 1, end) <==> FailsFirst(b, s0, groups, w, end)
  {
    hide DirectEnd, DoneBefore;
    if FailsFirst(b, s0, groups, w + 1, end) {
      var v :| FailsAt(b, s0, groups, w + 1, v, end);
      assert FailsAt(b, s0, groups, w, v, end);
    }
    if FailsFirst(b, s0, groups, w, end) {
      var v :| FailsAt(b, s0, groups, w, v, end);
      assert FailsAt(b, s0, groups, w + 1, v, end);
    }
  }

  // Of the waves from w on, v is the first that fails when run directly, and fails with `end`.
  ghost predicate FailsAt(b: Block, s0: State, groups: seq<seq<nat>>, w: nat, v: nat, end: Option<TxError>)
    requires forall u :: 0 <= u < |groups| ==> InRange(b, groups[u])
  {
    && w <= v < |groups| && end.Some? && DirectEnd(b, s0, groups[v], DoneBefore(groups, v)) == end
    && forall u :: w <= u < v ==> DirectEnd(b, s0, groups[u], DoneBefore(groups, u)) == None
  }

  ghost predicate FailsFirst(b: Block, s0: State, groups: seq<seq<nat>>, w: nat, end: Option<TxError>)
    requires forall u :: 0 <= u < |groups| ==> InRange(b, groups[u])
  {
    exists v :: FailsAt(b, s0, groups, w, v, end)
  }

  lemma ScheduleInRange(b: Block, groups: seq<seq<nat>>)
    requires OrderRespecting(Decls(b), groups)
    ensures forall v :: 0 <= v < |groups| ==> InRange(b, groups[v])
  {
    forall v, q | 0 <= v < |groups| && 0 <= q < |groups[v]| ensures groups[v][q] < |b.txs| {
      assert groups[v][q] in groups[v];
    }
  }

  ghost predicate JustifiedTx(b: Block, s0: State, e: TxError) {
    && e.index < |b.txs|
    && (e.cause.Core? ==> !Accepted(b, s0, e.index) && Verdict(b, s0, e.index).error == e.cause.error)
    && (e.cause.GasLimitReached? ==> !GasFits(b))
  }

  ghost predicate ReceiptsFiled(b: Block, s0: State, done: set<nat>, receipts: seq<Option<Receipt>>) {
    && |receipts| == |b.txs|
    && (forall i :: 0 <= i < |b.txs| && i in done ==>
          Accepted(b, s0, i) && receipts[i] == Some(ReceiptFor(i, Verdict(b, s0, i))))
  }

  // Between two transactions of a direct wave or between two waves.
  ghost predicate Progress(b: Block, s0: State, done: set<nat>, accounts: State, logs: map<nat, seq<Log>>,
                           gas: nat, charge: seq<nat>, receipts: seq<Option<Receipt>>) {
    && Synced(b, s0, done, accounts) && LogsRecorded(b, s0, done, logs)
    && charge == Charges(b, s0, done) && gas + Sum(charge) == b.gasLimit
    && ReceiptsFiled(b, s0, done, receipts)
  }

  // One transaction on the shared state.
  method ApplyDirect(b: Block, i: nat, db: StateDB, gas: nat, charge: seq<nat>, receipts: array<Option<Receipt>>,
                     ghost s0: State, ghost done: set<nat>, ghost from: nat, ghost order: seq<nat>)
    returns (err: Option<TxError>, gas': nat, charge': seq<nat>)
    requires Footprints(b) && Ready(b, done, i)
    requires Progress(b, s0, done, db.accounts, db.logs, gas, charge, receipts[..])
    requires LogsNumbered(b, s0, from, order, db.logStart, db.logSize) && Elems(order) == done
    modifies db, receipts
    ensures err.Some? ==> JustifiedTx(b, s0, err.value)
    ensures i < |b.txs| && err == OwnError(b, s0, i, gas)
    ensures err.None? ==> Progress(b, s0, done + {i}, db.accounts, db.logs, gas', charge', receipts[..])
    ensures err.None? ==> LogsNumbered(b, s0, from, order + [i], db.logStart, db.logSize)
  {
    hide Footprints, Ready, Progress, LogsNumbered;
    DirectFacts(b, s0, done, db.accounts, db.logs, gas, charge, receipts[..], i);
    var o := b.txs[i].run(db.accounts);
    gas', charge' := gas, charge;
    if o.Rejected? && !o.gasBought {
      return Some(TxError(i, Core(o.error))), gas, charge;
    }
    if gas < b.txs[i].gasLimit {
      return Some(TxError(i, GasLimitReached)), gas, charge;
    }
    if o.Rejected? {
      return Some(TxError(i, Core(o.error))), gas - b.txs[i].gasLimit, charge;
    }
    gas' := gas - b.txs[i].gasLimit;
    gas', charge' := gas' + (b.txs[i].gasLimit - o.gasUsed), charge[i := o.gasUsed];
    err := None;
    DirectDone(b, s0, done, db.accounts, db.logs, gas, charge, receipts[..], i);
    ghost var filed := receipts[..][i := Some(ReceiptFor(i, o))];
    assert i !in Elems(order);
    NumberNext(b, s0, from, order, db.logStart, db.logSize, i,
               if o.logs == [] then db.logStart else db.logStart[i := db.logSize], db.logSize + |o.logs|);
    db.accounts := o.post;
    if o.logs != [] {
      db.logs, db.logStart := db.logs[i := o.logs], db.logStart[i := db.logSize];
      db.logSize := db.logSize + |o.logs|;
    }
    receipts[i] := Some(ReceiptFor(i, o));
    assert receipts[..] == filed;
  }

  // What the in-order run says about a ready transaction.
  lemma DirectFacts(b: Block, s0: State, done: set<nat>, t: State, logs: map<nat, seq<Log>>, gas: nat, charge: seq<nat>,
                    receipts: seq<Option<Receipt>>, i: nat)
    requires Footprints(b) && Ready(b, done, i) && Progress(b, s0, done, t, logs, gas, charge, receipts)
    ensures i < |b.txs| && i !in done && i < |receipts| && i < |charge|
    ensures var o, v := b.txs[i].run(t), Verdict(b, s0, i);
            && (v.Rejected? ==> o == v)
            && (v.Applied? ==> o.Applied? && ReceiptFor(i, o) == ReceiptFor(i, v) && o.gasUsed <= b.txs[i].gasLimit)
    ensures GasFits(b) ==> b.txs[i].gasLimit <= gas
  {
    hide Synced, LogsRecorded;
    ReadyVerdict(b, s0, done, t, i);
    GasWithinLimit(b, s0, i);
    if GasFits(b) {
      ChargesWithinLimits(b, s0, done);
      EnoughGas(Charges(b, s0, done), GasLimits(b), gas, i);
    }
  }

  lemma DirectDone(b: Block, s0: State, done: set<nat>, t: State, logs: map<nat, seq<Log>>, gas: nat, charge: seq<nat>,
                   receipts: seq<Option<Receipt>>, i: nat)
    requires Footprints(b) && Ready(b, done, i) && Progress(b, s0, done, t, logs, gas, charge, receipts)
    requires i < |receipts| && i < |charge| && b.txs[i].run(t).Applied? && b.txs[i].run(t).gasUsed <= gas
    ensures var o := b.txs[i].run(t);
            Progress(b, s0, done + {i}, o.post, if o.logs != [] then logs[i := o.logs] else logs,
                     gas - o.gasUsed, charge[i := o.gasUsed], receipts[i := Some(ReceiptFor(i, o))])
  {
    hide Synced, Footprints, Ready, Charges;
    ReadyVerdict(b, s0, done, t, i);
    ReadyInRange(b, done, i);
    ReadyStep(b, s0, done, t, i);
    ChargesAdd(b, s0, done, i);
  }

  // A small wave, or any wave with wave execution switched off: one by one, ascending.
  method DirectWave(b: Block, jobs: seq<nat>, db: StateDB, gas: nat, charge: seq<nat>, receipts: array<Option<Receipt>>,
                    ghost s0: State, ghost done: set<nat>, ghost from: nat, ghost order: seq<nat>)
    returns (err: Option<TxError>, gas': nat, charge': seq<nat>)
    requires Footprints(b) && WaveReady(b, jobs, done)
    requires Progress(b, s0, done, db.accounts, db.logs, gas, charge, receipts[..])
    requires LogsNumbered(b, s0, from, order, db.logStart, db.logSize) && Elems(order) == done
    modifies db, receipts
    ensures err.Some? ==> JustifiedTx(b, s0, err.value)
    ensures InRange(b, jobs) && err == DirectEnd(b, s0, jobs, done)
    ensures err.None? ==> Progress(b, s0, done + Elems(jobs), db.accounts, db.logs, gas', charge', receipts[..])
    ensures err.None? ==> LogsNumbered(b, s0, from, order + jobs, db.logStart, db.logSize)
  {
    hide Footprints, Progress, WaveReady, JustifiedTx, OwnError, DirectEnd, GasLeft, LogsNumbered;
    gas', charge' := gas, charge;
    WaveInRange(b, jobs, done);
    assert done + Elems(jobs[..0]) == done && jobs[0..] == jobs && order + jobs[..0] == order;
    for q := 0 to |jobs|
      invariant Progress(b, s0, done + Elems(jobs[..q]), db.accounts, db.logs, gas', charge', receipts[..])
      invariant LogsNumbered(b, s0, from, order + jobs[..q], db.logStart, db.logSize)
      invariant DirectEnd(b, s0, jobs[q..], done + Elems(jobs[..q])) == DirectEnd(b, s0, jobs, done)
    {
      DirectNext(b, s0, jobs, done, q, db.accounts, db.logs, gas', charge', receipts[..]);
      NextReady(b, jobs, done, q);
      assert Elems(order + jobs[..q]) == done + Elems(jobs[..q]);
      err, gas', charge' :=
        ApplyDirect(b, jobs[q], db, gas', charge', receipts, s0, done + Elems(jobs[..q]), from, order + jobs[..q]);
      if err.Some? {
        return;
      }
      assert jobs[..q + 1] == jobs[..q] + [jobs[q]] && order + jobs[..q + 1] == order + jobs[..q] + [jobs[q]];
      assert done + Elems(jobs[..q + 1]) == done + Elems(jobs[..q]) + {jobs[q]};
    }
    assert jobs[..|jobs|] == jobs && jobs[|jobs|..] == [];
    err := None;
    DirectDrained(b, s0, done + Elems(jobs));
  }

  lemma WaveInRange(b: Block, jobs: seq<nat>, done: set<nat>)
    requires WaveReady(b, jobs, done)
    ensures InRange(b, jobs) && forall q :: 0 <= q <= |jobs| ==> InRange(b, jobs[q..])
  {
    forall q | 0 <= q < |jobs| ensures jobs[q] < |b.txs| {
      assert jobs[q] in jobs && Ready(b, done, jobs[q]);
    }
  }

  lemma DirectDrained(b: Block, s0: State, done: set<nat>)
    ensures DirectEnd(b, s0, [], done) == None
  {
  }

  lemma DirectNext(b: Block, s0: State, jobs: seq<nat>, done: set<nat>, q: nat, t: State, logs: map<nat, seq<Log>>, gas: nat,
                   charge: seq<nat>, receipts: seq<Option<Receipt>>)
    requires q < |jobs| && InRange(b, jobs) && InRange(b, jobs[q..]) && InRange(b, jobs[q + 1..])
    requires Progress(b, s0, done + Elems(jobs[..q]), t, logs, gas, charge, receipts)
    ensures DirectEnd(b, s0, jobs[q..], done + Elems(jobs[..q])) ==
              match OwnError(b, s0, jobs[q], gas)
              case Some(e) => Some(e)
              case None => DirectEnd(b, s0, jobs[q + 1..], done + Elems(jobs[..q]) + {jobs[q]})
  {
    hide OwnError, Synced, LogsRecorded, ReceiptsFiled;
    assert jobs[q..][1..] == jobs[q + 1..];
  }

  lemma NextReady(b: Block, jobs: seq<nat>, done: set<nat>, q: nat)
    requires WaveReady(b, jobs, done) && q < |jobs|
    ensures Ready(b, done + Elems(jobs[..q]), jobs[q])
  {
    StillReady(b, jobs, done, Elems(jobs[..q]), jobs[q]);
  }

  // The number of goroutines of a parallel wave.
  function WorkerCount(cfg: Config, jobs: nat): (w: nat)
    requires cfg.procs > 0
  {
    var wanted := if cfg.workers <= 0 then cfg.procs else cfg.workers;
    if wanted > jobs then jobs else wanted
  }

  // A large wave: worker pool, then merge.
  method ParallelWave(b: Block, jobs: seq<nat>, cfg: Config, db: StateDB, gas: nat, charge: seq<nat>,
                      receipts: array<Option<Receipt>>, ghost s0: State, ghost done: set<nat>, ghost from: nat,
                      ghost order: seq<nat>)
    returns (err: Option<TxError>, gas': nat, charge': seq<nat>)
    requires Footprints(b) && WaveReady(b, jobs, done) && jobs != [] && cfg.procs > 0 && b.gasLimit < TWO_64
    requires Progress(b, s0, done, db.accounts, db.logs, gas, charge, receipts[..])
    requires LogsNumbered(b, s0, from, order, db.logStart, db.logSize) && Elems(order) == done
    modifies db, receipts
    ensures err.Some? ==> JustifiedTx(b, s0, err.value)
    ensures InRange(b, jobs) && WorkerCount(cfg, |jobs|) > 0
    ensures |jobs| == 1 ==> err == OwnError(b, s0, jobs[0], gas)
    ensures exists schedule, q ::
              PoolRun(b, s0, jobs, WorkerCount(cfg, |jobs|), done, old(db.accounts), gas, schedule, q) && q.firstErr == err
    ensures err.None? ==> Progress(b, s0, done + Elems(jobs), db.accounts, db.logs, gas', charge', receipts[..])
    ensures err.None? ==> LogsNumbered(b, s0, from, order + jobs, db.logStart, db.logSize)
  {
    hide LogsNumbered, Footprints, WaveReady, Synced, Inv, Mergeable, LogsRecorded, Charges, OwnError, AllStopped, Leads;
    WaveInRange(b, jobs, done);
    ghost var c := Wave(b, s0, jobs, done, db.accounts);
    var workers := WorkerCount(cfg, |jobs|);
    var start := Start(db.accounts, workers, gas, charge);
    PoolStarts(c, workers, gas, charge);
    ghost var schedule;
    var p;
    p, schedule := RunWave(b, jobs, start, c);
    assert PoolRun(b, s0, jobs, workers, done, db.accounts, gas, schedule, p);
    gas', charge' := p.gas, p.charge;
    if |jobs| == 1 {
      AloneInWave(c, p, gas);
    }
    if p.firstErr.Some? {
      PoolErrors(c, p);
      return p.firstErr, gas', charge';
    }
    CleanIsMergeable(c, p);
    err := None;
    PoolLedger(c, p);
    MergeWave(db, p, jobs, b.coinbase, c, from, order);
    FileReceipts(receipts, jobs, p, c);
  }

  lemma PoolStarts(c: Wave, workers: nat, gas: nat, charge: seq<nat>)
    requires WaveOk(c) && charge == Charges(c.block, c.s0, c.before)
    requires gas + Sum(charge) == c.block.gasLimit < TWO_64
    ensures Inv(c, Start(c.base, workers, gas, charge))
  {
    hide WaveOk, Inv;
    StartInv(c, workers, gas, charge);
  }

  // A wave of one transaction ends with that transaction's in-order error or none.
  lemma AloneInWave(c: Wave, p: Pool, gas: nat)
    requires WaveOk(c) && Inv(c, p) && AllStopped(p) && |p.workers| > 0
    requires |c.jobs| == 1 && gas + Sum(Charges(c.block, c.s0, c.before)) == c.block.gasLimit
    ensures c.jobs[0] < |c.block.txs| && p.firstErr == OwnError(c.block, c.s0, c.jobs[0], gas)
  {
    hide WaveOk, JobInv, ForkInv, ReceiptInv, PhaseInv, GasInv, SeenInv, AllStopped, Justified, Afforded, OwnFits, Verdict;
    Basics(c, p);
    var i := c.jobs[0];
    assert i in c.jobs && i < |c.block.txs| by { RangeFromInv(c, p); }
    if p.firstErr.None? {
      CleanEnd(c, p);
      assert i in Elems(c.jobs);
      assert c.block.txs[i].gasLimit <= gas by { OwnGas(c, i, gas); }
    } else {
      AloneError(c, p.firstErr.value, gas);
    }
  }

  lemma OwnGas(c: Wave, i: nat, gas: nat)
    requires i < |c.block.txs| && gas + Sum(Charges(c.block, c.s0, c.before)) == c.block.gasLimit
    ensures OwnFits(c, i) <==> c.block.txs[i].gasLimit <= gas
  {
  }

  lemma AloneError(c: Wave, e: TxError, gas: nat)
    requires |c.jobs| == 1 && c.jobs[0] < |c.block.txs| && c.jobs[0] !in c.before
    requires gas + Sum(Charges(c.block, c.s0, c.before)) == c.block.gasLimit
    requires Justified(c, e) && Afforded(c, e)
    ensures OwnError(c.block, c.s0, c.jobs[0], gas) == Some(e)
  {
    hide OwnFits, WaveFits, StateBefore;
    AloneCeiling(c);
    OwnGas(c, c.jobs[0], gas);
    assert e.index == c.jobs[0];
  }

  lemma AloneCeiling(c: Wave)
    requires |c.jobs| == 1 && c.jobs[0] < |c.block.txs| && c.jobs[0] !in c.before
    ensures WaveFits(c) <==> OwnFits(c, c.jobs[0])
  {
    var charge, i := Charges(c.block, c.s0, c.before), c.jobs[0];
    assert Ceiling(c) == charge[i := c.block.txs[i].gasLimit];
    SumUpdate(charge, i, c.block.txs[i].gasLimit);
  }

  lemma PoolErrors(c: Wave, p: Pool)
    requires Footprints(c.block) && Inv(c, p) && p.firstErr.Some?
    ensures JustifiedTx(c.block, c.s0, p.firstErr.value)
  {
    hide Footprints, WaveFits, GasFits, JobInv, ForkInv, PhaseInv, GasInv;
    if GasFits(c.block) {
      GasFitsEveryWave(c);
    }
  }

  // After a clean wave the ledger charges exactly the gas used.
  lemma PoolLedger(c: Wave, p: Pool)
    requires WaveOk(c) && Inv(c, p) && AllStopped(p) && p.firstErr.None? && |p.workers| > 0
    ensures p.charge == Charges(c.block, c.s0, c.before + Elems(c.jobs))
    ensures p.gas + Sum(p.charge) == c.block.gasLimit
    ensures ReceiptInv(c, p) && p.receipts.Keys == Elems(c.jobs)
  {
    hide WaveOk, ForkInv, PhaseInv, ErrInv, SeenInv;
    CleanEnd(c, p);
  }

  method FileReceipts(receipts: array<Option<Receipt>>, jobs: seq<nat>, p: Pool, ghost c: Wave)
    requires c.jobs == jobs && p.receipts.Keys == Elems(jobs) && ReceiptInv(c, p)
    requires ReceiptsFiled(c.block, c.s0, c.before, receipts[..])
    modifies receipts
    ensures ReceiptsFiled(c.block, c.s0, c.before + Elems(jobs), receipts[..])
  {
    assert c.before + Elems(jobs[..0]) == c.before;
    for q := 0 to |jobs|
      invariant ReceiptsFiled(c.block, c.s0, c.before + Elems(jobs[..q]), receipts[..])
    {
      assert jobs[q] in Elems(jobs);
      assert jobs[..q + 1] == jobs[..q] + [jobs[q]];
      assert c.before + Elems(jobs[..q + 1]) == c.before + Elems(jobs[..q]) + {jobs[q]};
      receipts[jobs[q]] := Some(p.receipts[jobs[q]]);
    }
    assert jobs[..|jobs|] == jobs;
  }

  // ----- Closing the block.

  function GasUsedBefore(receipts: seq<Receipt>, p: nat): (r: nat)
    requires p <= |receipts|
  {
    if p == 0 then 0 else GasUsedBefore(receipts, p - 1) + receipts[p - 1].gasUsed
  }

  function Cumulative(receipts: seq<Receipt>, p: nat): (r: U64)
    requires p <= |receipts|
  {
    GasUsedBefore(receipts, p) % TWO_64
  }

  lemma CumulativeStep(receipts: seq<Receipt>, p: nat)
    requires p < |receipts|
    ensures Add64(Cumulative(receipts, p), receipts[p].gasUsed) == Cumulative(receipts, p + 1)
  {
    Add64Mod(GasUsedBefore(receipts, p), receipts[p].gasUsed);
  }

  // normalizeReceiptCumulativeGas: rewrites the receipts in place, in a uint64 accumulator.
  method NormalizeReceiptCumulativeGas(receipts: array<Receipt>)
    modifies receipts
    ensures forall i :: 0 <= i < receipts.Length ==>
              receipts[i] == old(receipts[i]).(cumulativeGasUsed := Cumulative(old(receipts[..]), i + 1))
  {
    ghost var before := receipts[..];
    var cum: U64 := 0;
    assert cum == Cumulative(before, 0);
    hide Add64, Cumulative;
    for i := 0 to receipts.Length
      invariant cum == Cumulative(before, i)
      invariant forall k :: i <= k < receipts.Length ==> receipts[k] == before[k]
      invariant forall k :: 0 <= k < i ==> receipts[k] == before[k].(cumulativeGasUsed := Cumulative(before, k + 1))
    {
      CumulativeStep(before, i);
      cum := Add64(cum, receipts[i].gasUsed);
      receipts[i] := receipts[i].(cumulativeGasUsed := cum);
    }
  }

  ghost function LogsBefore(b: Block, s0: State, p: nat): seq<Log>
    requires p <= |b.txs|
  {
    if p == 0 then [] else LogsBefore(b, s0, p - 1) + VerdictLogs(b, s0, p - 1)
  }

  lemma {:induction false} GasAgrees(b: Block, s0: State, receipts: seq<Receipt>, p: nat)
    requires p <= |receipts| == |b.txs|
    requires forall i :: 0 <= i < |b.txs| ==> Accepted(b, s0, i) && receipts[i] == ReceiptFor(i, Verdict(b, s0, i))
    ensures GasUsedBefore(receipts, p) == GasBefore(b, s0, p)
  {
    if p > 0 {
      GasAgrees(b, s0, receipts, p - 1);
    }
  }

  lemma {:induction false} GasBeforeMonotone(b: Block, s0: State, p: nat, q: nat)
    requires p <= q <= |b.txs|
    ensures GasBefore(b, s0, p) <= GasBefore(b, s0, q)
  {
    if p < q {
      GasBeforeMonotone(b, s0, p, q - 1);
    }
  }

  lemma Renumbered(b: Block, s0: State, raw: seq<Receipt>, i: nat)
    requires i < |raw| == |b.txs| && GasBefore(b, s0, |b.txs|) < TWO_64
    requires forall k :: 0 <= k < |b.txs| ==> Accepted(b, s0, k) && raw[k] == ReceiptFor(k, Verdict(b, s0, k))
    ensures raw[i].(cumulativeGasUsed := Cumulative(raw, i + 1)) == FinalReceipt(b, s0, i)
  {
    hide GasBefore, GasUsedBefore;
    GasAgrees(b, s0, raw, i + 1);
    GasBeforeMonotone(b, s0, i + 1, |b.txs|);
  }

  // All waves are done: renumber the cumulative gas and collect the logs.
  method CloseBlock(b: Block, filed: seq<Option<Receipt>>, gas: nat, ghost s0: State)
    returns (r: ProcessResult)
    requires ReceiptsFiled(b, s0, AllTxs(b), filed)
    requires gas + GasBefore(b, s0, |b.txs|) == b.gasLimit < TWO_64
    ensures r.Success? && AllAccepted(b, s0, |b.txs|)
    ensures FinalReceipts(b, s0, r.receipts, |b.txs|) && r.logs == LogsBefore(b, s0, |b.txs|)
    ensures r.gasUsed == GasBefore(b, s0, |b.txs|) && r.gasLeft == gas
  {
    hide Cumulative, Verdict;
    var n := |b.txs|;
    var receipts := new Receipt[n](i requires 0 <= i < n && filed[i].Some? => filed[i].value);
    ghost var raw := receipts[..];
    NormalizeReceiptCumulativeGas(receipts);
    forall i | 0 <= i < n ensures receipts[i] == FinalReceipt(b, s0, i) {
      Renumbered(b, s0, raw, i);
    }
    var usedGas := 0;
    if n > 0 {
      usedGas := receipts[n - 1].cumulativeGasUsed;
    }
    var allLogs := CollectLogs(b, receipts[..], s0);
    r := Success(receipts[..], allLogs, usedGas, gas);
  }

  method CollectLogs(b: Block, receipts: seq<Receipt>, ghost s0: State) returns (allLogs: seq<Log>)
    requires FinalReceipts(b, s0, receipts, |b.txs|)
    ensures allLogs == LogsBefore(b, s0, |b.txs|)
  {
    hide Verdict;
    allLogs := [];
    for i := 0 to |receipts|
      invariant allLogs == LogsBefore(b, s0, i)
    {
      allLogs := allLogs + receipts[i].logs;
    }
  }

  // The clean end state of a block is the one of the in-order run.
  lemma EndsInOrder(b: Block, s0: State, t: State)
    requires Footprints(b)
    requires Synced(b, s0, AllTxs(b), t) && AllAccepted(b, s0, |b.txs|)
    ensures SameAccounts(t, StateBefore(b, s0, |b.txs|))
  {
    hide Synced, Footprints;
    PrefixSynced(b, s0, |b.txs|);
    SyncedUnique(b, s0, t, StateBefore(b, s0, |b.txs|));
  }

  lemma {:induction false} PrefixSynced(b: Block, s0: State, p: nat)
    requires Footprints(b)
    requires p <= |b.txs| && AllAccepted(b, s0, p)
    ensures Synced(b, s0, IndexSet(p), StateBefore(b, s0, p))
  {
    hide Synced, Footprints;
    if p == 0 {
      SyncedAtStart(b, s0);
    } else {
      PrefixSynced(b, s0, p - 1);
      assert Accepted(b, s0, p - 1);
      ReadyStep(b, s0, IndexSet(p - 1), StateBefore(b, s0, p - 1), p - 1);
    }
  }

  // Process. Whatever the switches, the number of workers and the schedule: a clean
  // result is the in-order result, an error is a rejection of the in-order run or a pool
  // that the gas limits overcommit, and when they do not, both accept the same blocks.
  method Process(b: Block, headers: seq<TxHeader>, cfg: Config, db: StateDB)
    returns (r: ProcessResult, ghost groups: seq<seq<nat>>)
    requires Footprints(b) && Matches(b, headers) && cfg.procs > 0 && b.gasLimit < TWO_64
    requires db.logs == map[]
    modifies db
    ensures r.Success? ==>
              && AllAccepted(b, old(db.accounts), |b.txs|)
              && SameAccounts(db.accounts, StateBefore(b, old(db.accounts), |b.txs|))
              && LogsRecorded(b, old(db.accounts), AllTxs(b), db.logs)
              && FinalReceipts(b, old(db.accounts), r.receipts, |b.txs|)
              && r.logs == LogsBefore(b, old(db.accounts), |b.txs|)
              && r.gasUsed == GasBefore(b, old(db.accounts), |b.txs|) && r.gasLeft + r.gasUsed == b.gasLimit
    ensures r.Failure? ==> JustifiedTx(b, old(db.accounts), r.error)
    ensures r.BadSender? <==> cfg.grouping && exists i :: 0 <= i < |headers| && headers[i].sender.None?
    ensures r.BadSender? ==> FirstWithoutSender(headers, r.index) && !AllAccepted(b, old(db.accounts), |b.txs|)
    ensures GasFits(b) ==> (r.Success? <==> InOrder(b, old(db.accounts), |b.txs|).Done?)
    ensures GasFits(b) && r.Failure? ==>
              var first := InOrder(b, old(db.accounts), |b.txs|);
              first.Error? && first.error.index <= r.error.index && (first.error.index == r.error.index ==> first.error == r.error)
    ensures !cfg.grouping ==>
              var ref := InOrder(b, old(db.accounts), |b.txs|);
              (r.Success? <==> ref.Done?) && (r.Failure? ==> ref == InOrderResult.Error(r.error))
    ensures r.Success? && InOrder(b, old(db.accounts), |b.txs|).Done? ==>
              var ref := InOrder(b, old(db.accounts), |b.txs|);
              SameAccounts(db.accounts, ref.state) && r.receipts == ref.receipts && r.gasLeft == ref.gas
    ensures !r.BadSender? ==> OrderRespecting(Decls(b), groups) && forall w :: 0 <= w < |groups| ==> groups[w] != []
    ensures !r.BadSender? ==>
              if cfg.grouping then forall w :: 0 <= w < |groups| ==> groups[w] == Level(DeclaredSets(headers), w, |headers|)
              else groups == Singletons(|headers|)
    ensures !r.BadSender? ==>
              && (forall v :: 0 <= v < |groups| ==> InRange(b, groups[v]))
              && BlockRun(b, old(db.accounts), cfg, groups, 0, if r.Success? then None else Some(r.error))
    ensures r.Success? ==>
              LogsNumbered(b, old(db.accounts), old(db.logSize), InWaveOrder(groups, |groups|), db.logStart, db.logSize)
  {
    hide Footprints, Matches, Progress, OrderRespecting, InOrder, WaveReady, OwnError, BlockRun, WaveRun, DirectEnd, PoolRun;
    hide LogsNumbered, InWaveOrder, DoneBefore, FinalReceipts, LogsRecorded, JustifiedTx, AllAccepted, Elems;
    groups := [];
    ghost var s0 := db.accounts;
    var n := |b.txs|;
    var grouping := BuildGroups(headers, cfg.grouping);
    MatchesDecls(b, headers);
    if grouping.NoSender? {
      BadSenderRejected(b, headers, s0);
      ReferenceVerdict(b, s0, false);
      return ProcessResult.BadSender(grouping.index), groups;
    }
    var waves := grouping.groups;
    groups := waves;
    ScheduleInRange(b, groups);
    var receipts := new Option<Receipt>[n](_ => None);
    var gas, charge := b.gasLimit, seq(n, _ => 0);
    StartProgress(b, s0, charge, receipts[..]);
    ghost var from := db.logSize;
    NothingNumbered(b, s0, from, groups, db.logStart);
    assert InOrder(b, s0, 0).Done? by { InOrderStart(b, s0); }
    for w := 0 to |waves|
      invariant !cfg.grouping ==> |groups| == n && InOrder(b, s0, w).Done?
      invariant forall end :: BlockRun(b, s0, cfg, groups, w, end) ==> BlockRun(b, s0, cfg, groups, 0, end)
      invariant Progress(b, s0, DoneBefore(groups, w), db.accounts, db.logs, gas, charge, receipts[..])
      invariant LogsNumbered(b, s0, from, InWaveOrder(groups, w), db.logStart, db.logSize)
    {
      ScheduleIsReady(b, groups, w);
      WaveOrderIsDone(groups, w);
      ghost var before := gas;
      StillGas(b, s0, DoneBefore(groups, w), db.accounts, db.logs, gas, charge, receipts[..]);
      if !cfg.grouping {
        OneByOne(b, s0, w, db.accounts, db.logs, gas, charge, receipts[..]);
      }
      var err: Option<TxError>;
      if RunsDirectly(cfg, waves[w]) {
        err, gas, charge :=
          DirectWave(b, waves[w], db, gas, charge, receipts, s0, DoneBefore(groups, w), from, InWaveOrder(groups, w));
        if |waves[w]| == 1 {
          DirectAlone(b, s0, waves[w], DoneBefore(groups, w));
        }
      } else {
        err, gas, charge :=
          ParallelWave(b, waves[w], cfg, db, gas, charge, receipts, s0, DoneBefore(groups, w), from, InWaveOrder(groups, w));
      }
      assert WaveRun(b, s0, cfg, groups[w], DoneBefore(groups, w), err) by { WaveRan(b, s0, cfg, groups[w], DoneBefore(groups, w), err); }
      RunOn(b, s0, cfg, groups, w, err);
      if err.Some? {
        ErrorVerdict(b, s0, err.value);
        if !cfg.grouping {
          InOrderNext(b, s0, w, before);
          InOrderStays(b, s0, w + 1, n);
        }
        return Failure(err.value), groups;
      }
      if !cfg.grouping {
        InOrderNext(b, s0, w, before);
      }
    }
    RunEnds(b, s0, cfg, groups);
    ScheduleCoversAll(b, groups);
    EndProgress(b, s0, db.accounts, db.logs, gas, charge, receipts[..]);
    r := CloseBlock(b, receipts[..], gas, s0);
    EndsInOrder(b, s0, db.accounts);
    ReferenceVerdict(b, s0, true);
    CleanMatchesReference(b, s0, r.receipts);
  }

  lemma StillGas(b: Block, s0: State, done: set<nat>, t: State, logs: map<nat, seq<Log>>, gas: nat, charge: seq<nat>,
                 receipts: seq<Option<Receipt>>)
    requires Progress(b, s0, done, t, logs, gas, charge, receipts)
    ensures gas == GasLeft(b, s0, done)
  {
  }

  lemma DirectAlone(b: Block, s0: State, jobs: seq<nat>, done: set<nat>)
    requires |jobs| == 1 && InRange(b, jobs)
    ensures DirectEnd(b, s0, jobs, done) == OwnError(b, s0, jobs[0], GasLeft(b, s0, done))
  {
    hide OwnError, GasLeft;
    assert jobs[1..] == [];
  }

  lemma WaveRan(b: Block, s0: State, cfg: Config, jobs: seq<nat>, done: set<nat>, end: Option<TxError>)
    requires cfg.procs > 0 && InRange(b, jobs)
    requires if RunsDirectly(cfg, jobs) then end == DirectEnd(b, s0, jobs, done)
             else exists base, gas, schedule, q ::
               PoolRun(b, s0, jobs, WorkerCount(cfg, |jobs|), done, base, gas, schedule, q) && q.firstErr == end
    ensures WaveRun(b, s0, cfg, jobs, done, end)
  {
  }

  // One more wave of a run.
  lemma RunOn(b: Block, s0: State, cfg: Config, groups: seq<seq<nat>>, w: nat, err: Option<TxError>)
    requires cfg.procs > 0 && w < |groups| && forall v :: 0 <= v < |groups| ==> InRange(b, groups[v])
    requires WaveRun(b, s0, cfg, groups[w], DoneBefore(groups, w), err)
    ensures err.Some? ==> BlockRun(b, s0, cfg, groups, w, err)
    ensures err.None? ==> forall end :: BlockRun(b, s0, cfg, groups, w + 1, end) ==> BlockRun(b, s0, cfg, groups, w, end)
  {
  }

  lemma RunEnds(b: Block, s0: State, cfg: Config, groups: seq<seq<nat>>)
    requires cfg.procs > 0 && forall v :: 0 <= v < |groups| ==> InRange(b, groups[v])
    ensures BlockRun(b, s0, cfg, groups, |groups|, None)
  {
  }

  lemma MatchesDecls(b: Block, headers: seq<TxHeader>)
    requires Matches(b, headers)
    ensures DeclaredSets(headers) == Decls(b)
  {
  }

  lemma BadSenderRejected(b: Block, headers: seq<TxHeader>, s0: State)
    requires Matches(b, headers) && exists i :: 0 <= i < |headers| && headers[i].sender.None?
    ensures !AllAccepted(b, s0, |b.txs|)
  {
    var i :| 0 <= i < |headers| && headers[i].sender.None?;
    assert b.txs[i].run(StateBefore(b, s0, i)).Rejected?;
    assert !Accepted(b, s0, i);
  }

  lemma InOrderStart(b: Block, s0: State)
    ensures InOrder(b, s0, 0).Done?
  {
  }

  // With grouping off wave w is transaction w, on what transactions 0..w-1 left.
  lemma OneByOne(b: Block, s0: State, w: nat, t: State, logs: map<nat, seq<Log>>, gas: nat, charge: seq<nat>,
                 receipts: seq<Option<Receipt>>)
    requires w < |b.txs| && Progress(b, s0, DoneBefore(Singletons(|b.txs|), w), t, logs, gas, charge, receipts)
    ensures Singletons(|b.txs|)[w] == [w] && gas + GasBefore(b, s0, w) == b.gasLimit
  {
    DoneOneByOne(|b.txs|, w);
    ChargesOfPrefix(b, s0, w);
  }

  lemma {:induction false} DoneOneByOne(n: nat, w: nat)
    requires w <= n
    ensures DoneBefore(Singletons(n), w) == IndexSet(w)
  {
    if w > 0 {
      DoneOneByOne(n, w - 1);
      assert Elems([w - 1]) == {w - 1};
    }
  }

  // With fitting limits the in-order run fails too, at this transaction or an earlier one.
  lemma ErrorVerdict(b: Block, s0: State, e: TxError)
    requires Footprints(b) && JustifiedTx(b, s0, e)
    ensures GasFits(b) ==>
              var first := InOrder(b, s0, |b.txs|);
              first.Error? && first.error.index <= e.index && (first.error.index == e.index ==> first.error == e)
  {
    hide InOrder, Footprints;
    if GasFits(b) {
      InOrderAccepts(b, s0, |b.txs|);
      FirstRejection(b, s0, |b.txs|);
    }
  }

  lemma ReferenceVerdict(b: Block, s0: State, clean: bool)
    requires Footprints(b) && (clean <==> AllAccepted(b, s0, |b.txs|))
    ensures GasFits(b) ==> (InOrder(b, s0, |b.txs|).Done? <==> clean)
  {
    hide InOrder, Footprints;
    if GasFits(b) {
      InOrderAccepts(b, s0, |b.txs|);
    }
  }

  lemma CleanMatchesReference(b: Block, s0: State, receipts: seq<Receipt>)
    requires Footprints(b) && FinalReceipts(b, s0, receipts, |b.txs|)
    ensures InOrder(b, s0, |b.txs|).Done? ==>
              var ref := InOrder(b, s0, |b.txs|);
              && ref.state == StateBefore(b, s0, |b.txs|) && receipts == ref.receipts
              && ref.gas + GasBefore(b, s0, |b.txs|) == b.gasLimit
  {
    hide InOrder, Footprints;
    if InOrder(b, s0, |b.txs|).Done? {
      InOrderMeaning(b, s0, |b.txs|);
    }
  }

  lemma StartProgress(b: Block, s0: State, charge: seq<nat>, receipts: seq<Option<Receipt>>)
    requires Footprints(b)
    requires |receipts| == |b.txs| && |charge| == |b.txs| && forall i :: 0 <= i < |charge| ==> charge[i] == 0
    ensures Progress(b, s0, {}, s0, map[], b.gasLimit, charge, receipts)
  {
    hide Synced, Footprints;
    SyncedAtStart(b, s0);
    SumOfZeros(charge);
  }

  lemma EndProgress(b: Block, s0: State, t: State, logs: map<nat, seq<Log>>, gas: nat, charge: seq<nat>,
                    receipts: seq<Option<Receipt>>)
    requires Progress(b, s0, AllTxs(b), t, logs, gas, charge, receipts)
    ensures Synced(b, s0, AllTxs(b), t) && LogsRecorded(b, s0, AllTxs(b), logs)
    ensures ReceiptsFiled(b, s0, AllTxs(b), receipts)
    ensures gas + GasBefore(b, s0, |b.txs|) == b.gasLimit
  {
    ChargesOfPrefix(b, s0, |b.txs|);
  }
}
