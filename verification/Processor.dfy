// The merge at the end of a parallel wave (core/state_processor.go): every fork once, the
// logs in block order, then the coinbase balance.
module Processor {
  import opened Base
  import opened Execution
  import opened WavePool
  import opened WaveRuns
  import opened WaveMerge

  // The transactions run on the forks already merged.
  ghost function MergedDone(p: Pool, forks: set<nat>): set<nat> {
    set i | i in p.forkOf && p.forkOf[i] in forks
  }

  // What the merge may rely on.
  ghost predicate Mergeable(c: Wave, p: Pool) {
    && WaveReady(c.block, c.jobs, c.before)
    && p.forkOf.Keys == Elems(c.jobs)
    && (forall i :: i in p.forkOf ==> p.forkOf[i] < |p.workers|)
    && ForkInv(c, p)
  }

  lemma CleanIsMergeable(c: Wave, p: Pool)
    requires WaveOk(c) && Inv(c, p) && AllStopped(p) && p.firstErr.None? && |p.workers| > 0
    ensures Mergeable(c, p)
  {
    CleanEnd(c, p);
  }

  lemma MergeOneFork(c: Wave, p: Pool, forks: set<nat>, w: nat, t: State)
    requires Mergeable(c, p) && w < |p.workers| && w !in forks
    requires Merged(c, MergedDone(p, forks), t)
    ensures Merged(c, MergedDone(p, forks + {w}), Overlay(t, p.workers[w].fork))
    ensures AddDelta(CoinbaseAfter(c, c.before + MergedDone(p, forks)), CoinbaseAfter(c, c.before),
                     Get(p.workers[w].fork.accounts, c.block.coinbase).balance)
            == CoinbaseAfter(c, c.before + MergedDone(p, forks + {w}))
  {
    hide Merged, CoinbaseAfter, Overlay, AddDelta;
    var done, more := MergedDone(p, forks), DoneBy(p, w);
    assert MergedDone(p, forks + {w}) == done + more;
    assert ForkOk(c, p.workers[w].fork, more);
    forall i | i in done || i in more ensures i in c.jobs && i !in c.before {
      assert i in p.forkOf.Keys;
      assert Ready(c.block, c.before, i);
    }
    MergeFork(c, done, t, p.workers[w].fork, more);
    CoinbaseDelta(c, done, more);
    ForkCoinbase(c, p.workers[w].fork, more);
  }

  lemma ForkCoinbase(c: Wave, f: Fork, done: set<nat>)
    requires ForkOk(c, f, done)
    ensures Get(f.accounts, c.block.coinbase).balance == CoinbaseAfter(c, c.before + done)
  {
  }

  // Everything merged and the coinbase set: the wave's transactions are done.
  lemma MergedIsSynced(c: Wave, t: State, done: set<nat>, u: State)
    requires Merged(c, done, t)
    requires u == t[c.block.coinbase := Account(CoinbaseAfter(c, c.before + done), Get(t, c.block.coinbase).rest)]
    ensures Synced(c.block, c.s0, c.before + done, u)
  {
  }

  lemma MergeStart(c: Wave, p: Pool)
    requires WaveOk(c)
    ensures Merged(c, MergedDone(p, {}), c.base)
    ensures Get(c.base, c.block.coinbase).balance == CoinbaseAfter(c, c.before + MergedDone(p, {})) == CoinbaseAfter(c, c.before)
  {
    assert MergedDone(p, {}) == {};
    assert c.before + {} == c.before;
  }

  // The accounts of every fork once, in ascending transaction order, summing up the
  // changes of the coinbase balance.
  method MergeForks(db: StateDB, p: Pool, jobs: seq<nat>, coinbase: Address, ghost c: Wave)
    returns (coinbaseFinal: U256)
    requires c.jobs == jobs && c.block.coinbase == coinbase && c.base == db.accounts
    requires WaveOk(c) && Mergeable(c, p)
    modifies db`accounts
    ensures Merged(c, Elems(jobs), db.accounts)
    ensures coinbaseFinal == CoinbaseAfter(c, c.before + Elems(jobs))
  {
    hide WaveOk, ForkInv, WaveReady, Merged, CoinbaseAfter, Overlay;
    var coinbaseBase := Get(db.accounts, coinbase).balance;
    coinbaseFinal := coinbaseBase;
    var mergedForks: set<nat> := {};
    MergeStart(c, p);
    for q := 0 to |jobs|
      invariant Merged(c, MergedDone(p, mergedForks), db.accounts)
      invariant coinbaseFinal == CoinbaseAfter(c, c.before + MergedDone(p, mergedForks))
      invariant forall r :: 0 <= r < q ==> jobs[r] in p.forkOf && p.forkOf[jobs[r]] in mergedForks
    {
      assert jobs[q] in Elems(jobs);
      var w := p.forkOf[jobs[q]];
      if w !in mergedForks {
        MergeOneFork(c, p, mergedForks, w, db.accounts);
        mergedForks := mergedForks + {w};
        var child := p.workers[w].fork;
        coinbaseFinal := AddDelta(coinbaseFinal, coinbaseBase, Get(child.accounts, coinbase).balance);
        db.MergeParallelChildAccounts(child);
      }
    }
    assert MergedDone(p, mergedForks) == Elems(jobs) by {
      forall i | i in jobs ensures i in MergedDone(p, mergedForks) {
        var r :| 0 <= r < |jobs| && jobs[r] == i;
      }
    }
  }

  ghost function VerdictLogs(b: Block, s0: State, i: nat): seq<Log> {
    if i < |b.txs| && Accepted(b, s0, i) then Verdict(b, s0, i).logs else []
  }

  // The log table holds the logs of the executed transactions and nothing else.
  ghost predicate LogsRecorded(b: Block, s0: State, done: set<nat>, logs: map<nat, seq<Log>>) {
    forall i: nat :: LogsAt(logs, i) == if i in done then VerdictLogs(b, s0, i) else []
  }

  lemma LogsRecordedAdd(b: Block, s0: State, done: set<nat>, logs: map<nat, seq<Log>>, i: nat, logs': map<nat, seq<Log>>)
    requires LogsRecorded(b, s0, done, logs) && i !in done
    requires logs' == if VerdictLogs(b, s0, i) == [] then logs else logs[i := VerdictLogs(b, s0, i)]
    ensures LogsRecorded(b, s0, done + {i}, logs')
  {
    hide VerdictLogs;
    forall k: nat ensures LogsAt(logs', k) == if k in done + {i} then VerdictLogs(b, s0, k) else [] {
      assert LogsAt(logs, k) == if k in done then VerdictLogs(b, s0, k) else [];
    }
  }

  // The number of logs of some transactions.
  ghost function LogTotal(b: Block, s0: State, order: seq<nat>): nat {
    if order == [] then 0
    else LogTotal(b, s0, order[..|order| - 1]) + |VerdictLogs(b, s0, order[|order| - 1])|
  }

  // Transactions executed in this order number their logs consecutively, beginning at `from`.
  ghost predicate LogsNumbered(b: Block, s0: State, from: nat, order: seq<nat>, starts: map<nat, nat>, size: nat) {
    size == from + LogTotal(b, s0, order) && forall k :: 0 <= k < |order| ==> NumberedAt(b, s0, from, order, starts, k)
  }

  ghost predicate NumberedAt(b: Block, s0: State, from: nat, order: seq<nat>, starts: map<nat, nat>, k: nat)
    requires k < |order|
  {
    VerdictLogs(b, s0, order[k]) != [] ==>
      order[k] in starts && starts[order[k]] == from + LogTotal(b, s0, order[..k])
  }

  lemma NumberNext(b: Block, s0: State, from: nat, order: seq<nat>, starts: map<nat, nat>, size: nat, i: nat,
                   starts': map<nat, nat>, size': nat)
    requires LogsNumbered(b, s0, from, order, starts, size) && i !in order
    requires starts' == if VerdictLogs(b, s0, i) == [] then starts else starts[i := size]
    requires size' == size + |VerdictLogs(b, s0, i)|
    ensures LogsNumbered(b, s0, from, order + [i], starts', size')
  {
    hide VerdictLogs, LogTotal;
    var more := order + [i];
    assert more[..|order|] == order;
    OneMoreTotal(b, s0, order, i);
    forall k | 0 <= k < |more| ensures NumberedAt(b, s0, from, more, starts', k) {
      if k < |order| {
        assert NumberedAt(b, s0, from, order, starts, k);
        assert more[k] == order[k] && more[..k] == order[..k];
      }
    }
  }

  lemma OneMoreTotal(b: Block, s0: State, order: seq<nat>, i: nat)
    ensures LogTotal(b, s0, order + [i]) == LogTotal(b, s0, order) + |VerdictLogs(b, s0, i)|
  {
    assert (order + [i])[..|order|] == order;
  }

  lemma ForkLogs(c: Wave, p: Pool, i: nat)
    requires Mergeable(c, p) && i in c.jobs
    ensures i in p.forkOf && p.forkOf[i] < |p.workers| && i < |c.block.txs| && Accepted(c.block, c.s0, i)
    ensures LogsAt(p.workers[p.forkOf[i]].fork.logs, i) == VerdictLogs(c.block, c.s0, i)
  {
    assert i in Elems(c.jobs);
    var w := p.forkOf[i];
    assert ForkOk(c, p.workers[w].fork, DoneBy(p, w));
    assert i in DoneBy(p, w);
  }

  method MergeLogs(db: StateDB, p: Pool, jobs: seq<nat>, ghost c: Wave, ghost from: nat, ghost order: seq<nat>)
    requires c.jobs == jobs && Mergeable(c, p) && LogsRecorded(c.block, c.s0, c.before, db.logs)
    requires LogsNumbered(c.block, c.s0, from, order, db.logStart, db.logSize) && Elems(order) == c.before
    modifies db`logs, db`logStart, db`logSize
    ensures LogsRecorded(c.block, c.s0, c.before + Elems(jobs), db.logs)
    ensures LogsNumbered(c.block, c.s0, from, order + jobs, db.logStart, db.logSize)
  {
    hide Mergeable, VerdictLogs, LogsRecorded, LogsAt, LogsNumbered;
    assert c.before + Elems(jobs[..0]) == c.before;
    assert order + jobs[..0] == order;
    for q := 0 to |jobs|
      invariant LogsRecorded(c.block, c.s0, c.before + Elems(jobs[..q]), db.logs)
      invariant LogsNumbered(c.block, c.s0, from, order + jobs[..q], db.logStart, db.logSize)
    {
      ForkLogs(c, p, jobs[q]);
      assert jobs[..q + 1] == jobs[..q] + [jobs[q]];
      assert c.before + Elems(jobs[..q + 1]) == c.before + Elems(jobs[..q]) + {jobs[q]};
      assert order + jobs[..q + 1] == order + jobs[..q] + [jobs[q]];
      NotYetLogged(c, p, q);
      assert jobs[q] !in Elems(order) && jobs[q] !in Elems(jobs[..q]);
      ghost var logs, starts, size := db.logs, db.logStart, db.logSize;
      db.MergeParallelChildLogs(p.workers[p.forkOf[jobs[q]]].fork, jobs[q]);
      LogsRecordedAdd(c.block, c.s0, c.before + Elems(jobs[..q]), logs, jobs[q], db.logs);
      NumberNext(c.block, c.s0, from, order + jobs[..q], starts, size, jobs[q], db.logStart, db.logSize);
    }
    assert jobs[..|jobs|] == jobs;
  }

  lemma NotYetLogged(c: Wave, p: Pool, q: nat)
    requires Mergeable(c, p) && q < |c.jobs|
    ensures c.jobs[q] !in c.before + Elems(c.jobs[..q])
  {
    assert Ready(c.block, c.before, c.jobs[q]);
  }

  // Accounts once per fork, then the logs in ascending transaction order, then the
  // coinbase as the wave-start balance plus all deltas.
  method MergeWave(db: StateDB, p: Pool, jobs: seq<nat>, coinbase: Address, ghost c: Wave, ghost from: nat, ghost order: seq<nat>)
    requires c.jobs == jobs && c.block.coinbase == coinbase && c.base == db.accounts
    requires WaveOk(c) && Mergeable(c, p) && LogsRecorded(c.block, c.s0, c.before, db.logs)
    requires LogsNumbered(c.block, c.s0, from, order, db.logStart, db.logSize) && Elems(order) == c.before
    modifies db
    ensures Synced(c.block, c.s0, c.before + Elems(jobs), db.accounts)
    ensures LogsRecorded(c.block, c.s0, c.before + Elems(jobs), db.logs)
    ensures LogsNumbered(c.block, c.s0, from, order + jobs, db.logStart, db.logSize)
  {
    hide WaveOk, Mergeable, Merged, CoinbaseAfter, Synced, LogsRecorded, LogsNumbered;
    var coinbaseFinal := MergeForks(db, p, jobs, coinbase, c);
    MergeLogs(db, p, jobs, c, from, order);
    ghost var t := db.accounts;
    db.SetBalance(coinbase, coinbaseFinal);
    MergedIsSynced(c, t, Elems(jobs), db.accounts);
  }
}
