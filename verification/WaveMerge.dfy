// Folding the forks of a finished wave back into the shared state
// (core/state_processor.go and core/state/statedb.go).
module WaveMerge {
  import opened Base
  import opened Execution
  import opened WavePool

  // The parent state as MergeParallelChildAccounts leaves it: every dirty address takes
  // the child's account, a deleted one disappears, all others stay.
  ghost function Overlay(t: State, f: Fork): State {
    map a | a in t.Keys + f.accounts.Keys && (if a in f.merge then a in f.accounts else a in t) ::
      if a in f.merge then f.accounts[a] else t[a]
  }

  lemma OverlayGet(t: State, f: Fork, a: Address)
    ensures Get(Overlay(t, f), a) == if a in f.merge then Get(f.accounts, a) else Get(t, a)
  {
  }

  class StateDB {
    var accounts: State
    var logs: map<nat, seq<Log>>
    var logStart: map<nat, nat>   // the index of the first log of each transaction with logs
    var logSize: nat

    constructor (s: State)
      ensures accounts == s && logs == map[] && logStart == map[] && logSize == 0
    {
      accounts := s;
      logs := map[];
      logStart := map[];
      logSize := 0;
    }

    // Copies the dirty accounts of a fork, one address at a time.
    method MergeParallelChildAccounts(child: Fork)
      modifies this`accounts
      ensures accounts == Overlay(old(accounts), child)
    {
      var rest := child.merge;
      while rest != {}
        invariant rest <= child.merge
        invariant accounts == Overlay(old(accounts), child.(merge := child.merge - rest))
        decreases rest
      {
        var addr :| addr in rest;
        if addr in child.accounts {
          accounts := accounts[addr := child.accounts[addr]];
        } else {
          accounts := accounts - {addr};
        }
        rest := rest - {addr};
      }
      assert child.merge - rest == child.merge;
    }

    // Copies the logs of one transaction and continues the block-wide numbering.
    method MergeParallelChildLogs(child: Fork, i: nat)
      modifies this`logs, this`logStart, this`logSize
      ensures logSize == old(logSize) + |LogsAt(child.logs, i)|
      ensures LogsAt(child.logs, i) == [] ==> logs == old(logs) && logStart == old(logStart)
      ensures LogsAt(child.logs, i) != [] ==>
                logs == old(logs)[i := LogsAt(child.logs, i)] && logStart == old(logStart)[i := old(logSize)]
    {
      var ls := LogsAt(child.logs, i);
      if |ls| > 0 {
        logs, logStart := logs[i := ls], logStart[i := logSize];
        logSize := logSize + |ls|;
      }
    }

    method SetBalance(a: Address, balance: U256)
      modifies this`accounts
      ensures accounts == old(accounts)[a := Account(balance, Get(old(accounts), a).rest)]
    {
      accounts := accounts[a := Account(balance, Get(accounts, a).rest)];
    }
  }

  function LogsAt(logs: map<nat, seq<Log>>, i: nat): (r: seq<Log>) {
    if i in logs then logs[i] else []
  }

  // ----- What a partial merge has achieved.

  // The forks that ran the transactions of `done` are merged into t.
  ghost predicate Merged(c: Wave, done: set<nat>, t: State) {
    && SyncedAccounts(c.block, c.s0, c.before + done, t)
    && (forall a: Address :: a != c.block.coinbase && !DeclaredBy(c.block, done, a) ==> Get(t, a) == Get(c.base, a))
    && Get(t, c.block.coinbase).rest == Get(c.s0, c.block.coinbase).rest
  }

  // A fork and the forks merged before it never declare a common address.
  lemma OnlyOneDeclares(c: Wave, done: set<nat>, more: set<nat>, a: Address)
    requires WaveReady(c.block, c.jobs, c.before) && done !! more
    requires forall i :: i in done || i in more ==> i in c.jobs
    requires DeclaredBy(c.block, more, a)
    ensures !DeclaredBy(c.block, done, a)
    ensures forall p :: Frontier(c.block, c.before + (done + more), a, p) <==> Frontier(c.block, c.before + more, a, p)
  {
    var i :| i in more && i < |c.block.txs| && a in c.block.txs[i].decl;
    forall k | k in done && k < |c.block.txs| ensures a !in c.block.txs[k].decl {
      assert c.block.txs[i].decl !! c.block.txs[k].decl;
    }
  }

  lemma MergeAccount(c: Wave, done: set<nat>, t: State, f: Fork, more: set<nat>, a: Address, p: nat)
    requires WaveReady(c.block, c.jobs, c.before) && done !! more
    requires forall i :: i in done || i in more ==> i in c.jobs
    requires Merged(c, done, t) && ForkOk(c, f, more)
    requires a != c.block.coinbase && p <= |c.block.txs| && Frontier(c.block, c.before + (done + more), a, p)
    ensures Get(Overlay(t, f), a) == Get(StateBefore(c.block, c.s0, p), a)
  {
    OverlayGet(t, f, a);
    if DeclaredBy(c.block, more, a) {
      OnlyOneDeclares(c, done, more, a);
      assert Frontier(c.block, c.before + more, a, p);
    } else {
      forall k | 0 <= k < |c.block.txs| && a in c.block.txs[k].decl ensures k in c.before + done <==> k < p {
        assert k !in more;
      }
      assert Frontier(c.block, c.before + done, a, p);
    }
  }

  lemma MergeFork(c: Wave, done: set<nat>, t: State, f: Fork, more: set<nat>)
    requires WaveReady(c.block, c.jobs, c.before) && done !! more
    requires forall i :: i in done || i in more ==> i in c.jobs
    requires Merged(c, done, t) && ForkOk(c, f, more)
    ensures Merged(c, done + more, Overlay(t, f))
  {
    var u := Overlay(t, f);
    forall a: Address, p: nat | a != c.block.coinbase && p <= |c.block.txs| && Frontier(c.block, c.before + (done + more), a, p)
      ensures Get(u, a) == Get(StateBefore(c.block, c.s0, p), a)
    {
      MergeAccount(c, done, t, f, more, a, p);
    }
    forall a: Address | a != c.block.coinbase && !DeclaredBy(c.block, done + more, a)
      ensures Get(u, a) == Get(c.base, a)
    {
      assert !DeclaredBy(c.block, done, a) && !DeclaredBy(c.block, more, a);
      OverlayGet(t, f, a);
    }
    OverlayGet(t, f, c.block.coinbase);
  }

  // ----- The coinbase, counted once per fork.

  ghost function CoinbaseAfter(c: Wave, done: set<nat>): U256 {
    (Get(c.s0, c.block.coinbase).balance + FeeSum(c.block, c.s0, done, |c.block.txs|)) % TWO_256
  }

  function AddDelta(final: U256, base: U256, child: U256): (r: U256) {
    if child >= base then (final + (child - base)) % TWO_256 else (final - (base - child)) % TWO_256
  }

  lemma DeltaModular(x: nat, u: nat, v: nat, w: nat)
    ensures AddDelta((x + u) % TWO_256, (x + v) % TWO_256, (x + w) % TWO_256) == (x + u + w - v) % TWO_256
  {
    var f, b, h := (x + u) % TWO_256, (x + v) % TWO_256, (x + w) % TWO_256;
    assert AddDelta(f, b, h) == (f + h - b) % TWO_256;
    ModAbsorb(x + u, h - b);
    ModAbsorb(x + w, x + u - b);
    assert (f + h - b) % TWO_256 == (x + u + (x + w) - b) % TWO_256;
    assert x + v == b + TWO_256 * ((x + v) / TWO_256);
    assert (x + u + (x + w) - b) % TWO_256 == (x + u + w - v) % TWO_256;
  }

  // Adding one fork's balance change accounts for exactly the fees it collected.
  lemma CoinbaseDelta(c: Wave, done: set<nat>, more: set<nat>)
    requires done !! more && c.before !! done && c.before !! more
    ensures AddDelta(CoinbaseAfter(c, c.before + done), CoinbaseAfter(c, c.before), CoinbaseAfter(c, c.before + more))
            == CoinbaseAfter(c, c.before + (done + more))
  {
    var n, x := |c.block.txs|, Get(c.s0, c.block.coinbase).balance;
    FeeSumUnion(c.block, c.s0, c.before, done, more, n);
    assert c.before + done + more == c.before + (done + more);
    DeltaModular(x, FeeSum(c.block, c.s0, c.before + done, n), FeeSum(c.block, c.s0, c.before, n),
                 FeeSum(c.block, c.s0, c.before + more, n));
  }
}
