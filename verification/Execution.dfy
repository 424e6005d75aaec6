// What one transaction does to the account state, and the plain in-order execution
// of a block that every other way of running it is compared with.
module Execution {
  import opened Base

  // `rest` stands for nonce, code and storage.
  datatype Account = Account(balance: U256, rest: nat)

  const EMPTY_ACCOUNT := Account(0, 0)

  // An absent address is an empty account.
  type State = map<Address, Account>

  datatype Log = Log(payload: nat)

  // Rejected: the transaction makes the block invalid. `gasBought` tells whether the
  // pool had already been charged (errors after buyGas) or not (errors before it).
  // Applied: `dirty` are the journalled addresses, `fee` the coinbase payment.
  datatype Outcome =
    | Rejected(error: nat, gasBought: bool)
    | Applied(post: State, dirty: set<Address>, gasUsed: nat, fee: nat, ok: bool, logs: seq<Log>)

  datatype Tx = Tx(decl: set<Address>, gasLimit: nat, run: State -> Outcome)

  datatype Block = Block(txs: seq<Tx>, coinbase: Address, gasLimit: nat)

  datatype Receipt = Receipt(index: nat, ok: bool, gasUsed: nat, cumulativeGasUsed: nat, logs: seq<Log>)

  function Get(s: State, a: Address): (r: Account) {
    if a in s then s[a] else EMPTY_ACCOUNT
  }

  // AddBalance on a 256-bit balance.
  function Credit(acct: Account, amount: nat): (r: Account) {
    Account((acct.balance + amount) % TWO_256, acct.rest)
  }

  ghost predicate AgreeOn(s: State, t: State, addrs: set<Address>) {
    forall a :: a in addrs ==> Get(s, a) == Get(t, a)
  }

  ghost predicate SameAccounts(s: State, t: State) {
    forall a: Address :: Get(s, a) == Get(t, a)
  }

  // Two outcomes an observer of `addrs` cannot tell apart.
  ghost predicate SameVerdict(o: Outcome, q: Outcome, addrs: set<Address>) {
    if o.Rejected? then o == q
    else q.Applied? && o.gasUsed == q.gasUsed && o.fee == q.fee && o.ok == q.ok && o.logs == q.logs &&
         AgreeOn(o.post, q.post, addrs)
  }

  ghost predicate StaysInFootprint(tx: Tx, coinbase: Address, s: State) {
    tx.run(s).Applied? ==>
      var o := tx.run(s);
      && o.gasUsed <= tx.gasLimit
      && o.dirty <= tx.decl + {coinbase}
      && (forall a: Address :: a !in o.dirty ==> Get(o.post, a) == Get(s, a))
      && Get(o.post, coinbase) == Credit(Get(s, coinbase), o.fee)
  }

  // The declared set is complete: the transaction reads only declared accounts, writes
  // only declared accounts, and otherwise only credits the coinbase, which nobody declares.
  ghost predicate RespectsFootprint(tx: Tx, coinbase: Address) {
    && coinbase !in tx.decl
    && (forall s: State :: StaysInFootprint(tx, coinbase, s))
    && (forall s: State, t: State :: AgreeOn(s, t, tx.decl) ==> SameVerdict(tx.run(s), tx.run(t), tx.decl))
  }

  ghost predicate Footprints(b: Block) {
    forall i :: 0 <= i < |b.txs| ==> RespectsFootprint(b.txs[i], b.coinbase)
  }

  ghost function Decls(b: Block): seq<set<Address>> {
    seq(|b.txs|, i requires 0 <= i < |b.txs| => b.txs[i].decl)
  }

  // The state before transaction p of an in-order run in which a rejected transaction
  // changes nothing. Up to the first rejection this is the in-order run of the block.
  ghost function StateBefore(b: Block, s0: State, p: nat): State
    requires p <= |b.txs|
  {
    if p == 0 then s0
    else
      var prev := StateBefore(b, s0, p - 1);
      match b.txs[p - 1].run(prev)
      case Applied(post, _, _, _, _, _) => post
      case Rejected(_, _) => prev
  }

  ghost function Verdict(b: Block, s0: State, i: nat): Outcome
    requires i < |b.txs|
  {
    b.txs[i].run(StateBefore(b, s0, i))
  }

  ghost predicate Accepted(b: Block, s0: State, i: nat)
    requires i < |b.txs|
  {
    Verdict(b, s0, i).Applied?
  }

  ghost function FeeOf(b: Block, s0: State, i: nat): nat
    requires i < |b.txs|
  {
    if Accepted(b, s0, i) then Verdict(b, s0, i).fee else 0
  }

  ghost function GasOf(b: Block, s0: State, i: nat): nat
    requires i < |b.txs|
  {
    if Accepted(b, s0, i) then Verdict(b, s0, i).gasUsed else 0
  }

  // The fees of the transactions of `done` among the first p.
  ghost function FeeSum(b: Block, s0: State, done: set<nat>, p: nat): nat
    requires p <= |b.txs|
  {
    if p == 0 then 0
    else FeeSum(b, s0, done, p - 1) + (if p - 1 in done then FeeOf(b, s0, p - 1) else 0)
  }

  lemma {:induction false} FeeSumAdd(b: Block, s0: State, done: set<nat>, i: nat, p: nat)
    requires i < |b.txs| && p <= |b.txs| && i !in done
    ensures FeeSum(b, s0, done + {i}, p) == FeeSum(b, s0, done, p) + (if i < p then FeeOf(b, s0, i) else 0)
  {
    if p > 0 {
      FeeSumAdd(b, s0, done, i, p - 1);
    }
  }

  lemma {:induction false} FeeSumUnion(b: Block, s0: State, x: set<nat>, y: set<nat>, z: set<nat>, p: nat)
    requires p <= |b.txs| && y !! z && x !! y && x !! z
    ensures FeeSum(b, s0, x + y + z, p) + FeeSum(b, s0, x, p) == FeeSum(b, s0, x + y, p) + FeeSum(b, s0, x + z, p)
  {
    if p > 0 {
      FeeSumUnion(b, s0, x, y, z, p - 1);
    }
  }

  // ----- The simulation invariant.

  // Of the transactions that declare a, the executed ones are exactly those below p.
  ghost predicate Frontier(b: Block, done: set<nat>, a: Address, p: nat) {
    forall k :: 0 <= k < |b.txs| && a in b.txs[k].decl ==> (k in done <==> k < p)
  }

  // A state in which the transactions of `done` have run, in some order that never
  // inverts a conflict: every account holds what the in-order run gives it at its own
  // frontier, and the coinbase holds the fees collected so far.
  ghost predicate Synced(b: Block, s0: State, done: set<nat>, t: State) {
    && SyncedAccounts(b, s0, done, t)
    && Get(t, b.coinbase) == Credit(Get(s0, b.coinbase), FeeSum(b, s0, done, |b.txs|))
  }

  ghost predicate SyncedAccounts(b: Block, s0: State, done: set<nat>, t: State) {
    forall a: Address, p: nat :: a != b.coinbase && p <= |b.txs| && Frontier(b, done, a, p) ==>
      Get(t, a) == Get(StateBefore(b, s0, p), a)
  }

  // Transaction i may run next: everything it depends on is done, nothing that
  // depends on it is.
  ghost predicate Ready(b: Block, done: set<nat>, i: nat) {
    && i < |b.txs| && i !in done
    && (forall k :: 0 <= k < |b.txs| && k != i && b.txs[k].decl * b.txs[i].decl != {} ==> (k in done <==> k < i))
  }

  lemma {:induction false} Untouched(b: Block, s0: State, a: Address, i: nat, p: nat)
    requires Footprints(b) && i <= p <= |b.txs| && a != b.coinbase
    requires forall k :: i <= k < p ==> a !in b.txs[k].decl
    ensures Get(StateBefore(b, s0, p), a) == Get(StateBefore(b, s0, i), a)
    decreases p
  {
    if i < p {
      Untouched(b, s0, a, i, p - 1);
      assert StaysInFootprint(b.txs[p - 1], b.coinbase, StateBefore(b, s0, p - 1));
    }
  }

  lemma ReadyFrontier(b: Block, done: set<nat>, i: nat, a: Address)
    requires Ready(b, done, i) && a in b.txs[i].decl
    ensures Frontier(b, done, a, i)
  {
    forall k | 0 <= k < |b.txs| && a in b.txs[k].decl ensures k in done <==> k < i {
      assert a in b.txs[k].decl * b.txs[i].decl;
    }
  }

  // A ready transaction behaves as in the in-order run, wherever it runs.
  lemma ReadyVerdict(b: Block, s0: State, done: set<nat>, t: State, i: nat)
    requires Footprints(b) && Synced(b, s0, done, t) && Ready(b, done, i)
    ensures SameVerdict(Verdict(b, s0, i), b.txs[i].run(t), b.txs[i].decl)
    ensures b.txs[i].run(t).Applied? <==> Accepted(b, s0, i)
  {
    forall a | a in b.txs[i].decl ensures Get(StateBefore(b, s0, i), a) == Get(t, a) {
      ReadyFrontier(b, done, i, a);
    }
    assert AgreeOn(StateBefore(b, s0, i), t, b.txs[i].decl);
  }

  lemma CreditTwice(acct: Account, x: nat, y: nat)
    ensures Credit(Credit(acct, x), y) == Credit(acct, x + y)
  {
    ModAbsorb(acct.balance + x, y);
  }

  lemma ModAbsorb(x: int, y: int)
    ensures (x % TWO_256 + y) % TWO_256 == (x + y) % TWO_256
  {
  }

  lemma NoToucherAbove(b: Block, done: set<nat>, i: nat, a: Address, p: nat)
    requires Ready(b, done, i) && a in b.txs[i].decl
    requires p <= |b.txs| && Frontier(b, done + {i}, a, p)
    ensures i < p && forall k :: i + 1 <= k < p ==> a !in b.txs[k].decl
  {
    assert i in done + {i};
    forall k | i + 1 <= k < p ensures a !in b.txs[k].decl {
      var both := b.txs[k].decl * b.txs[i].decl;
      assert a in b.txs[k].decl <==> a in both;
    }
  }

  lemma ReadyStepAccount(b: Block, s0: State, done: set<nat>, t: State, i: nat, a: Address, p: nat)
    requires Footprints(b) && Synced(b, s0, done, t) && Ready(b, done, i)
    requires b.txs[i].run(t).Applied?
    requires a != b.coinbase && p <= |b.txs| && Frontier(b, done + {i}, a, p)
    ensures Get(b.txs[i].run(t).post, a) == Get(StateBefore(b, s0, p), a)
  {
    var tx := b.txs[i];
    assert StaysInFootprint(tx, b.coinbase, t);
    if a in tx.decl {
      ReadyVerdict(b, s0, done, t, i);
      NoToucherAbove(b, done, i, a, p);
      Untouched(b, s0, a, i + 1, p);
    } else {
      assert Frontier(b, done, a, p);
    }
  }

  lemma ReadyStepCoinbase(b: Block, s0: State, done: set<nat>, t: State, i: nat)
    requires Footprints(b) && Synced(b, s0, done, t) && Ready(b, done, i)
    requires b.txs[i].run(t).Applied?
    ensures Get(b.txs[i].run(t).post, b.coinbase) == Credit(Get(s0, b.coinbase), FeeSum(b, s0, done + {i}, |b.txs|))
  {
    hide Credit, FeeSum;
    ReadyVerdict(b, s0, done, t, i);
    assert StaysInFootprint(b.txs[i], b.coinbase, t);
    FeeSumAdd(b, s0, done, i, |b.txs|);
    CreditTwice(Get(s0, b.coinbase), FeeSum(b, s0, done, |b.txs|), b.txs[i].run(t).fee);
  }

  // Running a ready transaction extends the simulation by that transaction.
  lemma ReadyStep(b: Block, s0: State, done: set<nat>, t: State, i: nat)
    requires Footprints(b) && Synced(b, s0, done, t) && Ready(b, done, i)
    requires b.txs[i].run(t).Applied?
    ensures Synced(b, s0, done + {i}, b.txs[i].run(t).post)
  {
    hide Footprints, Ready, Frontier, Get, FeeSum, Credit, StateBefore;
    assert i < |b.txs| by { ReadyInRange(b, done, i); }
    var o := b.txs[i].run(t);
    forall a: Address, p: nat | a != b.coinbase && p <= |b.txs| && Frontier(b, done + {i}, a, p)
      ensures Get(o.post, a) == Get(StateBefore(b, s0, p), a)
    {
      ReadyStepAccount(b, s0, done, t, i, a, p);
    }
    ReadyStepCoinbase(b, s0, done, t, i);
  }

  lemma ReadyInRange(b: Block, done: set<nat>, i: nat)
    requires Ready(b, done, i)
    ensures i < |b.txs| && i !in done
  {
  }

  lemma {:induction false} FeeSumEmpty(b: Block, s0: State, p: nat)
    requires p <= |b.txs|
    ensures FeeSum(b, s0, {}, p) == 0
  {
    if p > 0 {
      FeeSumEmpty(b, s0, p - 1);
    }
  }

  lemma SyncedAtStart(b: Block, s0: State)
    requires Footprints(b)
    ensures Synced(b, s0, {}, s0)
  {
    FeeSumEmpty(b, s0, |b.txs|);
    forall a: Address, p: nat | a != b.coinbase && p <= |b.txs| && Frontier(b, {}, a, p)
      ensures Get(s0, a) == Get(StateBefore(b, s0, p), a)
    {
      Untouched(b, s0, a, 0, p);
    }
  }

  // Two states with the same transactions done agree on every account.
  lemma SyncedUnique(b: Block, s0: State, s: State, t: State)
    requires Synced(b, s0, AllTxs(b), s) && Synced(b, s0, AllTxs(b), t)
    ensures SameAccounts(s, t)
  {
    forall a: Address ensures Get(s, a) == Get(t, a) {
      if a != b.coinbase {
        assert Frontier(b, AllTxs(b), a, |b.txs|);
      }
    }
  }

  ghost function AllTxs(b: Block): set<nat> {
    IndexSet(|b.txs|)
  }

  ghost function IndexSet(n: nat): (r: set<nat>)
    ensures forall i: nat :: i in r <==> i < n
  {
    if n == 0 then {} else IndexSet(n - 1) + {n - 1}
  }
}
