// Why the coinbase has to stay outside every declared address set: a fork copies the
// coinbase account whole, and only its balance is corrected after the merge.
module CoinbaseLimits {
  import opened Base
  import opened Execution
  import opened WavePool
  import opened WaveMerge

  // The declared set is complete, but may contain the coinbase; if it does not, the
  // transaction just credits it.
  ghost predicate Behaves(tx: Tx, coinbase: Address) {
    && (forall s: State :: StaysWithin(tx, coinbase, s))
    && (forall s: State, t: State :: AgreeOn(s, t, tx.decl) ==> SameVerdict(tx.run(s), tx.run(t), tx.decl))
  }

  ghost predicate StaysWithin(tx: Tx, coinbase: Address, s: State) {
    tx.run(s).Applied? ==>
      var o := tx.run(s);
      && o.gasUsed <= tx.gasLimit && o.dirty <= tx.decl + {coinbase}
      && (forall a: Address :: a !in o.dirty ==> Get(o.post, a) == Get(s, a))
      && (coinbase !in tx.decl ==> Get(o.post, coinbase) == Credit(Get(s, coinbase), o.fee))
  }

  function ForkAfter(tx: Tx, s: State): (f: Fork)
    requires tx.run(s).Applied?
  {
    Fork(tx.run(s).post, tx.run(s).dirty, map[])
  }

  // What the merge of two forks in block order leaves: both overlays, the two balance
  // differences, then SetBalance.
  ghost function MergeBoth(s: State, coinbase: Address, f0: Fork, f1: Fork): (t: State) {
    var base := Get(s, coinbase).balance;
    var merged := Overlay(Overlay(s, f0), f1);
    var final := AddDelta(AddDelta(base, base, Get(f0.accounts, coinbase).balance), base, Get(f1.accounts, coinbase).balance);
    merged[coinbase := Account(final, Get(merged, coinbase).rest)]
  }

  // Run side by side on two forks of s and merged, the two give what they give in order.
  ghost predicate MergesRight(t0: Tx, t1: Tx, coinbase: Address, s: State) {
    t0.run(s).Applied? ==>
      var aside, after := t1.run(s), t1.run(t0.run(s).post);
      && (aside.Applied? <==> after.Applied?)
      && (aside.Applied? && after.Applied? ==>
            && aside.gasUsed == after.gasUsed && aside.ok == after.ok && aside.logs == after.logs
            && SameAccounts(MergeBoth(s, coinbase, ForkAfter(t0, s), ForkAfter(t1, s)), after.post))
  }

  ghost predicate AllMergeRight(d0: set<Address>, d1: set<Address>, coinbase: Address, s: State) {
    forall t0: Tx, t1: Tx :: t0.decl == d0 && t1.decl == d1 && Behaves(t0, coinbase) && Behaves(t1, coinbase) ==>
      MergesRight(t0, t1, coinbase, s)
  }

  // ----- Nobody declares the coinbase: the merge is right.

  lemma MergeAt(t0: Tx, t1: Tx, coinbase: Address, s: State, a: Address)
    requires t0.decl !! t1.decl && coinbase !in t0.decl && coinbase !in t1.decl && Behaves(t0, coinbase) && Behaves(t1, coinbase)
    requires t0.run(s).Applied? && t1.run(s).Applied? && t1.run(t0.run(s).post).Applied? && a != coinbase
    ensures Get(MergeBoth(s, coinbase, ForkAfter(t0, s), ForkAfter(t1, s)), a) == Get(t1.run(t0.run(s).post).post, a)
  {
    hide Overlay, AddDelta;
    var mid := t0.run(s).post;
    assert StaysWithin(t0, coinbase, s) && StaysWithin(t1, coinbase, s) && StaysWithin(t1, coinbase, mid);
    assert AgreeOn(s, mid, t1.decl);
    OverlayGet(s, ForkAfter(t0, s), a);
    OverlayGet(Overlay(s, ForkAfter(t0, s)), ForkAfter(t1, s), a);
  }

  lemma MergeAtCoinbase(t0: Tx, t1: Tx, coinbase: Address, s: State)
    requires t0.decl !! t1.decl && coinbase !in t0.decl && coinbase !in t1.decl && Behaves(t0, coinbase) && Behaves(t1, coinbase)
    requires t0.run(s).Applied? && t1.run(s).Applied? && t1.run(t0.run(s).post).Applied?
    ensures Get(MergeBoth(s, coinbase, ForkAfter(t0, s), ForkAfter(t1, s)), coinbase) == Get(t1.run(t0.run(s).post).post, coinbase)
  {
    hide Overlay, AddDelta, Credit;
    var acct, mid, fee0, fee1 := Get(s, coinbase), t0.run(s).post, t0.run(s).fee, t1.run(s).fee;
    assert StaysWithin(t0, coinbase, s) && StaysWithin(t1, coinbase, s) && StaysWithin(t1, coinbase, mid);
    assert AgreeOn(s, mid, t1.decl);
    OverlayGet(s, ForkAfter(t0, s), coinbase);
    OverlayGet(Overlay(s, ForkAfter(t0, s)), ForkAfter(t1, s), coinbase);
    BothFees(acct, fee0, fee1);
  }

  lemma BothFees(acct: Account, fee0: nat, fee1: nat)
    ensures var x := acct.balance;
            && AddDelta(AddDelta(x, x, Credit(acct, fee0).balance), x, Credit(acct, fee1).balance) == Credit(Credit(acct, fee0), fee1).balance
            && Credit(acct, fee0).rest == Credit(acct, fee1).rest == Credit(Credit(acct, fee0), fee1).rest == acct.rest
  {
    hide AddDelta;
    DeltaModular(acct.balance, 0, 0, fee0);
    DeltaModular(acct.balance, fee0, 0, fee1);
    CreditTwice(acct, fee0, fee1);
  }

  lemma UndeclaredMergesRight(t0: Tx, t1: Tx, coinbase: Address, s: State)
    requires t0.decl !! t1.decl && coinbase !in t0.decl && coinbase !in t1.decl && Behaves(t0, coinbase) && Behaves(t1, coinbase)
    ensures MergesRight(t0, t1, coinbase, s)
  {
    hide MergeBoth;
    if t0.run(s).Applied? {
      var mid := t0.run(s).post;
      assert StaysWithin(t0, coinbase, s);
      assert AgreeOn(s, mid, t1.decl);
      if t1.run(s).Applied? && t1.run(mid).Applied? {
        forall a: Address ensures Get(MergeBoth(s, coinbase, ForkAfter(t0, s), ForkAfter(t1, s)), a) == Get(t1.run(mid).post, a) {
          if a == coinbase {
            MergeAtCoinbase(t0, t1, coinbase, s);
          } else {
            MergeAt(t0, t1, coinbase, s, a);
          }
        }
      }
    }
  }

  // ----- The first one declares it: a write is lost.

  // Sends from the coinbase account: bumps its nonce.
  function SendFromCoinbase(decl: set<Address>, coinbase: Address): (tx: Tx) {
    Tx(decl, 1, (s: State) =>
      Applied(s[coinbase := Account(Get(s, coinbase).balance, Get(s, coinbase).rest + 1)], {coinbase}, 1, 0, true, []))
  }

  // Pays the coinbase one unit and does nothing else.
  function PayCoinbase(decl: set<Address>, coinbase: Address): (tx: Tx) {
    Tx(decl, 1, (s: State) => Applied(s[coinbase := Credit(Get(s, coinbase), 1)], {coinbase}, 1, 1, true, []))
  }

  lemma PayBehaves(decl: set<Address>, coinbase: Address)
    ensures Behaves(PayCoinbase(decl, coinbase), coinbase)
  {
    var tx := PayCoinbase(decl, coinbase);
    forall x: State ensures StaysWithin(tx, coinbase, x) {
    }
    forall x: State, y: State | AgreeOn(x, y, decl) ensures SameVerdict(tx.run(x), tx.run(y), decl) {
      forall a | a in decl ensures Get(tx.run(x).post, a) == Get(tx.run(y).post, a) {
        assert Get(x, a) == Get(y, a);
      }
    }
  }

  lemma SendBehaves(decl: set<Address>, coinbase: Address)
    requires coinbase in decl
    ensures Behaves(SendFromCoinbase(decl, coinbase), coinbase)
  {
    var tx := SendFromCoinbase(decl, coinbase);
    forall x: State ensures StaysWithin(tx, coinbase, x) {
    }
    forall x: State, y: State | AgreeOn(x, y, decl) ensures SameVerdict(tx.run(x), tx.run(y), decl) {
      assert Get(x, coinbase) == Get(y, coinbase);
    }
  }

  // The merge gets the coinbase balance right and loses the nonce.
  lemma DeclaredFirstLosesWrites(d0: set<Address>, d1: set<Address>, coinbase: Address, s: State)
    requires coinbase in d0
    ensures var t0, t1 := SendFromCoinbase(d0, coinbase), PayCoinbase(d1, coinbase);
            var inOrder := t1.run(t0.run(s).post).post;
            var merged := MergeBoth(s, coinbase, ForkAfter(t0, s), ForkAfter(t1, s));
            && Behaves(t0, coinbase) && Behaves(t1, coinbase)
            && Get(merged, coinbase).balance == Get(inOrder, coinbase).balance
            && Get(merged, coinbase).rest + 1 == Get(inOrder, coinbase).rest
  {
    hide Overlay, AddDelta, Behaves;
    SendBehaves(d0, coinbase);
    PayBehaves(d1, coinbase);
    MergeLosesNonce(d0, d1, coinbase, s);
  }

  lemma MergeLosesNonce(d0: set<Address>, d1: set<Address>, coinbase: Address, s: State)
    ensures var t0, t1 := SendFromCoinbase(d0, coinbase), PayCoinbase(d1, coinbase);
            var inOrder := t1.run(t0.run(s).post).post;
            var merged := MergeBoth(s, coinbase, ForkAfter(t0, s), ForkAfter(t1, s));
            && Get(merged, coinbase).balance == Get(inOrder, coinbase).balance
            && Get(merged, coinbase).rest + 1 == Get(inOrder, coinbase).rest
  {
    hide Overlay, AddDelta;
    var f0, f1 := ForkAfter(SendFromCoinbase(d0, coinbase), s), ForkAfter(PayCoinbase(d1, coinbase), s);
    assert f1.merge == {coinbase};
    OverlayGet(Overlay(s, f0), f1, coinbase);
    DeltaModular(Get(s, coinbase).balance, 0, 0, 0);
    DeltaModular(Get(s, coinbase).balance, 0, 0, 1);
  }

  // ----- The second one declares it: a read is stale.

  // A payout that is valid at one coinbase balance only.
  function SpendExactly(decl: set<Address>, coinbase: Address, balance: U256): (tx: Tx) {
    Tx(decl, 1, (s: State) => if Get(s, coinbase).balance == balance then Applied(s, {}, 1, 0, true, []) else Rejected(0, false))
  }

  lemma SpendBehaves(decl: set<Address>, coinbase: Address, balance: U256)
    requires coinbase in decl
    ensures Behaves(SpendExactly(decl, coinbase, balance), coinbase)
  {
    var tx := SpendExactly(decl, coinbase, balance);
    forall x: State ensures StaysWithin(tx, coinbase, x) {
    }
    forall x: State, y: State | AgreeOn(x, y, decl) ensures SameVerdict(tx.run(x), tx.run(y), decl) {
      assert Get(x, coinbase) == Get(y, coinbase);
    }
  }

  // Applied in order, rejected on its fork, which has not seen the fee.
  lemma DeclaredSecondReadsStale(d0: set<Address>, d1: set<Address>, coinbase: Address, s: State)
    requires coinbase in d1
    ensures var t0, t1 := PayCoinbase(d0, coinbase), SpendExactly(d1, coinbase, Credit(Get(s, coinbase), 1).balance);
            && Behaves(t0, coinbase) && Behaves(t1, coinbase)
            && t0.run(s).Applied? && t1.run(t0.run(s).post).Applied? && t1.run(s).Rejected?
  {
    hide Behaves;
    PayBehaves(d0, coinbase);
    SpendBehaves(d1, coinbase, Credit(Get(s, coinbase), 1).balance);
    var x := Get(s, coinbase).balance;
    assert (x + 1) % TWO_256 == if x + 1 == TWO_256 then 0 else x + 1;
  }

  // Two transactions of one wave on two forks, whatever they do within their declared sets:
  // the merge is right if and only if neither declares the coinbase.
  lemma CoinbaseExact(d0: set<Address>, d1: set<Address>, coinbase: Address, s: State)
    requires d0 !! d1
    ensures AllMergeRight(d0, d1, coinbase, s) <==> coinbase !in d0 && coinbase !in d1
  {
    hide Behaves, MergeBoth, SameAccounts;
    if coinbase in d0 {
      DeclaredFirstLosesWrites(d0, d1, coinbase, s);
      var t0, t1 := SendFromCoinbase(d0, coinbase), PayCoinbase(d1, coinbase);
      Differ(MergeBoth(s, coinbase, ForkAfter(t0, s), ForkAfter(t1, s)), t1.run(t0.run(s).post).post, coinbase);
      assert !MergesRight(t0, t1, coinbase, s);
    } else if coinbase in d1 {
      DeclaredSecondReadsStale(d0, d1, coinbase, s);
      var t0, t1 := PayCoinbase(d0, coinbase), SpendExactly(d1, coinbase, Credit(Get(s, coinbase), 1).balance);
      assert !MergesRight(t0, t1, coinbase, s);
    } else {
      forall t0: Tx, t1: Tx | t0.decl == d0 && t1.decl == d1 && Behaves(t0, coinbase) && Behaves(t1, coinbase)
        ensures MergesRight(t0, t1, coinbase, s)
      {
        UndeclaredMergesRight(t0, t1, coinbase, s);
      }
    }
  }

  lemma Differ(s: State, t: State, a: Address)
    requires Get(s, a) != Get(t, a)
    ensures !SameAccounts(s, t)
  {
  }
}
