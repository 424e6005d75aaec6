// The fee machine under the abstract transaction: what buying gas, refunding and paying
// the tip add to a call keeps within the footprint that parallel execution relies on.
module MessageFootprint {
  import opened Base
  import opened Balances
  import opened GasSchedule
  import Execution
  import opened StateTransition

  // The balances of a state.
  ghost function BalancesOf(s: Execution.State): World {
    map a | a in s :: s[a].balance
  }

  // The call changes balances of declared accounts only.
  ghost predicate CallStaysIn(evm: Evm, decl: set<Address>) {
    forall w: World, g: nat, a: Address :: a !in decl ==> Bal(evm(w, g).world, a) == Bal(w, a)
  }

  // The outcome reports the message's gas and tip, its post state has the balances w', the
  // call's other effects are on declared accounts, and the journal misses no change to
  // those or to the coinbase.
  ghost predicate Reports(o: Execution.Outcome, decl: set<Address>, coinbase: Address, s: Execution.State, w': World,
                          usedGas: nat, tip: nat) {
    && o.Applied? && o.gasUsed == usedGas && o.fee == tip && o.dirty <= decl + {coinbase}
    && (forall a: Address :: Execution.Get(o.post, a).balance == Bal(w', a))
    && (forall a: Address :: a !in decl ==> Execution.Get(o.post, a).rest == Execution.Get(s, a).rest)
    && (forall a: Address :: a in decl + {coinbase} && a !in o.dirty ==> Execution.Get(o.post, a) == Execution.Get(s, a))
  }

  // A transaction whose outcome on s is that of a settled message respects its footprint
  // there: bounded gas, no change elsewhere, the coinbase credited with exactly the tip.
  lemma SettledStaysInFootprint(p: Params, msg: Message, env: Env, evm: Evm, tx: Execution.Tx, s: Execution.State, w': World,
                                r: Result)
    requires Positive(p) && WellPriced(msg, env) && Purchased(p, msg, env, BalancesOf(s))
    requires tx.gasLimit == msg.gasLimit && msg.from in tx.decl && env.coinbase !in tx.decl && CallStaysIn(evm, tx.decl)
    requires GasSettled(p, msg, env, evm, BalancesOf(s), r)
    requires EtherSettled(p, msg, env, evm, BalancesOf(s), w', r.usedGas)
    requires Reports(tx.run(s), tx.decl, env.coinbase, s, w', r.usedGas, Cost(r.usedGas, Tip(msg, env)))
    ensures Execution.StaysInFootprint(tx, env.coinbase, s)
  {
    hide Cost, Total, Charged, Intrinsic, Floor, Upfront, Tip;
    var w, o := BalancesOf(s), tx.run(s);
    forall a: Address | a !in tx.decl ensures Bal(CallOf(p, msg, env, evm, w).world, a) == Bal(w, a) {
      OnlySenderBuys(p, msg, env, w, a);
    }
    forall a: Address ensures Bal(w, a) == Execution.Get(s, a).balance {
    }
    var fee := Cost(r.usedGas, Tip(msg, env));
    assert Bal(w', env.coinbase) == Bal(w, env.coinbase) + fee;
    assert Execution.Get(o.post, env.coinbase) == Execution.Credit(Execution.Get(s, env.coinbase), o.fee);
  }

  lemma OnlySenderBuys(p: Params, msg: Message, env: Env, w: World, a: Address)
    requires a != msg.from
    ensures Bal(Bought(p, msg, env, w), a) == Bal(w, a)
  {
    hide Upfront;
  }
}
