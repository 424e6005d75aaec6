// One message (core/state_transition.go): the checks, the gas purchase, the refund, the
// data floor and the fee payments, with 64-bit gas and 256-bit balances.
module StateTransition {
  import opened Base
  import opened Balances
  import opened GasSchedule

  // Legacy and access-list transactions name one price, the later types a tip and a cap.
  datatype Fees = SinglePrice(price: nat) | FeeMarket(tip: nat, cap: nat)

  // `sender` is None when the signature does not recover.
  datatype SignedTx = SignedTx(
    sender: Option<Address>, to: Option<Address>, nonce: U64, value: nat, gasLimit: U64, fees: Fees, data: seq<Byte>,
    accessKeys: Option<seq<nat>>, blobGasFeeCap: nat, blobHashes: Option<seq<bool>>, authorizations: Option<nat>)

  datatype Message = Message(
    from: Address, to: Option<Address>, nonce: U64, value: nat, gasLimit: U64,
    gasPrice: nat, gasFeeCap: nat, gasTipCap: nat, data: seq<Byte>,
    accessKeys: Option<seq<nat>>,         // storage keys of each access list entry
    blobGasFeeCap: nat,
    blobHashes: Option<seq<bool>>,        // versioned hashes: is the version valid?
    authorizations: Option<nat>)          // length of the authorization list

  datatype Env = Env(
    isHomestead: bool, isIstanbul: bool, isLondon: bool, isShanghai: bool, isCancun: bool, isPrague: bool,
    isOsaka: bool, baseFee: nat, blobBaseFee: nat, coinbase: Address)

  datatype Error =
    | NonceTooHigh | NonceTooLow | NonceMax | SenderNoEOA
    | FeeCapVeryHigh | TipVeryHigh | TipAboveFeeCap | FeeCapTooLow
    | BlobTxCreate | MissingBlobHashes | TooManyBlobs | BadBlobHash | BlobFeeCapTooLow
    | SetCodeTxCreate | EmptyAuthList | GasLimitTooHigh
    | InsufficientFunds | GasLimitReached
    | GasUintOverflow | IntrinsicGasTooLow | FloorDataGasTooLow
    | InsufficientFundsForTransfer | MaxInitCodeSizeExceeded

  datatype Result = Rejected(error: Error) | Panicked | Executed(usedGas: U64, maxUsedGas: U64)

  // What a call or create leaves behind: balances, unused gas, the refund counter.
  datatype EvmResult = EvmResult(world: World, gasLeft: nat, refund: U64)

  type Evm = (World, nat) -> EvmResult

  // The interpreter moves ether around but neither makes nor burns any, and never
  // returns more gas than it was given.
  ghost predicate Conserving(evm: Evm) {
    forall w: World, g: nat :: Total(evm(w, g).world) == Total(w) && evm(w, g).gasLeft <= g
  }

  // ----- TransactionToMessage.

  // GasFeeCap, which is also the GasPrice of every transaction type.
  function FeeCap(fees: Fees): (cap: nat) {
    match fees
    case SinglePrice(price) => price
    case FeeMarket(_, cap) => cap
  }

  function TipCap(fees: Fees): (tip: nat) {
    match fees
    case SinglePrice(price) => price
    case FeeMarket(tip, _) => tip
  }

  // What the later steps rely on: the price is within the cap, and not below the base fee
  // unless the cap is.
  ghost predicate WellPriced(msg: Message, env: Env) {
    && msg.gasPrice <= msg.gasFeeCap
    && (env.isLondon ==> msg.gasPrice == Min(msg.gasTipCap + env.baseFee, msg.gasFeeCap))
  }

  ghost predicate InForce(env: Env, baseFee: Option<nat>) {
    baseFee == if env.isLondon then Some(env.baseFee) else None
  }

  // The message carries everything of the transaction but its fees.
  ghost predicate CarriesOver(tx: SignedTx, msg: Message) {
    && tx.sender == Some(msg.from) && msg.to == tx.to && msg.nonce == tx.nonce && msg.value == tx.value
    && msg.gasLimit == tx.gasLimit && msg.data == tx.data && msg.accessKeys == tx.accessKeys
    && msg.blobGasFeeCap == tx.blobGasFeeCap && msg.blobHashes == tx.blobHashes && msg.authorizations == tx.authorizations
  }

  // TransactionToMessage, with the base fee of the header if there is one: fails exactly
  // for a bad signature; otherwise the message is well priced in every matching environment.
  // A single price is tip and cap in one; the price paid is the cap, or the tip on top of
  // the base fee where that is less.
  function TransactionToMessage(tx: SignedTx, baseFee: Option<nat>): (r: Option<Message>)
    ensures r.None? <==> tx.sender.None?
    ensures r.Some? ==> forall env: Env :: InForce(env, baseFee) ==> WellPriced(r.value, env)
    ensures r.Some? && baseFee.Some? ==> r.value.gasPrice <= r.value.gasTipCap + baseFee.value
    ensures r.Some? ==> CarriesOver(tx, r.value)
    ensures r.Some? && tx.fees.SinglePrice? ==> r.value.gasTipCap == r.value.gasFeeCap == r.value.gasPrice == tx.fees.price
    ensures r.Some? && tx.fees.FeeMarket? ==> r.value.gasTipCap == tx.fees.tip && r.value.gasFeeCap == tx.fees.cap
    ensures r.Some? && tx.fees.FeeMarket? ==>
              r.value.gasPrice == if baseFee.None? then tx.fees.cap else Min(tx.fees.tip + baseFee.value, tx.fees.cap)
  {
    var price := FeeCap(tx.fees);
    var effective :=
      if baseFee.None? then price
      else if TipCap(tx.fees) + baseFee.value > price then price
      else TipCap(tx.fees) + baseFee.value;
    if tx.sender.None? then None
    else Some(Message(tx.sender.value, tx.to, tx.nonce, tx.value, tx.gasLimit, effective, price, TipCap(tx.fees), tx.data,
                      tx.accessKeys, tx.blobGasFeeCap, tx.blobHashes, tx.authorizations))
  }

  // ----- What a message costs, without any word size.

  function BlobGas(p: Params, msg: Message): (r: U64) {
    if msg.blobHashes.Some? then Cost(|msg.blobHashes.value|, p.blobGasPerBlob) % TWO_64 else 0
  }

  // Every blob adds its gas, in uint64 arithmetic; without blobs there is none.
  lemma EachBlobPays(p: Params, msg: Message, hashes: seq<bool>, hash: bool)
    ensures BlobGas(p, msg.(blobHashes := None)) == BlobGas(p, msg.(blobHashes := Some([]))) == 0
    ensures BlobGas(p, msg.(blobHashes := Some(hashes + [hash]))) ==
              Add64(BlobGas(p, msg.(blobHashes := Some(hashes))), p.blobGasPerBlob)
  {
    OneUnitMore(|hashes|, p.blobGasPerBlob);
    Add64Mod(Cost(|hashes|, p.blobGasPerBlob), p.blobGasPerBlob);
  }

  ghost function BlobFee(p: Params, msg: Message, env: Env): nat {
    if env.isCancun then Cost(BlobGas(p, msg), env.blobBaseFee) else 0
  }

  // The balance the sender must show, and the amount actually charged up front.
  ghost function Required(p: Params, msg: Message, env: Env): nat {
    Cost(msg.gasLimit, msg.gasFeeCap) + msg.value +
    (if env.isCancun then Cost(BlobGas(p, msg), msg.blobGasFeeCap) else 0)
  }

  ghost function Upfront(p: Params, msg: Message, env: Env): nat {
    Cost(msg.gasLimit, msg.gasPrice) + BlobFee(p, msg, env)
  }

  // The fee checks of preCheck.
  ghost predicate FeesChecked(p: Params, msg: Message, env: Env) {
    && (env.isLondon ==> msg.gasFeeCap < TWO_256 && msg.gasTipCap <= msg.gasFeeCap && env.baseFee <= msg.gasFeeCap)
    && (env.isCancun && BlobGas(p, msg) > 0 ==> env.blobBaseFee <= msg.blobGasFeeCap)
  }

  // The checks of preCheck on blobs, authorizations and the per-transaction gas cap.
  ghost predicate ShapeChecked(p: Params, msg: Message, env: Env) {
    && (msg.blobHashes.Some? ==>
          && msg.to.Some? && msg.blobHashes.value != [] && false !in msg.blobHashes.value
          && (env.isOsaka ==> |msg.blobHashes.value| <= p.blobTxMaxBlobs))
    && (msg.authorizations.Some? ==> msg.to.Some? && msg.authorizations.value > 0)
    && (env.isOsaka ==> msg.gasLimit <= p.maxTxGas)
  }

  lemma CostMonotone(n: nat, a: nat, b: nat)
    requires a <= b
    ensures Cost(n, a) <= Cost(n, b)
  {
    MulMonotone(a, b, n);
    assert Cost(n, a) == a * n && Cost(n, b) == b * n;
  }

  // The charge never exceeds what the balance check covered, with the value to spare.
  lemma UpfrontCovered(p: Params, msg: Message, env: Env)
    requires WellPriced(msg, env) && FeesChecked(p, msg, env)
    ensures Upfront(p, msg, env) + msg.value <= Required(p, msg, env)
  {
    hide Cost;
    CostMonotone(msg.gasLimit, msg.gasPrice, msg.gasFeeCap);
    if env.isCancun {
      if BlobGas(p, msg) > 0 {
        CostMonotone(BlobGas(p, msg), env.blobBaseFee, msg.blobGasFeeCap);
      } else {
        NothingCosts(env.blobBaseFee);
        NothingCosts(msg.blobGasFeeCap);
      }
    }
  }

  // The balance asked for is the most the transaction can be charged under any base fees its
  // caps allow: no more than that, and all of it when both fees are at the caps.
  lemma RequiredIsWorstCase(p: Params, tx: SignedTx, env: Env)
    requires tx.sender.Some? && env.isLondon
    ensures var msg := TransactionToMessage(tx, Some(env.baseFee)).value;
            FeesChecked(p, msg, env) ==> Upfront(p, msg, env) + tx.value <= Required(p, msg, env)
    ensures var msg := TransactionToMessage(tx, Some(env.baseFee)).value;
            var dearest := env.(baseFee := msg.gasFeeCap, blobBaseFee := tx.blobGasFeeCap);
            var at := TransactionToMessage(tx, Some(msg.gasFeeCap)).value;
            Required(p, msg, env) == Required(p, at, dearest) == Upfront(p, at, dearest) + tx.value
  {
    hide Cost;
    var msg := TransactionToMessage(tx, Some(env.baseFee)).value;
    assert InForce(env, Some(env.baseFee));
    if FeesChecked(p, msg, env) {
      UpfrontCovered(p, msg, env);
    }
  }

  lemma NothingCosts(price: nat)
    ensures Cost(0, price) == 0
  {
  }

  lemma CostSplit(a: nat, b: nat, price: nat)
    ensures Cost(a + b, price) == Cost(a, price) + Cost(b, price)
  {
  }

  lemma CostOfSum(n: nat, a: nat, b: nat)
    ensures Cost(n, a + b) == Cost(n, a) + Cost(n, b)
  {
  }

  // ----- Gas: refund and floor.

  // The largest refund within the counter and the quotient of the gas used: from London on
  // the quotient of EIP-3529.
  function RefundOf(p: Params, env: Env, peak: nat, counter: nat): (r: nat)
    requires Positive(p)
    ensures r <= peak && r <= counter
    ensures env.isLondon ==> Cost(r, p.refundQuotientEIP3529) <= peak
    ensures env.isLondon && r < counter ==> Cost(r + 1, p.refundQuotientEIP3529) > peak
    ensures !env.isLondon ==> Cost(r, p.refundQuotient) <= peak
    ensures !env.isLondon && r < counter ==> Cost(r + 1, p.refundQuotient) > peak
  {
    var quotient := if env.isLondon then p.refundQuotientEIP3529 else p.refundQuotient;
    DivAtMost(peak, quotient);
    MulMonotone(Min(peak / quotient, counter), peak / quotient, quotient);
    Min(peak / quotient, counter)
  }

  lemma DivAtMost(n: nat, d: nat)
    requires d > 0
    ensures n / d <= n && Cost(n / d, d) <= n < Cost(n / d + 1, d)
  {
    var q := n / d;
    assert n == d * q + n % d;
    MulMonotone(1, d, q);
  }

  // Gas charged for an execution that used `peak` before refunds.
  ghost function Charged(p: Params, env: Env, peak: nat, counter: nat, floor: nat): nat
    requires Positive(p)
  {
    if env.isPrague then Max(floor, peak - RefundOf(p, env, peak, counter)) else peak - RefundOf(p, env, peak, counter)
  }

  // From Prague on the floor is always paid; otherwise exactly the refund is let off.
  lemma ChargedMeaning(p: Params, env: Env, peak: nat, counter: nat, floor: nat)
    requires Positive(p)
    ensures var charged, refund := Charged(p, env, peak, counter, floor), RefundOf(p, env, peak, counter);
            && (env.isPrague ==> floor <= charged)
            && (charged + refund == peak || (env.isPrague && charged == floor && peak < floor + refund))
            && (charged <= peak || charged == floor)
  {
    hide RefundOf;
  }

  // ----- Ether: the three balance changes around the call.

  // The sender after buying gas.
  ghost function Bought(p: Params, msg: Message, env: Env, w: World): World {
    Sub(w, msg.from, Upfront(p, msg, env) % TWO_256)
  }

  // The sender passed the fee checks and can pay.
  ghost predicate Purchased(p: Params, msg: Message, env: Env, w: World) {
    FeesChecked(p, msg, env) && Required(p, msg, env) <= Bal(w, msg.from)
  }

  // Everything preCheck asks: nonce, sender, fees, shape, balance, and room in the pool.
  ghost predicate PreChecked(p: Params, msg: Message, env: Env, w: World, gp: nat, senderNonce: U64, plainCode: bool) {
    && senderNonce == msg.nonce < TWO_64 - 1 && !plainCode
    && ShapeChecked(p, msg, env) && Purchased(p, msg, env, w) && msg.gasLimit <= gp
  }

  // Everything execute asks before the call, for a message made from a transaction.
  ghost predicate Admissible(p: Params, msg: Message, env: Env, w: World, gp: nat, senderNonce: U64, plainCode: bool) {
    && PreChecked(p, msg, env, w, gp, senderNonce, plainCode)
    && DataGas(p, msg.data, msg.to.None?, env.isHomestead, env.isIstanbul, env.isShanghai) < TWO_64
    && Intrinsic(p, msg, env) <= msg.gasLimit && FloorOf(p, msg, env) <= msg.gasLimit
    && (env.isShanghai && msg.to.None? ==> |msg.data| <= p.maxInitCodeSize)
  }

  // ----- Which error is reported: that of the first rule broken.

  datatype Rule = Rule(broken: bool, error: Error)

  // The rules of preCheck, in the order in which they are looked at.
  ghost function SenderRules(msg: Message, senderNonce: U64, plainCode: bool): seq<Rule> {
    [Rule(msg.nonce > senderNonce, NonceTooHigh),
     Rule(msg.nonce < senderNonce, NonceTooLow),
     Rule(senderNonce == TWO_64 - 1, NonceMax),
     Rule(plainCode, SenderNoEOA)]
  }

  ghost function FeeRules(msg: Message, env: Env): seq<Rule> {
    [Rule(env.isLondon && msg.gasFeeCap >= TWO_256, FeeCapVeryHigh),
     Rule(env.isLondon && msg.gasTipCap >= TWO_256, TipVeryHigh),
     Rule(env.isLondon && msg.gasTipCap > msg.gasFeeCap, TipAboveFeeCap),
     Rule(env.isLondon && env.baseFee > msg.gasFeeCap, FeeCapTooLow)]
  }

  ghost function BlobRules(p: Params, msg: Message, env: Env): seq<Rule> {
    [Rule(msg.blobHashes.Some? && msg.to.None?, BlobTxCreate),
     Rule(msg.blobHashes == Some([]), MissingBlobHashes),
     Rule(env.isOsaka && msg.blobHashes.Some? && |msg.blobHashes.value| > p.blobTxMaxBlobs, TooManyBlobs),
     Rule(msg.blobHashes.Some? && false in msg.blobHashes.value, BadBlobHash),
     Rule(env.isCancun && BlobGas(p, msg) > 0 && env.blobBaseFee > msg.blobGasFeeCap, BlobFeeCapTooLow)]
  }

  ghost function ListRules(p: Params, msg: Message, env: Env): seq<Rule> {
    [Rule(msg.authorizations.Some? && msg.to.None?, SetCodeTxCreate),
     Rule(msg.authorizations == Some(0), EmptyAuthList),
     Rule(env.isOsaka && msg.gasLimit > p.maxTxGas, GasLimitTooHigh)]
  }

  ghost function PurchaseRules(p: Params, msg: Message, env: Env, w: World, gp: nat): seq<Rule> {
    [Rule(Required(p, msg, env) > Bal(w, msg.from), InsufficientFunds),
     Rule(msg.gasLimit > gp, GasLimitReached)]
  }

  ghost function PreRules(p: Params, msg: Message, env: Env, w: World, gp: nat, senderNonce: U64, plainCode: bool): seq<Rule> {
    SenderRules(msg, senderNonce, plainCode) + FeeRules(msg, env) + BlobRules(p, msg, env) + ListRules(p, msg, env) +
    PurchaseRules(p, msg, env, w, gp)
  }

  // The rules of execute after the purchase, up to the call.
  ghost function CallRules(p: Params, msg: Message, env: Env, w: World): seq<Rule> {
    [Rule(DataGas(p, msg.data, msg.to.None?, env.isHomestead, env.isIstanbul, env.isShanghai) >= TWO_64, GasUintOverflow),
     Rule(Intrinsic(p, msg, env) > msg.gasLimit, IntrinsicGasTooLow),
     Rule(FloorOf(p, msg, env) >= TWO_64, GasUintOverflow),
     Rule(FloorOf(p, msg, env) > msg.gasLimit, FloorDataGasTooLow),
     Rule(msg.value > Bal(Bought(p, msg, env, w), msg.from), InsufficientFundsForTransfer),
     Rule(env.isShanghai && msg.to.None? && |msg.data| > p.maxInitCodeSize, MaxInitCodeSizeExceeded)]
  }

  ghost function Rules(p: Params, msg: Message, env: Env, w: World, gp: nat, senderNonce: U64, plainCode: bool): seq<Rule> {
    PreRules(p, msg, env, w, gp, senderNonce, plainCode) + CallRules(p, msg, env, w)
  }

  ghost predicate FirstBroken(rules: seq<Rule>, k: nat, e: Error) {
    k < |rules| && rules[k] == Rule(true, e) && forall j :: 0 <= j < k ==> !rules[j].broken
  }

  // `err` is what these rules, looked at in order, come to.
  ghost predicate Decides(rules: seq<Rule>, err: Option<Error>) {
    if err.None? then forall j :: 0 <= j < |rules| ==> !rules[j].broken else exists k :: FirstBroken(rules, k, err.value)
  }

  lemma DecidedBy(rules: seq<Rule>, k: nat, e: Error)
    requires FirstBroken(rules, k, e)
    ensures Decides(rules, Some(e))
  {
  }

  lemma NoneBroken(rules: seq<Rule>)
    requires forall j :: 0 <= j < |rules| ==> !rules[j].broken
    ensures Decides(rules, None)
  {
  }

  lemma DecidesOnce(rules: seq<Rule>, a: Option<Error>, b: Option<Error>)
    requires Decides(rules, a) && Decides(rules, b)
    ensures a == b
  {
    if a.Some? && b.Some? {
      var k :| FirstBroken(rules, k, a.value);
      var j :| FirstBroken(rules, j, b.value);
    }
  }

  // More rules do not change a rejection; after none they decide alone.
  lemma DecidedInTurn(first: seq<Rule>, second: seq<Rule>, err: Option<Error>)
    ensures err.Some? && Decides(first, err) ==> Decides(first + second, err)
    ensures Decides(first, None) && Decides(second, err) ==> Decides(first + second, err)
  {
    var all := first + second;
    if err.Some? && Decides(first, err) {
      var k :| FirstBroken(first, k, err.value);
      assert FirstBroken(all, k, err.value);
    }
    if Decides(first, None) && Decides(second, err) {
      if err.Some? {
        var k :| FirstBroken(second, k, err.value);
        assert FirstBroken(all, |first| + k, err.value);
      }
    }
  }

  // One more group of rules, looked at only when the groups before are kept.
  lemma NextGroup(first: seq<Rule>, second: seq<Rule>, a: Option<Error>, b: Option<Error>)
    requires Decides(first, a) && (if a.None? then Decides(second, b) else b == a)
    ensures Decides(first + second, b)
  {
    hide Decides;
    DecidedInTurn(first, second, b);
  }

  // A message keeps all rules of preCheck exactly when it is checked, paid for and has room.
  lemma KeepsPreRules(p: Params, msg: Message, env: Env, w: World, gp: nat, senderNonce: U64, plainCode: bool)
    ensures Decides(PreRules(p, msg, env, w, gp, senderNonce, plainCode), None) <==>
              PreChecked(p, msg, env, w, gp, senderNonce, plainCode)
  {
    hide Required, BlobGas, Bal;
    var a, b, c := SenderRules(msg, senderNonce, plainCode), FeeRules(msg, env), BlobRules(p, msg, env);
    var d, e := ListRules(p, msg, env), PurchaseRules(p, msg, env, w, gp);
    KeepsBoth(a, b);
    KeepsBoth(a + b, c);
    KeepsBoth(a + b + c, d);
    KeepsBoth(a + b + c + d, e);
    assert Decides(a, None) <==> !a[0].broken && !a[1].broken && !a[2].broken && !a[3].broken;
    assert Decides(b, None) <==> !b[0].broken && !b[1].broken && !b[2].broken && !b[3].broken;
    assert Decides(c, None) <==> !c[0].broken && !c[1].broken && !c[2].broken && !c[3].broken && !c[4].broken;
    assert Decides(d, None) <==> !d[0].broken && !d[1].broken && !d[2].broken;
    assert Decides(e, None) <==> !e[0].broken && !e[1].broken;
  }

  lemma KeepsBoth(first: seq<Rule>, second: seq<Rule>)
    ensures Decides(first + second, None) <==> Decides(first, None) && Decides(second, None)
  {
    var all := first + second;
    assert forall j :: 0 <= j < |first| ==> all[j] == first[j];
    assert forall j :: 0 <= j < |second| ==> all[|first| + j] == second[j];
  }

  ghost function Intrinsic(p: Params, msg: Message, env: Env): nat {
    (DataGas(p, msg.data, msg.to.None?, env.isHomestead, env.isIstanbul, env.isShanghai) +
     ListGas(p, msg.accessKeys, msg.authorizations)) % TWO_64
  }

  ghost function FloorOf(p: Params, msg: Message, env: Env): nat {
    if env.isPrague then Floor(p, msg.data) else 0
  }

  // The call as execute makes it: with the gas left after the intrinsic cost.
  ghost function CallOf(p: Params, msg: Message, env: Env, evm: Evm, w: World): EvmResult
    requires Intrinsic(p, msg, env) <= msg.gasLimit
  {
    evm(Bought(p, msg, env, w), msg.gasLimit - Intrinsic(p, msg, env))
  }

  // Used gas is the peak minus the capped refund, at least the floor, at most the limit.
  ghost predicate GasSettled(p: Params, msg: Message, env: Env, evm: Evm, w: World, r: Result)
    requires Positive(p)
  {
    && r.Executed? && Intrinsic(p, msg, env) <= msg.gasLimit && FloorOf(p, msg, env) <= msg.gasLimit
    && var call := CallOf(p, msg, env, evm, w);
       && call.gasLeft <= msg.gasLimit
       && var peak := msg.gasLimit - call.gasLeft;
          && r.usedGas == Charged(p, env, peak, call.refund, FloorOf(p, msg, env))
          && r.maxUsedGas == Max(FloorOf(p, msg, env), peak)
          && r.usedGas <= r.maxUsedGas <= msg.gasLimit
  }

  // The sender pays used gas at the effective price and the blob fee on top of the effects
  // of the call, the coinbase gets the tip, and exactly base fee and blob fee disappear.
  ghost predicate EtherSettled(p: Params, msg: Message, env: Env, evm: Evm, w: World, w': World, used: nat)
    requires WellPriced(msg, env) && FeesChecked(p, msg, env) && Intrinsic(p, msg, env) <= msg.gasLimit
  {
    var bought, called := Bought(p, msg, env, w), CallOf(p, msg, env, evm, w).world;
    var tip := Cost(used, Tip(msg, env));
    && Total(w') + Cost(used, Burned(env)) + BlobFee(p, msg, env) == Total(w)
    && Bal(w', msg.from) + Cost(used, msg.gasPrice) + BlobFee(p, msg, env) + Bal(bought, msg.from) ==
         Bal(w, msg.from) + Bal(called, msg.from) + (if msg.from == env.coinbase then tip else 0)
    && (msg.from != env.coinbase ==> Bal(w', env.coinbase) == Bal(called, env.coinbase) + tip)
    && (forall a :: a != msg.from && a != env.coinbase ==> Bal(w', a) == Bal(called, a))
  }

  ghost function Tip(msg: Message, env: Env): nat
    requires WellPriced(msg, env) && (env.isLondon ==> env.baseFee <= msg.gasFeeCap)
  {
    if env.isLondon then msg.gasPrice - env.baseFee else msg.gasPrice
  }

  ghost function Burned(env: Env): nat {
    if env.isLondon then env.baseFee else 0
  }

  // All amounts are exact: nothing wraps, and the books balance.
  lemma FeesBalance(p: Params, msg: Message, env: Env, w0: World, w2: World, used: nat)
    requires WellPriced(msg, env) && FeesChecked(p, msg, env) && used <= msg.gasLimit
    requires Total(w0) < TWO_256 && Required(p, msg, env) <= Bal(w0, msg.from)
    requires Total(w2) == Total(Sub(w0, msg.from, Upfront(p, msg, env)))
    ensures var back, fee := Cost(msg.gasLimit - used, msg.gasPrice), Cost(used, Tip(msg, env));
            var w3 := Add(w2, msg.from, back);
            var w4 := Add(w3, env.coinbase, fee);
            && back < TWO_256 && fee < TWO_256
            && Bal(w3, msg.from) == Bal(w2, msg.from) + back
            && Bal(w4, env.coinbase) == Bal(w3, env.coinbase) + fee
            && (forall a :: a != msg.from ==> Bal(w3, a) == Bal(w2, a))
            && (forall a :: a != env.coinbase ==> Bal(w4, a) == Bal(w3, a))
            && Total(w4) + Cost(used, Burned(env)) + BlobFee(p, msg, env) == Total(w0)
            && back + Cost(used, msg.gasPrice) + BlobFee(p, msg, env) == Upfront(p, msg, env)
  {
    hide Cost, Add, Total, BlobFee, Sub;
    var back, fee := Cost(msg.gasLimit - used, msg.gasPrice), Cost(used, Tip(msg, env));
    UpfrontCovered(p, msg, env);
    SubExact(w0, msg.from, Upfront(p, msg, env));
    BalWithinTotal(w0, msg.from);
    CostSplit(msg.gasLimit - used, used, msg.gasPrice);
    CostOfSum(used, Tip(msg, env), Burned(env));
    AddExact(w2, msg.from, back);
    AddExact(Add(w2, msg.from, back), env.coinbase, fee);
  }

  // The up-front charge fits 256 bits and leaves the value to be transferred.
  lemma PurchaseExact(p: Params, msg: Message, env: Env, w: World)
    requires WellPriced(msg, env) && Purchased(p, msg, env, w)
    ensures Upfront(p, msg, env) < TWO_256 && Bought(p, msg, env, w) == Sub(w, msg.from, Upfront(p, msg, env))
    ensures Bal(Bought(p, msg, env, w), msg.from) == Bal(w, msg.from) - Upfront(p, msg, env) >= msg.value
    ensures msg.value < TWO_256
  {
    hide Cost, Required, Upfront, WellPriced, FeesChecked, Total;
    UpfrontCovered(p, msg, env);
    SubExact(w, msg.from, Upfront(p, msg, env));
  }

  // A message made from a transaction keeps all rules exactly when it is admissible: the
  // transfer rule cannot be broken once the purchase has gone through.
  lemma KeepsRules(p: Params, msg: Message, env: Env, w: World, gp: nat, senderNonce: U64, plainCode: bool)
    requires WellPriced(msg, env)
    ensures Decides(Rules(p, msg, env, w, gp, senderNonce, plainCode), None) <==>
              Admissible(p, msg, env, w, gp, senderNonce, plainCode)
  {
    hide Required, DataGas, Intrinsic, FloorOf, Bal, Bought, PreRules, WellPriced, FeesChecked, ShapeChecked;
    var pre, call := PreRules(p, msg, env, w, gp, senderNonce, plainCode), CallRules(p, msg, env, w);
    KeepsBoth(pre, call);
    KeepsPreRules(p, msg, env, w, gp, senderNonce, plainCode);
    if Purchased(p, msg, env, w) {
      PurchaseExact(p, msg, env, w);
    }
    assert Decides(call, None) <==>
             !call[0].broken && !call[1].broken && !call[2].broken && !call[3].broken && !call[4].broken && !call[5].broken;
  }

  ghost predicate NoTransferRule(rules: seq<Rule>) {
    forall k :: 0 <= k < |rules| ==> rules[k].error != InsufficientFundsForTransfer
  }

  lemma NoTransferBefore(p: Params, msg: Message, env: Env, w: World, gp: nat, senderNonce: U64, plainCode: bool)
    ensures NoTransferRule(PreRules(p, msg, env, w, gp, senderNonce, plainCode))
  {
    hide Required, Bal, BlobGas;
    assert NoTransferRule(SenderRules(msg, senderNonce, plainCode));
    assert NoTransferRule(FeeRules(msg, env));
    assert NoTransferRule(BlobRules(p, msg, env));
    assert NoTransferRule(ListRules(p, msg, env));
    assert NoTransferRule(PurchaseRules(p, msg, env, w, gp));
    hide SenderRules, FeeRules, BlobRules, ListRules, PurchaseRules;
  }

  lemma TransferCovered(p: Params, msg: Message, env: Env, w: World, gp: nat, senderNonce: U64, plainCode: bool)
    requires WellPriced(msg, env)
    ensures !Decides(Rules(p, msg, env, w, gp, senderNonce, plainCode), Some(InsufficientFundsForTransfer))
  {
    var pre, call := PreRules(p, msg, env, w, gp, senderNonce, plainCode), CallRules(p, msg, env, w);
    var rules := pre + call;
    NoTransferBefore(p, msg, env, w, gp, senderNonce, plainCode);
    KeepsPreRules(p, msg, env, w, gp, senderNonce, plainCode);
    hide Required, DataGas, Intrinsic, FloorOf, Bal, Bought, PreRules, WellPriced, FeesChecked, ShapeChecked;
    if Purchased(p, msg, env, w) {
      PurchaseExact(p, msg, env, w);
    }
    forall k: nat ensures !FirstBroken(rules, k, InsufficientFundsForTransfer) {
      if k < |pre| {
        assert rules[k] == pre[k];
      } else if k < |rules| {
        assert rules[k] == call[k - |pre|];
        if forall j :: 0 <= j < k ==> !rules[j].broken {
          forall j | 0 <= j < |pre| ensures !pre[j].broken {
            assert pre[j] == rules[j];
          }
        }
      }
    }
  }

  lemma EtherSettles(p: Params, msg: Message, env: Env, evm: Evm, w: World, used: nat)
    requires WellPriced(msg, env) && Purchased(p, msg, env, w) && Conserving(evm) && Total(w) < TWO_256
    requires Intrinsic(p, msg, env) <= msg.gasLimit && used <= msg.gasLimit
    ensures env.isLondon ==> msg.gasPrice >= env.baseFee
    ensures var back, tip := Cost(msg.gasLimit - used, msg.gasPrice), Cost(used, Tip(msg, env));
            && back < TWO_256 && tip < TWO_256
            && EtherSettled(p, msg, env, evm, w, Add(Add(CallOf(p, msg, env, evm, w).world, msg.from, back), env.coinbase, tip), used)
  {
    hide Cost, Add, Sub, Required, Upfront, Total, BlobFee, Intrinsic, Bal;
    PurchaseExact(p, msg, env, w);
    FeesBalance(p, msg, env, w, CallOf(p, msg, env, evm, w).world, used);
  }

  class Transition {
    const p: Params
    const env: Env
    const msg: Message
    var gasRemaining: U64
    var initialGas: U64
    var world: World
    var gp: U64

    constructor (p: Params, env: Env, msg: Message, world: World, gp: U64)
      ensures this.p == p && this.env == env && this.msg == msg && this.world == world && this.gp == gp
      ensures gasRemaining == 0 && initialGas == 0
    {
      this.p, this.env, this.msg, this.world, this.gp := p, env, msg, world, gp;
      gasRemaining, initialGas := 0, 0;
    }

    // buyGas: charges the pool and the sender, or leaves everything alone.
    method BuyGas() returns (err: Option<Error>)
      modifies this
      ensures err.None? <==>
                Required(p, msg, env) < TWO_256 && Required(p, msg, env) <= Bal(old(world), msg.from) && msg.gasLimit <= old(gp)
      ensures err.Some? ==> world == old(world) && gp == old(gp) && gasRemaining == old(gasRemaining) && initialGas == old(initialGas)
      ensures Decides(PurchaseRules(p, msg, env, old(world), old(gp)), err)
      ensures err.None? ==> gasRemaining == initialGas == msg.gasLimit && gp == old(gp) - msg.gasLimit
      ensures err.None? ==> world == Sub(old(world), msg.from, Upfront(p, msg, env) % TWO_256)
    {
      hide Cost, Sub, Decides;
      ghost var rules := PurchaseRules(p, msg, env, world, gp);
      var mgval := Cost(msg.gasLimit, msg.gasPrice);
      var balanceCheck := Cost(msg.gasLimit, msg.gasFeeCap) + msg.value;
      if env.isCancun {
        var blobGas := BlobGas(p, msg);
        NothingCosts(env.blobBaseFee);
        NothingCosts(msg.blobGasFeeCap);
        if blobGas > 0 {
          balanceCheck := balanceCheck + Cost(blobGas, msg.blobGasFeeCap);
          mgval := mgval + Cost(blobGas, env.blobBaseFee);
        }
      }
      assert balanceCheck == Required(p, msg, env) && mgval == Upfront(p, msg, env);
      if balanceCheck >= TWO_256 {
        DecidedBy(rules, 0, InsufficientFunds);
        return Some(InsufficientFunds);
      }
      if Bal(world, msg.from) < balanceCheck {
        DecidedBy(rules, 0, InsufficientFunds);
        return Some(InsufficientFunds);
      }
      if gp < msg.gasLimit {
        DecidedBy(rules, 1, GasLimitReached);
        return Some(GasLimitReached);
      }
      NoneBroken(rules);
      gp := gp - msg.gasLimit;
      gasRemaining, initialGas := msg.gasLimit, msg.gasLimit;
      world := Sub(world, msg.from, mgval % TWO_256);
      err := None;
    }

    // preCheck: nonce, sender, fees, blobs, authorizations, gas cap, then the purchase.
    // `senderNonce` and `plainCode` are what the state says about the sender.
    method PreCheck(senderNonce: U64, plainCode: bool) returns (err: Option<Error>)
      modifies this
      ensures err.Some? ==> world == old(world) && gp == old(gp)
      ensures err.None? <==> PreChecked(p, msg, env, old(world), old(gp), senderNonce, plainCode)
      ensures Decides(PreRules(p, msg, env, old(world), old(gp), senderNonce, plainCode), err)
      ensures err.None? ==> gasRemaining == initialGas == msg.gasLimit && gp == old(gp) - msg.gasLimit
      ensures err.None? ==> world == Sub(old(world), msg.from, Upfront(p, msg, env) % TWO_256)
    {
      hide Cost, Sub, Required, Upfront, BlobGas, Bal, Decides, PreChecked;
      hide SenderRules, FeeRules, BlobRules, ListRules, PurchaseRules;
      KeepsPreRules(p, msg, env, world, gp, senderNonce, plainCode);
      ghost var a, b := SenderRules(msg, senderNonce, plainCode), FeeRules(msg, env);
      ghost var c, d, e := BlobRules(p, msg, env), ListRules(p, msg, env), PurchaseRules(p, msg, env, world, gp);
      var sender := CheckSender(senderNonce, plainCode);
      err := sender;
      if sender.None? {
        err := CheckFees();
      }
      NextGroup(a, b, sender, err);
      ghost var fees := err;
      if err.None? {
        err := CheckBlobs();
      }
      NextGroup(a + b, c, fees, err);
      ghost var blobs := err;
      if err.None? {
        err := CheckLists();
      }
      NextGroup(a + b + c, d, blobs, err);
      ghost var lists := err;
      if err.None? {
        err := BuyGas();
      }
      NextGroup(a + b + c + d, e, lists, err);
      if err.Some? && PreChecked(p, msg, env, old(world), old(gp), senderNonce, plainCode) {
        DecidesOnce(a + b + c + d + e, err, None);
      }
    }

    method CheckSender(senderNonce: U64, plainCode: bool) returns (err: Option<Error>)
      ensures Decides(SenderRules(msg, senderNonce, plainCode), err)
    {
      hide Decides;
      ghost var rules := SenderRules(msg, senderNonce, plainCode);
      if senderNonce < msg.nonce {
        DecidedBy(rules, 0, NonceTooHigh);
        return Some(NonceTooHigh);
      } else if senderNonce > msg.nonce {
        DecidedBy(rules, 1, NonceTooLow);
        return Some(NonceTooLow);
      } else if (senderNonce + 1) % TWO_64 < senderNonce {
        DecidedBy(rules, 2, NonceMax);
        return Some(NonceMax);
      }
      if plainCode {
        DecidedBy(rules, 3, SenderNoEOA);
        return Some(SenderNoEOA);
      }
      err := None;
      NoneBroken(rules);
    }

    method CheckFees() returns (err: Option<Error>)
      ensures Decides(FeeRules(msg, env), err)
    {
      hide Decides;
      ghost var rules := FeeRules(msg, env);
      if env.isLondon {
        if msg.gasFeeCap >= TWO_256 {
          DecidedBy(rules, 0, FeeCapVeryHigh);
          return Some(FeeCapVeryHigh);
        }
        if msg.gasTipCap >= TWO_256 {
          DecidedBy(rules, 1, TipVeryHigh);
          return Some(TipVeryHigh);
        }
        if msg.gasFeeCap < msg.gasTipCap {
          DecidedBy(rules, 2, TipAboveFeeCap);
          return Some(TipAboveFeeCap);
        }
        if msg.gasFeeCap < env.baseFee {
          DecidedBy(rules, 3, FeeCapTooLow);
          return Some(FeeCapTooLow);
        }
      }
      err := None;
      NoneBroken(rules);
    }

    method CheckBlobs() returns (err: Option<Error>)
      ensures Decides(BlobRules(p, msg, env), err)
    {
      hide Decides, BlobGas;
      ghost var rules := BlobRules(p, msg, env);
      if msg.blobHashes.Some? {
        if msg.to.None? {
          DecidedBy(rules, 0, BlobTxCreate);
          return Some(BlobTxCreate);
        }
        if |msg.blobHashes.value| == 0 {
          DecidedBy(rules, 1, MissingBlobHashes);
          return Some(MissingBlobHashes);
        }
        if env.isOsaka && |msg.blobHashes.value| > p.blobTxMaxBlobs {
          DecidedBy(rules, 2, TooManyBlobs);
          return Some(TooManyBlobs);
        }
        if false in msg.blobHashes.value {
          DecidedBy(rules, 3, BadBlobHash);
          return Some(BadBlobHash);
        }
      }
      if env.isCancun && BlobGas(p, msg) > 0 && msg.blobGasFeeCap < env.blobBaseFee {
        DecidedBy(rules, 4, BlobFeeCapTooLow);
        return Some(BlobFeeCapTooLow);
      }
      err := None;
      NoneBroken(rules);
    }

    method CheckLists() returns (err: Option<Error>)
      ensures Decides(ListRules(p, msg, env), err)
    {
      hide Decides;
      ghost var rules := ListRules(p, msg, env);
      if msg.authorizations.Some? {
        if msg.to.None? {
          DecidedBy(rules, 0, SetCodeTxCreate);
          return Some(SetCodeTxCreate);
        }
        if msg.authorizations.value == 0 {
          DecidedBy(rules, 1, EmptyAuthList);
          return Some(EmptyAuthList);
        }
      }
      if env.isOsaka && msg.gasLimit > p.maxTxGas {
        DecidedBy(rules, 2, GasLimitTooHigh);
        return Some(GasLimitTooHigh);
      }
      err := None;
      NoneBroken(rules);
    }

    // The second half of execute: refund, floor, gas returned to sender and pool, tip paid.
    method Settle(counter: U64, floor: U64) returns (r: Result)
      requires Positive(p) && gasRemaining <= initialGas == msg.gasLimit && (env.isPrague ==> floor <= msg.gasLimit)
      requires gp + msg.gasLimit < TWO_64
      modifies this
      ensures msg.gasPrice < TWO_256 ==>
                var used := Charged(p, env, msg.gasLimit - old(gasRemaining), counter, floor);
                && r.Executed? && r.usedGas == used <= msg.gasLimit && used <= r.maxUsedGas <= msg.gasLimit
                && r.maxUsedGas == (if env.isPrague then Max(floor, msg.gasLimit - old(gasRemaining)) else msg.gasLimit - old(gasRemaining))
                && gp == old(gp) + (msg.gasLimit - used)
                && world == Add(Add(old(world), msg.from, Cost(msg.gasLimit - used, msg.gasPrice) % TWO_256), env.coinbase,
                                Cost(used, (msg.gasPrice - Burned(env)) % TWO_256) % TWO_256)
      ensures msg.gasPrice >= TWO_256 ==> r.Panicked?
    {
      hide Cost, Add;
      var peakGasUsed := initialGas - gasRemaining;
      var refund := RefundOf(p, env, peakGasUsed, counter);
      gasRemaining := gasRemaining + refund;
      if env.isPrague {
        if initialGas - gasRemaining < floor {
          gasRemaining := initialGas - floor;
        }
        if peakGasUsed < floor {
          peakGasUsed := floor;
        }
      }
      if msg.gasPrice >= TWO_256 {
        return Panicked;
      }
      world := Add(world, msg.from, Cost(gasRemaining, msg.gasPrice) % TWO_256);
      gp := gp + gasRemaining;
      var gasUsed := initialGas - gasRemaining;
      var effectiveTip := (msg.gasPrice - (if env.isLondon then env.baseFee else 0)) % TWO_256;
      world := Add(world, env.coinbase, Cost(gasUsed, effectiveTip) % TWO_256);
      r := Executed(gasUsed, peakGasUsed);
    }

    // The first half of execute: everything that can still reject the message.
    method Admit(senderNonce: U64, plainCode: bool) returns (err: Option<Error>, floor: U64)
      requires Positive(p) && |msg.data| < TWO_64
      modifies this
      ensures WellPriced(msg, env) ==> (err.None? <==> Admissible(p, msg, env, old(world), old(gp), senderNonce, plainCode))
      ensures Decides(Rules(p, msg, env, old(world), old(gp), senderNonce, plainCode), err)
      ensures WellPriced(msg, env) ==> err != Some(InsufficientFundsForTransfer)
      ensures err.None? ==> Purchased(p, msg, env, old(world)) && world == Bought(p, msg, env, old(world))
      ensures err.None? ==> Intrinsic(p, msg, env) <= msg.gasLimit && gasRemaining == msg.gasLimit - Intrinsic(p, msg, env)
      ensures err.None? ==> initialGas == msg.gasLimit && gp == old(gp) - msg.gasLimit
      ensures err.None? ==> floor == FloorOf(p, msg, env) <= msg.gasLimit
    {
      hide Cost, Sub, Required, Upfront, FeesChecked, ShapeChecked, WellPriced, DataGas, ListGas, Floor;
      hide Decides, PreRules, CallRules, Intrinsic, FloorOf;
      floor := 0;
      err := PreCheck(senderNonce, plainCode);
      ghost var pre := PreRules(p, msg, env, old(world), old(gp), senderNonce, plainCode);
      ghost var call := CallRules(p, msg, env, old(world));
      ghost var checked := err;
      if err.None? {
        err, floor := CheckCall(old(world));
      }
      NextGroup(pre, call, checked, err);
      if WellPriced(msg, env) {
        KeepsRules(p, msg, env, old(world), old(gp), senderNonce, plainCode);
        TransferCovered(p, msg, env, old(world), old(gp), senderNonce, plainCode);
        if err.Some? && Admissible(p, msg, env, old(world), old(gp), senderNonce, plainCode) {
          DecidesOnce(pre + call, err, None);
        }
      }
    }

    // The checks between the purchase and the call, with the gas they take.
    method CheckCall(ghost w0: World) returns (err: Option<Error>, floor: U64)
      requires Positive(p) && |msg.data| < TWO_64 && gasRemaining == msg.gasLimit && world == Bought(p, msg, env, w0)
      modifies this`gasRemaining
      ensures Decides(CallRules(p, msg, env, w0), err)
      ensures err.None? ==> Intrinsic(p, msg, env) <= msg.gasLimit && gasRemaining == msg.gasLimit - Intrinsic(p, msg, env)
      ensures err.None? ==> floor == FloorOf(p, msg, env) <= msg.gasLimit
    {
      hide Bal, Bought, DataGas, ListGas, Floor, Decides;
      ghost var rules := CallRules(p, msg, env, w0);
      floor := 0;
      var creation := msg.to.None?;
      var gas := IntrinsicGas(p, msg.data, msg.accessKeys, msg.authorizations, creation,
                              env.isHomestead, env.isIstanbul, env.isShanghai);
      if gas.None? {
        DecidedBy(rules, 0, GasUintOverflow);
        return Some(GasUintOverflow), floor;
      }
      if gasRemaining < gas.value {
        DecidedBy(rules, 1, IntrinsicGasTooLow);
        return Some(IntrinsicGasTooLow), floor;
      }
      if env.isPrague {
        var floorDataGas := FloorDataGas(p, msg.data);
        if floorDataGas.None? {
          DecidedBy(rules, 2, GasUintOverflow);
          return Some(GasUintOverflow), floor;
        }
        if msg.gasLimit < floorDataGas.value {
          DecidedBy(rules, 3, FloorDataGasTooLow);
          return Some(FloorDataGasTooLow), floor;
        }
        floor := floorDataGas.value;
      }
      gasRemaining := gasRemaining - gas.value;
      if msg.value >= TWO_256 || (msg.value != 0 && Bal(world, msg.from) < msg.value) {
        DecidedBy(rules, 4, InsufficientFundsForTransfer);
        return Some(InsufficientFundsForTransfer), floor;
      }
      if env.isShanghai && creation && |msg.data| > p.maxInitCodeSize {
        DecidedBy(rules, 5, MaxInitCodeSizeExceeded);
        return Some(MaxInitCodeSizeExceeded), floor;
      }
      err := None;
      NoneBroken(rules);
    }

    // execute. The transfer check cannot fail and nothing wraps for a message made from a
    // transaction; a successful one burns exactly the base fee and the blob fee.
    method Execute(evm: Evm, senderNonce: U64, plainCode: bool) returns (r: Result)
      requires Positive(p) && |msg.data| < TWO_64 && Conserving(evm)
      modifies this
      ensures Decides(Rules(p, msg, env, old(world), old(gp), senderNonce, plainCode),
                      if r.Rejected? then Some(r.error) else None)
      ensures WellPriced(msg, env) ==> r != Rejected(InsufficientFundsForTransfer)
      ensures WellPriced(msg, env) && env.isLondon ==>
                !r.Panicked? && (r.Executed? <==> Admissible(p, msg, env, old(world), old(gp), senderNonce, plainCode))
      ensures r.Executed? ==> Purchased(p, msg, env, old(world)) && GasSettled(p, msg, env, evm, old(world), r)
      ensures r.Executed? ==> gp + r.usedGas == old(gp)
      ensures r.Executed? && WellPriced(msg, env) && Total(old(world)) < TWO_256 ==>
                EtherSettled(p, msg, env, evm, old(world), world, r.usedGas)
    {
      hide Cost, Add, Total, WellPriced, Conserving, Admissible, EtherSettled, Bought, Intrinsic, Purchased, Floor;
      hide Charged, Tip, Burned, RefundOf, Rules, Decides;
      ghost var w0 := world;
      var err, floor := Admit(senderNonce, plainCode);
      if err.Some? {
        return Rejected(err.value);
      }
      assert FeesChecked(p, msg, env) by { Checked(p, msg, env, w0); }
      if WellPriced(msg, env) {
        PriceFits(p, msg, env);
      }
      CallFacts(evm, world, gasRemaining);
      var call := evm(world, gasRemaining);
      world, gasRemaining := call.world, call.gasLeft;
      r := Settle(call.refund, floor);
      if r.Executed? && WellPriced(msg, env) && Total(w0) < TWO_256 {
        EtherSettles(p, msg, env, evm, w0, r.usedGas);
        TipFits(p, msg, env);
      }
    }
  }

  // The 256-bit conversion of the tip is exact.
  lemma TipFits(p: Params, msg: Message, env: Env)
    requires WellPriced(msg, env) && FeesChecked(p, msg, env) && msg.gasPrice < TWO_256
    ensures (msg.gasPrice - Burned(env)) % TWO_256 == Tip(msg, env)
  {
  }

  lemma Checked(p: Params, msg: Message, env: Env, w: World)
    requires Purchased(p, msg, env, w)
    ensures FeesChecked(p, msg, env)
  {
  }

  lemma PriceFits(p: Params, msg: Message, env: Env)
    requires WellPriced(msg, env) && FeesChecked(p, msg, env)
    ensures env.isLondon ==> msg.gasPrice < TWO_256
  {
  }

  lemma CallFacts(evm: Evm, w: World, gas: nat)
    requires Conserving(evm)
    ensures evm(w, gas).gasLeft <= gas
  {
  }
}
