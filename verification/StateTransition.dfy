/**
 Applying one message (core/state_transition.go): buying gas, running the EVM, refunds, the
 calldata floor, returning gas and paying the tip.

 The EVM itself is a parameter: a function from the prepared state and the gas it gets to an
 outcome. What is assumed of it is that it creates no ether and returns no more gas than it
 got; it may destroy ether.
 */
module StateTransitions {
  import opened Basics
  import opened StateDb
  import opened Authorizations
  import opened GasCosts

  const REFUND_QUOTIENT: nat := 2
  const REFUND_QUOTIENT_EIP3529: nat := 5
  const BLOB_TX_BLOB_GAS_PER_BLOB: nat := 0x2_0000
  const MAX_INIT_CODE_SIZE: nat := 49152

  /** The forks that matter here. */
  datatype Rules = Rules(homestead: bool, istanbul: bool, london: bool, shanghai: bool, cancun: bool, prague: bool)

  /** The block that the message is part of. The base fee is there exactly from London on. */
  datatype Context = Context(coinbase: Address, baseFee: Option<nat>, blobBaseFee: nat, chainID: nat, rules: Rules)

  /** A blob hash is valid or not; its value is never looked at. */
  datatype BlobHash = BlobHash(validVersion: bool)

  /** A transaction with its recovered sender. A legacy transaction has one gas price, which is
      fee cap and tip cap; a dynamic-fee transaction reports its fee cap as gas price. */
  datatype Transaction = Transaction(
    sender: Option<Address>, to: Option<Address>, nonce: nat, value: nat, gas: nat, feeCap: nat, tipCap: nat,
    data: seq<byte>, accessList: Option<AccessList>, blobFeeCap: nat, blobHashes: Option<seq<BlobHash>>,
    auths: Option<seq<Authorization>>)

  datatype Message = Message(
    from: Address, to: Option<Address>, nonce: nat, value: nat, gasLimit: nat, gasPrice: nat, feeCap: nat, tipCap: nat,
    data: seq<byte>, accessList: Option<AccessList>, blobFeeCap: nat, blobHashes: Option<seq<BlobHash>>,
    auths: Option<seq<Authorization>>)

  datatype Error =
    | BadSender | NonceTooHigh | NonceTooLow | NonceMax | SenderNoEOA
    | FeeCapVeryHigh | TipVeryHigh | TipAboveFeeCap | FeeCapTooLow
    | BlobTxCreate | MissingBlobHashes | InvalidBlobHash | BlobFeeCapTooLow
    | SetCodeTxCreate | EmptyAuthList
    | InsufficientFunds | GasLimitReached
    | GasUintOverflow | IntrinsicGasTooLow | FloorDataGasTooLow
    | InsufficientFundsForTransfer | MaxInitCodeSizeExceeded

  datatype Outcome = Outcome(world: World, gasLeft: nat, failed: bool)

  type Evm = (World, nat) -> Outcome

  /** What is assumed of the EVM. */
  ghost predicate Sound(evm: Evm) {
    forall w: World, gas: nat :: Total(evm(w, gas).world) <= Total(w) && evm(w, gas).gasLeft <= gas
  }

  datatype ExecutionResult = ExecutionResult(usedGas: nat, maxUsedGas: nat, failed: bool)

  datatype Result<T> = Ok(value: T) | Err(error: Error)

  // ------------------------------------------------------------------ messages

  function TransactionToMessage(tx: Transaction, baseFee: Option<nat>): Result<Message> {
    var gasPrice := if baseFee.None? then tx.feeCap
                    else if tx.tipCap + baseFee.value > tx.feeCap then tx.feeCap else tx.tipCap + baseFee.value;
    if tx.sender.None? then Err(BadSender)
    else Ok(Message(tx.sender.value, tx.to, tx.nonce, tx.value, tx.gas, gasPrice, tx.feeCap, tx.tipCap, tx.data,
                    tx.accessList, tx.blobFeeCap, tx.blobHashes, tx.auths))
  }

  /** The gas price is what `TransactionToMessage` makes of the caps. */
  ghost predicate Priced(msg: Message, baseFee: Option<nat>) {
    msg.gasPrice == if baseFee.None? then msg.feeCap else Min(msg.tipCap + baseFee.value, msg.feeCap)
  }

  /** A transaction becomes a message exactly when it has a sender. The price is the fee cap, or from
      London on what the tip cap and the base fee come to if that is less; everything else is carried
      over. */
  lemma MessagesArePriced(tx: Transaction, baseFee: Option<nat>)
    ensures TransactionToMessage(tx, baseFee).Ok? <==> tx.sender.Some?
    ensures tx.sender.Some? ==>
              var msg := TransactionToMessage(tx, baseFee).value;
              && Priced(msg, baseFee)
              && msg.from == tx.sender.value && msg.to == tx.to && msg.nonce == tx.nonce && msg.value == tx.value
              && msg.gasLimit == tx.gas && msg.feeCap == tx.feeCap && msg.tipCap == tx.tipCap && msg.data == tx.data
              && msg.accessList == tx.accessList && msg.blobFeeCap == tx.blobFeeCap
              && msg.blobHashes == tx.blobHashes && msg.auths == tx.auths
  {
  }

  /** Slices of lengths that fit in memory, and a gas limit that fits in uint64. */
  ghost predicate Sized(msg: Message) {
    && msg.gasLimit <= MAX_UINT64 && |msg.data| < 0x100_0000_0000
    && (msg.accessList.Some? ==>
          msg.accessList.value.addresses < 0x100_0000_0000 && msg.accessList.value.storageKeys < 0x100_0000_0000)
    && (msg.auths.Some? ==> |msg.auths.value| < 0x100_0000_0000)
  }

  function BlobGasOf(hashes: Option<seq<BlobHash>>): nat {
    if hashes.None? then 0 else |hashes.value| * BLOB_TX_BLOB_GAS_PER_BLOB
  }

  function BlobGas(msg: Message): nat {
    BlobGasOf(msg.blobHashes)
  }

  /** What blobs cost at the price of the block. */
  function BlobFeeOf(hashes: Option<seq<BlobHash>>, ctx: Context): nat {
    if ctx.rules.cancun && hashes.Some? then |hashes.value| * 0x2_0000 * ctx.blobBaseFee else 0
  }

  function BlobFee(msg: Message, ctx: Context): nat {
    BlobFeeOf(msg.blobHashes, ctx)
  }

  /** What the gas costs. */
  function GasCost(msg: Message): nat {
    msg.gasLimit * msg.gasPrice
  }

  /** What the gas and the blobs cost. */
  function Cost(msg: Message, ctx: Context): nat {
    GasCost(msg) + BlobFee(msg, ctx)
  }

  /** The balance that the sender must have. */
  function BalanceCheck(msg: Message, ctx: Context): nat {
    msg.gasLimit * msg.feeCap + msg.value + if ctx.rules.cancun then BlobGas(msg) * msg.blobFeeCap else 0
  }

  function Intrinsic(msg: Message, rules: Rules): Option<nat>
    requires |msg.data| <= MAX_UINT64
  {
    IntrinsicGas(msg.data, msg.accessList, if msg.auths.None? then None else Some(|msg.auths.value|),
                 msg.to.None?, rules.homestead, rules.istanbul, rules.shanghai)
  }

  lemma SizedIntrinsic(msg: Message, rules: Rules)
    requires Sized(msg)
    ensures Intrinsic(msg, rules).Some? && 21000 <= Intrinsic(msg, rules).value <= MAX_UINT64
    ensures Intrinsic(msg, rules).value
            == ExactDataGas(msg.data, msg.to.None?, rules.homestead, rules.istanbul, rules.shanghai)
               + ListGas(msg.accessList, if msg.auths.None? then None else Some(|msg.auths.value|))
  {
    var auths := if msg.auths.None? then None else Some(|msg.auths.value|);
    SmallCosts(msg.data, msg.accessList, auths, msg.to.None?, rules.homestead, rules.istanbul, rules.shanghai);
    IntrinsicGasIsExact(msg.data, msg.accessList, auths, msg.to.None?, rules.homestead, rules.istanbul, rules.shanghai);
  }

  lemma SmallCosts(data: seq<byte>, accessList: Option<AccessList>, auths: Option<nat>,
                   creation: bool, homestead: bool, eip2028: bool, eip3860: bool)
    requires |data| < 0x100_0000_0000
    requires accessList.Some? ==>
               accessList.value.addresses < 0x100_0000_0000 && accessList.value.storageKeys < 0x100_0000_0000
    requires auths.Some? ==> auths.value < 0x100_0000_0000
    ensures ExactDataGas(data, creation, homestead, eip2028, eip3860) + ListGas(accessList, auths) <= MAX_UINT64
  {
    var price := if eip2028 then 16 else 68;
    CountedBytes(data, 4, price);
    assert (|data| - Zeros(data)) * price <= (|data| - Zeros(data)) * 68;
  }

  // ------------------------------------------------------------------ fees

  /** The tip that the coinbase gets per gas. */
  function EffectiveTip(msg: Message, ctx: Context): nat
    requires ctx.rules.london ==> ctx.baseFee.Some? && msg.feeCap >= ctx.baseFee.value
  {
    if ctx.rules.london then Min(msg.feeCap - ctx.baseFee.value, msg.tipCap) else msg.gasPrice
  }

  /** What is burnt per gas. */
  function BurntPerGas(ctx: Context): nat {
    if ctx.rules.london && ctx.baseFee.Some? then ctx.baseFee.value else 0
  }

  /** What is burnt for the gas used. */
  function BurntFee(ctx: Context, used: nat): nat {
    used * BurntPerGas(ctx)
  }

  /** The price splits into tip and base fee. */
  lemma PriceSplits(msg: Message, ctx: Context)
    requires Priced(msg, ctx.baseFee) && (ctx.rules.london <==> ctx.baseFee.Some?)
    requires ctx.rules.london ==> msg.feeCap >= ctx.baseFee.value
    ensures msg.gasPrice == EffectiveTip(msg, ctx) + BurntPerGas(ctx)
    ensures msg.gasPrice <= msg.feeCap
  {
  }

  lemma Distribute(a: nat, b: nat, c: nat)
    ensures (a + b) * c == a * c + b * c && c * (a + b) == c * a + c * b
  {
  }

  /** A sender that passes the balance check can pay the gas, the blobs and the value, and no
      product of the settlement leaves 256 bits. */
  lemma Affordable(msg: Message, ctx: Context, balance: nat, used: nat)
    requires msg.gasPrice <= msg.feeCap && used <= msg.gasLimit
    requires ctx.rules.cancun && BlobGas(msg) > 0 ==> ctx.blobBaseFee <= msg.blobFeeCap
    requires BalanceCheck(msg, ctx) <= balance
    ensures msg.gasLimit * msg.gasPrice + BlobFee(msg, ctx) + msg.value <= balance
    ensures used * msg.gasPrice <= balance && (msg.gasLimit - used) * msg.gasPrice <= balance
    ensures used * msg.gasPrice + (msg.gasLimit - used) * msg.gasPrice == msg.gasLimit * msg.gasPrice
  {
    MulMono(msg.gasPrice, msg.feeCap, msg.gasLimit);
    if ctx.rules.cancun && BlobGas(msg) > 0 {
      MulMono(ctx.blobBaseFee, msg.blobFeeCap, BlobGas(msg));
    }
    Distribute(used, msg.gasLimit - used, msg.gasPrice);
  }

  // ------------------------------------------------------------------ acceptance

  /** The checks of `preCheck` before gas is bought. */
  function CheckMessage(w: World, msg: Message, ctx: Context): Option<Error>
    requires ctx.rules.london ==> ctx.baseFee.Some?
  {
    if Get(w, msg.from).nonce < msg.nonce then Some(NonceTooHigh)
    else if Get(w, msg.from).nonce > msg.nonce then Some(NonceTooLow)
    else if Get(w, msg.from).nonce >= MAX_UINT64 then Some(NonceMax)
    else if Get(w, msg.from).code.Contract? then Some(SenderNoEOA)
    else if ctx.rules.london && msg.feeCap >= U256 then Some(FeeCapVeryHigh)
    else if ctx.rules.london && msg.tipCap >= U256 then Some(TipVeryHigh)
    else if ctx.rules.london && msg.feeCap < msg.tipCap then Some(TipAboveFeeCap)
    else if ctx.rules.london && msg.feeCap < ctx.baseFee.value then Some(FeeCapTooLow)
    else if msg.blobHashes.Some? && msg.to.None? then Some(BlobTxCreate)
    else if msg.blobHashes.Some? && |msg.blobHashes.value| == 0 then Some(MissingBlobHashes)
    else if msg.blobHashes.Some? && exists h :: h in msg.blobHashes.value && !h.validVersion then Some(InvalidBlobHash)
    else if ctx.rules.cancun && BlobGas(msg) > 0 && msg.blobFeeCap < ctx.blobBaseFee then Some(BlobFeeCapTooLow)
    else if msg.auths.Some? && msg.to.None? then Some(SetCodeTxCreate)
    else if msg.auths.Some? && |msg.auths.value| == 0 then Some(EmptyAuthList)
    else None
  }

  /** The nonce is the sender's and can still grow, the sender is not a contract, the caps are ordered
      and cover the fees of the block, and blobs and authorizations come in calls, at least one each
      and well formed. */
  ghost predicate Consistent(w: World, msg: Message, ctx: Context)
    requires ctx.rules.london ==> ctx.baseFee.Some?
  {
    && CheckMessageNonce(w, msg)
    && !Get(w, msg.from).code.Contract?
    && (ctx.rules.london ==> ctx.baseFee.value <= msg.feeCap < U256 && msg.tipCap <= msg.feeCap)
    && (msg.blobHashes.Some? ==> msg.to.Some? && msg.blobHashes.value != [])
    && (msg.blobHashes.Some? ==>
          forall i :: 0 <= i < |msg.blobHashes.value| ==> msg.blobHashes.value[i].validVersion)
    && (ctx.rules.cancun && msg.blobHashes.Some? ==> ctx.blobBaseFee <= msg.blobFeeCap)
    && (msg.auths.Some? ==> msg.to.Some? && msg.auths.value != [])
  }

  /** These are the messages that pass the checks. */
  lemma PassingMeans(w: World, msg: Message, ctx: Context)
    requires ctx.rules.london ==> ctx.baseFee.Some?
    ensures CheckMessage(w, msg, ctx) == None <==> Consistent(w, msg, ctx)
  {
  }

  /** The sender can pay at the caps, and the block has the gas. */
  ghost predicate Covered(w: World, msg: Message, ctx: Context, pool: nat) {
    BalanceCheck(msg, ctx) <= Get(w, msg.from).balance && msg.gasLimit <= pool
  }

  function Floor(msg: Message, rules: Rules): nat {
    if rules.prague && FloorDataGas(msg.data).Some? then FloorDataGas(msg.data).value else 0
  }

  /** The message can be part of a block in this state. */
  ghost predicate Acceptable(w: World, msg: Message, ctx: Context, pool: nat)
    requires (ctx.rules.london ==> ctx.baseFee.Some?) && |msg.data| <= MAX_UINT64
  {
    && Consistent(w, msg, ctx) && Covered(w, msg, ctx, pool)
    && Intrinsic(msg, ctx.rules).Some? && Intrinsic(msg, ctx.rules).value <= msg.gasLimit
    && (ctx.rules.prague ==> FloorDataGas(msg.data).Some? && FloorDataGas(msg.data).value <= msg.gasLimit)
    && !(ctx.rules.shanghai && msg.to.None? && |msg.data| > 49152)
  }

  /** The error says what is wrong with the message. */
  ghost predicate Reason(w: World, msg: Message, ctx: Context, pool: nat, e: Error)
    requires (ctx.rules.london ==> ctx.baseFee.Some?) && |msg.data| <= MAX_UINT64
  {
    var sender := Get(w, msg.from);
    match e
    case NonceTooHigh => sender.nonce < msg.nonce
    case NonceTooLow => sender.nonce > msg.nonce
    case NonceMax => sender.nonce == msg.nonce >= MAX_UINT64
    case SenderNoEOA => sender.code.Contract?
    case FeeCapVeryHigh => ctx.rules.london && msg.feeCap >= U256
    case TipVeryHigh => ctx.rules.london && msg.tipCap >= U256
    case TipAboveFeeCap => ctx.rules.london && msg.tipCap > msg.feeCap
    case FeeCapTooLow => ctx.rules.london && msg.feeCap < ctx.baseFee.value
    case BlobTxCreate => msg.blobHashes.Some? && msg.to.None?
    case MissingBlobHashes => msg.blobHashes == Some([])
    case InvalidBlobHash => msg.blobHashes.Some? && BlobHash(false) in msg.blobHashes.value
    case BlobFeeCapTooLow => ctx.rules.cancun && msg.blobHashes.Some? && msg.blobFeeCap < ctx.blobBaseFee
    case SetCodeTxCreate => msg.auths.Some? && msg.to.None?
    case EmptyAuthList => msg.auths == Some([])
    case InsufficientFunds => sender.balance < BalanceCheck(msg, ctx)
    case GasLimitReached => pool < msg.gasLimit
    case GasUintOverflow => Intrinsic(msg, ctx.rules).None? || (ctx.rules.prague && FloorDataGas(msg.data).None?)
    case IntrinsicGasTooLow => Intrinsic(msg, ctx.rules).Some? && Intrinsic(msg, ctx.rules).value > msg.gasLimit
    case FloorDataGasTooLow =>
      ctx.rules.prague && FloorDataGas(msg.data).Some? && FloorDataGas(msg.data).value > msg.gasLimit
    case MaxInitCodeSizeExceeded => ctx.rules.shanghai && msg.to.None? && |msg.data| > 49152
    case _ => false
  }

  /** The checks before gas is bought report what is wrong. */
  lemma ChecksTell(w: World, msg: Message, ctx: Context, pool: nat)
    requires (ctx.rules.london ==> ctx.baseFee.Some?) && |msg.data| <= MAX_UINT64
    ensures CheckMessage(w, msg, ctx).Some? ==> Reason(w, msg, ctx, pool, CheckMessage(w, msg, ctx).value)
  {
    forall h: BlobHash | !h.validVersion ensures h == BlobHash(false) {}
  }

  // ------------------------------------------------------------------ what a message does

  /** The state after the gas and the blobs have been paid for. */
  function Bought(w: World, msg: Message, ctx: Context): World {
    SubBalance(w, msg.from, Wrap(Cost(msg, ctx)))
  }

  /** The state in which the EVM starts: a call also counts the nonce up and applies the
      authorizations, a creation leaves the nonce to the EVM. */
  function Prepared(w: World, msg: Message, ctx: Context): World {
    var bought := Bought(w, msg, ctx);
    if msg.to.None? then bought
    else
      var counted := SetNonce(bought, msg.from, (Get(bought, msg.from).nonce + 1) % U64);
      if msg.auths.None? then counted else ApplyAll(counted, ctx.chainID, msg.auths.value)
  }

  /** The fraction of the gas used that a refund may reach. */
  function RefundCap(gas: nat, rules: Rules): nat {
    if rules.london then gas / REFUND_QUOTIENT_EIP3529 else gas / REFUND_QUOTIENT
  }

  /** The gas that is paid for when `peak` was consumed and `refund` was earned. */
  function Used(peak: nat, refund: nat, floor: nat, rules: Rules): (r: nat)
    ensures r <= Max(peak, floor) && r >= floor && (peak > 0 ==> r > 0)
  {
    Max(peak - Min(RefundCap(peak, rules), refund), floor)
  }

  function PaidBack(msg: Message, used: nat): nat
    requires used <= msg.gasLimit
  {
    (msg.gasLimit - used) * msg.gasPrice
  }

  function Tip(msg: Message, ctx: Context, used: nat): nat
    requires ctx.rules.london ==> ctx.baseFee.Some? && msg.feeCap >= ctx.baseFee.value
  {
    used * Wrap(EffectiveTip(msg, ctx))
  }

  /** The refund `r` is as large as the counter and a fifth of the gas allow, or half of the gas
      before London. */
  ghost predicate LargestRefund(peak: nat, counter: nat, rules: Rules, r: nat) {
    var k := if rules.london then 5 else 2;
    r <= counter && k * r <= peak && (r == counter || k * (r + 1) > peak)
  }

  /** The gas paid for is the peak less that refund, and at least the floor. */
  lemma UsedMeans(peak: nat, counter: nat, floor: nat, rules: Rules) returns (r: nat)
    ensures LargestRefund(peak, counter, rules, r) && Used(peak, counter, floor, rules) == Max(peak - r, floor)
  {
    r := Min(RefundCap(peak, rules), counter);
  }

  /** Two payments in 256-bit arithmetic. */
  function Credited(w: World, a: Address, x: nat, b: Address, y: nat): World {
    AddBalance(AddBalance(w, a, Wrap(x)), b, Wrap(y))
  }

  /** The state after unused gas was paid back and the tip was paid. */
  function Settled(w: World, msg: Message, ctx: Context, used: nat): World
    requires used <= msg.gasLimit && (ctx.rules.london ==> ctx.baseFee.Some? && msg.feeCap >= ctx.baseFee.value)
  {
    Credited(w, msg.from, PaidBack(msg, used), ctx.coinbase, Tip(msg, ctx, used))
  }

  /** Buying gas debits exactly its price, and leaves at least the value of the message. */
  lemma BuyingIsExact(w: World, msg: Message, ctx: Context)
    requires Total(w) < U256 && msg.gasPrice <= msg.feeCap && BalanceCheck(msg, ctx) <= Get(w, msg.from).balance
    requires ctx.rules.cancun && BlobGas(msg) > 0 ==> ctx.blobBaseFee <= msg.blobFeeCap
    ensures Total(Bought(w, msg, ctx)) == Total(w) - GasCost(msg) - BlobFee(msg, ctx)
    ensures Get(Bought(w, msg, ctx), msg.from).balance >= msg.value
    ensures Get(Bought(w, msg, ctx), msg.from).nonce == Get(w, msg.from).nonce
  {
    TotalAfterSet(w, msg.from, Get(w, msg.from));
    Affordable(msg, ctx, Get(w, msg.from).balance, 0);
    DebitIsExact(w, msg.from, Cost(msg, ctx));
  }

  /** Who pays: the sender, for the gas at its price and for the blobs at that of the block. */
  lemma BuyingDebits(w: World, msg: Message, ctx: Context, a: Address)
    requires Total(w) < U256 && msg.gasPrice <= msg.feeCap && BalanceCheck(msg, ctx) <= Get(w, msg.from).balance
    requires ctx.rules.cancun && BlobGas(msg) > 0 ==> ctx.blobBaseFee <= msg.blobFeeCap
    ensures var after := Get(Bought(w, msg, ctx), a);
            && after.balance == Get(w, a).balance
                 - (if a == msg.from then msg.gasLimit * msg.gasPrice + BlobFee(msg, ctx) else 0)
            && after.nonce == Get(w, a).nonce && after.code == Get(w, a).code
  {
    TotalAfterSet(w, msg.from, Get(w, msg.from));
    Affordable(msg, ctx, Get(w, msg.from).balance, 0);
    DebitIsExact(w, msg.from, Cost(msg, ctx));
  }

  /** The balances with which the EVM starts: those after the debit. A creation starts with the nonces
      and the code that were there. */
  lemma BalancesAtTheStart(w: World, msg: Message, ctx: Context, a: Address)
    requires Total(w) < U256 && msg.gasPrice <= msg.feeCap && BalanceCheck(msg, ctx) <= Get(w, msg.from).balance
    requires ctx.rules.cancun && BlobGas(msg) > 0 ==> ctx.blobBaseFee <= msg.blobFeeCap
    ensures var start := Get(Prepared(w, msg, ctx), a);
            && start.balance == Get(w, a).balance
                 - (if a == msg.from then msg.gasLimit * msg.gasPrice + BlobFee(msg, ctx) else 0)
            && (msg.to.None? ==> start.nonce == Get(w, a).nonce && start.code == Get(w, a).code)
  {
    BuyingDebits(w, msg, ctx, a);
    var bought := Bought(w, msg, ctx);
    if msg.to.Some? && msg.auths.Some? {
      NonceRises(SetNonce(bought, msg.from, (Get(bought, msg.from).nonce + 1) % U64), ctx.chainID, msg.auths.value, a);
    }
  }

  lemma PreparingIsFree(w: World, msg: Message, ctx: Context)
    ensures Total(Prepared(w, msg, ctx)) == Total(Bought(w, msg, ctx))
  {
    var bought := Bought(w, msg, ctx);
    if msg.to.Some? {
      var counted := SetNonce(bought, msg.from, (Get(bought, msg.from).nonce + 1) % U64);
      TotalAfterSet(bought, msg.from, Get(counted, msg.from));
      if msg.auths.Some? {
        RefundAndEther(counted, ctx.chainID, msg.auths.value);
      }
    }
  }

  /** What is paid back, what is tipped and what is burnt make up what was paid for the gas. */
  lemma SettlementAmounts(msg: Message, ctx: Context, used: nat)
    requires Priced(msg, ctx.baseFee) && (ctx.rules.london <==> ctx.baseFee.Some?)
    requires ctx.rules.london ==> msg.feeCap >= ctx.baseFee.value
    requires used <= msg.gasLimit && 0 < msg.gasLimit && GasCost(msg) < U256
    ensures PaidBack(msg, used) + Tip(msg, ctx, used) + BurntFee(ctx, used) == GasCost(msg)
  {
    var tip, base := EffectiveTip(msg, ctx), BurntPerGas(ctx);
    PriceSplits(msg, ctx);
    MulMono(1, msg.gasLimit, msg.gasPrice);
    assert Wrap(tip) == tip;
    Distribute(tip, base, used);
    Distribute(used, msg.gasLimit - used, msg.gasPrice);
  }

  /** Two payments, account by account. */
  lemma CreditsGo(w: World, a: Address, x: nat, b: Address, y: nat, c: Address)
    requires Total(w) + x + y < U256
    ensures var after := Get(Credited(w, a, x, b, y), c);
            && after.balance == Get(w, c).balance + (if c == a then x else 0) + (if c == b then y else 0)
            && after.nonce == Get(w, c).nonce && after.code == Get(w, c).code
  {
    TotalAfterSet(w, a, Get(w, a));
    CreditIsExact(w, a, x);
    CreditIsExact(AddBalance(w, a, x), b, y);
  }

  lemma TwoCredits(w: World, a: Address, x: nat, b: Address, y: nat, burnt: nat, paid: nat)
    requires x + y + burnt == paid && Total(w) + paid < U256
    ensures Total(Credited(w, a, x, b, y)) == Total(w) + paid - burnt
  {
    CreditIsExact(w, a, x);
    CreditIsExact(AddBalance(w, a, x), b, y);
  }

  /** Settling pays back and tips without wrapping; of the gas that was used exactly the base fee
      is lost. It does not matter which of sender and coinbase coincide. */
  lemma SettlingIsExact(w: World, msg: Message, ctx: Context, used: nat)
    requires Priced(msg, ctx.baseFee) && (ctx.rules.london <==> ctx.baseFee.Some?)
    requires ctx.rules.london ==> msg.feeCap >= ctx.baseFee.value
    requires used <= msg.gasLimit && 0 < msg.gasLimit && Total(w) + GasCost(msg) < U256
    ensures Total(Settled(w, msg, ctx, used)) == Total(w) + GasCost(msg) - BurntFee(ctx, used)
  {
    SettlementAmounts(msg, ctx, used);
    TwoCredits(w, msg.from, PaidBack(msg, used), ctx.coinbase, Tip(msg, ctx, used), BurntFee(ctx, used), GasCost(msg));
  }

  /** Who is paid when a message is settled: of what the EVM left, the sender's balance grows by the
      price of the unused gas, that of the coinbase by the tip for the used gas, and nothing else
      changes. */
  ghost predicate PaidOut(out: World, after: World, msg: Message, ctx: Context, used: nat) {
    var tip := msg.gasPrice - if ctx.rules.london && ctx.baseFee.Some? then ctx.baseFee.value else 0;
    forall a: Address ::
      && Get(after, a).balance == Get(out, a).balance
                                  + (if a == msg.from then (msg.gasLimit - used) * msg.gasPrice else 0)
                                  + (if a == ctx.coinbase then used * tip else 0)
      && Get(after, a).nonce == Get(out, a).nonce && Get(after, a).code == Get(out, a).code
  }

  lemma SettlingPays(w: World, msg: Message, ctx: Context, used: nat)
    requires Priced(msg, ctx.baseFee) && (ctx.rules.london <==> ctx.baseFee.Some?)
    requires ctx.rules.london ==> msg.feeCap >= ctx.baseFee.value
    requires used <= msg.gasLimit && 0 < msg.gasLimit && Total(w) + GasCost(msg) < U256
    ensures PaidOut(w, Settled(w, msg, ctx, used), msg, ctx, used)
  {
    SettlementAmounts(msg, ctx, used);
    PriceSplits(msg, ctx);
    MulMono(1, msg.gasLimit, msg.gasPrice);
    var x, y := PaidBack(msg, used), Tip(msg, ctx, used);
    assert Wrap(x) == x && Wrap(y) == y;
    forall a: Address {
      CreditsGo(w, msg.from, x, ctx.coinbase, y, a);
    }
  }

  /** The nonces with which the EVM starts a call: every authority's is up by its accepted
      authorizations, and the sender's by one more. */
  lemma NoncesOfCall(w: World, msg: Message, ctx: Context, a: Address)
    requires msg.to.Some? && CheckMessageNonce(w, msg)
    ensures var bought := Bought(w, msg, ctx);
            var counted := SetNonce(bought, msg.from, msg.nonce + 1);
            var auths := if msg.auths.None? then [] else msg.auths.value;
            Get(Prepared(w, msg, ctx), a).nonce
            == Get(w, a).nonce + Count(counted, ctx.chainID, auths, a) + if a == msg.from then 1 else 0
  {
    var bought := Bought(w, msg, ctx);
    var counted := SetNonce(bought, msg.from, msg.nonce + 1);
    var auths := if msg.auths.None? then [] else msg.auths.value;
    SmallMod(msg.nonce + 1);
    NonceRises(counted, ctx.chainID, auths, a);
  }

  predicate CheckMessageNonce(w: World, msg: Message) {
    Get(w, msg.from).nonce == msg.nonce < MAX_UINT64
  }

  /** What the EVM makes of an acceptable message. */
  function Run(w: World, msg: Message, ctx: Context, evm: Evm): Outcome
    requires |msg.data| <= MAX_UINT64 && Intrinsic(msg, ctx.rules).Some?
    requires Intrinsic(msg, ctx.rules).value <= msg.gasLimit
  {
    evm(Prepared(w, msg, ctx), msg.gasLimit - Intrinsic(msg, ctx.rules).value)
  }

  /** The outcome of an accepted message: gas used as `Used` says, that is max(peak - min(peak /
      quotient, refund), floor), never more than the peak with the floor, never more than the limit;
      unused gas paid back at the price and the used gas tipped. */
  ghost predicate Executed(w: World, msg: Message, ctx: Context, evm: Evm, res: ExecutionResult, after: World)
    requires |msg.data| <= MAX_UINT64 && Intrinsic(msg, ctx.rules).Some?
    requires Intrinsic(msg, ctx.rules).value <= msg.gasLimit
    requires ctx.rules.london ==> ctx.baseFee.Some? && msg.feeCap >= ctx.baseFee.value
  {
    var out := Run(w, msg, ctx, evm);
    && out.gasLeft <= msg.gasLimit
    && var peak, floor := msg.gasLimit - out.gasLeft, Floor(msg, ctx.rules);
    && res.usedGas == Used(peak, out.world.refund, floor, ctx.rules)
    && res.maxUsedGas == Max(peak, floor)
    && 0 < res.usedGas <= res.maxUsedGas <= msg.gasLimit
    && res.failed == out.failed
    && after == Settled(out.world, msg, ctx, res.usedGas)
  }

  /** The ether that the EVM destroyed. */
  ghost function Destroyed(w: World, msg: Message, ctx: Context, evm: Evm): int
    requires |msg.data| <= MAX_UINT64 && Intrinsic(msg, ctx.rules).Some?
    requires Intrinsic(msg, ctx.rules).value <= msg.gasLimit
  {
    Total(Prepared(w, msg, ctx)) - Total(Run(w, msg, ctx, evm).world)
  }

  /** Ether conservation for one message: what is lost is the base fee of the gas used, the blob
      fee and what the EVM destroyed. */
  lemma Conservation(w: World, msg: Message, ctx: Context, pool: nat, evm: Evm, used: nat)
    requires Sized(msg) && Sound(evm) && Total(w) < U256
    requires Priced(msg, ctx.baseFee) && (ctx.rules.london <==> ctx.baseFee.Some?)
    requires Acceptable(w, msg, ctx, pool) && used <= msg.gasLimit
    ensures Destroyed(w, msg, ctx, evm) >= 0
    ensures Total(Settled(Run(w, msg, ctx, evm).world, msg, ctx, used))
            == Total(w) - Destroyed(w, msg, ctx, evm) - BurntFee(ctx, used) - BlobFee(msg, ctx)
    ensures var out := Run(w, msg, ctx, evm).world; PaidOut(out, Settled(out, msg, ctx, used), msg, ctx, used)
  {
    PriceSplits(msg, ctx);
    SizedIntrinsic(msg, ctx.rules);
    BuyingIsExact(w, msg, ctx);
    PreparingIsFree(w, msg, ctx);
    SettlingIsExact(Run(w, msg, ctx, evm).world, msg, ctx, used);
    SettlingPays(Run(w, msg, ctx, evm).world, msg, ctx, used);
  }

  // ------------------------------------------------------------------ the transition object

  class StateTransition {
    const gp: GasPool
    const msg: Message
    const ctx: Context
    var gasRemaining: nat
    var initialGas: nat
    var state: World

    constructor (gp: GasPool, msg: Message, ctx: Context, state: World)
      ensures this.gp == gp && this.msg == msg && this.ctx == ctx && this.state == state
      ensures gasRemaining == 0 && initialGas == 0
    {
      this.gp, this.msg, this.ctx, this.state := gp, msg, ctx, state;
      gasRemaining, initialGas := 0, 0;
    }

    function GasUsed(): nat
      reads this
      requires gasRemaining <= initialGas
    {
      initialGas - gasRemaining
    }

    /** What the gas and the blobs cost, and what the sender must own. */
    method Amounts() returns (mgval: nat, balanceCheck: nat)
      ensures mgval == Cost(msg, ctx) && balanceCheck == BalanceCheck(msg, ctx)
    {
      mgval := msg.gasLimit * msg.gasPrice;
      balanceCheck := msg.gasLimit * msg.feeCap + msg.value;
      if ctx.rules.cancun {
        var blobGas := BlobGas(msg);
        if blobGas > 0 {
          balanceCheck := balanceCheck + blobGas * msg.blobFeeCap;
          mgval := mgval + blobGas * ctx.blobBaseFee;
        }
      }
    }

    /** `buyGas`: takes the gas out of the block and the money from the sender. */
    method BuyGas() returns (err: Option<Error>)
      requires gp.Valid() && Total(state) < U256
      requires (ctx.rules.london ==> ctx.baseFee.Some?) && |msg.data| <= MAX_UINT64
      modifies this, gp
      ensures gp.Valid() && (err.None? <==> Covered(old(state), msg, ctx, old(gp.gas)))
      ensures err.None? ==> state == Bought(old(state), msg, ctx) && gasRemaining == initialGas == msg.gasLimit
      ensures err.None? ==> gp.gas == old(gp.gas) - msg.gasLimit
      ensures err.Some? ==>
                state == old(state) && gp.gas == old(gp.gas) && err.value in {InsufficientFunds, GasLimitReached}
      ensures err.Some? ==> Reason(old(state), msg, ctx, old(gp.gas), err.value)
    {
      var mgval, balanceCheck := Amounts();
      TotalAfterSet(state, msg.from, Get(state, msg.from));
      if balanceCheck >= U256 {
        return Some(InsufficientFunds);
      }
      if Get(state, msg.from).balance < balanceCheck {
        return Some(InsufficientFunds);
      }
      var ok := gp.SubGas(msg.gasLimit);
      if !ok {
        return Some(GasLimitReached);
      }
      gasRemaining, initialGas := msg.gasLimit, msg.gasLimit;
      state := SubBalance(state, msg.from, Wrap(mgval));
      return None;
    }

    method PreCheck() returns (err: Option<Error>)
      requires gp.Valid() && Total(state) < U256
      requires (ctx.rules.london ==> ctx.baseFee.Some?) && |msg.data| <= MAX_UINT64
      modifies this, gp
      ensures gp.Valid()
      ensures err.None? <==> Consistent(old(state), msg, ctx) && Covered(old(state), msg, ctx, old(gp.gas))
      ensures err.None? ==> state == Bought(old(state), msg, ctx) && gasRemaining == initialGas == msg.gasLimit
      ensures err.None? ==> gp.gas == old(gp.gas) - msg.gasLimit
      ensures err.Some? ==> state == old(state) && gp.gas == old(gp.gas)
      ensures err.Some? ==> Reason(old(state), msg, ctx, old(gp.gas), err.value)
    {
      ChecksTell(state, msg, ctx, gp.gas);
      err := CheckMessage(state, msg, ctx);
      PassingMeans(state, msg, ctx);
      if err.None? {
        err := BuyGas();
      }
    }

    /** `calcRefund`: the refund counter, capped to a fraction of the gas used. */
    method CalcRefund() returns (refund: nat)
      requires gasRemaining <= initialGas
      ensures refund == Min(RefundCap(GasUsed(), ctx.rules), state.refund)
    {
      refund := if !ctx.rules.london then GasUsed() / REFUND_QUOTIENT else GasUsed() / REFUND_QUOTIENT_EIP3529;
      if refund > state.refund {
        refund := state.refund;
      }
    }

    /** `returnGas`: money for the gas that is left, and that gas back to the block. */
    method ReturnGas() returns (panicked: bool)
      requires gp.Valid() && gasRemaining <= MAX_UINT64 && gasRemaining <= initialGas == msg.gasLimit
      modifies this`state, gp
      ensures gp.Valid() && (panicked <==> old(gp.gas) + gasRemaining > MAX_UINT64)
      ensures !panicked ==> gp.gas == old(gp.gas) + gasRemaining
      ensures state == AddBalance(old(state), msg.from, Wrap(PaidBack(msg, GasUsed())))
    {
      var remaining := gasRemaining * msg.gasPrice;
      state := AddBalance(state, msg.from, Wrap(remaining));
      panicked := gp.AddGas(gasRemaining);
    }

    /** The checks of `execute` between buying gas and running the EVM. */
    method ChargeIntrinsic(ghost w: World, ghost pool: nat) returns (err: Option<Error>, floorDataGas: nat)
      requires (ctx.rules.london ==> ctx.baseFee.Some?) && |msg.data| <= MAX_UINT64 && gasRemaining == msg.gasLimit
      modifies this`gasRemaining
      ensures err.None? <==>
                && Intrinsic(msg, ctx.rules).Some? && Intrinsic(msg, ctx.rules).value <= msg.gasLimit
                && (ctx.rules.prague ==> FloorDataGas(msg.data).Some? && FloorDataGas(msg.data).value <= msg.gasLimit)
      ensures err.None? ==>
                gasRemaining == msg.gasLimit - Intrinsic(msg, ctx.rules).value && floorDataGas == Floor(msg, ctx.rules)
      ensures err.Some? ==> Reason(w, msg, ctx, pool, err.value)
    {
      floorDataGas := 0;
      var gas := Intrinsic(msg, ctx.rules);
      if gas.None? {
        return Some(GasUintOverflow), 0;
      }
      if gasRemaining < gas.value {
        return Some(IntrinsicGasTooLow), 0;
      }
      if ctx.rules.prague {
        var floor := FloorDataGas(msg.data);
        if floor.None? {
          return Some(GasUintOverflow), 0;
        }
        floorDataGas := floor.value;
        if msg.gasLimit < floorDataGas {
          return Some(FloorDataGasTooLow), 0;
        }
      }
      gasRemaining := gasRemaining - gas.value;
      err := None;
    }

    /** Refund and calldata floor: how much gas is paid for. */
    method FinalGas(floorDataGas: nat) returns (maxUsed: nat)
      requires gasRemaining <= initialGas && floorDataGas <= initialGas && (!ctx.rules.prague ==> floorDataGas == 0)
      modifies this`gasRemaining
      ensures gasRemaining <= initialGas && GasUsed() == Used(old(GasUsed()), state.refund, floorDataGas, ctx.rules)
      ensures GasUsed() <= maxUsed == Max(old(GasUsed()), floorDataGas) <= initialGas
    {
      maxUsed := GasUsed();
      var refund := CalcRefund();
      gasRemaining := gasRemaining + refund;
      if ctx.rules.prague {
        if GasUsed() < floorDataGas {
          gasRemaining := initialGas - floorDataGas;
        }
        if maxUsed < floorDataGas {
          maxUsed := floorDataGas;
        }
      }
    }

    /** The part of `execute` after the EVM has returned: refund, floor, returning gas, tip. */
    method Settle(floorDataGas: nat) returns (used: nat, maxUsed: nat, panicked: bool)
      requires gp.Valid() && gasRemaining <= initialGas == msg.gasLimit && floorDataGas <= initialGas
      requires gp.gas + msg.gasLimit <= MAX_UINT64
      requires ctx.rules.london ==> ctx.baseFee.Some? && msg.feeCap >= ctx.baseFee.value
      requires !ctx.rules.prague ==> floorDataGas == 0
      modifies this, gp
      ensures gp.Valid() && !panicked && gp.gas == old(gp.gas) + msg.gasLimit - used
      ensures used == Used(old(GasUsed()), old(state.refund), floorDataGas, ctx.rules) <= maxUsed <= msg.gasLimit
      ensures maxUsed == Max(old(GasUsed()), floorDataGas)
      ensures state == Settled(old(state), msg, ctx, used)
    {
      maxUsed := FinalGas(floorDataGas);
      used := GasUsed();
      panicked := ReturnGas();
      state := AddBalance(state, ctx.coinbase, Wrap(Tip(msg, ctx, used)));
    }

    /** Everything of `execute` that comes before the EVM runs. */
    method Prepare() returns (err: Option<Error>, floorDataGas: nat)
      requires gp.Valid() && Sized(msg) && Total(state) < U256
      requires Priced(msg, ctx.baseFee) && (ctx.rules.london <==> ctx.baseFee.Some?)
      modifies this, gp
      ensures gp.Valid() && (err.None? <==> Acceptable(old(state), msg, ctx, old(gp.gas)))
      ensures err.Some? ==> Reason(old(state), msg, ctx, old(gp.gas), err.value)
      ensures err.None? ==> state == Bought(old(state), msg, ctx) && initialGas == msg.gasLimit
      ensures err.None? ==>
                gasRemaining == msg.gasLimit - Intrinsic(msg, ctx.rules).value && floorDataGas == Floor(msg, ctx.rules)
      ensures err.None? ==> gp.gas == old(gp.gas) - msg.gasLimit
    {
      floorDataGas := 0;
      ghost var w, pool := state, gp.gas;
      err := PreCheck();
      if err.Some? {
        return;
      }
      PriceSplits(msg, ctx);
      BuyingIsExact(w, msg, ctx);
      TotalAfterSet(w, msg.from, Get(w, msg.from));
      err, floorDataGas := ChargeIntrinsic(w, pool);
      if err.Some? {
        return;
      }
      if msg.value >= U256 {
        err := Some(InsufficientFundsForTransfer);
        return;
      }
      if msg.value != 0 && Get(state, msg.from).balance < msg.value {
        err := Some(InsufficientFundsForTransfer);
        return;
      }
      if ctx.rules.shanghai && msg.to.None? && |msg.data| > MAX_INIT_CODE_SIZE {
        err := Some(MaxInitCodeSizeExceeded);
        return;
      }
    }

    /** Counts the nonce and applies the authorizations of a call, then runs the EVM. */
    method RunMessage(evm: Evm, ghost w: World) returns (out: Outcome)
      requires Sized(msg) && Sound(evm) && state == Bought(w, msg, ctx)
      requires Intrinsic(msg, ctx.rules).Some? && Intrinsic(msg, ctx.rules).value <= msg.gasLimit
      requires gasRemaining == msg.gasLimit - Intrinsic(msg, ctx.rules).value
      modifies this`state, this`gasRemaining
      ensures out == Run(w, msg, ctx, evm) && out.gasLeft <= msg.gasLimit
      ensures Total(out.world) <= Total(Prepared(w, msg, ctx))
      ensures state == out.world && gasRemaining == out.gasLeft
    {
      if msg.to.Some? {
        state := SetNonce(state, msg.from, (Get(state, msg.from).nonce + 1) % U64);
        if msg.auths.Some? {
          state := ApplyList(state, ctx.chainID, msg.auths.value);
        }
      }
      assert state == Prepared(w, msg, ctx);
      out := evm(state, gasRemaining);
      state, gasRemaining := out.world, out.gasLeft;
    }

    /** The gas account of a message that the EVM has run. */
    method Account(evm: Evm, floorDataGas: nat, out: Outcome, ghost w: World) returns (res: ExecutionResult)
      requires gp.Valid() && Sized(msg) && Sound(evm) && gp.gas + msg.gasLimit <= MAX_UINT64
      requires Intrinsic(msg, ctx.rules).Some? && Intrinsic(msg, ctx.rules).value <= msg.gasLimit
      requires ctx.rules.london ==> ctx.baseFee.Some? && msg.feeCap >= ctx.baseFee.value
      requires out == Run(w, msg, ctx, evm) && state == out.world && gasRemaining == out.gasLeft
      requires gasRemaining <= initialGas == msg.gasLimit && floorDataGas == Floor(msg, ctx.rules) <= msg.gasLimit
      modifies this, gp
      ensures gp.Valid() && gp.gas == old(gp.gas) + msg.gasLimit - res.usedGas
      ensures Executed(w, msg, ctx, evm, res, state)
    {
      var used, maxUsed, panicked := Settle(floorDataGas);
      res := ExecutionResult(used, maxUsed, out.failed);
      SizedIntrinsic(msg, ctx.rules);
    }

    /** The part of `execute` from running the EVM on. */
    method Complete(evm: Evm, floorDataGas: nat, ghost w: World, ghost pool: nat) returns (res: ExecutionResult)
      requires gp.Valid() && Sized(msg) && Sound(evm) && Total(w) < U256
      requires Priced(msg, ctx.baseFee) && (ctx.rules.london <==> ctx.baseFee.Some?)
      requires Acceptable(w, msg, ctx, pool) && pool <= MAX_UINT64 && gp.gas == pool - msg.gasLimit
      requires state == Bought(w, msg, ctx) && initialGas == msg.gasLimit
      requires gasRemaining == msg.gasLimit - Intrinsic(msg, ctx.rules).value && floorDataGas == Floor(msg, ctx.rules)
      modifies this, gp
      ensures gp.Valid() && gp.gas == pool - res.usedGas
      ensures Executed(w, msg, ctx, evm, res, state) && Destroyed(w, msg, ctx, evm) >= 0
      ensures PaidOut(Run(w, msg, ctx, evm).world, state, msg, ctx, res.usedGas)
      ensures Total(state) == Total(w) - Destroyed(w, msg, ctx, evm) - BurntFee(ctx, res.usedGas) - BlobFee(msg, ctx)
    {
      var out := RunMessage(evm, w);
      res := Account(evm, floorDataGas, out, w);
      Conservation(w, msg, ctx, pool, evm, res.usedGas);
    }

    /** `execute`: the whole transition. */
    method Execute(evm: Evm) returns (res: Result<ExecutionResult>)
      requires gp.Valid() && Sized(msg) && Sound(evm) && Total(state) < U256
      requires Priced(msg, ctx.baseFee) && (ctx.rules.london <==> ctx.baseFee.Some?)
      modifies this, gp
      ensures gp.Valid() && (res.Ok? <==> Acceptable(old(state), msg, ctx, old(gp.gas)))
      ensures res.Err? ==> Reason(old(state), msg, ctx, old(gp.gas), res.error)
      ensures res.Ok? ==> Executed(old(state), msg, ctx, evm, res.value, state)
      ensures res.Ok? ==> PaidOut(Run(old(state), msg, ctx, evm).world, state, msg, ctx, res.value.usedGas)
      ensures res.Ok? ==> gp.gas == old(gp.gas) - res.value.usedGas
      ensures res.Ok? ==> Destroyed(old(state), msg, ctx, evm) >= 0
      ensures res.Ok? ==> Total(state) == old(Total(state)) - Destroyed(old(state), msg, ctx, evm)
                                          - BurntFee(ctx, res.value.usedGas) - BlobFee(msg, ctx)
    {
      ghost var w, pool := state, gp.gas;
      var err, floorDataGas := Prepare();
      if err.Some? {
        return Err(err.value);
      }
      var result := Complete(evm, floorDataGas, w, pool);
      res := Ok(result);
    }
  }
}
