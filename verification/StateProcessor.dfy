/**
 Applying the transactions of a block (core/state_processor.go): the loop of `Process`,
 `ApplyTransactionWithEVM` and the gas fields of `MakeReceipt`.

 The EVM run of each transaction and the finalisation of the state between transactions are
 parameters; neither creates ether.
 */
module StateProcessor {
  import opened Basics
  import opened StateDb
  import opened GasCosts
  import opened StateTransitions

  datatype Receipt = Receipt(failed: bool, cumulativeGasUsed: nat, gasUsed: nat, blobGasUsed: nat)

  type Finaliser = World -> World

  ghost predicate Careful(finalise: Finaliser) {
    forall w: World :: Total(finalise(w)) <= Total(w)
  }

  /** The gas of the receipts together. */
  ghost function GasOf(receipts: seq<Receipt>): nat {
    if receipts == [] then 0 else GasOf(receipts[..|receipts| - 1]) + receipts[|receipts| - 1].gasUsed
  }

  /** What the blobs of the transactions cost together. */
  ghost function BlobFees(txs: seq<Transaction>, ctx: Context): nat {
    if txs == [] then 0 else BlobFees(txs[..|txs| - 1], ctx) + BlobFeeOf(txs[|txs| - 1].blobHashes, ctx)
  }

  /** Transactions of lengths that fit in memory. */
  ghost predicate TxSized(tx: Transaction) {
    && tx.gas <= MAX_UINT64 && |tx.data| < 0x100_0000_0000
    && (tx.accessList.Some? ==>
          tx.accessList.value.addresses < 0x100_0000_0000 && tx.accessList.value.storageKeys < 0x100_0000_0000)
    && (tx.auths.Some? ==> |tx.auths.value| < 0x100_0000_0000)
  }

  /** Receipt `j` used gas, and carries the sum of the gas up to and including its own. */
  ghost predicate PrefixSum(receipts: seq<Receipt>, j: nat)
    requires j < |receipts|
  {
    receipts[j].gasUsed > 0 && receipts[j].cumulativeGasUsed == GasOf(receipts[..j + 1])
  }

  ghost predicate PrefixSums(receipts: seq<Receipt>) {
    forall j :: 0 <= j < |receipts| ==> PrefixSum(receipts, j)
  }

  lemma PrefixSumsGrow(receipts: seq<Receipt>, r: Receipt)
    requires PrefixSums(receipts) && r.gasUsed > 0 && r.cumulativeGasUsed == GasOf(receipts) + r.gasUsed
    ensures PrefixSums(receipts + [r]) && GasOf(receipts + [r]) == r.cumulativeGasUsed
  {
    var all := receipts + [r];
    assert all[..|receipts|] == receipts && all[..|all|] == all;
    forall j | 0 <= j < |receipts| ensures PrefixSum(all, j) {
      assert PrefixSum(receipts, j);
      assert all[..j + 1] == receipts[..j + 1];
    }
  }

  /** So cumulative gas strictly increases along the block. */
  lemma {:induction false} CumulativeIncreases(receipts: seq<Receipt>, i: nat, j: nat)
    requires PrefixSums(receipts) && i < j < |receipts|
    ensures receipts[i].cumulativeGasUsed < receipts[j].cumulativeGasUsed
    decreases j
  {
    assert PrefixSum(receipts, j) && PrefixSum(receipts, j - 1);
    assert receipts[..j + 1][..j] == receipts[..j];
    if i < j - 1 {
      CumulativeIncreases(receipts, i, j - 1);
    }
  }

  /** After every transaction the gas pool and the gas used so far make up the block gas limit, and
      no transaction used more than its own limit. */
  ghost predicate Balanced(txs: seq<Transaction>, receipts: seq<Receipt>, pools: seq<nat>, gasLimit: nat) {
    && |pools| == |receipts| + 1 <= |txs| + 1 && pools[0] == gasLimit
    && forall j :: 0 <= j < |receipts| ==>
         receipts[j].gasUsed <= txs[j].gas && pools[j + 1] + receipts[j].cumulativeGasUsed == gasLimit
  }

  lemma BalancedGrows(txs: seq<Transaction>, receipts: seq<Receipt>, pools: seq<nat>, gasLimit: nat, r: Receipt,
                      pool: nat)
    requires Balanced(txs, receipts, pools, gasLimit) && |receipts| < |txs|
    requires r.gasUsed <= txs[|receipts|].gas && pool + r.cumulativeGasUsed == gasLimit
    ensures Balanced(txs, receipts + [r], pools + [pool], gasLimit)
  {
  }

  /** The transaction can be part of the block in this state, with this gas left. */
  ghost predicate Accepts(tx: Transaction, state: World, ctx: Context, pool: nat)
    requires (ctx.rules.london <==> ctx.baseFee.Some?) && TxSized(tx)
  {
    var m := TransactionToMessage(tx, ctx.baseFee);
    m.Ok? && Acceptable(state, m.value, ctx, pool)
  }

  /** The transaction is refused for this reason. */
  ghost predicate Refuses(tx: Transaction, state: World, ctx: Context, pool: nat, e: Error)
    requires (ctx.rules.london <==> ctx.baseFee.Some?) && TxSized(tx)
  {
    if tx.sender.None? then e == BadSender
    else Reason(state, TransactionToMessage(tx, ctx.baseFee).value, ctx, pool, e)
  }

  /** The transaction was accepted, executed with this result, and its state was finalised. `lost` is
      the ether that the EVM and the finalisation destroyed. */
  ghost predicate Applied(tx: Transaction, state: World, ctx: Context, pool: nat, evm: Evm, finalise: Finaliser,
                          res: ExecutionResult, state': World, lost: nat)
    requires (ctx.rules.london <==> ctx.baseFee.Some?) && TxSized(tx)
  {
    && Accepts(tx, state, ctx, pool)
    && var msg := TransactionToMessage(tx, ctx.baseFee).value;
    && res.usedGas <= msg.gasLimit
    && var after := Settled(Run(state, msg, ctx, evm).world, msg, ctx, res.usedGas);
    && Executed(state, msg, ctx, evm, res, after) && state' == finalise(after)
    && lost == Destroyed(state, msg, ctx, evm) + Total(after) - Total(state')
  }

  /** What a block is applied to, and with what. */
  datatype Block = Block(txs: seq<Transaction>, gasLimit: nat, ctx: Context, evms: seq<Evm>, finalise: Finaliser)

  ghost predicate BlockSized(b: Block) {
    && b.gasLimit <= MAX_UINT64 && |b.evms| == |b.txs| && (b.ctx.rules.london <==> b.ctx.baseFee.Some?)
    && (forall i :: 0 <= i < |b.txs| ==> TxSized(b.txs[i]))
    && (forall i :: 0 <= i < |b.evms| ==> Sound(b.evms[i])) && Careful(b.finalise)
  }

  /** Transaction `j` of the block was applied in this state and with this gas pool, and its receipt
      says so. */
  ghost predicate RecordedAs(b: Block, j: nat, state: World, pool: nat, receipt: Receipt, res: ExecutionResult,
                             state': World, lost: nat)
    requires BlockSized(b) && j < |b.txs|
  {
    && Applied(b.txs[j], state, b.ctx, pool, b.evms[j], b.finalise, res, state', lost)
    && receipt.gasUsed == res.usedGas && receipt.failed == res.failed
    && receipt.blobGasUsed == BlobGasOf(b.txs[j].blobHashes)
  }

  /** Transaction `j` was applied to the state and the gas pool that the ones before it left. */
  ghost predicate Recorded(b: Block, receipts: seq<Receipt>, results: seq<ExecutionResult>, states: seq<World>,
                           pools: seq<nat>, losses: seq<nat>, j: nat)
    requires BlockSized(b) && j < |receipts| == |results| == |losses| <= |b.txs|
    requires |states| == |pools| == |receipts| + 1
  {
    RecordedAs(b, j, states[j], pools[j], receipts[j], results[j], states[j + 1], losses[j])
  }

  ghost predicate Transcript(b: Block, receipts: seq<Receipt>, results: seq<ExecutionResult>, states: seq<World>,
                             pools: seq<nat>, losses: seq<nat>)
    requires BlockSized(b)
  {
    && |receipts| == |results| == |losses| <= |b.txs| && |states| == |pools| == |receipts| + 1
    && forall j :: 0 <= j < |receipts| ==> Recorded(b, receipts, results, states, pools, losses, j)
  }

  lemma TranscriptGrows(b: Block, receipts: seq<Receipt>, results: seq<ExecutionResult>, states: seq<World>,
                        pools: seq<nat>, losses: seq<nat>, receipt: Receipt, res: ExecutionResult, state: World,
                        pool: nat, lost: nat)
    requires BlockSized(b) && Transcript(b, receipts, results, states, pools, losses) && |receipts| < |b.txs|
    requires RecordedAs(b, |receipts|, states[|receipts|], pools[|receipts|], receipt, res, state, lost)
    ensures Transcript(b, receipts + [receipt], results + [res], states + [state], pools + [pool], losses + [lost])
  {
    var receipts', results', states' := receipts + [receipt], results + [res], states + [state];
    var pools', losses' := pools + [pool], losses + [lost];
    forall j | 0 <= j <= |receipts| ensures Recorded(b, receipts', results', states', pools', losses', j) {
      if j < |receipts| {
        assert Recorded(b, receipts, results, states, pools, losses, j);
        assert receipts'[j] == receipts[j] && results'[j] == results[j] && losses'[j] == losses[j];
        assert states'[j] == states[j] && states'[j + 1] == states[j + 1] && pools'[j] == pools[j];
      }
    }
  }

  /** The ether account of a block, one transaction on. */
  lemma LossAdds(ctx: Context, txs: seq<Transaction>, i: nat, before: nat, mid: nat, after: nat,
                 destroyed: nat, used: nat, lost: nat, more: nat)
    requires i < |txs|
    requires before == mid + destroyed + BurntFee(ctx, used) + BlobFees(txs[..i], ctx)
    requires mid == after + lost + BurntFee(ctx, more) + BlobFeeOf(txs[i].blobHashes, ctx)
    ensures before == after + (destroyed + lost) + BurntFee(ctx, used + more) + BlobFees(txs[..i + 1], ctx)
  {
    BurntFeesAdd(ctx, used, more);
    BlobFeesGrow(txs, i, ctx);
  }

  lemma BurntFeesAdd(ctx: Context, used: nat, more: nat)
    ensures BurntFee(ctx, used) + BurntFee(ctx, more) == BurntFee(ctx, used + more)
  {
    Distribute(used, more, BurntPerGas(ctx));
  }

  lemma BlobFeesGrow(txs: seq<Transaction>, i: nat, ctx: Context)
    requires i < |txs|
    ensures BlobFees(txs[..i + 1], ctx) == BlobFees(txs[..i], ctx) + BlobFeeOf(txs[i].blobHashes, ctx)
  {
    assert txs[..i + 1][..i] == txs[..i];
  }

  /** The record of a block that is being processed: a receipt and a result for each transaction so
      far, the state and the gas pool before each of them and after the last, and the ether that the
      EVM and the finalisation destroyed in each. */
  datatype Ledger = Ledger(receipts: seq<Receipt>, results: seq<ExecutionResult>, states: seq<World>, pools: seq<nat>,
                           losses: seq<nat>)

  ghost function Sum(losses: seq<nat>): nat {
    if losses == [] then 0 else Sum(losses[..|losses| - 1]) + losses[|losses| - 1]
  }

  /** What holds after every transaction: the record is a transcript that starts in `state`, the gas
      adds up, and of the ether exactly the base fees, the blob fees and what was destroyed are lost. */
  ghost predicate Accounted(b: Block, state: World, l: Ledger)
    requires BlockSized(b)
  {
    && Transcript(b, l.receipts, l.results, l.states, l.pools, l.losses) && l.states[0] == state
    && PrefixSums(l.receipts) && Balanced(b.txs, l.receipts, l.pools, b.gasLimit)
    && EtherAccounted(b, state, l)
  }

  function Entered(l: Ledger, receipt: Receipt, res: ExecutionResult, state: World, pool: nat, lost: nat): Ledger {
    Ledger(l.receipts + [receipt], l.results + [res], l.states + [state], l.pools + [pool], l.losses + [lost])
  }

  /** The ether account of a ledger. */
  ghost predicate EtherAccounted(b: Block, state: World, l: Ledger)
    requires |l.receipts| <= |b.txs| && |l.states| == |l.receipts| + 1
  {
    var n := |l.receipts|;
    Total(state)
    == Total(l.states[n]) + Sum(l.losses) + BurntFee(b.ctx, GasOf(l.receipts)) + BlobFees(b.txs[..n], b.ctx)
  }

  lemma EtherEntered(b: Block, state: World, l: Ledger, receipt: Receipt, res: ExecutionResult, next: World, pool: nat,
                     lost: nat)
    requires |l.receipts| < |b.txs| && |l.states| == |l.receipts| + 1 && EtherAccounted(b, state, l)
    requires receipt.gasUsed == res.usedGas
    requires var i := |l.receipts|;
             Total(l.states[i])
             == Total(next) + lost + BurntFee(b.ctx, res.usedGas) + BlobFeeOf(b.txs[i].blobHashes, b.ctx)
    ensures EtherAccounted(b, state, Entered(l, receipt, res, next, pool, lost))
  {
    var i := |l.receipts|;
    LossAdds(b.ctx, b.txs, i, Total(state), Total(l.states[i]), Total(next), Sum(l.losses), GasOf(l.receipts),
             lost, res.usedGas);
    assert (l.losses + [lost])[..|l.losses|] == l.losses;
    assert (l.receipts + [receipt])[..i] == l.receipts;
  }

  lemma EnteredIsAccounted(b: Block, state: World, l: Ledger, receipt: Receipt, res: ExecutionResult, next: World,
                           pool: nat, lost: nat)
    requires BlockSized(b) && Accounted(b, state, l) && |l.receipts| < |b.txs|
    requires var i := |l.receipts|;
             && Applied(b.txs[i], l.states[i], b.ctx, l.pools[i], b.evms[i], b.finalise, res, next, lost)
             && receipt == Receipt(res.failed, GasOf(l.receipts) + res.usedGas, res.usedGas,
                                   BlobGasOf(b.txs[i].blobHashes))
             && 0 < res.usedGas <= b.txs[i].gas && pool + receipt.cumulativeGasUsed == b.gasLimit
             && Total(l.states[i])
                == Total(next) + lost + BurntFee(b.ctx, res.usedGas) + BlobFeeOf(b.txs[i].blobHashes, b.ctx)
    ensures Accounted(b, state, Entered(l, receipt, res, next, pool, lost))
    ensures GasOf(Entered(l, receipt, res, next, pool, lost).receipts) == receipt.cumulativeGasUsed
  {
    TranscriptGrows(b, l.receipts, l.results, l.states, l.pools, l.losses, receipt, res, next, pool, lost);
    PrefixSumsGrow(l.receipts, receipt);
    BalancedGrows(b.txs, l.receipts, l.pools, b.gasLimit, receipt, pool);
    EtherEntered(b, state, l, receipt, res, next, pool, lost);
  }

  /** Applying a transaction has one outcome. */
  lemma AppliedOnce(tx: Transaction, state: World, ctx: Context, pool: nat, evm: Evm, finalise: Finaliser,
                    res: ExecutionResult, after: World, lost: nat, res': ExecutionResult, after': World, lost': nat)
    requires (ctx.rules.london <==> ctx.baseFee.Some?) && TxSized(tx)
    requires Applied(tx, state, ctx, pool, evm, finalise, res, after, lost)
    requires Applied(tx, state, ctx, pool, evm, finalise, res', after', lost')
    ensures res == res' && after == after' && lost == lost'
  {
  }

  /** One transaction further two ledgers of the same block still agree. */
  lemma StepsAgree(b: Block, l: Ledger, l': Ledger, i: nat)
    requires BlockSized(b) && i < |l.receipts| && i < |l'.receipts|
    requires Transcript(b, l.receipts, l.results, l.states, l.pools, l.losses)
    requires Transcript(b, l'.receipts, l'.results, l'.states, l'.pools, l'.losses)
    requires l.states[i] == l'.states[i] && l.pools[i] == l'.pools[i]
    ensures l.states[i + 1] == l'.states[i + 1] && l.results[i] == l'.results[i] && l.losses[i] == l'.losses[i]
    ensures l.receipts[i].gasUsed == l'.receipts[i].gasUsed
    ensures l.receipts[i].(cumulativeGasUsed := 0) == l'.receipts[i].(cumulativeGasUsed := 0)
  {
    assert Recorded(b, l.receipts, l.results, l.states, l.pools, l.losses, i);
    assert Recorded(b, l'.receipts, l'.results, l'.states, l'.pools, l'.losses, i);
    AppliedOnce(b.txs[i], l.states[i], b.ctx, l.pools[i], b.evms[i], b.finalise,
                l.results[i], l.states[i + 1], l.losses[i], l'.results[i], l'.states[i + 1], l'.losses[i]);
  }

  /** Each transaction takes its gas out of the pool. */
  lemma PoolShrinks(txs: seq<Transaction>, receipts: seq<Receipt>, pools: seq<nat>, gasLimit: nat, i: nat)
    requires Balanced(txs, receipts, pools, gasLimit) && PrefixSums(receipts) && i < |receipts|
    ensures pools[i + 1] == pools[i] - receipts[i].gasUsed
  {
    assert PrefixSum(receipts, i);
    assert receipts[..i + 1][..i] == receipts[..i];
    assert GasOf(receipts[..i + 1]) == GasOf(receipts[..i]) + receipts[i].gasUsed;
    if i > 0 {
      assert PrefixSum(receipts, i - 1);
    } else {
      assert receipts[..i] == [];
    }
  }

  /** And so has a block: what the ledger holds after `n` transactions is determined by the block and
      the state it starts in, and with it whether the next transaction is acceptable. */
  lemma {:induction false} LedgersAgree(b: Block, state: World, l: Ledger, l': Ledger, n: nat)
    requires BlockSized(b) && Accounted(b, state, l) && Accounted(b, state, l')
    requires n <= |l.receipts| && n <= |l'.receipts|
    ensures l.states[n] == l'.states[n] && l.pools[n] == l'.pools[n]
    ensures n > 0 ==> l.receipts[n - 1] == l'.receipts[n - 1] && l.results[n - 1] == l'.results[n - 1]
    ensures n > 0 ==> l.losses[n - 1] == l'.losses[n - 1]
  {
    if n > 0 {
      LedgersAgree(b, state, l, l', n - 1);
      StepsAgree(b, l, l', n - 1);
      PoolShrinks(b.txs, l.receipts, l.pools, b.gasLimit, n - 1);
      PoolShrinks(b.txs, l'.receipts, l'.pools, b.gasLimit, n - 1);
    }
  }

  /** An EVM and a finalisation that destroy no ether. */
  ghost predicate Lossless(evm: Evm, finalise: Finaliser) {
    && (forall w: World, gas: nat :: Total(evm(w, gas).world) == Total(w))
    && (forall w: World :: Total(finalise(w)) == Total(w))
  }

  lemma NothingLost(tx: Transaction, state: World, ctx: Context, pool: nat, evm: Evm, finalise: Finaliser,
                    res: ExecutionResult, after: World, lost: nat)
    requires (ctx.rules.london <==> ctx.baseFee.Some?) && TxSized(tx) && Lossless(evm, finalise)
    requires Applied(tx, state, ctx, pool, evm, finalise, res, after, lost)
    ensures lost == 0
  {
    var msg := TransactionToMessage(tx, ctx.baseFee).value;
    var gas: nat := msg.gasLimit - Intrinsic(msg, ctx.rules).value;
    assert Total(evm(Prepared(state, msg, ctx), gas).world) == Total(Prepared(state, msg, ctx));
  }

  lemma {:induction false} NoLosses(b: Block, l: Ledger, n: nat)
    requires BlockSized(b) && Transcript(b, l.receipts, l.results, l.states, l.pools, l.losses) && n <= |l.losses|
    requires forall i :: 0 <= i < |b.evms| ==> Lossless(b.evms[i], b.finalise)
    ensures Sum(l.losses[..n]) == 0
  {
    if n > 0 {
      var j := n - 1;
      NoLosses(b, l, j);
      assert Recorded(b, l.receipts, l.results, l.states, l.pools, l.losses, j);
      NothingLost(b.txs[j], l.states[j], b.ctx, l.pools[j], b.evms[j], b.finalise, l.results[j], l.states[n],
                  l.losses[j]);
      assert l.losses[..n][..j] == l.losses[..j];
    }
  }

  /** Then a block costs exactly the base fees and the blob fees. */
  lemma LosslessBlock(b: Block, state: World, l: Ledger)
    requires BlockSized(b) && Accounted(b, state, l)
    requires forall i :: 0 <= i < |b.evms| ==> Lossless(b.evms[i], b.finalise)
    ensures var n := |l.receipts|;
            Total(state) == Total(l.states[n]) + BurntFee(b.ctx, GasOf(l.receipts)) + BlobFees(b.txs[..n], b.ctx)
  {
    NoLosses(b, l, |l.losses|);
    assert l.losses[..|l.losses|] == l.losses;
  }

  /** `ApplyTransactionWithEVM`: one transaction, its gas added to the counter of the block. */
  method ApplyTransaction(tx: Transaction, gp: GasPool, state: World, ctx: Context, usedGas: nat, evm: Evm,
                          finalise: Finaliser)
    returns (res: Result<Receipt>, state': World, ghost result: ExecutionResult, ghost destroyed: nat)
    requires gp.Valid() && TxSized(tx) && Sound(evm) && Careful(finalise) && Total(state) < U256
    requires ctx.rules.london <==> ctx.baseFee.Some?
    modifies gp
    ensures gp.Valid() && (res.Ok? <==> Accepts(tx, state, ctx, old(gp.gas)))
    ensures res.Err? ==> Refuses(tx, state, ctx, old(gp.gas), res.error) && state' == state
    ensures res.Ok? ==> Applied(tx, state, ctx, old(gp.gas), evm, finalise, result, state', destroyed)
    ensures res.Ok? ==>
              res.value == Receipt(result.failed, usedGas + result.usedGas, result.usedGas, BlobGasOf(tx.blobHashes))
    ensures res.Ok? ==> 0 < result.usedGas <= tx.gas && gp.gas == old(gp.gas) - result.usedGas
    ensures res.Ok? ==>
              Total(state) == Total(state') + destroyed + BurntFee(ctx, result.usedGas) + BlobFeeOf(tx.blobHashes, ctx)
  {
    destroyed, state', result := 0, state, ExecutionResult(0, 0, false);
    var m := TransactionToMessage(tx, ctx.baseFee);
    if m.Err? {
      return Err(m.error), state, result, 0;
    }
    var msg := m.value;
    MessagesArePriced(tx, ctx.baseFee);
    var st := new StateTransition(gp, msg, ctx, state);
    var r := st.Execute(evm);
    if r.Err? {
      return Err(r.error), state, result, 0;
    }
    state', result := finalise(st.state), r.value;
    destroyed := Destroyed(state, msg, ctx, evm) + (Total(st.state) - Total(state'));
    res := Ok(Receipt(r.value.failed, usedGas + r.value.usedGas, r.value.usedGas, BlobGas(msg)));
  }

  /** The next transaction of a block, entered in the ledger if it is accepted. */
  method ApplyNext(block: Block, i: nat, gp: GasPool, state: World, usedGas: nat, ghost start: World, ghost l: Ledger)
    returns (res: Result<Receipt>, state': World, ghost l': Ledger)
    requires BlockSized(block) && gp.Valid() && Accounted(block, start, l) && |l.receipts| == i < |block.txs|
    requires Total(start) < U256
    requires state == l.states[i] && gp.gas == l.pools[i]
    requires usedGas == GasOf(l.receipts) == block.gasLimit - gp.gas
    modifies gp
    ensures gp.Valid() && Accounted(block, start, l')
    ensures res.Err? ==> Refuses(block.txs[i], state, block.ctx, l.pools[i], res.error) && l' == l
    ensures res.Err? ==> !Accepts(block.txs[i], state, block.ctx, l.pools[i])
    ensures res.Ok? ==> l'.receipts == l.receipts + [res.value] && state' == l'.states[i + 1]
    ensures res.Ok? ==> gp.gas == l'.pools[i + 1]
    ensures res.Ok? ==> GasOf(l'.receipts) == usedGas + res.value.gasUsed == block.gasLimit - gp.gas
  {
    ghost var result, lost;
    res, state', result, lost := ApplyTransaction(block.txs[i], gp, state, block.ctx, usedGas, block.evms[i],
                                                  block.finalise);
    l' := l;
    if res.Ok? {
      EnteredIsAccounted(block, start, l, res.value, result, state', gp.gas, lost);
      l' := Entered(l, res.value, result, state', gp.gas, lost);
    }
  }

  /** The transaction loop of `Process`. The block fails exactly at the first transaction that is not
      acceptable in its turn; up to there everything is accounted for. */
  method Process(block: Block, state: World)
    returns (res: Result<seq<Receipt>>, usedGas: nat, state': World, ghost l: Ledger)
    requires BlockSized(block) && Total(state) < U256
    ensures Accounted(block, state, l) && state' == l.states[|l.receipts|]
    ensures usedGas == GasOf(l.receipts) == block.gasLimit - l.pools[|l.receipts|]
    ensures res.Ok? ==> res.value == l.receipts && |l.receipts| == |block.txs|
    ensures res.Err? ==> |l.receipts| < |block.txs|
    ensures res.Err? ==> Refuses(block.txs[|l.receipts|], state', block.ctx, l.pools[|l.receipts|], res.error)
    ensures res.Err? ==> !Accepts(block.txs[|l.receipts|], state', block.ctx, l.pools[|l.receipts|])
  {
    var gp := new GasPool();
    var panicked := gp.AddGas(block.gasLimit);
    var receipts: seq<Receipt> := [];
    usedGas, state', l := 0, state, Ledger([], [], [state], [block.gasLimit], []);
    for i := 0 to |block.txs|
      invariant gp.Valid() && fresh(gp) && |receipts| == i && receipts == l.receipts && Accounted(block, state, l)
      invariant state' == l.states[i] && gp.gas == l.pools[i] && usedGas == GasOf(receipts) == block.gasLimit - gp.gas
    {
      var r, next;
      ghost var l';
      r, next, l' := ApplyNext(block, i, gp, state', usedGas, state, l);
      if r.Err? {
        return Err(r.error), usedGas, state', l;
      }
      usedGas, state', receipts, l := usedGas + r.value.gasUsed, next, receipts + [r.value], l';
    }
    res := Ok(receipts);
  }
}
