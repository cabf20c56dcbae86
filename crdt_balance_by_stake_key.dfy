/** The CRDT balance-by-stake-key reducer
    (examples/crdt/reducers/src/balance_by_stake_key.ts): no merging; every
    output or resolved input at a base address becomes one
    positive/negative counter increment keyed by the stake address, the
    amount rendered as a decimal string. */
module CrdtBalanceByStakeKey {
  import opened Wrappers
  import opened Chain
  import opened Encoding
  import opened AddressCodec
  import opened Ledger
  import opened BlockWalker
  import opened CrdtCommand
  import RdbmsBalanceByStakeAddress
  import CrdtBalanceByStakeAddress

  /** The command for one signed amount. */
  function ToCommand(d: Delta): Command {
    PNCounter(d.key, DecimalString(d.value))
  }

  /** `processTxOutput`: undecodable bytes throw; outputs at addresses
      without a stake part are skipped (`null`); the others are keyed as the
      stake-address reducers key them, and carry the same signed amount. */
  function ProcessTxOutput(lib: Cml, txo: TxOutput, a: Action): (r: Result<Option<Command>, Thrown>)
    ensures r == Flip(RdbmsBalanceByStakeAddress.ProcessTxOutput(lib, txo, a), ToCommand)
    ensures r.Ok? && r.value.Some? ==> ParseDecimal(r.value.value.value) == Some(Signed(a, txo.coin))
  {
    if !lib.accepts(txo.address) then Err(FromBytesThrew)
    else if !IsBase(txo.address) then Ok(None)
    else
      var stakeAddress := lib.bech32(RewardAddressBytes(NetworkId(txo.address), StakeCredential(txo.address)), None);
      DecimalRoundTrip(Signed(a, txo.coin));
      Ok(Some(PNCounter(stakeAddress, DecimalString(Signed(a, txo.coin)))))
  }

  function Step(lib: Cml): BlockWalker.Step<Command, Thrown> {
    (o: TxOutput, a: Action) => ProcessTxOutput(lib, o, a)
  }

  /** `apply`: the outputs of each transaction produced, then its resolved
      inputs consumed; skipped outputs push nothing. */
  method ApplyBlock(lib: Cml, block: Block) returns (r: Result<seq<Command>, Thrown>)
    ensures r == Contributions(Step(lib), Txs(block), Apply)
  {
    r := CollectBlock(Step(lib), block, Apply);
  }

  /** `undo`: the outputs consumed, then the resolved inputs produced. */
  method UndoBlock(lib: Cml, block: Block) returns (r: Result<seq<Command>, Thrown>)
    ensures r == Contributions(Step(lib), Txs(block), Undo)
  {
    r := CollectBlock(Step(lib), block, Undo);
  }

  /** The increments are, one for one and in order, the contributions the
      stake-address reducers merge: each carries its contribution's stake
      address and exact amount. Summing them per key therefore gives the
      stake-address reducers' deltas. */
  lemma CommandsAreContributions(lib: Cml, block: Block, m: Method)
    ensures Contributions(Step(lib), Txs(block), m).Err? <==>
            Contributions(RdbmsBalanceByStakeAddress.Step(lib), Txs(block), m).Err?
    ensures Contributions(Step(lib), Txs(block), m).Ok? ==>
      var cs := Contributions(Step(lib), Txs(block), m).value;
      var ds := Contributions(RdbmsBalanceByStakeAddress.Step(lib), Txs(block), m).value;
      && |cs| == |ds|
      && forall i :: 0 <= i < |ds| ==> cs[i].key == ds[i].key && ParseDecimal(cs[i].value) == Some(ds[i].value)
  {
    ContributionsMap(RdbmsBalanceByStakeAddress.Step(lib), Step(lib), ToCommand, Txs(block), m);
    var c := Contributions(RdbmsBalanceByStakeAddress.Step(lib), Txs(block), m);
    if c.Ok? {
      forall i | 0 <= i < |c.value| ensures ParseDecimal(DecimalString(c.value[i].value)) == Some(c.value[i].value) {
        DecimalRoundTrip(c.value[i].value);
      }
    }
  }

  /** Rollback: undo throws exactly when apply throws, with the same error;
      otherwise its increments cancel those of apply one for one. */
  lemma UndoCancelsApply(lib: Cml, block: Block)
    ensures Contributions(Step(lib), Txs(block), Undo).Err? <==> Contributions(Step(lib), Txs(block), Apply).Err?
    ensures Contributions(Step(lib), Txs(block), Apply).Err? ==>
      Contributions(Step(lib), Txs(block), Undo) == Contributions(Step(lib), Txs(block), Apply)
    ensures Contributions(Step(lib), Txs(block), Apply).Ok? ==>
      CrdtBalanceByStakeAddress.Cancels(Contributions(Step(lib), Txs(block), Apply).value,
                                        Contributions(Step(lib), Txs(block), Undo).value)
  {
    var base := RdbmsBalanceByStakeAddress.Step(lib);
    RdbmsBalanceByStakeAddress.StepSignSymmetric(lib);
    ContributionsReversible(base, Txs(block));
    ContributionsMap(base, Step(lib), ToCommand, Txs(block), Apply);
    ContributionsMap(base, Step(lib), ToCommand, Txs(block), Undo);
    var c := Contributions(base, Txs(block), Apply);
    if c.Ok? {
      CommandsCancel(c.value);
    }
  }

  lemma CommandsCancel(ds: seq<Delta>)
    ensures CrdtBalanceByStakeAddress.Cancels(MapSeq(ds, ToCommand), MapSeq(Negate(ds), ToCommand))
  {
    var applied, undone := MapSeq(ds, ToCommand), MapSeq(Negate(ds), ToCommand);
    forall i | 0 <= i < |applied| ensures CrdtBalanceByStakeAddress.CancelsOne(applied[i], undone[i]) {
      CrdtBalanceByStakeAddress.CounterCancels(ds[i].key, ds[i].value);
    }
  }
}
