/** The balance-by-address reducer bundled with the Deno runtime
    (src/reduce/deno/modules/reducers/balance_by_address.ts): no merging;
    every output of a block and every resolved input becomes one
    positive/negative counter command keyed by the address string. */
module DenoBalanceByAddress {
  import opened Wrappers
  import opened Chain
  import opened AddressCodec
  import opened BlockWalker

  /** `{ command: "PNCounter", key, value }`: a `None` key is the
      `undefined` that `bytesToAddress` returns for unassigned header types;
      the value is an exact bigint. */
  datatype Command = PNCounter(key: Option<string>, value: int)

  /** `bytesToAddress`: decoding comes first and throws on undecodable
      bytes; then the header nibble picks the rendering. */
  function BytesToAddress(lib: Cml, bytes: seq<byte>): (r: Result<Option<string>, Thrown>)
    ensures r.Err? <==> !lib.accepts(bytes)
    ensures r.Err? ==> r.error == FromBytesThrew
    ensures r.Ok? ==> (r.value.None? <==> KindOf(HeaderType(bytes)) == Unassigned)
    ensures r.Ok? && KindOf(HeaderType(bytes)) in {BaseAddress, PointerAddress, EnterpriseAddress} ==>
      r.value == Some(lib.bech32(bytes, Some("addr")))
    ensures r.Ok? && KindOf(HeaderType(bytes)) == ByronAddress ==> r.value == Some(lib.base58(bytes))
    ensures r.Ok? && KindOf(HeaderType(bytes)) == RewardAddress ==>
      r.value == Some(lib.bech32(bytes, Some("stake")))
  {
    if !lib.accepts(bytes) then Err(FromBytesThrew)
    else
      var header := HeaderType(bytes);
      if header <= 7 then Ok(Some(lib.bech32(bytes, Some("addr"))))
      else if header == 8 then Ok(Some(lib.base58(bytes)))
      else if header >= 14 then Ok(Some(lib.bech32(bytes, Some("stake"))))
      else Ok(None)
  }

  /** `processTxOutput`: one command per output, the coin negated (`* -1n`)
      when consumed. */
  function ProcessTxOutput(lib: Cml, txo: TxOutput, a: Action): (r: Result<Option<Command>, Thrown>)
    ensures r.Err? <==> !lib.accepts(txo.address)
    ensures r.Ok? ==> r.value.Some? && r.value.value.key == BytesToAddress(lib, txo.address).value
    ensures r.Ok? ==> r.value.value.value == Signed(a, txo.coin)
  {
    match BytesToAddress(lib, txo.address)
    case Err(e) => Err(e)
    case Ok(key) =>
      var value := match a case Consume => txo.coin * -1 case Produce => txo.coin;
      Ok(Some(PNCounter(key, value)))
  }

  function Step(lib: Cml): BlockWalker.Step<Command, Thrown> {
    (o: TxOutput, a: Action) => ProcessTxOutput(lib, o, a)
  }

  function NegCommand(c: Command): Command {
    PNCounter(c.key, -c.value)
  }

  /** `apply`: the outputs of each transaction produced, then its resolved
      inputs consumed. */
  method ApplyBlock(lib: Cml, block: Block) returns (r: Result<seq<Command>, Thrown>)
    ensures r == Contributions(Step(lib), Txs(block), Apply)
  {
    r := CollectBlock(Step(lib), block, Apply);
  }

  /** `undo`: the outputs consumed, then the resolved inputs produced. */
  method UndoBlock(lib: Cml, block: Block) returns (r: Result<seq<Command>, Thrown>)
    ensures r == Contributions(Step(lib), Txs(block), Undo)
  {
    r := CollectBlock(Step(lib), block, Undo);
  }

  /** A block that can be reduced yields one command per output moved. */
  lemma CommandCount(lib: Cml, block: Block, m: Method)
    ensures Contributions(Step(lib), Txs(block), m).Ok? ==>
      |Contributions(Step(lib), Txs(block), m).value| == Moved(Txs(block))
  {
    ContributionsCount(Step(lib), Txs(block), m);
  }

  /** Rollback: undo throws exactly when apply throws, with the same error;
      otherwise it emits the same counter keys in the same order with every
      value negated. */
  lemma UndoMirrorsApply(lib: Cml, block: Block)
    ensures Contributions(Step(lib), Txs(block), Undo).Err? <==> Contributions(Step(lib), Txs(block), Apply).Err?
    ensures Contributions(Step(lib), Txs(block), Apply).Err? ==>
      Contributions(Step(lib), Txs(block), Undo) == Contributions(Step(lib), Txs(block), Apply)
    ensures Contributions(Step(lib), Txs(block), Apply).Ok? ==>
      var applied := Contributions(Step(lib), Txs(block), Apply).value;
      var undone := Contributions(Step(lib), Txs(block), Undo).value;
      && |undone| == |applied|
      && forall i :: 0 <= i < |applied| ==> undone[i].key == applied[i].key && undone[i].value == -applied[i].value
  {
    forall o: TxOutput ensures Step(lib)(o, Consume) == Flip(Step(lib)(o, Produce), NegCommand) {
    }
    assert Involution(NegCommand);
    ContributionsMirrored(Step(lib), NegCommand, Txs(block));
  }
}
