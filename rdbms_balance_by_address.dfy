/** The relational balance-by-address reducer
    (examples/rdbms/reducers/src/balance_by_address.ts): per block, the net
    lovelace change of every address (payment mode) or every stake address
    (stake mode), written as one bulk upsert and one delete of the rows that
    reach zero. */
module RdbmsBalanceByAddress {
  import opened Wrappers
  import opened Chain
  import opened Encoding
  import opened AddressCodec
  import opened Ledger
  import opened BlockWalker
  import opened Sql
  import JsConfig

  /** `processTxOutput`: decoding comes first, so undecodable bytes throw
      whatever the address type; payment mode keys by the Byron base58 form
      or the bech32 form and throws when neither exists; stake mode keys by
      the stake address and skips addresses without one; any other address
      type throws. */
  function ProcessTxOutput(lib: Cml, txo: TxOutput, addressType: string, a: Action): (r: Result<Option<Delta>, Thrown>)
    ensures !lib.accepts(txo.address) ==> r == Err(FromBytesThrew)
    ensures r.Err? <==>
      || !lib.accepts(txo.address)
      || (addressType != "payment" && addressType != "stake")
      || (addressType == "payment" && !IsByron(txo.address) && lib.bech32(txo.address, None) == "")
    ensures r == Ok(None) <==>
      lib.accepts(txo.address) && addressType == "stake" && !IsBase(txo.address)
    ensures r.Ok? && r.value.Some? ==> r.value.value.value == Signed(a, txo.coin)
    ensures r.Ok? && r.value.Some? && addressType == "payment" ==>
      r.value.value.key == if IsByron(txo.address) then lib.base58(txo.address) else lib.bech32(txo.address, None)
    ensures r.Ok? && r.value.Some? && addressType == "stake" ==>
      Some(r.value.value.key) == StakeKey(lib, txo.address)
    ensures r.Err? && lib.accepts(txo.address) && addressType == "payment" ==>
      r.error.CouldNotParse? && HexDecode(r.error.hex) == Some(txo.address)
    ensures r.Err? && lib.accepts(txo.address) && addressType != "payment" ==>
      r == Err(NotImplemented(addressType))
  {
    if !lib.accepts(txo.address) then Err(FromBytesThrew)
    else
      var key: Result<Option<string>, Thrown> :=
        if addressType == "payment" then
          if IsByron(txo.address) then Ok(Some(lib.base58(txo.address)))
          else if lib.bech32(txo.address, None) != "" then Ok(Some(lib.bech32(txo.address, None)))
          else
            HexRoundTrip(txo.address);
            Err(CouldNotParse(Hex(txo.address)))
        else if addressType == "stake" then Ok(StakeKey(lib, txo.address))
        else Err(NotImplemented(addressType));
      match key
      case Err(e) => Err(e)
      case Ok(None) => Ok(None)
      case Ok(Some(k)) => Ok(Some(Delta(k, Signed(a, txo.coin))))
  }

  function Step(lib: Cml, addressType: string): BlockWalker.Step<Delta, Thrown> {
    (o: TxOutput, a: Action) => ProcessTxOutput(lib, o, addressType, a)
  }

  /** Consuming an output is producing it with the sign flipped. */
  lemma StepSignSymmetric(lib: Cml, addressType: string)
    ensures SignSymmetric(Step(lib, addressType))
  {
    forall o: TxOutput
      ensures Step(lib, addressType)(o, Consume) == Flip(Step(lib, addressType)(o, Produce), NegDelta)
    {
    }
  }

  /** The two `ExecuteSQL` commands for a non-empty delta map; none for an
      empty one. */
  function Emit(table: string, l: Ledger): (cs: seq<Command>)
    ensures cs == [] <==> l.keys == []
    ensures l.keys != [] ==> |cs| == 2 && cs[0].sql.UpsertAll? && cs[1].sql.DeleteZero?
    ensures l.keys != [] ==> cs[0].sql.table == table && cs[1].sql.table == table
    ensures l.keys != [] ==> cs[0].sql.addresses == l.keys && cs[1].sql.addresses == l.keys
    ensures l.keys != [] ==> |cs[0].sql.balances| == |l.keys|
    ensures l.keys != [] && Valid(l) ==>
      forall i :: 0 <= i < |l.keys| ==> cs[0].sql.balances[i] == l.amount[l.keys[i]]
  {
    if l.keys == [] then []
    else [ExecuteSQL(UpsertAll(table, l.keys, Values(l))), ExecuteSQL(DeleteZero(table, l.keys))]
  }

  /** What `processBlock` returns (or throws) for a block and a config. */
  function Reduce(lib: Cml, block: Block, config: map<string, string>, m: Method): Result<seq<Command>, Thrown> {
    match Summarise(Contributions(Step(lib, JsConfig.Field(config, "addressType")), Txs(block), m))
    case Err(e) => Err(e)
    case Ok(l) => Ok(Emit(JsConfig.Field(config, "table"), l))
  }

  /** `processBlock`. */
  method ProcessBlock(lib: Cml, block: Block, config: map<string, string>, m: Method)
    returns (r: Result<seq<Command>, Thrown>)
    ensures r == Reduce(lib, block, config, m)
  {
    var addressType := JsConfig.Field(config, "addressType");
    var table := JsConfig.Field(config, "table");
    var deltas := AccumulateBlock(Step(lib, addressType), block, m);
    if deltas.Err? {
      return Err(deltas.error);
    }
    r := Ok(Emit(table, deltas.value));
  }

  /** `apply`. */
  method ApplyBlock(lib: Cml, block: Block, config: map<string, string>)
    returns (r: Result<seq<Command>, Thrown>)
    ensures r == Reduce(lib, block, config, Apply)
  {
    r := ProcessBlock(lib, block, config, Apply);
  }

  /** `undo`. */
  method UndoBlock(lib: Cml, block: Block, config: map<string, string>)
    returns (r: Result<seq<Command>, Thrown>)
    ensures r == Reduce(lib, block, config, Undo)
  {
    r := ProcessBlock(lib, block, config, Undo);
  }

  /** The commands of a block act on the balance table as `Settle` says:
      every touched address moves by its net delta and disappears when it
      reaches zero. */
  lemma ReduceEffect(lib: Cml, block: Block, config: map<string, string>, m: Method, rows: Rows)
    ensures Reduce(lib, block, config, m).Ok? ==>
      var l := Summarise(Contributions(Step(lib, JsConfig.Field(config, "addressType")), Txs(block), m)).value;
      ExecuteAll(rows, Reduce(lib, block, config, m).value) == Settle(rows, l.amount)
  {
    var step := Step(lib, JsConfig.Field(config, "addressType"));
    var c := Contributions(step, Txs(block), m);
    if c.Ok? {
      AccumulateSums(c.value);
      var l := Accumulate(c.value);
      if l.keys == [] {
        assert Settle(rows, l.amount) == rows;
      } else {
        UpsertThenDelete(rows, JsConfig.Field(config, "table"), l);
      }
    }
  }

  /** Applying a block's commands to a table with no zero rows leaves none. */
  lemma ApplyKeepsNoZeroRows(lib: Cml, block: Block, config: map<string, string>, m: Method, rows: Rows)
    requires NoZeroRows(rows)
    ensures Reduce(lib, block, config, m).Ok? ==> NoZeroRows(ExecuteAll(rows, Reduce(lib, block, config, m).value))
  {
    ReduceEffect(lib, block, config, m, rows);
    var c := Contributions(Step(lib, JsConfig.Field(config, "addressType")), Txs(block), m);
    if c.Ok? {
      SettleKeepsNoZeroRows(rows, Accumulate(c.value).amount);
    }
  }

  /** Rollback: undo throws exactly when apply throws, with the same error;
      otherwise running the undo commands after the apply commands gives a
      table with no zero rows back unchanged. */
  lemma UndoRestoresTable(lib: Cml, block: Block, config: map<string, string>, rows: Rows)
    requires NoZeroRows(rows)
    ensures Reduce(lib, block, config, Undo).Err? <==> Reduce(lib, block, config, Apply).Err?
    ensures Reduce(lib, block, config, Apply).Err? ==>
      Reduce(lib, block, config, Undo) == Reduce(lib, block, config, Apply)
    ensures Reduce(lib, block, config, Apply).Ok? ==>
      ExecuteAll(ExecuteAll(rows, Reduce(lib, block, config, Apply).value),
                 Reduce(lib, block, config, Undo).value) == rows
  {
    var step := Step(lib, JsConfig.Field(config, "addressType"));
    StepSignSymmetric(lib, JsConfig.Field(config, "addressType"));
    SummariseReversible(step, block);
    var c := Contributions(step, Txs(block), Apply);
    if c.Ok? {
      var l := Accumulate(c.value);
      ReduceEffect(lib, block, config, Apply, rows);
      ReduceEffect(lib, block, config, Undo, ExecuteAll(rows, Reduce(lib, block, config, Apply).value));
      SettleRoundTrip(rows, l);
    }
  }
}
