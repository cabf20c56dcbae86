/** The relational balance-by-stake-address reducer
    (examples/rdbms/reducers/src/balance_by_stake_address.ts): per block, the
    net lovelace change of every stake address, written as one single-row
    upsert per stake address. */
module RdbmsBalanceByStakeAddress {
  import opened Wrappers
  import opened Chain
  import opened AddressCodec
  import opened Ledger
  import opened BlockWalker
  import opened Sql
  import JsConfig

  /** `processTxOutput`: undecodable bytes throw; base addresses are keyed by
      their stake address, every other output is skipped. */
  function ProcessTxOutput(lib: Cml, txo: TxOutput, a: Action): (r: Result<Option<Delta>, Thrown>)
    ensures r.Err? <==> !lib.accepts(txo.address)
    ensures r.Err? ==> r.error == FromBytesThrew
    ensures r == Ok(None) <==> lib.accepts(txo.address) && !IsBase(txo.address)
    ensures r.Ok? && r.value.Some? ==>
      Some(r.value.value.key) == StakeKey(lib, txo.address) && r.value.value.value == Signed(a, txo.coin)
  {
    if !lib.accepts(txo.address) then Err(FromBytesThrew)
    else
      match StakeKey(lib, txo.address)
      case None => Ok(None)
      case Some(k) => Ok(Some(Delta(k, Signed(a, txo.coin))))
  }

  function Step(lib: Cml): BlockWalker.Step<Delta, Thrown> {
    (o: TxOutput, a: Action) => ProcessTxOutput(lib, o, a)
  }

  lemma StepSignSymmetric(lib: Cml)
    ensures SignSymmetric(Step(lib))
  {
    forall o: TxOutput ensures Step(lib)(o, Consume) == Flip(Step(lib)(o, Produce), NegDelta) {
    }
  }

  /** The `Object.entries(deltas)` loop: one upsert per stake address, in the
      order the addresses were first touched. */
  method EmitCommands(table: string, l: Ledger) returns (cs: seq<Command>)
    ensures cs == Upserts(table, l.keys, Values(l))
  {
    var vs := Values(l);
    cs := [];
    var i := 0;
    while i < |l.keys|
      invariant 0 <= i <= |l.keys|
      invariant cs == Upserts(table, l.keys[..i], vs[..i])
    {
      assert l.keys[..i + 1] == l.keys[..i] + [l.keys[i]];
      assert vs[..i + 1] == vs[..i] + [vs[i]];
      cs := cs + [ExecuteSQL(UpsertOne(table, l.keys[i], vs[i]))];
      i := i + 1;
    }
    assert l.keys[..i] == l.keys && vs[..i] == vs;
  }

  /** What `processBlock` returns (or throws). */
  function Reduce(lib: Cml, block: Block, config: map<string, string>, m: Method): Result<seq<Command>, Thrown> {
    match Summarise(Contributions(Step(lib), Txs(block), m))
    case Err(e) => Err(e)
    case Ok(l) => Ok(Upserts(JsConfig.Field(config, "table"), l.keys, Values(l)))
  }

  /** `processBlock`; `apply` passes `Apply`, `undo` passes `Undo`. */
  method ProcessBlock(lib: Cml, block: Block, config: map<string, string>, m: Method)
    returns (r: Result<seq<Command>, Thrown>)
    ensures r == Reduce(lib, block, config, m)
  {
    var deltas := AccumulateBlock(Step(lib), block, m);
    if deltas.Err? {
      return Err(deltas.error);
    }
    var cs := EmitCommands(JsConfig.Field(config, "table"), deltas.value);
    r := Ok(cs);
  }

  /** One command per stake address touched, and the commands move each
      stake address's row by its net delta. */
  lemma ReduceEffect(lib: Cml, block: Block, config: map<string, string>, m: Method, rows: Rows)
    ensures Reduce(lib, block, config, m).Ok? ==>
      var l := Summarise(Contributions(Step(lib), Txs(block), m)).value;
      && |Reduce(lib, block, config, m).value| == |l.amount|
      && ExecuteAll(rows, Reduce(lib, block, config, m).value) == Shift(rows, l.amount)
  {
    var c := Contributions(Step(lib), Txs(block), m);
    if c.Ok? {
      AccumulateSums(c.value);
      var l := Accumulate(c.value);
      UpsertsAddAll(rows, JsConfig.Field(config, "table"), l.keys, Values(l));
      AddAllShift(rows, l);
      KeyCount(l);
    }
  }

  /** Rollback: undo throws exactly when apply throws; otherwise the undo
      commands bring every balance back, though a stake address first seen
      in the block keeps a row at zero. */
  lemma UndoRestoresBalances(lib: Cml, block: Block, config: map<string, string>, rows: Rows)
    ensures Reduce(lib, block, config, Undo).Err? <==> Reduce(lib, block, config, Apply).Err?
    ensures Reduce(lib, block, config, Apply).Err? ==>
      Reduce(lib, block, config, Undo) == Reduce(lib, block, config, Apply)
    ensures Reduce(lib, block, config, Apply).Ok? ==>
      var after := ExecuteAll(ExecuteAll(rows, Reduce(lib, block, config, Apply).value),
                              Reduce(lib, block, config, Undo).value);
      var l := Summarise(Contributions(Step(lib), Txs(block), Apply)).value;
      && after.Keys == rows.Keys + l.amount.Keys
      && (forall k :: Get(after, k) == Get(rows, k))
      && (forall k :: k in after && k !in rows ==> after[k] == 0)
  {
    StepSignSymmetric(lib);
    SummariseReversible(Step(lib), block);
    var c := Contributions(Step(lib), Txs(block), Apply);
    if c.Ok? {
      var l := Accumulate(c.value);
      ReduceEffect(lib, block, config, Apply, rows);
      ReduceEffect(lib, block, config, Undo, ExecuteAll(rows, Reduce(lib, block, config, Apply).value));
      ShiftRoundTrip(rows, l);
    }
  }
}
