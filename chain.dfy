/** The block as the reducers see it (the UTxO RPC `Block`, `Tx`, `TxOutput`
    and `TxInput` messages), reduced to the fields the balance reducers read. */
module Chain {
  import opened Wrappers

  type byte = x: int | 0 <= x < 256

  /** Unsigned 64-bit integer, the width of `coin` and of slot numbers. */
  type u64 = x: int | 0 <= x < 0x1_0000_0000_0000_0000

  datatype TxOutput = TxOutput(address: seq<byte>, coin: u64)

  /** An input; `asOutput` is present only when the spent output was resolved
      into the payload. */
  datatype TxInput = TxInput(asOutput: Option<TxOutput>)

  datatype Tx = Tx(inputs: seq<TxInput>, outputs: seq<TxOutput>)

  datatype BlockHeader = BlockHeader(slot: u64, hash: seq<byte>)

  datatype Block = Block(header: Option<BlockHeader>, body: Option<seq<Tx>>)

  /** A chain point: the origin, or a slot with a block hash. */
  datatype Point = Origin | Specific(slot: u64, hash: seq<byte>)

  /** `block.body?.tx ?? []`: the transactions, none when the body is absent. */
  function Txs(block: Block): (txs: seq<Tx>)
    ensures block.body.None? ==> txs == []
    ensures block.body.Some? ==> txs == block.body.value
  {
    match block.body
    case None => []
    case Some(txs) => txs
  }

  /** `Point::slot_or_default`: the slot of a specific point, 0 for the origin. */
  function SlotOrDefault(p: Point): (slot: u64)
    ensures p.Origin? ==> slot == 0
    ensures p.Specific? ==> slot == p.slot
  {
    match p
    case Origin => 0
    case Specific(slot, _) => slot
  }

  /** The outputs of the inputs that carry one, in input order. */
  function Resolved(inputs: seq<TxInput>): (outs: seq<TxOutput>)
    ensures |outs| <= |inputs|
  {
    if inputs == [] then []
    else
      var rest := Resolved(inputs[..|inputs| - 1]);
      var last := inputs[|inputs| - 1];
      assert inputs == inputs[..|inputs| - 1] + [last];
      match last.asOutput
      case None => rest
      case Some(o) => rest + [o]
  }
}
