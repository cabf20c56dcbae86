/** The Rust balance-by-address reducer. For every transaction of a block it
    sends one `PNCounter` per resolved input, then one per output, into the
    stage's output port: keyed `"<prefix>.<address>"`, valued with the coin
    as a signed 64-bit integer, negative for what is consumed. Nothing is
    merged, and an address the pallas library cannot decode panics. */
module RustBalanceByAddress {
  import opened Wrappers
  import opened Chain
  import opened Encoding
  import opened AddressCodec
  import Framework
  import BlockWalker

  datatype Config = Config(keyPrefix: Option<string>)

  datatype TxOperation = Consumed | Produced

  /** The other operation: what undo does where apply consumes, and back. */
  function Flip(op: TxOperation): (f: TxOperation)
    ensures f != op
  {
    match op
    case Consumed => Produced
    case Produced => Consumed
  }

  // -------------------------------------------------------------- values

  const TWO_64: int := 0x1_0000_0000_0000_0000

  /** Two's-complement wrap-around into an i64. */
  function WrapI64(n: int): (w: Framework.Delta)
    ensures InI64(n) ==> w == n
  {
    (n - I64_MIN) % TWO_64 + I64_MIN
  }

  /** `coin as i64`: coins above `i64::MAX` reinterpret as negative. */
  function AsI64(coin: u64): (v: Framework.Delta)
    ensures coin <= I64_MAX ==> v == coin
    ensures coin > I64_MAX ==> v == coin - TWO_64
  {
    WrapI64(coin)
  }

  /** The counter delta for one output: `-1 * coin as i64` when consumed
      (a wrapping product, as a release build computes it), `coin as i64`
      when produced. Up to `i64::MAX` it is the coin, signed. */
  function TxoValue(coin: u64, op: TxOperation): (v: Framework.Delta)
    ensures coin <= I64_MAX ==> v == (if op == Consumed then -(coin as int) else coin)
  {
    match op
    case Consumed => WrapI64(-1 * AsI64(coin))
    case Produced => AsI64(coin)
  }

  /** Above `i64::MAX` the sign is lost: a coin of 2^63 is counted the same
      whether consumed or produced. */
  lemma WrapLosesSign()
    ensures TxoValue(I64_MAX + 1, Consumed) == TxoValue(I64_MAX + 1, Produced) == I64_MIN
  {
  }

  // ----------------------------------------------------- the sent stream

  /** One visit of `process_txo`: the output and the operation it is given. */
  datatype Move = Move(txo: TxOutput, op: TxOperation)

  /** The key of a counter: the prefix, a dot, the address as pallas
      displays it. */
  function CounterKey(lib: Pallas, prefix: string, address: seq<byte>): (k: string)
    ensures k == Framework.PrefixedKey(Some(prefix), lib.display(address))
  {
    prefix + "." + lib.display(address)
  }

  /** The event `process_txo` sends for a move whose address decodes. */
  function Event(lib: Pallas, prefix: string, m: Move): (e: Framework.StorageEvent)
    ensures e.CRDT? && e.crdt.PNCounter?
    ensures e.crdt.key == CounterKey(lib, prefix, m.txo.address)
    ensures e.crdt.delta == TxoValue(m.txo.coin, m.op)
  {
    Framework.CRDT(Framework.PNCounter(CounterKey(lib, prefix, m.txo.address), TxoValue(m.txo.coin, m.op)))
  }

  /** A list of outputs, each with the same operation. */
  function IOMoves(outs: seq<TxOutput>, op: TxOperation): (ms: seq<Move>)
    ensures |ms| == |outs|
    ensures forall i :: 0 <= i < |outs| ==> ms[i] == Move(outs[i], op)
  {
    seq(|outs|, i requires 0 <= i < |outs| => Move(outs[i], op))
  }

  /** One transaction: its resolved inputs with `inputOp`, then its outputs
      with `outputOp`. */
  function TxMoves(tx: Tx, inputOp: TxOperation, outputOp: TxOperation): seq<Move> {
    IOMoves(Resolved(tx.inputs), inputOp) + IOMoves(tx.outputs, outputOp)
  }

  /** The visits of the reducer's nested loops, transaction by transaction. */
  function Moves(txs: seq<Tx>, inputOp: TxOperation, outputOp: TxOperation): seq<Move> {
    if txs == [] then []
    else Moves(txs[..|txs| - 1], inputOp, outputOp) + TxMoves(txs[|txs| - 1], inputOp, outputOp)
  }

  /** What the port has received, and whether the walk ended in a panic. */
  datatype Run = Run(sent: seq<Framework.StorageEvent>, panicked: bool)

  /** One `process_txo` after the walk so far: nothing once panicked; the
      move's event when its address decodes; a panic otherwise. */
  function Step(lib: Pallas, prefix: string, r: Run, m: Move): Run {
    if r.panicked then r
    else if lib.accepts(m.txo.address) then Run(r.sent + [Event(lib, prefix, m)], false)
    else Run(r.sent, true)
  }

  /** The walk over a list of moves: each decodable address sends its event;
      the first one that does not decode panics and nothing after it runs. */
  function Emit(lib: Pallas, prefix: string, ms: seq<Move>): Run {
    if ms == [] then Run([], false)
    else Step(lib, prefix, Emit(lib, prefix, ms[..|ms| - 1]), ms[|ms| - 1])
  }

  /** The walk sends the events of the longest run of decodable moves, in
      order, and panics exactly when a move after them does not decode. */
  lemma {:induction false} EmitMeaning(lib: Pallas, prefix: string, ms: seq<Move>)
    ensures |Emit(lib, prefix, ms).sent| <= |ms|
    ensures forall i :: 0 <= i < |Emit(lib, prefix, ms).sent| ==>
              lib.accepts(ms[i].txo.address) && Emit(lib, prefix, ms).sent[i] == Event(lib, prefix, ms[i])
    ensures Emit(lib, prefix, ms).panicked <==> |Emit(lib, prefix, ms).sent| < |ms|
    ensures Emit(lib, prefix, ms).panicked ==> !lib.accepts(ms[|Emit(lib, prefix, ms).sent|].txo.address)
  {
    if ms != [] {
      var init, m := ms[..|ms| - 1], ms[|ms| - 1];
      EmitMeaning(lib, prefix, init);
      var r := Emit(lib, prefix, init);
      assert Emit(lib, prefix, ms) == Step(lib, prefix, r, m);
      assert forall i :: 0 <= i < |init| ==> init[i] == ms[i];
      if !r.panicked && lib.accepts(m.txo.address) {
        assert Emit(lib, prefix, ms).sent == r.sent + [Event(lib, prefix, m)];
      }
    }
  }

  lemma EmitSnoc(lib: Pallas, prefix: string, ms: seq<Move>, m: Move)
    ensures Emit(lib, prefix, ms + [m]) == Step(lib, prefix, Emit(lib, prefix, ms), m)
  {
    assert (ms + [m])[..|ms|] == ms;
  }

  /** After a panic, nothing more is sent. */
  lemma {:induction false} EmitPrefix(lib: Pallas, prefix: string, ms: seq<Move>, ns: seq<Move>)
    requires ms <= ns
    requires Emit(lib, prefix, ms).panicked
    ensures Emit(lib, prefix, ns) == Emit(lib, prefix, ms)
    decreases |ns|
  {
    if |ns| > |ms| {
      var init := ns[..|ns| - 1];
      assert ms <= init;
      EmitPrefix(lib, prefix, ms, init);
    } else {
      assert ns == ms;
    }
  }

  // ------------------------------------------------ properties of the walk

  /** One move per resolved input and per output. */
  lemma {:induction false} MovesCount(txs: seq<Tx>, inputOp: TxOperation, outputOp: TxOperation)
    ensures |Moves(txs, inputOp, outputOp)| == BlockWalker.Moved(txs)
  {
    if txs != [] {
      MovesCount(txs[..|txs| - 1], inputOp, outputOp);
    }
  }

  /** Without a panic, exactly one event per resolved input and per output. */
  lemma OneEventPerOutput(lib: Pallas, prefix: string, txs: seq<Tx>, inputOp: TxOperation, outputOp: TxOperation)
    ensures !Emit(lib, prefix, Moves(txs, inputOp, outputOp)).panicked ==>
              |Emit(lib, prefix, Moves(txs, inputOp, outputOp)).sent| == BlockWalker.Moved(txs)
  {
    MovesCount(txs, inputOp, outputOp);
    EmitMeaning(lib, prefix, Moves(txs, inputOp, outputOp));
  }

  function FlipAll(ms: seq<Move>): (fs: seq<Move>)
    ensures |fs| == |ms|
    ensures forall i :: 0 <= i < |ms| ==> fs[i] == Move(ms[i].txo, Flip(ms[i].op))
  {
    seq(|ms|, i requires 0 <= i < |ms| => Move(ms[i].txo, Flip(ms[i].op)))
  }

  /** Undo visits what apply visits, in the same order, with each operation
      swapped. */
  lemma {:induction false} MovesFlip(txs: seq<Tx>)
    ensures Moves(txs, Produced, Consumed) == FlipAll(Moves(txs, Consumed, Produced))
  {
    if txs != [] {
      MovesFlip(txs[..|txs| - 1]);
    }
  }

  /** Every coin a list of transactions moves fits in an i64. */
  predicate CoinsFit(txs: seq<Tx>) {
    forall t :: 0 <= t < |txs| ==>
      (forall o :: o in txs[t].outputs ==> o.coin <= I64_MAX) &&
      (forall o :: o in Resolved(txs[t].inputs) ==> o.coin <= I64_MAX)
  }

  predicate MovesFit(ms: seq<Move>) {
    forall i :: 0 <= i < |ms| ==> ms[i].txo.coin <= I64_MAX
  }

  lemma {:induction false} CoinsFitMoves(txs: seq<Tx>, inputOp: TxOperation, outputOp: TxOperation)
    requires CoinsFit(txs)
    ensures MovesFit(Moves(txs, inputOp, outputOp))
  {
    if txs != [] {
      var init, tx := txs[..|txs| - 1], txs[|txs| - 1];
      assert CoinsFit(init) by {
        forall t | 0 <= t < |init| ensures init[t] == txs[t] { }
      }
      CoinsFitMoves(init, inputOp, outputOp);
      var ins, outs := IOMoves(Resolved(tx.inputs), inputOp), IOMoves(tx.outputs, outputOp);
      assert MovesFit(ins) by {
        forall i | 0 <= i < |ins| ensures ins[i].txo.coin <= I64_MAX {
          assert ins[i].txo in Resolved(tx.inputs);
        }
      }
      assert MovesFit(outs) by {
        forall i | 0 <= i < |outs| ensures outs[i].txo.coin <= I64_MAX {
          assert outs[i].txo in tx.outputs;
        }
      }
    }
  }

  /** Two events counting the same key by opposite amounts. */
  predicate Opposite(e: Framework.StorageEvent, f: Framework.StorageEvent) {
    e.CRDT? && e.crdt.PNCounter? && f.CRDT? && f.crdt.PNCounter? &&
    e.crdt.key == f.crdt.key && f.crdt.delta as int == -(e.crdt.delta as int)
  }

  /** Two walks that send opposite events pairwise and panic alike. */
  predicate Mirrors(a: Run, u: Run) {
    a.panicked == u.panicked && |a.sent| == |u.sent| &&
    forall i :: 0 <= i < |a.sent| ==> Opposite(a.sent[i], u.sent[i])
  }

  lemma {:induction false} EmitMirrors(lib: Pallas, prefix: string, ms: seq<Move>)
    requires MovesFit(ms)
    ensures Mirrors(Emit(lib, prefix, ms), Emit(lib, prefix, FlipAll(ms)))
  {
    if ms != [] {
      var init := ms[..|ms| - 1];
      assert FlipAll(ms)[..|ms| - 1] == FlipAll(init);
      EmitMirrors(lib, prefix, init);
    }
  }

  /** When every coin fits in an i64, undo sends, key for key and in the
      same order, the negation of what apply sends, and panics exactly when
      apply does. */
  lemma UndoMirrorsApply(lib: Pallas, prefix: string, txs: seq<Tx>)
    requires CoinsFit(txs)
    ensures Mirrors(Emit(lib, prefix, Moves(txs, Consumed, Produced)), Emit(lib, prefix, Moves(txs, Produced, Consumed)))
  {
    MovesFlip(txs);
    CoinsFitMoves(txs, Consumed, Produced);
    EmitMirrors(lib, prefix, Moves(txs, Consumed, Produced));
  }

  // -------------------------------------------------- prefixes of the walk

  lemma MovesSnoc(txs: seq<Tx>, i: nat, inputOp: TxOperation, outputOp: TxOperation)
    requires i < |txs|
    ensures Moves(txs[..i + 1], inputOp, outputOp) == Moves(txs[..i], inputOp, outputOp) + TxMoves(txs[i], inputOp, outputOp)
  {
    assert txs[..i + 1][..i] == txs[..i];
  }

  lemma {:induction false} MovesPrefix(txs: seq<Tx>, n: nat, inputOp: TxOperation, outputOp: TxOperation)
    requires n <= |txs|
    ensures Moves(txs[..n], inputOp, outputOp) <= Moves(txs, inputOp, outputOp)
    decreases |txs|
  {
    if n < |txs| {
      var init := txs[..|txs| - 1];
      assert init[..n] == txs[..n];
      MovesPrefix(init, n, inputOp, outputOp);
    } else {
      assert txs[..n] == txs;
    }
  }

  lemma IOMovesSnoc(outs: seq<TxOutput>, o: TxOutput, op: TxOperation)
    ensures IOMoves(outs + [o], op) == IOMoves(outs, op) + [Move(o, op)]
  {
  }

  /** Appending in two steps is appending once, and each step begins the end result. */
  lemma ConcatPrefix<T>(a: seq<T>, b: seq<T>, c: seq<T>)
    ensures a + (b + c) == a + b + c
    ensures a + b <= a + b + c
  {
    assert (a + b + c)[..|a + b|] == a + b;
  }

  /** Transaction `i` extends the walk by its inputs, then its outputs, and
      every stage of it begins the whole walk. */
  lemma TxStep(txs: seq<Tx>, i: nat, inputOp: TxOperation, outputOp: TxOperation)
    requires i < |txs|
    ensures Moves(txs[..i + 1], inputOp, outputOp) ==
              Moves(txs[..i], inputOp, outputOp) + IOMoves(Resolved(txs[i].inputs), inputOp) + IOMoves(txs[i].outputs, outputOp)
    ensures Moves(txs[..i], inputOp, outputOp) + IOMoves(Resolved(txs[i].inputs), inputOp) <= Moves(txs[..i + 1], inputOp, outputOp)
    ensures Moves(txs[..i + 1], inputOp, outputOp) <= Moves(txs, inputOp, outputOp)
  {
    MovesSnoc(txs, i, inputOp, outputOp);
    var done := Moves(txs[..i], inputOp, outputOp);
    var ins := IOMoves(Resolved(txs[i].inputs), inputOp);
    var outs := IOMoves(txs[i].outputs, outputOp);
    ConcatPrefix(done, ins, outs);
    MovesPrefix(txs, i + 1, inputOp, outputOp);
  }

  /** Input `j` extends the walk over the inputs before it by one step (or
      by none, when it carries no output), and a panic there is the end of
      the walk over all of them. */
  lemma InputsSnoc(lib: Pallas, prefix: string, done: seq<Move>, inputs: seq<TxInput>, j: nat, op: TxOperation)
    requires j < |inputs| && inputs[j].asOutput.Some?
    ensures Emit(lib, prefix, done + IOMoves(Resolved(inputs[..j + 1]), op)) ==
            Step(lib, prefix, Emit(lib, prefix, done + IOMoves(Resolved(inputs[..j]), op)), Move(inputs[j].asOutput.value, op))
    ensures Emit(lib, prefix, done + IOMoves(Resolved(inputs[..j + 1]), op)).panicked ==>
              Emit(lib, prefix, done + IOMoves(Resolved(inputs), op)) == Emit(lib, prefix, done + IOMoves(Resolved(inputs[..j + 1]), op))
  {
    var o := inputs[j].asOutput.value;
    var before := done + IOMoves(Resolved(inputs[..j]), op);
    BlockWalker.ResolvedSnoc(inputs, j);
    IOMovesSnoc(Resolved(inputs[..j]), o, op);
    assert before + [Move(o, op)] == done + IOMoves(Resolved(inputs[..j + 1]), op);
    EmitSnoc(lib, prefix, before, Move(o, op));
    if Emit(lib, prefix, before + [Move(o, op)]).panicked {
      InputsPrefix(done, inputs, j + 1, op);
      EmitPrefix(lib, prefix, before + [Move(o, op)], done + IOMoves(Resolved(inputs), op));
    }
  }

  /** An input without an output leaves the walk as it was. */
  lemma InputsSkip(lib: Pallas, prefix: string, done: seq<Move>, inputs: seq<TxInput>, j: nat, op: TxOperation)
    requires j < |inputs| && inputs[j].asOutput.None?
    ensures done + IOMoves(Resolved(inputs[..j + 1]), op) == done + IOMoves(Resolved(inputs[..j]), op)
  {
    BlockWalker.ResolvedSnoc(inputs, j);
  }

  /** Output `k` extends the walk over the outputs before it by one step,
      and a panic there is the end of the walk over all of them. */
  lemma OutputsSnoc(lib: Pallas, prefix: string, done: seq<Move>, outs: seq<TxOutput>, k: nat, op: TxOperation)
    requires k < |outs|
    ensures Emit(lib, prefix, done + IOMoves(outs[..k + 1], op)) ==
            Step(lib, prefix, Emit(lib, prefix, done + IOMoves(outs[..k], op)), Move(outs[k], op))
    ensures Emit(lib, prefix, done + IOMoves(outs[..k + 1], op)).panicked ==>
              Emit(lib, prefix, done + IOMoves(outs, op)) == Emit(lib, prefix, done + IOMoves(outs[..k + 1], op))
  {
    var before := done + IOMoves(outs[..k], op);
    assert outs[..k + 1] == outs[..k] + [outs[k]];
    IOMovesSnoc(outs[..k], outs[k], op);
    assert before + [Move(outs[k], op)] == done + IOMoves(outs[..k + 1], op);
    EmitSnoc(lib, prefix, before, Move(outs[k], op));
    if Emit(lib, prefix, before + [Move(outs[k], op)]).panicked {
      OutputsPrefix(done, outs, k + 1, op);
      EmitPrefix(lib, prefix, before + [Move(outs[k], op)], done + IOMoves(outs, op));
    }
  }

  lemma IOMovesPrefix(xs: seq<TxOutput>, ys: seq<TxOutput>, op: TxOperation)
    requires xs <= ys
    ensures IOMoves(xs, op) <= IOMoves(ys, op)
  {
    assert forall i :: 0 <= i < |xs| ==> IOMoves(xs, op)[i] == IOMoves(ys, op)[i];
  }

  lemma PrependPrefix<T>(c: seq<T>, a: seq<T>, b: seq<T>)
    requires a <= b
    ensures c + a <= c + b
  {
    assert (c + b)[..|c + a|] == c + a;
  }

  /** The moves of the inputs up to `n` begin the moves of all inputs. */
  lemma InputsPrefix(done: seq<Move>, inputs: seq<TxInput>, n: nat, op: TxOperation)
    requires n <= |inputs|
    ensures done + IOMoves(Resolved(inputs[..n]), op) <= done + IOMoves(Resolved(inputs), op)
  {
    BlockWalker.ResolvedPrefix(inputs, n);
    assert Resolved(inputs[..n]) <= Resolved(inputs);
    IOMovesPrefix(Resolved(inputs[..n]), Resolved(inputs), op);
    PrependPrefix(done, IOMoves(Resolved(inputs[..n]), op), IOMoves(Resolved(inputs), op));
  }

  /** The moves of the outputs up to `n` begin the moves of all outputs. */
  lemma OutputsPrefix(done: seq<Move>, outs: seq<TxOutput>, n: nat, op: TxOperation)
    requires n <= |outs|
    ensures done + IOMoves(outs[..n], op) <= done + IOMoves(outs, op)
  {
    assert outs[..n] <= outs;
    IOMovesPrefix(outs[..n], outs, op);
    PrependPrefix(done, IOMoves(outs[..n], op), IOMoves(outs, op));
  }

  // ------------------------------------------------------ the live objects

  /** The reducer's output port: everything sent so far, in order. Sending
      into a closed channel is not modelled. */
  class OutputPort {
    var sent: seq<Framework.StorageEvent>

    constructor ()
      ensures sent == []
    {
      sent := [];
    }

    method Send(e: Framework.StorageEvent)
      modifies this
      ensures sent == old(sent) + [e]
    {
      sent := sent + [e];
    }
  }

  class Reducer {
    const config: Config
    /** The pallas address functions the reducer calls. */
    const lib: Pallas

    /** `Config::plugin`. */
    constructor (config: Config, lib: Pallas)
      ensures this.config == config && this.lib == lib
    {
      this.config := config;
      this.lib := lib;
    }

    /** `key_prefix`: the configured prefix, or "balance_by_address". */
    function KeyPrefix(): (p: string)
      ensures config.keyPrefix.Some? ==> p == config.keyPrefix.value
      ensures config.keyPrefix.None? ==> p == "balance_by_address"
    {
      match config.keyPrefix
      case Some(p) => p
      case None => "balance_by_address"
    }

    /** `process_txo`: decode the address (panicking when it does not
        decode) and send one counter for it. */
    method ProcessTxo(txo: TxOutput, op: TxOperation, output: OutputPort) returns (panicked: bool)
      modifies output
      ensures panicked == !lib.accepts(txo.address)
      ensures output.sent == old(output.sent) + if panicked then [] else [Event(lib, KeyPrefix(), Move(txo, op))]
    {
      if !lib.accepts(txo.address) {
        return true;
      }
      var key := KeyPrefix() + "." + lib.display(txo.address);
      var value := match op
        case Consumed => WrapI64(-1 * AsI64(txo.coin))
        case Produced => AsI64(txo.coin);
      output.Send(Framework.CRDT(Framework.PNCounter(key, value)));
      return false;
    }

    /** One iteration of the loop over a transaction's inputs: input `j`
        is processed with `op` when it is resolved; a panic there ends the
        walk over all of the inputs. */
    method WalkInputAt(inputs: seq<TxInput>, j: nat, op: TxOperation, output: OutputPort,
                       ghost start: seq<Framework.StorageEvent>, ghost done: seq<Move>, ghost run: Run)
      returns (panicked: bool, ghost run': Run)
      requires j < |inputs|
      requires run == Emit(lib, KeyPrefix(), done + IOMoves(Resolved(inputs[..j]), op))
      requires output.sent == start + run.sent && !run.panicked
      modifies output
      ensures run' == Emit(lib, KeyPrefix(), done + IOMoves(Resolved(inputs[..j + 1]), op))
      ensures output.sent == start + run'.sent && panicked == run'.panicked
      ensures panicked ==> Emit(lib, KeyPrefix(), done + IOMoves(Resolved(inputs), op)) == run'
    {
      ghost var prefix := KeyPrefix();
      if inputs[j].asOutput.Some? {
        var o := inputs[j].asOutput.value;
        InputsSnoc(lib, prefix, done, inputs, j, op);
        panicked := ProcessTxo(o, op, output);
        ConcatPrefix(start, run.sent, [Event(lib, prefix, Move(o, op))]);
        run' := Step(lib, prefix, run, Move(o, op));
      } else {
        InputsSkip(lib, prefix, done, inputs, j, op);
        panicked, run' := false, run;
      }
    }

    /** The inner loop over a transaction's inputs: each resolved one is
        processed with `op`; `done` is what the walk has visited before. */
    method WalkInputs(inputs: seq<TxInput>, op: TxOperation, output: OutputPort,
                      ghost start: seq<Framework.StorageEvent>, ghost done: seq<Move>) returns (panicked: bool)
      requires output.sent == start + Emit(lib, KeyPrefix(), done).sent
      requires !Emit(lib, KeyPrefix(), done).panicked
      modifies output
      ensures output.sent == start + Emit(lib, KeyPrefix(), done + IOMoves(Resolved(inputs), op)).sent
      ensures panicked == Emit(lib, KeyPrefix(), done + IOMoves(Resolved(inputs), op)).panicked
    {
      ghost var run := Emit(lib, KeyPrefix(), done);
      assert done + IOMoves(Resolved(inputs[..0]), op) == done;
      for j := 0 to |inputs|
        invariant run == Emit(lib, KeyPrefix(), done + IOMoves(Resolved(inputs[..j]), op))
        invariant output.sent == start + run.sent && !run.panicked
      {
        var p;
        p, run := WalkInputAt(inputs, j, op, output, start, done, run);
        if p {
          return true;
        }
      }
      assert inputs[..|inputs|] == inputs;
      return false;
    }

    /** One iteration of the loop over a transaction's outputs: output `k`
        is processed with `op`; a panic there ends the walk over all of the
        outputs. */
    method WalkOutputAt(outs: seq<TxOutput>, k: nat, op: TxOperation, output: OutputPort,
                        ghost start: seq<Framework.StorageEvent>, ghost done: seq<Move>, ghost run: Run)
      returns (panicked: bool, ghost run': Run)
      requires k < |outs|
      requires run == Emit(lib, KeyPrefix(), done + IOMoves(outs[..k], op))
      requires output.sent == start + run.sent && !run.panicked
      modifies output
      ensures run' == Emit(lib, KeyPrefix(), done + IOMoves(outs[..k + 1], op))
      ensures output.sent == start + run'.sent && panicked == run'.panicked
      ensures panicked ==> Emit(lib, KeyPrefix(), done + IOMoves(outs, op)) == run'
    {
      ghost var prefix := KeyPrefix();
      OutputsSnoc(lib, prefix, done, outs, k, op);
      panicked := ProcessTxo(outs[k], op, output);
      ConcatPrefix(start, run.sent, [Event(lib, prefix, Move(outs[k], op))]);
      run' := Step(lib, prefix, run, Move(outs[k], op));
    }

    /** The inner loop over a transaction's outputs, each processed with
        `op`; `done` is what the walk has visited before. */
    method WalkOutputs(outs: seq<TxOutput>, op: TxOperation, output: OutputPort,
                       ghost start: seq<Framework.StorageEvent>, ghost done: seq<Move>) returns (panicked: bool)
      requires output.sent == start + Emit(lib, KeyPrefix(), done).sent
      requires !Emit(lib, KeyPrefix(), done).panicked
      modifies output
      ensures output.sent == start + Emit(lib, KeyPrefix(), done + IOMoves(outs, op)).sent
      ensures panicked == Emit(lib, KeyPrefix(), done + IOMoves(outs, op)).panicked
    {
      ghost var run := Emit(lib, KeyPrefix(), done);
      assert done + IOMoves(outs[..0], op) == done;
      for k := 0 to |outs|
        invariant run == Emit(lib, KeyPrefix(), done + IOMoves(outs[..k], op))
        invariant output.sent == start + run.sent && !run.panicked
      {
        var p;
        p, run := WalkOutputAt(outs, k, op, output, start, done, run);
        if p {
          return true;
        }
      }
      assert outs[..|outs|] == outs;
      return false;
    }

    /** The nested loops of `apply` and `undo`: per transaction, the resolved
        inputs with `inputOp`, then the outputs with `outputOp`, stopping at
        the first panic. */
    method Walk(txs: seq<Tx>, inputOp: TxOperation, outputOp: TxOperation, output: OutputPort) returns (panicked: bool)
      modifies output
      ensures output.sent == old(output.sent) + Emit(lib, KeyPrefix(), Moves(txs, inputOp, outputOp)).sent
      ensures panicked == Emit(lib, KeyPrefix(), Moves(txs, inputOp, outputOp)).panicked
    {
      ghost var start := output.sent;
      ghost var prefix := KeyPrefix();
      ghost var all := Moves(txs, inputOp, outputOp);
      ghost var done := [];
      for i := 0 to |txs|
        invariant done == Moves(txs[..i], inputOp, outputOp)
        invariant output.sent == start + Emit(lib, prefix, done).sent
        invariant !Emit(lib, prefix, done).panicked
      {
        ghost var next := Moves(txs[..i + 1], inputOp, outputOp);
        ghost var inputsDone := done + IOMoves(Resolved(txs[i].inputs), inputOp);
        TxStep(txs, i, inputOp, outputOp);
        var p := WalkInputs(txs[i].inputs, inputOp, output, start, done);
        if p {
          EmitPrefix(lib, prefix, inputsDone, next);
          EmitPrefix(lib, prefix, next, all);
          return true;
        }
        p := WalkOutputs(txs[i].outputs, outputOp, output, start, inputsDone);
        if p {
          EmitPrefix(lib, prefix, next, all);
          return true;
        }
        done := next;
      }
      assert txs[..|txs|] == txs;
      return false;
    }

    /** `apply`: unwrap the body (a block without one panics before any
        send), then inputs consumed and outputs produced. */
    method Apply(block: Block, output: OutputPort) returns (panicked: bool)
      modifies output
      ensures block.body.None? ==> panicked && output.sent == old(output.sent)
      ensures block.body.Some? ==>
                output.sent == old(output.sent) + Emit(lib, KeyPrefix(), Moves(block.body.value, Consumed, Produced)).sent &&
                panicked == Emit(lib, KeyPrefix(), Moves(block.body.value, Consumed, Produced)).panicked
    {
      if block.body.None? {
        return true;
      }
      panicked := Walk(block.body.value, Consumed, Produced, output);
    }

    /** `undo`: the same walk with the roles swapped, inputs produced and
        outputs consumed. */
    method Undo(block: Block, output: OutputPort) returns (panicked: bool)
      modifies output
      ensures block.body.None? ==> panicked && output.sent == old(output.sent)
      ensures block.body.Some? ==>
                output.sent == old(output.sent) + Emit(lib, KeyPrefix(), Moves(block.body.value, Produced, Consumed)).sent &&
                panicked == Emit(lib, KeyPrefix(), Moves(block.body.value, Produced, Consumed)).panicked
    {
      if block.body.None? {
        return true;
      }
      panicked := Walk(block.body.value, Produced, Consumed, output);
    }
  }
}
