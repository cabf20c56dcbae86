/** The traversal the three merging TypeScript reducers share
    (`processBlock` in examples/rdbms/reducers/src/balance_by_address.ts,
    examples/rdbms/reducers/src/balance_by_stake_address.ts and
    examples/crdt/reducers/src/balance_by_stake_address.ts): for every
    transaction, its outputs, then its resolved inputs, each keyed and signed
    by the reducer's own `processTxOutput` and merged into `deltas`. */
module BlockWalker {
  import opened Wrappers
  import opened Chain
  import opened Ledger

  datatype Method = Apply | Undo

  datatype Action = Produce | Consume

  /** The sign table: outputs are produced on apply and consumed on undo;
      resolved inputs the other way round. */
  function OutputAction(m: Method): Action {
    match m
    case Apply => Produce
    case Undo => Consume
  }

  function InputAction(m: Method): Action {
    match m
    case Apply => Consume
    case Undo => Produce
  }

  /** `-txOuput.coin` for a consumed output, `txOuput.coin` for a produced one. */
  function Signed(a: Action, coin: int): (v: int)
    ensures a == Produce ==> v == coin
    ensures a == Consume ==> v == -coin
  {
    match a
    case Produce => coin
    case Consume => -coin
  }

  /** A reducer's `processTxOutput`: an error it throws, `null` for an output
      it excludes, or the delta it contributes. */
  type Step<T, E> = (TxOutput, Action) -> Result<Option<T>, E>

  /** A step's result with the kept element mapped by `f`. */
  function Flip<T, U, E>(r: Result<Option<T>, E>, f: T -> U): Result<Option<U>, E> {
    match r
    case Ok(Some(d)) => Ok(Some(f(d)))
    case Ok(None) => Ok(None)
    case Err(e) => Err(e)
  }

  /** Consuming an output throws what producing it throws, excludes what
      producing it excludes and otherwise yields the mirror image of what
      producing it yields. */
  ghost predicate Mirrored<T, E>(step: Step<T, E>, neg: T -> T) {
    forall o :: step(o, Consume) == Flip(step(o, Produce), neg)
  }

  ghost predicate Involution<T(!new)>(neg: T -> T) {
    forall d :: neg(neg(d)) == d
  }

  /** The delta case: consuming contributes the negated delta. */
  ghost predicate SignSymmetric<E>(step: Step<Delta, E>) {
    Mirrored(step, NegDelta)
  }

  /** Sequencing of two phases: the first error wins. */
  function Concat<T, E>(r: Result<seq<T>, E>, s: Result<seq<T>, E>): Result<seq<T>, E> {
    match r
    case Err(e) => Err(e)
    case Ok(ds) =>
      match s
      case Err(e) => Err(e)
      case Ok(es) => Ok(ds + es)
  }

  /** The contributions of a list of outputs under one action, in order;
      excluded outputs contribute nothing and the first error aborts. */
  function Keyed<T, E>(step: Step<T, E>, outs: seq<TxOutput>, a: Action): Result<seq<T>, E> {
    if outs == [] then Ok([])
    else
      Concat(Keyed(step, outs[..|outs| - 1], a), One(step(outs[|outs| - 1], a)))
  }

  /** The contributions of one output: none when it is excluded. */
  function One<T, E>(x: Result<Option<T>, E>): Result<seq<T>, E> {
    match x
    case Err(e) => Err(e)
    case Ok(None) => Ok([])
    case Ok(Some(d)) => Ok([d])
  }

  lemma KeyedSnoc<T, E>(step: Step<T, E>, outs: seq<TxOutput>, o: TxOutput, a: Action)
    ensures Keyed(step, outs + [o], a) == Concat(Keyed(step, outs, a), One(step(o, a)))
  {
    assert (outs + [o])[..|outs|] == outs;
  }

  lemma ContributionsSnoc<T, E>(step: Step<T, E>, txs: seq<Tx>, tx: Tx, m: Method)
    ensures Contributions(step, txs + [tx], m) == Concat(Contributions(step, txs, m), TxContributions(step, tx, m))
  {
    assert (txs + [tx])[..|txs|] == txs;
  }

  /** One transaction: its outputs, then the inputs that were resolved. */
  function TxContributions<T, E>(step: Step<T, E>, tx: Tx, m: Method): Result<seq<T>, E> {
    Concat(Keyed(step, tx.outputs, OutputAction(m)),
           Keyed(step, Resolved(tx.inputs), InputAction(m)))
  }

  function Contributions<T, E>(step: Step<T, E>, txs: seq<Tx>, m: Method): Result<seq<T>, E> {
    if txs == [] then Ok([])
    else Concat(Contributions(step, txs[..|txs| - 1], m), TxContributions(step, txs[|txs| - 1], m))
  }

  function Summarise<E>(r: Result<seq<Delta>, E>): Result<Ledger, E> {
    Onto(Ledger([], map[]), r)
  }

  /** The ledger `l` with the contributions merged in, or the error. */
  function Onto<E>(l: Ledger, r: Result<seq<Delta>, E>): Result<Ledger, E> {
    match r
    case Ok(ds) => Ok(MergeAll(l, ds))
    case Err(e) => Err(e)
  }

  lemma {:induction false} KeyedErrPrefix<T, E>(step: Step<T, E>, outs: seq<TxOutput>, n: nat, a: Action)
    requires n <= |outs| && Keyed(step, outs[..n], a).Err?
    ensures Keyed(step, outs, a) == Keyed(step, outs[..n], a)
    decreases |outs| - n
  {
    if n < |outs| {
      assert outs[..n + 1][..n] == outs[..n];
      KeyedErrPrefix(step, outs, n + 1, a);
    } else {
      assert outs[..n] == outs;
    }
  }

  lemma {:induction false} ContributionsErrPrefix<T, E>(step: Step<T, E>, txs: seq<Tx>, n: nat, m: Method)
    requires n <= |txs| && Contributions(step, txs[..n], m).Err?
    ensures Contributions(step, txs, m) == Contributions(step, txs[..n], m)
    decreases |txs| - n
  {
    if n < |txs| {
      assert txs[..n + 1][..n] == txs[..n];
      ContributionsErrPrefix(step, txs, n + 1, m);
    } else {
      assert txs[..n] == txs;
    }
  }

  /** Merges one step's result into the ledger held in `keys` and `amount`,
      as the source does with `deltas[key] += value` or `= value`. */
  method MergeStep<E>(x: Result<Option<Delta>, E>, keys: seq<string>, amount: map<string, int>)
    returns (keys': seq<string>, amount': map<string, int>)
    requires x.Ok?
    ensures x.value.None? ==> keys' == keys && amount' == amount
    ensures x.value.Some? ==> Ledger(keys', amount') == Merge(Ledger(keys, amount), x.value.value)
  {
    keys', amount' := keys, amount;
    if x.value.Some? {
      var delta := x.value.value;
      if delta.key in amount {
        amount' := amount[delta.key := amount[delta.key] + delta.value];
      } else {
        keys' := keys + [delta.key];
        amount' := amount[delta.key := delta.value];
      }
    }
  }

  /** `MergeStep` with the contributions merged so far: the kept delta, if
      any, joins them. */
  method MergeKept<E>(x: Result<Option<Delta>, E>, keys: seq<string>, amount: map<string, int>,
                      ghost deltas: Ledger, ghost ds: seq<Delta>)
    returns (keys': seq<string>, amount': map<string, int>, ghost ds': seq<Delta>)
    requires x.Ok? && Ledger(keys, amount) == MergeAll(deltas, ds)
    ensures Concat(Ok(ds), One(x)) == Ok(ds')
    ensures Ledger(keys', amount') == MergeAll(deltas, ds')
  {
    keys', amount' := MergeStep(x, keys, amount);
    if x.value.Some? {
      MergeAllSnoc(deltas, ds, x.value.value);
      ds' := ds + [x.value.value];
    } else {
      assert ds + [] == ds;
      ds' := ds;
    }
  }

  /** One iteration of the `for (const txOutput of tx.outputs)` loop of
      `processBlock`: the delta of output `j` is merged unless excluded;
      `stop` is the error the step threw, which ends the walk over all of
      the outputs. */
  method MergeOutputAt<E>(step: Step<Delta, E>, outs: seq<TxOutput>, j: nat, a: Action, ghost deltas: Ledger,
                          keys: seq<string>, amount: map<string, int>, ghost ds: seq<Delta>)
    returns (stop: Option<E>, keys': seq<string>, amount': map<string, int>, ghost ds': seq<Delta>)
    requires j < |outs|
    requires Keyed(step, outs[..j], a) == Ok(ds)
    requires Ledger(keys, amount) == MergeAll(deltas, ds)
    ensures stop.Some? ==> Keyed(step, outs, a) == Err(stop.value)
    ensures stop.None? ==> Keyed(step, outs[..j + 1], a) == Ok(ds')
    ensures stop.None? ==> Ledger(keys', amount') == MergeAll(deltas, ds')
  {
    assert outs[..j + 1] == outs[..j] + [outs[j]];
    KeyedSnoc(step, outs[..j], outs[j], a);
    var x := step(outs[j], a);
    if x.Err? {
      KeyedErrPrefix(step, outs, j + 1, a);
      return Some(x.error), keys, amount, ds;
    }
    stop := None;
    keys', amount', ds' := MergeKept(x, keys, amount, deltas, ds);
  }

  /** The `for (const txOutput of tx.outputs)` loop of `processBlock`:
      merges the delta of every output not excluded into `deltas`, and stops
      at the first thrown error. */
  method MergeOutputs<E>(step: Step<Delta, E>, outs: seq<TxOutput>, a: Action, deltas: Ledger)
    returns (r: Result<Ledger, E>)
    ensures r == Onto(deltas, Keyed(step, outs, a))
  {
    var keys, amount := deltas.keys, deltas.amount;
    ghost var ds: seq<Delta> := [];
    var j := 0;
    while j < |outs|
      invariant 0 <= j <= |outs|
      invariant Keyed(step, outs[..j], a) == Ok(ds)
      invariant Ledger(keys, amount) == MergeAll(deltas, ds)
    {
      var stop;
      stop, keys, amount, ds := MergeOutputAt(step, outs, j, a, deltas, keys, amount, ds);
      if stop.Some? {
        return Err(stop.value);
      }
      j := j + 1;
    }
    assert outs[..j] == outs;
    r := Ok(Ledger(keys, amount));
  }

  /** One iteration of the `for (const txInput of tx.inputs)` loop of
      `processBlock`: input `k` is skipped without `asOutput`, and its delta
      merged otherwise; `stop` is the error the step threw, which ends the
      walk over all of the inputs. */
  method MergeInputAt<E>(step: Step<Delta, E>, inputs: seq<TxInput>, k: nat, a: Action, ghost deltas: Ledger,
                         keys: seq<string>, amount: map<string, int>, ghost ds: seq<Delta>)
    returns (stop: Option<E>, keys': seq<string>, amount': map<string, int>, ghost ds': seq<Delta>)
    requires k < |inputs|
    requires Keyed(step, Resolved(inputs[..k]), a) == Ok(ds)
    requires Ledger(keys, amount) == MergeAll(deltas, ds)
    ensures stop.Some? ==> Keyed(step, Resolved(inputs), a) == Err(stop.value)
    ensures stop.None? ==> Keyed(step, Resolved(inputs[..k + 1]), a) == Ok(ds')
    ensures stop.None? ==> Ledger(keys', amount') == MergeAll(deltas, ds')
  {
    stop, keys', amount', ds' := None, keys, amount, ds;
    var spent := inputs[k].asOutput;
    KeyedResolvedSnoc(step, inputs, k, a);
    if spent.Some? {
      var x := step(spent.value, a);
      if x.Err? {
        KeyedResolvedErrPrefix(step, inputs, k + 1, a);
        return Some(x.error), keys, amount, ds;
      }
      keys', amount', ds' := MergeKept(x, keys, amount, deltas, ds);
    }
  }

  /** The `for (const txInput of tx.inputs)` loop of `processBlock`: inputs
      without `asOutput` are skipped; the others are merged as
      `MergeOutputs` merges outputs. */
  method MergeInputs<E>(step: Step<Delta, E>, inputs: seq<TxInput>, a: Action, deltas: Ledger)
    returns (r: Result<Ledger, E>)
    ensures r == Onto(deltas, Keyed(step, Resolved(inputs), a))
  {
    var keys, amount := deltas.keys, deltas.amount;
    ghost var ds: seq<Delta> := [];
    var k := 0;
    while k < |inputs|
      invariant 0 <= k <= |inputs|
      invariant Keyed(step, Resolved(inputs[..k]), a) == Ok(ds)
      invariant Ledger(keys, amount) == MergeAll(deltas, ds)
    {
      var stop;
      stop, keys, amount, ds := MergeInputAt(step, inputs, k, a, deltas, keys, amount, ds);
      if stop.Some? {
        return Err(stop.value);
      }
      k := k + 1;
    }
    assert inputs[..k] == inputs;
    r := Ok(Ledger(keys, amount));
  }

  /** One iteration of the transaction loop of `processBlock`: the outputs,
      then the inputs. */
  method MergeTx<E>(step: Step<Delta, E>, tx: Tx, m: Method, deltas: Ledger) returns (r: Result<Ledger, E>)
    ensures r == Onto(deltas, TxContributions(step, tx, m))
  {
    var afterOutputs := MergeOutputs(step, tx.outputs, OutputAction(m), deltas);
    if afterOutputs.Err? {
      return Err(afterOutputs.error);
    }
    r := MergeInputs(step, tx.inputs, InputAction(m), afterOutputs.value);
    if r.Ok? {
      MergeAllAppend(deltas, Keyed(step, tx.outputs, OutputAction(m)).value,
                     Keyed(step, Resolved(tx.inputs), InputAction(m)).value);
    }
  }

  /** One iteration of the transaction loop of `processBlock`, on the
      ledger of the transactions before it; `stop` is the error transaction
      `i` threw, which ends the walk over all of them. */
  method AccumulateTxAt<E>(step: Step<Delta, E>, txs: seq<Tx>, i: nat, m: Method, deltas: Ledger, ghost cs: seq<Delta>)
    returns (stop: Option<E>, deltas': Ledger, ghost cs': seq<Delta>)
    requires i < |txs|
    requires Contributions(step, txs[..i], m) == Ok(cs)
    requires deltas == Accumulate(cs)
    ensures stop.Some? ==> Contributions(step, txs, m) == Err(stop.value)
    ensures stop.None? ==> Contributions(step, txs[..i + 1], m) == Ok(cs')
    ensures stop.None? ==> deltas' == Accumulate(cs')
  {
    assert txs[..i + 1] == txs[..i] + [txs[i]];
    ContributionsSnoc(step, txs[..i], txs[i], m);
    var next := MergeTx(step, txs[i], m, deltas);
    if next.Err? {
      ContributionsErrPrefix(step, txs, i + 1, m);
      return Some(next.error), deltas, cs;
    }
    MergeAllAppend(Ledger([], map[]), cs, TxContributions(step, txs[i], m).value);
    stop, deltas', cs' := None, next.value, cs + TxContributions(step, txs[i], m).value;
  }

  /** The delta accumulation of `processBlock`: walks every transaction's
      outputs and resolved inputs, merging each delta into the ledger, and
      stops at the first thrown error. */
  method AccumulateBlock<E>(step: Step<Delta, E>, block: Block, m: Method) returns (r: Result<Ledger, E>)
    ensures r == Summarise(Contributions(step, Txs(block), m))
  {
    var txs := Txs(block);
    var deltas := Ledger([], map[]);
    ghost var cs: seq<Delta> := [];
    var i := 0;
    while i < |txs|
      invariant 0 <= i <= |txs|
      invariant Contributions(step, txs[..i], m) == Ok(cs)
      invariant deltas == Accumulate(cs)
    {
      var stop;
      stop, deltas, cs := AccumulateTxAt(step, txs, i, m, deltas, cs);
      if stop.Some? {
        return Err(stop.value);
      }
      i := i + 1;
    }
    assert txs[..i] == txs;
    r := Ok(deltas);
  }

  /** The push loop over a transaction's outputs in the reducers that emit
      one command per output instead of merging: every kept result is
      appended to `acc`, and the first error aborts. */
  method CollectOutputs<T, E>(step: Step<T, E>, outs: seq<TxOutput>, a: Action, acc: seq<T>)
    returns (r: Result<seq<T>, E>)
    ensures r == Concat(Ok(acc), Keyed(step, outs, a))
  {
    var commands := acc;
    ghost var ks: seq<T> := [];
    var j := 0;
    while j < |outs|
      invariant 0 <= j <= |outs|
      invariant Keyed(step, outs[..j], a) == Ok(ks)
      invariant commands == acc + ks
    {
      assert outs[..j + 1] == outs[..j] + [outs[j]];
      KeyedSnoc(step, outs[..j], outs[j], a);
      var x := step(outs[j], a);
      if x.Err? {
        KeyedErrPrefix(step, outs, j + 1, a);
        return Err(x.error);
      }
      commands := Push(x, commands);
      ks := ks + One(x).value;
      j := j + 1;
    }
    assert outs[..j] == outs;
    r := Ok(commands);
  }

  /** One iteration of the push loop over a transaction's inputs: input `k`
      is skipped without `asOutput`, and its result pushed when kept;
      `stop` is the error the step threw, which ends the walk over all of
      the inputs. */
  method CollectInputAt<T, E>(step: Step<T, E>, inputs: seq<TxInput>, k: nat, a: Action, ghost acc: seq<T>,
                              commands: seq<T>, ghost ks: seq<T>)
    returns (stop: Option<E>, commands': seq<T>, ghost ks': seq<T>)
    requires k < |inputs|
    requires Keyed(step, Resolved(inputs[..k]), a) == Ok(ks)
    requires commands == acc + ks
    ensures stop.Some? ==> Keyed(step, Resolved(inputs), a) == Err(stop.value)
    ensures stop.None? ==> Keyed(step, Resolved(inputs[..k + 1]), a) == Ok(ks')
    ensures stop.None? ==> commands' == acc + ks'
  {
    stop, commands', ks' := None, commands, ks;
    var spent := inputs[k].asOutput;
    KeyedResolvedSnoc(step, inputs, k, a);
    if spent.Some? {
      var x := step(spent.value, a);
      if x.Err? {
        KeyedResolvedErrPrefix(step, inputs, k + 1, a);
        return Some(x.error), commands, ks;
      }
      commands' := Push(x, commands);
      ks' := ks + One(x).value;
    }
  }

  /** The push loop over a transaction's inputs: inputs without `asOutput`
      are skipped, the others handled as `CollectOutputs` handles outputs. */
  method CollectInputs<T, E>(step: Step<T, E>, inputs: seq<TxInput>, a: Action, acc: seq<T>)
    returns (r: Result<seq<T>, E>)
    ensures r == Concat(Ok(acc), Keyed(step, Resolved(inputs), a))
  {
    var commands := acc;
    ghost var ks: seq<T> := [];
    var k := 0;
    while k < |inputs|
      invariant 0 <= k <= |inputs|
      invariant Keyed(step, Resolved(inputs[..k]), a) == Ok(ks)
      invariant commands == acc + ks
    {
      var stop;
      stop, commands, ks := CollectInputAt(step, inputs, k, a, acc, commands, ks);
      if stop.Some? {
        return Err(stop.value);
      }
      k := k + 1;
    }
    assert inputs[..k] == inputs;
    r := Ok(commands);
  }

  /** `commands.push(command)` when the step kept the output. */
  method Push<T, E>(x: Result<Option<T>, E>, commands: seq<T>) returns (commands': seq<T>)
    requires x.Ok?
    ensures Ok(commands') == Concat(Ok(commands), One(x))
  {
    commands' := commands;
    if x.value.Some? {
      commands' := commands + [x.value.value];
    } else {
      assert commands + [] == commands;
    }
  }

  /** The whole push traversal: for every transaction, its outputs, then its
      resolved inputs, all appended to one command list. */
  method CollectBlock<T, E>(step: Step<T, E>, block: Block, m: Method) returns (r: Result<seq<T>, E>)
    ensures r == Contributions(step, Txs(block), m)
  {
    var txs := Txs(block);
    var commands: seq<T> := [];
    var i := 0;
    while i < |txs|
      invariant 0 <= i <= |txs|
      invariant Contributions(step, txs[..i], m) == Ok(commands)
    {
      assert txs[..i + 1] == txs[..i] + [txs[i]];
      ContributionsSnoc(step, txs[..i], txs[i], m);
      var outs := Keyed(step, txs[i].outputs, OutputAction(m));
      var ins := Keyed(step, Resolved(txs[i].inputs), InputAction(m));
      ConcatAssociative(Ok(commands), outs, ins);
      var afterOutputs := CollectOutputs(step, txs[i].outputs, OutputAction(m), commands);
      if afterOutputs.Err? {
        ContributionsErrPrefix(step, txs, i + 1, m);
        return Err(afterOutputs.error);
      }
      var afterInputs := CollectInputs(step, txs[i].inputs, InputAction(m), afterOutputs.value);
      if afterInputs.Err? {
        ContributionsErrPrefix(step, txs, i + 1, m);
        return Err(afterInputs.error);
      }
      commands := afterInputs.value;
      i := i + 1;
    }
    assert txs[..i] == txs;
    r := Ok(commands);
  }

  lemma KeyedResolvedSnoc<T, E>(step: Step<T, E>, inputs: seq<TxInput>, k: nat, a: Action)
    requires k < |inputs|
    ensures Keyed(step, Resolved(inputs[..k + 1]), a) ==
      match inputs[k].asOutput
      case None => Keyed(step, Resolved(inputs[..k]), a)
      case Some(o) => Concat(Keyed(step, Resolved(inputs[..k]), a), One(step(o, a)))
  {
    ResolvedSnoc(inputs, k);
    if inputs[k].asOutput.Some? {
      KeyedSnoc(step, Resolved(inputs[..k]), inputs[k].asOutput.value, a);
    } else {
      assert Resolved(inputs[..k]) + [] == Resolved(inputs[..k]);
    }
  }

  lemma KeyedResolvedErrPrefix<T, E>(step: Step<T, E>, inputs: seq<TxInput>, n: nat, a: Action)
    requires n <= |inputs| && Keyed(step, Resolved(inputs[..n]), a).Err?
    ensures Keyed(step, Resolved(inputs), a) == Keyed(step, Resolved(inputs[..n]), a)
  {
    ResolvedPrefix(inputs, n);
    KeyedErrPrefix(step, Resolved(inputs), |Resolved(inputs[..n])|, a);
  }

  lemma ResolvedSnoc(inputs: seq<TxInput>, k: nat)
    requires k < |inputs|
    ensures Resolved(inputs[..k + 1]) ==
      Resolved(inputs[..k]) + (if inputs[k].asOutput.Some? then [inputs[k].asOutput.value] else [])
  {
    assert inputs[..k + 1][..k] == inputs[..k];
  }

  /** The outputs resolved from a prefix of the inputs are a prefix of all
      resolved outputs. */
  lemma {:induction false} ResolvedPrefix(inputs: seq<TxInput>, n: nat)
    requires n <= |inputs|
    ensures |Resolved(inputs[..n])| <= |Resolved(inputs)|
    ensures Resolved(inputs)[..|Resolved(inputs[..n])|] == Resolved(inputs[..n])
    decreases |inputs| - n
  {
    if n < |inputs| {
      assert inputs[..n + 1][..n] == inputs[..n];
      ResolvedPrefix(inputs, n + 1);
    } else {
      assert inputs[..n] == inputs;
    }
  }

  // --------------------------------------------------------------- counts

  /** A step that never excludes an output. */
  ghost predicate KeepsAll<T, E>(step: Step<T, E>) {
    forall o, a :: step(o, a).Ok? ==> step(o, a).value.Some?
  }

  /** The number of outputs a list of transactions moves: every output, and
      every input that was resolved. */
  function Moved(txs: seq<Tx>): nat {
    if txs == [] then 0
    else Moved(txs[..|txs| - 1]) + |txs[|txs| - 1].outputs| + |Resolved(txs[|txs| - 1].inputs)|
  }

  lemma {:induction false} KeyedCount<T, E>(step: Step<T, E>, outs: seq<TxOutput>, a: Action)
    requires KeepsAll(step)
    ensures Keyed(step, outs, a).Ok? ==> |Keyed(step, outs, a).value| == |outs|
  {
    if outs != [] {
      var init, o := outs[..|outs| - 1], outs[|outs| - 1];
      KeyedCount(step, init, a);
    }
  }

  /** A step that keeps every output yields one element per moved output. */
  lemma {:induction false} ContributionsCount<T, E>(step: Step<T, E>, txs: seq<Tx>, m: Method)
    requires KeepsAll(step)
    ensures Contributions(step, txs, m).Ok? ==> |Contributions(step, txs, m).value| == Moved(txs)
  {
    if txs != [] {
      var init, tx := txs[..|txs| - 1], txs[|txs| - 1];
      ContributionsCount(step, init, m);
      KeyedCount(step, tx.outputs, OutputAction(m));
      KeyedCount(step, Resolved(tx.inputs), InputAction(m));
    }
  }

  // ------------------------------------------------------- reversibility

  function MapResult<T, U, E>(r: Result<seq<T>, E>, f: T -> U): Result<seq<U>, E> {
    match r
    case Ok(ds) => Ok(MapSeq(ds, f))
    case Err(e) => Err(e)
  }

  function MapSeq<T, U>(ds: seq<T>, f: T -> U): (r: seq<U>)
    ensures |r| == |ds|
    ensures forall i :: 0 <= i < |ds| ==> r[i] == f(ds[i])
  {
    seq(|ds|, i requires 0 <= i < |ds| => f(ds[i]))
  }

  lemma MapAppend<T, U>(ds: seq<T>, es: seq<T>, f: T -> U)
    ensures MapSeq(ds + es, f) == MapSeq(ds, f) + MapSeq(es, f)
  {
  }

  lemma ConcatMap<T, U, E>(r: Result<seq<T>, E>, s: Result<seq<T>, E>, f: T -> U)
    ensures Concat(MapResult(r, f), MapResult(s, f)) == MapResult(Concat(r, s), f)
  {
    if r.Ok? && s.Ok? {
      MapAppend(r.value, s.value, f);
    }
  }

  lemma OneFlip<T, U, E>(x: Result<Option<T>, E>, f: T -> U)
    ensures One(Flip(x, f)) == MapResult(One(x), f)
  {
    if x.Ok? && x.value.Some? {
      assert MapSeq([x.value.value], f) == [f(x.value.value)];
    }
  }

  /** When one step's result is always another's mapped by `f` (the second
      action standing for the first), the traversals over a list of outputs
      are related the same way. */
  lemma {:induction false} KeyedMap<T, U, E>(s1: Step<T, E>, a1: Action, s2: Step<U, E>, a2: Action,
                                             f: T -> U, outs: seq<TxOutput>)
    requires forall o :: s2(o, a2) == Flip(s1(o, a1), f)
    ensures Keyed(s2, outs, a2) == MapResult(Keyed(s1, outs, a1), f)
  {
    if outs != [] {
      var init, o := outs[..|outs| - 1], outs[|outs| - 1];
      KeyedMap(s1, a1, s2, a2, f, init);
      OneFlip(s1(o, a1), f);
      ConcatMap(Keyed(s1, init, a1), One(s1(o, a1)), f);
    }
  }

  /** A reducer whose step is another's followed by `f` emits, block by
      block, the other's elements mapped by `f`, and throws what it throws. */
  lemma {:induction false} ContributionsMap<T, U, E>(s1: Step<T, E>, s2: Step<U, E>, f: T -> U, txs: seq<Tx>, m: Method)
    requires forall o, a :: s2(o, a) == Flip(s1(o, a), f)
    ensures Contributions(s2, txs, m) == MapResult(Contributions(s1, txs, m), f)
  {
    if txs != [] {
      var init, tx := txs[..|txs| - 1], txs[|txs| - 1];
      ContributionsMap(s1, s2, f, init, m);
      KeyedMap(s1, OutputAction(m), s2, OutputAction(m), f, tx.outputs);
      KeyedMap(s1, InputAction(m), s2, InputAction(m), f, Resolved(tx.inputs));
      ConcatMap(Keyed(s1, tx.outputs, OutputAction(m)), Keyed(s1, Resolved(tx.inputs), InputAction(m)), f);
      ConcatMap(Contributions(s1, init, m), TxContributions(s1, tx, m), f);
    }
  }

  /** Reversibility of the traversal: undoing a block throws what applying it
      throws, and otherwise yields the same elements in the same order, each
      mirrored. */
  lemma {:induction false} ContributionsMirrored<T(!new), E>(step: Step<T, E>, neg: T -> T, txs: seq<Tx>)
    requires Mirrored(step, neg) && Involution(neg)
    ensures Contributions(step, txs, Undo) == MapResult(Contributions(step, txs, Apply), neg)
  {
    if txs != [] {
      var init, tx := txs[..|txs| - 1], txs[|txs| - 1];
      ContributionsMirrored(step, neg, init);
      forall o ensures step(o, Produce) == Flip(step(o, Consume), neg) {
        assert Flip(Flip(step(o, Produce), neg), neg) == step(o, Produce);
      }
      KeyedMap(step, Produce, step, Consume, neg, tx.outputs);
      KeyedMap(step, Consume, step, Produce, neg, Resolved(tx.inputs));
      ConcatMap(Keyed(step, tx.outputs, Produce), Keyed(step, Resolved(tx.inputs), Consume), neg);
      ConcatMap(Contributions(step, init, Apply), TxContributions(step, tx, Apply), neg);
    }
  }

  /** The delta case: undo yields the negated contributions. */
  lemma ContributionsReversible<E>(step: Step<Delta, E>, txs: seq<Tx>)
    requires SignSymmetric(step)
    ensures Contributions(step, txs, Undo).Err? <==> Contributions(step, txs, Apply).Err?
    ensures Contributions(step, txs, Apply).Err? ==> Contributions(step, txs, Undo) == Contributions(step, txs, Apply)
    ensures Contributions(step, txs, Apply).Ok? ==>
      Contributions(step, txs, Undo) == Ok(Negate(Contributions(step, txs, Apply).value))
  {
    assert Involution(NegDelta);
    ContributionsMirrored(step, NegDelta, txs);
    if Contributions(step, txs, Apply).Ok? {
      assert MapSeq(Contributions(step, txs, Apply).value, NegDelta) == Negate(Contributions(step, txs, Apply).value);
    }
  }

  /** Reversibility of the delta map: apply and undo of the same block fail
      alike or produce the same keys, in the same first-touch order, with
      every delta negated. */
  lemma BlockReversible<E>(step: Step<Delta, E>, block: Block)
    requires SignSymmetric(step)
    ensures Summarise(Contributions(step, Txs(block), Undo)).Err? <==>
            Summarise(Contributions(step, Txs(block), Apply)).Err?
    ensures Summarise(Contributions(step, Txs(block), Apply)).Err? ==>
            Summarise(Contributions(step, Txs(block), Undo)) == Summarise(Contributions(step, Txs(block), Apply))
    ensures Summarise(Contributions(step, Txs(block), Apply)).Ok? ==>
            var applied := Summarise(Contributions(step, Txs(block), Apply)).value;
            var undone := Summarise(Contributions(step, Txs(block), Undo)).value;
            && undone.keys == applied.keys
            && undone.amount.Keys == applied.amount.Keys
            && forall k :: k in applied.amount ==> undone.amount[k] == -applied.amount[k]
  {
    ContributionsReversible(step, Txs(block));
    if Contributions(step, Txs(block), Apply).Ok? {
      AccumulateNegate(Contributions(step, Txs(block), Apply).value);
    }
  }

  /** `BlockReversible` stated on whole ledgers: undo throws the error apply
      throws, or yields the applied ledger negated. */
  lemma SummariseReversible<E>(step: Step<Delta, E>, block: Block)
    requires SignSymmetric(step)
    ensures Summarise(Contributions(step, Txs(block), Apply)).Err? ==>
            Summarise(Contributions(step, Txs(block), Undo)) == Summarise(Contributions(step, Txs(block), Apply))
    ensures Summarise(Contributions(step, Txs(block), Apply)).Ok? ==>
            Summarise(Contributions(step, Txs(block), Undo)) ==
            Ok(Negated(Summarise(Contributions(step, Txs(block), Apply)).value))
  {
    BlockReversible(step, block);
    if Summarise(Contributions(step, Txs(block), Apply)).Ok? {
      var applied := Summarise(Contributions(step, Txs(block), Apply)).value;
      var undone := Summarise(Contributions(step, Txs(block), Undo)).value;
      assert undone.amount == Negated(applied).amount;
    }
  }

  // ---------------------------------------------------- order independence

  lemma {:induction false} ContributionsAppend<T, E>(step: Step<T, E>, t1: seq<Tx>, t2: seq<Tx>, m: Method)
    ensures Contributions(step, t1 + t2, m) == Concat(Contributions(step, t1, m), Contributions(step, t2, m))
    decreases |t2|
  {
    if t2 == [] {
      assert t1 + t2 == t1;
      var c := Contributions(step, t1, m);
      if c.Ok? { assert c.value + [] == c.value; }
    } else {
      var init, tx := t2[..|t2| - 1], t2[|t2| - 1];
      assert t1 + t2 == (t1 + init) + [tx];
      assert t2 == init + [tx];
      ContributionsSnoc(step, t1 + init, tx, m);
      ContributionsSnoc(step, init, tx, m);
      ContributionsAppend(step, t1, init, m);
      ConcatAssociative(Contributions(step, t1, m), Contributions(step, init, m), TxContributions(step, tx, m));
    }
  }

  lemma ConcatAssociative<T, E>(a: Result<seq<T>, E>, b: Result<seq<T>, E>, c: Result<seq<T>, E>)
    ensures Concat(Concat(a, b), c) == Concat(a, Concat(b, c))
  {
    if a.Ok? && b.Ok? && c.Ok? {
      assert a.value + b.value + c.value == a.value + (b.value + c.value);
    }
  }

  /** Order independence across transactions: processing two groups of
      transactions in either order succeeds alike and, when it succeeds,
      gives the same key-to-delta mapping. */
  lemma TxOrderIndependent<E>(step: Step<Delta, E>, t1: seq<Tx>, t2: seq<Tx>, m: Method)
    ensures Contributions(step, t1 + t2, m).Ok? <==> Contributions(step, t2 + t1, m).Ok?
    ensures Contributions(step, t1 + t2, m).Ok? ==>
      Accumulate(Contributions(step, t1 + t2, m).value).amount ==
      Accumulate(Contributions(step, t2 + t1, m).value).amount
  {
    ContributionsAppend(step, t1, t2, m);
    ContributionsAppend(step, t2, t1, m);
    if Contributions(step, t1 + t2, m).Ok? {
      var a, b := Contributions(step, t1, m).value, Contributions(step, t2, m).value;
      assert multiset(a + b) == multiset(b + a);
      AccumulatePermutation(a + b, b + a);
    }
  }
}
