/** The CRDT balance-by-stake-address reducer
    (examples/crdt/reducers/src/balance_by_stake_address.ts): the same net
    per-stake-address deltas as the relational variant, emitted as one
    positive/negative counter increment per stake address under a
    configured key prefix. Its `processTxOutput` is the relational
    variant's, line for line, and is reused from there. */
module CrdtBalanceByStakeAddress {
  import opened Wrappers
  import opened Chain
  import opened Encoding
  import opened AddressCodec
  import opened Ledger
  import opened BlockWalker
  import opened CrdtCommand
  import JsConfig
  import RdbmsBalanceByStakeAddress

  /** `config.prefix + "." + key`. */
  function CounterKey(prefix: string, key: string): (k: string)
    ensures |k| == |prefix| + 1 + |key| && k[..|prefix|] == prefix && k[|prefix|] == '.'
    ensures k[|prefix| + 1..] == key
  {
    prefix + "." + key
  }

  /** One counter increment per stake address, in first-touch order. */
  function Counters(prefix: string, l: Ledger): (cs: seq<Command>)
    ensures |cs| == |l.keys|
  {
    seq(|l.keys|, i requires 0 <= i < |l.keys| => PNCounter(CounterKey(prefix, l.keys[i]), DecimalString(Values(l)[i])))
  }

  /** The `Object.entries(deltas)` loop. */
  method EmitCommands(prefix: string, l: Ledger) returns (cs: seq<Command>)
    ensures cs == Counters(prefix, l)
  {
    var vs := Values(l);
    cs := [];
    var i := 0;
    while i < |l.keys|
      invariant 0 <= i <= |l.keys|
      invariant |cs| == i
      invariant forall j :: 0 <= j < i ==> cs[j] == PNCounter(CounterKey(prefix, l.keys[j]), DecimalString(vs[j]))
    {
      cs := cs + [PNCounter(CounterKey(prefix, l.keys[i]), DecimalString(vs[i]))];
      i := i + 1;
    }
  }

  /** Reading the commands back: each names its stake address behind the
      prefix and carries the exact net amount, which parses back without
      truncation. */
  lemma CountersDecode(prefix: string, l: Ledger)
    requires Valid(l)
    ensures forall i :: 0 <= i < |l.keys| ==>
      && Counters(prefix, l)[i].key[|prefix| + 1..] == l.keys[i]
      && ParseDecimal(Counters(prefix, l)[i].value) == Some(l.amount[l.keys[i]])
  {
    forall i | 0 <= i < |l.keys|
      ensures ParseDecimal(Counters(prefix, l)[i].value) == Some(l.amount[l.keys[i]])
    {
      DecimalRoundTrip(Values(l)[i]);
    }
  }

  function Step(lib: Cml): BlockWalker.Step<Delta, Thrown> {
    RdbmsBalanceByStakeAddress.Step(lib)
  }

  /** What `processBlock` returns (or throws). */
  function Reduce(lib: Cml, block: Block, config: map<string, string>, m: Method): Result<seq<Command>, Thrown> {
    match Summarise(Contributions(Step(lib), Txs(block), m))
    case Err(e) => Err(e)
    case Ok(l) => Ok(Counters(JsConfig.Field(config, "prefix"), l))
  }

  /** `processBlock`; `apply` passes `Apply`, `undo` passes `Undo`. */
  method ProcessBlock(lib: Cml, block: Block, config: map<string, string>, m: Method)
    returns (r: Result<seq<Command>, Thrown>)
    ensures r == Reduce(lib, block, config, m)
  {
    var deltas := AccumulateBlock(Step(lib), block, m);
    if deltas.Err? {
      return Err(deltas.error);
    }
    var cs := EmitCommands(JsConfig.Field(config, "prefix"), deltas.value);
    r := Ok(cs);
  }

  /** The counters of merged contributions: one per touched stake address,
      in first-touch order, each carrying the decimal text of its sum. */
  lemma CountersOfContributions(prefix: string, ds: seq<Delta>)
    ensures var cs := Counters(prefix, Accumulate(ds));
      && |cs| == |Accumulate(ds).keys|
      && (forall k :: Touched(ds, k) <==> exists i :: 0 <= i < |cs| && cs[i].key == CounterKey(prefix, k))
      && (forall i :: 0 <= i < |cs| ==>
            && cs[i].key == CounterKey(prefix, Accumulate(ds).keys[i])
            && cs[i].value == DecimalString(Sum(ds, Accumulate(ds).keys[i]))
            && ParseDecimal(cs[i].value) == Some(Sum(ds, Accumulate(ds).keys[i])))
  {
    var l := Accumulate(ds);
    var cs := Counters(prefix, l);
    AccumulateSums(ds);
    CountersDecode(prefix, l);
    forall i | 0 <= i < |cs|
      ensures cs[i].value == DecimalString(Sum(ds, l.keys[i]))
    {
      assert Values(l)[i] == l.amount[l.keys[i]];
    }
    forall k ensures Touched(ds, k) <==> exists i :: 0 <= i < |cs| && cs[i].key == CounterKey(prefix, k) {
      if Touched(ds, k) {
        var i :| 0 <= i < |l.keys| && l.keys[i] == k;
        assert cs[i].key == CounterKey(prefix, k);
      }
      if exists i :: 0 <= i < |cs| && cs[i].key == CounterKey(prefix, k) {
        var i :| 0 <= i < |cs| && cs[i].key == CounterKey(prefix, k);
        assert l.keys[i] == CounterKey(prefix, k)[|prefix| + 1..] == k;
      }
    }
  }

  /** Every increment of a block stands for one stake address and its exact
      net amount; stake addresses whose amounts cancel out still get an
      increment, of "0". */
  lemma ReduceMeaning(lib: Cml, block: Block, config: map<string, string>, m: Method)
    ensures Reduce(lib, block, config, m).Ok? ==>
      var ds := Contributions(Step(lib), Txs(block), m).value;
      var cs := Reduce(lib, block, config, m).value;
      var prefix := JsConfig.Field(config, "prefix");
      && |cs| == |Accumulate(ds).keys|
      && (forall k :: Touched(ds, k) <==> exists i :: 0 <= i < |cs| && cs[i].key == CounterKey(prefix, k))
      && (forall i :: 0 <= i < |cs| ==>
            && cs[i].key == CounterKey(prefix, Accumulate(ds).keys[i])
            && cs[i].value == DecimalString(Sum(ds, Accumulate(ds).keys[i]))
            && ParseDecimal(cs[i].value) == Some(Sum(ds, Accumulate(ds).keys[i])))
  {
    var c := Contributions(Step(lib), Txs(block), m);
    if c.Ok? {
      var prefix := JsConfig.Field(config, "prefix");
      assert Reduce(lib, block, config, m) == Ok(Counters(prefix, Accumulate(c.value)));
      CountersOfContributions(prefix, c.value);
    }
  }

  /** `undone` increments the counters `applied` increments, in the same
      order, each by the negated amount. */
  predicate Cancels(applied: seq<Command>, undone: seq<Command>) {
    && |undone| == |applied|
    && forall i :: 0 <= i < |applied| ==> CancelsOne(applied[i], undone[i])
  }

  predicate CancelsOne(applied: Command, undone: Command) {
    && undone.key == applied.key
    && ParseDecimal(applied.value).Some?
    && ParseDecimal(undone.value) == Some(-ParseDecimal(applied.value).value)
  }

  lemma CounterCancels(key: string, v: int)
    ensures CancelsOne(PNCounter(key, DecimalString(v)), PNCounter(key, DecimalString(-v)))
  {
    DecimalRoundTrip(v);
    DecimalRoundTrip(-v);
  }

  /** Rollback: undo throws exactly when apply throws, with the same error;
      otherwise its increments cancel those of apply. */
  lemma UndoNegatesCounters(lib: Cml, block: Block, config: map<string, string>)
    ensures Reduce(lib, block, config, Undo).Err? <==> Reduce(lib, block, config, Apply).Err?
    ensures Reduce(lib, block, config, Apply).Err? ==>
      Reduce(lib, block, config, Undo) == Reduce(lib, block, config, Apply)
    ensures Reduce(lib, block, config, Apply).Ok? ==>
      Cancels(Reduce(lib, block, config, Apply).value, Reduce(lib, block, config, Undo).value)
  {
    RdbmsBalanceByStakeAddress.StepSignSymmetric(lib);
    SummariseReversible(Step(lib), block);
    var c := Contributions(Step(lib), Txs(block), Apply);
    if c.Ok? {
      var l := Accumulate(c.value);
      AccumulateSums(c.value);
      CountersNegate(JsConfig.Field(config, "prefix"), l);
    }
  }

  lemma CountersNegate(prefix: string, l: Ledger)
    requires Valid(l)
    ensures Cancels(Counters(prefix, l), Counters(prefix, Negated(l)))
  {
    NegatedValues(l);
    var applied, undone := Counters(prefix, l), Counters(prefix, Negated(l));
    forall i | 0 <= i < |applied| ensures CancelsOne(applied[i], undone[i]) {
      var v := Values(l)[i];
      assert applied[i] == PNCounter(CounterKey(prefix, l.keys[i]), DecimalString(v));
      assert undone[i] == PNCounter(CounterKey(prefix, l.keys[i]), DecimalString(-v));
      CounterCancels(CounterKey(prefix, l.keys[i]), v);
    }
  }
}
