# Balance reducers of scrolls — a Dafny model

Scrolls is a Cardano indexer. It reads blocks from a node, runs each one
through reducers, and writes the reducers' output to a database. A reducer
returns commands for a block as it is applied (`apply`) and for a block
rolled back (`undo`). There are two kinds of command:

- CRDT commands, such as a `PNCounter` increment, go to a key-value store.
- `ExecuteSQL` statements go to a relational store.

This project models the balance reducers. They walk each transaction's
outputs (coins produced) and resolved inputs (coins consumed), and they key
each amount by the address, or by the stake (reward) address, that holds it.
There are several near-duplicate copies:

- `examples/rdbms/reducers/src/balance_by_address.ts`: merges the amounts
  per address into an ordered delta map. One bulk UPSERT plus one DELETE
  of the zero rows settles the map into a balance table.
  Modules `RdbmsBalanceByAddress`, `Ledger` and `Sql`.
- `examples/rdbms/reducers/src/balance_by_stake_address.ts`: merges per
  stake address and emits one UPSERT per key.
  Module `RdbmsBalanceByStakeAddress`.
- `examples/crdt/reducers/src/balance_by_stake_address.ts`: merges per
  stake address and emits one prefixed `PNCounter` per key. The value is
  the decimal string of the sum.
  Module `CrdtBalanceByStakeAddress`.
- `src/reduce/deno/modules/reducers/balance_by_address.ts`: one command per
  output, without merging. An address of unassigned header type gets no key.
  Module `DenoBalanceByAddress`.
- `examples/crdt/reducers/src/balance_by_stake_key.ts`: one command per
  output of a base address; every other output is skipped.
  Module `CrdtBalanceByStakeKey`.
- `examples/crdt/reducers/src/mod.ts`: concatenates the outputs of the
  reducer list with `flatMap`.
  Module `CrdtReducers`.
- `src/reducers/rust/balance_by_address.rs`: a reducer object that sends a
  prefixed `PNCounter` with an `i64` value to its output port for every
  resolved input (inputs first) and every output.
  Module `RustBalanceByAddress`. The port is the class `OutputPort`, whose
  `sent` field records what was sent.
- `src/framework/mod.rs`: the chain events and their record mapping, the
  prefixed CRDT command constructors, the decoder from JSON to commands
  with its `i64` delta parser, block framing, intersection points, and the
  finalisation decision.
  Module `Framework`.

Shared pieces:

- `Chain` is the block as the reducers see it.
- `AddressCodec` has the address header classification of CIP-19 (Cardano
  addresses, "Shelley addresses / header types").
  - CML (the TypeScript library) and pallas (the Rust library) are records
    of functions. They are parameters, so byte-level bech32 (BIP-173),
    base58 and CBOR stay uninterpreted.
  - The nibble dispatch and the base-address and stake-credential layout
    are concrete.
- `Encoding` has hex and the decimal text of integers.
- `BlockWalker` is the traversal every TypeScript reducer shares: outputs,
  then resolved inputs, per transaction, under a sign table. It comes with
  the walking methods and their specification functions.

Errors follow each copy.

- A TypeScript `throw` is `Err(Thrown)` from a `Result`.
- The deno copy's missing `default` case is a `None` key.
- A Rust `unwrap` that panics is `panicked == true`. The commands sent before
  the panic stay in the port's `sent`.

## Model

| member | source | states |
|---|---|---|
| AddressCodec.KindOf | examples/rdbms/reducers/src/balance_by_address.ts:20-47 | Header type 0-3 is base, 4-5 pointer, 6-7 enterprise, 8 Byron, 14-15 reward, 9-13 unassigned. Each holds in both directions. |
| AddressCodec.StakeKey | examples/rdbms/reducers/src/balance_by_stake_address.ts:25-36 | A stake key exists exactly for base addresses. It is the bech32 "stake" text of the reward address built from the network id and the stake credential. |
| AddressCodec.RewardAddressRoundTrip | examples/rdbms/reducers/src/balance_by_address.ts:38-43 | A rebuilt reward address has a reward header, and reading it back gives the same network id and credential. |
| AddressCodec.StakeKeyIgnoresPaymentPart | examples/rdbms/reducers/src/balance_by_address.ts:37-43 | Two base addresses with the same network and stake credential get the same stake key, whatever their payment parts. |
| AddressCodec.NonBaseHasNoStakeKey | examples/rdbms/reducers/src/balance_by_stake_address.ts:25-36 | Pointer, enterprise, Byron, reward and unassigned addresses yield no stake key. |
| Encoding.HexRoundTrip | examples/rdbms/reducers/src/balance_by_address.ts:28-32 | Decoding the hex text of bytes gives the bytes back. |
| Encoding.HexInjective | examples/rdbms/reducers/src/balance_by_address.ts:28-32 | Different bytes have different hex texts, so the CouldNotParse error names its address. |
| Encoding.DecimalRoundTrip | examples/crdt/reducers/src/balance_by_stake_address.ts:93 | Parsing the decimal string of any integer, negative or not, gives it back. |
| Encoding.I64DecimalRoundTrip | src/framework/mod.rs:459-460 | Parsing a decimal string as i64 gives the integer back exactly when it lies in the i64 range, and fails otherwise. |
| JsConfig.Field | examples/rdbms/reducers/src/balance_by_address.ts:72-73 | A present field gives its value, and a missing one gives the text "undefined". |
| RdbmsBalanceByAddress.ProcessTxOutput | examples/rdbms/reducers/src/balance_by_address.ts:15-64 | Throws when the bytes do not decode. Payment mode keys Byron by base58 and other addresses by bech32, and throws CouldNotParse with the hex when both are falsy. Stake mode yields a key only for base addresses. Any other address type throws NotImplemented. The value is +coin for Produce and -coin for Consume. |
| RdbmsBalanceByAddress.StepSignSymmetric | examples/rdbms/reducers/src/balance_by_address.ts:53-61 | Consuming an output throws or skips exactly as producing it does, and otherwise contributes the negated delta under the same key. |
| RdbmsBalanceByAddress.Emit | examples/rdbms/reducers/src/balance_by_address.ts:123-153 | An empty delta map gives no commands. Otherwise there are two: an upsert then a delete. Both are on the configured table and the same key list. The upsert's i-th value is the i-th key's amount. |
| RdbmsBalanceByAddress.ProcessBlock | examples/rdbms/reducers/src/balance_by_address.ts:66-154 | The loop over transactions, outputs and inputs, with its in-place delta map, computes the specification `Reduce`: the first error, or the commands for the summed deltas. |
| RdbmsBalanceByAddress.ApplyBlock | examples/rdbms/reducers/src/balance_by_address.ts:156-158 | `apply` is `processBlock` with the Apply method. |
| RdbmsBalanceByAddress.UndoBlock | examples/rdbms/reducers/src/balance_by_address.ts:160-162 | `undo` is `processBlock` with the Undo method. |
| RdbmsBalanceByAddress.ReduceEffect | examples/rdbms/reducers/src/balance_by_address.ts:76-153 | Executing the emitted commands adds each touched address's net delta to its row and drops the touched rows that reach zero. Untouched rows stay as they are. |
| RdbmsBalanceByAddress.ApplyKeepsNoZeroRows | examples/rdbms/reducers/src/balance_by_address.ts:139-150 | A table without zero balances has none after a block's commands run. |
| RdbmsBalanceByAddress.UndoRestoresTable | examples/rdbms/reducers/src/balance_by_address.ts:76-121 | Undo throws exactly when apply does, with the same error. Running apply's commands and then undo's restores any table without zero balances. |
| RdbmsBalanceByStakeAddress.ProcessTxOutput | examples/rdbms/reducers/src/balance_by_stake_address.ts:20-52 | Throws exactly when the bytes do not decode. Yields nothing exactly for a non-base address. Otherwise it gives the stake key and a value of +coin for Produce and -coin for Consume. |
| RdbmsBalanceByStakeAddress.StepSignSymmetric | examples/rdbms/reducers/src/balance_by_stake_address.ts:39-46 | Consume mirrors Produce: the same error or exclusion, or the negated delta under the same key. |
| RdbmsBalanceByStakeAddress.EmitCommands | examples/rdbms/reducers/src/balance_by_stake_address.ts:87-100 | The loop pushes one upsert per delta entry, in key order, with that entry's sum. |
| Sql.Upserts | examples/rdbms/reducers/src/balance_by_stake_address.ts:87-100 | There is exactly one command per key. |
| RdbmsBalanceByStakeAddress.ProcessBlock | examples/rdbms/reducers/src/balance_by_stake_address.ts:54-103 | The imperative walk computes the specification `Reduce`. |
| RdbmsBalanceByStakeAddress.ReduceEffect | examples/rdbms/reducers/src/balance_by_stake_address.ts:64-102 | There is one command per distinct key, and no DELETE. Executing them adds each key's net delta to its row. A block without qualifying addresses gives `[]`. |
| RdbmsBalanceByStakeAddress.UndoRestoresBalances | examples/rdbms/reducers/src/balance_by_stake_address.ts:64-100 | Undo throws exactly when apply does. Running apply's commands, then undo's, gives every address its old balance. The resulting rows are the old rows plus the block's touched keys, and each added row holds zero. |
| Sql.AddAllEffect | examples/rdbms/reducers/src/balance_by_address.ts:127-135 | An upsert over distinct keys adds each value to its own row once and leaves the other rows alone. |
| Sql.UpsertThenDelete | examples/rdbms/reducers/src/balance_by_address.ts:123-153 | The upsert followed by the delete of zero rows among the same keys settles the deltas into the table. |
| Sql.SettleKeepsNoZeroRows | examples/rdbms/reducers/src/balance_by_address.ts:139-150 | Settling keeps a table free of zero balances. |
| Sql.SettleRoundTrip | examples/rdbms/reducers/src/balance_by_address.ts:139-150 | Settling the deltas and then their negation restores each table whose touched rows are non-zero. |
| Sql.UpsertsAddAll | examples/rdbms/reducers/src/balance_by_stake_address.ts:87-100 | Running the per-key upserts one after another is the bulk add of all the sums. |
| Sql.ShiftRoundTrip | examples/rdbms/reducers/src/balance_by_stake_address.ts:87-100 | Adding the deltas and then their negation restores every balance. The rows this inserts hold zero. |
| Ledger.AccumulateSums | examples/rdbms/reducers/src/balance_by_address.ts:89-95 | The delta map has exactly the keys some contribution touched, in first-touch order and without repeats. Each key's amount is the sum of its contributions, zero sums included. |
| Ledger.SumPermutation | examples/rdbms/reducers/src/balance_by_address.ts:89-118 | A key's sum does not depend on the order of the contributions. |
| Ledger.AccumulatePermutation | examples/rdbms/reducers/src/balance_by_address.ts:89-118 | Reordering the contributions gives a delta map with the same amounts; it differs only in key order. |
| Ledger.AccumulateNegate | examples/rdbms/reducers/src/balance_by_address.ts:78-118 | Negated contributions accumulate to the same keys in the same order with negated amounts. |
| Ledger.SumUntouched | examples/rdbms/reducers/src/balance_by_address.ts:89-95 | A key no contribution touches sums to zero. |
| Ledger.KeysIgnoreAmounts | examples/rdbms/reducers/src/balance_by_address.ts:89-95 | The key order of the delta map depends only on the contributions' keys. |
| Ledger.SumAppend | examples/rdbms/reducers/src/balance_by_address.ts:89-118 | Summing is additive over concatenated contributions. |
| Ledger.MergeAllAppend | examples/rdbms/reducers/src/balance_by_address.ts:76-121 | Merging two batches in turn is merging their concatenation. |
| Ledger.NegatedValues | examples/rdbms/reducers/src/balance_by_address.ts:123-136 | The values of the negated map are the negated values, position by position. |
| Ledger.DistinctKeyCount | examples/rdbms/reducers/src/balance_by_stake_address.ts:87-100 | Distinct keys are as many as the delta map's entries, so one command per entry is one per distinct key. |
| BlockWalker.Signed | examples/rdbms/reducers/src/balance_by_address.ts:53-61 | Produce gives +coin, and Consume gives -coin. |
| BlockWalker.AccumulateBlock | examples/rdbms/reducers/src/balance_by_address.ts:76-121 | The nested loops merge into the delta map the contributions of every transaction (outputs under the output action, then resolved inputs under the input action), or stop at the first error. |
| BlockWalker.CollectBlock | src/reduce/deno/modules/reducers/balance_by_address.ts:65-85 | The nested loops push every contribution in transaction order (outputs, then resolved inputs), or stop at the first error. |
| BlockWalker.ContributionsCount | src/reduce/deno/modules/reducers/balance_by_address.ts:65-85 | A step that never skips gives exactly one contribution per output and per resolved input. |
| BlockWalker.ContributionsMirrored | src/reduce/deno/modules/reducers/balance_by_address.ts:88-107 | When consuming mirrors producing, undo's contributions are apply's, mapped element by element through the negation. It has the same errors. |
| BlockWalker.ContributionsReversible | examples/rdbms/reducers/src/balance_by_address.ts:78-109 | For a sign-symmetric step, undo errs exactly when apply does, with the same error. Otherwise undo's deltas are apply's with negated amounts. |
| BlockWalker.BlockReversible | examples/rdbms/reducers/src/balance_by_address.ts:76-121 | Undo's delta map has the same keys, in the same order, as apply's, and each amount is negated. |
| BlockWalker.SummariseReversible | examples/rdbms/reducers/src/balance_by_address.ts:76-121 | Undo's delta map is the negation of apply's. |
| BlockWalker.ContributionsMap | examples/crdt/reducers/src/balance_by_stake_key.ts:16-50 | Two steps that differ by a mapping of their contributions give walks that differ by that mapping. |
| BlockWalker.ContributionsAppend | examples/rdbms/reducers/src/balance_by_address.ts:76-121 | Walking two transaction lists after one another is walking their concatenation. |
| BlockWalker.TxOrderIndependent | examples/rdbms/reducers/src/balance_by_address.ts:76-121 | Swapping two halves of the transaction list changes neither success nor the net amounts. |
| CrdtBalanceByStakeAddress.CounterKey | examples/crdt/reducers/src/balance_by_stake_address.ts:92 | The key is the prefix, a '.', and the stake key. |
| CrdtBalanceByStakeAddress.EmitCommands | examples/crdt/reducers/src/balance_by_stake_address.ts:88-95 | The loop pushes one counter per delta entry, in key order. |
| CrdtBalanceByStakeAddress.CountersDecode | examples/crdt/reducers/src/balance_by_stake_address.ts:88-95 | The i-th counter has the prefixed i-th key, and its value parses back to that key's sum, with no truncation. |
| CrdtBalanceByStakeAddress.ProcessBlock | examples/crdt/reducers/src/balance_by_stake_address.ts:55-98 | The imperative walk computes the specification `Reduce`. |
| CrdtBalanceByStakeAddress.CountersOfContributions | examples/crdt/reducers/src/balance_by_stake_address.ts:76-95 | For any contributions, the i-th counter's key is `prefix.key` of the i-th touched key, its value is the decimal text of that key's sum, and a key gets a counter exactly when it was touched. |
| CrdtBalanceByStakeAddress.ReduceMeaning | examples/crdt/reducers/src/balance_by_stake_address.ts:63-95 | There is one `PNCounter` per distinct stake key, in first-touch order, zero sums included. The i-th command's key is `prefix.key` of the i-th key, and its value is the decimal text of that key's summed delta, which parses back to the sum. |
| CrdtBalanceByStakeAddress.UndoNegatesCounters | examples/crdt/reducers/src/balance_by_stake_address.ts:63-95 | Undo throws exactly when apply does. Otherwise it emits the same keys in the same order, and each value parses to the negation of apply's. |
| CrdtBalanceByStakeAddress.CountersNegate | examples/crdt/reducers/src/balance_by_stake_address.ts:88-95 | The counters of a negated delta map cancel the original counters one by one. |
| DenoBalanceByAddress.BytesToAddress | src/reduce/deno/modules/reducers/balance_by_address.ts:7-35 | Throws exactly when the bytes do not decode. Header types 0-7 give bech32 "addr", 8 gives base58, and 14-15 give bech32 "stake". Any other type gives no key, and only those do. |
| DenoBalanceByAddress.ProcessTxOutput | src/reduce/deno/modules/reducers/balance_by_address.ts:44-62 | Always yields a `PNCounter` under the address's key, possibly `undefined`. The value is +coin for Produce and -coin for Consume. |
| DenoBalanceByAddress.ApplyBlock | src/reduce/deno/modules/reducers/balance_by_address.ts:65-85 | The loops push the commands of every output (Produce), then every resolved input (Consume), per transaction. |
| DenoBalanceByAddress.UndoBlock | src/reduce/deno/modules/reducers/balance_by_address.ts:88-107 | The same loops push the commands with the actions swapped. |
| DenoBalanceByAddress.CommandCount | src/reduce/deno/modules/reducers/balance_by_address.ts:65-85 | Exactly one command per output plus one per resolved input. |
| DenoBalanceByAddress.UndoMirrorsApply | src/reduce/deno/modules/reducers/balance_by_address.ts:65-107 | Undo throws exactly when apply does. Otherwise it has the same length and keys as apply, each value negated. |
| CrdtBalanceByStakeKey.ProcessTxOutput | examples/crdt/reducers/src/balance_by_stake_key.ts:16-50 | It is the stake-address step with its delta written as a `PNCounter` whose value is the decimal text. That text parses back to ±coin. |
| CrdtBalanceByStakeKey.ApplyBlock | examples/crdt/reducers/src/balance_by_stake_key.ts:52-76 | The loops push a command for each output and resolved input of a base address, and skip the rest. |
| CrdtBalanceByStakeKey.UndoBlock | examples/crdt/reducers/src/balance_by_stake_key.ts:78-102 | The same loops push with the actions swapped. |
| CrdtBalanceByStakeKey.CommandsAreContributions | examples/crdt/reducers/src/balance_by_stake_key.ts:52-102 | The commands are the unmerged stake-address contributions written as counters, one per qualifying output or resolved input. |
| CrdtBalanceByStakeKey.UndoCancelsApply | examples/crdt/reducers/src/balance_by_stake_key.ts:52-102 | Undo throws exactly when apply does. Otherwise it emits the same key sequence with values that parse to the negations. |
| CrdtReducers.FlatMapOk | examples/crdt/reducers/src/mod.ts:10-16 | The bundle succeeds exactly when every reducer of the list succeeds on the same unmodified block. |
| CrdtReducers.FlatMapPair | examples/crdt/reducers/src/mod.ts:5-12 | For a list of two reducers, `flatMap` concatenates the first's commands and then the second's. |
| CrdtReducers.BundleApply | examples/crdt/reducers/src/mod.ts:10-12 | `apply` is the by-address commands followed by the stake-key commands for the same block. |
| CrdtReducers.BundleUndo | examples/crdt/reducers/src/mod.ts:14-16 | `undo` is the by-address undo commands followed by the stake-key undo commands. |
| CrdtReducers.BundleUndoCancels | examples/crdt/reducers/src/mod.ts:10-16 | If the by-address reducer's undo cancels its apply, the bundle's undo cancels the bundle's apply. |
| RustBalanceByAddress.TxoValue | src/reducers/rust/balance_by_address.rs:97-100 | For a coin that fits in i64, Produced gives +coin and Consumed gives -coin. The general value is the wrapped one. |
| RustBalanceByAddress.WrapLosesSign | src/reducers/rust/balance_by_address.rs:97-100 | A coin of 2^63 gives i64::MIN under both operations. |
| RustBalanceByAddress.CounterKey | src/reducers/rust/balance_by_address.rs:95 | The key is the prefixed key of the address's display text. |
| RustBalanceByAddress.Reducer.KeyPrefix | src/reducers/rust/balance_by_address.rs:80-85 | The configured prefix, or "balance_by_address" when none is set. |
| RustBalanceByAddress.Reducer.ProcessTxo | src/reducers/rust/balance_by_address.rs:87-109 | Panics, sending nothing, exactly when the address does not decode. Otherwise it sends one `PNCounter` with the prefixed key and the i64 value. |
| RustBalanceByAddress.Reducer.Walk | src/reducers/rust/balance_by_address.rs:37-51 | The loops send exactly the event stream `Moves` gives: per transaction, resolved inputs, then outputs. They stop at the first panic. |
| RustBalanceByAddress.Reducer.Apply | src/reducers/rust/balance_by_address.rs:32-54 | A block without a body panics before sending anything. Otherwise, per transaction, resolved inputs are walked as Consumed and then outputs as Produced. |
| RustBalanceByAddress.Reducer.Undo | src/reducers/rust/balance_by_address.rs:56-78 | The same traversal with Produced and Consumed swapped. |
| RustBalanceByAddress.EmitMeaning | src/reducers/rust/balance_by_address.rs:87-109 | Without a panic, the i-th event sent is the counter of the i-th move. With one, the events sent are those before the first undecodable address. |
| RustBalanceByAddress.MovesCount | src/reducers/rust/balance_by_address.rs:39-51 | The stream has one move per resolved input and per output; unresolved inputs send nothing. |
| RustBalanceByAddress.OneEventPerOutput | src/reducers/rust/balance_by_address.rs:39-51 | A run without a panic sends exactly one event per move. |
| RustBalanceByAddress.MovesFlip | src/reducers/rust/balance_by_address.rs:61-75 | Undo's moves are apply's moves with each operation flipped. |
| RustBalanceByAddress.UndoMirrorsApply | src/reducers/rust/balance_by_address.rs:32-78 | For coins up to i64::MAX, apply and undo panic together. They send equally many events, with equal keys in the same order and negated values. |
| Framework.PointOf | src/framework/mod.rs:107-113 | Every event's point is the point it carries. |
| Framework.RecordOf | src/framework/mod.rs:115-121 | The record is absent exactly for Reset. |
| Framework.MapRecord | src/framework/mod.rs:123-129 | Keeps the Apply/Undo tag and the point, replaces the record with its image, and leaves Reset unchanged. |
| Framework.MapRecordCompose | src/framework/mod.rs:123-129 | Mapping twice is mapping by the composition. |
| Framework.TryMapRecord | src/framework/mod.rs:131-139 | Fails exactly when the event has a record and the map fails on it, with that error. Otherwise it keeps the tag and point and stores the image. |
| Framework.TryMapRecordTotal | src/framework/mod.rs:131-139 | With a map that never fails, it is `map_record`. |
| Framework.TryMapRecordToMany | src/framework/mod.rs:141-158 | Reset becomes a singleton list. An error propagates. Otherwise there is one event per produced record, in order, each with the original tag and point. |
| Framework.TryMapRecordToManySingle | src/framework/mod.rs:141-158 | A map to a single record gives the singleton of `try_map_record`. |
| Framework.PrefixedKey | src/framework/mod.rs:261-375 | With a prefix, the key is the prefix, a '.' and the key. Without one, it is the key. |
| Framework.PrefixedKeyInjective | src/framework/mod.rs:261-375 | Under the same prefix, different keys stay different. |
| Framework.PrefixedSetAdd | src/framework/mod.rs:261-268 | A `SetAdd` under the prefixed key. |
| Framework.PrefixedSetRemove | src/framework/mod.rs:270-277 | A `SetRemove` under the prefixed key. |
| Framework.PrefixedSortedSetAdd | src/framework/mod.rs:279-291 | A `SortedSetAdd` under the prefixed key, with the given member and delta. |
| Framework.PrefixedSortedSetRemove | src/framework/mod.rs:293-305 | A `SortedSetRemove` under the prefixed key, with the given member and delta. |
| Framework.PrefixedAnyWriteWins | src/framework/mod.rs:307-318 | An `AnyWriteWins` under the prefixed key, with the given value. |
| Framework.PrefixedLastWriteWins | src/framework/mod.rs:320-335 | A `LastWriteWins` under the prefixed key, with the given value and timestamp. |
| Framework.PrefixedHashSetValue | src/framework/mod.rs:337-352 | A `HashSetValue` under the prefixed key, with the member and value. |
| Framework.PrefixedHashDelKey | src/framework/mod.rs:354-361 | A `HashUnsetKey` under the prefixed key. |
| Framework.PrefixedHashCounter | src/framework/mod.rs:363-375 | A `HashCounter` under the prefixed key, with the member and delta. |
| Framework.BlockStartingOf | src/framework/mod.rs:255-259 | Gives the block's point exactly when the block has a header. |
| Framework.BlockFinishedOf | src/framework/mod.rs:377-381 | Gives the block's point exactly when the block has a header. |
| Framework.ExtractString | src/framework/mod.rs:447-452 | Gives the string field, or an error naming the key when the field is missing or not a string. |
| Framework.ExtractDelta | src/framework/mod.rs:454-466 | Succeeds exactly for a JSON integer in the i64 range or a string that parses as i64, and gives that integer. Other strings fail with the parse error, and everything else fails with the type error. |
| Framework.ExtractTimestamp | src/framework/mod.rs:468-472 | Gives the unsigned integer field, or an error naming the key. |
| Framework.ExtractValue | src/framework/mod.rs:474-479 | Gives the value field, or an error naming the key. |
| Framework.FromJson | src/framework/mod.rs:383-444 | A non-object is an error, as is a missing or unknown command name. A decoded command is of the variant its "command" field names. |
| Framework.FromJsonCounter | src/framework/mod.rs:420-424 | A `PNCounter` object decodes to the counter with the "key" field and the delta from the "value" field. |
| Framework.StringifiedCounter | src/framework/mod.rs:420-424 | A counter whose value is the decimal text of n decodes to n when n is in the i64 range, and to the parse error otherwise. |
| Framework.FromJsonRoundTrip | src/framework/mod.rs:383-444 | Every decodable command written as JSON decodes back to itself. |
| Framework.BreadcrumbPoints | src/framework/mod.rs:510-531 | Breadcrumbs give one point per entry, in order, and fail exactly when some hash is not valid hex. |
| Framework.Points | src/framework/mod.rs:510-531 | Tip and Origin give no point list. A point gives the singleton of its decoded point, and breadcrumbs give their decoded points. An invalid hex hash is the `expect` panic. |
| Framework.BreadcrumbsRoundTrip | src/framework/mod.rs:510-531 | The hex of any points decodes back to those points. |
| Framework.ShouldFinalize | src/framework/mod.rs:544-573 | False without a config. With `until_hash` and a specific point, it is hash equality, whatever `max_block_slot` says. Otherwise it is true exactly when `max_block_slot` is set and the slot has reached it. |
| Framework.FinalizeOnHash | src/framework/mod.rs:552-560 | A configured hash finalises at the block with that hash. |
| Framework.FinalizeMonotonic | src/framework/mod.rs:562-570 | Without a hash, once a slot finalises every later slot does too. |

## Left out

- Storage (Redis, Postgres), the Deno runtime and its async ops, the stage wiring, the daemon and the build and run scripts. They are I/O and glue. This model does not execute the commands against a real store. `Sql` gives the intended table semantics of the three statement shapes instead.
- The literal SQL text, its string interpolation and the quoting of keys. Statements are structured values (table, keys, values), so the injection risk of interpolating keys is not visible here.
- The byte-level encoders (bech32, base58, CBOR Byron payloads) and the address libraries' parsers. They are calls into foreign libraries: records of functions (`Cml`, `Pallas`) passed as parameters.
- `UtxoRpc.Block.fromJson`, the serde forms of `Record` and `ChainEvent`, and `hex::encode`. The block is a small datatype, and a hash is hex text or its bytes.
- The crdt example's `balance_by_address.ts` is not part of this model. In the bundle it is a parameter `CrdtReducers.Reducer`.
- The deno placeholder `balance_by_stake_key.ts` returns a constant command and is not modelled.
- JavaScript object key order is insertion order for the address keys here, and `Ledger` keeps it that way. The JavaScript rule that orders integer-like keys first is not modelled, because no address text is integer-like.
- CrdtReducers.FlatMap: every reducer returns an array, so `flatMap`'s case of a non-array result (counted as one element) does not arise.
- RustBalanceByAddress.OutputPort.Send: a send on a closed channel fails with an error that the reducer returns. The model's port always accepts.
- RustBalanceByAddress.TxoValue: models `coin as i64` and `-1 * x` as two's-complement wrap-around, as a release build computes them. A debug build would panic on the multiplication for i64::MIN. Cardano's total supply stays below i64::MAX, so neither arises in practice.
- `ChainConfig`, `GenesisValues`, the `Context` struct and the `RDBMSCommand` decoder. They are configuration records without logic, and the decoder is not shown.
- Async execution and concurrency of the stages. Every reducer call is modelled as a sequential function or method.
