/** The CRDT example's reducer bundle (examples/crdt/reducers/src/mod.ts):
    `apply` and `undo` run every reducer of a fixed list on the same block
    and concatenate their commands in list order (`flatMap`); a reducer
    that throws makes the whole call throw.

    The list holds the stake-key reducer and a balance-by-address reducer
    whose source (examples/crdt/reducers/src/balance_by_address.ts) is not
    part of this model; that one is a parameter. */
module CrdtReducers {
  import opened Wrappers
  import opened Chain
  import opened AddressCodec
  import opened BlockWalker
  import opened CrdtCommand
  import CrdtBalanceByStakeKey
  import CrdtBalanceByStakeAddress

  /** A reducer's `apply` or `undo` entry point. */
  type Reducer = Block -> Result<seq<Command>, Thrown>

  /** `reducers.flatMap((reducer) => reducer.apply(blockJson))`. */
  function FlatMap(reducers: seq<Reducer>, block: Block): Result<seq<Command>, Thrown> {
    if reducers == [] then Ok([])
    else Concat(FlatMap(reducers[..|reducers| - 1], block), reducers[|reducers| - 1](block))
  }

  /** `flatMap` succeeds exactly when every reducer does: each one runs on
      the same block, and none is skipped. */
  lemma {:induction false} FlatMapOk(reducers: seq<Reducer>, block: Block)
    ensures FlatMap(reducers, block).Ok? <==> forall i :: 0 <= i < |reducers| ==> reducers[i](block).Ok?
  {
    if reducers != [] {
      var init := reducers[..|reducers| - 1];
      FlatMapOk(init, block);
      assert forall i :: 0 <= i < |init| ==> init[i] == reducers[i];
    }
  }

  /** Two reducers: the first one's commands, then the second one's; the
      first one to throw decides the error. */
  lemma FlatMapPair(first: Reducer, second: Reducer, block: Block)
    ensures FlatMap([first, second], block) == Concat(first(block), second(block))
  {
    assert [first, second][..1] == [first];
    assert [first][..0] == [];
    assert FlatMap([first], block) == Concat(Ok([]), first(block));
    var a := first(block);
    if a.Ok? {
      assert [] + a.value == a.value;
    }
    assert FlatMap([first], block) == a;
  }

  function StakeKeyApply(lib: Cml): Reducer {
    (b: Block) => Contributions(CrdtBalanceByStakeKey.Step(lib), Txs(b), Apply)
  }

  function StakeKeyUndo(lib: Cml): Reducer {
    (b: Block) => Contributions(CrdtBalanceByStakeKey.Step(lib), Txs(b), Undo)
  }

  /** `apply` of the bundle: the balance-by-address commands, then the
      stake-key commands. */
  function BundleApply(byAddressApply: Reducer, lib: Cml, block: Block): (r: Result<seq<Command>, Thrown>)
    ensures r == Concat(byAddressApply(block), StakeKeyApply(lib)(block))
  {
    FlatMapPair(byAddressApply, StakeKeyApply(lib), block);
    FlatMap([byAddressApply, StakeKeyApply(lib)], block)
  }

  /** `undo` of the bundle, in the same reducer order. */
  function BundleUndo(byAddressUndo: Reducer, lib: Cml, block: Block): (r: Result<seq<Command>, Thrown>)
    ensures r == Concat(byAddressUndo(block), StakeKeyUndo(lib)(block))
  {
    FlatMapPair(byAddressUndo, StakeKeyUndo(lib), block);
    FlatMap([byAddressUndo, StakeKeyUndo(lib)], block)
  }

  /** `undo` cancels `apply` for one reducer on one block. */
  predicate UndoCancels(applied: Result<seq<Command>, Thrown>, undone: Result<seq<Command>, Thrown>) {
    && (undone.Err? <==> applied.Err?)
    && (applied.Err? ==> undone == applied)
    && (applied.Ok? ==> CrdtBalanceByStakeAddress.Cancels(applied.value, undone.value))
  }

  lemma CancelsConcat(a1: Result<seq<Command>, Thrown>, u1: Result<seq<Command>, Thrown>,
                      a2: Result<seq<Command>, Thrown>, u2: Result<seq<Command>, Thrown>)
    requires UndoCancels(a1, u1) && UndoCancels(a2, u2)
    ensures UndoCancels(Concat(a1, a2), Concat(u1, u2))
  {
    if a1.Ok? && a2.Ok? {
      var x, y := a1.value + a2.value, u1.value + u2.value;
      forall i | 0 <= i < |x| ensures CrdtBalanceByStakeAddress.CancelsOne(x[i], y[i]) {
        if i < |a1.value| {
          assert x[i] == a1.value[i] && y[i] == u1.value[i];
        } else {
          assert x[i] == a2.value[i - |a1.value|] && y[i] == u2.value[i - |a1.value|];
        }
      }
    }
  }

  /** Rollback of the bundle: when the balance-by-address reducer's undo
      cancels its apply on a block, the bundle's undo cancels the bundle's
      apply, command for command. */
  lemma BundleUndoCancels(byAddressApply: Reducer, byAddressUndo: Reducer, lib: Cml, block: Block)
    requires UndoCancels(byAddressApply(block), byAddressUndo(block))
    ensures UndoCancels(BundleApply(byAddressApply, lib, block), BundleUndo(byAddressUndo, lib, block))
  {
    CrdtBalanceByStakeKey.UndoCancelsApply(lib, block);
    CancelsConcat(byAddressApply(block), byAddressUndo(block), StakeKeyApply(lib)(block), StakeKeyUndo(lib)(block));
  }
}
