/** The per-block delta accumulator: the `deltas` record of the TypeScript
    reducers, a mapping from key to signed amount that remembers the order in
    which keys were first touched (the order `Object.keys`, `Object.values`
    and `Object.entries` report). */
module Ledger {

  /** One contribution: a signed amount for one key. */
  datatype Delta = Delta(key: string, value: int)

  datatype Ledger = Ledger(keys: seq<string>, amount: map<string, int>)

  /** Keys are listed once each, and exactly the listed keys have amounts. */
  ghost predicate Valid(l: Ledger) {
    && (forall i, j :: 0 <= i < j < |l.keys| ==> l.keys[i] != l.keys[j])
    && (forall k :: k in l.amount <==> k in l.keys)
  }

  /** `if (key in deltas) deltas[key] += value; else deltas[key] = value;` */
  function Merge(l: Ledger, d: Delta): Ledger {
    if d.key in l.amount then Ledger(l.keys, l.amount[d.key := l.amount[d.key] + d.value])
    else Ledger(l.keys + [d.key], l.amount[d.key := d.value])
  }

  /** The ledger after merging the contributions into `l` in order. */
  function MergeAll(l: Ledger, ds: seq<Delta>): Ledger {
    if ds == [] then l
    else Merge(MergeAll(l, ds[..|ds| - 1]), ds[|ds| - 1])
  }

  /** The ledger after merging the contributions in order, from empty. */
  function Accumulate(ds: seq<Delta>): Ledger {
    MergeAll(Ledger([], map[]), ds)
  }

  lemma MergeAllSnoc(l: Ledger, ds: seq<Delta>, d: Delta)
    ensures MergeAll(l, ds + [d]) == Merge(MergeAll(l, ds), d)
  {
    assert (ds + [d])[..|ds|] == ds;
  }

  lemma {:induction false} MergeAllAppend(l: Ledger, ds: seq<Delta>, es: seq<Delta>)
    ensures MergeAll(l, ds + es) == MergeAll(MergeAll(l, ds), es)
    decreases |es|
  {
    if es == [] {
      assert ds + es == ds;
    } else {
      var init, e := es[..|es| - 1], es[|es| - 1];
      assert es == init + [e];
      assert ds + es == (ds + init) + [e];
      MergeAllSnoc(l, ds + init, e);
      MergeAllSnoc(MergeAll(l, ds), init, e);
      MergeAllAppend(l, ds, init);
    }
  }

  /** The total of the contributions to key `k`. */
  function Sum(ds: seq<Delta>, k: string): int {
    if ds == [] then 0
    else Sum(ds[..|ds| - 1], k) + (if ds[|ds| - 1].key == k then ds[|ds| - 1].value else 0)
  }

  /** Some contribution names key `k`. */
  predicate Touched(ds: seq<Delta>, k: string) {
    exists i :: 0 <= i < |ds| && ds[i].key == k
  }

  function NegDelta(d: Delta): (n: Delta)
    ensures n.key == d.key && n.value == -d.value
  {
    Delta(d.key, -d.value)
  }

  function Negate(ds: seq<Delta>): (r: seq<Delta>)
    ensures |r| == |ds|
    ensures forall i :: 0 <= i < |ds| ==> r[i] == Delta(ds[i].key, -ds[i].value)
  {
    seq(|ds|, i requires 0 <= i < |ds| => Delta(ds[i].key, -ds[i].value))
  }

  lemma AccumulateSnoc(ds: seq<Delta>, d: Delta)
    ensures Accumulate(ds + [d]) == Merge(Accumulate(ds), d)
    ensures forall k :: Sum(ds + [d], k) == Sum(ds, k) + (if d.key == k then d.value else 0)
  {
    assert (ds + [d])[..|ds|] == ds;
    MergeAllSnoc(Ledger([], map[]), ds, d);
  }

  /** Sum semantics: every touched key has an entry (also when its
      contributions net to zero), no other key has one, each key is listed
      once, and its amount is the sum of all its contributions; nothing is
      overwritten. */
  lemma {:induction false} AccumulateSums(ds: seq<Delta>)
    ensures Valid(Accumulate(ds))
    ensures forall k :: k in Accumulate(ds).amount <==> Touched(ds, k)
    ensures forall k :: k in Accumulate(ds).amount ==> Accumulate(ds).amount[k] == Sum(ds, k)
  {
    if ds != [] {
      var init, d := ds[..|ds| - 1], ds[|ds| - 1];
      assert ds == init + [d];
      AccumulateSums(init);
      AccumulateSnoc(init, d);
      forall k ensures Touched(ds, k) <==> Touched(init, k) || d.key == k {
        if Touched(ds, k) {
          var i :| 0 <= i < |ds| && ds[i].key == k;
          if i < |init| { assert init[i].key == k; }
        }
        if Touched(init, k) {
          var i :| 0 <= i < |init| && init[i].key == k;
          assert ds[i].key == k;
        }
        if d.key == k { assert ds[|ds| - 1].key == k; }
      }
      forall k | !Touched(init, k) ensures Sum(init, k) == 0 {
        SumUntouched(init, k);
      }
    }
  }

  lemma {:induction false} SumUntouched(ds: seq<Delta>, k: string)
    requires !Touched(ds, k)
    ensures Sum(ds, k) == 0
  {
    if ds != [] {
      SumUntouched(ds[..|ds| - 1], k);
    }
  }

  /** The order of first touches depends on the keys alone, not on the
      amounts. */
  lemma {:induction false} KeysIgnoreAmounts(ds: seq<Delta>, es: seq<Delta>)
    requires |ds| == |es|
    requires forall i :: 0 <= i < |ds| ==> ds[i].key == es[i].key
    ensures Accumulate(ds).keys == Accumulate(es).keys
    ensures Accumulate(ds).amount.Keys == Accumulate(es).amount.Keys
  {
    if ds != [] {
      KeysIgnoreAmounts(ds[..|ds| - 1], es[..|es| - 1]);
    }
  }

  /** Reversibility of the accumulator: negating every contribution gives
      the same keys in the same order with every amount negated. */
  lemma {:induction false} AccumulateNegate(ds: seq<Delta>)
    ensures Accumulate(Negate(ds)).keys == Accumulate(ds).keys
    ensures Accumulate(Negate(ds)).amount.Keys == Accumulate(ds).amount.Keys
    ensures forall k :: k in Accumulate(ds).amount ==>
      Accumulate(Negate(ds)).amount[k] == -Accumulate(ds).amount[k]
  {
    if ds != [] {
      var init := ds[..|ds| - 1];
      assert Negate(ds)[..|ds| - 1] == Negate(init);
      AccumulateNegate(init);
    }
  }

  lemma {:induction false} SumAppend(ds: seq<Delta>, es: seq<Delta>, k: string)
    ensures Sum(ds + es, k) == Sum(ds, k) + Sum(es, k)
    decreases |es|
  {
    if es == [] {
      assert ds + es == ds;
    } else {
      var init := es[..|es| - 1];
      assert ds + es == (ds + init) + [es[|es| - 1]];
      AccumulateSnoc(ds + init, es[|es| - 1]);
      SumAppend(ds, init, k);
    }
  }

  lemma SumOne(d: Delta, k: string)
    ensures Sum([d], k) == if d.key == k then d.value else 0
  {
    assert [d][..0] == [];
  }

  /** Taking contribution `j` out of the list takes its share out of the sum. */
  lemma SumRemoveAt(es: seq<Delta>, j: nat, k: string)
    requires j < |es|
    ensures Sum(es, k) == Sum(es[..j] + es[j + 1..], k) + Sum([es[j]], k)
  {
    assert es == es[..j] + [es[j]] + es[j + 1..];
    SumAppend(es[..j] + [es[j]], es[j + 1..], k);
    SumAppend(es[..j], [es[j]], k);
    SumAppend(es[..j], es[j + 1..], k);
  }

  lemma MultisetRemoveAt<T>(es: seq<T>, j: nat)
    requires j < |es|
    ensures multiset(es[..j] + es[j + 1..]) == multiset(es) - multiset{es[j]}
  {
    assert es == es[..j] + [es[j]] + es[j + 1..];
    assert multiset(es) == multiset(es[..j]) + multiset{es[j]} + multiset(es[j + 1..]);
  }

  /** Order independence: contributions that are a permutation of each
      other sum to the same total for every key. */
  lemma {:induction false} SumPermutation(ds: seq<Delta>, es: seq<Delta>, k: string)
    requires multiset(ds) == multiset(es)
    ensures Sum(ds, k) == Sum(es, k)
    decreases |ds|
  {
    if ds != [] {
      var d, init := ds[|ds| - 1], ds[..|ds| - 1];
      assert ds == init + [d];
      assert multiset(init) == multiset(ds) - multiset{d};
      assert d in multiset(es);
      var j :| 0 <= j < |es| && es[j] == d;
      MultisetRemoveAt(es, j);
      SumPermutation(init, es[..j] + es[j + 1..], k);
      SumRemoveAt(es, j, k);
      SumAppend(init, [d], k);
    }
  }

  /** Order independence of the accumulator: permuting the contributions
      leaves the final key-to-amount mapping unchanged (only the order in
      which keys are listed may differ). */
  lemma AccumulatePermutation(ds: seq<Delta>, es: seq<Delta>)
    requires multiset(ds) == multiset(es)
    ensures Accumulate(ds).amount == Accumulate(es).amount
  {
    AccumulateSums(ds);
    AccumulateSums(es);
    forall k ensures Touched(ds, k) <==> Touched(es, k) {
      if Touched(ds, k) {
        var i :| 0 <= i < |ds| && ds[i].key == k;
        assert ds[i] in multiset(es);
      }
      if Touched(es, k) {
        var i :| 0 <= i < |es| && es[i].key == k;
        assert es[i] in multiset(ds);
      }
    }
    forall k ensures Sum(ds, k) == Sum(es, k) {
      SumPermutation(ds, es, k);
    }
  }

  /** `Object.values(deltas)`: the amounts in key order. */
  function Values(l: Ledger): (vs: seq<int>)
    ensures |vs| == |l.keys|
  {
    seq(|l.keys|, i requires 0 <= i < |l.keys| => if l.keys[i] in l.amount then l.amount[l.keys[i]] else 0)
  }

  /** The ledger with every amount negated and the key order kept. */
  function Negated(l: Ledger): (n: Ledger)
    ensures n.keys == l.keys && n.amount.Keys == l.amount.Keys
  {
    Ledger(l.keys, map k | k in l.amount :: -l.amount[k])
  }

  lemma NegatedValues(l: Ledger)
    requires Valid(l)
    ensures Valid(Negated(l))
    ensures forall i :: 0 <= i < |l.keys| ==> Values(Negated(l))[i] == -Values(l)[i]
  {
  }

  /** A valid ledger has one amount per listed key. */
  lemma KeyCount(l: Ledger)
    requires Valid(l)
    ensures |l.amount| == |l.keys|
  {
    assert l.amount.Keys == set k | k in l.keys;
    DistinctKeyCount(l.keys);
  }

  lemma {:induction false} DistinctKeyCount(ks: seq<string>)
    requires forall i, j :: 0 <= i < j < |ks| ==> ks[i] != ks[j]
    ensures |set k | k in ks| == |ks|
  {
    if ks != [] {
      var n := |ks| - 1;
      assert (set k | k in ks) == (set k | k in ks[..n]) + {ks[n]};
      forall i | 0 <= i < n ensures ks[..n][i] != ks[n] {
      }
      DistinctKeyCount(ks[..n]);
    }
  }
}
