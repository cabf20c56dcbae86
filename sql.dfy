/** The SQL statements the relational reducers emit, as structured values
    (target table, address list, balance list) rather than text, and the
    effect each statement has on an `(address, balance)` table. */
module Sql {
  import opened Ledger

  datatype Statement =
    /** `INSERT INTO t (address, balance) SELECT unnest(ARRAY[..]), unnest(ARRAY[..])
        ON CONFLICT (address) DO UPDATE SET balance = t.balance + EXCLUDED.balance` */
    | UpsertAll(table: string, addresses: seq<string>, balances: seq<int>)
    /** `DELETE FROM t WHERE address IN (..) AND balance = 0` */
    | DeleteZero(table: string, addresses: seq<string>)
    /** `INSERT INTO t (address, balance) VALUES (.., ..) ON CONFLICT (address)
        DO UPDATE SET balance = t.balance + EXCLUDED.balance` */
    | UpsertOne(table: string, address: string, balance: int)

  datatype Command = ExecuteSQL(sql: Statement)

  /** The rows of one table: address to balance. */
  type Rows = map<string, int>

  function Get(rows: Rows, k: string): int {
    if k in rows then rows[k] else 0
  }

  /** Insert a row, or add to the balance of the existing one. */
  function Add(rows: Rows, k: string, v: int): Rows {
    rows[k := Get(rows, k) + v]
  }

  function AddAll(rows: Rows, ks: seq<string>, vs: seq<int>): Rows
    requires |ks| == |vs|
  {
    if ks == [] then rows
    else Add(AddAll(rows, ks[..|ks| - 1], vs[..|vs| - 1]), ks[|ks| - 1], vs[|vs| - 1])
  }

  function RemoveZero(rows: Rows, ks: seq<string>): Rows {
    map k | k in rows && !(k in ks && rows[k] == 0) :: rows[k]
  }

  /** The effect of one statement on the rows of its table. An upsert whose
      address list and balance list differ in length leaves the rows as they
      are (PostgreSQL's `unnest` would pad with NULL; the reducers never
      emit one). */
  function Execute(rows: Rows, s: Statement): Rows {
    match s
    case UpsertAll(_, ks, vs) => if |ks| == |vs| then AddAll(rows, ks, vs) else rows
    case DeleteZero(_, ks) => RemoveZero(rows, ks)
    case UpsertOne(_, k, v) => Add(rows, k, v)
  }

  function ExecuteAll(rows: Rows, cs: seq<Command>): Rows
    decreases |cs|
  {
    if cs == [] then rows else ExecuteAll(Execute(rows, cs[0].sql), cs[1..])
  }

  predicate Distinct(ks: seq<string>) {
    forall i, j :: 0 <= i < j < |ks| ==> ks[i] != ks[j]
  }

  /** Adding distinct addresses adds each balance to its own row once and
      leaves every other row alone. */
  lemma {:induction false} AddAllEffect(rows: Rows, ks: seq<string>, vs: seq<int>)
    requires |ks| == |vs| && Distinct(ks)
    ensures forall i :: 0 <= i < |ks| ==>
      ks[i] in AddAll(rows, ks, vs) && AddAll(rows, ks, vs)[ks[i]] == Get(rows, ks[i]) + vs[i]
    ensures forall k :: k !in ks ==> Get(AddAll(rows, ks, vs), k) == Get(rows, k)
    ensures forall k :: k !in ks ==> (k in AddAll(rows, ks, vs) <==> k in rows)
  {
    if ks != [] {
      var n := |ks| - 1;
      var ks', vs' := ks[..n], vs[..n];
      assert forall i :: 0 <= i < n ==> ks'[i] == ks[i] && vs'[i] == vs[i];
      assert Distinct(ks');
      AddAllEffect(rows, ks', vs');
      var before, after := AddAll(rows, ks', vs'), AddAll(rows, ks, vs);
      assert after == Add(before, ks[n], vs[n]);
      assert ks[n] !in ks';
      forall i | 0 <= i < |ks| ensures ks[i] in after && after[ks[i]] == Get(rows, ks[i]) + vs[i] {
        if i < n {
          assert ks[i] != ks[n];
        }
      }
      forall k | k !in ks ensures Get(after, k) == Get(rows, k) && (k in after <==> k in rows) {
        assert k !in ks' && k != ks[n];
      }
    }
  }

  /** No row holds a zero balance. */
  predicate NoZeroRows(rows: Rows) {
    forall k :: k in rows ==> rows[k] != 0
  }

  /** The intended effect of a block's deltas on a balance table: every
      touched address gains its delta, touched addresses that reach zero
      disappear, and untouched rows stay as they are. */
  function Settle(rows: Rows, deltas: map<string, int>): Rows {
    map k | k in rows.Keys + deltas.Keys && (k in deltas ==> Get(rows, k) + deltas[k] != 0)
      :: Get(rows, k) + Get(deltas, k)
  }

  lemma ExecuteTwo(rows: Rows, c: Command, d: Command)
    ensures ExecuteAll(rows, [c, d]) == Execute(Execute(rows, c.sql), d.sql)
  {
    assert [c, d][1..] == [d];
    assert [d][1..] == [];
    var once := Execute(rows, c.sql);
    assert ExecuteAll(rows, [c, d]) == ExecuteAll(once, [d]);
    assert ExecuteAll(once, [d]) == ExecuteAll(Execute(once, d.sql), []);
  }

  /** The bulk upsert followed by the guarded delete over the same addresses
      has exactly the effect `Settle` describes. */
  lemma UpsertThenDelete(rows: Rows, table: string, l: Ledger)
    requires Valid(l)
    ensures ExecuteAll(rows, [ExecuteSQL(UpsertAll(table, l.keys, Values(l))),
                              ExecuteSQL(DeleteZero(table, l.keys))]) == Settle(rows, l.amount)
  {
    ExecuteTwo(rows, ExecuteSQL(UpsertAll(table, l.keys, Values(l))), ExecuteSQL(DeleteZero(table, l.keys)));
    AddedThenRemoved(rows, l);
  }

  lemma AddedThenRemoved(rows: Rows, l: Ledger)
    requires Valid(l)
    ensures RemoveZero(AddAll(rows, l.keys, Values(l)), l.keys) == Settle(rows, l.amount)
  {
    AddAllShift(rows, l);
    var shifted := Shift(rows, l.amount);
    assert forall k :: k in l.keys <==> k in l.amount;
    assert RemoveZero(shifted, l.keys) == Settle(rows, l.amount);
  }

  /** Settling never leaves a zero row behind in a table that had none. */
  lemma SettleKeepsNoZeroRows(rows: Rows, deltas: map<string, int>)
    requires NoZeroRows(rows)
    ensures NoZeroRows(Settle(rows, deltas))
  {
  }

  /** Settling a block and then its negation gives the table back, provided
      none of the touched rows held zero to begin with. */
  lemma SettleRoundTrip(rows: Rows, l: Ledger)
    requires forall k :: k in rows && k in l.amount ==> rows[k] != 0
    ensures Settle(Settle(rows, l.amount), Negated(l).amount) == rows
  {
    var once := Settle(rows, l.amount);
    var twice := Settle(once, Negated(l).amount);
    forall k | k in l.amount ensures Get(twice, k) == Get(rows, k) {
    }
    assert twice == rows;
  }

  // ------------------------------------------------ one upsert per address

  /** One single-row upsert per address, in order. */
  function Upserts(table: string, ks: seq<string>, vs: seq<int>): (cs: seq<Command>)
    requires |ks| == |vs|
    ensures |cs| == |ks|
  {
    seq(|ks|, i requires 0 <= i < |ks| => ExecuteSQL(UpsertOne(table, ks[i], vs[i])))
  }

  lemma {:induction false} ExecuteAllSnoc(rows: Rows, cs: seq<Command>, c: Command)
    ensures ExecuteAll(rows, cs + [c]) == Execute(ExecuteAll(rows, cs), c.sql)
    decreases |cs|
  {
    if cs == [] {
      assert [c][1..] == [];
    } else {
      assert (cs + [c])[1..] == cs[1..] + [c];
      ExecuteAllSnoc(Execute(rows, cs[0].sql), cs[1..], c);
    }
  }

  /** Running the single-row upserts one after another adds the same
      balances as the bulk upsert. */
  lemma {:induction false} UpsertsAddAll(rows: Rows, table: string, ks: seq<string>, vs: seq<int>)
    requires |ks| == |vs|
    ensures ExecuteAll(rows, Upserts(table, ks, vs)) == AddAll(rows, ks, vs)
  {
    if ks != [] {
      var n := |ks| - 1;
      assert Upserts(table, ks, vs) == Upserts(table, ks[..n], vs[..n]) + [ExecuteSQL(UpsertOne(table, ks[n], vs[n]))];
      ExecuteAllSnoc(rows, Upserts(table, ks[..n], vs[..n]), ExecuteSQL(UpsertOne(table, ks[n], vs[n])));
      UpsertsAddAll(rows, table, ks[..n], vs[..n]);
    }
  }

  /** Every touched address gains its delta; rows are only ever added or
      updated, never removed, so an address may be left at zero. */
  function Shift(rows: Rows, deltas: map<string, int>): Rows {
    map k | k in rows.Keys + deltas.Keys :: Get(rows, k) + Get(deltas, k)
  }

  /** One row of `AddAllShift`. */
  lemma AddAllAt(rows: Rows, l: Ledger, k: string)
    requires Valid(l)
    ensures k in AddAll(rows, l.keys, Values(l)) <==> k in rows || k in l.amount
    ensures Get(AddAll(rows, l.keys, Values(l)), k) == Get(rows, k) + Get(l.amount, k)
  {
    assert Distinct(l.keys);
    AddAllEffect(rows, l.keys, Values(l));
    if k in l.amount {
      var i :| 0 <= i < |l.keys| && l.keys[i] == k;
    }
  }

  lemma AddAllShift(rows: Rows, l: Ledger)
    requires Valid(l)
    ensures AddAll(rows, l.keys, Values(l)) == Shift(rows, l.amount)
  {
    var added, shifted := AddAll(rows, l.keys, Values(l)), Shift(rows, l.amount);
    forall k ensures (k in added <==> k in shifted) && Get(added, k) == Get(shifted, k) {
      AddAllAt(rows, l, k);
    }
    assert added.Keys == shifted.Keys;
    assert forall k | k in added :: added[k] == Get(added, k) == Get(shifted, k) == shifted[k];
  }

  /** Shifting by a block's deltas and then by their negation restores every
      balance, but touched addresses that had no row keep one at zero. */
  lemma ShiftRoundTrip(rows: Rows, l: Ledger)
    ensures Shift(Shift(rows, l.amount), Negated(l).amount).Keys == rows.Keys + l.amount.Keys
    ensures forall k :: Get(Shift(Shift(rows, l.amount), Negated(l).amount), k) == Get(rows, k)
    ensures forall k :: k in l.amount && k !in rows ==> Shift(Shift(rows, l.amount), Negated(l).amount)[k] == 0
  {
  }
}
