/** The pipeline framework's pure part: the chain events a source stage emits
    and the mapping of their records, the CRDT command set the reducers send
    to storage with its prefixed constructors and its JSON decoding, the
    intersection points of the configuration and the finalize rule. */
module Framework {
  import opened Wrappers
  import opened Chain
  import opened Encoding

  // ------------------------------------------------------------ JSON values

  /** The integers a `serde_json::Number` can hold: an `i64` or a `u64`. */
  type JsonInt = x: int | I64_MIN <= x < 0x1_0000_0000_0000_0000

  /** A JSON number: an integer, or a float (whose value nothing here reads). */
  datatype JsonNumber = IntNumber(i: JsonInt) | FloatNumber

  datatype JsonValue =
    | JNull
    | JBool(b: bool)
    | JNumber(n: JsonNumber)
    | JString(s: string)
    | JArray(items: seq<JsonValue>)
    | JObject(fields: map<string, JsonValue>)

  type JsonMap = map<string, JsonValue>

  // ---------------------------------------------------------- chain events

  datatype Record =
    | CborBlock(bytes: seq<byte>)
    | CborTx(bytes: seq<byte>)
    | GenericJson(json: JsonValue)
    | ParsedTx(tx: Tx)
    | ParsedBlock(block: Block)

  /** Every event carries its point; only `Apply` and `Undo` carry a record. */
  datatype ChainEvent =
    | Apply(point: Point, record: Record)
    | Undo(point: Point, record: Record)
    | Reset(point: Point)

  /** Both events carry the same kind of tag (`Apply`, `Undo` or `Reset`). */
  predicate SameTag(e: ChainEvent, f: ChainEvent) {
    (e.Apply? <==> f.Apply?) && (e.Undo? <==> f.Undo?) && (e.Reset? <==> f.Reset?)
  }

  /** `ChainEvent::point`. */
  function PointOf(e: ChainEvent): (p: Point)
    ensures p == e.point
  {
    match e
    case Apply(x, _) => x
    case Undo(x, _) => x
    case Reset(x) => x
  }

  /** `ChainEvent::record`: absent exactly for `Reset`. */
  function RecordOf(e: ChainEvent): (r: Option<Record>)
    ensures r.None? <==> e.Reset?
    ensures r.Some? ==> r.value == e.record
  {
    match e
    case Apply(_, x) => Some(x)
    case Undo(_, x) => Some(x)
    case _ => None
  }

  /** `ChainEvent::map_record`: the tag and the point are kept, the record is
      replaced by its image, and a `Reset` is left as it is. */
  function MapRecord(e: ChainEvent, f: Record -> Record): (r: ChainEvent)
    ensures SameTag(r, e) && PointOf(r) == PointOf(e)
    ensures e.Reset? ==> r == e
    ensures !e.Reset? ==> RecordOf(r) == Some(f(e.record))
  {
    match e
    case Apply(p, x) => Apply(p, f(x))
    case Undo(p, x) => Undo(p, f(x))
    case Reset(x) => Reset(x)
  }

  /** Mapping with the identity changes nothing. */
  lemma MapRecordIdentity(e: ChainEvent)
    ensures MapRecord(e, x => x) == e
  {
  }

  /** Mapping twice is mapping once with the composition. */
  lemma MapRecordCompose(e: ChainEvent, f: Record -> Record, g: Record -> Record)
    ensures MapRecord(MapRecord(e, f), g) == MapRecord(e, x => g(f(x)))
  {
  }

  /** `ChainEvent::try_map_record`: the first error of `f` propagates; on
      success the tag and the point are kept; a `Reset` is returned unchanged
      without calling `f`. */
  function TryMapRecord<E>(e: ChainEvent, f: Record -> Result<Record, E>): (r: Result<ChainEvent, E>)
    ensures e.Reset? ==> r == Ok(e)
    ensures r.Err? <==> !e.Reset? && f(e.record).Err?
    ensures r.Err? ==> r.error == f(e.record).error
    ensures r.Ok? ==> SameTag(r.value, e) && PointOf(r.value) == PointOf(e)
    ensures r.Ok? && !e.Reset? ==> RecordOf(r.value) == Some(f(e.record).value)
  {
    match e
    case Apply(p, x) =>
      var y :- f(x);
      Ok(Apply(p, y))
    case Undo(p, x) =>
      var y :- f(x);
      Ok(Undo(p, y))
    case Reset(x) => Ok(Reset(x))
  }

  /** A record mapping that never fails, as a fallible one. */
  function Total<E>(f: Record -> Record): Record -> Result<Record, E> {
    (x: Record) => Ok(f(x))
  }

  /** A mapping that never fails is `map_record`. */
  lemma TryMapRecordTotal<E>(e: ChainEvent, f: Record -> Record)
    ensures TryMapRecord(e, Total<E>(f)) == Ok(MapRecord(e, f))
  {
  }

  /** The event `e` with its record replaced by `x` (`Apply(p, x)` or
      `Undo(p, x)`); `e` is not a `Reset`. */
  function Retag(e: ChainEvent, x: Record): (r: ChainEvent)
    requires !e.Reset?
    ensures SameTag(r, e) && r.point == e.point && r.record == x
  {
    if e.Apply? then Apply(e.point, x) else Undo(e.point, x)
  }

  /** `ChainEvent::try_map_record_to_many`: every record `f` produces becomes
      an event with the original tag and point, in the order produced; the
      error of `f` propagates; a `Reset` becomes the one-element list of
      itself. */
  function TryMapRecordToMany<E>(e: ChainEvent, f: Record -> Result<seq<Record>, E>): (r: Result<seq<ChainEvent>, E>)
    ensures e.Reset? ==> r == Ok([e])
    ensures r.Err? <==> !e.Reset? && f(e.record).Err?
    ensures r.Err? ==> r.error == f(e.record).error
    ensures r.Ok? && !e.Reset? ==>
              |r.value| == |f(e.record).value| &&
              forall i :: 0 <= i < |r.value| ==>
                SameTag(r.value[i], e) && PointOf(r.value[i]) == PointOf(e) &&
                RecordOf(r.value[i]) == Some(f(e.record).value[i])
  {
    if e.Reset? then Ok([e])
    else
      var xs :- f(e.record);
      Ok(seq(|xs|, i requires 0 <= i < |xs| => Retag(e, xs[i])))
  }

  /** A record mapping that makes exactly one record, as a many-valued one. */
  function AsMany<E>(f: Record -> Result<Record, E>): Record -> Result<seq<Record>, E> {
    (x: Record) =>
      match f(x)
      case Ok(y) => Ok([y])
      case Err(err) => Err(err)
  }

  /** With a mapping that makes one record per record, the many-valued map
      is the single-valued one in a one-element list. */
  lemma TryMapRecordToManySingle<E>(e: ChainEvent, f: Record -> Result<Record, E>)
    ensures TryMapRecordToMany(e, AsMany(f)) ==
            match TryMapRecord(e, f)
            case Ok(ev) => Ok([ev])
            case Err(err) => Err(err)
  {
    if !e.Reset? && f(e.record).Ok? {
      var r := TryMapRecordToMany(e, AsMany(f));
      assert |r.value| == 1;
      assert r.value == [r.value[0]];
    }
  }

  // ---------------------------------------------------------- CRDT commands

  /** `Delta`: a signed 64-bit counter increment. */
  type Delta = x: int | I64_MIN <= x <= I64_MAX

  datatype Value =
    | String(text: string)
    | BigInt(n: int)
    | Cbor(cbor: seq<byte>)
    | Json(json: JsonValue)

  datatype CRDTCommand =
    | BlockStarting(point: Point)
    | SetAdd(setName: string, member: string)
    | SetRemove(setName: string, member: string)
    | SortedSetAdd(setName: string, member: string, delta: Delta)
    | SortedSetRemove(setName: string, member: string, delta: Delta)
    | TwoPhaseSetAdd(setName: string, member: string)
    | TwoPhaseSetRemove(setName: string, member: string)
    | GrowOnlySetAdd(setName: string, member: string)
    | LastWriteWins(key: string, value: Value, ts: u64)
    | AnyWriteWins(key: string, value: Value)
    | PNCounter(key: string, delta: Delta)
    | HashCounter(key: string, member: string, delta: Delta)
    | HashSetValue(key: string, member: string, value: Value)
    | HashUnsetKey(key: string, member: string)
    | BlockFinished(point: Point)

  datatype RDBMSCommand =
    | SqlBlockStarting(point: Point)
    | ExecuteSQL(sql: string)
    | SqlBlockFinished(point: Point)

  /** What a reducer sends to the storage stage. */
  datatype StorageEvent = CRDT(crdt: CRDTCommand) | RDBMS(rdbms: RDBMSCommand)

  /** The storage key a command writes (its set or its key); none for the
      block framing commands. */
  function KeyOf(c: CRDTCommand): Option<string> {
    match c
    case BlockStarting(_) => None
    case BlockFinished(_) => None
    case SetAdd(s, _) => Some(s)
    case SetRemove(s, _) => Some(s)
    case SortedSetAdd(s, _, _) => Some(s)
    case SortedSetRemove(s, _, _) => Some(s)
    case TwoPhaseSetAdd(s, _) => Some(s)
    case TwoPhaseSetRemove(s, _) => Some(s)
    case GrowOnlySetAdd(s, _) => Some(s)
    case LastWriteWins(k, _, _) => Some(k)
    case AnyWriteWins(k, _) => Some(k)
    case PNCounter(k, _) => Some(k)
    case HashCounter(k, _, _) => Some(k)
    case HashSetValue(k, _, _) => Some(k)
    case HashUnsetKey(k, _) => Some(k)
  }

  /** The key of a prefixed constructor: `"<prefix>.<key>"`, or the key alone
      without a prefix. The prefix, the dot and the key can be read back. */
  function PrefixedKey(prefix: Option<string>, key: string): (k: string)
    ensures prefix.None? ==> k == key
    ensures prefix.Some? ==>
              |k| == |prefix.value| + 1 + |key| &&
              k[..|prefix.value|] == prefix.value && k[|prefix.value|] == '.' &&
              k[|prefix.value| + 1..] == key
  {
    match prefix
    case Some(p) => p + "." + key
    case None => key
  }

  /** Under one prefix, distinct keys stay distinct. */
  lemma PrefixedKeyInjective(prefix: Option<string>, k1: string, k2: string)
    ensures PrefixedKey(prefix, k1) == PrefixedKey(prefix, k2) ==> k1 == k2
  {
    if prefix.Some? && PrefixedKey(prefix, k1) == PrefixedKey(prefix, k2) {
      var n := |prefix.value| + 1;
      assert k1 == PrefixedKey(prefix, k1)[n..];
      assert k2 == PrefixedKey(prefix, k2)[n..];
    }
  }

  /** `CRDTCommand::set_add`. */
  function PrefixedSetAdd(prefix: Option<string>, key: string, member: string): (c: CRDTCommand)
    ensures c.SetAdd? && KeyOf(c) == Some(PrefixedKey(prefix, key)) && c.member == member
  {
    SetAdd(PrefixedKey(prefix, key), member)
  }

  /** `CRDTCommand::set_remove`. */
  function PrefixedSetRemove(prefix: Option<string>, key: string, member: string): (c: CRDTCommand)
    ensures c.SetRemove? && KeyOf(c) == Some(PrefixedKey(prefix, key)) && c.member == member
  {
    SetRemove(PrefixedKey(prefix, key), member)
  }

  /** `CRDTCommand::sorted_set_add`. */
  function PrefixedSortedSetAdd(prefix: Option<string>, key: string, member: string, delta: Delta): (c: CRDTCommand)
    ensures c.SortedSetAdd? && KeyOf(c) == Some(PrefixedKey(prefix, key))
    ensures c.member == member && c.delta == delta
  {
    SortedSetAdd(PrefixedKey(prefix, key), member, delta)
  }

  /** `CRDTCommand::sorted_set_remove`. */
  function PrefixedSortedSetRemove(prefix: Option<string>, key: string, member: string, delta: Delta): (c: CRDTCommand)
    ensures c.SortedSetRemove? && KeyOf(c) == Some(PrefixedKey(prefix, key))
    ensures c.member == member && c.delta == delta
  {
    SortedSetRemove(PrefixedKey(prefix, key), member, delta)
  }

  /** `CRDTCommand::any_write_wins`, with the key already rendered by
      `to_string`. */
  function PrefixedAnyWriteWins(prefix: Option<string>, key: string, value: Value): (c: CRDTCommand)
    ensures c.AnyWriteWins? && KeyOf(c) == Some(PrefixedKey(prefix, key)) && c.value == value
  {
    AnyWriteWins(PrefixedKey(prefix, key), value)
  }

  /** `CRDTCommand::last_write_wins`. */
  function PrefixedLastWriteWins(prefix: Option<string>, key: string, value: Value, ts: u64): (c: CRDTCommand)
    ensures c.LastWriteWins? && KeyOf(c) == Some(PrefixedKey(prefix, key))
    ensures c.value == value && c.ts == ts
  {
    LastWriteWins(PrefixedKey(prefix, key), value, ts)
  }

  /** `CRDTCommand::hash_set_value`. */
  function PrefixedHashSetValue(prefix: Option<string>, key: string, member: string, value: Value): (c: CRDTCommand)
    ensures c.HashSetValue? && KeyOf(c) == Some(PrefixedKey(prefix, key))
    ensures c.member == member && c.value == value
  {
    HashSetValue(PrefixedKey(prefix, key), member, value)
  }

  /** `CRDTCommand::hash_del_key`, which builds a `HashUnsetKey`. */
  function PrefixedHashDelKey(prefix: Option<string>, key: string, member: string): (c: CRDTCommand)
    ensures c.HashUnsetKey? && KeyOf(c) == Some(PrefixedKey(prefix, key)) && c.member == member
  {
    HashUnsetKey(PrefixedKey(prefix, key), member)
  }

  /** `CRDTCommand::hash_counter`. */
  function PrefixedHashCounter(prefix: Option<string>, key: string, member: string, delta: Delta): (c: CRDTCommand)
    ensures c.HashCounter? && KeyOf(c) == Some(PrefixedKey(prefix, key))
    ensures c.member == member && c.delta == delta
  {
    HashCounter(PrefixedKey(prefix, key), member, delta)
  }

  /** The point of a block: its header's slot and hash; `None` stands for the
      panic of unwrapping an absent header. */
  function HeaderPoint(block: Block): (p: Option<Point>)
    ensures p.None? <==> block.header.None?
    ensures p.Some? ==> p.value.Specific? && p.value.slot == block.header.value.slot &&
                        p.value.hash == block.header.value.hash
  {
    match block.header
    case Some(h) => Some(Specific(h.slot, h.hash))
    case None => None
  }

  /** `CRDTCommand::block_starting`; `None` is the panic on a missing header. */
  function BlockStartingOf(block: Block): (c: Option<CRDTCommand>)
    ensures c.None? <==> block.header.None?
    ensures c.Some? ==> c.value.BlockStarting? && Some(c.value.point) == HeaderPoint(block)
  {
    match HeaderPoint(block)
    case Some(p) => Some(BlockStarting(p))
    case None => None
  }

  /** `CRDTCommand::block_finished`; `None` is the panic on a missing header. */
  function BlockFinishedOf(block: Block): (c: Option<CRDTCommand>)
    ensures c.None? <==> block.header.None?
    ensures c.Some? ==> c.value.BlockFinished? && Some(c.value.point) == HeaderPoint(block)
  {
    match HeaderPoint(block)
    case Some(p) => Some(BlockFinished(p))
    case None => None
  }

  // ---------------------------------------------------- decoding from JSON

  /** `extract_string`. */
  function ExtractString(obj: JsonMap, key: string): (r: Result<string, string>)
    ensures r.Ok? <==> key in obj && obj[key].JString?
    ensures r.Ok? ==> r.value == obj[key].s
    ensures r.Err? ==> r.error == "Expected a string for key " + key
  {
    if key in obj && obj[key].JString? then Ok(obj[key].s)
    else Err("Expected a string for key " + key)
  }

  /** `Number::is_i64`. */
  predicate IsI64(v: JsonValue) {
    v.JNumber? && v.n.IntNumber? && v.n.i <= I64_MAX
  }

  /** `extract_delta`: an integer number that fits in an i64, or a string
      that `i64::from_str` accepts; anything else (a float, an integer above
      `i64::MAX`, an out-of-range or malformed string, a missing field) is an
      error. A number that passes `is_i64` always converts, so the source's
      "Expected an integer delta" error cannot arise. */
  function ExtractDelta(obj: JsonMap, key: string): (r: Result<Delta, string>)
    ensures r.Ok? <==> key in obj && (IsI64(obj[key]) || (obj[key].JString? && I64FromStr(obj[key].s).Some?))
    ensures r.Ok? && obj[key].JNumber? ==> r.value == obj[key].n.i
    ensures r.Ok? && obj[key].JString? ==> Some(r.value as int) == ParseDecimal(obj[key].s)
    ensures r.Err? && key in obj && obj[key].JString? ==>
              r.error == "Failed to parse stringified integer for key " + key
    ensures r.Err? && !(key in obj && obj[key].JString?) ==>
              r.error == "Expected an integer or stringified integer delta for key " + key
  {
    if key in obj && IsI64(obj[key]) then Ok(obj[key].n.i)
    else if key in obj && obj[key].JString? then
      match I64FromStr(obj[key].s)
      case Some(d) => Ok(d as Delta)
      case None => Err("Failed to parse stringified integer for key " + key)
    else Err("Expected an integer or stringified integer delta for key " + key)
  }

  /** `extract_timestamp`: a non-negative integer number (`as_u64`). */
  function ExtractTimestamp(obj: JsonMap, key: string): (r: Result<u64, string>)
    ensures r.Ok? <==> key in obj && obj[key].JNumber? && obj[key].n.IntNumber? && obj[key].n.i >= 0
    ensures r.Ok? ==> r.value == obj[key].n.i
    ensures r.Err? ==> r.error == "Expected a timestamp for key " + key
  {
    if key in obj && obj[key].JNumber? && obj[key].n.IntNumber? && obj[key].n.i >= 0 then
      Ok(obj[key].n.i)
    else Err("Expected a timestamp for key " + key)
  }

  /** `extract_value`: any JSON value present under the key, kept as JSON. */
  function ExtractValue(obj: JsonMap, key: string): (r: Result<Value, string>)
    ensures r.Ok? <==> key in obj
    ensures r.Ok? ==> r.value == Json(obj[key])
    ensures r.Err? ==> r.error == "Expected a value for key " + key
  {
    if key in obj then Ok(Json(obj[key])) else Err("Expected a value for key " + key)
  }

  /** The text of the `command` field, when it is a string. */
  function CommandField(obj: JsonMap): Option<string> {
    if "command" in obj && obj["command"].JString? then Some(obj["command"].s) else None
  }

  /** The command names `from_json` understands. */
  const Decodable: set<string> := {
    "SetAdd", "SetRemove", "SortedSetAdd", "SortedSetRemove", "AnyWriteWins",
    "LastWriteWins", "PNCounter", "HashCounter", "HashSetValue", "HashUnsetKey"
  }

  /** The name a command goes by in its `command` field. */
  function Name(c: CRDTCommand): string {
    match c
    case BlockStarting(_) => "BlockStarting"
    case SetAdd(_, _) => "SetAdd"
    case SetRemove(_, _) => "SetRemove"
    case SortedSetAdd(_, _, _) => "SortedSetAdd"
    case SortedSetRemove(_, _, _) => "SortedSetRemove"
    case TwoPhaseSetAdd(_, _) => "TwoPhaseSetAdd"
    case TwoPhaseSetRemove(_, _) => "TwoPhaseSetRemove"
    case GrowOnlySetAdd(_, _) => "GrowOnlySetAdd"
    case LastWriteWins(_, _, _) => "LastWriteWins"
    case AnyWriteWins(_, _) => "AnyWriteWins"
    case PNCounter(_, _) => "PNCounter"
    case HashCounter(_, _, _) => "HashCounter"
    case HashSetValue(_, _, _) => "HashSetValue"
    case HashUnsetKey(_, _) => "HashUnsetKey"
    case BlockFinished(_) => "BlockFinished"
  }

  /** `CRDTCommand::from_json`. A non-object and an unknown or missing
      `command` are errors; otherwise the fields are read in the source's
      order and the first failing one gives the error; a successful decoding
      yields the command the `command` field names. */
  function FromJson(value: JsonValue): (r: Result<CRDTCommand, string>)
    ensures !value.JObject? ==> r == Err("Expected a JSON object")
    ensures value.JObject? && !(CommandField(value.fields).Some? && CommandField(value.fields).value in Decodable) ==>
              r == Err("Unknown CRDTCommand")
    ensures r.Ok? ==> value.JObject? && CommandField(value.fields) == Some(Name(r.value))
  {
    if !value.JObject? then Err("Expected a JSON object")
    else
      var obj := value.fields;
      var name := CommandField(obj);
      if name == Some("SetAdd") then
        var setName :- ExtractString(obj, "set");
        var member :- ExtractString(obj, "member");
        Ok(SetAdd(setName, member))
      else if name == Some("SetRemove") then
        var setName :- ExtractString(obj, "set");
        var member :- ExtractString(obj, "member");
        Ok(SetRemove(setName, member))
      else if name == Some("SortedSetAdd") then
        var setName :- ExtractString(obj, "set");
        var member :- ExtractString(obj, "member");
        var delta :- ExtractDelta(obj, "delta");
        Ok(SortedSetAdd(setName, member, delta))
      else if name == Some("SortedSetRemove") then
        var setName :- ExtractString(obj, "set");
        var member :- ExtractString(obj, "member");
        var delta :- ExtractDelta(obj, "delta");
        Ok(SortedSetRemove(setName, member, delta))
      else if name == Some("AnyWriteWins") then
        var key :- ExtractString(obj, "key");
        var v :- ExtractValue(obj, "value");
        Ok(AnyWriteWins(key, v))
      else if name == Some("LastWriteWins") then
        var key :- ExtractString(obj, "key");
        var v :- ExtractValue(obj, "value");
        var ts :- ExtractTimestamp(obj, "timestamp");
        Ok(LastWriteWins(key, v, ts))
      else if name == Some("PNCounter") then
        var key :- ExtractString(obj, "key");
        var delta :- ExtractDelta(obj, "value");
        Ok(PNCounter(key, delta))
      else if name == Some("HashCounter") then
        var key :- ExtractString(obj, "key");
        var member :- ExtractString(obj, "member");
        var delta :- ExtractDelta(obj, "delta");
        Ok(HashCounter(key, member, delta))
      else if name == Some("HashSetValue") then
        var key :- ExtractString(obj, "key");
        var member :- ExtractString(obj, "member");
        var v :- ExtractValue(obj, "value");
        Ok(HashSetValue(key, member, v))
      else if name == Some("HashUnsetKey") then
        var key :- ExtractString(obj, "key");
        var member :- ExtractString(obj, "member");
        Ok(HashUnsetKey(key, member))
      else Err("Unknown CRDTCommand")
  }

  /** A `PNCounter` object: the key is read from "key" and the delta from
      "value"; the key's error comes first. */
  lemma FromJsonCounter(obj: JsonMap)
    requires CommandField(obj) == Some("PNCounter")
    ensures FromJson(JObject(obj)).Ok? <==> ExtractString(obj, "key").Ok? && ExtractDelta(obj, "value").Ok?
    ensures FromJson(JObject(obj)).Ok? ==>
              FromJson(JObject(obj)).value == PNCounter(ExtractString(obj, "key").value, ExtractDelta(obj, "value").value)
    ensures ExtractString(obj, "key").Err? ==> FromJson(JObject(obj)) == Err("Expected a string for key key")
    ensures ExtractString(obj, "key").Ok? && ExtractDelta(obj, "value").Err? ==>
              FromJson(JObject(obj)) == Err(ExtractDelta(obj, "value").error)
  {
    assert "Expected a string for key " + "key" == "Expected a string for key key";
  }

  /** A counter whose delta comes as the decimal text of an integer decodes
      exactly when the integer fits in an i64, and then to that integer. */
  lemma StringifiedCounter(key: string, n: int)
    ensures FromJson(JObject(map["command" := JString("PNCounter"), "key" := JString(key),
                                 "value" := JString(DecimalString(n))])) ==
            if InI64(n) then Ok(PNCounter(key, n))
            else Err("Failed to parse stringified integer for key value")
  {
    I64DecimalRoundTrip(n);
    var obj := map["command" := JString("PNCounter"), "key" := JString(key), "value" := JString(DecimalString(n))];
    assert CommandField(obj) == Some("PNCounter");
    assert obj["key"] == JString(key) && obj["value"] == JString(DecimalString(n));
    assert "Failed to parse stringified integer for key " + "value" == "Failed to parse stringified integer for key value";
    FromJsonCounter(obj);
  }

  /** The JSON rendering of a delta: an integer number. */
  function DeltaJson(d: Delta): JsonValue {
    JNumber(IntNumber(d))
  }

  /** The commands whose JSON form `from_json` reads back: a decodable name,
      and any value kept as JSON (as `extract_value` keeps it). */
  predicate Encodable(c: CRDTCommand) {
    Name(c) in Decodable && (c.LastWriteWins? || c.AnyWriteWins? || c.HashSetValue? ==> c.value.Json?)
  }

  /** The JSON object a storage client would send for a command: its name in
      "command" and each field under the key `from_json` reads it from.
      Only the commands `from_json` reads back are rendered. */
  function ToJson(c: CRDTCommand): (j: JsonValue)
    requires Encodable(c)
    ensures j.JObject? && CommandField(j.fields) == Some(Name(c))
  {
    var head := map["command" := JString(Name(c))];
    match c
    case SetAdd(s, m) => JObject(head["set" := JString(s)]["member" := JString(m)])
    case SetRemove(s, m) => JObject(head["set" := JString(s)]["member" := JString(m)])
    case SortedSetAdd(s, m, d) => JObject(head["set" := JString(s)]["member" := JString(m)]["delta" := DeltaJson(d)])
    case SortedSetRemove(s, m, d) => JObject(head["set" := JString(s)]["member" := JString(m)]["delta" := DeltaJson(d)])
    case AnyWriteWins(k, v) => JObject(head["key" := JString(k)]["value" := v.json])
    case LastWriteWins(k, v, ts) => JObject(head["key" := JString(k)]["value" := v.json]["timestamp" := JNumber(IntNumber(ts))])
    case PNCounter(k, d) => JObject(head["key" := JString(k)]["value" := DeltaJson(d)])
    case HashCounter(k, m, d) => JObject(head["key" := JString(k)]["member" := JString(m)]["delta" := DeltaJson(d)])
    case HashSetValue(k, m, v) => JObject(head["key" := JString(k)]["member" := JString(m)]["value" := v.json])
    case HashUnsetKey(k, m) => JObject(head["key" := JString(k)]["member" := JString(m)])
  }

  /** `from_json` reads back every command it understands. */
  lemma FromJsonRoundTrip(c: CRDTCommand)
    requires Encodable(c)
    ensures FromJson(ToJson(c)) == Ok(c)
  {
    if c.SetAdd? || c.SetRemove? || c.SortedSetAdd? || c.SortedSetRemove? {
      SetRoundTrip(c);
    } else if c.AnyWriteWins? || c.LastWriteWins? || c.HashSetValue? {
      WriteRoundTrip(c);
    } else {
      CounterRoundTrip(c);
    }
  }

  lemma SetRoundTrip(c: CRDTCommand)
    requires c.SetAdd? || c.SetRemove? || c.SortedSetAdd? || c.SortedSetRemove?
    ensures FromJson(ToJson(c)) == Ok(c)
  {
    var obj := ToJson(c).fields;
    assert obj["set"] == JString(c.setName) && obj["member"] == JString(c.member);
  }

  lemma WriteRoundTrip(c: CRDTCommand)
    requires c.AnyWriteWins? || c.LastWriteWins? || c.HashSetValue?
    requires c.value.Json?
    ensures FromJson(ToJson(c)) == Ok(c)
  {
    var obj := ToJson(c).fields;
    assert obj["key"] == JString(c.key) && obj["value"] == c.value.json;
  }

  lemma CounterRoundTrip(c: CRDTCommand)
    requires c.PNCounter? || c.HashCounter? || c.HashUnsetKey?
    ensures FromJson(ToJson(c)) == Ok(c)
  {
    var obj := ToJson(c).fields;
    assert obj["key"] == JString(c.key);
    if c.PNCounter? {
      assert obj["value"] == DeltaJson(c.delta) && IsI64(obj["value"]);
    } else if c.HashCounter? {
      assert obj["member"] == JString(c.member);
      assert obj["delta"] == DeltaJson(c.delta) && IsI64(obj["delta"]);
    } else {
      assert obj["member"] == JString(c.member);
    }
  }

  // ------------------------------------------------------- configuration

  /** The `intersect` configuration. */
  datatype IntersectConfig =
    | IntersectTip
    | IntersectOrigin
    | IntersectPoint(slot: u64, hash: string)
    | Breadcrumbs(all: seq<(u64, string)>)

  /** The breadcrumbs as chain points, in order; the error is the panic of
      `expect("valid hex hash")` on the first hash that does not decode. */
  function BreadcrumbPoints(all: seq<(u64, string)>): (r: Result<seq<Point>, string>)
    ensures r.Err? <==> exists i :: 0 <= i < |all| && HexDecode(all[i].1).None?
    ensures r.Err? ==> r.error == "valid hex hash"
    ensures r.Ok? ==> |r.value| == |all| &&
                      forall i :: 0 <= i < |all| ==>
                        r.value[i].Specific? && r.value[i].slot == all[i].0 &&
                        HexDecode(all[i].1) == Some(r.value[i].hash)
  {
    if all == [] then Ok([])
    else
      var init := all[..|all| - 1];
      var (slot, hash) := all[|all| - 1];
      assert forall i :: 0 <= i < |init| ==> init[i] == all[i];
      var rest :- BreadcrumbPoints(init);
      match HexDecode(hash)
      case Some(h) => Ok(rest + [Specific(slot, h)])
      case None => Err("valid hex hash")
  }

  /** `IntersectConfig::points`: none for the tip and the origin, one point
      for a point, one per breadcrumb; an invalid hex hash panics. */
  function Points(c: IntersectConfig): (r: Result<Option<seq<Point>>, string>)
    ensures (c.IntersectTip? || c.IntersectOrigin?) ==> r == Ok(None)
    ensures c.IntersectPoint? ==>
              r == match HexDecode(c.hash)
                   case Some(h) => Ok(Some([Specific(c.slot, h)]))
                   case None => Err("valid hex hash")
    ensures c.Breadcrumbs? && BreadcrumbPoints(c.all).Ok? ==> r == Ok(Some(BreadcrumbPoints(c.all).value))
    ensures c.Breadcrumbs? && BreadcrumbPoints(c.all).Err? ==> r == Err("valid hex hash")
  {
    match c
    case Breadcrumbs(all) =>
      var ps :- BreadcrumbPoints(all);
      Ok(Some(ps))
    case IntersectPoint(slot, hash) =>
      (match HexDecode(hash)
       case Some(h) => Ok(Some([Specific(slot, h)]))
       case None => Err("valid hex hash"))
    case _ => Ok(None)
  }

  /** Breadcrumbs written as the hex of chain points give those points back. */
  lemma {:induction false} BreadcrumbsRoundTrip(points: seq<(u64, seq<byte>)>)
    ensures Points(Breadcrumbs(seq(|points|, i requires 0 <= i < |points| => (points[i].0, Hex(points[i].1))))) ==
            Ok(Some(seq(|points|, i requires 0 <= i < |points| => Specific(points[i].0, points[i].1))))
  {
    var crumbs := seq(|points|, i requires 0 <= i < |points| => (points[i].0, Hex(points[i].1)));
    var expected := seq(|points|, i requires 0 <= i < |points| => Specific(points[i].0, points[i].1));
    forall i | 0 <= i < |crumbs|
      ensures HexDecode(crumbs[i].1) == Some(points[i].1)
    {
      HexRoundTrip(points[i].1);
    }
    var r := BreadcrumbPoints(crumbs);
    assert r.Ok?;
    assert r.value == expected;
  }

  /** The `finalize` configuration. */
  datatype FinalizeConfig = FinalizeConfig(untilHash: Option<string>, maxBlockSlot: Option<u64>)

  /** `should_finalize`: never without a configuration; with a hash to wait
      for and a specific point, exactly when the point's hash renders as that
      hash (whatever the slot bound says); otherwise exactly when a slot
      bound is set and the point's slot has reached it. */
  function ShouldFinalize(config: Option<FinalizeConfig>, last: Point): (r: bool)
    ensures config.None? ==> !r
    ensures config.Some? && config.value.untilHash.Some? && last.Specific? ==>
              r == (config.value.untilHash.value == Hex(last.hash))
    ensures config.Some? && !(config.value.untilHash.Some? && last.Specific?) ==>
              r == (config.value.maxBlockSlot.Some? && SlotOrDefault(last) >= config.value.maxBlockSlot.value)
  {
    match config
    case None => false
    case Some(c) =>
      if c.untilHash.Some? && last.Specific? then c.untilHash.value == Hex(last.hash)
      else match c.maxBlockSlot
        case Some(max) => SlotOrDefault(last) >= max
        case None => false
  }

  /** A hash bound stops on exactly the block whose hash it names: the
      configured text decodes to that block's hash, and the block with that
      hash stops the pipeline. */
  lemma FinalizeOnHash(c: FinalizeConfig, slot: u64, hash: seq<byte>)
    requires c.untilHash.Some?
    ensures ShouldFinalize(Some(c), Specific(slot, hash)) ==> HexDecode(c.untilHash.value) == Some(hash)
    ensures c.untilHash.value == Hex(hash) ==> ShouldFinalize(Some(c), Specific(slot, hash))
  {
    HexRoundTrip(hash);
  }

  /** Without a hash bound, once a slot finalizes every later slot does. */
  lemma FinalizeMonotonic(c: FinalizeConfig, early: Point, late: Point)
    requires c.untilHash.None?
    requires SlotOrDefault(early) <= SlotOrDefault(late)
    ensures ShouldFinalize(Some(c), early) ==> ShouldFinalize(Some(c), late)
  {
  }
}
