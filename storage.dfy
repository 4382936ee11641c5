/** The optional conversion-history store (`shared/storage.py`). Every
    record lives in one DynamoDB partition, so the table is a map from the
    sort key (the conversion's timestamp) to the stored attributes. Whether
    the table could be reached is probed once and remembered. Each DynamoDB
    call's success or failure is a parameter. */
module Storage {
  import opened Common
  import opened PyJson
  import opened Decimals
  import opened Failures
  import opened SortKeys

  /** An attribute value as the backend hands it to boto3: a value from
      parsed JSON, or a `Decimal`. */
  datatype Value = Plain(json: Json) | Dec(dec: Decimal)

  const Null := Plain(JNull)

  /** Python truthiness of a value; a `Decimal` is false only when zero. */
  predicate IsTruthy(v: Value) {
    match v
    case Plain(j) => Truthy(j)
    case Dec(d) => d != Finite(0.0)
  }

  /** `record.get(key)`. */
  function Field(record: map<string, Value>, key: string): Value {
    if key in record then record[key] else Null
  }

  /** `_to_decimal(value)`: `None` stays `None`, a `Decimal` is kept, and
      anything else goes through `Decimal(str(value))`, whose
      `InvalidOperation` propagates. */
  function ToDecimal(v: Value): (r: Result<Value, Exc>)
    ensures r.Success? ==> r.value == Null || r.value.Dec?
    ensures r.Failure? <==> v.Plain? && v.json != JNull && FromJson(v.json).None?
    ensures r.Failure? ==> r.error == DecimalSyntaxError
    ensures v.Plain? && v.json != JNull && FromJson(v.json).Some? ==> r == Success(Dec(FromJson(v.json).value))
  {
    match v
    case Dec(_) => Success(v)
    case Plain(j) =>
      if j == JNull then Success(Null)
      else
        match FromJson(j)
        case Some(d) => Success(Dec(d))
        case None => Failure(DecimalSyntaxError)
  }

  /** `None` and `Decimal`s are passed through, and a converted value is
      not converted again. */
  lemma ToDecimalKeeps(v: Value)
    ensures v == Null ==> ToDecimal(v) == Success(Null)
    ensures v.Dec? ==> ToDecimal(v) == Success(v)
    ensures ToDecimal(v).Success? ==> ToDecimal(ToDecimal(v).value) == ToDecimal(v)
  {
  }

  /** Integers are converted exactly; `True`, lists and dicts are refused. */
  lemma ToDecimalOfJson(j: Json)
    ensures j.JInt? ==> ToDecimal(Plain(j)) == Success(Dec(Finite(j.i as real)))
    ensures j.JBool? || j.JArr? || j.JObj? ==> ToDecimal(Plain(j)).Failure?
  {
    if j.JInt? {
      JsonIntReadsExactly(j.i);
    } else if j.JBool? || j.JArr? || j.JObj? {
      NonNumbersRejected(j);
    }
  }

  /** The attributes of one stored conversion, besides its keys. */
  datatype Item = Item(from: Value, to: Value, amount: Value, result: Value, rate: Value, lastUpdated: Value)

  /** The numeric attributes hold `None` or a `Decimal`: every write passes
      them through `_to_decimal`. */
  predicate WellTyped(item: Item) {
    && (item.amount == Null || item.amount.Dec?)
    && (item.result == Null || item.result.Dec?)
    && (item.rate == Null || item.rate.Dec?)
  }

  /** A float anywhere inside a JSON value. */
  predicate HasFloat(j: Json) {
    match j
    case JFloat(_) => true
    case JArr(items) => exists i :: 0 <= i < |items| && HasFloat(items[i])
    case JObj(fields) => exists k :: k in fields && HasFloat(fields[k])
    case _ => false
  }

  /** Powers of ten that bound boto3's number context and DynamoDB's
      number range, written out: `Exp38` is 10^38, and so on. */
  const Exp36: nat := 1000000000000000000000000000000000000
  const Exp38: nat := 100000000000000000000000000000000000000
  const Exp126: nat := 1000000000000000000000000000000000000000000000000000000000000000000000000000000000000000000000000000000000000000000000000000000
  const Exp127: nat := 10000000000000000000000000000000000000000000000000000000000000000000000000000000000000000000000000000000000000000000000000000000
  const Exp128: nat := 100000000000000000000000000000000000000000000000000000000000000000000000000000000000000000000000000000000000000000000000000000000
  const Exp130: nat := 10000000000000000000000000000000000000000000000000000000000000000000000000000000000000000000000000000000000000000000000000000000000
  const Exp165: nat := 1000000000000000000000000000000000000000000000000000000000000000000000000000000000000000000000000000000000000000000000000000000000000000000000000000000000000000000000

  /** `n` without its trailing decimal zeros: its significant digits. */
  function StripZeros(n: nat): (m: nat)
    ensures m <= n
    ensures m == 0 <==> n == 0
  {
    if n != 0 && n % 10 == 0 then StripZeros(n / 10) else n
  }

  /** The signal `DYNAMODB_CONTEXT.create_decimal` raises for a finite
      number, judged by its value. boto3's context keeps 38 significant
      digits, exponents from -165 (Etiny) up to an adjusted exponent of 126
      (so magnitudes below 10^127), and traps Overflow, Underflow, Inexact
      and Rounded; of those signalled, the first in that order is raised.
      A number that needs digits below 10^-165 is rounded: an Underflow
      when it is subnormal (below 10^-128), an Inexact otherwise. */
  function NumberTrap(x: real): Option<Exc> {
    var a := Abs(x);
    var scaled := a * Exp165 as real;
    if a >= Exp127 as real then Some(OverflowSignal)
    else if scaled.Floor as real != scaled then
      if a * Exp128 as real < 1.0 then Some(UnderflowSignal) else Some(InexactSignal)
    else if StripZeros(if scaled.Floor < 0 then 0 else scaled.Floor) >= Exp38 then Some(InexactSignal)
    else None
  }

  /** The same for a Python `int`, whose digits are all written out: more
      than 38 of them are Rounded away, an Inexact when one of them is not
      zero, and an adjusted exponent above 126 overflows. */
  function IntTrap(n: int): Option<Exc> {
    var a: nat := if n < 0 then -n else n;
    if a >= Exp127 then Some(OverflowSignal)
    else if StripZeros(a) >= Exp38 then Some(InexactSignal)
    else if a >= Exp38 then Some(RoundedSignal)
    else None
  }

  /** What boto3's serializer raises for a value it cannot send: a float
      anywhere inside it; a top-level number its 38-digit context traps;
      or a `Decimal` whose text is `Infinity` or `NaN`. `-Infinity` and a
      signalling NaN pass it (DynamoDB refuses them, see `Refused`). */
  function SerializeError(v: Value): Option<Exc> {
    match v
    case Plain(j) =>
      if HasFloat(j) then Some(Raised(TypeError, "Float types are not supported. Use Decimal types instead."))
      else if j.JInt? then IntTrap(j.i)
      else None
    case Dec(d) =>
      match d
      case Finite(x) => NumberTrap(x)
      case Infinite(negative) => if negative then None else Some(Raised(TypeError, "Infinity and NaN not supported"))
      case QuietNaN => Some(Raised(TypeError, "Infinity and NaN not supported"))
      case SignalingNaN => None
  }

  /** A number boto3 sends but DynamoDB refuses with a `ClientError`:
      `-Infinity`, a signalling NaN, or a non-zero number whose magnitude
      lies outside DynamoDB's range, 10^-130 up to below 10^126. */
  predicate Refused(v: Value) {
    match v
    case Plain(_) => false
    case Dec(d) =>
      || d == Infinite(true)
      || d.SignalingNaN?
      || (d.Finite? && d.value != 0.0 && (Abs(d.value) * Exp130 as real < 1.0 || Abs(d.value) >= Exp126 as real))
  }

  /** Some attribute value DynamoDB refuses. */
  predicate AnyRefused(vs: seq<Value>) {
    exists i :: 0 <= i < |vs| && Refused(vs[i])
  }
  /** Exponents add up. */
  lemma {:induction false} TenAdd(a: nat, b: nat)
    ensures Ten(a + b) == Ten(a) * Ten(b)
    decreases a
  {
    if a > 0 {
      TenAdd(a - 1, b);
    }
  }

  /** The written-out bound is the power of ten it stands for. */
  lemma TenToTheEtiny()
    ensures Ten(165) == Exp165
  {
    var five := 5;
    assert Ten(five) == 100000;
    var e, v: nat := five, 100000;
    TenAdd(e, e); e, v := e + e, v * v;
    TenAdd(e, e); e, v := e + e, v * v;
    TenAdd(e, e); e, v := e + e, v * v;
    TenAdd(e, e); e, v := e + e, v * v;
    TenAdd(e, e); e, v := e + e, v * v;
    TenAdd(e, five);
    assert e + five == 165 && v * 100000 == Exp165;
  }

  /** A trailing zero is not a significant digit. */
  lemma StripTimesTen(m: nat)
    requires m > 0
    ensures StripZeros(m * 10) == StripZeros(m)
  {
    assert (m * 10) % 10 == 0 && (m * 10) / 10 == m;
  }

  lemma TimesTen(k: nat, t: nat)
    ensures k * (10 * t) == (k * t) * 10
  {
  }

  /** Scaling by a power of ten adds only trailing zeros. */
  lemma {:induction false} StripScaled(k: nat, e: nat)
    ensures StripZeros(k * Ten(e)) == StripZeros(k)
  {
    if e > 0 {
      StripScaled(k, e - 1);
      var t := Ten(e - 1);
      var m := k * t;
      assert Ten(e) == 10 * t;
      TimesTen(k, t);
      if k > 0 {
        StripTimesTen(m);
      }
    }
  }

  lemma Regroup(a: real, s: real)
    ensures a * (s * 100.0) == (a * 100.0) * s
  {
  }

  lemma CastProduct(p: nat, q: nat)
    ensures (p * q) as real == p as real * q as real
  {
  }

  lemma ScaleUp(a: real, b: real, c: real)
    requires a >= b && c >= 0.0
    ensures a * c >= b * c
  {
  }

  /** Scaled to boto3's smallest exponent, a whole number of cents below
      10^36 is a whole number with at most 36 significant digits. */
  lemma CentsScaled(x: real) returns (product: nat)
    requires IsCents(x) && Abs(x) < Exp36 as real
    ensures Abs(x) * Exp165 as real == product as real
    ensures StripZeros(product) < Exp38
  {
    var a := Abs(x);
    var n := (x * 100.0).Floor;
    var cents: nat := if n < 0 then -n else n;
    assert a * 100.0 == cents as real;
    var places, two := 163, 2;
    var shift := Ten(places);
    assert Exp165 == shift * 100 by {
      TenToTheEtiny();
      TenAdd(places, two);
      assert Ten(two) == 100;
    }
    product := cents * shift;
    calc {
      a * Exp165 as real;
      { CastProduct(shift, 100); }
      a * (shift as real * 100.0);
      { Regroup(a, shift as real); }
      (a * 100.0) * shift as real;
      cents as real * shift as real;
      { CastProduct(cents, shift); }
      product as real;
    }
    StripScaled(cents, places);
  }

  /** A whole number of cents below 10^36 in magnitude, which is what a
      conversion result is, does not trap in boto3's context: it needs two
      decimal places and at most 36 digits. */
  lemma CentsFit(x: real)
    requires IsCents(x) && Abs(x) < Exp36 as real
    ensures NumberTrap(x).None?
  {
    var product := CentsScaled(x);
    var scaled := Abs(x) * Exp165 as real;
    assert scaled.Floor == product;
    assert !(Abs(x) >= Exp127 as real);
    assert scaled.Floor as real == scaled;
  }

  /** A non-zero number below 10^-165 in magnitude, such as `1e-200`,
      cannot be sent: rounding it to boto3's smallest exponent is an
      Underflow. */
  lemma TinyUnderflows(x: real)
    requires x != 0.0 && Abs(x) * Exp165 as real < 1.0
    ensures NumberTrap(x) == Some(UnderflowSignal)
  {
    var a := Abs(x);
    var scaled := a * Exp165 as real;
    assert 0.0 < scaled;
    assert scaled.Floor == 0;
    ScaleUp(Exp165 as real, Exp128 as real, a);
    assert a * Exp128 as real < 1.0;
    assert a < Exp127 as real;
  }

  /** Such a number also lies in DynamoDB's range: it is zero or at least
      a cent in magnitude. */
  lemma CentsInRange(x: real)
    requires IsCents(x) && Abs(x) < Exp36 as real
    ensures !Refused(Dec(Finite(x)))
  {
    if x != 0.0 {
      var n := (x * 100.0).Floor;
      assert n != 0;
      assert Abs(x) >= 0.01;
      ScaleUp(Abs(x), 0.01, Exp130 as real);
    }
  }

  /** So boto3 sends such a number and DynamoDB stores it. */
  lemma CentsStorable(x: real)
    requires IsCents(x) && Abs(x) < Exp36 as real
    ensures SerializeError(Dec(Finite(x))).None? && !Refused(Dec(Finite(x)))
  {
    CentsFit(x);
    CentsInRange(x);
  }



  /** The first serialization error among attribute values, in order. */
  function FirstError(vs: seq<Value>): (r: Option<Exc>)
    ensures r.None? <==> forall i :: 0 <= i < |vs| ==> SerializeError(vs[i]).None?
  {
    if vs == [] then None
    else if SerializeError(vs[0]).Some? then SerializeError(vs[0])
    else
      var rest := FirstError(vs[1..]);
      assert forall i :: 1 <= i < |vs| ==> vs[i] == vs[1..][i - 1];
      rest
  }

  /** A value the serializer accepts at the end does not change the first
      error. */
  lemma {:induction false} FirstErrorBeforeClean(vs: seq<Value>, last: Value)
    requires SerializeError(last).None?
    ensures FirstError(vs + [last]) == FirstError(vs)
  {
    if vs != [] {
      assert (vs + [last])[1..] == vs[1..] + [last];
      FirstErrorBeforeClean(vs[1..], last);
    }
  }

  /** The sort key `store_conversion_record` writes under:
      `record.get("timestamp") or <now>`. */
  function SortKeyOf(record: map<string, Value>, now: string): Value {
    if IsTruthy(Field(record, "timestamp")) then Field(record, "timestamp") else Plain(JStr(now))
  }

  /** A key DynamoDB accepts for this table: a non-empty string. */
  predicate ValidKey(key: Value) {
    key.Plain? && key.json.JStr? && key.json.s != ""
  }

  /** The attribute values of a stored item, key first, in the order boto3
      serializes them. */
  function Attributes(key: Value, item: Item): seq<Value> {
    [key, item.from, item.to, item.amount, item.result, item.rate, item.lastUpdated]
  }

  /** When the key, the codes and the update time are sent as they are,
      the first serialization error and DynamoDB's refusal of an item
      depend on its three numbers only. */
  lemma AttributeNumbers(key: Value, item: Item)
    requires SerializeError(key).None? && SerializeError(item.from).None?
    requires SerializeError(item.to).None? && SerializeError(item.lastUpdated).None?
    requires !Refused(key) && !Refused(item.from) && !Refused(item.to) && !Refused(item.lastUpdated)
    ensures var numbers := [item.amount, item.result, item.rate];
      && FirstError(Attributes(key, item)) == FirstError(numbers)
      && (AnyRefused(Attributes(key, item)) <==> AnyRefused(numbers))
  {
    var numbers := [item.amount, item.result, item.rate];
    var values := Attributes(key, item);
    var afterKey, afterFrom := values[1..], values[2..];
    assert values[0] == key && afterKey[0] == item.from && afterFrom[0] == item.to;
    assert afterKey[1..] == afterFrom && afterFrom[1..] == numbers + [item.lastUpdated];
    assert FirstError(values) == FirstError(afterKey);
    assert FirstError(afterKey) == FirstError(afterFrom);
    assert FirstError(afterFrom) == FirstError(numbers + [item.lastUpdated]);
    FirstErrorBeforeClean(numbers, item.lastUpdated);
    if AnyRefused(numbers) {
      var i :| 0 <= i < |numbers| && Refused(numbers[i]);
      assert values[i + 3] == numbers[i];
    }
    if AnyRefused(values) {
      var i :| 0 <= i < |values| && Refused(values[i]);
      assert 3 <= i < 6 && values[i] == numbers[i - 3];
    }
  }

  /** The item `store_conversion_record` builds and boto3 serializes, with
      the exception either raises. */
  function PrepareItem(record: map<string, Value>, now: string): Result<(Value, Item), Exc> {
    var key := SortKeyOf(record, now);
    var amount :- ToDecimal(Field(record, "amount"));
    var result :- ToDecimal(Field(record, "result"));
    var rate :- ToDecimal(Field(record, "rate"));
    var item := Item(Field(record, "from"), Field(record, "to"), amount, result, rate, Field(record, "last_updated"));
    match FirstError(Attributes(key, item))
    case Some(e) => Failure(e)
    case None => Success((key, item))
  }

  /** `store_conversion_record` on an available table: the outcome and the
      table afterwards. A key or a number DynamoDB refuses, or a failed
      call, is a `ClientError`, reported as `False`. */
  function PutSpec(table: map<string, Item>, record: map<string, Value>, now: string, callOk: bool)
    : (Result<bool, Exc>, map<string, Item>)
  {
    match PrepareItem(record, now)
    case Failure(e) => (Failure(e), table)
    case Success((key, item)) =>
      if ValidKey(key) && !AnyRefused(Attributes(key, item)) && callOk then (Success(true), table[key.json.s := item])
      else (Success(false), table)
  }

  /** A successful store upserts the record under its timestamp, or under
      the current time when the timestamp is missing or empty; every other
      key keeps its item, and the stored item is well typed. */
  lemma PutUpserts(table: map<string, Item>, record: map<string, Value>, now: string, callOk: bool)
    requires PutSpec(table, record, now, callOk).0 == Success(true)
    ensures var key := SortKeyOf(record, now);
      var after := PutSpec(table, record, now, callOk).1;
      && ValidKey(key)
      && (IsTruthy(Field(record, "timestamp")) ==> key == Field(record, "timestamp"))
      && (!IsTruthy(Field(record, "timestamp")) ==> key == Plain(JStr(now)))
      && after.Keys == table.Keys + {key.json.s}
      && (forall k :: k in table && k != key.json.s ==> after[k] == table[k])
      && after[key.json.s].from == Field(record, "from")
      && after[key.json.s].to == Field(record, "to")
      && after[key.json.s].lastUpdated == Field(record, "last_updated")
      && Success(after[key.json.s].amount) == ToDecimal(Field(record, "amount"))
      && Success(after[key.json.s].result) == ToDecimal(Field(record, "result"))
      && Success(after[key.json.s].rate) == ToDecimal(Field(record, "rate"))
      && WellTyped(after[key.json.s])
  {
  }

  /** A store that does not succeed leaves the table as it was. */
  lemma PutFailureWritesNothing(table: map<string, Item>, record: map<string, Value>, now: string, callOk: bool)
    requires PutSpec(table, record, now, callOk).0 != Success(true)
    ensures PutSpec(table, record, now, callOk).1 == table
  {
  }

  /** One history entry as `fetch_history` and `get_conversion_by_id`
      shape it; the numbers are those `_to_float` converts. */
  datatype Entry = Entry(
    id: string,
    from: Value,
    to: Value,
    amount: Option<Decimal>,
    result: Option<Decimal>,
    rate: Option<Decimal>,
    timestamp: string,
    lastUpdated: Value)

  /** The number `_to_float` converts: a stored `Decimal`, or none for `None`. */
  function Number(v: Value): Option<Decimal> {
    if v.Dec? then Some(v.dec) else None
  }

  function EntryOf(key: string, item: Item): (e: Entry)
    ensures e.id == key && e.timestamp == key
  {
    Entry(key, item.from, item.to, Number(item.amount), Number(item.result), Number(item.rate), key, item.lastUpdated)
  }

  /** The history `fetch_history(limit)` builds from a query answer. */
  function Recent(table: map<string, Item>, limit: nat): (history: seq<Entry>)
    ensures |history| <= limit && |history| <= |table|
  {
    var keys := Newest(table.Keys, limit);
    seq(|keys|, i requires 0 <= i < |keys| => EntryOf(keys[i], table[keys[i]]))
  }

  /** `fetch_history` lists stored records only, newest first, each with
      `id == timestamp ==` its sort key; it lists `limit` of them or all
      there are, and no record it leaves out is newer than one it lists. */
  lemma RecentListsStored(table: map<string, Item>, limit: nat)
    ensures var history := Recent(table, limit);
      && |history| == (if limit < |table| then limit else |table|)
      && (forall i :: 0 <= i < |history| ==>
            history[i].id in table && history[i] == EntryOf(history[i].id, table[history[i].id]))
      && (forall i, j :: 0 <= i < j < |history| ==> Before(history[j].id, history[i].id))
      && (forall k :: k in table && (forall i :: 0 <= i < |history| ==> history[i].id != k) ==>
            forall i :: 0 <= i < |history| ==> Before(k, history[i].id))
  {
    var keys := Newest(table.Keys, limit);
    var history := Recent(table, limit);
    assert |table.Keys| == |table|;
    RecentIds(table, limit);
    forall k | k in table && (forall i :: 0 <= i < |history| ==> history[i].id != k)
      ensures forall i :: 0 <= i < |history| ==> Before(k, history[i].id)
    {
      assert k !in keys;
    }
  }

  /** The history lists the newest keys, in their order. */
  lemma RecentIds(table: map<string, Item>, limit: nat)
    ensures var keys := Newest(table.Keys, limit);
      var history := Recent(table, limit);
      |history| == |keys| && forall i :: 0 <= i < |history| ==> history[i].id == keys[i] && keys[i] in table
  {
  }

  /** The newest record is listed first. */
  lemma NewestRecordFirst(table: map<string, Item>, limit: nat, key: string)
    requires limit >= 1 && key in table && IsNewest(key, table.Keys)
    ensures |Recent(table, limit)| >= 1 && Recent(table, limit)[0] == EntryOf(key, table[key])
  {
    var keys := Newest(table.Keys, limit);
    assert |table.Keys| >= 1;
    assert !Before(key, keys[0]);
    assert key in keys;
    var j :| 0 <= j < |keys| && keys[j] == key;
    assert j == 0;
  }

  /** With a limit at least the size of the table, every record is listed. */
  lemma RecentListsAll(table: map<string, Item>, limit: nat)
    requires limit >= |table|
    ensures forall k :: k in table <==> exists i :: 0 <= i < |Recent(table, limit)| && Recent(table, limit)[i].id == k
  {
    var keys := Newest(table.Keys, limit);
    assert |table.Keys| == |table|;
    NewestAll(table.Keys, limit);
    var history := Recent(table, limit);
    forall k | k in table
      ensures exists i :: 0 <= i < |history| && history[i].id == k
    {
      var i :| 0 <= i < |keys| && keys[i] == k;
      assert history[i].id == k;
    }
  }

  /** `_table_checked` and whether `_cached_table` is set, after one
      `_get_table()` call whose probe (`table.load()`) would give `probeOk`. */
  function Probe(checked: bool, available: bool, supported: bool, probeOk: bool): (bool, bool) {
    if available then (checked, true)
    else if checked || !supported then (checked, false)
    else (true, probeOk)
  }

  /** The memo after a series of `_get_table()` calls. */
  function Probes(checked: bool, available: bool, supported: bool, probeOks: seq<bool>): (bool, bool)
    decreases |probeOks|
  {
    if probeOks == [] then (checked, available)
    else
      var (c, a) := Probe(checked, available, supported, probeOks[0]);
      Probes(c, a, supported, probeOks[1..])
  }

  /** Once a probe has run the memo never changes: later calls never probe
      again, a table that was found is returned forever, and a failed
      probe means no table forever. */
  lemma {:induction false} ProbedOnce(available: bool, supported: bool, probeOks: seq<bool>)
    ensures Probes(true, available, supported, probeOks) == (true, available)
    decreases |probeOks|
  {
    if probeOks != [] {
      ProbedOnce(available, supported, probeOks[1..]);
    }
  }

  /** Without boto3 there is never a table, and nothing is ever probed. */
  lemma {:induction false} UnsupportedNeverProbes(probeOks: seq<bool>)
    ensures Probes(false, false, false, probeOks) == (false, false)
    decreases |probeOks|
  {
    if probeOks != [] {
      UnsupportedNeverProbes(probeOks[1..]);
    }
  }

  /** From the start, the first probe alone decides availability for good. */
  lemma FirstProbeDecides(probeOks: seq<bool>)
    requires probeOks != []
    ensures Probes(false, false, true, probeOks) == (true, probeOks[0])
  {
    ProbedOnce(probeOks[0], true, probeOks[1..]);
  }

  /** The fields `update_conversion_record` may write. */
  const Allowed: seq<string> := ["from", "to", "amount", "result", "rate", "last_updated"]

  /** The fields whose value goes through `_to_decimal` first. */
  const DecimalFields: seq<string> := ["amount", "result", "rate"]

  /** The assignments the update builds from `updates` (a dict, in its
      order): allowed fields only, numeric ones converted. */
  function Writes(updates: seq<(string, Value)>): (r: Result<seq<(string, Value)>, Exc>)
    ensures r.Success? ==> forall i :: 0 <= i < |r.value| ==> r.value[i].0 in Allowed
  {
    if updates == [] then Success([])
    else
      var before :- Writes(updates[..|updates| - 1]);
      var (name, value) := updates[|updates| - 1];
      if name !in Allowed then Success(before)
      else if name in DecimalFields then
        var converted :- ToDecimal(value);
        Success(before + [(name, converted)])
      else Success(before + [(name, value)])
  }

  /** Set one attribute of an item. */
  function SetField(item: Item, name: string, value: Value): Item {
    match name
    case "from" => item.(from := value)
    case "to" => item.(to := value)
    case "amount" => item.(amount := value)
    case "result" => item.(result := value)
    case "rate" => item.(rate := value)
    case "last_updated" => item.(lastUpdated := value)
    case _ => item
  }

  /** Read one attribute of an item. */
  function GetField(item: Item, name: string): Value {
    match name
    case "from" => item.from
    case "to" => item.to
    case "amount" => item.amount
    case "result" => item.result
    case "rate" => item.rate
    case "last_updated" => item.lastUpdated
    case _ => Null
  }

  /** `SET name = value, ...` applied to an item. */
  function ApplyWrites(item: Item, writes: seq<(string, Value)>): Item
    decreases |writes|
  {
    if writes == [] then item
    else ApplyWrites(SetField(item, writes[0].0, writes[0].1), writes[1..])
  }

  /** The dict's keys are distinct. */
  predicate DistinctNames(updates: seq<(string, Value)>) {
    forall i, j :: 0 <= i < j < |updates| ==> updates[i].0 != updates[j].0
  }

  /** The value an update gives a field: `_to_decimal` of it for a numeric field. */
  function Converted(name: string, value: Value): Result<Value, Exc> {
    if name in DecimalFields then ToDecimal(value) else Success(value)
  }

  /** Some update names `name` and converts to `value`. */
  predicate FromUpdate(updates: seq<(string, Value)>, name: string, value: Value) {
    exists j :: 0 <= j < |updates| && updates[j].0 == name && Converted(name, updates[j].1) == Success(value)
  }

  /** Some write names `name`. */
  predicate WrittenIn(writes: seq<(string, Value)>, name: string) {
    exists i :: 0 <= i < |writes| && writes[i].0 == name
  }

  /** One step of `Writes`: the last update adds a write exactly when its
      field is allowed. */
  lemma WritesLast(updates: seq<(string, Value)>)
    requires updates != [] && Writes(updates).Success?
    ensures var front := updates[..|updates| - 1];
      var last := updates[|updates| - 1];
      && Writes(front).Success?
      && (last.0 !in Allowed ==> Writes(updates).value == Writes(front).value)
      && (last.0 in Allowed ==>
            && Converted(last.0, last.1).Success?
            && Writes(updates).value == Writes(front).value + [(last.0, Converted(last.0, last.1).value)])
  {
  }

  /** Each write names an update's field, with that update's converted value. */
  lemma {:induction false} WritesFromUpdates(updates: seq<(string, Value)>)
    requires Writes(updates).Success?
    ensures var w := Writes(updates).value;
      forall i :: 0 <= i < |w| ==> FromUpdate(updates, w[i].0, w[i].1)
  {
    if updates != [] {
      var front := updates[..|updates| - 1];
      var last := updates[|updates| - 1];
      WritesLast(updates);
      WritesFromUpdates(front);
      var w := Writes(updates).value;
      var wf := Writes(front).value;
      forall i | 0 <= i < |w|
        ensures FromUpdate(updates, w[i].0, w[i].1)
      {
        if i < |wf| {
          assert w[i] == wf[i];
          var j :| 0 <= j < |front| && front[j].0 == wf[i].0 && Converted(wf[i].0, front[j].1) == Success(wf[i].1);
          assert updates[j] == front[j];
        } else {
          assert updates[|updates| - 1].0 == w[i].0;
        }
      }
    }
  }

  /** Each allowed field of the updates is written. */
  lemma {:induction false} UpdatesWritten(updates: seq<(string, Value)>)
    requires Writes(updates).Success?
    ensures forall j :: 0 <= j < |updates| && updates[j].0 in Allowed ==>
      WrittenIn(Writes(updates).value, updates[j].0)
  {
    if updates != [] {
      var front := updates[..|updates| - 1];
      WritesLast(updates);
      UpdatesWritten(front);
      var w := Writes(updates).value;
      var wf := Writes(front).value;
      forall j | 0 <= j < |updates| && updates[j].0 in Allowed
        ensures WrittenIn(w, updates[j].0)
      {
        if j < |front| {
          assert updates[j] == front[j];
          var i :| 0 <= i < |wf| && wf[i].0 == front[j].0;
          assert w[i] == wf[i];
        } else {
          assert w[|w| - 1].0 == updates[j].0;
        }
      }
    }
  }

  /** Writes of distinct fields: the field named by one write ends with
      that write's value, and a field no write names is unchanged. */
  lemma {:induction false} ApplyWritesFields(item: Item, writes: seq<(string, Value)>, name: string)
    requires forall i, j :: 0 <= i < j < |writes| ==> writes[i].0 != writes[j].0
    requires forall i :: 0 <= i < |writes| ==> writes[i].0 in Allowed
    requires name in Allowed
    ensures (forall i :: 0 <= i < |writes| ==> writes[i].0 != name) ==>
      GetField(ApplyWrites(item, writes), name) == GetField(item, name)
    ensures forall i :: 0 <= i < |writes| && writes[i].0 == name ==>
      GetField(ApplyWrites(item, writes), name) == writes[i].1
    decreases |writes|
  {
    if writes != [] {
      var next := SetField(item, writes[0].0, writes[0].1);
      ApplyWritesFields(next, writes[1..], name);
      assert forall i :: 1 <= i < |writes| ==> writes[i] == writes[1..][i - 1];
    }
  }

  /** Writes come in the order of the updates, so distinct update fields
      give distinct writes. */
  lemma {:induction false} WritesDistinct(updates: seq<(string, Value)>)
    requires DistinctNames(updates)
    requires Writes(updates).Success?
    ensures var w := Writes(updates).value;
      forall i, j :: 0 <= i < j < |w| ==> w[i].0 != w[j].0
  {
    if updates != [] {
      var front := updates[..|updates| - 1];
      assert DistinctNames(front);
      WritesDistinct(front);
      WritesLast(updates);
      WritesFromUpdates(front);
      var wf := Writes(front).value;
      forall i | 0 <= i < |wf|
        ensures wf[i].0 != updates[|updates| - 1].0
      {
        assert FromUpdate(front, wf[i].0, wf[i].1);
        var j :| 0 <= j < |front| && front[j].0 == wf[i].0 && Converted(wf[i].0, front[j].1) == Success(wf[i].1);
        assert updates[j] == front[j];
      }
    }
  }

  /** What an update does to an allowed field: the field an update names
      gets that update's converted value, any other keeps its value. */
  lemma UpdateFields(item: Item, updates: seq<(string, Value)>, name: string)
    requires DistinctNames(updates)
    requires Writes(updates).Success?
    requires name in Allowed
    ensures forall j :: 0 <= j < |updates| && updates[j].0 == name ==>
      Success(GetField(ApplyWrites(item, Writes(updates).value), name)) == Converted(name, updates[j].1)
    ensures (forall j :: 0 <= j < |updates| ==> updates[j].0 != name) ==>
      GetField(ApplyWrites(item, Writes(updates).value), name) == GetField(item, name)
  {
    var w := Writes(updates).value;
    WritesFromUpdates(updates);
    UpdatesWritten(updates);
    WritesDistinct(updates);
    ApplyWritesFields(item, w, name);
    forall j | 0 <= j < |updates| && updates[j].0 == name
      ensures Success(GetField(ApplyWrites(item, w), name)) == Converted(name, updates[j].1)
    {
      assert WrittenIn(w, name);
      var i :| 0 <= i < |w| && w[i].0 == name;
      assert FromUpdate(updates, w[i].0, w[i].1);
      var j' :| 0 <= j' < |updates| && updates[j'].0 == name && Converted(name, updates[j'].1) == Success(w[i].1);
      assert j' == j;
    }
  }

  /** Numeric fields stay well typed through any update. */
  lemma {:induction false} UpdateKeepsWellTyped(item: Item, writes: seq<(string, Value)>)
    requires WellTyped(item)
    requires forall i :: 0 <= i < |writes| && writes[i].0 in DecimalFields ==>
      writes[i].1 == Null || writes[i].1.Dec?
    ensures WellTyped(ApplyWrites(item, writes))
    decreases |writes|
  {
    if writes != [] {
      UpdateKeepsWellTyped(SetField(item, writes[0].0, writes[0].1), writes[1..]);
    }
  }

  /** Converted numeric writes are `None` or `Decimal`s. */
  lemma {:induction false} WritesConverted(updates: seq<(string, Value)>)
    requires Writes(updates).Success?
    ensures var w := Writes(updates).value;
      forall i :: 0 <= i < |w| && w[i].0 in DecimalFields ==> w[i].1 == Null || w[i].1.Dec?
  {
    if updates != [] {
      WritesConverted(updates[..|updates| - 1]);
    }
  }

  /** The values of a list of writes, for the serializer. */
  function WriteValues(writes: seq<(string, Value)>): (vs: seq<Value>)
    ensures |vs| == |writes| && forall i :: 0 <= i < |writes| ==> vs[i] == writes[i].1
  {
    seq(|writes|, i requires 0 <= i < |writes| => writes[i].1)
  }

  /** The allowed fields DynamoDB reserves as words. The update expression
      names each field raw (`from = :from`), so DynamoDB refuses an update
      of any of these with a `ClientError`. */
  const Reserved: set<string> := {"from", "to", "result"}

  /** Some write names a reserved field. */
  predicate NamesReserved(writes: seq<(string, Value)>) {
    exists i :: 0 <= i < |writes| && writes[i].0 in Reserved
  }

  /** An update DynamoDB accepts leaves the reserved fields as they were. */
  lemma ReservedFieldsKept(item: Item, updates: seq<(string, Value)>)
    requires DistinctNames(updates)
    requires Writes(updates).Success? && !NamesReserved(Writes(updates).value)
    ensures var after := ApplyWrites(item, Writes(updates).value);
      after.from == item.from && after.to == item.to && after.result == item.result
  {
    var w := Writes(updates).value;
    WritesDistinct(updates);
    ApplyWritesFields(item, w, "from");
    ApplyWritesFields(item, w, "to");
    ApplyWritesFields(item, w, "result");
  }

  /** The conversion-history store: the memoized table probe and the table. */
  class HistoryStore {
    /** Whether boto3 could be imported (`storage_supported()`). */
    const supported: bool
    /** `_table_checked`. */
    var checked: bool
    /** `_cached_table is not None`. */
    var available: bool
    var table: map<string, Item>

    ghost predicate Valid()
      reads this
    {
      && (available ==> checked && supported)
      && "" !in table
      && forall k :: k in table ==> WellTyped(table[k])
    }

    /** A fresh process: nothing probed yet, over a table that may already
        hold records. */
    constructor(supported: bool, existing: map<string, Item>)
      requires "" !in existing && forall k :: k in existing ==> WellTyped(existing[k])
      ensures Valid()
      ensures this.supported == supported && !checked && !available && table == existing
    {
      this.supported := supported;
      checked := false;
      available := false;
      table := existing;
    }

    /** `_get_table()`: the table when it is (or, on the first probe,
        turns out to be) available. */
    method GetTable(probeOk: bool) returns (ok: bool)
      requires Valid()
      modifies this
      ensures Valid()
      ensures (checked, available) == Probe(old(checked), old(available), supported, probeOk)
      ensures ok == available && table == old(table)
    {
      if available {
        return true;
      }
      if checked || !supported {
        return false;
      }
      checked := true;
      available := probeOk;
      ok := available;
    }

    /** `store_conversion_record(record)`; `now` is the current UTC time
        in ISO format. */
    method Put(record: map<string, Value>, now: string, probeOk: bool, callOk: bool) returns (r: Result<bool, Exc>)
      requires Valid()
      modifies this
      ensures Valid()
      ensures (checked, available) == Probe(old(checked), old(available), supported, probeOk)
      ensures !available ==> r == Success(false) && table == old(table)
      ensures available ==> (r, table) == PutSpec(old(table), record, now, callOk)
    {
      var ok := GetTable(probeOk);
      if !ok {
        return Success(false);
      }
      var outcome := PutSpec(table, record, now, callOk);
      if outcome.0 == Success(true) {
        PutUpserts(table, record, now, callOk);
      } else {
        PutFailureWritesNothing(table, record, now, callOk);
      }
      r, table := outcome.0, outcome.1;
    }

    /** `fetch_history(limit)`: the newest records and `True`, or nothing
        and `False` when the table is unavailable, the limit is below one
        (boto3 refuses it before sending) or the query fails. */
    method FetchHistory(limit: int, probeOk: bool, callOk: bool) returns (history: seq<Entry>, active: bool)
      requires Valid()
      modifies this
      ensures Valid() && table == old(table)
      ensures (checked, available) == Probe(old(checked), old(available), supported, probeOk)
      ensures active <==> available && supported && limit >= 1 && callOk
      ensures !active ==> history == []
      ensures active ==> history == Recent(table, limit)
    {
      var ok := GetTable(probeOk);
      if !ok || !supported || limit < 1 || !callOk {
        return [], false;
      }
      history, active := Recent(table, limit), true;
    }

    /** `get_conversion_by_id(id)`: `(entry, True)` when found,
        `(None, True)` when the table has no such record, and
        `(None, False)` when the table cannot be read (unavailable, an
        empty key DynamoDB refuses, or a failed call). */
    method GetById(id: string, probeOk: bool, callOk: bool) returns (conversion: Option<Entry>, ok: bool)
      requires Valid()
      modifies this
      ensures Valid() && table == old(table)
      ensures (checked, available) == Probe(old(checked), old(available), supported, probeOk)
      ensures ok <==> available && supported && id != "" && callOk
      ensures conversion.Some? <==> ok && id in table
      ensures conversion.Some? ==> conversion.value == EntryOf(id, table[id])
    {
      var reachable := GetTable(probeOk);
      if !reachable || !supported || id == "" || !callOk {
        return None, false;
      }
      if id !in table {
        return None, true;
      }
      conversion, ok := Some(EntryOf(id, table[id])), true;
    }

    /** The assignments of an update, built field by field in the order of
        `updates`. */
    static method BuildWrites(updates: seq<(string, Value)>) returns (r: Result<seq<(string, Value)>, Exc>)
      ensures r == Writes(updates)
    {
      var writes: seq<(string, Value)> := [];
      var i := 0;
      while i < |updates|
        invariant 0 <= i <= |updates|
        invariant Writes(updates[..i]) == Success(writes)
      {
        assert updates[..i + 1][..i] == updates[..i];
        var (name, value) := updates[i];
        if name in Allowed {
          if name in DecimalFields {
            var converted := ToDecimal(value);
            if converted.Failure? {
              assert Writes(updates[..i + 1]) == Failure(converted.error);
              WritesStopAtFailure(updates, i + 1);
              return Failure(converted.error);
            }
            writes := writes + [(name, converted.value)];
          } else {
            writes := writes + [(name, value)];
          }
        }
        i := i + 1;
      }
      assert updates[..i] == updates;
      r := Success(writes);
    }

    /** `update_conversion_record(id, updates)`: `False` without a write
        when the table is unavailable, the existence check fails or finds
        nothing, no allowed field is given, or the call fails; otherwise
        the allowed fields are set and `True` returned. A value that
        `_to_decimal` or the serializer refuses raises. DynamoDB refuses
        (`False`) an expression that names a reserved field and a number
        out of its range, so only `amount`, `rate` and `last_updated` can
        ever change. */
    method Update(id: string, updates: seq<(string, Value)>, probeOk: bool, getOk: bool, callOk: bool)
      returns (r: Result<bool, Exc>)
      requires Valid()
      requires DistinctNames(updates)
      modifies this
      ensures Valid()
      ensures (checked, available) == Probe(old(checked), old(available), supported, probeOk)
      ensures r != Success(true) ==> table == old(table)
      ensures !(available && id != "" && getOk && id in old(table)) ==> r == Success(false)
      ensures available && id != "" && getOk && id in old(table) ==>
        && (Writes(updates).Failure? ==> r == Failure(Writes(updates).error))
        && (Writes(updates) == Success([]) ==> r == Success(false))
      ensures r == Success(true) <==>
        && available && id != "" && getOk && id in old(table)
        && Writes(updates).Success? && Writes(updates).value != []
        && FirstError(WriteValues(Writes(updates).value)).None?
        && !NamesReserved(Writes(updates).value) && !AnyRefused(WriteValues(Writes(updates).value)) && callOk
      ensures r == Success(true) ==>
        && table == old(table)[id := ApplyWrites(old(table)[id], Writes(updates).value)]
        && table[id].from == old(table)[id].from && table[id].to == old(table)[id].to
        && table[id].result == old(table)[id].result
    {
      var ok := GetTable(probeOk);
      if !ok || id == "" || !getOk || id !in table {
        return Success(false);
      }
      var writes := BuildWrites(updates);
      if writes.Failure? {
        return Failure(writes.error);
      }
      if writes.value == [] {
        return Success(false);
      }
      var refused := FirstError(WriteValues(writes.value));
      if refused.Some? {
        return Failure(refused.value);
      }
      if NamesReserved(writes.value) || AnyRefused(WriteValues(writes.value)) || !callOk {
        return Success(false);
      }
      WritesConverted(updates);
      ReservedFieldsKept(table[id], updates);
      UpdateKeepsWellTyped(table[id], writes.value);
      table := table[id := ApplyWrites(table[id], writes.value)];
      r := Success(true);
    }

    /** `delete_conversion_record(id)`: `True` whenever the call goes
        through, whether or not the record existed; afterwards it is gone. */
    method Delete(id: string, probeOk: bool, callOk: bool) returns (ok: bool)
      requires Valid()
      modifies this
      ensures Valid()
      ensures (checked, available) == Probe(old(checked), old(available), supported, probeOk)
      ensures ok <==> available && id != "" && callOk
      ensures ok ==> table == old(table) - {id} && id !in table
      ensures !ok ==> table == old(table)
    {
      var reachable := GetTable(probeOk);
      if !reachable || id == "" || !callOk {
        return false;
      }
      table := table - {id};
      ok := true;
    }
  }

  /** Once a prefix of the updates fails to convert, so do all longer ones. */
  lemma {:induction false} WritesStopAtFailure(updates: seq<(string, Value)>, n: nat)
    requires n <= |updates|
    requires Writes(updates[..n]).Failure?
    ensures Writes(updates) == Writes(updates[..n])
    decreases |updates| - n
  {
    if n < |updates| {
      assert updates[..n + 1][..n] == updates[..n];
      WritesStopAtFailure(updates, n + 1);
    } else {
      assert updates[..n] == updates;
    }
  }
}
