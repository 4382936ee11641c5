/** The `GET /history` handler (`get_history/handler.py`): list the newest
    stored conversions, or two built-in samples when there are none, and
    say where the list came from. */
module HistoryHandler {
  import opened Common
  import opened PyJson
  import opened Failures
  import opened Responses
  import opened SortKeys
  import opened Storage

  /** One listed conversion: a stored entry, or a built-in sample. */
  datatype Listed =
    | Stored(entry: Entry)
    | Sample(from: string, to: string, amount: int, result: int, timestamp: string)

  /** The success body: the list and `source`. */
  datatype HistoryPayload = HistoryPayload(history: seq<Listed>, source: string)

  /** `FALLBACK_HISTORY`. */
  const Fallback: seq<Listed> := [
    Sample("USD", "EUR", 100, 89, "2025-10-28T10:00:00Z"),
    Sample("EUR", "COP", 50, 215000, "2025-10-27T14:30:00Z")
  ]

  /** `fetch_history()`'s default limit. */
  const HistoryLimit := 20

  /** A number anywhere inside a JSON value. */
  predicate JsonHoldsNumber(j: Json) {
    match j
    case JInt(_) => true
    case JFloat(_) => true
    case JArr(items) => exists i :: 0 <= i < |items| && JsonHoldsNumber(items[i])
    case JObj(fields) => exists k :: k in fields && JsonHoldsNumber(fields[k])
    case _ => false
  }

  /** DynamoDB hands every stored number back as a `Decimal`: an attribute
      that held a number anywhere comes back holding a `Decimal`. */
  predicate HoldsNumber(v: Value) {
    v.Dec? || JsonHoldsNumber(v.json)
  }

  /** An entry `json.dumps` refuses: `from`, `to` or `last_updated` came
      back holding a `Decimal`. (`amount`, `result` and `rate` are
      converted to floats first.) */
  predicate Unencodable(e: Entry) {
    HoldsNumber(e.from) || HoldsNumber(e.to) || HoldsNumber(e.lastUpdated)
  }

  /** `json.dumps` meets an entry it refuses somewhere in the list. */
  predicate AnyUnencodable(history: seq<Entry>) {
    history != [] && (Unencodable(history[0]) || AnyUnencodable(history[1..]))
  }

  /** The list is refused exactly when one of its entries is. */
  lemma {:induction false} AnyUnencodableIff(history: seq<Entry>)
    ensures AnyUnencodable(history) <==> exists i :: 0 <= i < |history| && Unencodable(history[i])
  {
    if history != [] {
      AnyUnencodableIff(history[1..]);
      if !Unencodable(history[0]) && !AnyUnencodable(history[1..]) {
        forall i | 0 <= i < |history|
          ensures !Unencodable(history[i])
        {
          if i > 0 {
            assert history[i] == history[1..][i - 1];
          }
        }
      } else if !Unencodable(history[0]) {
        var j :| 0 <= j < |history[1..]| && Unencodable(history[1..][j]);
        assert history[j + 1] == history[1..][j];
      }
    }
  }

  const DecimalNotSerializable := Raised(TypeError, "Object of type Decimal is not JSON serializable")

  /** `get_history(event, context)` once `fetch_history()` returned
      `(history, active)`: the samples replace an empty list, an entry
      `json.dumps` refuses raises into the catch-all clause (see
      `HistoryLadderOutcome`), and `source` says whether the store was
      read. */
  function HistoryResponse(history: seq<Entry>, active: bool): (r: Reply<HistoryPayload>)
    ensures r.Ok? ==> r.payload.history != [] && (r.payload.source == "dynamodb" <==> active)
    ensures r.Error? ==> r.Status() == 500
  {
    var source := if active then "dynamodb" else "mock";
    if history == [] then Ok(HistoryPayload(Fallback, source))
    else if AnyUnencodable(history) then
      Error(500, "Internal server error", Some(DecimalNotSerializable.Text()))
    else Ok(HistoryPayload(seq(|history|, i requires 0 <= i < |history| => Stored(history[i])), source))
  }

  /** The response: 200 exactly when the list is empty or every entry can
      be encoded; the list is the samples when nothing came back and the
      entries, in order, otherwise; `source` is `dynamodb` exactly when
      the store was read, even when the samples are shown. A 500 is what
      the handler's `except Exception` clause answers to the encoder's
      `TypeError`. */
  lemma HistoryOutcome(history: seq<Entry>, active: bool)
    ensures var r := HistoryResponse(history, active);
      && (r.Ok? <==> history == [] || forall i :: 0 <= i < |history| ==> !Unencodable(history[i]))
      && (r.Ok? ==> (r.payload.source == "dynamodb" <==> active) && (r.payload.source == "mock" <==> !active))
      && (r.Ok? && history == [] ==> r.payload.history == Fallback)
      && (r.Ok? && history != [] ==>
            |r.payload.history| == |history|
            && forall i :: 0 <= i < |history| ==> r.payload.history[i] == Stored(history[i]))
      && (r.Error? ==> r == Error(500, "Internal server error", Some("Object of type Decimal is not JSON serializable")))
      && (r.Error? ==> Dispatch<HistoryPayload>(HistoryLadder, DecimalNotSerializable) == Some(r))
  {
    AnyUnencodableIff(history);
    HistoryLadderOutcome<HistoryPayload>(DecimalNotSerializable);
  }

  /** The handler, reading at most `HistoryLimit` records from the store. */
  method GetHistory(store: HistoryStore, probeOk: bool, callOk: bool) returns (response: Reply<HistoryPayload>)
    requires store.Valid()
    modifies store
    ensures store.Valid() && store.table == old(store.table)
    ensures (store.checked, store.available) == Probe(old(store.checked), old(store.available), store.supported, probeOk)
    ensures store.available && callOk ==> response == HistoryResponse(Recent(store.table, HistoryLimit), true)
    ensures !(store.available && callOk) ==> response == HistoryResponse([], false)
  {
    var history, active := store.FetchHistory(HistoryLimit, probeOk, callOk);
    response := HistoryResponse(history, active);
  }

  /** Entries that all encode are listed as they are, in order. */
  lemma EncodableHistoryListed(history: seq<Entry>)
    requires history != []
    requires forall i :: 0 <= i < |history| ==> !Unencodable(history[i])
    ensures var r := HistoryResponse(history, true);
      && r.Ok? && r.payload.source == "dynamodb"
      && |r.payload.history| == |history|
      && forall i :: 0 <= i < |history| ==> r.payload.history[i] == Stored(history[i])
  {
    AnyUnencodableIff(history);
  }

  /** Read from a store whose records all encode, the history lists the
      newest records, newest first, at most `HistoryLimit` of them, from
      `dynamodb`. */
  lemma StoredHistoryNewestFirst(table: map<string, Item>)
    requires table != map[]
    requires forall k :: k in table ==> !Unencodable(EntryOf(k, table[k]))
    ensures var history := Recent(table, HistoryLimit);
      var r := HistoryResponse(history, true);
      && r.Ok? && r.payload.source == "dynamodb"
      && |r.payload.history| == |history| == (if |table| < HistoryLimit then |table| else HistoryLimit)
      && (forall i :: 0 <= i < |history| ==> r.payload.history[i] == Stored(history[i]) && history[i].id in table)
      && (forall i, j :: 0 <= i < j < |history| ==> Before(history[j].id, history[i].id))
  {
    var history := Recent(table, HistoryLimit);
    RecentListsStored(table, HistoryLimit);
    assert |table| > 0 by {
      var k :| k in table;
    }
    forall i | 0 <= i < |history|
      ensures !Unencodable(history[i])
    {
      var k := history[i].id;
      assert history[i] == EntryOf(k, table[k]);
    }
    EncodableHistoryListed(history);
  }

  /** A record whose `last_updated` is a number (a provider that sent only
      the numeric `time_last_update`) breaks the history: as long as it is
      the newest record, every read answers 500. */
  lemma NumericUpdateTimeBreaksHistory(table: map<string, Item>, key: string, n: int)
    requires key in table && table[key].lastUpdated == Plain(JInt(n))
    requires IsNewest(key, table.Keys)
    ensures HistoryResponse(Recent(table, HistoryLimit), true)
      == Error(500, "Internal server error", Some("Object of type Decimal is not JSON serializable"))
  {
    var history := Recent(table, HistoryLimit);
    NewestRecordFirst(table, HistoryLimit, key);
    assert Unencodable(history[0]);
    HistoryOutcome(history, true);
  }
}
