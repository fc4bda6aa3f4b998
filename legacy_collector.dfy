/**
 * The earlier, per-row collector (VALENCIA/valenbisi.py): `save_to_db` walks
 * the `results` of one API response over a long-lived connection, inserting
 * one row per station, rolling back on any failing station and committing
 * once at the end.
 */
module LegacyCollector {
  import opened Wrappers
  import opened JsonValue
  import opened Table
  import Collector

  // ------------------------------------------------------- one station row

  /** The status rule of this collector: OPEN whenever the flag is truthy. */
  function TruthyStatus(open: Json): Status
  {
    if Truthy(open) then Open else Closed
  }

  /**
   * The row built for one station dict, or None when building it raises:
   * `number` missing or not int-convertible, `position` present but not a
   * dict, or `int()` failing on a present `available`, `free` or `total`.
   * A missing `open` flag defaults to True.
   */
  function RowOf(fields: map<string, Json>, now: Instant): Option<Row>
  {
    var number := IntOf(Get(fields, "number"));
    var position := GetOr(fields, "position", JObject(map[]));
    var bikes := IntOf(GetOr(fields, "available", JInt(0)));
    var slots := IntOf(GetOr(fields, "free", JInt(0)));
    var total := IntOf(GetOr(fields, "total", JInt(0)));
    if number.None? || !position.JObject? || bikes.None? || slots.None? || total.None? then None
    else
      Some(Row(
        JInt(number.value),
        Get(fields, "address"),
        Get(position.fields, "lat"),
        Get(position.fields, "lon"),
        bikes.value,
        slots.value,
        TruthyStatus(GetOr(fields, "open", JBool(true))),
        total.value,
        now))
  }

  /** The field mapping of one station that yields a row. */
  lemma RowOfFields(fields: map<string, Json>, now: Instant)
    requires RowOf(fields, now).Some?
    ensures var r := RowOf(fields, now).value;
      && "number" in fields && Some(r.stationId.i) == IntOf(fields["number"]) && r.stationId.JInt?
      && r.stationName == Get(fields, "address")
      && ("position" !in fields ==> r.latitude == JNull && r.longitude == JNull)
      && ("position" in fields ==>
            && fields["position"].JObject?
            && r.latitude == Get(fields["position"].fields, "lat")
            && r.longitude == Get(fields["position"].fields, "lon"))
      && ("available" !in fields ==> r.availableBikes == 0)
      && ("free" !in fields ==> r.availableSlots == 0)
      && ("total" !in fields ==> r.totalCapacity == 0)
      && ("open" !in fields ==> r.status == Open)
      && ("open" in fields ==> (r.status == Open <==> Truthy(fields["open"])))
      && r.timestamp == now
  {
  }

  /** Exactly these stations make the body of the `try` raise. */
  lemma RowOfFails(fields: map<string, Json>, now: Instant)
    ensures RowOf(fields, now).None? <==>
      || IntOf(Get(fields, "number")).None?
      || ("position" in fields && !fields["position"].JObject?)
      || ("available" in fields && IntOf(fields["available"]).None?)
      || ("free" in fields && IntOf(fields["free"]).None?)
      || ("total" in fields && IntOf(fields["total"]).None?)
  {
  }

  // ------------------------------------------------ the per-row loop, as a spec

  /**
   * What one station dict comes to in the loop: the row it inserts, or None
   * when building the row raises or the store refuses the insert.
   */
  function Attempt(admits: Row -> bool, item: Json, now: Instant): Option<Row>
  {
    if !item.JObject? then None
    else
      match RowOf(item.fields, now)
      case None => None
      case Some(row) => if admits(row) then Some(row) else None
  }

  /** The outcomes of the stations of `items`, in order. */
  function Attempts(admits: Row -> bool, items: seq<Json>, now: Instant): (outcomes: seq<Option<Row>>)
    ensures |outcomes| == |items|
  {
    if items == [] then []
    else Attempts(admits, items[..|items| - 1], now) + [Attempt(admits, items[|items| - 1], now)]
  }

  /** The outcome at index `j` is the attempt of station `j`. */
  lemma {:induction false} AttemptsAt(admits: Row -> bool, items: seq<Json>, now: Instant, j: nat)
    requires j < |items|
    ensures Attempts(admits, items, now)[j] == Attempt(admits, items[j], now)
  {
    if j < |items| - 1 {
      AttemptsAt(admits, items[..|items| - 1], now, j);
    }
  }

  /** Processing one more station appends its outcome. */
  lemma AttemptsStep(admits: Row -> bool, items: seq<Json>, i: nat, now: Instant)
    requires i < |items|
    ensures Attempts(admits, items[..i + 1], now) == Attempts(admits, items[..i], now) + [Attempt(admits, items[i], now)]
  {
    assert items[..i + 1][..i] == items[..i];
  }

  /** The rows of the successful outcomes, in order. */
  function LandedRows(outcomes: seq<Option<Row>>): (rows: seq<Row>)
    ensures |rows| <= |outcomes|
  {
    if outcomes == [] then []
    else
      var last := outcomes[|outcomes| - 1];
      var earlier := LandedRows(outcomes[..|outcomes| - 1]);
      if last.Some? then earlier + [last.value] else earlier
  }

  /** Every landed row is the row of one of the outcomes. */
  lemma {:induction false} LandedRowsFromOutcomes(outcomes: seq<Option<Row>>, r: Row)
    requires r in LandedRows(outcomes)
    ensures Some(r) in outcomes
  {
    var n := |outcomes|;
    if r !in LandedRows(outcomes[..n - 1]) {
      assert outcomes[n - 1] == Some(r);
    } else {
      LandedRowsFromOutcomes(outcomes[..n - 1], r);
      assert outcomes[..n - 1] <= outcomes;
    }
  }

  /** Every row one call lands carries the call's single capture time. */
  lemma LandedRowsShareTime(admits: Row -> bool, items: seq<Json>, now: Instant)
    ensures forall r :: r in LandedRows(Attempts(admits, items, now)) ==> r.timestamp == now
  {
    var outcomes := Attempts(admits, items, now);
    forall r | r in LandedRows(outcomes)
      ensures r.timestamp == now
    {
      LandedRowsFromOutcomes(outcomes, r);
      var j :| 0 <= j < |outcomes| && outcomes[j] == Some(r);
      AttemptsAt(admits, items, now, j);
    }
  }

  /** The index of the last failed outcome, if any. */
  function LastFailure(outcomes: seq<Option<Row>>): (r: Option<nat>)
    ensures r.None? ==> forall j :: 0 <= j < |outcomes| ==> outcomes[j].Some?
    ensures r.Some? ==> r.value < |outcomes| && outcomes[r.value].None?
    ensures r.Some? ==> forall j :: r.value < j < |outcomes| ==> outcomes[j].Some?
  {
    if outcomes == [] then None
    else if outcomes[|outcomes| - 1].None? then Some(|outcomes| - 1)
    else LastFailure(outcomes[..|outcomes| - 1])
  }

  /**
   * The uncommitted rows after a run of outcomes on a transaction that held
   * `pending`: each failure rolls back everything uncommitted, so only the
   * rows landed after the last failure remain.
   */
  function Survivors(pending: seq<Row>, outcomes: seq<Option<Row>>): seq<Row>
  {
    match LastFailure(outcomes)
    case None => pending + LandedRows(outcomes)
    case Some(k) => LandedRows(outcomes[k + 1..])
  }

  lemma {:induction false} LandedRowsAppend(a: seq<Option<Row>>, b: seq<Option<Row>>)
    ensures LandedRows(a + b) == LandedRows(a) + LandedRows(b)
  {
    if b == [] {
      assert a + b == a;
    } else {
      var b' := b[..|b| - 1];
      assert (a + b)[..|a + b| - 1] == a + b';
      LandedRowsAppend(a, b');
    }
  }

  /** One more outcome: a success adds its row to the landed rows, a failure adds nothing. */
  lemma LandedRowsStep(outcomes: seq<Option<Row>>, o: Option<Row>)
    ensures LandedRows(outcomes + [o]) == if o.Some? then LandedRows(outcomes) + [o.value] else LandedRows(outcomes)
  {
    assert (outcomes + [o])[..|outcomes|] == outcomes;
  }

  /** One more outcome: a success adds its row to the survivors, a failure wipes them out. */
  lemma SurvivorsStep(pending: seq<Row>, outcomes: seq<Option<Row>>, o: Option<Row>)
    ensures Survivors(pending, outcomes + [o]) ==
      if o.Some? then Survivors(pending, outcomes) + [o.value] else []
  {
    var s := outcomes + [o];
    assert s[..|s| - 1] == outcomes;
    if o.Some? {
      match LastFailure(outcomes)
      case None =>
        LandedRowsStep(outcomes, o);
      case Some(k) =>
        assert s[k + 1..] == outcomes[k + 1..] + [o];
        LandedRowsStep(outcomes[k + 1..], o);
    } else {
      assert s[|s|..] == [];
    }
  }

  /**
   * What the `records_inserted` counter overstates: after the last failure
   * at index k, the durable rows are those landed after k, and the counter
   * also counts every row landed before k, which a rollback discarded.
   */
  lemma CounterOverstatesAfterRollback(pending: seq<Row>, outcomes: seq<Option<Row>>, k: nat)
    requires LastFailure(outcomes) == Some(k)
    ensures Survivors(pending, outcomes) == LandedRows(outcomes[k + 1..])
    ensures |LandedRows(outcomes)| == |LandedRows(outcomes[..k])| + |Survivors(pending, outcomes)|
  {
    assert outcomes == outcomes[..k] + [outcomes[k]] + outcomes[k + 1..];
    LandedRowsAppend(outcomes[..k] + [outcomes[k]], outcomes[k + 1..]);
    LandedRowsAppend(outcomes[..k], [outcomes[k]]);
    assert LandedRows([outcomes[k]]) == [] by {
      assert [outcomes[k]][..0] == [];
    }
  }

  /** A run in which exactly one station fails lands all the others. */
  lemma {:induction false} OneBadRowAmongGood(outcomes: seq<Option<Row>>, bad: nat)
    requires bad < |outcomes| && outcomes[bad].None?
    requires forall j :: 0 <= j < |outcomes| && j != bad ==> outcomes[j].Some?
    ensures |LandedRows(outcomes)| == |outcomes| - 1
  {
    var prefix := outcomes[..|outcomes| - 1];
    if bad == |outcomes| - 1 {
      AllLand(prefix);
    } else {
      OneBadRowAmongGood(prefix, bad);
    }
  }

  /** A run without failures lands every station. */
  lemma {:induction false} AllLand(outcomes: seq<Option<Row>>)
    requires forall j :: 0 <= j < |outcomes| ==> outcomes[j].Some?
    ensures |LandedRows(outcomes)| == |outcomes|
  {
    if outcomes != [] {
      AllLand(outcomes[..|outcomes| - 1]);
    }
  }

  // ------------------------------------------------------------ save_to_db

  /** How a call of `save_to_db` ends. */
  datatype SaveOutcome =
    | NoResults  // returned early: no data, or no `results` key
    | Saved      // the loop finished and the single commit ran
    | Raised     // an exception escaped the loop; no commit

  /** `if not data or 'results' not in data` does not return early. */
  predicate HasResults(data: Option<map<string, Json>>)
  {
    data.Some? && data.value != map[] && "results" in data.value
  }

  /**
   * The items `for item in data['results']` visits, when iterating cannot
   * raise before the first insert. A list is visited element by element. An
   * empty string or dict gives no iteration. Any other value raises at once:
   * None and numbers are not iterable, and the first element of a non-empty
   * string or dict is a string, on which `.get` raises in the `try` and again
   * in the `except` clause, before any insert.
   */
  function Iteration(results: Json): (r: Option<seq<Json>>)
    ensures r.Some? <==> results.JArray? || results == JStr("") || results == JObject(map[])
    ensures results.JArray? ==> r == Some(results.items)
    ensures r.Some? && !results.JArray? ==> r.value == []
  {
    match results
    case JArray(items) => Some(items)
    case JStr(s) => if s == "" then Some([]) else None
    case JObject(m) => if m == map[] then Some([]) else None
    case _ => None
  }

  /** The number of leading items that are dicts. */
  function ObjectPrefix(items: seq<Json>): (n: nat)
    ensures n <= |items|
  {
    if items == [] || !items[0].JObject? then 0 else 1 + ObjectPrefix(items[1..])
  }

  /** Where the loop stands at index `i`: the next item extends the prefix of dicts or ends it. */
  lemma {:induction false} ObjectPrefixAt(items: seq<Json>, i: nat)
    requires i <= ObjectPrefix(items) && i < |items|
    ensures items[i].JObject? <==> i < ObjectPrefix(items)
  {
    if i > 0 {
      ObjectPrefixAt(items[1..], i - 1);
    }
  }

  /** The stations the loop processes: all items before the first non-dict, which raises. */
  function Processed(results: Json): seq<Json>
  {
    match Iteration(results)
    case None => []
    case Some(items) => items[..ObjectPrefix(items)]
  }

  /** An exception escapes the loop over `results`. */
  predicate LoopRaises(results: Json)
  {
    match Iteration(results)
    case None => true
    case Some(items) => ObjectPrefix(items) < |items|
  }

  /**
   * The `try`/`except` body of the loop for one station dict: build the row,
   * insert it, and on any failure `conn.rollback()`.
   */
  method TryStation(conn: Connection, item: Json, now: Instant) returns (landed: bool)
    requires item.JObject? && !conn.closed && !conn.aborted
    modifies conn
    ensures landed == Attempt(conn.store.admits, item, now).Some?
    ensures conn.pending == if landed then old(conn.pending) + [Attempt(conn.store.admits, item, now).value] else []
    ensures !conn.closed && !conn.aborted
  {
    var row := RowOf(item.fields, now);
    if row.None? {
      conn.Rollback();
      return false;
    }
    landed := conn.Execute(row.value);
    if !landed {
      conn.Rollback();
    }
  }

  /**
   * The `for item in data['results']` loop of SaveToDb over the items of an
   * iterable: it raises at the first item that is not a dict.
   */
  method InsertStations(conn: Connection, items: seq<Json>, now: Instant) returns (raised: bool, recordsInserted: nat)
    requires !conn.closed && !conn.aborted
    modifies conn
    ensures !conn.closed && !conn.aborted
    ensures raised <==> ObjectPrefix(items) < |items|
    ensures var outcomes := Attempts(conn.store.admits, items[..ObjectPrefix(items)], now);
      && recordsInserted == |LandedRows(outcomes)|
      && conn.pending == Survivors(old(conn.pending), outcomes)
  {
    ghost var pending0 := conn.pending;
    ghost var outcomes: seq<Option<Row>> := [];
    ghost var landedRows: seq<Row> := [];
    var admits := conn.store.admits;
    recordsInserted := 0;
    var i := 0;
    while i < |items|
      invariant 0 <= i <= |items|
      invariant i <= ObjectPrefix(items)
      invariant !conn.closed && !conn.aborted
      invariant outcomes == Attempts(admits, items[..i], now)
      invariant conn.pending == Survivors(pending0, outcomes)
      invariant landedRows == LandedRows(outcomes)
      invariant recordsInserted == |landedRows|
    {
      var item := items[i];
      ObjectPrefixAt(items, i);
      if !item.JObject? {
        // the `except` clause's own `item.get('number')` raises
        assert i == ObjectPrefix(items);
        return true, recordsInserted;
      }
      ghost var outcome := Attempt(admits, item, now);
      AttemptsStep(admits, items, i, now);
      LandedRowsStep(outcomes, outcome);
      SurvivorsStep(pending0, outcomes, outcome);
      var landed := TryStation(conn, item, now);
      if landed {
        recordsInserted := recordsInserted + 1;
        landedRows := landedRows + [outcome.value];
      }
      outcomes := outcomes + [outcome];
      i := i + 1;
    }
    assert items[..i] == items[..ObjectPrefix(items)];
    raised := false;
  }

  /**
   * `save_to_db`: a station that fails (its row cannot be built or its
   * insert is refused) triggers `conn.rollback()`, which discards every
   * uncommitted insert, and the loop continues; one commit at the end makes
   * durable only the rows landed after the last failure. The counter
   * `records_inserted` counts every landed row, rolled back or not.
   */
  method SaveToDb(conn: Connection, data: Option<map<string, Json>>, now: Instant)
    returns (outcome: SaveOutcome, recordsInserted: nat)
    requires !conn.closed && !conn.aborted
    modifies conn, conn.store
    ensures !conn.closed && !conn.aborted
    ensures outcome == NoResults <==> !HasResults(data)
    ensures outcome == NoResults ==>
      recordsInserted == 0 && conn.pending == old(conn.pending) && conn.store.rows == old(conn.store.rows)
    ensures HasResults(data) ==>
      var results := data.value["results"];
      var outcomes := Attempts(conn.store.admits, Processed(results), now);
      var kept := Survivors(old(conn.pending), outcomes);
      && recordsInserted == |LandedRows(outcomes)| <= |Processed(results)|
      && (outcome == Raised <==> LoopRaises(results))
      && (outcome == Raised ==> conn.pending == kept && conn.store.rows == old(conn.store.rows))
      && (outcome == Saved ==> conn.pending == [] && conn.store.rows == old(conn.store.rows) + kept)
  {
    if !HasResults(data) {
      return NoResults, 0;
    }
    var results := data.value["results"];
    var iteration := Iteration(results);
    if iteration.None? {
      assert Attempts(conn.store.admits, [], now) == [];
      assert conn.pending == old(conn.pending) + [];
      return Raised, 0;
    }
    var raised;
    raised, recordsInserted := InsertStations(conn, iteration.value, now);
    if raised {
      return Raised, recordsInserted;
    }
    conn.Commit();
    outcome := Saved;
  }

  // ------------------------------------------------ findings and corrections

  /** The truthiness rule opens a station whose flag is the string "F"; the flag rule closes it. */
  lemma TruthyStatusOpensClosedFlag()
    ensures TruthyStatus(JStr("F")) == Open
    ensures Collector.FlagStatus(JStr("F")) == Closed
  {
  }

  /**
   * One good station followed by one whose `number` is missing: the good
   * row is landed and counted, and then the rollback discards it, so the
   * commit makes nothing durable.
   */
  lemma RollbackDiscardsEarlierRows(now: Instant)
    ensures var admitsAll := (r: Row) => true;
      var outcomes := Attempts(admitsAll, [JObject(map["number" := JInt(1)]), JObject(map[])], now);
      && |LandedRows(outcomes)| == 1
      && Survivors([], outcomes) == []
  {
    var admitsAll := (r: Row) => true;
    var good, bad := JObject(map["number" := JInt(1)]), JObject(map[]);
    var outcomes := Attempts(admitsAll, [good, bad], now);
    assert outcomes[0].Some? by {
      assert RowOf(good.fields, now).Some?;
    }
    assert outcomes[1].None?;
    assert outcomes[..1] == [outcomes[0]];
    assert [outcomes[0]][..0] == [];
    assert outcomes[2..] == [];
  }

  /**
   * Results whose second item is not a dict: the first station is processed,
   * and then the `except` clause's own `item.get('number')` raises out of
   * the loop, so the call ends without a commit.
   */
  lemma NonDictItemAbortsSave()
    ensures var results := JArray([JObject(map["number" := JInt(1)]), JInt(5)]);
      && LoopRaises(results)
      && Processed(results) == [JObject(map["number" := JInt(1)])]
  {
    var items := [JObject(map["number" := JInt(1)]), JInt(5)];
    assert items[1..][1..] == [];
    assert ObjectPrefix(items) == 1;
  }

  /** The items the corrected loop visits: every item of a list, or none. */
  function Stations(results: Json): seq<Json>
  {
    match Iteration(results)
    case None => []
    case Some(items) => items
  }

  /**
   * One item under a savepoint, with an `except` clause that does not
   * assume a dict: an item that is not a dict, or whose row fails, rolls
   * back only its own work.
   */
  method TryStationIsolated(conn: Connection, item: Json, now: Instant) returns (landed: bool)
    requires !conn.closed && !conn.aborted
    modifies conn
    ensures landed == Attempt(conn.store.admits, item, now).Some?
    ensures conn.pending == if landed then old(conn.pending) + [Attempt(conn.store.admits, item, now).value] else old(conn.pending)
    ensures !conn.closed && !conn.aborted
  {
    var savepoint := |conn.pending|;
    if !item.JObject? {
      conn.RollbackTo(savepoint);
      return false;
    }
    var row := RowOf(item.fields, now);
    if row.None? {
      conn.RollbackTo(savepoint);
      return false;
    }
    landed := conn.Execute(row.value);
    if !landed {
      conn.RollbackTo(savepoint);
    }
  }

  /** The corrected loop over the items: every item is attempted, none raises. */
  method InsertStationsIsolated(conn: Connection, items: seq<Json>, now: Instant) returns (recordsInserted: nat)
    requires !conn.closed && !conn.aborted
    modifies conn
    ensures !conn.closed && !conn.aborted
    ensures var landed := LandedRows(Attempts(conn.store.admits, items, now));
      && recordsInserted == |landed|
      && conn.pending == old(conn.pending) + landed
  {
    ghost var pending0 := conn.pending;
    ghost var outcomes: seq<Option<Row>> := [];
    ghost var landedRows: seq<Row> := [];
    var admits := conn.store.admits;
    recordsInserted := 0;
    for i := 0 to |items|
      invariant !conn.closed && !conn.aborted
      invariant outcomes == Attempts(admits, items[..i], now)
      invariant landedRows == LandedRows(outcomes)
      invariant conn.pending == pending0 + landedRows
      invariant recordsInserted == |landedRows|
    {
      ghost var outcome := Attempt(admits, items[i], now);
      AttemptsStep(admits, items, i, now);
      LandedRowsStep(outcomes, outcome);
      var landed := TryStationIsolated(conn, items[i], now);
      if landed {
        recordsInserted := recordsInserted + 1;
        assert conn.pending == pending0 + (landedRows + [outcome.value]);
        landedRows := landedRows + [outcome.value];
      }
      outcomes := outcomes + [outcome];
    }
    assert items[..|items|] == items;
  }

  /**
   * The corrected per-row policy: a savepoint before each item, so a
   * failing station rolls back only its own work, and an item that is not a
   * dict fails like any bad station instead of ending the call. Only a
   * `results` value that cannot be iterated into items raises; otherwise
   * the commit makes durable every row that landed.
   */
  method SaveToDbIsolated(conn: Connection, data: Option<map<string, Json>>, now: Instant)
    returns (outcome: SaveOutcome, recordsInserted: nat)
    requires !conn.closed && !conn.aborted
    modifies conn, conn.store
    ensures !conn.closed && !conn.aborted
    ensures outcome == NoResults <==> !HasResults(data)
    ensures outcome == NoResults ==>
      recordsInserted == 0 && conn.pending == old(conn.pending) && conn.store.rows == old(conn.store.rows)
    ensures HasResults(data) ==>
      var results := data.value["results"];
      var landed := LandedRows(Attempts(conn.store.admits, Stations(results), now));
      && recordsInserted == |landed|
      && (outcome == Raised <==> Iteration(results).None?)
      && (outcome == Raised ==> recordsInserted == 0 && conn.pending == old(conn.pending) && conn.store.rows == old(conn.store.rows))
      && (outcome == Saved ==> conn.pending == [] && conn.store.rows == old(conn.store.rows) + old(conn.pending) + landed)
  {
    if !HasResults(data) {
      return NoResults, 0;
    }
    var results := data.value["results"];
    var iteration := Iteration(results);
    if iteration.None? {
      assert Attempts(conn.store.admits, [], now) == [];
      return Raised, 0;
    }
    recordsInserted := InsertStationsIsolated(conn, iteration.value, now);
    conn.Commit();
    outcome := Saved;
  }
}
