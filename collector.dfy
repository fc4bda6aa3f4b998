/**
 * The batch collector (valenbisi.py): paginated extraction, the transform into
 * table rows with one shared capture time, and the all-or-nothing loader.
 */
module Collector {
  import opened Wrappers
  import opened JsonValue
  import opened Table

  // ---------------------------------------------------------------- Extract

  /** The page size requested with `limit=`. */
  const Limit: nat := 100

  /** What one request `?limit=100&offset=o` yields: the `results` of the page, or a request error. */
  datatype Page<T> = Served(batch: seq<T>) | RequestFailed

  /** The page at index `j`, fetched with offset `j * Limit`. */
  function PageAt<T>(fetch: nat -> Page<T>, j: nat): Page<T>
  {
    fetch(j * Limit)
  }

  /** A page after which the loop stops: an error, an empty page or a short page. */
  predicate Ends<T>(p: Page<T>)
  {
    p.RequestFailed? || |p.batch| < Limit
  }

  /** Page `n` is the first page that ends the loop. */
  predicate IsLastPage<T>(fetch: nat -> Page<T>, n: nat)
  {
    Ends(PageAt(fetch, n)) && forall j :: 0 <= j < n ==> !Ends(PageAt(fetch, j))
  }

  function Records<T>(p: Page<T>): seq<T>
  {
    if p.Served? then p.batch else []
  }

  /** The records of pages 0 .. n-1, concatenated in request order. */
  function Flatten<T>(fetch: nat -> Page<T>, n: nat): seq<T>
  {
    if n == 0 then [] else Flatten(fetch, n - 1) + Records(PageAt(fetch, n - 1))
  }

  /**
   * `extract_data_from_api`: requests offsets 0, 100, 200, ... until the first
   * page that is empty, short or failed. The result is every record fetched,
   * in order, or [] if that last request failed. `requested` is the log of
   * requested offsets.
   */
  method ExtractDataFromApi<T>(fetch: nat -> Page<T>) returns (records: seq<T>, ghost requested: seq<nat>)
    requires exists k: nat :: Ends(PageAt(fetch, k))
    ensures |requested| > 0 && IsLastPage(fetch, |requested| - 1)
    ensures forall j :: 0 <= j < |requested| ==> requested[j] == j * Limit
    ensures records == if PageAt(fetch, |requested| - 1).RequestFailed? then [] else Flatten(fetch, |requested|)
    ensures exists last: nat ::
      && IsLastPage(fetch, last)
      && records == if PageAt(fetch, last).RequestFailed? then [] else Flatten(fetch, last + 1)
  {
    ghost var k: nat :| Ends(PageAt(fetch, k));
    var allRecords: seq<T> := [];
    var offset := 0;
    requested := [];
    while true
      invariant offset == |requested| * Limit && |requested| <= k
      invariant forall j :: 0 <= j < |requested| ==> requested[j] == j * Limit && !Ends(PageAt(fetch, j))
      invariant allRecords == Flatten(fetch, |requested|)
      decreases k - |requested|
    {
      ghost var index := |requested|;
      requested := requested + [offset];
      var page := fetch(offset);
      assert page == PageAt(fetch, index);
      if page.RequestFailed? {
        return [], requested;
      }
      var batch := page.batch;
      if |batch| == 0 {
        assert allRecords == Flatten(fetch, index) + batch;
        break;
      }
      allRecords := allRecords + batch;
      if |batch| < Limit {
        break;
      }
      offset := offset + Limit;
    }
    records := allRecords;
    assert IsLastPage(fetch, |requested| - 1);
  }

  /** The source serves consecutive 100-record slices of the fixed list `all`. */
  ghost predicate ServesSlices<T>(fetch: nat -> Page<T>, all: seq<T>)
  {
    forall j: nat :: PageAt(fetch, j) == Served(Slice(all, j))
  }

  /** The `j`-th block of 100 records of `all` (shorter or empty at the end). */
  function Slice<T>(all: seq<T>, j: nat): seq<T>
  {
    all[Min(Offset(j), |all|)..Min(Offset(j) + Limit, |all|)]
  }

  /** The offset of page `j`, counted up by one page at a time. */
  function Offset(j: nat): nat
  {
    if j == 0 then 0 else Offset(j - 1) + Limit
  }

  lemma {:induction false} OffsetIsProduct(j: nat)
    ensures Offset(j) == j * Limit
  {
    if j > 0 {
      OffsetIsProduct(j - 1);
    }
  }

  function Min(a: int, b: int): int
  {
    if a <= b then a else b
  }

  /** Served slices of a fixed list: the first short page is page |all| / 100. */
  lemma SlicesLastPage<T>(fetch: nat -> Page<T>, all: seq<T>)
    requires ServesSlices(fetch, all)
    ensures IsLastPage(fetch, |all| / Limit)
  {
    var n := |all| / Limit;
    OffsetIsProduct(n);
    assert PageAt(fetch, n).batch == Slice(all, n);
    forall j: nat | j < n
      ensures !Ends(PageAt(fetch, j))
    {
      OffsetIsProduct(j);
      assert j * Limit + Limit <= n * Limit;
      assert PageAt(fetch, j).batch == Slice(all, j);
    }
  }

  lemma {:induction false} SlicesFlatten<T>(fetch: nat -> Page<T>, all: seq<T>, n: nat)
    requires ServesSlices(fetch, all)
    ensures Flatten(fetch, n) == all[..Min(Offset(n), |all|)]
  {
    if n > 0 {
      SlicesFlatten(fetch, all, n - 1);
      SlicesFlattenStep(fetch, all, n);
      PrefixSplit(all, Min(Offset(n - 1), |all|), Min(Offset(n), |all|));
    }
  }

  /** Page `n - 1` of such a source appends the next slice. */
  lemma SlicesFlattenStep<T>(fetch: nat -> Page<T>, all: seq<T>, n: nat)
    requires ServesSlices(fetch, all) && n > 0
    ensures Flatten(fetch, n) == Flatten(fetch, n - 1) + all[Min(Offset(n - 1), |all|)..Min(Offset(n), |all|)]
  {
    assert PageAt(fetch, n - 1) == Served(Slice(all, n - 1));
  }

  lemma PrefixSplit<T>(s: seq<T>, lo: nat, hi: nat)
    requires lo <= hi <= |s|
    ensures s[..lo] + s[lo..hi] == s[..hi]
  {
  }

  /**
   * If the source serves consecutive slices of a fixed list, extraction
   * stops at page |all| / 100 and the records fetched are the whole list.
   */
  lemma SlicesExtractWhole<T>(fetch: nat -> Page<T>, all: seq<T>, last: nat)
    requires ServesSlices(fetch, all) && IsLastPage(fetch, last)
    ensures last == |all| / Limit
    ensures PageAt(fetch, last).Served? && Flatten(fetch, last + 1) == all
  {
    SlicesLastPage(fetch, all);
    SlicesFlatten(fetch, all, last + 1);
    OffsetIsProduct(last + 1);
    assert all[..|all|] == all;
  }

  /** Extraction over a source that serves slices of a fixed list returns exactly that list. */
  method ExtractWholeList<T>(fetch: nat -> Page<T>, ghost all: seq<T>) returns (records: seq<T>)
    requires ServesSlices(fetch, all)
    ensures records == all
  {
    SlicesLastPage(fetch, all);
    ghost var requested;
    records, requested := ExtractDataFromApi(fetch);
    SlicesExtractWhole(fetch, all, |requested| - 1);
  }

  /** Pages of 100, 100, 100 and 40 records: the loop stops after the fourth, with 340 records. */
  lemma FourPagesExample<T>(fetch: nat -> Page<T>)
    requires PageAt(fetch, 0).Served? && |PageAt(fetch, 0).batch| == 100
    requires PageAt(fetch, 1).Served? && |PageAt(fetch, 1).batch| == 100
    requires PageAt(fetch, 2).Served? && |PageAt(fetch, 2).batch| == 100
    requires PageAt(fetch, 3).Served? && |PageAt(fetch, 3).batch| == 40
    ensures IsLastPage(fetch, 3) && |Flatten(fetch, 4)| == 340
  {
    assert |Flatten(fetch, 1)| == 100;
    assert |Flatten(fetch, 2)| == 200;
    assert |Flatten(fetch, 3)| == 300;
  }

  // -------------------------------------------------------------- Transform

  /** The status rule of the transform: OPEN only for the string "T" or the boolean True. */
  function FlagStatus(open: Json): Status
  {
    if open == JStr("T") || open == JBool(true) then Open else Closed
  }

  /** "T" and True give OPEN; "F", False and a missing flag give CLOSED. */
  lemma FlagStatusHonoursFlags()
    ensures FlagStatus(JStr("T")) == Open && FlagStatus(JBool(true)) == Open
    ensures FlagStatus(JStr("F")) == Closed && FlagStatus(JBool(false)) == Closed
    ensures FlagStatus(JNull) == Closed && FlagStatus(JInt(1)) == Closed
  {
  }

  /**
   * The tuple built for one raw record, or None when building it raises:
   * the record is not a dict, `geo_point_2d` is present but not a dict, or
   * `int()` fails on a present `available`, `free` or `total` value.
   */
  function Normalize(item: Json, queryTime: Instant): Option<Row>
  {
    if !item.JObject? then None
    else
      var fields := item.fields;
      var geo := GetOr(fields, "geo_point_2d", JObject(map[]));
      var bikes := IntOf(GetOr(fields, "available", JInt(0)));
      var slots := IntOf(GetOr(fields, "free", JInt(0)));
      var total := IntOf(GetOr(fields, "total", JInt(0)));
      if !geo.JObject? || bikes.None? || slots.None? || total.None? then None
      else
        Some(Row(
          Get(fields, "number"),
          Get(fields, "address"),
          Get(geo.fields, "lat"),
          Get(geo.fields, "lon"),
          bikes.value,
          slots.value,
          FlagStatus(Get(fields, "open")),
          total.value,
          queryTime))
  }

  /** The field mapping of one record, for a record that normalises. */
  lemma NormalizeFields(fields: map<string, Json>, queryTime: Instant)
    requires Normalize(JObject(fields), queryTime).Some?
    ensures var r := Normalize(JObject(fields), queryTime).value;
      && r.stationId == Get(fields, "number")
      && r.stationName == Get(fields, "address")
      && ("geo_point_2d" !in fields ==> r.latitude == JNull && r.longitude == JNull)
      && ("geo_point_2d" in fields ==>
            && fields["geo_point_2d"].JObject?
            && r.latitude == Get(fields["geo_point_2d"].fields, "lat")
            && r.longitude == Get(fields["geo_point_2d"].fields, "lon"))
      && ("available" !in fields ==> r.availableBikes == 0)
      && ("free" !in fields ==> r.availableSlots == 0)
      && ("total" !in fields ==> r.totalCapacity == 0)
      && ("available" in fields ==> Some(r.availableBikes) == IntOf(fields["available"]))
      && ("free" in fields ==> Some(r.availableSlots) == IntOf(fields["free"]))
      && ("total" in fields ==> Some(r.totalCapacity) == IntOf(fields["total"]))
      && (r.status == Open <==> "open" in fields && (fields["open"] == JStr("T") || fields["open"] == JBool(true)))
      && r.timestamp == queryTime
  {
  }

  /** Exactly the records that are not dicts, or carry a malformed geo point or count, make the transform raise. */
  lemma NormalizeFails(item: Json, queryTime: Instant)
    ensures Normalize(item, queryTime).None? <==>
      || !item.JObject?
      || (var fields := item.fields;
          || ("geo_point_2d" in fields && !fields["geo_point_2d"].JObject?)
          || ("available" in fields && IntOf(fields["available"]).None?)
          || ("free" in fields && IntOf(fields["free"]).None?)
          || ("total" in fields && IntOf(fields["total"]).None?))
  {
  }

  /**
   * `transform_data`: one row per raw record, in order, all stamped with the
   * single `queryTime`; None when building some record's tuple raises.
   */
  method TransformData(rawRecords: seq<Json>, queryTime: Instant) returns (cleanData: Option<seq<Row>>)
    ensures cleanData.None? <==> exists i :: 0 <= i < |rawRecords| && Normalize(rawRecords[i], queryTime).None?
    ensures cleanData.Some? ==> |cleanData.value| == |rawRecords|
    ensures cleanData.Some? ==> forall i :: 0 <= i < |rawRecords| ==> Normalize(rawRecords[i], queryTime) == Some(cleanData.value[i])
    ensures cleanData.Some? ==> forall i, j :: 0 <= i < j < |cleanData.value| ==> cleanData.value[i].timestamp == cleanData.value[j].timestamp == queryTime
  {
    var rows: seq<Row> := [];
    for i := 0 to |rawRecords|
      invariant |rows| == i
      invariant forall j :: 0 <= j < i ==> Normalize(rawRecords[j], queryTime) == Some(rows[j])
      invariant forall j :: 0 <= j < i ==> rows[j].timestamp == queryTime
    {
      var record := Normalize(rawRecords[i], queryTime);
      if record.None? {
        return None;
      }
      rows := rows + [record.value];
    }
    return Some(rows);
  }

  // ------------------------------------------------------------------- Load

  /**
   * `load_data_to_db`: nothing for an empty batch or an unreachable store;
   * otherwise one connection, one multi-row insert and one commit, so the
   * table gains the whole batch in order or nothing at all. The connection
   * opened, if any, is returned closed.
   */
  method LoadDataToDb(store: Store, data: seq<Row>, reachable: bool) returns (conn: Connection?)
    modifies store
    ensures conn != null <==> data != [] && reachable
    ensures conn != null ==> fresh(conn) && conn.store == store && conn.closed && conn.pending == []
    ensures store.rows == if conn != null && AllAdmitted(store.admits, data) then old(store.rows) + data else old(store.rows)
  {
    if data == [] {
      return null;
    }
    if !reachable {
      return null;
    }
    conn := new Connection.Open(store);
    var ok := conn.ExecuteBatch(data);
    if ok {
      conn.Commit();
    }
    conn.Close();
  }
}
