/** The traffic counter object and the report over it, one call at a time (common/counter/traffic.go, core/xray/user.go). */
module TrafficCounters {
  import opened Wrappers

  class TrafficStorage {
    var up: int
    var down: int

    constructor ()
      ensures up == 0 && down == 0
    {
      up, down := 0, 0;
    }
  }

  datatype Row = Row(uid: int, upload: int, download: int)

  class TrafficCounter {
    var counters: map<string, TrafficStorage>
    var count: int

    /** The size is exact and no two users share a storage object. */
    ghost predicate Valid()
      reads this
    {
      && count == |counters|
      && Distinct(counters)
    }

    constructor ()
      ensures Valid() && counters == map[]
    {
      counters, count := map[], 0;
    }

    /** A user's storage object stays the same until it is deleted. */
    method GetCounter(uuid: string) returns (ts: TrafficStorage)
      requires Valid()
      modifies this
      ensures Valid() && uuid in counters && counters[uuid] == ts
      ensures uuid in old(counters) ==> counters == old(counters)
      ensures uuid !in old(counters) ==> fresh(ts) && ts.up == ts.down == 0 && counters == old(counters)[uuid := ts]
    {
      if uuid in counters {
        return counters[uuid];
      }
      ts := new TrafficStorage();
      assert counters[uuid := ts].Keys == counters.Keys + {uuid};
      counters := counters[uuid := ts];
      count := count + 1;
    }

    /** The storage object itself is untouched: whoever holds it may go on adding to it. */
    method Delete(uuid: string)
      requires Valid()
      modifies this
      ensures Valid() && counters == old(counters) - {uuid}
    {
      if uuid in counters {
        assert (counters - {uuid}).Keys == counters.Keys - {uuid};
        counters := counters - {uuid};
        count := count - 1;
      } else {
        assert counters - {uuid} == counters;
      }
    }

    method Reset(uuid: string)
      requires Valid()
      modifies set k | k in counters && k == uuid :: counters[k]
      ensures Valid() && (uuid in counters ==> counters[uuid].up == counters[uuid].down == 0)
    {
      if uuid in counters {
        counters[uuid].up := 0;
        counters[uuid].down := 0;
      }
    }

    method Tx(uuid: string, n: int)
      requires Valid()
      modifies this, set k | k in counters && k == uuid :: counters[k]
      ensures Valid() && uuid in counters && counters.Keys == old(counters).Keys + {uuid}
      ensures forall k :: k in old(counters) ==> counters[k] == old(counters)[k]
      ensures counters[uuid].up == n + (if uuid in old(counters) then old(counters[uuid].up) else 0)
      ensures counters[uuid].down == if uuid in old(counters) then old(counters[uuid].down) else 0
    {
      var cts := GetCounter(uuid);
      cts.up := cts.up + n;
    }

    method Rx(uuid: string, n: int)
      requires Valid()
      modifies this, set k | k in counters && k == uuid :: counters[k]
      ensures Valid() && uuid in counters && counters.Keys == old(counters).Keys + {uuid}
      ensures forall k :: k in old(counters) ==> counters[k] == old(counters)[k]
      ensures counters[uuid].down == n + (if uuid in old(counters) then old(counters[uuid].down) else 0)
      ensures counters[uuid].up == if uuid in old(counters) then old(counters[uuid].up) else 0
    {
      var cts := GetCounter(uuid);
      cts.down := cts.down + n;
    }

    method Len() returns (n: int)
      requires Valid()
      ensures n == |counters|
    {
      n := count;
    }

    /** The bytes of each entry. */
    ghost function Bytes(): map<string, (int, int)>
      reads this, counters.Values
    {
      map k | k in counters :: (counters[k].up, counters[k].down)
    }

    /** One entry of a report. */
    method ReportEntry(email: string, uids: map<string, int>, minBytes: int, reset: bool,
                       ghost was: map<string, TrafficStorage>, ghost bytes: map<string, (int, int)>, ghost todo: set<string>)
      returns (row: Option<Row>)
      requires Valid() && email in counters
      requires Distinct(was) && bytes.Keys == was.Keys && email in todo && email in was && was[email] == counters[email]
      requires Zeroed(was, bytes, minBytes, reset, todo)
      modifies this, counters[email]
      ensures Zeroed(was, bytes, minBytes, reset, todo - {email})
      ensures var ts, up, down := old(counters)[email], old(counters[email].up), old(counters[email].down);
        var over := Over((up, down), minBytes);
        && Valid()
        && counters == (if over && !Known(uids, email) then old(counters) - {email} else old(counters))
        && row == (if over && Known(uids, email) then Some(Row(uids[email], up, down)) else None)
        && ts.up == (if over && reset then 0 else up) && ts.down == (if over && reset then 0 else down)
    {
      var traffic := counters[email];
      var up, down := traffic.up, traffic.down;
      row := None;
      if up + down > minBytes {
        if reset {
          traffic.up := 0;
          traffic.down := 0;
        }
        if email !in uids || uids[email] == 0 {
          Delete(email);
        } else {
          row := Some(Row(uids[email], up, down));
        }
      }
    }

    /** The report has dealt with all entries but those in `todo`. */
    ghost predicate Progress(was: map<string, TrafficStorage>, bytes: map<string, (int, int)>, uids: map<string, int>,
                             minBytes: int, reset: bool, todo: set<string>, keys: seq<string>, rows: seq<Row>)
      reads this, was.Values
    {
      && Valid() && Distinct(was) && bytes.Keys == was.Keys && todo <= was.Keys
      && counters == was - (Unknown(bytes, uids, minBytes) - todo)
      && Zeroed(was, bytes, minBytes, reset, todo)
      && RowsFor(bytes, uids, minBytes, todo, keys, rows)
    }

    method Visit(email: string, uids: map<string, int>, minBytes: int, reset: bool, rows: seq<Row>,
                 ghost was: map<string, TrafficStorage>, ghost bytes: map<string, (int, int)>, ghost todo: set<string>, ghost keys: seq<string>)
      returns (rows': seq<Row>, ghost keys': seq<string>)
      requires Progress(was, bytes, uids, minBytes, reset, todo, keys, rows) && email in todo
      modifies this, was.Values
      ensures Progress(was, bytes, uids, minBytes, reset, todo - {email}, keys', rows')
    {
      RowsForMore(bytes, uids, minBytes, todo, keys, rows, email);
      GoneStep(was, Unknown(bytes, uids, minBytes), todo, email);
      var row := ReportEntry(email, uids, minBytes, reset, was, bytes, todo);
      rows', keys' := rows, keys;
      if row.Some? {
        rows', keys' := rows + [row.value], keys + [email];
      }
    }

    /**
     * One report.  Entries up to the threshold are carried forward as they are; those above it give
     * one row each, in any order, and are zeroed on `reset`, or leave the map for want of a uid.
     */
    method GetUserTrafficSlice(uids: map<string, int>, minBytes: int, reset: bool)
      returns (rows: seq<Row>, ghost keys: seq<string>)
      requires Valid()
      modifies this, counters.Values
      ensures Valid() && counters == old(counters) - Unknown(old(Bytes()), uids, minBytes)
      ensures Zeroed(old(counters), old(Bytes()), minBytes, reset, {})
      ensures RowsFor(old(Bytes()), uids, minBytes, {}, keys, rows)
    {
      rows, keys := [], [];
      ghost var was, bytes := counters, Bytes();
      var todo := counters.Keys;
      NothingGone(was, Unknown(bytes, uids, minBytes), todo);
      while todo != {}
        invariant Progress(was, bytes, uids, minBytes, reset, todo, keys, rows)
        decreases todo
      {
        var email :| email in todo;
        rows, keys := Visit(email, uids, minBytes, reset, rows, was, bytes, todo, keys);
        todo := todo - {email};
      }
      NothingLeft(Unknown(bytes, uids, minBytes), todo);
    }
  }

  /**
   * What a report comes to, entry by entry: above the threshold, in both directions together, a known user has
   * a row with its bytes and an unknown one leaves the map; only those entries are ever zeroed.
   */
  lemma ReportMeans(was: map<string, TrafficStorage>, bytes: map<string, (int, int)>, uids: map<string, int>, minBytes: int,
                    reset: bool, keys: seq<string>, rows: seq<Row>, k: string)
    requires bytes.Keys == was.Keys && Zeroed(was, bytes, minBytes, reset, {}) && RowsFor(bytes, uids, minBytes, {}, keys, rows)
    requires k in bytes
    ensures var up, down := bytes[k].0, bytes[k].1;
      var over, known := up + down > minBytes, k in uids && uids[k] != 0;
      && (k in was - Unknown(bytes, uids, minBytes) <==> !(over && !known))
      && (was[k].up, was[k].down) == (if reset && over then (0, 0) else (up, down))
      && (over && known ==> exists i: nat :: RowAt(keys, rows, i, k, uids[k], up, down))
      && (!(over && known) ==> k !in keys)
  {
    if k in keys {
      var i :| 0 <= i < |keys| && keys[i] == k;
      assert rows[i] == Row(uids[keys[i]], bytes[keys[i]].0, bytes[keys[i]].1);
      if Over(bytes[k], minBytes) && Known(uids, k) {
        assert RowAt(keys, rows, i, k, uids[k], bytes[k].0, bytes[k].1);
      }
    }
  }

  /** The `i`-th row, and no other, is the user's. */
  predicate RowAt(keys: seq<string>, rows: seq<Row>, i: nat, k: string, uid: int, up: int, down: int) {
    && i < |rows| == |keys| && keys[i] == k && rows[i] == Row(uid, up, down)
    && forall j :: 0 <= j < |keys| && j != i ==> keys[j] != k
  }

  lemma NothingGone<V>(was: map<string, V>, unknown: set<string>, todo: set<string>)
    requires unknown <= todo
    ensures was - (unknown - todo) == was
  {
    assert unknown - todo == {};
  }

  lemma NothingLeft(unknown: set<string>, todo: set<string>)
    requires todo == {}
    ensures unknown - todo == unknown
  {
  }

  ghost predicate Distinct(m: map<string, TrafficStorage>) {
    forall k, l :: k in m && l in m && m[k] == m[l] ==> k == l
  }

  predicate Over(bytes: (int, int), minBytes: int) {
    bytes.0 + bytes.1 > minBytes
  }

  predicate Known(uids: map<string, int>, k: string) {
    k in uids && uids[k] != 0
  }

  ghost function Unknown(bytes: map<string, (int, int)>, uids: map<string, int>, minBytes: int): set<string> {
    set k | k in bytes && Over(bytes[k], minBytes) && !Known(uids, k)
  }

  /** Of the entries not in `todo`, those above the threshold are zeroed on `reset`. */
  ghost predicate Zeroed(was: map<string, TrafficStorage>, bytes: map<string, (int, int)>, minBytes: int, reset: bool, todo: set<string>)
    requires bytes.Keys == was.Keys
    reads was.Values
  {
    forall k :: k in was ==>
      if k !in todo && reset && Over(bytes[k], minBytes) then was[k].up == 0 && was[k].down == 0
      else was[k].up == bytes[k].0 && was[k].down == bytes[k].1
  }

  lemma GoneStep<V>(was: map<string, V>, unknown: set<string>, todo: set<string>, k: string)
    requires k in todo
    ensures was - (unknown - (todo - {k})) == if k in unknown then (was - (unknown - todo)) - {k} else was - (unknown - todo)
  {
    if k !in unknown {
      assert unknown - (todo - {k}) == unknown - todo;
    }
  }

  /** One row for each known user above the threshold that is not in `todo`. */
  ghost predicate RowsFor(bytes: map<string, (int, int)>, uids: map<string, int>, minBytes: int, todo: set<string>,
                          keys: seq<string>, rows: seq<Row>) {
    && |keys| == |rows|
    && (forall i, j :: 0 <= i < j < |keys| ==> keys[i] != keys[j])
    && (forall k :: k in keys <==> k in bytes && k !in todo && Over(bytes[k], minBytes) && Known(uids, k))
    && (forall i :: 0 <= i < |keys| ==>
          && keys[i] in bytes && keys[i] in uids
          && rows[i] == Row(uids[keys[i]], bytes[keys[i]].0, bytes[keys[i]].1))
  }

  lemma RowsForMore(bytes: map<string, (int, int)>, uids: map<string, int>, minBytes: int, todo: set<string>,
                    keys: seq<string>, rows: seq<Row>, k: string)
    requires RowsFor(bytes, uids, minBytes, todo, keys, rows) && k in todo && k in bytes
    ensures if Over(bytes[k], minBytes) && Known(uids, k)
      then RowsFor(bytes, uids, minBytes, todo - {k}, keys + [k], rows + [Row(uids[k], bytes[k].0, bytes[k].1)])
      else RowsFor(bytes, uids, minBytes, todo - {k}, keys, rows)
  {
    if Over(bytes[k], minBytes) && Known(uids, k) {
      var keys' := keys + [k];
      assert forall x :: x in keys' <==> x in keys || x == k;
    }
  }
}
