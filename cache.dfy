/** internal/cache: a key-value table with a read-time time-to-live. The SQL
    table `cache(query_hash PRIMARY KEY, content, updated_at)` is a map from
    key to row; `updated_at` is a time in whole seconds and every operation
    that looks at the clock receives it as `now`. */
module Cache {

  import opened Wrappers

  /** `cacheTTL`: 24 hours, in seconds. */
  const TTL: int := 24 * 60 * 60

  datatype Row = Row(content: string, updatedAt: int)

  /** The table: one row per key (the primary key). */
  type Rows = map<string, Row>

  /** How the storage layer answered one statement: it ran, or it failed
      with an I/O error (a missing row is not an error). */
  datatype Io = Ok | Broken(reason: string)

  /** What `Get` returns besides its error: the content and whether it hit. */
  datatype Answer = Answer(content: string, hit: bool)

  /** A row is fresh while its age is at most the TTL; only a strictly
      greater age is stale. */
  predicate Fresh(row: Row, now: int) {
    now - row.updatedAt <= TTL
  }

  /** The answer a healthy table gives to `Get(key)` at time `now`. */
  function Lookup(rows: Rows, key: string, now: int): (a: Answer)
    ensures a.hit <==> key in rows && Fresh(rows[key], now)
    ensures a.content == if a.hit then rows[key].content else ""
  {
    if key !in rows then Answer("", false)
    else if !Fresh(rows[key], now) then Answer("", false)
    else Answer(rows[key].content, true)
  }

  /** The table after the upsert `INSERT ... ON CONFLICT DO UPDATE`. */
  function Upsert(rows: Rows, key: string, content: string, now: int): (r: Rows)
    ensures r.Keys == rows.Keys + {key}
  {
    rows[key := Row(content, now)]
  }

  /** The table after `Clear(key)`: everything goes for `""`, otherwise the
      one row with that key (if any). */
  function Evict(rows: Rows, key: string): (r: Rows)
    ensures r.Keys <= rows.Keys
  {
    if key == "" then map[] else rows - {key}
  }

  class Cache {
    var rows: Rows

    /** A cache over an already existing table. */
    constructor Open(existing: Rows)
      ensures rows == existing
    {
      rows := existing;
    }

    /** `Cache.Get`: reads one row, judging staleness at read time; never
        changes the table (a stale row stays where it is). */
    method Get(key: string, now: int, io: Io) returns (r: Result<Answer, string>)
      ensures io.Broken? ==> r == Failure(io.reason)
      ensures io.Ok? ==> r.Success? && r.value.hit == (key in rows && Fresh(rows[key], now))
      ensures r.Success? && r.value.hit ==> r.value.content == rows[key].content
      ensures r.Success? && !r.value.hit ==> r.value.content == ""
      ensures io.Ok? ==> r == Success(Lookup(rows, key, now))
    {
      if io.Broken? {
        return Failure(io.reason);
      }
      if key !in rows {
        return Success(Answer("", false));
      }
      var row := rows[key];
      if now - row.updatedAt > TTL {
        return Success(Answer("", false));
      }
      return Success(Answer(row.content, true));
    }

    /** `Cache.Set`: one atomic upsert, stamped with the current time; a
        failed statement leaves the table as it was. */
    method Set(key: string, content: string, now: int, io: Io) returns (r: Outcome<string>)
      modifies this
      ensures r == if io.Ok? then Pass else Fail(io.reason)
      ensures rows == if io.Ok? then Upsert(old(rows), key, content, now) else old(rows)
    {
      if io.Broken? {
        return Fail(io.reason);
      }
      rows := rows[key := Row(content, now)];
      return Pass;
    }

    /** `Cache.Clear`: `DELETE FROM cache` for `""`, otherwise the delete of
        the one key; deleting nothing is a success. */
    method Clear(key: string, io: Io) returns (r: Outcome<string>)
      modifies this
      ensures r == if io.Ok? then Pass else Fail(io.reason)
      ensures rows == if io.Ok? then Evict(old(rows), key) else old(rows)
    {
      if io.Broken? {
        return Fail(io.reason);
      }
      if key == "" {
        rows := map[];
      } else {
        rows := rows - {key};
      }
      return Pass;
    }
  }

  // ----- properties of the table operations -----

  /** A `Set` followed by a `Get` within the TTL returns what was stored. */
  lemma SetThenGet(rows: Rows, key: string, content: string, setAt: int, now: int)
    requires now - setAt <= TTL
    ensures Lookup(Upsert(rows, key, content, setAt), key, now) == Answer(content, true)
  {
  }

  /** A `Set` leaves every other key's answer alone. */
  lemma SetKeepsOthers(rows: Rows, key: string, content: string, setAt: int, other: string, now: int)
    requires other != key
    ensures Lookup(Upsert(rows, key, content, setAt), other, now) == Lookup(rows, other, now)
  {
  }

  /** Upserting keeps one row per key: an existing key is overwritten (the
      table does not grow), a new key adds exactly one row. */
  lemma UpsertRowCount(rows: Rows, key: string, content: string, now: int)
    ensures |Upsert(rows, key, content, now)| == if key in rows then |rows| else |rows| + 1
  {
    var r := Upsert(rows, key, content, now);
    if key in rows {
      assert r.Keys == rows.Keys;
    } else {
      assert r.Keys == rows.Keys + {key};
    }
  }

  /** An absent key misses with empty content. */
  lemma GetAbsent(rows: Rows, key: string, now: int)
    requires key !in rows
    ensures Lookup(rows, key, now) == Answer("", false)
  {
  }

  /** Age exactly the TTL is still a hit; one second more is a miss even
      though the row is still in the table. */
  lemma TtlBoundary(rows: Rows, key: string)
    requires key in rows
    ensures Lookup(rows, key, rows[key].updatedAt + TTL).hit
    ensures Lookup(rows, key, rows[key].updatedAt + TTL + 1) == Answer("", false)
  {
  }

  /** `Clear(k)` for a non-empty `k` removes `k` and leaves every other row. */
  lemma ClearOne(rows: Rows, key: string, other: string)
    requires key != "" && other != key
    ensures key !in Evict(rows, key)
    ensures other in Evict(rows, key) <==> other in rows
    ensures other in rows ==> Evict(rows, key)[other] == rows[other]
  {
  }

  /** After `Clear("")` every key misses, whatever the clock says. */
  lemma ClearAllMisses(rows: Rows, key: string, now: int)
    ensures Lookup(Evict(rows, ""), key, now) == Answer("", false)
  {
  }

  /** Clearing is idempotent, and clearing a missing key changes nothing. */
  lemma ClearIdempotent(rows: Rows, key: string)
    ensures Evict(Evict(rows, key), key) == Evict(rows, key)
    ensures key != "" && key !in rows ==> Evict(rows, key) == rows
  {
  }
}
