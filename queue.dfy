/** `enqueueRetry`: parking an outbound request in `ota_retry_queue` for the worker to retry. */
module Queue {
  import opened Wrappers
  import opened Json
  import opened Db

  /** The headers argument, which defaults to `{}` when it is not supplied. */
  function HeadersOrDefault(headers: Option<Value>): Value {
    if headers.None? then EmptyObject else headers.value
  }

  /**
   * The row the INSERT creates: payload and headers serialised, `try_count`
   * 0, `id` the next auto-increment value, and `next_try_at`/`created_at`
   * at their column default, the insertion time `now`.
   */
  function NewRetryRow(json: Codec, id: nat, now: int, requestType: string, endpoint: string,
                       payload: Value, headers: Option<Value>): RetryRow
  {
    RetryRow(id, requestType, endpoint, json.stringify(payload),
             Some(json.stringify(HeadersOrDefault(headers))), 0, now, now)
  }

  /** `enqueueRetry(request_type, endpoint, payload, headers = {})` */
  method EnqueueRetry(db: Database, json: Codec, now: int, requestType: string, endpoint: string,
                      payload: Value, headers: Option<Value>)
    requires db.Valid()
    modifies db`retryQueue, db`nextRetryId
    ensures db.Valid()
    ensures db.retryQueue
         == old(db.retryQueue) + [NewRetryRow(json, old(db.nextRetryId), now, requestType, endpoint, payload, headers)]
    ensures db.nextRetryId == old(db.nextRetryId) + 1
  {
    var row := NewRetryRow(json, db.nextRetryId, now, requestType, endpoint, payload, headers);
    db.retryQueue := db.retryQueue + [row];
    db.nextRetryId := db.nextRetryId + 1;
  }

  /**
   * The new row starts with no tries, keeps the request type and endpoint
   * verbatim, is due at once, and stores payload and headers (`{}` when
   * none were given) as text that parses back to them.
   */
  lemma NewRetryRowContent(json: Codec, id: nat, now: int, requestType: string, endpoint: string,
                           payload: Value, headers: Option<Value>)
    requires Lawful(json)
    ensures var row := NewRetryRow(json, id, now, requestType, endpoint, payload, headers);
      && row.id == id && row.tryCount == 0
      && row.requestType == requestType && row.endpoint == endpoint
      && row.nextTryAt <= now && row.createdAt == now
      && json.parse(row.payload) == Some(payload)
      && row.headers.Some? && row.headers.value != ""
      && json.parse(row.headers.value) == Some(if headers.None? then EmptyObject else headers.value)
      && (headers.None? ==> row.headers == Some("{}"))
  {
  }

  /** Enqueueing keeps every existing row as it was and adds exactly one row, whose id no other row has. */
  lemma EnqueueAddsOneRow(queue: seq<RetryRow>, nextId: nat, row: RetryRow)
    requires ValidRetryIds(queue, nextId)
    requires row.id == nextId
    ensures var q := queue + [row];
      && |q| == |queue| + 1 && q[..|queue|] == queue && q[|queue|] == row
      && ValidRetryIds(q, nextId + 1)
      && forall i :: 0 <= i < |queue| ==> q[i].id != row.id
  {
    var q := queue + [row];
    forall r | r in q
      ensures r.id < nextId + 1
    {
      if r != row {
        assert r in queue;
      }
    }
  }
}
