/**
 * The retry worker: one run of `processNext` (deliver the due rows of
 * `ota_retry_queue`, delete the delivered ones with a log entry, back off
 * the others) and one run of `cleanupZombies` (age-based pruning). Times
 * are seconds; `now` is the database clock, read once per run.
 */
module Worker {
  import opened Wrappers
  import opened Json
  import opened Seqs
  import opened Db
  import Queue

  const BatchSize := 10
  const MaxDelay := 3600
  const Day := 86400
  const WebhookLogRetention := 30 * Day
  const RetryRetention := 7 * Day
  const LogChannel := "aiosell"
  const SuccessMessage := "retry success"

  // ---------------------------------------------------------------------
  // Selection: WHERE next_try_at <= NOW() ORDER BY next_try_at ASC LIMIT 10

  /** The rows that are due, in table order. */
  function Due(q: seq<RetryRow>, now: int): (due: seq<RetryRow>)
    ensures forall x :: x in due <==> x in q && x.nextTryAt <= now
  {
    Filter(q, (r: RetryRow) => r.nextTryAt <= now)
  }

  lemma DueDistinct(q: seq<RetryRow>, now: int)
    requires DistinctIds(q)
    ensures DistinctIds(Due(q, now))
  {
    FilterDistinct(q, (r: RetryRow) => r.nextTryAt <= now);
  }

  /** Inserting into a list ordered by `next_try_at`, ahead of the rows not earlier than it. */
  function Insert(r: RetryRow, s: seq<RetryRow>): seq<RetryRow> {
    if s == [] || r.nextTryAt <= s[0].nextTryAt then [r] + s
    else [s[0]] + Insert(r, s[1..])
  }

  /** Ordering by `next_try_at`; rows due at the same second keep their table order. */
  function SortByTime(s: seq<RetryRow>): seq<RetryRow> {
    if s == [] then [] else Insert(s[0], SortByTime(s[1..]))
  }

  predicate SortedByTime(s: seq<RetryRow>) {
    forall i, j :: 0 <= i < j < |s| ==> s[i].nextTryAt <= s[j].nextTryAt
  }

  /** The rows one run of `processNext` works on. */
  function SelectDue(q: seq<RetryRow>, now: int): (sel: seq<RetryRow>)
    ensures |sel| <= BatchSize
  {
    var sorted := SortByTime(Due(q, now));
    if |sorted| <= BatchSize then sorted else sorted[..BatchSize]
  }

  lemma {:induction false} InsertPermutes(r: RetryRow, s: seq<RetryRow>)
    ensures multiset(Insert(r, s)) == multiset(s) + multiset{r}
    ensures |Insert(r, s)| == |s| + 1
  {
    if s != [] && r.nextTryAt > s[0].nextTryAt {
      InsertPermutes(r, s[1..]);
      assert s == [s[0]] + s[1..];
    }
  }

  lemma {:induction false} InsertSorted(r: RetryRow, s: seq<RetryRow>)
    requires SortedByTime(s)
    ensures SortedByTime(Insert(r, s))
  {
    if s != [] && r.nextTryAt > s[0].nextTryAt {
      var t := Insert(r, s[1..]);
      InsertSorted(r, s[1..]);
      InsertPermutes(r, s[1..]);
      forall y | y in t
        ensures s[0].nextTryAt <= y.nextTryAt
      {
        assert y in multiset(t);
        if y != r {
          var k :| 0 <= k < |s[1..]| && s[1..][k] == y;
          assert s[k + 1] == y;
        }
      }
      assert Insert(r, s) == [s[0]] + t;
    }
  }

  lemma {:induction false} InsertDistinct(r: RetryRow, s: seq<RetryRow>)
    requires DistinctIds(s)
    requires forall i :: 0 <= i < |s| ==> s[i].id != r.id
    ensures DistinctIds(Insert(r, s))
  {
    if s != [] && r.nextTryAt > s[0].nextTryAt {
      var t := Insert(r, s[1..]);
      InsertDistinct(r, s[1..]);
      InsertPermutes(r, s[1..]);
      forall y | y in t
        ensures s[0].id != y.id
      {
        assert y in multiset(t);
        if y != r {
          var k :| 0 <= k < |s[1..]| && s[1..][k] == y;
          assert s[k + 1] == y;
        }
      }
      assert Insert(r, s) == [s[0]] + t;
    }
  }

  /** Ordering by time is a sorted permutation. */
  lemma {:induction false} SortByTimeSpec(s: seq<RetryRow>)
    ensures multiset(SortByTime(s)) == multiset(s)
    ensures |SortByTime(s)| == |s|
    ensures SortedByTime(SortByTime(s))
  {
    if s != [] {
      var t := SortByTime(s[1..]);
      SortByTimeSpec(s[1..]);
      InsertPermutes(s[0], t);
      InsertSorted(s[0], t);
      assert s == [s[0]] + s[1..];
    }
  }

  /** Ordering by time keeps ids distinct. */
  lemma {:induction false} SortByTimeDistinct(s: seq<RetryRow>)
    requires DistinctIds(s)
    ensures DistinctIds(SortByTime(s))
  {
    if s != [] {
      var t := SortByTime(s[1..]);
      SortByTimeDistinct(s[1..]);
      SortByTimeSpec(s[1..]);
      forall i | 0 <= i < |t|
        ensures t[i].id != s[0].id
      {
        assert t[i] in multiset(s[1..]);
        var k :| 0 <= k < |s[1..]| && s[1..][k] == t[i];
        assert s[k + 1] == t[i];
      }
      InsertDistinct(s[0], t);
    }
  }

  lemma {:induction false} FilterDistinct(q: seq<RetryRow>, keep: RetryRow -> bool)
    requires DistinctIds(q)
    ensures DistinctIds(Filter(q, keep))
  {
    if q != [] {
      FilterDistinct(q[1..], keep);
      var t := Filter(q[1..], keep);
      forall y | y in t
        ensures q[0].id != y.id
      {
        var k :| 0 <= k < |q[1..]| && q[1..][k] == y;
        assert q[k + 1] == y;
      }
    }
  }

  /** The selection is the first rows of the due rows ordered by time. */
  lemma SelectIsPrefix(q: seq<RetryRow>, now: int)
    ensures var sorted := SortByTime(Due(q, now));
      && multiset(sorted) == multiset(Due(q, now))
      && SortedByTime(sorted)
      && |sorted| == |Due(q, now)|
      && SelectDue(q, now) == sorted[..|SelectDue(q, now)|]
      && |SelectDue(q, now)| == (if |sorted| <= BatchSize then |sorted| else BatchSize)
  {
    SortByTimeSpec(Due(q, now));
  }

  /** Every selected row is a due row of the table. */
  lemma SelectDueMembers(q: seq<RetryRow>, now: int)
    ensures forall i :: 0 <= i < |SelectDue(q, now)| ==> SelectDue(q, now)[i] in q && SelectDue(q, now)[i].nextTryAt <= now
  {
    var sorted := SortByTime(Due(q, now));
    var sel := SelectDue(q, now);
    SelectIsPrefix(q, now);
    forall i | 0 <= i < |sel|
      ensures sel[i] in q && sel[i].nextTryAt <= now
    {
      assert sel[i] == sorted[i];
      assert sorted[i] in multiset(Due(q, now));
    }
  }

  /** No due row left out is earlier than a selected one; none is left out when at most 10 are due. */
  lemma SelectDueEarliest(q: seq<RetryRow>, now: int)
    ensures forall x :: x in q && x.nextTryAt <= now && x !in SelectDue(q, now) ==>
              |Due(q, now)| > BatchSize
              && forall i :: 0 <= i < |SelectDue(q, now)| ==> SelectDue(q, now)[i].nextTryAt <= x.nextTryAt
  {
    var sorted := SortByTime(Due(q, now));
    var sel := SelectDue(q, now);
    SelectIsPrefix(q, now);
    forall x | x in q && x.nextTryAt <= now && x !in sel
      ensures |Due(q, now)| > BatchSize && forall i :: 0 <= i < |sel| ==> sel[i].nextTryAt <= x.nextTryAt
    {
      assert x in multiset(sorted);
      var j :| 0 <= j < |sorted| && sorted[j] == x;
      assert |sel| <= j;
      forall i | 0 <= i < |sel|
        ensures sel[i].nextTryAt <= x.nextTryAt
      {
        assert sel[i] == sorted[i];
      }
    }
  }

  /**
   * `processNext` works on at most 10 rows, as many as are due up to that;
   * each is a row of the table that is due; they come earliest first; no
   * due row left out is earlier than one selected, and none is left out
   * when no more than 10 are due; each row is selected at most once.
   */
  lemma SelectDueSpec(q: seq<RetryRow>, nextId: nat, now: int)
    requires ValidRetryIds(q, nextId)
    ensures var sel := SelectDue(q, now);
      && |sel| == (if |Due(q, now)| <= BatchSize then |Due(q, now)| else BatchSize)
      && (forall i :: 0 <= i < |sel| ==> sel[i] in q && sel[i].nextTryAt <= now)
      && SortedByTime(sel)
      && (forall x :: x in q && x.nextTryAt <= now && x !in sel ==>
            |Due(q, now)| > BatchSize && forall i :: 0 <= i < |sel| ==> sel[i].nextTryAt <= x.nextTryAt)
      && DistinctIds(sel)
  {
    SelectIsPrefix(q, now);
    DueDistinct(q, now);
    SortByTimeDistinct(Due(q, now));
    SelectDueMembers(q, now);
    SelectDueEarliest(q, now);
  }

  // ---------------------------------------------------------------------
  // Delivering one row

  /** What the worker hands to `axios.post`. */
  datatype Post = Post(endpoint: string, body: Value, headers: Value)

  /** A 2xx response with its status and data, or anything that throws. */
  datatype Attempt = Delivered(status: int, data: Value) | Failed

  /** `r.headers || '{}'` */
  function HeadersText(headers: Option<string>): string {
    if headers.None? || headers.value == "" then "{}" else headers.value
  }

  /**
   * Parsing the stored payload and headers; None when either `JSON.parse`
   * throws. A decoded row posts to its own endpoint the value its payload
   * text parses to.
   */
  function DecodeRow(json: Codec, r: RetryRow): (p: Option<Post>)
    ensures p.None? <==> json.parse(r.payload).None? || json.parse(HeadersText(r.headers)).None?
    ensures p.Some? ==> p.value.endpoint == r.endpoint && json.parse(r.payload) == Some(p.value.body)
  {
    match json.parse(r.payload)
    case None => None
    case Some(body) =>
      match json.parse(HeadersText(r.headers))
      case None => None
      case Some(headers) => Some(Post(r.endpoint, body, headers))
  }

  /**
   * What is passed to `enqueueRetry` is what the worker posts: endpoint,
   * payload and headers (`{}` when none were given) survive the round trip
   * through the table.
   */
  lemma EnqueuedRowDecodes(json: Codec, id: nat, now: int, requestType: string, endpoint: string,
                           payload: Value, headers: Option<Value>)
    requires Lawful(json)
    ensures DecodeRow(json, Queue.NewRetryRow(json, id, now, requestType, endpoint, payload, headers))
         == Some(Post(endpoint, payload, Queue.HeadersOrDefault(headers)))
  {
    var row := Queue.NewRetryRow(json, id, now, requestType, endpoint, payload, headers);
    assert json.stringify(Queue.HeadersOrDefault(headers)) != "";
    assert HeadersText(row.headers) == json.stringify(Queue.HeadersOrDefault(headers));
  }

  /** Missing or empty stored headers are read as `{}`. */
  lemma MissingHeadersAreEmpty(json: Codec, r: RetryRow)
    requires Lawful(json)
    requires r.headers.None? || r.headers == Some("")
    ensures json.parse(r.payload).Some? ==> DecodeRow(json, r) == Some(Post(r.endpoint, json.parse(r.payload).value, EmptyObject))
  {
    assert json.parse(json.stringify(EmptyObject)) == Some(EmptyObject);
  }

  /** The outcome of trying row `r`: a row whose JSON does not parse fails without a request. */
  function Try(json: Codec, post: (nat, Post) -> Attempt, r: RetryRow): (a: Attempt)
    ensures json.parse(r.payload).None? || json.parse(HeadersText(r.headers)).None? ==> a == Failed
  {
    match DecodeRow(json, r)
    case None => Failed
    case Some(p) => post(r.id, p)
  }

  function Pow2(k: nat): nat {
    if k == 0 then 1 else 2 * Pow2(k - 1)
  }

  lemma {:induction false} Pow2Grows(j: nat, k: nat)
    requires j <= k
    ensures Pow2(j) <= Pow2(k)
  {
    if j < k {
      Pow2Grows(j, k - 1);
    }
  }

  /** `LEAST(POWER(2, k), 3600)` seconds. */
  function BackoffDelay(k: nat): nat {
    if Pow2(k) < MaxDelay then Pow2(k) else MaxDelay
  }

  /**
   * The SET clause assigns `try_count` first, so `POWER(2, try_count)`
   * sees the incremented count: a row that had failed `n` times waits
   * 2^(n+1) seconds, at least 2 and never more than an hour, which it
   * reaches from `n` = 11 on.
   */
  lemma BackoffBounds(tryCount: nat)
    ensures 2 <= BackoffDelay(tryCount + 1) <= MaxDelay
    ensures tryCount < 11 ==> BackoffDelay(tryCount + 1) == Pow2(tryCount + 1)
    ensures tryCount >= 11 ==> BackoffDelay(tryCount + 1) == MaxDelay
  {
    Pow2Grows(1, tryCount + 1);
    if tryCount < 11 {
      Pow2Grows(tryCount + 1, 11);
      assert Pow2(11) == 2048;
    } else {
      Pow2Grows(12, tryCount + 1);
      assert Pow2(12) == 4096;
    }
  }

  /** The first delays: 2, 4, 8 and 16 seconds after the first four failures, an hour after the twelfth. */
  lemma BackoffExamples()
    ensures BackoffDelay(0 + 1) == 2 && BackoffDelay(1 + 1) == 4 && BackoffDelay(2 + 1) == 8
    ensures BackoffDelay(3 + 1) == 16 && BackoffDelay(11 + 1) == MaxDelay
  {
    assert Pow2(12) == 4096;
  }

  /**
   * A row after a failed try: one more try, due again between 2 seconds and
   * an hour from `now`; everything else about it is kept.
   */
  function Rescheduled(r: RetryRow, now: int): (s: RetryRow)
    ensures s.tryCount == r.tryCount + 1
    ensures now + 2 <= s.nextTryAt <= now + MaxDelay
    ensures s.(tryCount := r.tryCount, nextTryAt := r.nextTryAt) == r
  {
    BackoffBounds(r.tryCount);
    r.(tryCount := r.tryCount + 1, nextTryAt := now + BackoffDelay(r.tryCount + 1))
  }

  /** `UPDATE ota_retry_queue SET try_count = ..., next_try_at = ... WHERE id = ?` */
  function Reschedule(q: seq<RetryRow>, id: nat, now: int): (r: seq<RetryRow>)
    ensures |r| == |q|
    ensures forall i :: 0 <= i < |q| ==> r[i] == if q[i].id == id then Rescheduled(q[i], now) else q[i]
  {
    if q == [] then []
    else [if q[0].id == id then Rescheduled(q[0], now) else q[0]] + Reschedule(q[1..], id, now)
  }

  /** `DELETE FROM ota_retry_queue WHERE id = ?` */
  function DeleteId(q: seq<RetryRow>, id: nat): (r: seq<RetryRow>)
    ensures |r| <= |q|
    ensures forall x :: x in r <==> x in q && x.id != id
  {
    Filter(q, (r: RetryRow) => r.id != id)
  }

  /** The `channel_logs` row for a delivered retry. */
  function SuccessLog(json: Codec, endpoint: string, status: int, data: Value): ChannelLog {
    ChannelLog(None, LogChannel, SuccessMessage,
               json.stringify(Obj(map["endpoint" := Str(endpoint), "status" := Num(status), "data" := data])))
  }

  /** The two tables `processNext` changes. */
  datatype Tables = Tables(queue: seq<RetryRow>, logs: seq<ChannelLog>)

  /** One iteration of the loop, for selected row `r`. */
  function Step(t: Tables, json: Codec, now: int, post: (nat, Post) -> Attempt, r: RetryRow): (u: Tables)
    ensures |u.queue| <= |t.queue|
    ensures t.logs <= u.logs && |u.logs| <= |t.logs| + 1
  {
    match Try(json, post, r)
    case Delivered(status, data) => Tables(DeleteId(t.queue, r.id), t.logs + [SuccessLog(json, r.endpoint, status, data)])
    case Failed => Tables(Reschedule(t.queue, r.id, now), t.logs)
  }

  /** The tables after the loop has handled the rows of `sel`, in order. */
  /** The queue never grows and the log only grows, by at most one entry per row. */
  function CycleState(start: Tables, json: Codec, now: int, post: (nat, Post) -> Attempt, sel: seq<RetryRow>): (t: Tables)
    ensures |t.queue| <= |start.queue|
    ensures start.logs <= t.logs && |t.logs| <= |start.logs| + |sel|
  {
    if sel == [] then start
    else Step(CycleState(start, json, now, post, sel[..|sel| - 1]), json, now, post, sel[|sel| - 1])
  }

  /** `processNext()` */
  method ProcessNext(db: Database, json: Codec, now: int, post: (nat, Post) -> Attempt)
    requires db.Valid()
    modifies db`retryQueue, db`channelLogs
    ensures db.Valid()
    ensures Tables(db.retryQueue, db.channelLogs)
         == CycleState(Tables(old(db.retryQueue), old(db.channelLogs)), json, now, post, SelectDue(old(db.retryQueue), now))
  {
    var rows := SelectDue(db.retryQueue, now);
    ghost var start := Tables(db.retryQueue, db.channelLogs);
    var i := 0;
    while i < |rows|
      invariant 0 <= i <= |rows|
      invariant Tables(db.retryQueue, db.channelLogs) == CycleState(start, json, now, post, rows[..i])
      invariant db.Valid()
    {
      HandleRow(db, json, now, post, rows[i]);
      CycleStateSnoc(start, json, now, post, rows, i);
      i := i + 1;
    }
    assert rows[..|rows|] == rows;
  }

  /** One pass of the loop's body: post the row, then delete and log it, or reschedule it. */
  method HandleRow(db: Database, json: Codec, now: int, post: (nat, Post) -> Attempt, r: RetryRow)
    requires db.Valid()
    modifies db`retryQueue, db`channelLogs
    ensures db.Valid()
    ensures Tables(db.retryQueue, db.channelLogs) == Step(old(Tables(db.retryQueue, db.channelLogs)), json, now, post, r)
  {
    var decoded := DecodeRow(json, r);
    var attempt := if decoded.Some? then post(r.id, decoded.value) else Failed;
    assert attempt == Try(json, post, r);
    if attempt.Delivered? {
      DeleteKeepsValid(db.retryQueue, db.nextRetryId, r.id);
      db.retryQueue := DeleteId(db.retryQueue, r.id);
      db.channelLogs := db.channelLogs + [SuccessLog(json, r.endpoint, attempt.status, attempt.data)];
    } else {
      RescheduleKeepsValid(db.retryQueue, db.nextRetryId, r.id, now);
      db.retryQueue := Reschedule(db.retryQueue, r.id, now);
    }
  }

  /** Handling one more selected row is one more `Step`. */
  lemma CycleStateSnoc(start: Tables, json: Codec, now: int, post: (nat, Post) -> Attempt, rows: seq<RetryRow>, i: nat)
    requires i < |rows|
    ensures CycleState(start, json, now, post, rows[..i + 1])
         == Step(CycleState(start, json, now, post, rows[..i]), json, now, post, rows[i])
  {
    assert rows[..i + 1][..i] == rows[..i];
  }

  lemma DeleteKeepsValid(q: seq<RetryRow>, nextId: nat, id: nat)
    requires ValidRetryIds(q, nextId)
    ensures ValidRetryIds(DeleteId(q, id), nextId)
    ensures forall r :: r in DeleteId(q, id) <==> r in q && r.id != id
  {
    FilterDistinct(q, (r: RetryRow) => r.id != id);
  }

  lemma RescheduleKeepsValid(q: seq<RetryRow>, nextId: nat, id: nat, now: int)
    requires ValidRetryIds(q, nextId)
    ensures ValidRetryIds(Reschedule(q, id, now), nextId)
  {
    var q' := Reschedule(q, id, now);
    forall y | y in q'
      ensures y.id < nextId
    {
      var k :| 0 <= k < |q'| && q'[k] == y;
      assert q[k] in q;
    }
  }

  // ---------------------------------------------------------------------
  // What a run leaves behind, stated row by row

  /** The ids of the rows in `sel`. */
  function Ids(sel: seq<RetryRow>): (ids: set<nat>)
    ensures forall k :: k in ids <==> exists i :: 0 <= i < |sel| && sel[i].id == k
  {
    if sel == [] then {}
    else
      var init := sel[..|sel| - 1];
      var ids := Ids(init);
      assert forall i :: 0 <= i < |init| ==> init[i] == sel[i];
      ids + {sel[|sel| - 1].id}
  }

  /**
   * Reference definition of the queue after a run that tried the rows with
   * ids in `tried`: each such row is gone if its try succeeded and
   * rescheduled if it failed; every other row is as it was.
   */
  function AfterRun(q: seq<RetryRow>, json: Codec, now: int, post: (nat, Post) -> Attempt, tried: set<nat>): seq<RetryRow>
  {
    if q == [] then []
    else
      var rest := AfterRun(q[1..], json, now, post, tried);
      if q[0].id !in tried then [q[0]] + rest
      else if Try(json, post, q[0]).Delivered? then rest
      else [Rescheduled(q[0], now)] + rest
  }

  /** The log entries trying row `r` appends: one when it is delivered, none otherwise. */
  function Logged(json: Codec, post: (nat, Post) -> Attempt, r: RetryRow): seq<ChannelLog> {
    match Try(json, post, r)
    case Delivered(status, data) => [SuccessLog(json, r.endpoint, status, data)]
    case Failed => []
  }

  /** The log entries a run appends: one per delivered row, in selection order. */
  function SuccessLogs(json: Codec, post: (nat, Post) -> Attempt, sel: seq<RetryRow>): seq<ChannelLog> {
    if sel == [] then []
    else SuccessLogs(json, post, sel[..|sel| - 1]) + Logged(json, post, sel[|sel| - 1])
  }

  lemma {:induction false} DeleteAfterRun(q: seq<RetryRow>, json: Codec, now: int, post: (nat, Post) -> Attempt,
                                          tried: set<nat>, x: RetryRow)
    requires x.id !in tried
    requires Try(json, post, x).Delivered?
    requires forall y :: y in q && y.id == x.id ==> y == x
    ensures DeleteId(AfterRun(q, json, now, post, tried), x.id) == AfterRun(q, json, now, post, tried + {x.id})
  {
    if q != [] {
      DeleteAfterRun(q[1..], json, now, post, tried, x);
    }
  }

  lemma {:induction false} RescheduleAfterRun(q: seq<RetryRow>, json: Codec, now: int, post: (nat, Post) -> Attempt,
                                              tried: set<nat>, x: RetryRow)
    requires x.id !in tried
    requires Try(json, post, x).Failed?
    requires forall y :: y in q && y.id == x.id ==> y == x
    ensures Reschedule(AfterRun(q, json, now, post, tried), x.id, now) == AfterRun(q, json, now, post, tried + {x.id})
  {
    if q != [] {
      RescheduleAfterRun(q[1..], json, now, post, tried, x);
      var before := AfterRun(q[1..], json, now, post, tried);
      if q[0].id !in tried {
        assert Reschedule([q[0]] + before, x.id, now)
            == [if q[0].id == x.id then Rescheduled(q[0], now) else q[0]] + Reschedule(before, x.id, now);
      } else {
        assert q[0].id != x.id;
        if Try(json, post, q[0]).Failed? {
          assert Reschedule([Rescheduled(q[0], now)] + before, x.id, now)
              == [Rescheduled(q[0], now)] + Reschedule(before, x.id, now);
        }
      }
    }
  }

  /** Appending a row adds its id. */
  lemma IdsSnoc(sel: seq<RetryRow>)
    requires sel != []
    requires DistinctIds(sel)
    ensures Ids(sel) == Ids(sel[..|sel| - 1]) + {sel[|sel| - 1].id}
    ensures sel[|sel| - 1].id !in Ids(sel[..|sel| - 1])
    ensures DistinctIds(sel[..|sel| - 1])
  {
    var init := sel[..|sel| - 1];
    assert forall i :: 0 <= i < |init| ==> init[i] == sel[i];
  }

  /** In a table with distinct ids a row is the only one with its id. */
  lemma OnlyRowWithId(q: seq<RetryRow>, x: RetryRow)
    requires DistinctIds(q)
    requires x in q
    ensures forall y :: y in q && y.id == x.id ==> y == x
  {
    forall y | y in q && y.id == x.id
      ensures y == x
    {
      var a :| 0 <= a < |q| && q[a] == y;
      var b :| 0 <= b < |q| && q[b] == x;
      assert a == b;
    }
  }

  /** One step of the loop from the reference state adds one id to the tried set. */
  lemma StepMatchesReference(q0: seq<RetryRow>, logs: seq<ChannelLog>, json: Codec, now: int,
                             post: (nat, Post) -> Attempt, tried: set<nat>, x: RetryRow)
    requires DistinctIds(q0)
    requires x in q0 && x.id !in tried
    ensures Step(Tables(AfterRun(q0, json, now, post, tried), logs), json, now, post, x)
         == Tables(AfterRun(q0, json, now, post, tried + {x.id}), logs + Logged(json, post, x))
  {
    OnlyRowWithId(q0, x);
    if Try(json, post, x).Delivered? {
      DeleteAfterRun(q0, json, now, post, tried, x);
    } else {
      RescheduleAfterRun(q0, json, now, post, tried, x);
    }
  }

  /**
   * The loop computes the reference: for distinct selected rows taken from
   * a table with distinct ids, the queue ends as `AfterRun` of the
   * selected ids and the log grows by exactly the success entries.
   */
  lemma {:induction false} CycleMatchesReference(q0: seq<RetryRow>, logs0: seq<ChannelLog>, json: Codec, now: int,
                                                 post: (nat, Post) -> Attempt, sel: seq<RetryRow>)
    requires DistinctIds(q0)
    requires DistinctIds(sel)
    requires forall i :: 0 <= i < |sel| ==> sel[i] in q0
    ensures CycleState(Tables(q0, logs0), json, now, post, sel)
         == Tables(AfterRun(q0, json, now, post, Ids(sel)), logs0 + SuccessLogs(json, post, sel))
  {
    if sel == [] {
      NothingTried(q0, json, now, post);
    } else {
      var init := sel[..|sel| - 1];
      var x := sel[|sel| - 1];
      IdsSnoc(sel);
      assert forall i :: 0 <= i < |init| ==> init[i] == sel[i];
      assert x == sel[|sel| - 1] && x in q0;
      CycleMatchesReference(q0, logs0, json, now, post, init);
      var logs := logs0 + SuccessLogs(json, post, init);
      var t := CycleState(Tables(q0, logs0), json, now, post, init);
      assert t == Tables(AfterRun(q0, json, now, post, Ids(init)), logs);
      StepMatchesReference(q0, logs, json, now, post, Ids(init), x);
      assert CycleState(Tables(q0, logs0), json, now, post, sel) == Step(t, json, now, post, x);
      SuccessLogsSnoc(json, post, logs0, sel);
    }
  }

  /** The log after one more selected row is the log before it plus that row's entry. */
  lemma SuccessLogsSnoc(json: Codec, post: (nat, Post) -> Attempt, logs0: seq<ChannelLog>, sel: seq<RetryRow>)
    requires sel != []
    ensures logs0 + SuccessLogs(json, post, sel)
         == (logs0 + SuccessLogs(json, post, sel[..|sel| - 1])) + Logged(json, post, sel[|sel| - 1])
  {
  }

  /** A run that tried nothing leaves the queue as it was. */
  lemma {:induction false} NothingTried(q: seq<RetryRow>, json: Codec, now: int, post: (nat, Post) -> Attempt)
    ensures AfterRun(q, json, now, post, {}) == q
  {
    if q != [] {
      NothingTried(q[1..], json, now, post);
      assert q == [q[0]] + q[1..];
    }
  }

  /** A row that `AfterRun` keeps is a row of the table, possibly rescheduled; it keeps its id. */
  lemma {:induction false} AfterRunFrom(q: seq<RetryRow>, json: Codec, now: int, post: (nat, Post) -> Attempt, tried: set<nat>)
    ensures forall y :: y in AfterRun(q, json, now, post, tried) ==> exists x :: x in q && (y == x || y == Rescheduled(x, now))
  {
    if q != [] {
      AfterRunFrom(q[1..], json, now, post, tried);
      forall y | y in AfterRun(q, json, now, post, tried)
        ensures exists x :: x in q && (y == x || y == Rescheduled(x, now))
      {
        if y in AfterRun(q[1..], json, now, post, tried) {
          var x :| x in q[1..] && (y == x || y == Rescheduled(x, now));
          assert x in q;
        } else {
          assert q[0] in q;
        }
      }
    }
  }

  /** Rows not tried stay, rows whose try failed stay rescheduled. */
  lemma {:induction false} AfterRunKeeps(q: seq<RetryRow>, json: Codec, now: int, post: (nat, Post) -> Attempt, tried: set<nat>)
    ensures forall x :: x in q && x.id !in tried ==> x in AfterRun(q, json, now, post, tried)
    ensures forall x :: x in q && x.id in tried && Try(json, post, x).Failed? ==> Rescheduled(x, now) in AfterRun(q, json, now, post, tried)
  {
    if q != [] {
      AfterRunKeeps(q[1..], json, now, post, tried);
      forall x | x in q
        ensures x == q[0] || x in q[1..]
      {
        var k :| 0 <= k < |q| && q[k] == x;
        if k > 0 {
          assert q[1..][k - 1] == x;
        }
      }
    }
  }

  /** With distinct ids, no row with the id of a delivered row is left. */
  lemma {:induction false} AfterRunRemoves(q: seq<RetryRow>, json: Codec, now: int, post: (nat, Post) -> Attempt, tried: set<nat>)
    requires DistinctIds(q)
    ensures forall x, y :: x in q && x.id in tried && Try(json, post, x).Delivered? && y in AfterRun(q, json, now, post, tried) ==> y.id != x.id
  {
    if q != [] {
      AfterRunRemoves(q[1..], json, now, post, tried);
      AfterRunFrom(q[1..], json, now, post, tried);
      var rest := AfterRun(q[1..], json, now, post, tried);
      forall y | y in rest
        ensures y.id != q[0].id
      {
        var x :| x in q[1..] && (y == x || y == Rescheduled(x, now));
        var k :| 0 <= k < |q[1..]| && q[1..][k] == x;
        assert q[k + 1] == x;
      }
      forall x | x in q
        ensures x == q[0] || x in q[1..]
      {
        var k :| 0 <= k < |q| && q[k] == x;
        if k > 0 {
          assert q[1..][k - 1] == x;
        }
      }
    }
  }

  /**
   * The queue after a run that tried the distinct rows `sel` of a table with
   * distinct ids: rows not tried stay, delivered rows are gone, failed rows
   * stay rescheduled, and nothing else appears.
   */
  lemma AfterRunOutcome(q0: seq<RetryRow>, json: Codec, now: int, post: (nat, Post) -> Attempt, sel: seq<RetryRow>)
    requires DistinctIds(q0)
    requires forall i :: 0 <= i < |sel| ==> sel[i] in q0
    ensures var q := AfterRun(q0, json, now, post, Ids(sel));
      && (forall x :: x in q0 && x !in sel ==> x in q)
      && (forall x, y :: x in sel && Try(json, post, x).Delivered? && y in q ==> y.id != x.id)
      && (forall x :: x in sel && Try(json, post, x).Failed? ==> Rescheduled(x, now) in q)
      && (forall y :: y in q ==> exists x :: x in q0 && (y == x || y == Rescheduled(x, now)))
  {
    AfterRunFrom(q0, json, now, post, Ids(sel));
    AfterRunKeeps(q0, json, now, post, Ids(sel));
    AfterRunRemoves(q0, json, now, post, Ids(sel));
    forall x | x in q0 && x !in sel
      ensures x.id !in Ids(sel)
    {
      OnlyRowWithId(q0, x);
    }
    forall x | x in sel
      ensures x in q0 && x.id in Ids(sel)
    {
      var i :| 0 <= i < |sel| && sel[i] == x;
    }
  }

  /**
   * One run of `processNext`, row by row: rows not selected are untouched;
   * a selected row whose try succeeds is gone and a "retry success" entry
   * is logged for it; a selected row whose try fails (no response, an error
   * status, or JSON that does not parse) stays with one more try and the
   * backed-off time; rows are never added; entries already in the log stay.
   */
  lemma ProcessNextOutcome(q0: seq<RetryRow>, nextId: nat, logs0: seq<ChannelLog>, json: Codec, now: int,
                           post: (nat, Post) -> Attempt)
    requires ValidRetryIds(q0, nextId)
    ensures var sel := SelectDue(q0, now);
      var t := CycleState(Tables(q0, logs0), json, now, post, sel);
      && (forall x :: x in q0 && x !in sel ==> x in t.queue)
      && (forall x, y :: x in sel && Try(json, post, x).Delivered? && y in t.queue ==> y.id != x.id)
      && (forall x :: x in sel && Try(json, post, x).Failed? ==>
            x.(tryCount := x.tryCount + 1, nextTryAt := now + BackoffDelay(x.tryCount + 1)) in t.queue)
      && (forall y :: y in t.queue ==> exists x :: x in q0 && (y == x || y == Rescheduled(x, now)))
      && t.logs == logs0 + SuccessLogs(json, post, sel)
  {
    var sel := SelectDue(q0, now);
    SelectDueSpec(q0, nextId, now);
    CycleMatchesReference(q0, logs0, json, now, post, sel);
    AfterRunOutcome(q0, json, now, post, sel);
  }

  /** The positions in `sel` of the rows whose try succeeds. */
  ghost function DeliveredAt(json: Codec, post: (nat, Post) -> Attempt, sel: seq<RetryRow>): set<int> {
    set i | 0 <= i < |sel| && Try(json, post, sel[i]).Delivered?
  }

  lemma DeliveredAtSnoc(json: Codec, post: (nat, Post) -> Attempt, sel: seq<RetryRow>)
    requires sel != []
    ensures DeliveredAt(json, post, sel)
         == DeliveredAt(json, post, sel[..|sel| - 1])
            + (if Try(json, post, sel[|sel| - 1]).Delivered? then {|sel| - 1} else {})
    ensures |sel| - 1 !in DeliveredAt(json, post, sel[..|sel| - 1])
  {
    var n := |sel| - 1;
    var init := sel[..n];
    forall i
      ensures i in DeliveredAt(json, post, sel) <==>
              i in DeliveredAt(json, post, init) || (i == n && Try(json, post, sel[n]).Delivered?)
    {
      if 0 <= i < n {
        assert init[i] == sel[i];
      }
    }
  }

  /** Exactly one log entry per delivered row. */
  lemma {:induction false} SuccessLogsCount(json: Codec, post: (nat, Post) -> Attempt, sel: seq<RetryRow>)
    ensures |SuccessLogs(json, post, sel)| == |DeliveredAt(json, post, sel)|
  {
    if sel != [] {
      SuccessLogsCount(json, post, sel[..|sel| - 1]);
      DeliveredAtSnoc(json, post, sel);
    }
  }

  /** Every entry a run appends is a "retry success" entry of the aiosell channel without a property. */
  lemma {:induction false} SuccessLogsEntries(json: Codec, post: (nat, Post) -> Attempt, sel: seq<RetryRow>)
    ensures forall e :: e in SuccessLogs(json, post, sel) ==> e.message == SuccessMessage && e.channel == LogChannel && e.propertyId.None?
  {
    if sel != [] {
      SuccessLogsEntries(json, post, sel[..|sel| - 1]);
    }
  }

  // ---------------------------------------------------------------------
  // cleanupZombies

  /** The webhook log entries a delete with cut-off `cutoff` keeps: those not older than it. */
  function RecentLogs(logs: seq<WebhookLog>, cutoff: int): seq<WebhookLog> {
    Filter(logs, (l: WebhookLog) => l.createdAt >= cutoff)
  }

  function RecentRetries(q: seq<RetryRow>, cutoff: int): seq<RetryRow> {
    Filter(q, (r: RetryRow) => r.createdAt >= cutoff)
  }

  /**
   * `cleanupZombies()`: the two deletes run in order, and an error in either
   * is caught; when the first fails the second is not attempted.
   */
  method CleanupZombies(db: Database, now: int, logDeleteFails: bool, retryDeleteFails: bool)
    requires db.Valid()
    modifies db`webhookLogs, db`retryQueue
    ensures db.Valid()
    ensures db.webhookLogs == if logDeleteFails then old(db.webhookLogs) else RecentLogs(old(db.webhookLogs), now - WebhookLogRetention)
    ensures db.retryQueue == if logDeleteFails || retryDeleteFails then old(db.retryQueue)
                             else RecentRetries(old(db.retryQueue), now - RetryRetention)
  {
    if logDeleteFails {
      return;
    }
    db.webhookLogs := RecentLogs(db.webhookLogs, now - WebhookLogRetention);
    if retryDeleteFails {
      return;
    }
    FilterDistinct(db.retryQueue, (r: RetryRow) => r.createdAt >= now - RetryRetention);
    db.retryQueue := RecentRetries(db.retryQueue, now - RetryRetention);
  }

  /**
   * The cut-offs are strict: a webhook log is removed exactly when it is
   * more than 30 days old and a retry row exactly when it is more than 7
   * days old; one created exactly at the cut-off stays.
   */
  lemma CleanupThresholds(logs: seq<WebhookLog>, q: seq<RetryRow>, now: int)
    ensures forall l :: l in RecentLogs(logs, now - WebhookLogRetention) <==> l in logs && now - l.createdAt <= 30 * 86400
    ensures forall r :: r in RecentRetries(q, now - RetryRetention) <==> r in q && now - r.createdAt <= 7 * 86400
    ensures forall r :: r in q && r.createdAt == now - 7 * 86400 ==> r in RecentRetries(q, now - RetryRetention)
    ensures (forall i :: 0 <= i < |q| ==> q[i].createdAt >= now - RetryRetention) ==> RecentRetries(q, now - RetryRetention) == q
  {
  }
}
