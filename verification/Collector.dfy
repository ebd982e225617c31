/** Observed operations and latencies (src/kvsrv_eval/pbsCollector.go). Times are nanoseconds; 0 is Go's zero time. */
module Collector {
  import opened Base
  import opened Siblings

  type Time = int

  const ZERO_TIME: Time := 0

  datatype CompletedWrite = CompletedWrite(key: Str, startedAt: Time, committedAt: Time, obj: Object)

  datatype CompletedRead = CompletedRead(key: Str, startedAt: Time, returnedAt: Time, objects: seq<Object>)

  predicate ByCommit(writes: seq<CompletedWrite>) {
    forall i, j | 0 <= i < j < |writes| :: writes[i].committedAt <= writes[j].committedAt
  }

  predicate ByReturn(readLog: seq<CompletedRead>) {
    forall i, j | 0 <= i < j < |readLog| :: readLog[i].returnedAt <= readLog[j].returnedAt
  }

  /** Ascending keys: the collector's lists are searched by these. */
  predicate Ascending(times: seq<Time>) {
    forall i, j | 0 <= i < j < |times| :: times[i] <= times[j]
  }

  function CommitTimes(writes: seq<CompletedWrite>): seq<Time> {
    seq(|writes|, i requires 0 <= i < |writes| => writes[i].committedAt)
  }

  function ReturnTimes(readLog: seq<CompletedRead>): seq<Time> {
    seq(|readLog|, i requires 0 <= i < |readLog| => readLog[i].returnedAt)
  }

  /** Before position i no time is after t, from there on all are. */
  predicate SplitsAt(times: seq<Time>, t: Time, i: nat) {
    i <= |times| && (forall k | 0 <= k < i :: times[k] <= t) && forall k | i <= k < |times| :: times[k] > t
  }

  /** sort.Search for the first time after t. */
  method FirstAfter(times: seq<Time>, t: Time) returns (i: nat)
    requires Ascending(times)
    ensures SplitsAt(times, t, i)
  {
    var lo, hi := 0, |times|;
    while lo < hi
      invariant 0 <= lo <= hi <= |times|
      invariant forall k | 0 <= k < lo :: times[k] <= t
      invariant forall k | hi <= k < |times| :: times[k] > t
    {
      var mid := lo + (hi - lo) / 2;
      if times[mid] > t { hi := mid; } else { lo := mid + 1; }
    }
    return lo;
  }

  /** Inserted behind everything that is not later: the order of equal times is the order of arrival. */
  predicate InsertedAt<T(==)>(before: seq<T>, x: T, after: seq<T>, i: nat) {
    i <= |before| && after == before[..i] + [x] + before[i..]
  }

  lemma InsertKeepsOrder(before: seq<CompletedWrite>, w: CompletedWrite, after: seq<CompletedWrite>, i: nat)
    requires ByCommit(before) && InsertedAt(before, w, after, i)
    requires forall k | 0 <= k < i :: before[k].committedAt <= w.committedAt
    requires forall k | i <= k < |before| :: before[k].committedAt > w.committedAt
    ensures ByCommit(after)
  {
    forall a, b | 0 <= a < b < |after| ensures after[a].committedAt <= after[b].committedAt {
      assert after[a] == if a < i then before[a] else if a == i then w else before[a - 1];
      assert after[b] == if b < i then before[b] else if b == i then w else before[b - 1];
    }
  }

  lemma InsertKeepsReturns(before: seq<CompletedRead>, r: CompletedRead, after: seq<CompletedRead>, i: nat)
    requires ByReturn(before) && InsertedAt(before, r, after, i)
    requires forall k | 0 <= k < i :: before[k].returnedAt <= r.returnedAt
    requires forall k | i <= k < |before| :: before[k].returnedAt > r.returnedAt
    ensures ByReturn(after)
  {
    forall a, b | 0 <= a < b < |after| ensures after[a].returnedAt <= after[b].returnedAt {
      assert after[a] == if a < i then before[a] else if a == i then r else before[a - 1];
      assert after[b] == if b < i then before[b] else if b == i then r else before[b - 1];
    }
  }

  lemma InsertedContents<T>(before: seq<T>, x: T, after: seq<T>, i: nat)
    requires InsertedAt(before, x, after, i)
    ensures multiset(after) == multiset(before) + multiset{x}
  {
    assert before == before[..i] + before[i..];
  }

  // ----- message traces

  datatype MessageTrace = MessageTrace(sentAt: Time, arrivedAt: Time, respondedAt: Time, receivedAt: Time)

  datatype TraceError = MissingSentAt | MissingArrivedAt | MissingRespondedAt | MissingReceivedAt
    | ArrivedBeforeSent | RespondedBeforeArrived | ReceivedBeforeResponded

  function RequestLatency(m: MessageTrace): int { m.arrivedAt - m.sentAt }

  function ResponseLatency(m: MessageTrace): int { m.receivedAt - m.respondedAt }

  predicate AllSet(m: MessageTrace) {
    m.sentAt != ZERO_TIME && m.arrivedAt != ZERO_TIME && m.respondedAt != ZERO_TIME && m.receivedAt != ZERO_TIME
  }

  /** A trace passes exactly when all four times are set and in order, so that both latencies are non-negative. */
  function Validate(m: MessageTrace): (r: Option<TraceError>)
    ensures r.None? <==> AllSet(m) && m.sentAt <= m.arrivedAt <= m.respondedAt <= m.receivedAt
    ensures r.None? ==> RequestLatency(m) >= 0 && ResponseLatency(m) >= 0
  {
    if m.sentAt == ZERO_TIME then Some(MissingSentAt)
    else if m.arrivedAt == ZERO_TIME then Some(MissingArrivedAt)
    else if m.respondedAt == ZERO_TIME then Some(MissingRespondedAt)
    else if m.receivedAt == ZERO_TIME then Some(MissingReceivedAt)
    else if m.arrivedAt < m.sentAt then Some(ArrivedBeforeSent)
    else if m.respondedAt < m.arrivedAt then Some(RespondedBeforeArrived)
    else if m.receivedAt < m.respondedAt then Some(ReceivedBeforeResponded)
    else None
  }

  /** The four latency classes of the simulation. */
  datatype WARSTrace = WARSTrace(writeRequests: seq<int>, writeAcks: seq<int>, readRequests: seq<int>, readResponses: seq<int>)

  predicate NonNegative(xs: seq<int>) { forall i | 0 <= i < |xs| :: xs[i] >= 0 }

  predicate GoodTrace(t: WARSTrace) {
    && NonNegative(t.writeRequests) && NonNegative(t.writeAcks) && NonNegative(t.readRequests) && NonNegative(t.readResponses)
    && |t.writeRequests| == |t.writeAcks| && |t.readRequests| == |t.readResponses|
  }

  class PBSCollector {
    var trace: WARSTrace
    var writes: seq<CompletedWrite>
    var readLog: seq<CompletedRead>

    ghost predicate Valid()
      reads this
    {
      GoodTrace(trace) && ByCommit(writes) && ByReturn(readLog)
    }

    constructor ()
      ensures Valid() && writes == [] && readLog == []
    {
      trace := WARSTrace([], [], [], []);
      writes, readLog := [], [];
    }

    method ObserveCompletedWrite(w: CompletedWrite)
      requires Valid()
      modifies `writes
      ensures Valid() && multiset(writes) == multiset(old(writes)) + multiset{w}
      ensures exists i :: InsertedAt(old(writes), w, writes, i) && SplitsAt(CommitTimes(old(writes)), w.committedAt, i)
    {
      var i := FirstAfter(CommitTimes(writes), w.committedAt);
      ghost var times := CommitTimes(writes);
      assert forall k | 0 <= k < |writes| :: times[k] == writes[k].committedAt;
      ghost var before := writes;
      writes := writes[..i] + [w] + writes[i..];
      assert InsertedAt(before, w, writes, i);
      InsertKeepsOrder(before, w, writes, i);
      InsertedContents(before, w, writes, i);
    }

    method ObserveCompletedRead(r: CompletedRead)
      requires Valid()
      modifies `readLog
      ensures Valid() && multiset(readLog) == multiset(old(readLog)) + multiset{r}
      ensures exists i :: InsertedAt(old(readLog), r, readLog, i) && SplitsAt(ReturnTimes(old(readLog)), r.returnedAt, i)
    {
      var i := FirstAfter(ReturnTimes(readLog), r.returnedAt);
      ghost var times := ReturnTimes(readLog);
      assert forall k | 0 <= k < |readLog| :: times[k] == readLog[k].returnedAt;
      ghost var before := readLog;
      readLog := readLog[..i] + [r] + readLog[i..];
      assert InsertedAt(before, r, readLog, i);
      InsertKeepsReturns(before, r, readLog, i);
      InsertedContents(before, r, readLog, i);
    }

    /** Only valid traces are recorded, so every recorded sample is non-negative. */
    method ObserveWriteLatency(m: MessageTrace) returns (err: Option<TraceError>)
      requires Valid()
      modifies `trace
      ensures Valid() && err == Validate(m)
      ensures trace == if err.Some? then old(trace) else old(trace).(
        writeRequests := old(trace).writeRequests + [RequestLatency(m)], writeAcks := old(trace).writeAcks + [ResponseLatency(m)])
    {
      err := Validate(m);
      if err.Some? { return; }
      trace := trace.(writeRequests := trace.writeRequests + [RequestLatency(m)], writeAcks := trace.writeAcks + [ResponseLatency(m)]);
    }

    method ObserveReadLatency(m: MessageTrace) returns (err: Option<TraceError>)
      requires Valid()
      modifies `trace
      ensures Valid() && err == Validate(m)
      ensures trace == if err.Some? then old(trace) else old(trace).(
        readRequests := old(trace).readRequests + [RequestLatency(m)], readResponses := old(trace).readResponses + [ResponseLatency(m)])
    {
      err := Validate(m);
      if err.Some? { return; }
      trace := trace.(readRequests := trace.readRequests + [RequestLatency(m)], readResponses := trace.readResponses + [ResponseLatency(m)]);
    }
  }
}
