/**
 The in-memory limiter of backend/app/core/rate_limit.py as a function of its table, beside the
 limiter it stands for: one that never forgets an accepted request and counts its whole history.
 */
module RateLimitSpec {
  import opened Wrappers

  type Time = real
  type Key = string

  datatype Config = Config(requests: int, window: Time)

  datatype Request = Request(key: Key, now: Time)

  const MAX_KEYS: nat := 10_000

  /** A dictionary that remembers the order of insertion. */
  datatype Table = Table(order: seq<Key>, attempts: map<Key, seq<Time>>)

  function Entry(t: Table, key: Key): seq<Time> {
    if key in t.attempts then t.attempts[key] else []
  }

  /** `setdefault`: a new key goes to the end. */
  function Touched(t: Table, key: Key): seq<Key> {
    if key in t.attempts then t.order else t.order + [key]
  }

  /** The deque after the `popleft` loop. */
  function Pruned(times: seq<Time>, cutoff: Time): seq<Time> {
    if times != [] && times[0] <= cutoff then Pruned(times[1..], cutoff) else times
  }

  function Rejected(t: Table, key: Key, times: seq<Time>): Table {
    Table(Touched(t, key), t.attempts[key := times])
  }

  /** The oldest key makes room, unless it is the one just served. */
  function Recorded(t: Table, key: Key, times: seq<Time>): Table {
    var order := Touched(t, key);
    var attempts := t.attempts[key := times];
    if |order| > MAX_KEYS && order[0] != key then Table(order[1..], attempts - {order[0]})
    else Table(order, attempts)
  }

  /** One call of `enforce_fallback`: the new table and whether the request passes. */
  function Enforce(c: Config, t: Table, q: Request): (Table, bool) {
    var recent := Pruned(Entry(t, q.key), q.now - c.window);
    if |recent| >= c.requests then (Rejected(t, q.key, recent), false)
    else (Recorded(t, q.key, recent + [q.now]), true)
  }

  // ------------------------------------------------------ the reference limiter

  /** How many of `times` lie in the half-open interval (lo, hi]. */
  function CountIn(times: seq<Time>, lo: Time, hi: Time): nat {
    if times == [] then 0
    else (if lo < times[0] <= hi then 1 else 0) + CountIn(times[1..], lo, hi)
  }

  /** Decides by the whole history of the key since its entry was created, and keeps all of it. */
  function EnforceByHistory(c: Config, t: Table, q: Request): (Table, bool) {
    var history := Entry(t, q.key);
    if CountIn(history, q.now - c.window, q.now) >= c.requests then (Rejected(t, q.key, history), false)
    else (Recorded(t, q.key, history + [q.now]), true)
  }

  const EMPTY := Table([], map[])

  function Run(c: Config, rs: seq<Request>): Table {
    if rs == [] then EMPTY else Enforce(c, Run(c, rs[..|rs| - 1]), rs[|rs| - 1]).0
  }

  function Answers(c: Config, rs: seq<Request>): seq<bool> {
    if rs == [] then [] else Answers(c, rs[..|rs| - 1]) + [Enforce(c, Run(c, rs[..|rs| - 1]), rs[|rs| - 1]).1]
  }

  function RunByHistory(c: Config, rs: seq<Request>): Table {
    if rs == [] then EMPTY else EnforceByHistory(c, RunByHistory(c, rs[..|rs| - 1]), rs[|rs| - 1]).0
  }

  function AnswersByHistory(c: Config, rs: seq<Request>): seq<bool> {
    if rs == [] then []
    else
      AnswersByHistory(c, rs[..|rs| - 1])
      + [EnforceByHistory(c, RunByHistory(c, rs[..|rs| - 1]), rs[|rs| - 1]).1]
  }

  /** Nothing awaits under the lock, so calls see a clock that never goes back. */
  predicate InOrder(rs: seq<Request>) {
    forall i, j :: 0 <= i < j < |rs| ==> rs[i].now <= rs[j].now
  }

  /** Times of the accepted requests for `key`, over the whole run and regardless of evictions. */
  function Accepted(c: Config, rs: seq<Request>, key: Key): seq<Time> {
    if rs == [] then []
    else
      var q := rs[|rs| - 1];
      var before := Accepted(c, rs[..|rs| - 1], key);
      if q.key == key && EnforceByHistory(c, RunByHistory(c, rs[..|rs| - 1]), q).1 then before + [q.now] else before
  }

  // ------------------------------------------------------------ the fixed window

  /** A Redis counter with its expiry time. */
  datatype Counter = Counter(count: nat, expires: Time)

  /** INCR, and EXPIRE when the counter is new. */
  function Increment(c: Config, counter: Option<Counter>, now: Time): Counter {
    if counter.None? || counter.value.expires <= now then Counter(1, now + c.window)
    else Counter(counter.value.count + 1, counter.value.expires)
  }

  function Counted(c: Config, times: seq<Time>): Option<Counter> {
    if times == [] then None else Some(Increment(c, Counted(c, times[..|times| - 1]), times[|times| - 1]))
  }

  /** Times at which the counter let a request pass. */
  function Passed(c: Config, times: seq<Time>): seq<Time> {
    if times == [] then []
    else
      var now := times[|times| - 1];
      var before := Passed(c, times[..|times| - 1]);
      if Increment(c, Counted(c, times[..|times| - 1]), now).count <= c.requests then before + [now] else before
  }
}
