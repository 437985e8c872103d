/** What the limiter guarantees, over every sequence of requests. */
module RateLimit {
  import opened Wrappers
  import opened RateLimitSpec

  predicate Sorted(times: seq<Time>) {
    forall i, j :: 0 <= i < j < |times| ==> times[i] <= times[j]
  }

  // ------------------------------------------------------------------- counting

  lemma {:induction false} CountConcat(a: seq<Time>, b: seq<Time>, lo: Time, hi: Time)
    ensures CountIn(a + b, lo, hi) == CountIn(a, lo, hi) + CountIn(b, lo, hi)
  {
    if a == [] {
      assert a + b == b;
    } else {
      assert (a + b)[1..] == a[1..] + b;
      CountConcat(a[1..], b, lo, hi);
    }
  }

  lemma {:induction false} CountNone(a: seq<Time>, lo: Time, hi: Time)
    requires forall i :: 0 <= i < |a| ==> a[i] <= lo
    ensures CountIn(a, lo, hi) == 0
  {
    if a != [] {
      CountNone(a[1..], lo, hi);
    }
  }

  lemma {:induction false} CountAtMost(a: seq<Time>, lo: Time, hi: Time)
    ensures CountIn(a, lo, hi) <= |a|
    ensures (forall i :: 0 <= i < |a| ==> lo < a[i] <= hi) ==> CountIn(a, lo, hi) == |a|
  {
    if a != [] {
      CountAtMost(a[1..], lo, hi);
    }
  }

  lemma CountSuffix(full: seq<Time>, n: nat, lo: Time, hi: Time)
    requires n <= |full| && forall i :: 0 <= i < n ==> full[i] <= lo
    ensures CountIn(full, lo, hi) == CountIn(full[n..], lo, hi)
  {
    assert full == full[..n] + full[n..];
    CountConcat(full[..n], full[n..], lo, hi);
    CountNone(full[..n], lo, hi);
  }

  // ------------------------------------- the pruned deque against the full history

  /** `kept` is `full` without some times at its front, all of them at or before `cutoff`. */
  predicate Keeps(kept: seq<Time>, full: seq<Time>, cutoff: Time) {
    && |kept| <= |full|
    && kept == full[|full| - |kept|..]
    && forall i :: 0 <= i < |full| - |kept| ==> full[i] <= cutoff
  }

  lemma {:induction false} PrunedKeeps(kept: seq<Time>, full: seq<Time>, earlier: Time, cutoff: Time)
    requires Keeps(kept, full, earlier) && earlier <= cutoff && Sorted(full)
    ensures var p := Pruned(kept, cutoff);
            Keeps(p, full, cutoff) && forall i :: 0 <= i < |p| ==> cutoff < p[i]
    decreases |kept|
  {
    if kept != [] && kept[0] <= cutoff {
      var n := |full| - |kept|;
      assert kept[0] == full[n];
      assert kept[1..] == full[n + 1..];
      PrunedKeeps(kept[1..], full, cutoff, cutoff);
    }
  }

  lemma PrunedCounts(kept: seq<Time>, full: seq<Time>, earlier: Time, cutoff: Time, now: Time)
    requires Keeps(kept, full, earlier) && earlier <= cutoff && Sorted(full)
    requires forall i :: 0 <= i < |full| ==> full[i] <= now
    ensures |Pruned(kept, cutoff)| == CountIn(full, cutoff, now)
  {
    PrunedKeeps(kept, full, earlier, cutoff);
    var p := Pruned(kept, cutoff);
    CountSuffix(full, |full| - |p|, cutoff, now);
    CountAtMost(p, cutoff, now);
  }

  /** The table of the limiter against the table of the reference, at time `clock`. */
  ghost predicate Prunes(c: Config, t: Table, full: Table, clock: Time) {
    && t.order == full.order
    && t.attempts.Keys == full.attempts.Keys
    && forall k :: k in t.attempts ==> EntryPrunes(c, t.attempts[k], full.attempts[k], clock)
  }

  ghost predicate EntryPrunes(c: Config, kept: seq<Time>, full: seq<Time>, clock: Time) {
    && Keeps(kept, full, clock - c.window)
    && Sorted(full)
    && forall i :: 0 <= i < |full| ==> full[i] <= clock
  }

  lemma EntryCounts(c: Config, kept: seq<Time>, full: seq<Time>, clock: Time, now: Time)
    requires EntryPrunes(c, kept, full, clock) && clock <= now
    ensures |Pruned(kept, now - c.window)| == CountIn(full, now - c.window, now)
  {
    PrunedCounts(kept, full, clock - c.window, now - c.window, now);
  }

  lemma EntryKept(c: Config, kept: seq<Time>, full: seq<Time>, clock: Time, now: Time)
    requires EntryPrunes(c, kept, full, clock) && clock <= now
    ensures EntryPrunes(c, Pruned(kept, now - c.window), full, now)
  {
    PrunedKeeps(kept, full, clock - c.window, now - c.window);
  }

  lemma EntryStep(c: Config, kept: seq<Time>, full: seq<Time>, clock: Time, now: Time)
    requires EntryPrunes(c, kept, full, clock) && clock <= now
    ensures var p := Pruned(kept, now - c.window);
            && |p| == CountIn(full, now - c.window, now)
            && EntryPrunes(c, p, full, now)
            && EntryPrunes(c, p + [now], full + [now], now)
  {
    EntryCounts(c, kept, full, clock, now);
    EntryKept(c, kept, full, clock, now);
    EntryAppend(c, Pruned(kept, now - c.window), full, now);
  }

  lemma EntryAppend(c: Config, kept: seq<Time>, full: seq<Time>, now: Time)
    requires EntryPrunes(c, kept, full, now)
    ensures EntryPrunes(c, kept + [now], full + [now], now)
  {
  }

  lemma EntriesAge(c: Config, t: Table, full: Table, clock: Time, now: Time)
    requires Prunes(c, t, full, clock) && clock <= now
    ensures Prunes(c, t, full, now)
  {
  }

  lemma RejectedPrunes(c: Config, t: Table, full: Table, key: Key, kept: seq<Time>, history: seq<Time>, now: Time)
    requires Prunes(c, t, full, now) && EntryPrunes(c, kept, history, now)
    ensures Prunes(c, Rejected(t, key, kept), Rejected(full, key, history), now)
  {
  }

  lemma RecordedPrunes(c: Config, t: Table, full: Table, key: Key, kept: seq<Time>, history: seq<Time>, now: Time)
    requires Prunes(c, t, full, now) && EntryPrunes(c, kept, history, now)
    ensures Prunes(c, Recorded(t, key, kept), Recorded(full, key, history), now)
  {
  }

  /** One call: the same answer, and the tables stay related. */
  lemma PrunedStepRefines(c: Config, t: Table, full: Table, clock: Time, q: Request)
    requires Prunes(c, t, full, clock) && clock <= q.now
    ensures Enforce(c, t, q).1 == EnforceByHistory(c, full, q).1
    ensures Prunes(c, Enforce(c, t, q).0, EnforceByHistory(c, full, q).0, q.now)
  {
    var kept, history := Entry(t, q.key), Entry(full, q.key);
    var recent := Pruned(kept, q.now - c.window);
    assert |recent| == CountIn(history, q.now - c.window, q.now) by {
      KeyStep(c, t, full, clock, q);
    }
    EntriesAge(c, t, full, clock, q.now);
    if |recent| >= c.requests {
      assert EntryPrunes(c, recent, history, q.now) by {
        KeyStep(c, t, full, clock, q);
      }
      RejectedPrunes(c, t, full, q.key, recent, history, q.now);
    } else {
      assert EntryPrunes(c, recent + [q.now], history + [q.now], q.now) by {
        KeyStep(c, t, full, clock, q);
      }
      RecordedPrunes(c, t, full, q.key, recent + [q.now], history + [q.now], q.now);
    }
  }

  /** `EntryStep` for the key of a request, whether or not it has an entry yet. */
  lemma KeyStep(c: Config, t: Table, full: Table, clock: Time, q: Request)
    requires Prunes(c, t, full, clock) && clock <= q.now
    ensures var recent, history := Pruned(Entry(t, q.key), q.now - c.window), Entry(full, q.key);
            && |recent| == CountIn(history, q.now - c.window, q.now)
            && EntryPrunes(c, recent, history, q.now)
            && EntryPrunes(c, recent + [q.now], history + [q.now], q.now)
  {
    EntryStep(c, Entry(t, q.key), Entry(full, q.key), clock, q.now);
  }

  lemma RunPrunes(c: Config, rs: seq<Request>, clock: Time)
    requires InOrder(rs) && (rs != [] ==> clock == rs[|rs| - 1].now)
    ensures Prunes(c, Run(c, rs), RunByHistory(c, rs), clock)
  {
    if rs != [] {
      var before := rs[..|rs| - 1];
      var last := if before == [] then clock else before[|before| - 1].now;
      RunPrunes(c, before, last);
      PrunedStepRefines(c, Run(c, before), RunByHistory(c, before), last, rs[|rs| - 1]);
    }
  }

  /** Forgetting old requests never changes a decision: every run gets the answers of the full history. */
  lemma {:induction false} PruningIsInvisible(c: Config, rs: seq<Request>)
    requires InOrder(rs)
    ensures Answers(c, rs) == AnswersByHistory(c, rs)
  {
    if rs != [] {
      var before := rs[..|rs| - 1];
      var last := if before == [] then rs[|rs| - 1].now else before[|before| - 1].now;
      PruningIsInvisible(c, before);
      RunPrunes(c, before, last);
      PrunedStepRefines(c, Run(c, before), RunByHistory(c, before), last, rs[|rs| - 1]);
    }
  }

  // ------------------------------------------------------- windows of any position

  /** Every element is at least `c.window` after the one `n` places before it. */
  predicate Spaced(times: seq<Time>, n: nat, window: Time) {
    forall j :: n <= j < |times| ==> times[j - n] <= times[j] - window
  }

  lemma NewestInWindow(times: seq<Time>, n: nat, window: Time, x: Time)
    requires times != [] && Sorted(times) && Spaced(times, n, window)
    requires times[|times| - 1] <= x
    ensures CountIn(times, x - window, x) <= n
  {
    var last := |times| - 1;
    var out := if last < n then 0 else last - n + 1;
    assert out > 0 ==> times[out - 1] <= times[last] - window;
    CountSuffix(times, out, x - window, x);
    CountAtMost(times[out..], x - window, x);
  }

  /** A spaced history has at most `n` times in any half-open interval of that length. */
  lemma {:induction false} WindowBound(times: seq<Time>, n: nat, window: Time, x: Time)
    requires Sorted(times) && Spaced(times, n, window)
    ensures CountIn(times, x - window, x) <= n
  {
    if times != [] && times[|times| - 1] <= x {
      NewestInWindow(times, n, window, x);
    } else if times != [] {
      var last := |times| - 1;
      var before := times[..last];
      WindowBound(before, n, window, x);
      assert times == before + [times[last]];
      CountConcat(before, [times[last]], x - window, x);
    }
  }

  lemma TailInside(times: seq<Time>, k: nat, lo: Time, hi: Time)
    requires Sorted(times) && k < |times| && lo < times[k]
    requires forall i :: 0 <= i < |times| ==> times[i] <= hi
    ensures CountIn(times, lo, hi) >= |times| - k
  {
    assert times == times[..k] + times[k..];
    CountConcat(times[..k], times[k..], lo, hi);
    CountAtMost(times[k..], lo, hi);
  }

  /** With fewer than `n` times in the window, the `n`-th from the end lies before it. */
  lemma FullWindow(times: seq<Time>, n: nat, lo: Time, hi: Time)
    requires Sorted(times) && CountIn(times, lo, hi) < n
    requires forall i :: 0 <= i < |times| ==> times[i] <= hi
    ensures |times| >= n ==> times[|times| - n] <= lo
  {
    if |times| >= n && times[|times| - n] > lo {
      TailInside(times, |times| - n, lo, hi);
    }
  }

  function Limit(c: Config): nat {
    if c.requests > 0 then c.requests else 0
  }

  predicate Disciplined(c: Config, times: seq<Time>, clock: Time) {
    && Sorted(times) && Spaced(times, Limit(c), c.window)
    && forall i :: 0 <= i < |times| ==> times[i] <= clock
  }

  lemma AcceptedDisciplined(c: Config, times: seq<Time>, clock: Time, now: Time)
    requires Disciplined(c, times, clock) && clock <= now
    requires CountIn(times, now - c.window, now) < c.requests
    ensures Disciplined(c, times + [now], now)
  {
    FullWindow(times, c.requests, now - c.window, now);
  }

  lemma {:induction false} EntriesDisciplined(c: Config, rs: seq<Request>, clock: Time, key: Key)
    requires InOrder(rs) && (rs != [] ==> clock == rs[|rs| - 1].now)
    ensures Disciplined(c, Entry(RunByHistory(c, rs), key), clock)
  {
    if rs != [] {
      var before := rs[..|rs| - 1];
      var q := rs[|rs| - 1];
      var last := if before == [] then q.now else before[|before| - 1].now;
      EntriesDisciplined(c, before, last, key);
      var t := RunByHistory(c, before);
      if key == q.key && EnforceByHistory(c, t, q).1 {
        AcceptedDisciplined(c, Entry(t, key), last, q.now);
      }
    }
  }

  /** However requests arrive, an entry never holds more than the limit in any window of any position. */
  lemma EntryWindowBound(c: Config, rs: seq<Request>, key: Key, x: Time)
    requires InOrder(rs)
    ensures CountIn(Entry(RunByHistory(c, rs), key), x - c.window, x) <= Limit(c)
  {
    EntriesDisciplined(c, rs, if rs == [] then 0.0 else rs[|rs| - 1].now, key);
    WindowBound(Entry(RunByHistory(c, rs), key), Limit(c), c.window, x);
  }

  // ------------------------------------------------------------------- evictions

  predicate RecentEnd(entry: seq<Time>, log: seq<Time>) {
    |entry| <= |log| && entry == log[|log| - |entry|..]
  }

  lemma RecentEndAppend(entry: seq<Time>, log: seq<Time>, now: Time)
    requires RecentEnd(entry, log)
    ensures RecentEnd(entry + [now], log + [now])
  {
  }

  /** An entry is always the recent end of everything accepted for its key. */
  lemma {:induction false} EntryIsRecentEnd(c: Config, rs: seq<Request>, key: Key)
    ensures RecentEnd(Entry(RunByHistory(c, rs), key), Accepted(c, rs, key))
  {
    if rs != [] {
      var before := rs[..|rs| - 1];
      EntryIsRecentEnd(c, before, key);
      RecentEndAppend(Entry(RunByHistory(c, before), key), Accepted(c, before, key), rs[|rs| - 1].now);
    }
  }

  lemma RecentEndCounts(entry: seq<Time>, log: seq<Time>, lo: Time, hi: Time)
    requires RecentEnd(entry, log)
    ensures CountIn(entry, lo, hi) <= CountIn(log, lo, hi)
  {
  }

  lemma LogCounts(c: Config, rs: seq<Request>, key: Key, lo: Time, hi: Time)
    ensures CountIn(Entry(RunByHistory(c, rs), key), lo, hi) <= CountIn(Accepted(c, rs, key), lo, hi)
  {
    EntryIsRecentEnd(c, rs, key);
    RecentEndCounts(Entry(RunByHistory(c, rs), key), Accepted(c, rs, key), lo, hi);
  }

  predicate Follows(q: Request, rs: seq<Request>) {
    rs != [] ==> rs[|rs| - 1].now <= q.now
  }

  /** Eviction never causes a rejection: whoever is refused really did use up the window. */
  lemma RejectionIsDeserved(c: Config, rs: seq<Request>, q: Request)
    requires InOrder(rs) && Follows(q, rs)
    requires !Enforce(c, Run(c, rs), q).1
    ensures CountIn(Accepted(c, rs, q.key), q.now - c.window, q.now) >= c.requests
  {
    DecidesByHistory(c, rs, q);
    LogCounts(c, rs, q.key, q.now - c.window, q.now);
  }

  lemma DecidesAlike(c: Config, t: Table, full: Table, clock: Time, q: Request)
    requires Prunes(c, t, full, clock) && clock <= q.now
    ensures Enforce(c, t, q).1 <==> CountIn(Entry(full, q.key), q.now - c.window, q.now) < c.requests
  {
    PrunedStepRefines(c, t, full, clock, q);
  }

  lemma DecidesByHistory(c: Config, rs: seq<Request>, q: Request)
    requires InOrder(rs) && Follows(q, rs)
    ensures var entry := Entry(RunByHistory(c, rs), q.key);
            Enforce(c, Run(c, rs), q).1 <==> CountIn(entry, q.now - c.window, q.now) < c.requests
  {
    var last := if rs == [] then q.now else rs[|rs| - 1].now;
    RunPrunes(c, rs, last);
    DecidesAlike(c, Run(c, rs), RunByHistory(c, rs), last, q);
  }

  /** No call of the run removes the entry of `key`. */
  predicate NeverEvicted(c: Config, rs: seq<Request>, key: Key) {
    rs != [] ==>
      && NeverEvicted(c, rs[..|rs| - 1], key)
      && (key in RunByHistory(c, rs[..|rs| - 1]).attempts ==> key in RunByHistory(c, rs).attempts)
  }

  lemma {:induction false} EntryIsWholeLog(c: Config, rs: seq<Request>, key: Key)
    requires NeverEvicted(c, rs, key)
    ensures Entry(RunByHistory(c, rs), key) == Accepted(c, rs, key)
  {
    if rs != [] {
      EntryIsWholeLog(c, rs[..|rs| - 1], key);
    }
  }

  /**
   While the entry is not evicted the limiter is exact: it accepts just when fewer than `requests` of
   all requests ever accepted for the key lie in the window before now, and no window, wherever it
   lies, holds more than the limit.
   */
  lemma ExactWithoutEviction(c: Config, rs: seq<Request>, q: Request, x: Time)
    requires InOrder(rs) && Follows(q, rs) && NeverEvicted(c, rs, q.key)
    ensures Enforce(c, Run(c, rs), q).1 <==> CountIn(Accepted(c, rs, q.key), q.now - c.window, q.now) < c.requests
    ensures CountIn(Accepted(c, rs, q.key), x - c.window, x) <= Limit(c)
  {
    DecidesByHistory(c, rs, q);
    EntryIsWholeLog(c, rs, q.key);
    EntryWindowBound(c, rs, q.key, x);
  }

  function Only(rs: seq<Request>, key: Key): seq<Request> {
    if rs == [] then []
    else
      var before := Only(rs[..|rs| - 1], key);
      if rs[|rs| - 1].key == key then before + [rs[|rs| - 1]] else before
  }

  lemma OnlySnoc(c: Config, rs: seq<Request>, key: Key)
    requires rs != []
    ensures RunByHistory(c, Only(rs, key))
              == var t := RunByHistory(c, Only(rs[..|rs| - 1], key));
                 if rs[|rs| - 1].key == key then EnforceByHistory(c, t, rs[|rs| - 1]).0 else t
  {
  }

  function NextEntry(c: Config, history: seq<Time>, now: Time): seq<Time> {
    if CountIn(history, now - c.window, now) >= c.requests then history else history + [now]
  }

  /** The key being served is never the one evicted. */
  lemma ServedEntry(c: Config, t: Table, q: Request)
    ensures Entry(EnforceByHistory(c, t, q).0, q.key) == NextEntry(c, Entry(t, q.key), q.now)
  {
  }

  lemma OtherEntry(c: Config, t: Table, q: Request, key: Key)
    requires q.key != key && (key in t.attempts ==> key in EnforceByHistory(c, t, q).0.attempts)
    ensures Entry(EnforceByHistory(c, t, q).0, key) == Entry(t, key)
  {
  }

  /** Without eviction, what others send makes no difference to a key. */
  lemma {:induction false} KeysDoNotInterfere(c: Config, rs: seq<Request>, key: Key)
    requires NeverEvicted(c, rs, key)
    ensures Entry(RunByHistory(c, rs), key) == Entry(RunByHistory(c, Only(rs, key)), key)
  {
    if rs != [] {
      var before := rs[..|rs| - 1];
      var q := rs[|rs| - 1];
      KeysDoNotInterfere(c, before, key);
      OnlySnoc(c, rs, key);
      if q.key == key {
        ServedEntry(c, RunByHistory(c, before), q);
        ServedEntry(c, RunByHistory(c, Only(before, key)), q);
      } else {
        OtherEntry(c, RunByHistory(c, before), q, key);
      }
    }
  }

  // ------------------------------------------------------------------------ sizes

  ghost predicate Listed(t: Table) {
    && (forall i, j :: 0 <= i < j < |t.order| ==> t.order[i] != t.order[j])
    && (forall k :: k in t.order <==> k in t.attempts)
  }

  lemma {:induction false} PrunedNotLonger(times: seq<Time>, cutoff: Time)
    ensures |Pruned(times, cutoff)| <= |times|
  {
    if times != [] && times[0] <= cutoff {
      PrunedNotLonger(times[1..], cutoff);
    }
  }

  ghost predicate Sized(c: Config, t: Table) {
    && Listed(t)
    && (forall k :: k in t.attempts ==> |t.attempts[k]| <= Limit(c))
    && (c.requests >= 1 ==> |t.order| <= MAX_KEYS)
  }

  /** Whenever the map is over its size the oldest key is not the one just served. */
  lemma EvictionSparesCurrentKey(c: Config, t: Table, q: Request)
    requires Sized(c, t) && Enforce(c, t, q).1
    ensures |Touched(t, q.key)| > MAX_KEYS ==> q.key !in t.attempts && Touched(t, q.key)[0] != q.key
  {
  }

  lemma TouchedListed(t: Table, key: Key, times: seq<Time>)
    requires Listed(t)
    ensures Listed(Table(Touched(t, key), t.attempts[key := times]))
  {
  }

  lemma OldestDropped(t: Table)
    requires Listed(t) && t.order != []
    ensures Listed(Table(t.order[1..], t.attempts - {t.order[0]}))
  {
  }

  lemma SizedStep(c: Config, t: Table, q: Request)
    requires Sized(c, t)
    ensures Sized(c, Enforce(c, t, q).0)
  {
    var recent := Pruned(Entry(t, q.key), q.now - c.window);
    PrunedNotLonger(Entry(t, q.key), q.now - c.window);
    if |recent| >= c.requests {
      TouchedListed(t, q.key, recent);
      assert c.requests >= 1 ==> q.key in t.attempts;
    } else {
      var whole := Table(Touched(t, q.key), t.attempts[q.key := recent + [q.now]]);
      TouchedListed(t, q.key, recent + [q.now]);
      OldestDropped(whole);
      EvictionSparesCurrentKey(c, t, q);
    }
  }

  /** For every run, whatever the clock does: keys listed once, deques within the limit, map within its size. */
  lemma {:induction false} RunSized(c: Config, rs: seq<Request>)
    ensures Sized(c, Run(c, rs))
  {
    if rs != [] {
      RunSized(c, rs[..|rs| - 1]);
      SizedStep(c, Run(c, rs[..|rs| - 1]), rs[|rs| - 1]);
    }
  }

  /** The position in the run of the request that created the present entry of `key`. */
  function Born(c: Config, rs: seq<Request>, key: Key): nat {
    if rs == [] then 0
    else if key in Run(c, rs[..|rs| - 1]).attempts then Born(c, rs[..|rs| - 1], key)
    else |rs| - 1
  }

  ghost predicate ByAge(c: Config, rs: seq<Request>, order: seq<Key>) {
    && (forall i :: 0 <= i < |order| ==> Born(c, rs, order[i]) < |rs|)
    && (forall i, j :: 0 <= i < j < |order| ==> Born(c, rs, order[i]) < Born(c, rs, order[j]))
  }

  lemma TouchedByAge(c: Config, rs: seq<Request>)
    requires rs != [] && Listed(Run(c, rs[..|rs| - 1]))
    requires ByAge(c, rs[..|rs| - 1], Run(c, rs[..|rs| - 1]).order)
    ensures ByAge(c, rs, Touched(Run(c, rs[..|rs| - 1]), rs[|rs| - 1].key))
  {
  }

  /** The table is listed by the age of its entries, so the one evicted is always the oldest. */
  lemma {:induction false} ListedByAge(c: Config, rs: seq<Request>)
    ensures ByAge(c, rs, Run(c, rs).order)
  {
    if rs != [] {
      var before := rs[..|rs| - 1];
      ListedByAge(c, before);
      RunSized(c, before);
      TouchedByAge(c, rs);
      OrderAfter(c, Run(c, before), rs[|rs| - 1]);
    }
  }

  lemma OrderAfter(c: Config, t: Table, q: Request)
    ensures var touched := Touched(t, q.key);
            Enforce(c, t, q).0.order == touched || (touched != [] && Enforce(c, t, q).0.order == touched[1..])
  {
  }

  /** `n` requests with `n` different keys. */
  function Distinct(n: nat): (rs: seq<Request>)
    ensures |rs| == n
  {
    seq(n, i requires 0 <= i < n => Request(Unary(i), 0.0))
  }

  function Unary(i: nat): Key {
    seq(i, _ => 'x')
  }

  /** With a limit below one nothing is accepted, so nothing is ever evicted and every new key stays. */
  lemma {:induction false} RejectionsPileUp(c: Config, n: nat)
    requires c.requests < 1
    ensures |Run(c, Distinct(n)).order| == n
    ensures forall k :: k in Run(c, Distinct(n)).attempts ==> |k| < n
  {
    if n > 0 {
      RejectionsPileUp(c, n - 1);
      assert Distinct(n)[..n - 1] == Distinct(n - 1);
      assert |Unary(n - 1)| == n - 1;
    }
  }

  /** The bound on the number of keys holds on all runs exactly when the limit is at least one. */
  lemma KeyBoundExactly(c: Config)
    ensures (forall rs :: |Run(c, rs).order| <= MAX_KEYS) <==> c.requests >= 1
  {
    if c.requests >= 1 {
      forall rs ensures |Run(c, rs).order| <= MAX_KEYS {
        RunSized(c, rs);
      }
    } else {
      RejectionsPileUp(c, MAX_KEYS + 1);
      assert |Run(c, Distinct(MAX_KEYS + 1)).order| > MAX_KEYS;
    }
  }

  // ------------------------------------------------------------ what eviction costs

  /**
   What a call does to the keys: only an accepted new key that finds 10,000 others evicts one, the oldest; any
   other call keeps every key.
   */
  lemma EvictsExactly(c: Config, t: Table, q: Request)
    requires Sized(c, t)
    ensures var (after, passes) := Enforce(c, t, q);
            if passes && q.key !in t.attempts && |t.order| >= 10_000 then after.order == t.order[1..] + [q.key]
            else after.order == if q.key in t.attempts then t.order else t.order + [q.key]
  {
  }

  function KeysOf(rs: seq<Request>): set<Key> {
    set i | 0 <= i < |rs| :: rs[i].key
  }

  lemma KeysOfSnoc(rs: seq<Request>)
    requires rs != []
    ensures KeysOf(rs) == KeysOf(rs[..|rs| - 1]) + {rs[|rs| - 1].key}
    ensures |KeysOf(rs[..|rs| - 1])| <= |KeysOf(rs)|
  {
    var before := rs[..|rs| - 1];
    assert forall i :: 0 <= i < |before| ==> before[i] == rs[i];
    forall k | k in KeysOf(rs) ensures k in KeysOf(before) + {rs[|rs| - 1].key} {
      var i :| 0 <= i < |rs| && rs[i].key == k;
      if i < |before| {
        assert before[i].key == k;
      }
    }
    assert KeysOf(rs) >= KeysOf(before);
    SubsetIsSmaller(KeysOf(before), KeysOf(rs));
  }

  lemma SubsetIsSmaller(a: set<Key>, b: set<Key>)
    requires a <= b
    ensures |a| <= |b|
  {
    if a != {} {
      var k :| k in a;
      SubsetIsSmaller(a - {k}, b - {k});
    }
  }

  /** With at most 10,000 different keys the table lists every key that ever asked. */
  lemma {:induction false} FewKeysAllListed(c: Config, rs: seq<Request>)
    requires |KeysOf(rs)| <= 10_000
    ensures RunByHistory(c, rs).attempts.Keys == KeysOf(rs)
    ensures |RunByHistory(c, rs).order| == |KeysOf(rs)|
  {
    if rs != [] {
      KeysOfSnoc(rs);
      FewKeysAllListed(c, rs[..|rs| - 1]);
    }
  }

  lemma {:induction false} FewKeysNeverEvicted(c: Config, rs: seq<Request>, key: Key)
    requires |KeysOf(rs)| <= 10_000
    ensures NeverEvicted(c, rs, key)
  {
    if rs != [] {
      KeysOfSnoc(rs);
      FewKeysNeverEvicted(c, rs[..|rs| - 1], key);
      FewKeysAllListed(c, rs[..|rs| - 1]);
      FewKeysAllListed(c, rs);
    }
  }

  /** So for at most 10,000 different keys the limiter is exact for every one of them on every ordered run. */
  lemma FewKeysAreExact(c: Config, rs: seq<Request>, q: Request, x: Time)
    requires InOrder(rs) && Follows(q, rs) && |KeysOf(rs)| <= 10_000
    ensures Enforce(c, Run(c, rs), q).1 <==> CountIn(Accepted(c, rs, q.key), q.now - c.window, q.now) < c.requests
    ensures CountIn(Accepted(c, rs, q.key), x - c.window, x) <= Limit(c)
  {
    FewKeysNeverEvicted(c, rs, q.key);
    ExactWithoutEviction(c, rs, q, x);
  }

  // ------------------------------------------------------------- the fixed window

  /** Where the current and the previous counter's first accepted request stand in `Passed`. */
  datatype Marks = Marks(previous: nat, current: nat)

  function MarksOf(c: Config, times: seq<Time>): Marks {
    if times == [] then Marks(0, 0)
    else
      var before := times[..|times| - 1];
      var m := MarksOf(c, before);
      if Increment(c, Counted(c, before), times[|times| - 1]).count == 1
      then Marks(m.current, |Passed(c, before)|)
      else m
  }

  /** No window holds more than two counters' worth, less the one request that opened the first. */
  function CounterLimit(c: Config): nat {
    if c.requests > 0 then 2 * c.requests - 1 else 0
  }

  ghost predicate CounterInv(c: Config, counter: Counter, passed: seq<Time>, m: Marks, clock: Time) {
    && Sorted(passed) && (forall i :: 0 <= i < |passed| ==> passed[i] <= clock)
    && Spaced(passed, CounterLimit(c), c.window)
    && counter.count > 0
    && m.previous <= m.current <= |passed|
    && |passed| - m.current == (if counter.count <= Limit(c) then counter.count else Limit(c))
    && m.current - m.previous <= Limit(c)
    && (m.current < |passed| ==> passed[m.current] == counter.expires - c.window)
    && (0 < m.current < |passed| ==> m.previous < m.current && passed[m.previous] <= passed[m.current] - c.window)
    && (m.current == |passed| ==> passed == [])
  }

  lemma NewCounter(c: Config, counter: Counter, passed: seq<Time>, m: Marks, clock: Time, now: Time)
    requires CounterInv(c, counter, passed, m, clock) && clock <= now && counter.expires <= now
    ensures CounterInv(c, Counter(1, now + c.window), if 1 <= c.requests then passed + [now] else passed,
                       Marks(m.current, |passed|), now)
  {
  }

  lemma SameCounter(c: Config, counter: Counter, passed: seq<Time>, m: Marks, clock: Time, now: Time)
    requires CounterInv(c, counter, passed, m, clock) && clock <= now < counter.expires
    ensures CounterInv(c, Counter(counter.count + 1, counter.expires),
                       if counter.count + 1 <= c.requests then passed + [now] else passed, m, now)
  {
  }

  lemma {:induction false} CounterRuns(c: Config, times: seq<Time>)
    requires times != [] && Sorted(times)
    ensures CounterInv(c, Counted(c, times).value, Passed(c, times), MarksOf(c, times), times[|times| - 1])
  {
    var before := times[..|times| - 1];
    var now := times[|times| - 1];
    if before != [] {
      CounterRuns(c, before);
      var counter := Counted(c, before).value;
      if counter.expires <= now {
        NewCounter(c, counter, Passed(c, before), MarksOf(c, before), before[|before| - 1], now);
      } else {
        SameCounter(c, counter, Passed(c, before), MarksOf(c, before), before[|before| - 1], now);
      }
    }
  }

  /**
   One counter lets at most `requests` pass in its lifetime; any window of its length sees fewer than two
   counters' worth.
   */
  lemma CounterWindowBound(c: Config, times: seq<Time>, x: Time)
    requires Sorted(times)
    ensures CountIn(Passed(c, times), x - c.window, x) <= CounterLimit(c)
    ensures times != [] ==> |Passed(c, times)| - MarksOf(c, times).current <= Limit(c)
  {
    if times != [] {
      CounterRuns(c, times);
      WindowBound(Passed(c, times), CounterLimit(c), c.window, x);
    }
  }

  function Copies(t: Time, n: nat): (r: seq<Time>)
    ensures |r| == n && forall i :: 0 <= i < n ==> r[i] == t
  {
    seq(n, _ => t)
  }

  lemma CountedSnoc(c: Config, times: seq<Time>, t: Time)
    requires times != [] && t < Counted(c, times).value.expires
    ensures var k := Counted(c, times).value;
            Counted(c, times + [t]) == Some(Counter(k.count + 1, k.expires))
    ensures Counted(c, times).value.count < c.requests ==> Passed(c, times + [t]) == Passed(c, times) + [t]
  {
  }

  lemma {:induction false} Repeated(c: Config, times: seq<Time>, t: Time, n: nat)
    requires times != [] && t < Counted(c, times).value.expires && Counted(c, times).value.count + n <= c.requests
    ensures var k := Counted(c, times).value;
            Counted(c, times + Copies(t, n)) == Some(Counter(k.count + n, k.expires))
    ensures Passed(c, times + Copies(t, n)) == Passed(c, times) + Copies(t, n)
  {
    if n == 0 {
      assert times + Copies(t, n) == times;
      assert Passed(c, times) + Copies(t, n) == Passed(c, times);
    } else {
      Repeated(c, times, t, n - 1);
      CountedSnoc(c, times + Copies(t, n - 1), t);
      CopiesSnoc(times, t, n);
      CopiesSnoc(Passed(c, times), t, n);
    }
  }

  lemma CopiesSnoc(a: seq<Time>, t: Time, n: nat)
    requires n > 0
    ensures a + Copies(t, n) == a + Copies(t, n - 1) + [t]
  {
  }

  /** One request opens a counter, the rest of its allowance comes late, and the next counter is used up at once. */
  function Straddling(c: Config): seq<Time>
    requires c.requests >= 1
  {
    [0.0] + Copies(c.window / 2.0, c.requests - 1) + [c.window] + Copies(c.window, c.requests - 1)
  }

  lemma StraddlingPasses(c: Config)
    requires c.requests >= 1 && c.window > 0.0
    ensures Passed(c, Straddling(c)) == Straddling(c)
  {
    var n := c.requests - 1;
    var w := c.window;
    FirstPasses(c);
    Repeated(c, [0.0], w / 2.0, n);
    var first := [0.0] + Copies(w / 2.0, n);
    NextCounter(c, first, w);
    Repeated(c, first + [w], w, n);
  }

  lemma NextCounter(c: Config, times: seq<Time>, now: Time)
    requires c.requests >= 1 && times != [] && Counted(c, times).value.expires <= now
    ensures Counted(c, times + [now]) == Some(Counter(1, now + c.window))
    ensures Passed(c, times + [now]) == Passed(c, times) + [now]
  {
  }

  lemma FirstPasses(c: Config)
    requires c.requests >= 1
    ensures Counted(c, [0.0]) == Some(Counter(1, c.window)) && Passed(c, [0.0]) == [0.0]
  {
  }

  lemma StraddlingCounts(c: Config)
    requires c.requests >= 1 && c.window > 0.0
    ensures CountIn(Straddling(c), 0.0, c.window) == 2 * c.requests - 1
  {
    var n := c.requests - 1;
    var w := c.window;
    var late, next := Copies(w / 2.0, n), Copies(w, n);
    CountConcat([0.0] + late + [w], next, 0.0, w);
    CountConcat([0.0] + late, [w], 0.0, w);
    CountConcat([0.0], late, 0.0, w);
    CountAtMost(late, 0.0, w);
    CountAtMost(next, 0.0, w);
    CountAtMost([w], 0.0, w);
    CountNone([0.0], 0.0, w);
  }

  /** The bound is reached, so the counter admits nearly twice its limit within one window length. */
  lemma CounterBoundIsReached(c: Config)
    requires c.requests >= 1 && c.window > 0.0
    ensures Sorted(Straddling(c))
    ensures CountIn(Passed(c, Straddling(c)), c.window - c.window, c.window) == CounterLimit(c)
  {
    StraddlingPasses(c);
    StraddlingCounts(c);
  }
}
