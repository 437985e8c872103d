/** The limiter in its own form: a dictionary of deques and a counter per key, changed in place. */
module RateLimiter {
  import opened Wrappers
  import opened RateLimitSpec

  class Limiter {
    const config: Config
    var order: seq<Key>
    var attempts: map<Key, seq<Time>>
    var counters: map<Key, Counter>

    constructor (config: Config)
      ensures this.config == config && Contents() == EMPTY && counters == map[]
    {
      this.config := config;
      order, attempts, counters := [], map[], map[];
    }

    function Contents(): Table
      reads this
    {
      Table(order, attempts)
    }

    function CounterOf(key: Key): Option<Counter>
      reads this
    {
      if key in counters then Some(counters[key]) else None
    }

    method EnforceFallback(key: Key, now: Time) returns (accepted: bool)
      modifies this`order, this`attempts
      ensures (Contents(), accepted) == Enforce(config, old(Contents()), Request(key, now))
    {
      var cutoff := now - config.window;
      if key !in attempts {
        order, attempts := order + [key], attempts[key := []];
      }
      while attempts[key] != [] && attempts[key][0] <= cutoff
        invariant key in attempts
        invariant order == Touched(old(Contents()), key)
        invariant attempts == old(attempts)[key := attempts[key]]
        invariant Pruned(attempts[key], cutoff) == Pruned(Entry(old(Contents()), key), cutoff)
        decreases |attempts[key]|
      {
        attempts := attempts[key := attempts[key][1..]];
      }
      if |attempts[key]| >= config.requests {
        return false;
      }
      ghost var recent := attempts[key];
      attempts := attempts[key := attempts[key] + [now]];
      assert attempts == old(attempts)[key := recent + [now]];
      if |order| > MAX_KEYS {
        var oldest := order[0];
        if oldest != key {
          order, attempts := order[1..], attempts - {oldest};
        }
      }
      return true;
    }

    /** INCR and, on a new counter, EXPIRE. */
    method IncrementCounter(key: Key, now: Time) returns (count: nat)
      modifies this`counters
      ensures counters == old(counters)[key := Increment(config, old(CounterOf(key)), now)]
      ensures count == counters[key].count
    {
      count := 1;
      var expires := now + config.window;
      if key in counters && now < counters[key].expires {
        count, expires := counters[key].count + 1, counters[key].expires;
      }
      counters := counters[key := Counter(count, expires)];
    }

    /** The dependency: the shared counter when Redis answers, the in-memory table when it does not. */
    method Check(key: Key, now: Time, redisAnswers: bool) returns (accepted: bool)
      modifies this
      ensures !redisAnswers ==>
                && counters == old(counters)
                && (Contents(), accepted) == Enforce(config, old(Contents()), Request(key, now))
      ensures redisAnswers ==>
                && Contents() == old(Contents())
                && counters == old(counters)[key := Increment(config, old(CounterOf(key)), now)]
                && accepted == (counters[key].count <= config.requests)
    {
      if !redisAnswers {
        accepted := EnforceFallback(key, now);
      } else {
        var count := IncrementCounter(key, now);
        accepted := count <= config.requests;
      }
    }
  }
}
