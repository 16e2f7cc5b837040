/** The in-memory token bucket of `ratelimit.go`: a bucket per client, refilled
    lazily when a request arrives, and a reaper that forgets idle clients.

    Time is in seconds and, like the token count, a real number. */
module TokenBucket {

  /** How long a bucket may lie idle before the reaper may delete it. */
  const REAP_IDLE: real := 1800.0

  datatype Config = Config(capacity: int, window: real) {
    ghost predicate Valid() { window > 0.0 }

    /** Tokens gained per second. */
    function Refill(): real
      requires Valid()
    {
      capacity as real / window
    }
  }

  /** The tokens earned in `d` seconds. */
  function Gain(cfg: Config, d: real): real
    requires cfg.Valid()
  {
    d * cfg.Refill()
  }

  datatype Level = Level(tokens: real, seen: real)

  type Levels = map<string, Level>

  datatype Event = Request(key: string, at: real) | Reap(at: real)

  // ---------------------------------------------------------------- one step

  function Min(a: real, b: real): real {
    if a < b then a else b
  }

  /** The tokens of an existing bucket once the time since its last use is credited. */
  function Credited(cfg: Config, l: Level, now: real): real
    requires cfg.Valid()
  {
    Min(cfg.capacity as real, l.tokens + Gain(cfg, now - l.seen))
  }

  predicate Decide(cfg: Config, ls: Levels, key: string, now: real)
    requires cfg.Valid()
  {
    key !in ls || Credited(cfg, ls[key], now) >= 1.0
  }

  function Charge(cfg: Config, ls: Levels, key: string, now: real): Levels
    requires cfg.Valid()
  {
    var left := if key !in ls then cfg.capacity as real else Credited(cfg, ls[key], now);
    ls[key := Level(if Decide(cfg, ls, key, now) then left - 1.0 else left, now)]
  }

  function Reaped(ls: Levels, now: real): Levels {
    map k | k in ls && !(ls[k].seen < now - REAP_IDLE) :: ls[k]
  }

  // ------------------------------------------------------------ the limiter

  class Bucket {
    var tokens: real
    var seen: real

    constructor (tokens: real, seen: real)
      ensures this.tokens == tokens && this.seen == seen
    {
      this.tokens, this.seen := tokens, seen;
    }
  }

  class RateLimiter {
    const cfg: Config
    const refill: real
    var buckets: map<string, Bucket>

    /** No two clients share a bucket. */
    ghost predicate Valid()
      reads this
    {
      && cfg.Valid()
      && refill == cfg.Refill()
      && forall k, j :: k in buckets && j in buckets && k != j ==> buckets[k] != buckets[j]
    }

    ghost function Levels(): Levels
      reads this, buckets.Values
    {
      map k | k in buckets :: Level(buckets[k].tokens, buckets[k].seen)
    }

    constructor (capacity: int, window: real)
      requires window > 0.0
      ensures Valid() && cfg == Config(capacity, window) && Levels() == map[]
    {
      cfg := Config(capacity, window);
      refill := capacity as real / window;
      buckets := map[];
    }

    method AllowLocal(key: string, now: real) returns (allowed: bool)
      requires Valid()
      modifies this, buckets.Values
      ensures Valid() && fresh(buckets.Values - old(buckets.Values))
      ensures allowed == Decide(cfg, old(Levels()), key, now)
      ensures Levels() == Charge(cfg, old(Levels()), key, now)
    {
      if key !in buckets {
        var b := new Bucket(cfg.capacity as real - 1.0, now);
        buckets := buckets[key := b];
        return true;
      }
      var b := buckets[key];
      b.tokens := b.tokens + (now - b.seen) * refill;
      if b.tokens > cfg.capacity as real {
        b.tokens := cfg.capacity as real;
      }
      b.seen := now;
      assert b.tokens == Credited(cfg, old(Levels()[key]), now);
      if b.tokens < 1.0 {
        return false;
      }
      b.tokens := b.tokens - 1.0;
      return true;
    }

    method Reap(now: real)
      requires Valid()
      modifies this
      ensures Valid() && buckets.Values <= old(buckets.Values)
      ensures Levels() == Reaped(old(Levels()), now)
    {
      var cutoff := now - REAP_IDLE;
      var todo := buckets.Keys;
      while todo != {}
        invariant Valid() && todo <= old(buckets).Keys
        invariant forall k :: k in buckets <==>
          k in old(buckets) && (k in todo || !(old(buckets)[k].seen < cutoff))
        invariant forall k :: k in buckets ==> buckets[k] == old(buckets)[k]
        decreases todo
      {
        var k :| k in todo;
        todo := todo - {k};
        if buckets[k].seen < cutoff {
          buckets := buckets - {k};
        }
      }
    }
  }

  // ------------------------------------------------------------------- runs

  /** One event. A limiter with `reaping` off never forgets a bucket. */
  function Apply(cfg: Config, reaping: bool, ls: Levels, e: Event): Levels
    requires cfg.Valid()
  {
    match e
    case Request(key, at) => Charge(cfg, ls, key, at)
    case Reap(at) => if reaping then Reaped(ls, at) else ls
  }

  function Run(cfg: Config, reaping: bool, ls: Levels, es: seq<Event>): Levels
    requires cfg.Valid()
    decreases |es|
  {
    if es == [] then ls else Run(cfg, reaping, Apply(cfg, reaping, ls, es[0]), es[1..])
  }

  /** The answers given to the requests of a run, in order. */
  function Answers(cfg: Config, reaping: bool, ls: Levels, es: seq<Event>): seq<bool>
    requires cfg.Valid()
    decreases |es|
  {
    if es == [] then [] else
      (if es[0].Request? then [Decide(cfg, ls, es[0].key, es[0].at)] else [])
      + Answers(cfg, reaping, Apply(cfg, reaping, ls, es[0]), es[1..])
  }

  function Granted(cfg: Config, ls: Levels, e: Event, key: string): nat
    requires cfg.Valid()
  {
    if e.Request? && e.key == key && Decide(cfg, ls, key, e.at) then 1 else 0
  }

  /** How many requests of `key` a run allows. */
  function Allowed(cfg: Config, reaping: bool, ls: Levels, es: seq<Event>, key: string): nat
    requires cfg.Valid()
    decreases |es|
  {
    if es == [] then 0 else
      Granted(cfg, ls, es[0], key) + Allowed(cfg, reaping, Apply(cfg, reaping, ls, es[0]), es[1..], key)
  }

  ghost predicate InOrder(es: seq<Event>, from: real, to: real) {
    if es == [] then from <= to else from <= es[0].at && InOrder(es[1..], es[0].at, to)
  }

  // ---------------------------------------------- the level a client can use

  ghost predicate Sound(cfg: Config, ls: Levels, now: real) {
    forall k :: k in ls ==> 0.0 <= ls[k].tokens <= cfg.capacity as real && ls[k].seen <= now
  }

  /** What `key` could spend at `now`, whether or not its bucket is in memory. */
  ghost function Available(cfg: Config, ls: Levels, key: string, now: real): real
    requires cfg.Valid()
  {
    if key in ls then Credited(cfg, ls[key], now) else cfg.capacity as real
  }

  lemma RefillPositive(cfg: Config)
    requires cfg.Valid() && cfg.capacity >= 1
    ensures cfg.Refill() > 0.0
    ensures cfg.window * cfg.Refill() == cfg.capacity as real
  {
  }

  lemma GainNonNegative(cfg: Config, d: real)
    requires cfg.Valid() && cfg.capacity >= 1 && d >= 0.0
    ensures Gain(cfg, d) >= 0.0
  {
    RefillPositive(cfg);
  }

  lemma GainAdds(cfg: Config, a: real, b: real, c: real)
    requires cfg.Valid()
    ensures Gain(cfg, c - a) == Gain(cfg, b - a) + Gain(cfg, c - b)
  {
    var r := cfg.Refill();
    assert (c - a) * r == (b - a) * r + (c - b) * r;
  }

  /** Waiting only ever adds the refill of the time waited, up to the capacity. */
  lemma LevelAdvances(cfg: Config, ls: Levels, key: string, t: real, u: real)
    requires cfg.Valid() && cfg.capacity >= 1 && Sound(cfg, ls, t) && t <= u
    ensures Available(cfg, ls, key, u)
         == Min(cfg.capacity as real, Available(cfg, ls, key, t) + Gain(cfg, u - t))
  {
    GainNonNegative(cfg, u - t);
    if key in ls {
      GainAdds(cfg, ls[key].seen, t, u);
    }
  }

  /** Half an hour refills any bucket whose window is no longer. */
  lemma FullAgain(cfg: Config, l: Level, now: real)
    requires cfg.Valid() && cfg.capacity >= 1 && cfg.window <= REAP_IDLE && l.tokens >= 0.0
    requires l.seen < now - REAP_IDLE
    ensures Credited(cfg, l, now) == cfg.capacity as real
  {
    RefillPositive(cfg);
    GainNonNegative(cfg, now - l.seen - cfg.window);
    GainAdds(cfg, l.seen, l.seen + cfg.window, now);
    assert Gain(cfg, cfg.window) == cfg.capacity as real;
    assert l.seen + cfg.window - l.seen == cfg.window;
    assert now - (l.seen + cfg.window) == now - l.seen - cfg.window;
  }

  /** An idle bucket that the reaper may take is full again. */
  lemma ReapedWasFull(cfg: Config, ls: Levels, key: string, now: real)
    requires cfg.Valid() && cfg.capacity >= 1 && cfg.window <= REAP_IDLE && Sound(cfg, ls, now)
    ensures Sound(cfg, Reaped(ls, now), now)
    ensures Available(cfg, Reaped(ls, now), key, now) == Available(cfg, ls, key, now)
  {
    if key in ls && ls[key].seen < now - REAP_IDLE {
      FullAgain(cfg, ls[key], now);
    }
  }

  /** A request costs its client exactly what it was granted, and nobody else anything. */
  lemma RequestCosts(cfg: Config, ls: Levels, k: string, at: real, key: string)
    requires cfg.Valid() && cfg.capacity >= 1 && Sound(cfg, ls, at)
    ensures Sound(cfg, Charge(cfg, ls, k, at), at)
    ensures Available(cfg, Charge(cfg, ls, k, at), key, at)
         == Available(cfg, ls, key, at) - Granted(cfg, ls, Request(k, at), key) as real
    ensures Decide(cfg, ls, key, at) <==> Available(cfg, ls, key, at) >= 1.0
  {
    var ls' := Charge(cfg, ls, k, at);
    if k in ls {
      GainNonNegative(cfg, at - ls[k].seen);
    }
    assert ls'[k].tokens == Available(cfg, ls, k, at) - Granted(cfg, ls, Request(k, at), k) as real;
    assert Gain(cfg, at - ls'[k].seen) == 0.0;
    assert Credited(cfg, ls'[k], at) == ls'[k].tokens;
  }

  lemma EventCosts(cfg: Config, reaping: bool, ls: Levels, e: Event, key: string)
    requires cfg.Valid() && cfg.capacity >= 1 && (reaping ==> cfg.window <= REAP_IDLE)
    requires Sound(cfg, ls, e.at)
    ensures Sound(cfg, Apply(cfg, reaping, ls, e), e.at)
    ensures Available(cfg, Apply(cfg, reaping, ls, e), key, e.at)
         == Available(cfg, ls, key, e.at) - Granted(cfg, ls, e, key) as real
  {
    match e
    case Request(k, at) => RequestCosts(cfg, ls, k, at, key);
    case Reap(at) =>
      if reaping {
        ReapedWasFull(cfg, ls, key, at);
      }
  }

  // --------------------------------------------------------------- the bound

  lemma EventBudget(cfg: Config, reaping: bool, ls: Levels, e: Event, key: string, from: real)
    requires cfg.Valid() && cfg.capacity >= 1 && (reaping ==> cfg.window <= REAP_IDLE)
    requires Sound(cfg, ls, from) && from <= e.at
    ensures Sound(cfg, Apply(cfg, reaping, ls, e), e.at)
    ensures Granted(cfg, ls, e, key) as real + Available(cfg, Apply(cfg, reaping, ls, e), key, e.at)
         <= Available(cfg, ls, key, from) + Gain(cfg, e.at - from)
  {
    LevelAdvances(cfg, ls, key, from, e.at);
    EventCosts(cfg, reaping, ls, e, key);
  }

  lemma {:induction false} AllowedFromLevel(cfg: Config, reaping: bool, ls: Levels, es: seq<Event>,
                                            key: string, from: real, to: real)
    requires cfg.Valid() && cfg.capacity >= 1 && (reaping ==> cfg.window <= REAP_IDLE)
    requires Sound(cfg, ls, from) && InOrder(es, from, to)
    ensures from <= to
    ensures Allowed(cfg, reaping, ls, es, key) as real
         <= Available(cfg, ls, key, from) + Gain(cfg, to - from)
    decreases |es|
  {
    if es == [] {
      GainNonNegative(cfg, to - from);
      if key in ls {
        GainNonNegative(cfg, from - ls[key].seen);
      }
    } else {
      var e := es[0];
      EventBudget(cfg, reaping, ls, e, key, from);
      AllowedFromLevel(cfg, reaping, Apply(cfg, reaping, ls, e), es[1..], key, e.at, to);
      GainAdds(cfg, from, e.at, to);
    }
  }

  lemma {:induction false} RunStaysSound(cfg: Config, reaping: bool, ls: Levels, es: seq<Event>, from: real, to: real)
    requires cfg.Valid() && cfg.capacity >= 1
    requires Sound(cfg, ls, from) && InOrder(es, from, to)
    ensures Sound(cfg, Run(cfg, reaping, ls, es), to) && from <= to
    decreases |es|
  {
    if es != [] {
      if es[0].Request? {
        RequestCosts(cfg, ls, es[0].key, es[0].at, "");
      }
      RunStaysSound(cfg, reaping, Apply(cfg, reaping, ls, es[0]), es[1..], es[0].at, to);
    }
  }

  /** A limiter started at `birth` runs `pre`; the interval from `from` to `to` then holds
      the events `es`. At most the capacity plus the interval's refill is allowed in it. */
  ghost predicate WithinBound(cfg: Config, reaping: bool, pre: seq<Event>, es: seq<Event>, key: string,
                              birth: real, from: real, to: real)
    requires cfg.Valid()
  {
    InOrder(pre, birth, from) && InOrder(es, from, to) ==>
      Allowed(cfg, reaping, Run(cfg, reaping, map[], pre), es, key) as real
      <= cfg.capacity as real + Gain(cfg, to - from)
  }

  lemma BucketBound(cfg: Config, reaping: bool, pre: seq<Event>, es: seq<Event>, key: string,
                    birth: real, from: real, to: real)
    requires cfg.Valid() && cfg.capacity >= 1 && (reaping ==> cfg.window <= REAP_IDLE)
    ensures WithinBound(cfg, reaping, pre, es, key, birth, from, to)
  {
    if InOrder(pre, birth, from) && InOrder(es, from, to) {
      RunStaysSound(cfg, reaping, map[], pre, birth, from);
      AllowedFromLevel(cfg, reaping, Run(cfg, reaping, map[], pre), es, key, from, to);
    }
  }

  // ------------------------------------------- the reaper cannot be observed

  lemma SameLevelsStep(cfg: Config, a: Levels, b: Levels, e: Event, key: string, from: real)
    requires cfg.Valid() && cfg.capacity >= 1 && cfg.window <= REAP_IDLE
    requires Sound(cfg, a, from) && Sound(cfg, b, from) && from <= e.at
    requires Available(cfg, a, key, from) == Available(cfg, b, key, from)
    ensures Decide(cfg, a, key, e.at) == Decide(cfg, b, key, e.at)
    ensures Available(cfg, Apply(cfg, true, a, e), key, e.at) == Available(cfg, Apply(cfg, false, b, e), key, e.at)
  {
    LevelAdvances(cfg, a, key, from, e.at);
    LevelAdvances(cfg, b, key, from, e.at);
    RequestCosts(cfg, a, key, e.at, key);
    RequestCosts(cfg, b, key, e.at, key);
    EventCosts(cfg, true, a, e, key);
    EventCosts(cfg, false, b, e, key);
  }

  lemma {:induction false} SameLevelsSameAnswers(cfg: Config, a: Levels, b: Levels, es: seq<Event>, from: real, to: real)
    requires cfg.Valid() && cfg.capacity >= 1 && cfg.window <= REAP_IDLE
    requires Sound(cfg, a, from) && Sound(cfg, b, from) && InOrder(es, from, to)
    requires forall k :: Available(cfg, a, k, from) == Available(cfg, b, k, from)
    ensures Answers(cfg, true, a, es) == Answers(cfg, false, b, es)
    decreases |es|
  {
    if es != [] {
      var e := es[0];
      var a', b' := Apply(cfg, true, a, e), Apply(cfg, false, b, e);
      forall k
        ensures Available(cfg, a', k, e.at) == Available(cfg, b', k, e.at)
        ensures Decide(cfg, a, k, e.at) == Decide(cfg, b, k, e.at)
      {
        SameLevelsStep(cfg, a, b, e, k, from);
      }
      EventBudget(cfg, true, a, e, "", from);
      EventBudget(cfg, false, b, e, "", from);
      SameLevelsSameAnswers(cfg, a', b', es[1..], e.at, to);
    }
  }

  ghost predicate ReapingShows(cfg: Config, es: seq<Event>, from: real, to: real)
    requires cfg.Valid()
  {
    InOrder(es, from, to) && Answers(cfg, true, map[], es) != Answers(cfg, false, map[], es)
  }

  lemma ReaperUnobservable(cfg: Config, es: seq<Event>, from: real, to: real)
    requires cfg.Valid() && cfg.capacity >= 1 && cfg.window <= REAP_IDLE
    ensures !ReapingShows(cfg, es, from, to)
  {
    if InOrder(es, from, to) {
      SameLevelsSameAnswers(cfg, map[], map[], es, from, to);
    }
  }

  // ------------------------------------- the condition on the window is exact

  /** `n` requests of one client at the same moment. */
  ghost function Burst(key: string, n: nat, at: real): seq<Event> {
    if n == 0 then [] else [Request(key, at)] + Burst(key, n - 1, at)
  }

  lemma {:induction false} BurstKeys(key: string, n: nat, at: real)
    ensures forall e :: e in Burst(key, n, at) ==> e == Request(key, at)
  {
    if n != 0 {
      BurstKeys(key, n - 1, at);
    }
  }

  lemma {:induction false} BurstInOrder(key: string, n: nat, at: real, rest: seq<Event>, to: real)
    requires InOrder(rest, at, to)
    ensures InOrder(Burst(key, n, at) + rest, at, to)
  {
    if n != 0 {
      BurstInOrder(key, n - 1, at, rest, to);
      assert (Burst(key, n, at) + rest)[1..] == Burst(key, n - 1, at) + rest;
    } else {
      assert Burst(key, n, at) + rest == rest;
    }
  }

  /** A client that can spend `n` tokens gets `n` requests through at once. */
  lemma {:induction false} BurstGranted(cfg: Config, ls: Levels, key: string, n: nat, at: real, rest: seq<Event>)
    requires cfg.Valid() && cfg.capacity >= 1 && Sound(cfg, ls, at) && Available(cfg, ls, key, at) >= n as real
    requires key in ls ==> ls[key].seen == at
    ensures Sound(cfg, Run(cfg, true, ls, Burst(key, n, at)), at)
    ensures n > 0 || key in ls ==>
      var end := Run(cfg, true, ls, Burst(key, n, at)); key in end && end[key].seen == at
    ensures Allowed(cfg, true, ls, Burst(key, n, at) + rest, key)
         == n + Allowed(cfg, true, Run(cfg, true, ls, Burst(key, n, at)), rest, key)
    decreases n
  {
    if n == 0 {
      assert Burst(key, n, at) + rest == rest;
    } else {
      var ls' := Apply(cfg, true, ls, Request(key, at));
      OneGranted(cfg, ls, key, at, n);
      BurstGranted(cfg, ls', key, n - 1, at, rest);
      BurstHead(cfg, ls, key, n, at, rest);
    }
  }

  lemma OneGranted(cfg: Config, ls: Levels, key: string, at: real, n: nat)
    requires cfg.Valid() && cfg.capacity >= 1 && Sound(cfg, ls, at) && Available(cfg, ls, key, at) >= n as real && n > 0
    ensures var ls' := Apply(cfg, true, ls, Request(key, at));
      && Sound(cfg, ls', at) && Available(cfg, ls', key, at) >= (n - 1) as real
      && key in ls' && ls'[key].seen == at && Granted(cfg, ls, Request(key, at), key) == 1
  {
    RequestCosts(cfg, ls, key, at, key);
  }

  lemma BurstHead(cfg: Config, ls: Levels, key: string, n: nat, at: real, rest: seq<Event>)
    requires cfg.Valid() && n > 0
    ensures var ls' := Apply(cfg, true, ls, Request(key, at));
      && Run(cfg, true, ls, Burst(key, n, at)) == Run(cfg, true, ls', Burst(key, n - 1, at))
      && Allowed(cfg, true, ls, Burst(key, n, at) + rest, key)
         == Granted(cfg, ls, Request(key, at), key) + Allowed(cfg, true, ls', Burst(key, n - 1, at) + rest, key)
  {
    assert Burst(key, n, at)[1..] == Burst(key, n - 1, at);
    assert (Burst(key, n, at) + rest)[1..] == Burst(key, n - 1, at) + rest;
  }

  /** With a window longer than the idle time, halfway between the two a spent bucket
      may be forgotten but has not been refilled. */
  lemma NotYetEarned(cfg: Config, to: real)
    requires cfg.Valid() && cfg.capacity >= 1 && to < cfg.window
    ensures Gain(cfg, to) < cfg.capacity as real
  {
    RefillPositive(cfg);
    var r, gap := cfg.Refill(), cfg.window - to;
    assert gap * r > 0.0;
    assert cfg.window * r == to * r + gap * r;
  }

  /** Spend everything, wait until the reaper forgets, spend everything again. */
  ghost function DrainTwice(key: string, n: nat, to: real): seq<Event> {
    Burst(key, n, 0.0) + ([Reap(to)] + Burst(key, n, to))
  }

  lemma DrainTwiceInOrder(key: string, n: nat, to: real)
    requires to >= 0.0
    ensures InOrder(DrainTwice(key, n, to), 0.0, to)
    ensures forall e :: e in DrainTwice(key, n, to) && e.Request? ==> e.key == key
  {
    var again := Burst(key, n, to);
    BurstKeys(key, n, 0.0);
    BurstKeys(key, n, to);
    BurstInOrder(key, n, to, [], to);
    assert again + [] == again;
    assert ([Reap(to)] + again)[1..] == again;
    BurstInOrder(key, n, 0.0, [Reap(to)] + again, to);
  }

  lemma DrainTwiceGranted(cfg: Config, key: string, to: real)
    requires cfg.Valid() && cfg.capacity >= 1 && to > REAP_IDLE
    ensures Allowed(cfg, true, map[], DrainTwice(key, cfg.capacity, to), key) == 2 * cfg.capacity
  {
    var n: nat := cfg.capacity;
    var again := Burst(key, n, to);
    var tail := [Reap(to)] + again;
    var drained := Run(cfg, true, map[], Burst(key, n, 0.0));
    BurstGranted(cfg, map[], key, n, 0.0, tail);
    var forgotten := Reaped(drained, to);
    assert key !in forgotten && Sound(cfg, forgotten, to);
    assert tail[1..] == again && again + [] == again;
    BurstGranted(cfg, forgotten, key, n, to, []);
  }

  lemma DrainForgetDrain(cfg: Config, key: string) returns (es: seq<Event>, to: real)
    requires cfg.Valid() && cfg.capacity >= 1 && cfg.window > REAP_IDLE
    ensures InOrder(es, 0.0, to)
    ensures forall e :: e in es && e.Request? ==> e.key == key
    ensures Allowed(cfg, true, map[], es, key) as real > cfg.capacity as real + Gain(cfg, to)
  {
    to := (cfg.window + REAP_IDLE) / 2.0;
    es := DrainTwice(key, cfg.capacity, to);
    DrainTwiceInOrder(key, cfg.capacity, to);
    DrainTwiceGranted(cfg, key, to);
    NotYetEarned(cfg, to);
  }

  /** The promised bound holds for every run exactly when the capacity admits one request
      and the window is no longer than the idle time after which buckets are forgotten. */
  lemma BoundExactly(cfg: Config)
    requires cfg.Valid()
    ensures cfg.capacity >= 1 && cfg.window <= REAP_IDLE <==>
      forall pre, es, key, birth, from, to :: WithinBound(cfg, true, pre, es, key, birth, from, to)
  {
    if cfg.capacity >= 1 && cfg.window <= REAP_IDLE {
      forall pre, es, key, birth, from, to
        ensures WithinBound(cfg, true, pre, es, key, birth, from, to)
      {
        BucketBound(cfg, true, pre, es, key, birth, from, to);
      }
    } else if cfg.capacity < 1 {
      var one := [Request("", 0.0)];
      assert one[1..] == [];
      assert Allowed(cfg, true, map[], one, "") == 1;
      assert !WithinBound(cfg, true, [], one, "", 0.0, 0.0, 0.0);
    } else {
      var es, to := DrainForgetDrain(cfg, "");
      assert Run(cfg, true, map[], []) == map[];
      assert !WithinBound(cfg, true, [], es, "", 0.0, 0.0, to);
    }
  }

  lemma {:induction false} SameAnswersSameCount(cfg: Config, a: Levels, b: Levels, es: seq<Event>, key: string)
    requires cfg.Valid() && Answers(cfg, true, a, es) == Answers(cfg, false, b, es)
    requires forall e :: e in es && e.Request? ==> e.key == key
    ensures Allowed(cfg, true, a, es, key) == Allowed(cfg, false, b, es, key)
    decreases |es|
  {
    if es != [] {
      var e := es[0];
      var a', b' := Apply(cfg, true, a, e), Apply(cfg, false, b, e);
      var ra, rb := Answers(cfg, true, a', es[1..]), Answers(cfg, false, b', es[1..]);
      if e.Request? {
        assert ([Decide(cfg, a, key, e.at)] + ra)[0] == ([Decide(cfg, b, key, e.at)] + rb)[0];
        assert ([Decide(cfg, a, key, e.at)] + ra)[1..] == ra && ([Decide(cfg, b, key, e.at)] + rb)[1..] == rb;
      } else {
        assert [] + ra == ra && [] + rb == rb;
      }
      SameAnswersSameCount(cfg, a', b', es[1..], key);
    }
  }

  /** Forgetting idle clients changes no answer of any run exactly when no window is
      longer than the idle time. */
  lemma ReaperUnobservableExactly(cfg: Config)
    requires cfg.Valid() && cfg.capacity >= 1
    ensures cfg.window <= REAP_IDLE <==> forall es, from, to :: !ReapingShows(cfg, es, from, to)
  {
    if cfg.window <= REAP_IDLE {
      forall es, from, to
        ensures !ReapingShows(cfg, es, from, to)
      {
        ReaperUnobservable(cfg, es, from, to);
      }
    } else {
      var es, to := DrainForgetDrain(cfg, "");
      if Answers(cfg, true, map[], es) == Answers(cfg, false, map[], es) {
        SameAnswersSameCount(cfg, map[], map[], es, "");
        AllowedFromLevel(cfg, false, map[], es, "", 0.0, to);
      }
      assert ReapingShows(cfg, es, 0.0, to);
    }
  }
}
