/** The shared counter of `ratelimit.go`: with Redis every replica increments one key
    per client, and the request that created the key gives it its lifetime in a second
    command. Other replicas' commands may fall between the two.

    Redis executes commands one at a time, so a run is a sequence of commands with
    non-decreasing times; no command fails. */
module FixedWindow {
  import opened Common

  /** The key in Redis: its value, and its deadline once it has been given one. */
  datatype Counter = Counter(n: nat, deadline: Option<real>)

  /** A request's answer, with the time of its increment and the lifetime it fell into. */
  datatype Answer = Answer(at: real, life: nat, allowed: bool)

  datatype State = State(
    now: real,
    counter: Option<Counter>,
    starting: set<nat>,     // requests that saw the value 1 and have yet to set the lifetime
    starts: seq<real>,      // when each lifetime of the key began
    answers: seq<Answer>)

  datatype Command = Incr(request: nat, at: real) | Expire(request: nat, at: real)

  datatype Config = Config(capacity: nat, window: real) {
    ghost predicate Valid() { window > 0.0 }
  }

  predicate Live(c: Option<Counter>, now: real) {
    c.Some? && (c.value.deadline.Some? ==> now < c.value.deadline.value)
  }

  function Incremented(c: Option<Counter>, now: real): Counter {
    if Live(c, now) then c.value.(n := c.value.n + 1) else Counter(1, None)
  }

  function WithDeadline(c: Option<Counter>, now: real, window: real): Option<Counter> {
    if Live(c, now) then Some(c.value.(deadline := Some(now + window))) else c
  }

  /** The key as Redis holds it. */
  class RedisKey {
    var counter: Option<Counter>

    constructor ()
      ensures counter == None
    {
      counter := None;
    }

    method Incr(now: real) returns (n: nat)
      modifies this
      ensures counter == Some(Incremented(old(counter), now)) && n == counter.value.n
    {
      if counter.Some? && (counter.value.deadline == None || now < counter.value.deadline.value) {
        counter := Some(counter.value.(n := counter.value.n + 1));
      } else {
        counter := Some(Counter(1, None));
      }
      n := counter.value.n;
    }

    method Expire(now: real, ttl: real)
      modifies this
      ensures counter == WithDeadline(old(counter), now, ttl)
    {
      if counter.Some? && (counter.value.deadline == None || now < counter.value.deadline.value) {
        counter := Some(counter.value.(deadline := Some(now + ttl)));
      }
    }

    /** One whole check, when no other replica's command falls in between. */
    method AllowRedis(cfg: Config, now: real) returns (allowed: bool)
      requires cfg.Valid()
      modifies this
      ensures counter.Some? && allowed == (counter.value.n <= cfg.capacity)
      ensures !Live(old(counter), now) ==> counter == Some(Counter(1, Some(now + cfg.window)))
      ensures Live(old(counter), now) && old(counter).value.n >= 1 ==>
        counter == Some(old(counter).value.(n := old(counter).value.n + 1))
    {
      var n := Incr(now);
      if n == 1 {
        Expire(now, cfg.window);
      }
      allowed := n <= cfg.capacity;
    }
  }

  // ------------------------------------------------------------------- runs

  ghost predicate Enabled(s: State, c: Command) {
    && s.now <= c.at
    && (c.Expire? ==> c.request in s.starting)
  }

  function Step(cfg: Config, s: State, c: Command): State {
    match c
    case Incr(r, at) =>
      var k := Incremented(s.counter, at);
      var starts := if Live(s.counter, at) then s.starts else s.starts + [at];
      State(at, Some(k),
            if k.n == 1 then s.starting + {r} else s.starting,
            starts,
            s.answers + [Answer(at, if starts == [] then 0 else |starts| - 1, k.n <= cfg.capacity)])
    case Expire(r, at) =>
      s.(now := at, counter := WithDeadline(s.counter, at, cfg.window), starting := s.starting - {r})
  }

  const FRESH := State(0.0, None, {}, [], [])

  /** The state after a run from an empty Redis. */
  function Run(cfg: Config, cs: seq<Command>): State {
    if cs == [] then FRESH else Step(cfg, Run(cfg, Init(cs)), Last(cs))
  }

  ghost predicate Legal(cfg: Config, cs: seq<Command>) {
    cs != [] ==> Legal(cfg, Init(cs)) && Enabled(Run(cfg, Init(cs)), Last(cs))
  }

  // --------------------------------------------------------------- counting

  /** How many requests answered in the lifetimes `lo..hi`, at a time in `from..to`, were allowed. */
  ghost function Allowed(as_: seq<Answer>, lo: int, hi: int, from: real, to: real): nat {
    if as_ == [] then 0 else
      var a := as_[|as_| - 1];
      Allowed(as_[..|as_| - 1], lo, hi, from, to)
      + if a.allowed && lo <= a.life <= hi && from <= a.at <= to then 1 else 0
  }

  lemma {:induction false} AllowedSplits(as_: seq<Answer>, lo: int, mid: int, hi: int, from: real, to: real)
    requires lo <= mid <= hi
    ensures Allowed(as_, lo, hi, from, to)
         == Allowed(as_, lo, mid, from, to) + Allowed(as_, mid + 1, hi, from, to)
  {
    if as_ != [] {
      AllowedSplits(as_[..|as_| - 1], lo, mid, hi, from, to);
    }
  }

  lemma {:induction false} AllowedNarrows(as_: seq<Answer>, lo: int, hi: int, lo': int, hi': int, from: real, to: real)
    requires forall a :: a in as_ && from <= a.at <= to && lo <= a.life <= hi ==> lo' <= a.life <= hi'
    ensures Allowed(as_, lo, hi, from, to) <= Allowed(as_, lo', hi', from, to)
  {
    if as_ != [] {
      AllowedNarrows(as_[..|as_| - 1], lo, hi, lo', hi', from, to);
    }
  }

  // -------------------------------------------------------------- invariant

  ghost predicate OneLifeAtATime(cfg: Config, s: State) {
    && (s.counter.None? <==> s.starts == [])
    && (forall i :: 0 <= i < |s.starts| - 1 ==> s.starts[i] + cfg.window <= s.starts[i + 1])
    && (s.counter.Some? ==>
          var last := s.starts[|s.starts| - 1];
          && s.counter.value.n >= 1
          && last <= s.now
          && (s.counter.value.deadline.Some? ==> last + cfg.window <= s.counter.value.deadline.value))
    // Only the request that created the key is still to set its lifetime.
    && (s.starting != {} ==> s.counter.Some? && s.counter.value.deadline.None?)
    && (forall r, r' :: r in s.starting && r' in s.starting ==> r == r')
  }

  ghost predicate AnswersFit(cfg: Config, s: State) {
    forall a :: a in s.answers ==>
      && a.life < |s.starts| && s.starts[a.life] <= a.at <= s.now
      && (a.life + 1 < |s.starts| ==> a.at <= s.starts[a.life + 1])
  }

  ghost predicate LifeBound(cfg: Config, s: State) {
    forall l, from, to :: Allowed(s.answers, l, l, from, to) <=
      if s.counter.Some? && l == |s.starts| - 1 && s.counter.value.n < cfg.capacity then s.counter.value.n
      else if l < |s.starts| then cfg.capacity else 0
  }

  /** How many a lifetime can have allowed so far. */
  ghost function LifeShare(cfg: Config, s: State, l: nat): nat
    requires l < |s.starts|
  {
    if s.counter.Some? && l == |s.starts| - 1 && s.counter.value.n < cfg.capacity then s.counter.value.n else cfg.capacity
  }

  /** After its first moment a lifetime allows one fewer: the request that began it. */
  ghost predicate LateBound(cfg: Config, s: State) {
    forall l: nat, from, to :: l < |s.starts| && s.starts[l] < from ==>
      Allowed(s.answers, l, l, from, to) <= if LifeShare(cfg, s, l) > 0 then LifeShare(cfg, s, l) - 1 else 0
  }

  ghost predicate Inv(cfg: Config, s: State) {
    OneLifeAtATime(cfg, s) && AnswersFit(cfg, s) && LifeBound(cfg, s) && LateBound(cfg, s)
  }

  lemma StepKeepsOneLife(cfg: Config, s: State, c: Command)
    requires cfg.Valid() && OneLifeAtATime(cfg, s) && Enabled(s, c)
    ensures OneLifeAtATime(cfg, Step(cfg, s, c))
  {
  }

  lemma StepKeepsAnswers(cfg: Config, s: State, c: Command)
    requires cfg.Valid() && OneLifeAtATime(cfg, s) && AnswersFit(cfg, s) && Enabled(s, c)
    ensures AnswersFit(cfg, Step(cfg, s, c))
  {
  }

  lemma StepKeepsLives(cfg: Config, s: State, c: Command)
    requires cfg.Valid() && OneLifeAtATime(cfg, s) && AnswersFit(cfg, s) && Enabled(s, c)
    ensures OneLifeAtATime(cfg, Step(cfg, s, c)) && AnswersFit(cfg, Step(cfg, s, c))
  {
    StepKeepsOneLife(cfg, s, c);
    StepKeepsAnswers(cfg, s, c);
  }

  lemma StepKeepsLifeBound(cfg: Config, s: State, c: Command)
    requires cfg.Valid() && Inv(cfg, s) && Enabled(s, c)
    ensures LifeBound(cfg, Step(cfg, s, c))
  {
    var s' := Step(cfg, s, c);
    if c.Incr? {
      assert s'.answers[..|s'.answers| - 1] == s.answers;
    }
  }

  lemma StepKeepsLateBound(cfg: Config, s: State, c: Command)
    requires cfg.Valid() && Inv(cfg, s) && Enabled(s, c)
    ensures LateBound(cfg, Step(cfg, s, c))
  {
    var s' := Step(cfg, s, c);
    if c.Incr? {
      assert s'.answers[..|s'.answers| - 1] == s.answers;
      forall l: nat, from, to | l < |s'.starts| && s'.starts[l] < from
        ensures Allowed(s'.answers, l, l, from, to) <= if LifeShare(cfg, s', l) > 0 then LifeShare(cfg, s', l) - 1 else 0
      {
        if l == |s.starts| {
          assert Allowed(s.answers, l, l, from, to) <= 0;
        } else {
          assert s.starts[l] == s'.starts[l];
        }
      }
    }
  }

  lemma {:induction false} RunKeepsInv(cfg: Config, cs: seq<Command>)
    requires cfg.Valid() && Legal(cfg, cs)
    ensures Inv(cfg, Run(cfg, cs))
  {
    if cs != [] {
      RunKeepsInv(cfg, Init(cs));
      StepKeepsLives(cfg, Run(cfg, Init(cs)), Last(cs));
      StepKeepsLifeBound(cfg, Run(cfg, Init(cs)), Last(cs));
      StepKeepsLateBound(cfg, Run(cfg, Init(cs)), Last(cs));
    }
  }

  // ---------------------------------------------------------------- results

  /** At most the capacity is allowed while one counter lives. */
  lemma PerLifetime(cfg: Config, cs: seq<Command>, life: nat, from: real, to: real)
    requires cfg.Valid() && Legal(cfg, cs)
    ensures Allowed(Run(cfg, cs).answers, life, life, from, to) <= cfg.capacity
  {
    RunKeepsInv(cfg, cs);
  }

  /** Once a lifetime is set, no command moves its end while the counter lives. */
  lemma DeadlineIsFinal(cfg: Config, cs: seq<Command>, c: Command)
    requires cfg.Valid() && Legal(cfg, cs + [c])
    requires Live(Run(cfg, cs).counter, c.at) && Run(cfg, cs).counter.value.deadline.Some?
    ensures Run(cfg, cs + [c]).counter.Some?
    ensures Run(cfg, cs + [c]).counter.value.deadline == Run(cfg, cs).counter.value.deadline
  {
    assert Init(cs + [c]) == cs;
    RunKeepsInv(cfg, cs);
  }

  lemma {:induction false} StartsSpread(cfg: Config, s: State, i: nat, j: nat)
    requires cfg.Valid() && OneLifeAtATime(cfg, s) && i <= j < |s.starts|
    ensures s.starts[i] + (j - i) as real * cfg.window <= s.starts[j]
    decreases j
  {
    if i < j {
      StartsSpread(cfg, s, i, j - 1);
      assert s.starts[j - 1] + cfg.window <= s.starts[j - 1 + 1];
      var w := cfg.window;
      assert (j - i) as real * w == (j - 1 - i) as real * w + w;
    }
  }

  lemma {:induction false} LivesBound(cfg: Config, s: State, lo: int, hi: int, from: real, to: real)
    requires LifeBound(cfg, s) && lo <= hi + 1
    ensures Allowed(s.answers, lo, hi, from, to) <= cfg.capacity * (hi - lo + 1)
    decreases hi - lo
  {
    if lo > hi {
      AllowedNarrows(s.answers, lo, hi, hi + 1, hi, from, to);
      NoLives(s.answers, lo, hi, from, to);
    } else {
      AllowedSplits(s.answers, lo, lo, hi, from, to);
      LivesBound(cfg, s, lo + 1, hi, from, to);
      assert cfg.capacity * (hi - lo + 1) == cfg.capacity + cfg.capacity * (hi - lo);
    }
  }

  lemma {:induction false} NoLives(as_: seq<Answer>, lo: int, hi: int, from: real, to: real)
    requires lo > hi
    ensures Allowed(as_, lo, hi, from, to) == 0
  {
    if as_ != [] {
      NoLives(as_[..|as_| - 1], lo, hi, from, to);
    }
  }

  lemma WindowsFit(d: real, window: real, n: int)
    requires window > 0.0 && n as real * window <= d
    ensures n <= (d / window).Floor
  {
    var q := d / window;
    assert q * window == d;
    TimesOrder(q, n as real, window);
  }

  lemma TimesOrder(a: real, b: real, w: real)
    requires w > 0.0
    ensures a < b ==> a * w < b * w
    ensures a <= b ==> a * w <= b * w
  {
    assert b * w - a * w == (b - a) * w;
  }

  /** The lifetimes that an interval of length `d` can meet are at most floor(d / window) + 2. */
  lemma LivesMet(cfg: Config, s: State, from: real, to: real, first: Answer, last: Answer)
    requires cfg.Valid() && OneLifeAtATime(cfg, s) && AnswersFit(cfg, s)
    requires first in s.answers && last in s.answers && from <= first.at && last.at <= to
    requires from <= to && first.life <= last.life
    ensures last.life - first.life + 1 <= ((to - from) / cfg.window).Floor + 2
  {
    var i, j := first.life, last.life;
    if i < j {
      StartsSpread(cfg, s, i + 1, j);
      assert from <= s.starts[i + 1] && s.starts[j] <= to;
      WindowsFit(to - from, cfg.window, j - i - 1);
    } else {
      WindowsFit(to - from, cfg.window, 0);
    }
  }

  /** Over any interleaving of replicas, the requests allowed in an interval of length `d`
      number at most capacity * (floor(d / window) + 2). */
  lemma IntervalBound(cfg: Config, cs: seq<Command>, from: real, to: real)
    requires cfg.Valid() && Legal(cfg, cs) && from <= to
    ensures Allowed(Run(cfg, cs).answers, 0, |Run(cfg, cs).starts|, from, to)
         <= cfg.capacity * (((to - from) / cfg.window).Floor + 2)
  {
    RunKeepsInv(cfg, cs);
    StateBound(cfg, Run(cfg, cs), from, to);
  }

  lemma StateBound(cfg: Config, s: State, from: real, to: real)
    requires cfg.Valid() && Inv(cfg, s) && from <= to
    ensures Allowed(s.answers, 0, |s.starts|, from, to)
         <= cfg.capacity * (((to - from) / cfg.window).Floor + 2)
  {
    var inside := set a | a in s.answers && from <= a.at <= to;
    assert forall a :: a in s.answers && from <= a.at <= to ==> a in inside;
    if inside == {} {
      NoneInside(cfg, s, from, to);
    } else {
      var first := Earliest(inside);
      var last := Latest(inside);
      BoundBetween(cfg, s, from, to, first, last);
    }
  }

  lemma NoneInside(cfg: Config, s: State, from: real, to: real)
    requires cfg.Valid() && from <= to && forall a :: a in s.answers ==> !(from <= a.at <= to)
    ensures Allowed(s.answers, 0, |s.starts|, from, to)
         <= cfg.capacity * (((to - from) / cfg.window).Floor + 2)
  {
    AllowedNarrows(s.answers, 0, |s.starts|, 1, 0, from, to);
    NoLives(s.answers, 1, 0, from, to);
    WindowsFit(to - from, cfg.window, 0);
    AtMostTimes(cfg.capacity, 0, ((to - from) / cfg.window).Floor + 2);
  }

  lemma BoundBetween(cfg: Config, s: State, from: real, to: real, first: Answer, last: Answer)
    requires cfg.Valid() && Inv(cfg, s) && from <= to && first in s.answers && last in s.answers
    requires from <= first.at && last.at <= to && first.life <= last.life
    requires forall a :: a in s.answers && from <= a.at <= to ==> first.life <= a.life <= last.life
    ensures Allowed(s.answers, 0, |s.starts|, from, to)
         <= cfg.capacity * (((to - from) / cfg.window).Floor + 2)
  {
    LivesMet(cfg, s, from, to, first, last);
    AllowedNarrows(s.answers, 0, |s.starts|, first.life, last.life, from, to);
    LivesBound(cfg, s, first.life, last.life, from, to);
    AtMostTimes(cfg.capacity, last.life - first.life + 1, ((to - from) / cfg.window).Floor + 2);
  }

  lemma AtMostTimes(c: nat, m: int, n: int)
    requires m <= n
    ensures c * m <= c * n
  {
    assert c * n - c * m == c * (n - m);
  }

  lemma {:induction false} Earliest(as_: set<Answer>) returns (a: Answer)
    requires as_ != {}
    ensures a in as_ && forall b :: b in as_ ==> a.life <= b.life
  {
    a :| a in as_;
    var rest := as_ - {a};
    if rest != {} {
      var b := Earliest(rest);
      assert as_ == rest + {a};
      a := if b.life < a.life then b else a;
    } else {
      assert as_ == {a};
    }
  }

  lemma {:induction false} Latest(as_: set<Answer>) returns (a: Answer)
    requires as_ != {}
    ensures a in as_ && forall b :: b in as_ ==> b.life <= a.life
  {
    a :| a in as_;
    var rest := as_ - {a};
    if rest != {} {
      var b := Latest(rest);
      assert as_ == rest + {a};
      a := if a.life < b.life then b else a;
    } else {
      assert as_ == {a};
    }
  }

  /** What two neighbouring lifetimes can give an interval that meets both. */
  lemma NeighboursBound(cfg: Config, s: State, from: real, to: real, l: nat)
    requires cfg.Valid() && Inv(cfg, s) && from <= to < from + cfg.window && cfg.capacity > 0
    requires l + 1 < |s.starts| && s.starts[l + 1] <= to
    ensures Allowed(s.answers, l, l + 1, from, to) <= 2 * cfg.capacity - 1
  {
    assert s.starts[l] + cfg.window <= s.starts[l + 1];
    assert LifeShare(cfg, s, l) == cfg.capacity;
    AllowedSplits(s.answers, l, l, l + 1, from, to);
  }

  lemma ShortBetween(cfg: Config, s: State, from: real, to: real, first: Answer, last: Answer)
    requires cfg.Valid() && Inv(cfg, s) && from <= to < from + cfg.window && first in s.answers && last in s.answers
    requires from <= first.at && last.at <= to && first.life <= last.life && cfg.capacity > 0
    ensures Allowed(s.answers, first.life, last.life, from, to) <= 2 * cfg.capacity - 1
  {
    LivesMet(cfg, s, from, to, first, last);
    BelowOne(to - from, cfg.window);
    if first.life < last.life {
      NeighboursBound(cfg, s, from, to, first.life);
    }
  }

  /** Less than a window apart, at most one less than twice the capacity: when an interval
      meets two lifetimes, the request that began the first of them lies before it. */
  lemma ShortIntervalBound(cfg: Config, cs: seq<Command>, from: real, to: real)
    requires cfg.Valid() && Legal(cfg, cs) && from <= to < from + cfg.window
    ensures Allowed(Run(cfg, cs).answers, 0, |Run(cfg, cs).starts|, from, to)
         <= if cfg.capacity > 0 then 2 * cfg.capacity - 1 else 0
  {
    RunKeepsInv(cfg, cs);
    IntervalBound(cfg, cs, from, to);
    assert cfg.capacity == 0 ==> cfg.capacity * (((to - from) / cfg.window).Floor + 2) == 0;
    var s := Run(cfg, cs);
    var inside := set a | a in s.answers && from <= a.at <= to;
    assert forall a :: a in s.answers && from <= a.at <= to ==> a in inside;
    if inside == {} {
      AllowedNarrows(s.answers, 0, |s.starts|, 1, 0, from, to);
      NoLives(s.answers, 1, 0, from, to);
    } else if cfg.capacity > 0 {
      var first := Earliest(inside);
      var last := Latest(inside);
      AllowedNarrows(s.answers, 0, |s.starts|, first.life, last.life, from, to);
      ShortBetween(cfg, s, from, to, first, last);
    }
  }

  lemma BelowOne(d: real, window: real)
    requires 0.0 <= d < window
    ensures (d / window).Floor == 0
  {
    var q := d / window;
    assert q * window == d;
    TimesOrder(1.0, q, window);
    TimesOrder(q, 0.0, window);
    assert 1.0 * window == window && 0.0 * window == 0.0;
    assert 0.0 <= q < 1.0;
  }

  lemma RunGrows(cfg: Config, cs: seq<Command>, c: Command)
    requires Legal(cfg, cs) && Enabled(Run(cfg, cs), c)
    ensures Legal(cfg, cs + [c]) && Run(cfg, cs + [c]) == Step(cfg, Run(cfg, cs), c)
  {
    assert Init(cs + [c]) == cs;
  }

  function Copies<T>(x: T, n: nat): seq<T> { seq(n, _ => x) }

  lemma {:induction false} AllowedCopies(as_: seq<Answer>, a: Answer, n: nat, lo: int, hi: int, from: real, to: real)
    requires a.allowed && lo <= a.life <= hi && from <= a.at <= to
    ensures Allowed(as_ + Copies(a, n), lo, hi, from, to) == Allowed(as_, lo, hi, from, to) + n
  {
    if n == 0 {
      assert as_ + Copies(a, n) == as_;
    } else {
      AllowedCopies(as_, a, n - 1, lo, hi, from, to);
      OneMoreCopy(as_, a, n - 1);
      AllowedAppend(as_ + Copies(a, n - 1), a, lo, hi, from, to);
    }
  }

  lemma AllowedAppend(as_: seq<Answer>, a: Answer, lo: int, hi: int, from: real, to: real)
    ensures Allowed(as_ + [a], lo, hi, from, to)
         == Allowed(as_, lo, hi, from, to) + if a.allowed && lo <= a.life <= hi && from <= a.at <= to then 1 else 0
  {
    assert (as_ + [a])[..|as_|] == as_;
  }

  /** `s'` is `s` after `n` increments that were allowed at this moment. */
  ghost predicate Counted(s: State, s': State, n: nat, at: real)
    requires s.counter.Some? && s.starts != []
  {
    && s'.now <= at && s'.starts == s.starts && s'.starting == s.starting
    && s'.counter == Some(s.counter.value.(n := s.counter.value.n + n))
    && s'.answers == s.answers + Copies(Answer(at, |s.starts| - 1, true), n)
  }

  lemma IncrCounts(cfg: Config, s: State, s': State, n: nat, at: real)
    requires Live(s.counter, at) && s.starts != [] && Counted(s, s', n, at)
    requires 1 <= s.counter.value.n && s.counter.value.n + n < cfg.capacity
    ensures Counted(s, Step(cfg, s', Incr(0, at)), n + 1, at)
  {
    IncrLives(cfg, s', at);
    OneMoreCopy(s.answers, Answer(at, |s.starts| - 1, true), n);
  }

  /** `n` increments at one moment, while the counter lives and has room for them. */
  lemma {:induction false} Burst(cfg: Config, cs: seq<Command>, n: nat, at: real) returns (more: seq<Command>)
    requires Legal(cfg, cs) && Run(cfg, cs).now <= at && Live(Run(cfg, cs).counter, at) && Run(cfg, cs).starts != []
    requires 1 <= Run(cfg, cs).counter.value.n && Run(cfg, cs).counter.value.n + n <= cfg.capacity
    ensures Legal(cfg, more) && Counted(Run(cfg, cs), Run(cfg, more), n, at)
  {
    if n == 0 {
      more := cs;
    } else {
      var so := Burst(cfg, cs, n - 1, at);
      IncrCounts(cfg, Run(cfg, cs), Run(cfg, so), n - 1, at);
      RunGrows(cfg, so, Incr(0, at));
      more := so + [Incr(0, at)];
    }
  }

  lemma OneMoreCopy(as_: seq<Answer>, a: Answer, n: nat)
    ensures as_ + Copies(a, n) + [a] == as_ + Copies(a, n + 1)
  {
  }

  lemma IncrLives(cfg: Config, s: State, at: real)
    requires Live(s.counter, at) && s.starts != [] && 1 <= s.counter.value.n < cfg.capacity
    ensures Step(cfg, s, Incr(0, at)) ==
      s.(now := at, counter := Some(s.counter.value.(n := s.counter.value.n + 1)),
         answers := s.answers + [Answer(at, |s.starts| - 1, true)])
  {
  }

  /** One request opens the first lifetime; just before its end it is filled. */
  lemma FillFirst(cfg: Config, late: real) returns (cs: seq<Command>)
    requires cfg.capacity >= 1 && 0.0 <= late < cfg.window
    ensures var s := Run(cfg, cs);
      && Legal(cfg, cs) && s.now <= late && s.starts == [0.0]
      && s.counter == Some(Counter(cfg.capacity, Some(cfg.window)))
      && s.answers == [Answer(0.0, 0, true)] + Copies(Answer(late, 0, true), cfg.capacity - 1)
  {
    var begun := OpenFirst(cfg);
    cs := Burst(cfg, begun, cfg.capacity - 1, late);
  }

  lemma OpenFirst(cfg: Config) returns (cs: seq<Command>)
    requires cfg.capacity >= 1 && cfg.Valid()
    ensures Legal(cfg, cs)
    ensures Run(cfg, cs) == State(0.0, Some(Counter(1, Some(cfg.window))), {}, [0.0], [Answer(0.0, 0, true)])
  {
    RunGrows(cfg, [], Incr(0, 0.0));
    var one := [] + [Incr(0, 0.0)];
    assert Run(cfg, one) == State(0.0, Some(Counter(1, None)), {0}, [0.0], [Answer(0.0, 0, true)]);
    RunGrows(cfg, one, Expire(0, 0.0));
    cs := one + [Expire(0, 0.0)];
  }

  lemma OpenSecond(cfg: Config, s: State)
    requires s.now <= cfg.window && s.starts == [0.0] && s.counter == Some(Counter(cfg.capacity, Some(cfg.window)))
    requires cfg.capacity >= 1
    ensures var s' := Step(cfg, s, Incr(0, cfg.window));
      && s'.now == cfg.window && s'.counter == Some(Counter(1, None)) && s'.starts == [0.0, cfg.window]
      && s'.answers == s.answers + [Answer(cfg.window, 1, true)]
  {
  }

  /** The next lifetime begins as the first one ends, and is filled at once. */
  lemma FillSecond(cfg: Config, cs: seq<Command>) returns (more: seq<Command>)
    requires cfg.capacity >= 1 && Legal(cfg, cs) && Run(cfg, cs).now <= cfg.window && Run(cfg, cs).starts == [0.0]
    requires Run(cfg, cs).counter == Some(Counter(cfg.capacity, Some(cfg.window)))
    ensures var s := Run(cfg, more);
      && Legal(cfg, more) && s.starts == [0.0, cfg.window]
      && s.answers == Run(cfg, cs).answers + Copies(Answer(cfg.window, 1, true), cfg.capacity)
  {
    var next := cs + [Incr(0, cfg.window)];
    var a := Answer(cfg.window, 1, true);
    RunGrows(cfg, cs, Incr(0, cfg.window));
    OpenSecond(cfg, Run(cfg, cs));
    more := Burst(cfg, next, cfg.capacity - 1, cfg.window);
    assert Copies(a, cfg.capacity) == [a] + Copies(a, cfg.capacity - 1);
  }

  /** For every capacity and window the bound is reached, in an interval a quarter of the
      window long: no smaller bound would do. */
  lemma ShortIntervalReached(cfg: Config) returns (cs: seq<Command>, from: real, to: real)
    requires cfg.Valid() && cfg.capacity >= 1
    ensures Legal(cfg, cs) && from <= to < from + cfg.window
    ensures Allowed(Run(cfg, cs).answers, 0, |Run(cfg, cs).starts|, from, to) == 2 * cfg.capacity - 1
  {
    from, to := cfg.window * 0.75, cfg.window;
    var filled := FillFirst(cfg, from);
    cs := FillSecond(cfg, filled);
    var first, late, next := Answer(0.0, 0, true), Answer(from, 0, true), Answer(to, 1, true);
    assert [first][..0] == [];
    assert Allowed([first], 0, 2, from, to) == 0;
    AllowedCopies([first], late, cfg.capacity - 1, 0, 2, from, to);
    AllowedCopies([first] + Copies(late, cfg.capacity - 1), next, cfg.capacity, 0, 2, from, to);
  }
}
