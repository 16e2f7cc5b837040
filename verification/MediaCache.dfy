/** `media.js`: downloaded attachments kept as object URLs, at most 60 of them.

    A JavaScript Map lists its entries in the order their keys were first set, so the
    cache is a sequence of entries. */
module MediaCache {
  import opened Common

  const MAX_CACHED: nat := 60

  datatype Entry = Entry(id: int, url: string)

  datatype State = State(
    cache: seq<Entry>,
    inflight: set<int>,        // ids with a promise that has not settled
    network: multiset<int>,    // downloads under way
    settling: multiset<int>,   // downloads over, whose promise has yet to run its last handler
    created: seq<string>,
    revoked: seq<string>)

  datatype Event =
    | Get(id: int)
    | Arrives(id: int, url: string)   // the download is over and its object URL is made
    | Fails(id: int)
    | Settles(id: int)
    | Release(id: int)

  // ---------------------------------------------------------- the ordered map

  function Find(cache: seq<Entry>, id: int): (i: nat)
    ensures i <= |cache| && (i < |cache| ==> cache[i].id == id)
    ensures forall j :: 0 <= j < i ==> cache[j].id != id
  {
    FirstWhere(cache, (e: Entry) => e.id == id)
  }

  predicate Has(cache: seq<Entry>, id: int) { Find(cache, id) < |cache| }

  function Set(cache: seq<Entry>, id: int, url: string): seq<Entry> {
    if Has(cache, id) then cache[Find(cache, id) := Entry(id, url)] else cache + [Entry(id, url)]
  }

  function Without(cache: seq<Entry>, id: int): seq<Entry> {
    var i := Find(cache, id);
    if i < |cache| then cache[..i] + cache[i + 1..] else cache
  }

  function Released(s: State, id: int): State {
    var i := Find(s.cache, id);
    if i < |s.cache| && s.cache[i].url != "" then
      s.(cache := Without(s.cache, id), revoked := s.revoked + [s.cache[i].url])
    else s
  }

  ghost predicate UrlsNonEmpty(cache: seq<Entry>) {
    forall e :: e in cache ==> e.url != ""
  }

  /** Oldest entries go until the cap is met. (An empty URL would never be released; the
      browser makes none, and the loop below relies on it.) */
  function Evicted(s: State): State
    decreases |s.cache|
  {
    if |s.cache| <= MAX_CACHED || s.cache[0].url == "" then s else Evicted(Released(s, s.cache[0].id))
  }

  // ------------------------------------------------------------- the module

  class MediaURLs {
    var cache: seq<Entry>
    var inflight: set<int>
    ghost var network: multiset<int>
    ghost var settling: multiset<int>
    ghost var created: seq<string>
    ghost var revoked: seq<string>

    ghost function Now(): State
      reads this
    {
      State(cache, inflight, network, settling, created, revoked)
    }

    constructor ()
      ensures Now() == EMPTY
    {
      cache, inflight := [], {};
      network, settling, created, revoked := multiset{}, multiset{}, [], [];
    }

    method ReleaseMediaURL(id: int)
      modifies this
      ensures Now() == Released(old(Now()), id)
    {
      var i := Find(cache, id);
      if i < |cache| && cache[i].url != "" {
        revoked := revoked + [cache[i].url];
        cache := cache[..i] + cache[i + 1..];
      }
    }

    method Remember(id: int, url: string)
      requires url != "" && UrlsNonEmpty(cache)
      modifies this
      ensures |cache| <= MAX_CACHED
      ensures Now() == Evicted(old(Now()).(cache := Set(old(cache), id, url)))
    {
      cache := Set(cache, id, url);
      while |cache| > MAX_CACHED
        invariant UrlsNonEmpty(cache)
        invariant Evicted(Now()) == Evicted(old(Now()).(cache := Set(old(cache), id, url)))
        decreases |cache|
      {
        ReleaseMediaURL(cache[0].id);
      }
    }

    /** The cached URL, if there is one, and otherwise whether a download was started. */
    method GetMediaURL(id: int) returns (url: Option<string>, started: bool)
      modifies this
      ensures Now() == Step(old(Now()), Get(id))
      ensures url.Some? <==> Has(old(cache), id)
      ensures url.Some? ==> Entry(id, url.value) in old(cache)
      ensures started <==> id !in old(inflight) && forall e :: e in old(cache) ==> e.id != id
      ensures network == if started then old(network) + multiset{id} else old(network)
    {
      var i := Find(cache, id);
      if i < |cache| {
        assert cache[i] in cache;
        return Some(cache[i].url), false;
      }
      assert forall e :: e in cache ==> exists j :: 0 <= j < |cache| && cache[j] == e;
      if id in inflight {
        return None, false;
      }
      network := network + multiset{id};
      inflight := inflight + {id};
      return None, true;
    }

    method OnArrival(id: int, url: string)
      requires url != "" && UrlsNonEmpty(cache)
      modifies this
      ensures Now() == Step(old(Now()), Arrives(id, url))
    {
      network, settling := network - multiset{id}, settling + multiset{id};
      created := created + [url];
      Remember(id, url);
    }

    method OnFinally(id: int)
      modifies this
      ensures Now() == Step(old(Now()), Settles(id))
    {
      settling := settling - multiset{id};
      inflight := inflight - {id};
    }
  }

  // ------------------------------------------------------------------- runs

  const EMPTY := State([], {}, multiset{}, multiset{}, [], [])

  function Step(s: State, e: Event): State {
    match e
    case Get(id) =>
      if Has(s.cache, id) || id in s.inflight then s
      else s.(network := s.network + multiset{id}, inflight := s.inflight + {id})
    case Arrives(id, url) =>
      Evicted(s.(network := s.network - multiset{id}, settling := s.settling + multiset{id},
                 created := s.created + [url], cache := Set(s.cache, id, url)))
    case Fails(id) => s.(network := s.network - multiset{id}, settling := s.settling + multiset{id})
    case Settles(id) => s.(settling := s.settling - multiset{id}, inflight := s.inflight - {id})
    case Release(id) => Released(s, id)
  }

  /** Downloads end and promises settle only once started; the browser makes fresh,
      non-empty object URLs. */
  ghost predicate Enabled(s: State, e: Event) {
    && ((e.Arrives? || e.Fails?) ==> e.id in s.network)
    && (e.Settles? ==> e.id in s.settling)
    && (e.Arrives? ==> e.url != "" && e.url !in s.created)
  }

  function Run(es: seq<Event>): State {
    if es == [] then EMPTY else Step(Run(Init(es)), Last(es))
  }

  ghost predicate Legal(es: seq<Event>) {
    es != [] ==> Legal(Init(es)) && Enabled(Run(Init(es)), Last(es))
  }

  // -------------------------------------------------------------- invariant

  function Urls(cache: seq<Entry>): seq<string> {
    if cache == [] then [] else [cache[0].url] + Urls(cache[1..])
  }

  /** Every URL made is in the cache or was revoked, and nothing is counted twice. */
  ghost predicate Conserved(s: State) {
    && multiset(s.created) == multiset(Urls(s.cache)) + multiset(s.revoked)
    && Distinct(s.created)
  }

  ghost predicate OneFetchEach(s: State) {
    && (forall id :: s.network[id] + s.settling[id] == if id in s.inflight then 1 else 0)
    && (forall i :: 0 <= i < |s.cache| ==> s.cache[i].id !in s.network)
  }

  ghost predicate IdsDistinct(cache: seq<Entry>) {
    forall i, j :: 0 <= i < j < |cache| ==> cache[i].id != cache[j].id
  }

  ghost predicate Inv(s: State) {
    UrlsNonEmpty(s.cache) && IdsDistinct(s.cache) && |s.cache| <= MAX_CACHED && Conserved(s) && OneFetchEach(s)
  }

  lemma {:induction false} UrlsSplit(a: seq<Entry>, b: seq<Entry>)
    ensures Urls(a + b) == Urls(a) + Urls(b)
  {
    if a == [] {
      assert a + b == b;
    } else {
      UrlsSplit(a[1..], b);
      assert (a + b)[1..] == a[1..] + b && (a + b)[0] == a[0];
      Associates([a[0].url], Urls(a[1..]), Urls(b));
    }
  }

  lemma UrlsAround(before: seq<Entry>, e: Entry, after: seq<Entry>)
    ensures multiset(Urls(before + [e] + after)) == multiset(Urls(before + after)) + multiset{e.url}
  {
    UrlsSplit(before + [e], after);
    UrlsSplit(before, [e]);
    UrlsSplit(before, after);
    assert Urls([e]) == [e.url];
    AddUp(Urls(before), e.url, Urls(after));
  }

  lemma AddUp(a: seq<string>, x: string, b: seq<string>)
    ensures multiset(a + [x] + b) == multiset(a + b) + multiset{x}
  {
    assert multiset(a + [x] + b) == multiset(a) + multiset([x]) + multiset(b);
  }

  lemma ReleaseKeepsConserved(s: State, id: int)
    requires Conserved(s)
    ensures Conserved(Released(s, id))
  {
    var i := Find(s.cache, id);
    if i < |s.cache| && s.cache[i].url != "" {
      WithoutUrls(s.cache, id);
      assert multiset(s.revoked + [s.cache[i].url]) == multiset(s.revoked) + multiset{s.cache[i].url};
    }
  }

  lemma WithoutUrls(cache: seq<Entry>, id: int)
    requires Has(cache, id)
    ensures multiset(Urls(cache)) == multiset(Urls(Without(cache, id))) + multiset{cache[Find(cache, id)].url}
  {
    var i := Find(cache, id);
    var before, after := cache[..i], cache[i + 1..];
    assert cache == before + [cache[i]] + after;
    UrlsAround(before, cache[i], after);
    assert Without(cache, id) == before + after;
  }

  lemma ReleaseKeepsInv(s: State, id: int)
    requires Inv(s)
    ensures Inv(Released(s, id))
  {
    ReleaseKeepsConserved(s, id);
    WithoutKeeps(s.cache, id);
    var s' := Released(s, id);
    forall j | 0 <= j < |s'.cache|
      ensures s'.cache[j].id !in s'.network
    {
      assert s'.cache[j] in s.cache;
    }
  }

  lemma WithoutKeeps(cache: seq<Entry>, id: int)
    requires IdsDistinct(cache)
    ensures IdsDistinct(Without(cache, id))
    ensures forall e :: e in Without(cache, id) ==> e in cache
  {
  }

  /** An arrival appends its entry; only a full cache gives one up, and it is the oldest. */
  lemma ArrivalEvictsOldest(s: State, id: int, url: string)
    requires Inv(s) && Enabled(s, Arrives(id, url))
    ensures !Has(s.cache, id)
    ensures |s.cache| < MAX_CACHED ==>
      Step(s, Arrives(id, url)) == Arrived(s, id, url, s.cache + [Entry(id, url)], s.revoked)
    ensures |s.cache| == MAX_CACHED ==>
      Step(s, Arrives(id, url))
        == Arrived(s, id, url, s.cache[1..] + [Entry(id, url)], s.revoked + [s.cache[0].url])
  {
    var added := s.cache + [Entry(id, url)];
    assert Set(s.cache, id, url) == added;
    if |s.cache| == MAX_CACHED {
      var mid := Arrived(s, id, url, added, s.revoked);
      assert s.cache[0] in s.cache && added[0] == s.cache[0];
      assert Without(added, s.cache[0].id) == s.cache[1..] + [Entry(id, url)];
      var out := Released(mid, s.cache[0].id);
      assert Evicted(mid) == Evicted(out) == out;
    }
  }

  ghost function Arrived(s: State, id: int, url: string, cache: seq<Entry>, revoked: seq<string>): State {
    s.(network := s.network - multiset{id}, settling := s.settling + multiset{id},
       created := s.created + [url], cache := cache, revoked := revoked)
  }

  lemma AppendConserves(created: seq<string>, kept: seq<Entry>, gone: seq<string>, revoked: seq<string>, e: Entry)
    requires multiset(created) == multiset(gone) + multiset(Urls(kept)) + multiset(revoked)
    ensures multiset(created + [e.url]) == multiset(Urls(kept + [e])) + multiset(revoked + gone)
  {
    UrlsSplit(kept, [e]);
    assert Urls([e]) == [e.url];
  }

  lemma ArrivalConserves(s: State, id: int, url: string)
    requires Inv(s) && Enabled(s, Arrives(id, url))
    ensures Conserved(Step(s, Arrives(id, url)))
  {
    ArrivalEvictsOldest(s, id, url);
    if |s.cache| == MAX_CACHED {
      assert Urls(s.cache) == [s.cache[0].url] + Urls(s.cache[1..]);
      AppendConserves(s.created, s.cache[1..], [s.cache[0].url], s.revoked, Entry(id, url));
    } else {
      AppendConserves(s.created, s.cache, [], s.revoked, Entry(id, url));
      assert s.revoked + [] == s.revoked;
    }
  }

  lemma ArrivalKeepsFetches(s: State, id: int, url: string)
    requires Inv(s) && Enabled(s, Arrives(id, url))
    ensures OneFetchEach(Step(s, Arrives(id, url)))
  {
    ArrivalEvictsOldest(s, id, url);
    var s' := Step(s, Arrives(id, url));
    forall j | 0 <= j < |s'.cache|
      ensures s'.cache[j].id !in s'.network
    {
      assert s.network[id] <= 1;
    }
  }

  lemma ArrivalKeepsEntries(s: State, id: int, url: string)
    requires Inv(s) && Enabled(s, Arrives(id, url))
    ensures var cache := Step(s, Arrives(id, url)).cache; UrlsNonEmpty(cache) && IdsDistinct(cache) && |cache| <= MAX_CACHED
    ensures forall e :: e in Step(s, Arrives(id, url)).cache ==> e in s.cache || e == Entry(id, url)
  {
    ArrivalEvictsOldest(s, id, url);
    assert Find(s.cache, id) == |s.cache|;
  }

  lemma ArrivalKeepsInv(s: State, id: int, url: string)
    requires Inv(s) && Enabled(s, Arrives(id, url))
    ensures Inv(Step(s, Arrives(id, url)))
  {
    ArrivalConserves(s, id, url);
    ArrivalKeepsEntries(s, id, url);
    ArrivalKeepsFetches(s, id, url);
  }

  lemma StepKeepsInv(s: State, e: Event)
    requires Inv(s) && Enabled(s, e)
    ensures Inv(Step(s, e))
  {
    match e
    case Get(id) =>
    case Arrives(id, url) => ArrivalKeepsInv(s, id, url);
    case Fails(id) =>
    case Settles(id) =>
    case Release(id) => ReleaseKeepsInv(s, id);
  }

  lemma {:induction false} RunKeepsInv(es: seq<Event>)
    requires Legal(es)
    ensures Inv(Run(es))
  {
    if es != [] {
      RunKeepsInv(Init(es));
      StepKeepsInv(Run(Init(es)), Last(es));
    }
  }

  // ---------------------------------------------------------------- results

  /** At every moment the cache holds at most 60 entries, under distinct ids, and each id
      has at most one download under way, none of them for a cached attachment. */
  lemma CacheStaysSmall(es: seq<Event>, id: int)
    requires Legal(es)
    ensures |Run(es).cache| <= MAX_CACHED && IdsDistinct(Run(es).cache)
    ensures Run(es).network[id] <= 1
    ensures Has(Run(es).cache, id) ==> Run(es).network[id] == 0
  {
    RunKeepsInv(es);
    var s := Run(es);
    if Has(s.cache, id) {
      assert s.cache[Find(s.cache, id)].id == id;
    }
  }

  /** Each object URL ever made is held by the cache or was revoked, one or the other, once. */
  lemma UrlsConserved(es: seq<Event>, url: string)
    requires Legal(es) && url in Run(es).created
    ensures multiset(Urls(Run(es).cache))[url] + multiset(Run(es).revoked)[url] == 1
  {
    RunKeepsInv(es);
    DistinctCountsOnce(Run(es).created, url);
  }

  lemma {:induction false} DistinctCountsOnce(s: seq<string>, x: string)
    requires Distinct(s) && x in s
    ensures multiset(s)[x] == 1
  {
    assert s == Init(s) + [Last(s)];
    if x == Last(s) {
      assert x !in Init(s);
    } else {
      DistinctCountsOnce(Init(s), x);
    }
  }

  /** The event takes the entry out of the cache: it is released, or it is the oldest of 60 as
      another attachment arrives. */
  ghost predicate Leaves(s: State, e: Event, entry: Entry) {
    (e.Release? && e.id == entry.id) || (e.Arrives? && |s.cache| == 60 && s.cache[0] == entry)
  }

  /** A release takes out that entry alone, leaves the others in their order, and revokes its
      URL; without an entry it does nothing. */
  lemma ReleaseExactly(s: State, id: int)
    requires UrlsNonEmpty(s.cache) && IdsDistinct(s.cache)
    ensures forall i :: 0 <= i < |s.cache| && s.cache[i].id == id ==>
      Released(s, id) == s.(cache := s.cache[..i] + s.cache[i + 1..], revoked := s.revoked + [s.cache[i].url])
    ensures (forall e :: e in s.cache ==> e.id != id) ==> Released(s, id) == s
  {
    var i := Find(s.cache, id);
    if i < |s.cache| {
      assert s.cache[i] in s.cache;
    }
  }

  lemma ReleasedMembers(s: State, id: int, entry: Entry)
    requires UrlsNonEmpty(s.cache) && IdsDistinct(s.cache)
    ensures entry in Released(s, id).cache <==> entry in s.cache && entry.id != id
  {
    ReleaseExactly(s, id);
    var i := Find(s.cache, id);
    if i < |s.cache| {
      assert s.cache == s.cache[..i] + [s.cache[i]] + s.cache[i + 1..];
    } else if entry in s.cache {
      var j :| 0 <= j < |s.cache| && s.cache[j] == entry;
    }
  }

  lemma CachedStep(s: State, e: Event, entry: Entry)
    requires Inv(s) && Enabled(s, e)
    ensures entry in Step(s, e).cache <==>
      e == Arrives(entry.id, entry.url) || (entry in s.cache && !Leaves(s, e, entry))
  {
    match e
    case Arrives(id, url) =>
      ArrivalEvictsOldest(s, id, url);
      assert entry == Entry(entry.id, entry.url);
      if |s.cache| == MAX_CACHED {
        assert s.cache == [s.cache[0]] + s.cache[1..];
      }
    case Release(id) =>
      ReleasedMembers(s, id, entry);
    case _ =>
  }

  ghost function Cached(es: seq<Event>, entry: Entry): nat -> bool {
    (i: nat) => i <= |es| && entry in Run(es[..i]).cache
  }

  ghost function Arriving(es: seq<Event>, entry: Entry): nat -> bool {
    (i: nat) => i < |es| && es[i] == Arrives(entry.id, entry.url)
  }

  ghost function Leaving(es: seq<Event>, entry: Entry): nat -> bool {
    (i: nat) => i < |es| && Leaves(Run(es[..i]), es[i], entry)
  }

  lemma {:induction false} LegalPrefix(es: seq<Event>, i: nat)
    requires Legal(es) && i <= |es|
    ensures Legal(es[..i])
    decreases |es|
  {
    if i == |es| {
      assert es[..i] == es;
    } else {
      LegalPrefix(Init(es), i);
      assert Init(es)[..i] == es[..i];
    }
  }

  lemma PrefixStep(es: seq<Event>, i: nat)
    requires Legal(es) && i < |es|
    ensures Legal(es[..i]) && Enabled(Run(es[..i]), es[i]) && Run(es[..i + 1]) == Step(Run(es[..i]), es[i])
  {
    LegalPrefix(es, i + 1);
    assert Init(es[..i + 1]) == es[..i] && Last(es[..i + 1]) == es[i];
  }

  lemma CachedStepAt(es: seq<Event>, i: nat, entry: Entry)
    requires Legal(es) && i < |es|
    ensures Switches(Cached(es, entry), Arriving(es, entry), Leaving(es, entry), i)
  {
    PrefixStep(es, i);
    RunKeepsInv(es[..i]);
    CachedStep(Run(es[..i]), es[i], entry);
  }

  lemma CachedSwitches(es: seq<Event>, entry: Entry)
    requires Legal(es)
    ensures forall i: nat :: i < |es| ==> Switches(Cached(es, entry), Arriving(es, entry), Leaving(es, entry), i)
  {
    forall i: nat | i < |es|
      ensures Switches(Cached(es, entry), Arriving(es, entry), Leaving(es, entry), i)
    {
      CachedStepAt(es, i, entry);
    }
  }

  lemma CachedEnds(es: seq<Event>, entry: Entry)
    requires Legal(es)
    ensures !Cached(es, entry)(0) && (Cached(es, entry)(|es|) <==> entry in Run(es).cache)
  {
    assert es[..0] == [] && es[..|es|] == es;
  }

  /** On any run, the cache holds exactly what has arrived and since then has been neither
      released nor pushed out as the oldest of 60. */
  lemma CachedExactly(es: seq<Event>, entry: Entry)
    requires Legal(es)
    ensures entry in Run(es).cache <==> HeldSince(Arriving(es, entry), Leaving(es, entry), |es|)
  {
    CachedSwitches(es, entry);
    CachedEnds(es, entry);
    Since(Cached(es, entry), Arriving(es, entry), Leaving(es, entry), |es|);
  }

  // -------------------------------------------------------- what a caller is given

  /** The URL that the promise under way for an id resolves with, once its download is over. */
  ghost function Outcome(es: seq<Event>, id: int): Option<string> {
    if es == [] then None else
      match Last(es)
      case Arrives(i, url) => if i == id then Some(url) else Outcome(Init(es), id)
      case Fails(i) => if i == id then None else Outcome(Init(es), id)
      case Settles(i) => if i == id then None else Outcome(Init(es), id)
      case _ => Outcome(Init(es), id)
  }

  /** The URL that getMediaURL gives now, if it is made already: the cached one, or that of
      the promise it joins. */
  ghost function HandedOut(es: seq<Event>, id: int): Option<string> {
    var s := Run(es);
    if Has(s.cache, id) then Some(s.cache[Find(s.cache, id)].url)
    else if id in s.inflight then Outcome(es, id)
    else None
  }

  /** An outcome is a URL that was made for this id, and no entry of another id has it. */
  ghost predicate OutcomeOwned(s: State, outcome: Option<string>, id: int) {
    outcome.Some? ==> outcome.value in s.created && forall e :: e in s.cache && e.url == outcome.value ==> e.id == id
  }

  lemma {:induction false} UrlsMembers(cache: seq<Entry>)
    ensures forall u :: u in Urls(cache) <==> exists e :: e in cache && e.url == u
  {
    if cache != [] {
      UrlsMembers(cache[1..]);
      assert cache == [cache[0]] + cache[1..];
    }
  }

  /** A cached URL was made and not revoked; a URL made and not cached was revoked. */
  lemma LiveMeansCached(s: State, url: string)
    requires Conserved(s) && url in s.created
    ensures url !in s.revoked <==> exists e :: e in s.cache && e.url == url
  {
    DistinctCountsOnce(s.created, url);
    UrlsMembers(s.cache);
    assert multiset(s.created)[url] == multiset(Urls(s.cache))[url] + multiset(s.revoked)[url];
    assert url in s.revoked <==> url in multiset(s.revoked);
    assert url in Urls(s.cache) <==> url in multiset(Urls(s.cache));
  }

  lemma CachedWasMade(s: State, e: Entry)
    requires Conserved(s) && e in s.cache
    ensures e.url in s.created
  {
    UrlsMembers(s.cache);
    assert e.url in Urls(s.cache) <==> e.url in multiset(Urls(s.cache));
    assert multiset(s.created)[e.url] >= multiset(Urls(s.cache))[e.url];
    assert e.url in s.created <==> e.url in multiset(s.created);
  }

  lemma ArrivalOwned(s: State, outcome: Option<string>, id: int, i: int, url: string)
    requires Inv(s) && Enabled(s, Arrives(i, url)) && OutcomeOwned(s, outcome, id)
    ensures OutcomeOwned(Step(s, Arrives(i, url)), if i == id then Some(url) else outcome, id)
  {
    ArrivalEvictsOldest(s, i, url);
    ArrivalKeepsEntries(s, i, url);
    forall e | e in s.cache
      ensures e.url in s.created
    {
      CachedWasMade(s, e);
    }
  }

  lemma {:induction false} OutcomesOwned(es: seq<Event>, id: int)
    requires Legal(es)
    ensures OutcomeOwned(Run(es), Outcome(es, id), id)
  {
    if es != [] {
      var s := Run(Init(es));
      RunKeepsInv(Init(es));
      OutcomesOwned(Init(es), id);
      match Last(es)
      case Arrives(i, url) => ArrivalOwned(s, Outcome(Init(es), id), id, i, url);
      case Release(i) => WithoutKeeps(s.cache, i);
      case _ =>
    }
  }

  /** A URL that a caller is given is usable exactly while its id is in the cache: between a
      release and the end of its promise, callers still join that promise and are given a
      URL that has been revoked. */
  lemma HandedOutLiveExactly(es: seq<Event>, id: int)
    requires Legal(es) && HandedOut(es, id).Some?
    ensures HandedOut(es, id).value in Run(es).created
    ensures HandedOut(es, id).value !in Run(es).revoked <==> Has(Run(es).cache, id)
  {
    var s := Run(es);
    RunKeepsInv(es);
    OutcomesOwned(es, id);
    if Has(s.cache, id) {
      var e := s.cache[Find(s.cache, id)];
      assert e in s.cache;
      CachedWasMade(s, e);
    }
    LiveMeansCached(s, HandedOut(es, id).value);
  }

  lemma RunGrows(es: seq<Event>, e: Event)
    requires Legal(es) && Enabled(Run(es), e)
    ensures Legal(es + [e]) && Run(es + [e]) == Step(Run(es), e)
  {
    assert Init(es + [e]) == es;
  }

  /** An entry that was just made and is released at once. */
  lemma FetchedAndReleased(id: int, url: string)
    requires url != ""
    ensures var s := Step(Step(EMPTY, Get(id)), Arrives(id, url));
      && Enabled(Step(EMPTY, Get(id)), Arrives(id, url))
      && Step(s, Release(id)).cache == [] && Step(s, Release(id)).revoked == [url] && id in Step(s, Release(id)).inflight
  {
    var s := Step(EMPTY, Get(id));
    assert s == State([], {id}, multiset{id}, multiset{}, [], []);
    assert Set(s.cache, id, url) == [Entry(id, url)];
    assert Step(s, Arrives(id, url)).cache == [Entry(id, url)];
  }

  lemma LastOutcome(es: seq<Event>, id: int, url: string)
    ensures Outcome(es + [Arrives(id, url)] + [Release(id)], id) == Some(url)
  {
    var fetched := es + [Arrives(id, url)];
    assert Init(fetched + [Release(id)]) == fetched;
  }

  /** Such a caller exists. */
  lemma ReleaseHandsOutRevoked(id: int, url: string) returns (es: seq<Event>)
    requires url != ""
    ensures Legal(es) && HandedOut(es, id) == Some(url) && url in Run(es).revoked
  {
    var one := [] + [Get(id)];
    var two := one + [Arrives(id, url)];
    es := two + [Release(id)];
    FetchedAndReleased(id, url);
    RunGrows([], Get(id));
    RunGrows(one, Arrives(id, url));
    RunGrows(two, Release(id));
    LastOutcome(one, id, url);
  }
}
