/** The portfolio data and its session cache. The fetch of the JSON
    document is abstracted to its outcome. The cache is written only by a
    load whose body parsed, and a load that starts while it is set returns
    it without fetching. */
module DataCache {
  import opened Wrappers

  datatype Personal = Personal(name: string, title: string, bio: string)
  datatype Service = Service(title: string)
  datatype Project = Project(title: string, category: string)

  /** The parts of the JSON document the modelled renderers read. */
  datatype PortfolioData = PortfolioData(
    personal: Personal,
    services: seq<Service>,
    projects: seq<Project>)

  /** What `response.json()` gives: a document, a JSON value that is falsy
      (`null`, `false`, `0`, `""`), or a parse failure (the promise
      rejects). */
  datatype Body = Document(data: PortfolioData) | FalsyJson | Unparsable

  /** What `fetch` gives: a network failure (the promise rejects) or a
      response with a status and a body. */
  datatype FetchOutcome = NetworkError | Response(status: int, body: Body)

  /** `response.ok`: a status in the range 200-299. */
  predicate StatusOk(status: int) {
    200 <= status <= 299
  }

  /** The document a fetch delivers, if it delivers one. */
  function Delivered(o: FetchOutcome): Option<PortfolioData> {
    if o.Response? && StatusOk(o.status) && o.body.Document? then Some(o.body.data) else None
  }

  datatype Load = Load(
    result: Option<PortfolioData>,  // what the call returns; None is `null`
    cache: Option<PortfolioData>,   // `portfolioData` afterwards
    fetched: bool)                  // whether `fetch` was called

  /** The part of `loadPortfolioData()` after its awaits, with cache
      `cacheNow` at that moment and the fetch producing `outcome`. Only a
      parsed body is assigned to the cache: a document fills it and a falsy
      value empties it; a failure before the assignment leaves it as it
      is. */
  function Finish(cacheNow: Option<PortfolioData>, outcome: FetchOutcome): (r: Load)
    ensures r.fetched
    ensures r.result == Delivered(outcome)
    ensures r.result.Some? ==> r.cache == r.result
    ensures outcome.Response? && StatusOk(outcome.status) && outcome.body.FalsyJson? ==> r.cache.None?
    ensures !(outcome.Response? && StatusOk(outcome.status) && !outcome.body.Unparsable?) ==> r.cache == cacheNow
  {
    match outcome
    case NetworkError => Load(None, cacheNow, true)
    case Response(status, body) =>
      if !StatusOk(status) then Load(None, cacheNow, true)
      else
        match body
        case Document(d) => Load(Some(d), Some(d), true)
        case FalsyJson => Load(None, None, true)
        case Unparsable => Load(None, cacheNow, true)
  }

  /** `loadPortfolioData()` with cache `cache`, where a fetch would produce
      `outcome`, when no other load runs meanwhile. A falsy cache counts as
      empty, so a falsy JSON document is treated like a failure. */
  function LoadPortfolioData(cache: Option<PortfolioData>, outcome: FetchOutcome): (r: Load)
    ensures cache.Some? ==> r.result == cache && r.cache == cache && !r.fetched
    ensures cache.None? ==> r.fetched
    ensures r.result == r.cache
    ensures cache.None? && outcome.NetworkError? ==> r.result.None?
    ensures cache.None? && outcome.Response? && !StatusOk(outcome.status) ==> r.result.None?
    ensures cache.None? && outcome.Response? && !outcome.body.Document? ==> r.result.None?
    ensures cache.None? && outcome.Response? && StatusOk(outcome.status) && outcome.body.Document? ==>
      r.result == Some(outcome.body.data)
  {
    if cache.Some? then Load(cache, cache, false) else Finish(cache, outcome)
  }

  /** Two calls of `loadPortfolioData()` that both start before either
      passes its awaits, where the first to finish meets `o1` and the
      other `o2`. Both test the cache before anything is written, so from
      an empty cache both fetch, each returns its own document, and the
      one finishing last decides what the cache holds. */
  function Overlapped(cache: Option<PortfolioData>, o1: FetchOutcome, o2: FetchOutcome): (r: (Load, Load))
    ensures cache.Some? ==> r.0 == r.1 == LoadPortfolioData(cache, o1)
    ensures cache.None? ==> r.0.fetched && r.1.fetched
    ensures cache.None? ==> r.0.cache == Delivered(o1)
    ensures cache.None? && o2.Response? && StatusOk(o2.status) && o2.body.FalsyJson? ==> r.1.cache.None?
    ensures cache.None? ==> r.0.result == Delivered(o1) && r.1.result == Delivered(o2)
    ensures cache.None? && Delivered(o2).Some? ==> r.1.cache == Delivered(o2)
    ensures cache.None? && Delivered(o2).None? && !(o2.Response? && StatusOk(o2.status) && o2.body.FalsyJson?) ==>
      r.1.cache == r.0.cache
  {
    if cache.Some? then
      var l := Load(cache, cache, false);
      (l, l)
    else
      var first := Finish(cache, o1);
      (first, Finish(first.cache, o2))
  }

  /** Unlike a session of one load after the other, overlapping loads that
      both succeed fetch twice, and a later call returns the second
      document, not the one the first call returned. */
  lemma OverlapRefetches(d1: PortfolioData, d2: PortfolioData, later: FetchOutcome)
    requires d1 != d2
    ensures Session(None, [Response(200, Document(d1)), Response(200, Document(d2))])[1].result == Some(d1)
    ensures !Session(None, [Response(200, Document(d1)), Response(200, Document(d2))])[1].fetched
    ensures var r := Overlapped(None, Response(200, Document(d1)), Response(200, Document(d2)));
      && r.0.result == Some(d1) && r.1.fetched
      && LoadPortfolioData(r.1.cache, later).result == Some(d2) != r.0.result
  {
    var os := [Response(200, Document(d1)), Response(200, Document(d2))];
    LoadedOnce(None, os, 0, 1);
  }

  /** A session of loads, each finishing before the next starts: the i-th
      call meets `outcomes[i]` if it fetches. */
  function Session(cache: Option<PortfolioData>, outcomes: seq<FetchOutcome>): (loads: seq<Load>)
    ensures |loads| == |outcomes|
    ensures forall k :: 0 <= k < |loads| ==> loads[k].result == loads[k].cache
    decreases |outcomes|
  {
    if outcomes == [] then []
    else
      var first := LoadPortfolioData(cache, outcomes[0]);
      [first] + Session(first.cache, outcomes[1..])
  }

  /** Once a load returns data, every later load in the session returns
      the same data without fetching. */
  lemma {:induction false} LoadedOnce(cache: Option<PortfolioData>, outcomes: seq<FetchOutcome>, i: nat, j: nat)
    requires i < j < |outcomes|
    requires Session(cache, outcomes)[i].result.Some?
    ensures Session(cache, outcomes)[j].result == Session(cache, outcomes)[i].result
    ensures !Session(cache, outcomes)[j].fetched
    decreases |outcomes|
  {
    var first := LoadPortfolioData(cache, outcomes[0]);
    var rest := Session(first.cache, outcomes[1..]);
    assert Session(cache, outcomes) == [first] + rest;
    if i == 0 {
      CachedStays(first.cache, outcomes[1..], j - 1);
    } else {
      LoadedOnce(first.cache, outcomes[1..], i - 1, j - 1);
    }
  }

  /** From a filled cache, every load of a session returns it unfetched. */
  lemma {:induction false} CachedStays(cache: Option<PortfolioData>, outcomes: seq<FetchOutcome>, j: nat)
    requires cache.Some? && j < |outcomes|
    ensures Session(cache, outcomes)[j].result == cache
    ensures !Session(cache, outcomes)[j].fetched
    decreases |outcomes|
  {
    var first := LoadPortfolioData(cache, outcomes[0]);
    assert Session(cache, outcomes) == [first] + Session(first.cache, outcomes[1..]);
    if j > 0 {
      CachedStays(first.cache, outcomes[1..], j - 1);
    }
  }

  /** A load that returns `null` leaves the cache empty, so the next load
      fetches again. */
  lemma FailureRefetches(cache: Option<PortfolioData>, outcomes: seq<FetchOutcome>, i: nat)
    requires i + 1 < |outcomes|
    requires Session(cache, outcomes)[i].result.None?
    ensures Session(cache, outcomes)[i + 1].fetched
  {
    SessionStep(cache, outcomes, i);
  }

  /** Consecutive loads of a session hand the cache on. */
  lemma {:induction false} SessionStep(cache: Option<PortfolioData>, outcomes: seq<FetchOutcome>, i: nat)
    requires i + 1 < |outcomes|
    ensures Session(cache, outcomes)[i + 1]
      == LoadPortfolioData(Session(cache, outcomes)[i].cache, outcomes[i + 1])
    decreases |outcomes|
  {
    var first := LoadPortfolioData(cache, outcomes[0]);
    var rest := Session(first.cache, outcomes[1..]);
    assert Session(cache, outcomes) == [first] + rest;
    if i == 0 {
      assert rest == [LoadPortfolioData(first.cache, outcomes[1])] + Session(rest[0].cache, outcomes[2..]);
    } else {
      SessionStep(first.cache, outcomes[1..], i - 1);
    }
  }
}
