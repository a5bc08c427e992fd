/** The launchpad progress endpoint (app/controllers/launchpad_progress_controller.js):
    a 404 guard, the edge cache consulted first, and on a miss three independent
    store reads, a rendered snapshot, and a background write of the response
    back under the same key. The edge cache is a map; the reads are results; the
    calls made are recorded as effects. */
module LaunchpadProgress {
  import opened Wrappers
  import opened Decimal
  import opened Http
  import Launchpad

  const NotFoundText := "Not Found"
  const SharedMaxAgePrefix := "public, max-age=0, s-maxage="
  const StaleWindowDirective := ", stale-while-revalidate="

  /** The collection the route's slug resolves to. */
  datatype Collection = Collection(slug: string, isLaunchpad: bool, policy: Launchpad.CollectionPolicy)

  /** An edge-cache key: a request reduced to its method and URL. */
  datatype CacheKey = CacheKey(httpMethod: string, url: string)

  datatype StoreRead = ParentInscriptionRead | AvailableCountRead(slug: string) | PendingCountRead(slug: string)

  datatype Effect = CacheMatch(key: CacheKey) | Read(read: StoreRead) | CachePut(key: CacheKey)

  /** A response of this endpoint: its page is rendered from a supply snapshot. */
  type Page = Response<Launchpad.Supply>

  /** The outcome of one request: the response (or a throw), the edge cache
      afterwards, and the calls made, in order. */
  datatype Handled = Handled(outcome: Outcome<Launchpad.Supply>, cache: map<CacheKey, Page>, effects: seq<Effect>)

  /** The cache key: a GET for the request URL, whatever the request's own method. */
  function ProgressKey(url: string): (key: CacheKey)
    ensures key.httpMethod == "GET" && key.url == url
  {
    CacheKey("GET", url)
  }

  /** The Cache-Control header: public, no browser caching, and a shared-cache
      lifetime and stale-while-revalidate window both equal to `ttl` seconds. */
  function CacheControl(ttl: nat): (header: string)
    ensures |SharedMaxAgePrefix| <= |header| && header[..|SharedMaxAgePrefix|] == SharedMaxAgePrefix
    ensures LeadingDigits(header[|SharedMaxAgePrefix|..]) == Show(ttl)
    ensures DigitsValue(LeadingDigits(header[|SharedMaxAgePrefix|..])) == ttl
    ensures |header| == |SharedMaxAgePrefix| + 2 * |Show(ttl)| + |StaleWindowDirective|
    ensures var tail := StaleWindowDirective + Show(ttl);
            |tail| <= |header| && header[|header| - |tail|..] == tail
  {
    var header := SharedMaxAgePrefix + Show(ttl) + StaleWindowDirective + Show(ttl);
    assert header[|SharedMaxAgePrefix|..] == Show(ttl) + (StaleWindowDirective + Show(ttl));
    LeadingDigitsOfRun(Show(ttl), StaleWindowDirective + Show(ttl));
    header
  }

  /** The header determines the TTL it was built from. */
  lemma {:induction false} CacheControlInjective(a: nat, b: nat)
    requires CacheControl(a) == CacheControl(b)
    ensures a == b
  {
    var ha := CacheControl(a);
    assert DigitsValue(LeadingDigits(ha[|SharedMaxAgePrefix|..])) == a;
    assert DigitsValue(LeadingDigits(ha[|SharedMaxAgePrefix|..])) == b;
  }

  /** `launchpadProgressController`. `parent`, `available` and `pending` are the
      three store reads issued together on a miss (`Failure` when a read
      rejects); `putSucceeds` says whether the background cache write lands. */
  function HandleProgress(c: Collection, httpMethod: string, url: string, cache: map<CacheKey, Page>,
                          parent: Result<Option<Launchpad.ParentInscription>, string>,
                          available: Result<Option<int>, string>,
                          pending: Result<Option<int>, string>,
                          ttl: nat, putSucceeds: bool): (h: Handled)
    // not a launchpad: 404 before the cache or the store is touched
    ensures !c.isLaunchpad ==> h == Handled(Returned(Response(404, TextBody(NotFoundText), None)), cache, [])
    // a launchpad request always consults the cache first, under the GET key for its URL
    ensures c.isLaunchpad ==> |h.effects| > 0 && h.effects[0] == CacheMatch(ProgressKey(url))
    // a hit returns the cached response and reads nothing
    ensures c.isLaunchpad && ProgressKey(url) in cache ==>
              h == Handled(Returned(cache[ProgressKey(url)]), cache, [CacheMatch(ProgressKey(url))])
    // a miss issues all three reads, and the store is read only on a miss
    ensures (exists i :: 0 <= i < |h.effects| && h.effects[i].Read?) <==> c.isLaunchpad && ProgressKey(url) !in cache
    ensures c.isLaunchpad && ProgressKey(url) !in cache ==>
              |h.effects| >= 4 && h.effects[..4] == [CacheMatch(ProgressKey(url)), Read(ParentInscriptionRead),
                                 Read(AvailableCountRead(c.slug)), Read(PendingCountRead(c.slug))]
    // any failed read fails the request and nothing is cached
    ensures (parent.Failure? || available.Failure? || pending.Failure?) ==> h.cache == cache
    ensures c.isLaunchpad && ProgressKey(url) !in cache && (parent.Failure? || available.Failure? || pending.Failure?) ==>
              h.outcome == Threw && |h.effects| == 4
    // a miss with all reads in renders the snapshot with the shared-cache header
    ensures c.isLaunchpad && ProgressKey(url) !in cache && parent.Success? && available.Success? && pending.Success? ==>
              && h.outcome.Returned?
              && h.outcome.response.status == 200
              && h.outcome.response.cacheControl == Some(CacheControl(ttl))
              && h.outcome.response.body ==
                   View(Launchpad.BuildSupply(c.policy, parent.value, available.value, pending.value))
              && h.effects == [CacheMatch(ProgressKey(url)), Read(ParentInscriptionRead),
                               Read(AvailableCountRead(c.slug)), Read(PendingCountRead(c.slug)),
                               CachePut(ProgressKey(url))]
              && h.cache == (if putSucceeds then cache[ProgressKey(url) := h.outcome.response] else cache)
    // the cache only ever gains the request's own key
    ensures h.cache.Keys <= cache.Keys + {ProgressKey(url)}
  {
    if !c.isLaunchpad then Handled(Returned(Response(404, TextBody(NotFoundText), None)), cache, [])
    else
      var key := ProgressKey(url);
      if key in cache then Handled(Returned(cache[key]), cache, [CacheMatch(key)])
      else
        var calls := [CacheMatch(key), Read(ParentInscriptionRead), Read(AvailableCountRead(c.slug)),
                      Read(PendingCountRead(c.slug))];
        assert calls[1].Read?;
        if parent.Failure? || available.Failure? || pending.Failure? then Handled(Threw, cache, calls)
        else
          var supply := Launchpad.BuildSupply(c.policy, parent.value, available.value, pending.value);
          var response := Response(200, View(supply), Some(CacheControl(ttl)));
          var cache' := if putSucceeds then cache[key := response] else cache;
          Handled(Returned(response), cache', calls + [CachePut(key)])
  }

  /** A miss whose write lands is followed by hits: the next request for the same
      URL, by any method and whatever the store would now answer, gets the same
      response without reading the store. */
  lemma {:induction false} MissThenHit(c: Collection, m1: string, m2: string, url: string, cache: map<CacheKey, Page>,
                                       parent: Result<Option<Launchpad.ParentInscription>, string>,
                                       available: Result<Option<int>, string>,
                                       pending: Result<Option<int>, string>,
                                       parent2: Result<Option<Launchpad.ParentInscription>, string>,
                                       available2: Result<Option<int>, string>,
                                       pending2: Result<Option<int>, string>,
                                       ttl: nat, put2: bool)
    requires c.isLaunchpad && ProgressKey(url) !in cache
    requires parent.Success? && available.Success? && pending.Success?
    ensures var h1 := HandleProgress(c, m1, url, cache, parent, available, pending, ttl, true);
            var h2 := HandleProgress(c, m2, url, h1.cache, parent2, available2, pending2, ttl, put2);
            h2.outcome == h1.outcome && h2.effects == [CacheMatch(ProgressKey(url))] && h2.cache == h1.cache
  {
    var h1 := HandleProgress(c, m1, url, cache, parent, available, pending, ttl, true);
    assert ProgressKey(url) in h1.cache;
  }
}
