/**
  The body of `getCities` after the fetch (src/handler.ts:111-162): the
  unique city names are enriched in batches of five, each joined to its
  pollution record and its description, and the response envelope is built.
 */
module Pipeline {
  import opened Types
  import opened JsText
  import opened Seqs
  import opened CityNames
  import opened Descriptions
  import opened Upstream
  import opened Session

  const BatchSize: nat := 5

  /** One element of `cities` in the response body. */
  datatype CityResult = CityResult(name: string, country: string, pollution: JsValue, description: string, thumbnail: Option<string>)

  /** The response body: `{ page, limit, total, validCityCount, totalPages, cities }`; `None` is JSON `null`. */
  datatype Envelope = Envelope(page: int, limit: int, total: nat, validCityCount: nat, totalPages: Option<int>, cities: seq<CityResult>)

  /** The handler's answer: status 200 with a body, status 500, or a run past the end of the service script. */
  datatype Response = Ok(body: Envelope) | InternalError | Unscripted

  /** The record names, `data.map(e => e.name)`. */
  function Names(data: seq<PollutionRecord>): seq<string> {
    Map(data, (e: PollutionRecord) => e.name)
  }

  // ---------------------------------------------------------------------------
  // The join with the raw records

  /** `d.name.trim().toLowerCase() === cityName.toLowerCase()` */
  predicate Matches(rec: PollutionRecord, city: string) {
    ToLowerCase(Trim(rec.name)) == ToLowerCase(city)
  }

  /** `data.find(...)`, as the index of the record found. */
  function FirstMatch(data: seq<PollutionRecord>, city: string): (r: Option<nat>)
    ensures r.Some? ==> r.value < |data| && Matches(data[r.value], city)
    ensures r.Some? ==> forall k :: 0 <= k < r.value ==> !Matches(data[k], city)
    ensures r.None? ==> forall k :: 0 <= k < |data| ==> !Matches(data[k], city)
  {
    if data == [] then None
    else if Matches(data[0], city) then Some(0)
    else
      match FirstMatch(data[1..], city)
      case None => None
      case Some(i) => Some(i + 1)
  }

  /** `original?.pollution || null` */
  function JoinPollution(data: seq<PollutionRecord>, city: string): JsValue {
    match FirstMatch(data, city)
    case None => Null
    case Some(i) => OrNull(data[i].pollution)
  }

  /**
    Every unique city has a record to join with: the record it was derived
    from matches it, so `find` never comes back empty, and the pollution is
    that of the first matching record, or `null` when that value is falsy.
   */
  lemma EveryCityHasRecord(data: seq<PollutionRecord>, city: string)
    requires city in UniqueCities(Names(data))
    ensures FirstMatch(data, city).Some?
    ensures JoinPollution(data, city) == OrNull(data[FirstMatch(data, city).value].pollution)
  {
    UniqueCitiesMembers(Names(data));
    var i :| 0 <= i < |Names(data)| && Normalize(Names(data)[i]) == Some(city);
    CanonicalLowerCase(Trim(data[i].name));
    assert Matches(data[i], city);
  }

  // ---------------------------------------------------------------------------
  // Batches

  /** The batches `uniqueCities.slice(i, i + batchSize)` for `i = 0, 5, 10, ...`. */
  function Batches(s: seq<string>): seq<seq<string>> {
    BatchesFrom(s, 0)
  }

  /** The batches the loop still forms once its index is `i`. */
  function BatchesFrom(s: seq<string>, i: nat): seq<seq<string>>
    decreases |s| - i
  {
    if i >= |s| then [] else [s[i..Min(i + BatchSize, |s|)]] + BatchesFrom(s, i + BatchSize)
  }

  /** The least number of blocks of `b` that hold `a`: `Math.ceil(a / b)` for `b > 0`. */
  function CeilDiv(a: nat, b: nat): (r: nat)
    requires b > 0
    ensures r * b >= a && (r == 0 || (r - 1) * b < a)
  {
    (a + b - 1) / b
  }

  function Concat(ss: seq<seq<string>>): seq<string> {
    if ss == [] then [] else ss[0] + Concat(ss[1..])
  }

  /** From index `i` on, the loop makes `ceil((n - i) / 5)` batches. */
  lemma {:induction false} BatchCountFrom(s: seq<string>, i: nat)
    requires i <= |s|
    ensures |BatchesFrom(s, i)| == CeilDiv(|s| - i, BatchSize)
    decreases |s| - i
  {
    if i + BatchSize <= |s| {
      BatchCountFrom(s, i + BatchSize);
      assert CeilDiv(|s| - i, 5) == CeilDiv(|s| - i - 5, 5) + 1;
    } else if i < |s| {
      assert BatchesFrom(s, i + BatchSize) == [];
    }
  }

  /** The loop makes `ceil(n / 5)` batches. */
  lemma BatchCount(s: seq<string>)
    ensures |Batches(s)| == CeilDiv(|s|, BatchSize)
  {
    BatchCountFrom(s, 0);
  }

  /** From index `i` on, batch `k` is the slice of at most five names starting at `i + 5 * k`; none is empty. */
  lemma {:induction false} BatchSlicesFrom(s: seq<string>, i: nat)
    ensures forall k :: 0 <= k < |BatchesFrom(s, i)| ==>
      && i + 5 * k < |s|
      && BatchesFrom(s, i)[k] == s[i + 5 * k..Min(i + 5 * k + 5, |s|)]
      && 0 < |BatchesFrom(s, i)[k]| <= BatchSize
    decreases |s| - i
  {
    if i < |s| {
      BatchSlicesFrom(s, i + BatchSize);
      var b, bs := BatchesFrom(s, i), BatchesFrom(s, i + BatchSize);
      forall k | 0 < k < |b|
        ensures i + 5 * k < |s| && b[k] == s[i + 5 * k..Min(i + 5 * k + 5, |s|)]
      {
        assert b[k] == bs[k - 1];
        assert i + 5 * k == (i + BatchSize) + 5 * (k - 1);
      }
    }
  }

  /** Batch `k` is the slice of at most five names starting at `5 * k`; none is empty. */
  lemma BatchSlices(s: seq<string>)
    ensures forall k :: 0 <= k < |Batches(s)| ==>
      && 5 * k < |s|
      && Batches(s)[k] == s[5 * k..Min(5 * k + 5, |s|)]
      && 0 < |Batches(s)[k]| <= BatchSize
  {
    BatchSlicesFrom(s, 0);
  }

  /** From index `i` on, the batches together are the names from `i`, each once, in order. */
  lemma {:induction false} BatchesCoverFrom(s: seq<string>, i: nat)
    requires i <= |s|
    ensures Concat(BatchesFrom(s, i)) == s[i..]
    decreases |s| - i
  {
    if i < |s| {
      var j := Min(i + BatchSize, |s|);
      BatchesCoverFrom(s, j);
      assert BatchesFrom(s, i + BatchSize) == BatchesFrom(s, j);
      assert s[i..] == s[i..j] + s[j..];
    }
  }

  /** Together the batches are the names, each once, in order. */
  lemma BatchesCover(s: seq<string>)
    ensures Concat(Batches(s)) == s
  {
    BatchesCoverFrom(s, 0);
  }

  /** `Math.ceil(total / limit)`, with JSON's `null` for the infinity or NaN of a zero `limit`. */
  function TotalPages(total: nat, limit: int): (r: Option<int>)
    ensures limit == 0 <==> r.None?
    ensures limit > 0 ==> r.value * limit >= total && (r.value - 1) * limit < total
    ensures limit < 0 ==> r.value * limit <= total && (r.value - 1) * limit > total
  {
    if limit > 0 then Some(CeilDiv(total, limit))
    else if limit < 0 then Some(-(total / -limit))
    else None
  }

  /** 237 records at 100 per page make three pages. */
  lemma TotalPagesExample()
    ensures TotalPages(237, 100) == Some(3) && TotalPages(0, 100) == Some(0) && TotalPages(200, 100) == Some(2)
  {
  }

  // ---------------------------------------------------------------------------
  // Enrichment

  /** What the enrichment of a run of names produces: the results, the new cache, and the names looked up. */
  datatype Enriched = Enriched(cities: seq<CityResult>, cache: map<string, Description>, looked: seq<string>)

  /**
    The batch `map` callback applied to the names one after the other, with
    the shared cache threaded through: for each name, the join with `data` and
    `fetchCityDescription`.
   */
  function EnrichAll(data: seq<PollutionRecord>, country: string, names: seq<string>,
                     cache: map<string, Description>, lookup: string -> LookupReply): (e: Enriched)
  {
    ExtendAll(Enriched([], cache, []), data, country, names, lookup)
  }

  /** The callback on each of `names` in turn, after the results `p`. */
  function ExtendAll(p: Enriched, data: seq<PollutionRecord>, country: string, names: seq<string>,
                     lookup: string -> LookupReply): Enriched
    decreases |names|
  {
    if names == [] then p
    else Extend(ExtendAll(p, data, country, names[..|names| - 1], lookup), data, country, names[|names| - 1], lookup)
  }

  /** Enriching `a + b` is enriching `a`, then `b`. */
  lemma {:induction false} ExtendAllAppend(p: Enriched, data: seq<PollutionRecord>, country: string,
                                           a: seq<string>, b: seq<string>, lookup: string -> LookupReply)
    ensures ExtendAll(p, data, country, a + b, lookup) ==
      ExtendAll(ExtendAll(p, data, country, a, lookup), data, country, b, lookup)
    decreases |b|
  {
    if b == [] {
      assert a + b == a;
    } else {
      ExtendAllAppend(p, data, country, a, b[..|b| - 1], lookup);
      assert (a + b)[..|a + b| - 1] == a + b[..|b| - 1];
    }
  }

  /** The callback on one more name, after the results `p`. */
  function Extend(p: Enriched, data: seq<PollutionRecord>, country: string, name: string, lookup: string -> LookupReply): Enriched {
    var r := CacheOrFetch(p.cache, name, lookup(name));
    Enriched(
      p.cities + [CityResult(name, country, JoinPollution(data, name), r.0.description, r.0.thumbnail)],
      r.1,
      p.looked + (if name in p.cache then [] else [name]))
  }

  /** The result for each name: its name, the country asked for, and the joined pollution value. */
  lemma {:induction false} EnrichAllShape(data: seq<PollutionRecord>, country: string, names: seq<string>,
                                          cache: map<string, Description>, lookup: string -> LookupReply)
    ensures var e := EnrichAll(data, country, names, cache, lookup);
      && |e.cities| == |names|
      && forall k :: 0 <= k < |names| ==>
        && e.cities[k].name == names[k]
        && e.cities[k].country == country
        && e.cities[k].pollution == JoinPollution(data, names[k])
    decreases |names|
  {
    if names != [] {
      EnrichAllShape(data, country, names[..|names| - 1], cache, lookup);
    }
  }

  /** The entry a name gets from cache `cache`: the cached one, or the one a lookup gives. */
  function Expected(cache: map<string, Description>, lookup: string -> LookupReply, name: string): Description {
    if name in cache then cache[name] else Uncached(lookup(name))
  }

  /**
    For distinct names, each gets the description the starting cache holds
    for it or else a fresh lookup gives; each name not cached is looked up
    once, in order; and the cache ends up holding the starting entries plus
    every successful lookup.
   */
  lemma {:induction false} EnrichAllCache(data: seq<PollutionRecord>, country: string, names: seq<string>,
                                          cache: map<string, Description>, lookup: string -> LookupReply)
    requires NoDuplicates(names)
    ensures var e := EnrichAll(data, country, names, cache, lookup);
      && |e.cities| == |names|
      && (forall k :: 0 <= k < |names| ==>
            e.cities[k].description == Expected(cache, lookup, names[k]).description &&
            e.cities[k].thumbnail == Expected(cache, lookup, names[k]).thumbnail)
      && (forall x :: x in e.cache <==> x in cache || (x in names && lookup(x).Summary?))
      && (forall x :: x in e.cache ==> e.cache[x] == Expected(cache, lookup, x))
      && e.looked == Filter(names, x => x !in cache)
    decreases |names|
  {
    if names != [] {
      var front, name := names[..|names| - 1], names[|names| - 1];
      assert names == front + [name];
      EnrichAllCache(data, country, front, cache, lookup);
      var p := EnrichAll(data, country, front, cache, lookup);
      assert name !in front;
      assert name in p.cache <==> name in cache;
      FilterAppend(front, name, x => x !in cache);
      CacheOrFetchFrame(p.cache, name, lookup(name));
    }
  }

  /**
    With a sound cache, every result carries exactly what an uncached lookup
    would give, and the cache stays sound: caching changes no answer.
   */
  lemma {:induction false} EnrichAllTransparent(data: seq<PollutionRecord>, country: string, names: seq<string>,
                                                cache: map<string, Description>, lookup: string -> LookupReply)
    requires Sound(cache, lookup)
    ensures var e := EnrichAll(data, country, names, cache, lookup);
      && |e.cities| == |names|
      && (forall k :: 0 <= k < |names| ==>
            e.cities[k].description == Uncached(lookup(names[k])).description &&
            e.cities[k].thumbnail == Uncached(lookup(names[k])).thumbnail)
      && Sound(e.cache, lookup)
    decreases |names|
  {
    if names != [] {
      var front, name := names[..|names| - 1], names[|names| - 1];
      EnrichAllTransparent(data, country, front, cache, lookup);
      CacheTransparent(EnrichAll(data, country, front, cache, lookup).cache, name, lookup);
    }
  }

  /**
    `Promise.all(batch.map(...))`, one name after the other: the results of
    the batch, which extend the results `before` of the names before it.
   */
  method EnrichBatch(descriptions: DescriptionCache, data: seq<PollutionRecord>, country: string,
                     batch: seq<string>, lookup: string -> LookupReply, ghost before: Enriched, ghost l0: seq<string>)
    returns (batchResults: seq<CityResult>, ghost after: Enriched)
    requires descriptions.entries == before.cache && descriptions.lookups == l0 + before.looked
    modifies descriptions
    ensures after == ExtendAll(before, data, country, batch, lookup)
    ensures after.cities == before.cities + batchResults
    ensures descriptions.entries == after.cache && descriptions.lookups == l0 + after.looked
  {
    batchResults := [];
    after := before;
    var j := 0;
    while j < |batch|
      invariant 0 <= j <= |batch|
      invariant after == ExtendAll(before, data, country, batch[..j], lookup)
      invariant after.cities == before.cities + batchResults
      invariant descriptions.entries == after.cache && descriptions.lookups == l0 + after.looked
    {
      var cityName := batch[j];
      assert batch[..j + 1][..j] == batch[..j];
      var wikiData := descriptions.FetchCityDescription(cityName, lookup);
      var result := CityResult(cityName, country, JoinPollution(data, cityName), wikiData.description, wikiData.thumbnail);
      after := Extend(after, data, country, cityName, lookup);
      batchResults := batchResults + [result];
      j := j + 1;
    }
    assert batch[..j] == batch;
  }

  /**
    The batch loop of `getCities`: walks the names in steps of five, runs the
    callback on each name of the batch, and appends the batch's results to
    `citiesData`. The batches it forms are returned as well.
   */
  method CollectCities(descriptions: DescriptionCache, data: seq<PollutionRecord>, country: string,
                       names: seq<string>, lookup: string -> LookupReply)
    returns (citiesData: seq<CityResult>, ghost batches: seq<seq<string>>)
    modifies descriptions
    ensures var e := EnrichAll(data, country, names, old(descriptions.entries), lookup);
      && citiesData == e.cities
      && descriptions.entries == e.cache
      && descriptions.lookups == old(descriptions.lookups) + e.looked
    ensures batches == Batches(names)
  {
    ghost var c0, l0 := descriptions.entries, descriptions.lookups;
    ghost var done: Enriched := Enriched([], c0, []);
    citiesData := [];
    batches := [];
    var i := 0;
    while i < |names|
      invariant 0 <= i
      invariant done == EnrichAll(data, country, names[..Min(i, |names|)], c0, lookup)
      invariant citiesData == done.cities
      invariant descriptions.entries == done.cache && descriptions.lookups == l0 + done.looked
      invariant batches + BatchesFrom(names, i) == Batches(names)
    {
      var batch := names[i..Min(i + BatchSize, |names|)];
      assert BatchesFrom(names, i) == [batch] + BatchesFrom(names, i + BatchSize);
      var batchResults, e' := EnrichBatch(descriptions, data, country, batch, lookup, done, l0);
      EnrichStep(data, country, names, i, c0, lookup);
      done := e';
      citiesData := citiesData + batchResults;
      batches := batches + [batch];
      i := i + BatchSize;
    }
    assert names[..|names|] == names;
  }

  /** Enriching the names up to the end of a batch extends the results of the names before it. */
  lemma EnrichStep(data: seq<PollutionRecord>, country: string, names: seq<string>, i: nat,
                   cache: map<string, Description>, lookup: string -> LookupReply)
    requires i < |names|
    ensures EnrichAll(data, country, names[..Min(i + BatchSize, |names|)], cache, lookup) ==
      ExtendAll(EnrichAll(data, country, names[..i], cache, lookup), data, country, names[i..Min(i + BatchSize, |names|)], lookup)
  {
    assert names[..Min(i + BatchSize, |names|)] == names[..i] + names[i..Min(i + BatchSize, |names|)];
    ExtendAllAppend(Enriched([], cache, []), data, country, names[..i], names[i..Min(i + BatchSize, |names|)], lookup);
  }

  // ---------------------------------------------------------------------------
  // The response

  /** The body of the 200 response for query `q`, records `data` and results `cities`. */
  function EnvelopeOf(q: Query, data: seq<PollutionRecord>, cities: seq<CityResult>): Envelope {
    Envelope(q.page, q.limit, |data|, |UniqueCities(Names(data))|, TotalPages(|data|, q.limit), cities)
  }

  /**
    The envelope of a run is consistent: no more valid cities than records,
    one result per valid city, in the order of the unique names, each for the
    country asked for, with no city twice, and enough pages for every record.
   */
  lemma EnvelopeConsistent(q: Query, data: seq<PollutionRecord>, cache: map<string, Description>, lookup: string -> LookupReply)
    ensures var names := UniqueCities(Names(data));
      var env := EnvelopeOf(q, data, EnrichAll(data, q.country, names, cache, lookup).cities);
      && env.total == |data|
      && env.validCityCount <= env.total
      && |env.cities| == env.validCityCount
      && (forall k :: 0 <= k < |env.cities| ==> env.cities[k].name == names[k] && env.cities[k].country == q.country)
      && (forall i, j :: 0 <= i < j < |env.cities| ==> env.cities[i].name != env.cities[j].name)
      && (q.limit > 0 ==> env.totalPages.Some? && env.totalPages.value * q.limit >= env.total)
  {
    var names := UniqueCities(Names(data));
    EnrichAllShape(data, q.country, names, cache, lookup);
    UniqueCitiesMembers(Names(data));
  }

  /**
    `getCities` for the parsed query `q`: fetch the records through the
    session; if that throws, answer 500 and leave the cache alone; otherwise
    enrich the unique city names in batches and answer 200 with the envelope.
   */
  method GetCities(session: Session, descriptions: DescriptionCache, q: Query, lookup: string -> LookupReply)
    returns (resp: Response)
    modifies session, descriptions
    ensures var f := Upstream.FetchPollutionData(q, old(session.Snapshot()));
      && session.Snapshot() == f.1
      && (f.0.OutOfScript? ==> resp == Unscripted && unchanged(descriptions))
      && (f.0.Threw? ==> resp == InternalError && unchanged(descriptions))
      && (f.0.Returned? ==>
            var e := EnrichAll(f.0.value, q.country, UniqueCities(Names(f.0.value)), old(descriptions.entries), lookup);
            && resp == Ok(EnvelopeOf(q, f.0.value, e.cities))
            && descriptions.entries == e.cache
            && descriptions.lookups == old(descriptions.lookups) + e.looked)
  {
    ghost var f := Upstream.FetchPollutionData(q, session.Snapshot());
    var r := session.FetchPollutionData(q);
    assert r == f.0 && session.Snapshot() == f.1;
    match r
    case OutOfScript =>
      return Unscripted;
    case Threw(_) =>
      return InternalError;
    case Returned(data) =>
      var uniqueCities := UniqueCities(Names(data));
      var citiesData;
      ghost var batches;
      citiesData, batches := CollectCities(descriptions, data, q.country, uniqueCities, lookup);
      resp := Ok(Envelope(q.page, q.limit, |data|, |uniqueCities|, TotalPages(|data|, q.limit), citiesData));
  }
}
