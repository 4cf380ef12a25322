/**
  `fetchCityDescription` (src/handler.ts:86-103): the description of a city
  comes from a shared cache when it is there, and otherwise from the
  encyclopedia's page-summary service, whose answer is then cached. A failed
  lookup gives a fallback entry that is not cached.
 */
module Descriptions {
  import opened Types

  /** What the handler keeps and returns per city: `{ description, thumbnail }`. */
  datatype Description = Description(description: string, thumbnail: Option<string>)

  /** The `thumbnail` object of a page summary. */
  datatype Thumbnail = Thumbnail(source: Option<string>)

  /** The answer of the page-summary service for one name. */
  datatype LookupReply =
    | Summary(extract: Option<string>, thumbnail: Option<Thumbnail>)
    | LookupFailed

  const NoDescription: string := "No description available"

  /** The entry returned when the lookup fails. */
  const Fallback: Description := Description(NoDescription, None)

  /** `res.data.thumbnail?.source || null`: an empty source URL becomes null. */
  function ThumbnailSource(t: Option<Thumbnail>): (r: Option<string>)
    ensures r.Some? ==> r.value != ""
  {
    if t.Some? && Present(t.value.source) then t.value.source else None
  }

  /** The entry built from a page summary: `extract || "No description available"`, and the thumbnail's source or null. */
  function FromSummary(extract: Option<string>, thumbnail: Option<Thumbnail>): (d: Description)
    ensures WellFormed(d)
  {
    Description(if Present(extract) then extract.value else NoDescription, ThumbnailSource(thumbnail))
  }

  /** The entry a lookup gives when nothing is cached: the reference that the cache must agree with. */
  function Uncached(reply: LookupReply): Description {
    match reply
    case Summary(e, t) => FromSummary(e, t)
    case LookupFailed => Fallback
  }

  /** Every entry the handler produces has a non-empty description and no empty thumbnail URL. */
  predicate WellFormed(d: Description) {
    d.description != "" && (d.thumbnail.Some? ==> d.thumbnail.value != "")
  }

  predicate WellFormedCache(cache: map<string, Description>) {
    forall k :: k in cache ==> WellFormed(cache[k])
  }

  /**
    One call of `fetchCityDescription(name)` with cache `cache`, where `reply`
    is what the service would answer if asked. Returns the entry and the new
    cache. A cached entry is returned as it is, whatever the service would
    answer; on a miss, the entry built from a summary is stored under `name`
    and under no other key; a failed lookup returns the fallback and stores
    nothing.
   */
  function CacheOrFetch(cache: map<string, Description>, name: string, reply: LookupReply): (res: (Description, map<string, Description>))
    ensures name in cache ==> res == (cache[name], cache)
    ensures name !in cache ==> res.0 == Uncached(reply)
    ensures name !in cache && reply.Summary? ==> res.1 == cache[name := res.0]
    ensures reply.LookupFailed? ==> res.1 == cache
  {
    if name in cache then (cache[name], cache)
    else
      match reply
      case Summary(e, t) =>
        var d := FromSummary(e, t);
        (d, cache[name := d])
      case LookupFailed => (Fallback, cache)
  }

  /** Only the entry under `name` can be added; what was cached stays as it was. */
  lemma CacheOrFetchFrame(cache: map<string, Description>, name: string, reply: LookupReply)
    ensures var c := CacheOrFetch(cache, name, reply).1;
      && c.Keys == cache.Keys + (if name !in cache && reply.Summary? then {name} else {})
      && forall k :: k in cache ==> k in c && c[k] == cache[k]
  {
  }

  /** Every entry built from a summary, and the fallback, are well formed. */
  lemma UncachedWellFormed(reply: LookupReply)
    ensures WellFormed(Uncached(reply))
  {
    assert NoDescription != "";
  }

  /** A well-formed cache returns well-formed entries and stays well formed. */
  lemma CacheStaysWellFormed(cache: map<string, Description>, name: string, reply: LookupReply)
    requires WellFormedCache(cache)
    ensures WellFormed(CacheOrFetch(cache, name, reply).0)
    ensures WellFormedCache(CacheOrFetch(cache, name, reply).1)
  {
    UncachedWellFormed(reply);
  }

  /**
    The cache agrees with a service that answers `lookup(k)` for each name
    `k`: everything in it is what that service would give and would store.
   */
  ghost predicate Sound(cache: map<string, Description>, lookup: string -> LookupReply) {
    forall k :: k in cache ==> lookup(k).Summary? && cache[k] == Uncached(lookup(k))
  }

  /**
    Caching is transparent for a service that answers consistently: with a
    sound cache, the entry returned is the one an uncached lookup would give,
    and the cache stays sound.
   */
  lemma CacheTransparent(cache: map<string, Description>, name: string, lookup: string -> LookupReply)
    requires Sound(cache, lookup)
    ensures CacheOrFetch(cache, name, lookup(name)).0 == Uncached(lookup(name))
    ensures Sound(CacheOrFetch(cache, name, lookup(name)).1, lookup)
  {
  }

  /**
    The shared `cache` object of src/handler.ts:8 (without its expiry) and the
    requests made to the page-summary service.
   */
  class DescriptionCache {
    var entries: map<string, Description>
    /** The names looked up so far, in order. */
    var lookups: seq<string>

    constructor ()
      ensures entries == map[] && lookups == []
    {
      entries := map[];
      lookups := [];
    }

    /**
      `fetchCityDescription(name)`, with `lookup` the service's answers. The
      service is asked only on a miss.
     */
    method FetchCityDescription(name: string, lookup: string -> LookupReply) returns (d: Description)
      modifies this
      ensures (d, entries) == CacheOrFetch(old(entries), name, lookup(name))
      ensures lookups == old(lookups) + (if name in old(entries) then [] else [name])
    {
      if name in entries {
        return entries[name];
      }
      lookups := lookups + [name];
      var reply := lookup(name);
      match reply
      case Summary(e, t) =>
        d := FromSummary(e, t);
        entries := entries[name := d];
      case LookupFailed =>
        d := Fallback;
    }
  }
}
