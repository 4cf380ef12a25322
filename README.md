# Pollution cities handler, modelled in Dafny

This project models `src/handler.ts`, the backend of a small pollution
dashboard. A `getCities` request does the following:

- It fetches raw pollution records for a country from a token-protected
  service. The service is reached through `authenticate`, `refreshAuthToken`
  and `fetchPollutionData`.
- It cleans the record names and keeps the ones that look like city names
  (`isValidCity` plus three exclusion terms).
- It puts each name in canonical case and drops repeats.
- It enriches each unique name, in batches of five, with two things: the
  pollution value of the first matching record, and a description from a
  cached encyclopedia lookup (`fetchCityDescription`).
- It answers with a paging envelope.

The modules follow the program's parts:

| module | file | what it holds |
|---|---|---|
| `Types` | `types.dfy` | record and query shapes, JSON values and their truthiness |
| `JsText` | `text.dfy` | `trim`, `\s`, `toLowerCase`/`toUpperCase` and `/term/i` as the handler uses them |
| `Seqs` | `seqs.dfy` | `map`, `filter`, `Array.from(new Set(...))` and facts about the map-filter-map chain |
| `CityNames` | `city_names.dfy` | `isValidCity`, the filter, the canonical case and `uniqueCities` |
| `Upstream` | `upstream.dfy` | the token state machine and `fetchPollutionData`, as functions from one state to the next |
| `Session` | `session.dfy` | the same, as a class whose fields are the two module-level tokens, with methods proved equal to those functions |
| `Descriptions` | `descriptions.dfy` | `fetchCityDescription` as a function over the cache map, and a `DescriptionCache` class that updates its map in place |
| `Pipeline` | `pipeline.dfy` | the join, the batches, the batch loop as methods over the cache object, the envelope and `getCities` |

The network is modelled in two ways:

- **The pollution service** is a script. `upstream` is the sequence of
  replies the service gives, in order, and `sent` logs the requests the
  handler makes.
  - A reply is `Answered` with a body, or `Rejected` with the HTTP status if
    a response came back.
  - Each request consumes one reply.
  - A request made after the script is exhausted ends the run with
    `OutOfScript` (the response `Unscripted`). This marks the end of what the
    script describes; it is not a behaviour of the handler.
  - Every retry consumes replies, so the unbounded recursion of
    `fetchPollutionData` terminates on the length of the script and needs no
    fuel.
- **The encyclopedia service** is a function `lookup` from a name to its
  reply, because the handler asks it about each name at most once.

## Model

| member | source | states |
|---|---|---|
| Types.Present | src/handler.ts:68 | definition: a string is truthy when it is present and non-empty; used by the token tests and `extract \|\| ...` |
| Types.Truthy | src/handler.ts:142 | definition: JavaScript truthiness of a JSON value (false, 0, NaN, "", null and undefined are falsy); its use is covered by `Pipeline.EveryCityHasRecord` |
| Types.OrNull | src/handler.ts:142 | definition: `v \|\| null`; the joined value it gives is stated in `Pipeline.EveryCityHasRecord` |
| JsText.IsWhitespace | src/handler.ts:61 | definition: the characters `\s` matches, which are also the characters `trim` removes (src/handler.ts:118); used by `JsText.TrimStartSpec`, `JsText.TrimEndSpec`, `JsText.TrimSplits` and `CityNames.IsValidCity` |
| JsText.TrimStart | src/handler.ts:118 | definition: drops leading `\s` characters one at a time; its meaning is proved in `JsText.TrimStartSpec` |
| JsText.TrimEnd | src/handler.ts:118 | definition: drops trailing `\s` characters one at a time; its meaning is proved in `JsText.TrimEndSpec` |
| JsText.Trim | src/handler.ts:118 | definition: `TrimEnd(TrimStart(s))`; its properties are proved in `JsText.TrimSplits`, `JsText.TrimIdempotent` and `JsText.TrimOfTrimmed` |
| JsText.TrimStartSpec | src/handler.ts:118 | `trim` drops a leading run of `\s` characters and stops at the first other character |
| JsText.TrimEndSpec | src/handler.ts:118 | `trim` drops a trailing run of `\s` characters and stops at the last other character |
| JsText.TrimSplits | src/handler.ts:118 | a name is leading white space + its trimmed form + trailing white space; the trimmed form has no white space at either end; it is empty exactly when the name is all white space |
| JsText.TrimIdempotent | src/handler.ts:118 | trimming twice is trimming once |
| JsText.TrimOfTrimmed | src/handler.ts:118 | a name with no white space at either end is its own trimmed form |
| JsText.LowerChar | src/handler.ts:137 | definition: `toLowerCase` on one character (ASCII letters and the KELVIN SIGN); used by `CityNames.CanonicalIdempotent`, `CityNames.CanonicalLowerCase` and `CityNames.CanonicalOfSurvivor` |
| JsText.UpperChar | src/handler.ts:126 | definition: `toUpperCase` on the first character of a surviving name, which is an ASCII letter, a `\s` character or `-`; used by `CityNames.CanonicalIdempotent`, `CityNames.CanonicalOfSurvivor` and `CityNames.SameCanonicalIffSameLowerCase` |
| JsText.ToLowerCase | src/handler.ts:126-137 | definition: maps every character through `toLowerCase` (ASCII and the KELVIN SIGN); its properties are proved in `JsText.ToLowerCaseIdempotent`, `CityNames.CanonicalLowerCase` and `CityNames.SameCanonicalIffSameLowerCase` |
| JsText.ContainsIgnoreCase | src/handler.ts:121-123 | definition: `/term/i.test(s)` for an ASCII lower-case term, as a substring test on the ASCII lower-cased name; its use is proved in `CityNames.FilterSpec` and `CityNames.ExclusionTermDropped` |
| JsText.AsciiLower | src/handler.ts:121-123 | definition: the case fold the `i` flag applies when the pattern is ASCII; used by `JsText.ContainsIgnoreCase`, and through it by `CityNames.FilterSpec` and `CityNames.ExclusionTermDropped` |
| JsText.ToLowerCaseIdempotent | src/handler.ts:126 | lower-casing twice is lower-casing once |
| Seqs.Map | src/handler.ts:118 | definition: `Array.prototype.map`; used by `Seqs.Chain`, whose properties are proved in `Seqs.ChainMembers` and `Seqs.ChainOrder`, and by `Pipeline.Names` |
| Seqs.Filter | src/handler.ts:119-124 | `filter` never lengthens its input |
| Seqs.FilterMembers | src/handler.ts:119-124 | an element is in the filtered sequence iff it is in the input and passes the predicate |
| Seqs.Dedupe | src/handler.ts:125-127 | `Array.from(new Set(s))` has no repeats, is no longer than `s`, and holds exactly the elements of `s` |
| Seqs.DedupeOrder | src/handler.ts:125-127 | the `Set` lists its elements in the order of their first occurrence in `s` |
| Seqs.Chain | src/handler.ts:117-127 | definition: the `map(trim)`, `filter`, `map(canonical)` chain; its properties are proved in `Seqs.ChainMembers` and `Seqs.ChainOrder` |
| Seqs.ChainMembers | src/handler.ts:117-127 | the trim-filter-canonicalise chain outputs a value iff some input element is turned into it |
| Seqs.ChainOrder | src/handler.ts:117-127 | the chain outputs values in the order of the first input element that produces each |
| CityNames.AllowedChar | src/handler.ts:61 | definition: the character class `[a-zA-Z\s-]`; used by `CityNames.IsValidCity`, `CityNames.FilterSpec` and `CityNames.OutsideClassDropped` |
| CityNames.HasCharOutsideClass | src/handler.ts:61 | definition: `/[^a-zA-Z\s-]/.test(entry)`; its role is stated in `CityNames.IsValidCity` |
| CityNames.IsBlank | src/handler.ts:61 | definition: `/^\s*$/.test(entry)`; its role is stated in `CityNames.IsValidCity` |
| CityNames.IsAllDigits | src/handler.ts:61 | definition: `/^\d+$/.test(entry)`; `CityNames.IsValidCity` and `CityNames.DigitsRejected` show that it never decides the result |
| CityNames.IsValidCity | src/handler.ts:59-63 | a name is valid iff every character is in `[a-zA-Z\s-]` and it is not all white space (the empty name included); the `^\d+$` pattern never decides the result |
| CityNames.PassesFilter | src/handler.ts:119-124 | definition: the `filter` predicate on a trimmed name; its meaning is proved in `CityNames.FilterSpec` |
| CityNames.Canonical | src/handler.ts:126 | definition: first character upper-cased, the rest lower-cased; its properties are proved in `CityNames.CanonicalIdempotent`, `CityNames.CanonicalLowerCase` and `CityNames.SameCanonicalIffSameLowerCase` |
| CityNames.CanonicalSurvivors | src/handler.ts:117-127 | definition: the canonical forms of the surviving names, in record order, before repeats are dropped; see `CityNames.UniqueCitiesMembers` |
| CityNames.UniqueCities | src/handler.ts:125-127 | definition: `Array.from(new Set(...))` of the survivors; its properties are proved in `CityNames.UniqueCitiesMembers`, `CityNames.UniqueCitiesOrder` and `CityNames.UniqueCitiesCaseDistinct` |
| CityNames.Normalize | src/handler.ts:117-127 | definition: what one raw name becomes in the chain, or none when it is dropped; its meaning is proved in `CityNames.FilterSpec` and `CityNames.NormalizeIdempotent` |
| CityNames.FilterSpec | src/handler.ts:117-124 | a raw name survives iff its trimmed form is non-empty, not blank, uses only ASCII letters, white space and `-`, and contains none of "district", "station" or "powerplant" in any letter case; a survivor becomes the canonical form of its trimmed name |
| CityNames.DigitsRejected | src/handler.ts:59-63 | a raw name with a digit anywhere is always dropped |
| CityNames.CanonicalIdempotent | src/handler.ts:125-127 | the canonical case (first character upper-cased, the rest lower-cased) is idempotent |
| CityNames.CanonicalLowerCase | src/handler.ts:126 | the canonical form of a name lower-cases to the same text as the name |
| CityNames.CanonicalOfSurvivor | src/handler.ts:117-127 | the canonical form of a trimmed survivor is itself a trimmed survivor |
| CityNames.NormalizeIdempotent | src/handler.ts:117-127 | running a city name through the pipeline again gives it back unchanged |
| CityNames.SameCanonicalIffSameLowerCase | src/handler.ts:125-127 | two survivors get the same canonical form iff they are equal after lower-casing |
| CityNames.UniqueCitiesMembers | src/handler.ts:117-127 | `uniqueCities` has no repeats and holds exactly the canonical forms of the surviving names |
| CityNames.UniqueCitiesOrder | src/handler.ts:125-127 | `uniqueCities` lists the cities in the order in which their first surviving record occurs |
| CityNames.UniqueCitiesCaseDistinct | src/handler.ts:125-127 | no two entries of `uniqueCities` differ only in letter case |
| CityNames.PlainNameNormalizes | src/handler.ts:117-127 | a name made only of ASCII letters and shorter than every exclusion term survives as its canonical form |
| CityNames.WarsawCanonical | src/handler.ts:126 | "Warsaw", "warsaw" and "WARSAW" all have the canonical form "Warsaw" |
| CityNames.WarsawSpelling | src/handler.ts:117-127 | each of those three spellings survives the pipeline as "Warsaw" |
| CityNames.SameCityCollapses | src/handler.ts:125-127 | records whose names all normalise to one city give that city exactly once |
| CityNames.CaseVariantsCollapse | src/handler.ts:125-127 | the records "Warsaw", "warsaw" and "WARSAW" give the single city "Warsaw" |
| CityNames.RejectedNameDropped | src/handler.ts:119-124 | a trimmed name that fails the filter yields no city |
| CityNames.OutsideClassDropped | src/handler.ts:61 | a trimmed name with a character outside `[a-zA-Z\s-]` yields no city |
| CityNames.ExclusionTermDropped | src/handler.ts:121-123 | a trimmed name containing one of the three exclusion terms, in any letter case, yields no city |
| CityNames.StationNameDropped | src/handler.ts:122 | "Warsaw Station" yields no city |
| CityNames.AccentedNamesDropped | src/handler.ts:61 | "Kraków" and "kraków District" yield no city because "ó" is outside the character class |
| CityNames.NoneSurvive | src/handler.ts:117-127 | records whose names are all dropped give an empty `uniqueCities` |
| Upstream.Step | src/handler.ts:32-71 | one request `e` takes exactly the first scripted reply and is logged as `e`, so the script only shrinks; every request in `Upstream.Authenticate`, `Upstream.RefreshAuthToken` and `Upstream.FetchPollutionData` goes through it |
| Upstream.Rethrow | src/handler.ts:77 | definition: the error of `await refreshAuthToken()` escaping `fetchPollutionData` unchanged; used by `Upstream.RetriesAfterUnauthorized`, `Upstream.LoginThenUnauthorized` and `Upstream.ThrowsWhenReloginFails` |
| Upstream.Authenticate | src/handler.ts:30-43 | one login request; an answer sets both tokens from its body and returns the new `authToken`; an error leaves both tokens unchanged and is rethrown with its status |
| Upstream.RefreshAuthToken | src/handler.ts:45-57 | with a falsy refresh token it is exactly `authenticate`; otherwise it posts the refresh token first; an answer replaces only `authToken`, keeps `refreshToken` and returns the token; an error falls back to `authenticate` in the state left after the refresh request; only a rejected login can make it throw |
| Upstream.EnsureToken | src/handler.ts:68 | definition: `if (!authToken) await authenticate()`; its effect is proved in `Upstream.FirstRequestWithToken` and `Upstream.FirstRequestWithoutToken` |
| Upstream.FetchPollutionData | src/handler.ts:66-83 | every scripted reply consumed answers one logged request; the call throws only when the last request was a login and that login was rejected, and then with that login's status |
| Upstream.HandleFailure | src/handler.ts:74-82 | the `catch` block: the same consumption and throwing guarantees as the fetch it belongs to |
| Upstream.FirstRequestWithToken | src/handler.ts:68-72 | with a truthy `authToken`, the first request made is the pollution request carrying that token, so no login happens first |
| Upstream.FirstRequestWithoutToken | src/handler.ts:68 | without a truthy `authToken`, the first request made is a login |
| Upstream.SuccessReturnsResults | src/handler.ts:69-73 | with a token held, an answered pollution request returns `results`, or `[]` when `results` is missing, after exactly one request |
| Upstream.LoginThenResults | src/handler.ts:66-73 | with no token held, a successful login followed by an answered pollution request returns that answer's `results`, or `[]` when they are missing; the pollution request carries the token the login gave, both tokens come from the login answer, exactly those two requests are made, and the rest of the script is untouched |
| Upstream.LoginThenOtherFailure | src/handler.ts:66-82 | with no token held, a successful login followed by a pollution request rejected with a status other than 401 returns `[]` without throwing, after exactly those two requests, with both tokens from the login answer |
| Upstream.LoginThenUnauthorized | src/handler.ts:66-78 | with no token held, a successful login followed by a 401 on the pollution request enters the 401 branch of the `catch` block in the state the login left: `refreshAuthToken` runs, and when it returns, the call is repeated in the state it leaves; otherwise its error escapes |
| Upstream.OtherFailureReturnsEmpty | src/handler.ts:74-82 | an error other than 401 on the first request (login or pollution) returns `[]` without throwing, after exactly that request |
| Upstream.RetriesAfterUnauthorized | src/handler.ts:76-78 | after a 401 on the first request (the pollution request after a login is `Upstream.LoginThenUnauthorized`), `refreshAuthToken` runs; if it returns, `fetchPollutionData` runs again in the state it leaves; if not, its error escapes |
| Upstream.RetriesKeepQuery | src/handler.ts:66-83 | every pollution request made by a call, retries included, carries the call's own country, page and limit |
| Upstream.HandlerKeepsQuery | src/handler.ts:74-79 | every pollution request the `catch` block makes carries the same arguments |
| Upstream.RefreshSendsNoPollution | src/handler.ts:45-57 | `refreshAuthToken` makes only refresh and login requests |
| Upstream.RetriesWithoutBound | src/handler.ts:74-79 | for every `n`, `n` rounds of 401 followed by a successful refresh, then one answer, make the call return that answer's records; the script is used up, the refresh token is kept, and the service is asked for pollution data `n + 1` times; no retry bound exists |
| Upstream.ThrowsWhenReloginFails | src/handler.ts:39-42 | with no refresh token, a 401 followed by a rejected login makes `fetchPollutionData` throw that login's error after exactly those two requests |
| Session.Session.constructor | src/handler.ts:27-28 | the module starts with no token held and no request made |
| Session.Session.Send | src/handler.ts:32 | one request, logged, takes the next scripted reply; with the script exhausted, no reply and no change |
| Session.Session.Authenticate | src/handler.ts:30-43 | updates the fields in place exactly as `Upstream.Authenticate` describes |
| Session.Session.RefreshAuthToken | src/handler.ts:45-57 | updates the fields in place exactly as `Upstream.RefreshAuthToken` describes |
| Session.Session.FetchPollutionData | src/handler.ts:66-83 | updates the fields in place exactly as `Upstream.FetchPollutionData` describes |
| Session.Session.HandleFailure | src/handler.ts:74-82 | updates the fields in place exactly as `Upstream.HandleFailure` describes |
| Descriptions.ThumbnailSource | src/handler.ts:95 | `thumbnail?.source \|\| null` never yields an empty URL |
| Descriptions.FromSummary | src/handler.ts:94-97 | the entry built from a summary is well formed: its description is never empty (`extract \|\| "No description available"`) and its thumbnail is never an empty URL |
| Descriptions.Uncached | src/handler.ts:90-102 | definition: the entry a lookup gives when nothing is cached, the reference for the cache; its properties are proved in `Descriptions.UncachedWellFormed` and `Descriptions.CacheTransparent` |
| Descriptions.CacheOrFetch | src/handler.ts:86-103 | a hit returns the stored entry and leaves the cache unchanged; a miss returns the entry the reply gives; a successful miss stores it under `cityName`; a failed lookup returns the fallback and leaves the cache unchanged |
| Descriptions.CacheOrFetchFrame | src/handler.ts:98 | a call can add only the key `cityName` (only on a successful miss), and every entry already cached is kept |
| Descriptions.UncachedWellFormed | src/handler.ts:94-101 | every entry a lookup gives has a non-empty description and no empty thumbnail URL |
| Descriptions.CacheStaysWellFormed | src/handler.ts:86-103 | a cache of well-formed entries returns well-formed entries and stays well formed |
| Descriptions.CacheTransparent | src/handler.ts:86-103 | when the cache agrees with the service, the entry returned is what an uncached lookup gives, and the cache keeps agreeing |
| Descriptions.DescriptionCache.constructor | src/handler.ts:8 | the shared cache starts empty and no lookup has been made |
| Descriptions.DescriptionCache.FetchCityDescription | src/handler.ts:86-103 | updates the cache in place as `CacheOrFetch` describes, and asks the service about the name only on a miss |
| Pipeline.Names | src/handler.ts:118 | definition: `pollutionData.map(entry => entry.name)`; its use is covered by `CityNames.UniqueCitiesMembers` and `Pipeline.EveryCityHasRecord` |
| Pipeline.Matches | src/handler.ts:137 | definition: the `find` predicate; its meaning is proved in `Pipeline.FirstMatch` |
| Pipeline.FirstMatch | src/handler.ts:137 | `data.find`: the index of a record whose trimmed, lower-cased name equals the lower-cased city name, with no earlier such record; absent only when no record matches |
| Pipeline.JoinPollution | src/handler.ts:137-142 | definition: `pollutionEntry?.pollution \|\| null`; its value is proved in `Pipeline.EveryCityHasRecord` |
| Pipeline.EveryCityHasRecord | src/handler.ts:137-142 | every unique city has a matching record, so `find` never comes back empty, and the joined pollution is that record's value, or null when that value is falsy |
| Pipeline.CeilDiv | src/handler.ts:158 | the least number of blocks of size `b` that hold `a` |
| Pipeline.BatchesFrom | src/handler.ts:133-134 | definition: the slices of five the `for` loop forms from index `i` on; its properties are proved in `Pipeline.BatchCountFrom`, `Pipeline.BatchSlicesFrom` and `Pipeline.BatchesCoverFrom` |
| Pipeline.Batches | src/handler.ts:133-134 | definition: the slices of five the loop forms from index 0; its properties are proved in `Pipeline.BatchCount`, `Pipeline.BatchSlices` and `Pipeline.BatchesCover` |
| Pipeline.BatchCountFrom | src/handler.ts:133-134 | from index `i` on, the loop forms `ceil((n - i) / 5)` batches |
| Pipeline.BatchCount | src/handler.ts:133-134 | the loop forms `ceil(n / 5)` batches |
| Pipeline.BatchSlicesFrom | src/handler.ts:133-134 | from index `i` on, batch `k` is the slice of at most five names starting at `i + 5k`, and no batch is empty |
| Pipeline.BatchSlices | src/handler.ts:133-134 | batch `k` is the slice of at most five names starting at `5k`, and no batch is empty |
| Pipeline.BatchesCoverFrom | src/handler.ts:133-134 | from index `i` on, the batches laid end to end are the names from `i`, each once, in order |
| Pipeline.BatchesCover | src/handler.ts:133-134 | the batches laid end to end are `uniqueCities`, each name once, in order |
| Pipeline.TotalPages | src/handler.ts:158 | JSON null exactly when `limit` is 0; for a positive `limit`, the integer ceiling of `total / limit`; for a negative `limit`, the ceiling of the negative quotient |
| Pipeline.TotalPagesExample | src/handler.ts:158 | 237 records at 100 per page make 3 pages; 0 make 0; 200 make 2 |
| Pipeline.Extend | src/handler.ts:136-145 | definition: one name's result, joined pollution and cached or looked-up description; its effect is proved in `Pipeline.EnrichAllShape` and `Pipeline.EnrichAllCache` |
| Pipeline.ExtendAll | src/handler.ts:133-149 | definition: `Extend` over a sequence of names from a given start; its properties are proved in `Pipeline.ExtendAllAppend` |
| Pipeline.EnrichAll | src/handler.ts:133-149 | definition: the enrichment of every name from the starting cache; its properties are proved in `Pipeline.EnrichAllShape`, `Pipeline.EnrichAllCache` and `Pipeline.EnrichAllTransparent` |
| Pipeline.ExtendAllAppend | src/handler.ts:133-149 | enriching `a + b` is enriching `a`, then enriching `b` from what `a` left |
| Pipeline.EnrichAllShape | src/handler.ts:136-145 | one result per name, in order, each with that name, the requested country and the joined pollution value |
| Pipeline.EnrichAllCache | src/handler.ts:138 | for distinct names, each result carries the entry cached at the start or else the one a lookup gives; exactly the uncached names are looked up, once each, in order; the final cache holds the starting entries plus every successful lookup |
| Pipeline.EnrichAllTransparent | src/handler.ts:138 | when the cache agrees with the service, every result carries what an uncached lookup gives, and the cache keeps agreeing |
| Pipeline.EnrichStep | src/handler.ts:133-148 | enriching the names up to the end of a batch is enriching the names before it, then the batch |
| Pipeline.EnrichBatch | src/handler.ts:135-147 | the batch's results extend the earlier results exactly as the enrichment of the batch does, and the cache and the lookup log match that enrichment |
| Pipeline.CollectCities | src/handler.ts:129-149 | `citiesData`, the cache and the lookup log end as the enrichment of all unique names from the starting cache; the batches formed are `Batches(uniqueCities)` |
| Pipeline.EnvelopeOf | src/handler.ts:151-159 | definition: the response envelope; its properties are proved in `Pipeline.EnvelopeConsistent` and `Pipeline.TotalPages` |
| Pipeline.EnvelopeConsistent | src/handler.ts:151-159 | `total` is the raw record count and `validCityCount` is at most `total`; there is one city per valid city, in `uniqueCities` order, with the requested country and no repeats; for a positive `limit`, `totalPages * limit` covers `total` |
| Pipeline.GetCities | src/handler.ts:105-170 | the session ends as `fetchPollutionData` leaves it; a thrown fetch gives status 500 and leaves the cache untouched; fetched records give status 200 with the envelope of the enriched unique cities, and the cache and lookup log match that enrichment |

## Left out

- HTTP through axios (src/handler.ts:32, 50, 69, 91) is not executed.
  - The pollution service is a script of replies; the encyclopedia service is a function from a name to its reply.
  - Credentials, URLs and headers are not modelled. Each request records only what the handler chooses: the refresh token, the query and the bearer token.
- The TTL of the node-cache entries (src/handler.ts:8) is not modelled, because expiry needs a wall clock. The cache is a map whose entries never expire.
- `encodeURIComponent` and URL building (src/handler.ts:92) are not modelled: they sit on the I/O path.
- dotenv and the environment variables (src/handler.ts:6, 16-18) are configuration.
- Lambda event parsing (src/handler.ts:107-109) is not modelled. `GetCities` takes the already parsed query, so the `"PL"`/`1`/`100` defaults and `parseInt` producing NaN are not modelled.
- JSON serialisation, CORS headers and the status-500 body (src/handler.ts:21-25, 151-169) are not modelled as bytes. The response is `Ok(envelope)` or `InternalError`.
- `console` logging is not modelled: it has no observable effect on the response.
- The concurrency of `Promise.all` (src/handler.ts:135-147) is not modelled; each batch runs one name after the other. `Promise.all` keeps result order. The names are unique, so two calls in one batch never share a cache key, and the order of the lookups inside a batch cannot change any result. Concurrent invocations of the handler, which share the tokens and the cache, are not modelled.
- Pipeline.TotalPages: models `Math.ceil(total / limit)` on exact integers. It does not model floating-point rounding of the quotient (exact for realistic counts), NaN, or `-0`. A zero `limit` gives `None` (JSON null) instead of the infinity or NaN of the division.
- Record names are modelled as strings. A record whose `name` is not a string makes `trim` throw a TypeError and the handler answer 500; this is not modelled. A non-array `results` is not modelled either.
- Characters are Unicode scalar values, not UTF-16 code units. A name with a character outside the Basic Multilingual Plane is rejected either way, because the character class `[a-zA-Z\s-]` holds none of its code units.
- `toLowerCase` on record names (src/handler.ts:137) is ASCII plus the KELVIN SIGN, the one character whose lower case is an ASCII letter; other non-ASCII characters are left as they are. This is exact for the comparison with a city name, which holds only ASCII letters, `-` and `\s` characters, on which JavaScript's `toLowerCase` and `LowerChar` agree.
- `if (cached)` (src/handler.ts:88) is modelled as presence in the map: a cached entry is an object, which is always truthy.

## Behaviour of the code worth knowing

- Retries after a 401 have no bound (src/handler.ts:78), and the handler throws when the login inside the `catch` block fails (src/handler.ts:41, 77). `RetriesWithoutBound` and `ThrowsWhenReloginFails` exhibit both.
- "Kraków" is not a valid city, because "ó" is outside `[a-zA-Z\s-]` (src/handler.ts:61): `AccentedNamesDropped`.
- The join may pick a record that the filter dropped, because it compares lower-cased trimmed names without filtering. For example, a record whose name holds a KELVIN SIGN lower-cases to the same text as an ASCII survivor. `EveryCityHasRecord` therefore promises only that some record matches.
