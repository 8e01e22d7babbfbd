# Nominatim search client — a verified model of its request building

The client in `src/nominatim.ts` sends one search to a Nominatim geocoding
server. Its constructor chooses the base URL: the argument when that is a
non-empty string, and otherwise the public service
`https://nominatim.openstreetmap.org`. `Search` then does four things in order:

- It fills a plain object `query` with one property per parameter. The
  parameters are the free-form query, the six structured address fields
  (street to postal code), the limit, the country codes, the viewbox and two
  feature flags. `format=json` always
  comes first.
- It appends that object, form-encoded, to `<baseurl>/search?`.
- It fetches the URL.
- It throws `Status code is not 200: <status>` for any status other than
  200.

Every guard in the builder is a JavaScript truthiness test. So an empty string,
a zero limit and `false` are left out exactly as an absent field is. An array,
even an empty one, is always sent. A flag's `'0'` arm can never be reached.

The model has four modules:

- `Wrappers` (`wrappers.dfy`) holds `Option` and `Outcome`.
- `JsText` (`js_text.dfy`) holds the two JavaScript built-ins the builder
  calls, over the values it passes them:
  - `Join` is `Array.prototype.join`;
  - `DecimalString` is `Number.prototype.toString` on integers of magnitude
    at most 2^53, the range in which every integer is a JavaScript number
    and `toString` writes all of its digits.

  Each has a reference inverse, `Split` and `ParseDecimal`. These are used
  only in contracts: to state that what is written on the wire can be read
  back, and that the status error message reads back as the status.
- `Nominatim` (`nominatim.dfy`) holds the parameter record, the query object
  and the client:
  - The query object is an insertion-ordered dictionary. `Put` models
    `query[key] = value`.
  - `Wire` gives the value sent for each key. `QueryOf` is the query the
    client should send: the keys in assignment order, each with its
    `Wire` value, skipping the keys for which nothing is sent.
  - The builder is modelled as the source writes it, as methods made of
    guarded assignments. `BuildQuery` assigns `format` itself, then calls
    one method for each of the other three commented blocks of `Search`:
    `AssignAddressFields`, `AssignFilters` and `AssignFeatures`. Each of
    these is proved equal to its block's chain of guarded assignments
    (`Send`). The lemmas `EmittedAddress`, `EmittedFilters` and
    `EmittedFeatures` connect those chains to `QueryOf`, so `BuildQuery`
    is proved to return `QueryOf(p)`.
  - `CheckStatus` is the status check, and the class `Nominatim` holds
    the constructor and `Search`.
- `NominatimProperties` (`nominatim_properties.dfy`) states what `QueryOf`
  means in terms of the parameters:
  - which keys are present and what each one holds;
  - the order of the keys, and that there are no duplicates and no other keys;
  - that a falsy field is the same as an absent one;
  - that the limit, the country codes and the viewbox can be read back from
    their wire form.

`SearchResult` (src/nominatim.ts:21-39) declares numeric `Lat`, `Lng` and
`BoundingBox` next to `LatStr`, `LngStr` and `BoundingBoxStr`, but nothing
fills them: `Search` returns `resp.json()` cast to `Array<SearchResult>`
(line 119). The response body is therefore not modelled (see below).

## Model

| member | source | states |
|---|---|---|
| Nominatim.PutNewKey | src/nominatim.ts:68-109 | assigning a property the object does not have yet adds it after all existing ones (JavaScript's order for keys that are not array indices, which all thirteen keys here are) |
| Nominatim.PutLookup | src/nominatim.ts:68-109 | after `query[key] = value`, reading `key` gives `value` and every other key reads as before |
| Nominatim.PutKeepsKeys | src/nominatim.ts:68-109 | assigning an existing property keeps the key order unchanged |
| Nominatim.EmittedKeysWithin | src/nominatim.ts:68-109 | the query built from a list of keys holds only the names of those keys |
| Nominatim.EmittedStep | src/nominatim.ts:68-109 | each guarded assignment, applied in source order, extends the query built so far by exactly the pair sent for its key |
| Nominatim.EmittedAddress | src/nominatim.ts:69-92 | the query after the `format` line and the seven address assignments is those eight guarded assignments applied to the empty object |
| Nominatim.EmittedFilters | src/nominatim.ts:93-102 | the limit, country-code and viewbox assignments extend the query in that order |
| Nominatim.EmittedFeatures | src/nominatim.ts:103-109 | the two flag assignments complete the query |
| Nominatim.AssignAddressFields | src/nominatim.ts:71-92 | the seven `if (p.Field) query[key] = p.Field` statements assign each address field under its key exactly when it is a non-empty string |
| Nominatim.AssignFilters | src/nominatim.ts:93-102 | a non-zero limit is assigned in decimal; the country codes and the viewbox are assigned comma-joined whenever the array is given, even when it is empty |
| Nominatim.AssignFeatures | src/nominatim.ts:103-109 | each flag is assigned only when it is true, and then as "1" |
| Nominatim.BuildQuery | src/nominatim.ts:67-109 | the object built statement by statement equals the specified query `QueryOf(p)` |
| Nominatim.CheckStatus | src/nominatim.ts:114-117 | status 200 passes; any other status fails with a message that starts with `Status code is not 200: ` and whose rest reads back as the status |
| Nominatim.Nominatim.constructor | src/nominatim.ts:56-62 | the base URL is the argument when it is a non-empty string, and the public service otherwise; it is never empty |
| Nominatim.Nominatim.Search | src/nominatim.ts:64-117 | the request goes to `baseurl + "/search?"` with the query `QueryOf(p)`, and the outcome is `CheckStatus(status)`: it passes exactly when the status is 200 |
| JsText.Join | src/nominatim.ts:97-102 | joining no elements gives the empty string, and joining one element gives that element |
| JsText.JoinLength | src/nominatim.ts:97-102 | a join holds every element plus one separator fewer than there are elements |
| JsText.SplitJoin | src/nominatim.ts:97-102 | a non-empty array of comma-free strings is recovered exactly by splitting its join at the commas |
| JsText.JoinSeparatorCount | src/nominatim.ts:97-102 | n comma-free strings joined with "," hold exactly n - 1 commas |
| JsText.NatDigits | src/nominatim.ts:94-96 | a magnitude is written as decimal digits with no leading zero; "0" only for zero |
| JsText.DecimalShape | src/nominatim.ts:94-96 | an integer is written with a leading '-' exactly when it is negative, followed by digits only |
| JsText.DecimalRoundTrip | src/nominatim.ts:94-96 | the decimal form of an integer reads back as that integer |
| JsText.DecimalInjective | src/nominatim.ts:94-96 | different integers never have the same decimal form |
| JsText.DecimalHasNoComma | src/nominatim.ts:100-102 | a number's decimal form holds no comma, so a joined viewbox splits back into its numbers |
| JsText.JoinedDecimalsRoundTrip | src/nominatim.ts:100-102 | a joined non-empty list of integers splits into one piece per number, each reading back as that number |
| NominatimProperties.LookupAppend | src/nominatim.ts:68-109 | a key appended to the object reads as its value only when it was not already there |
| NominatimProperties.LookupPresent | src/nominatim.ts:68-109 | a key reads as present exactly when it is one of the object's keys |
| NominatimProperties.RankOfName | src/nominatim.ts:68-109 | each key's rank in the assignment order is its position in that order, so no two keys share a rank |
| NominatimProperties.PrefixLookup | src/nominatim.ts:68-109 | after the first n assignments, a key reads as the value sent for it if it is among those n, and as absent otherwise |
| NominatimProperties.QueryLookup | src/nominatim.ts:68-109 | reading any of the thirteen keys from the query gives exactly the value sent for it, or absence when nothing is sent |
| NominatimProperties.QueryHasOnlyKnownKeys | src/nominatim.ts:68-109 | no key outside the thirteen named ones is ever sent |
| NominatimProperties.PrefixOrdered | src/nominatim.ts:68-109 | after the first n assignments, every key ranks below n and the keys appear in strictly increasing rank |
| NominatimProperties.QueryOrdered | src/nominatim.ts:68-109 | the query lists its keys in the fixed order format, q, street, city, county, state, country, postalcode, limit, countrycodes, viewbox, addressdetails, polygon_geojson, and no key occurs twice |
| NominatimProperties.PrefixGrows | src/nominatim.ts:68-109 | each later assignment only adds to the end of the query built so far |
| NominatimProperties.FormatFirst | src/nominatim.ts:69-70 | `format=json` is always the first pair |
| NominatimProperties.FormatSent | src/nominatim.ts:69-70 | `format` always reads as `json` |
| NominatimProperties.EmittedAgree | src/nominatim.ts:68-109 | parameters that send the same value for every key give the same query |
| NominatimProperties.FalsyIsAbsent | src/nominatim.ts:71-109 | making every empty string, zero limit and `false` flag absent leaves the query unchanged |
| NominatimProperties.AddressFieldsSent | src/nominatim.ts:71-92 | q, street, city, county, state, country and postalcode are sent exactly when their field is a non-empty string, with the field's text unchanged |
| NominatimProperties.LimitSent | src/nominatim.ts:94-96 | `limit` is sent exactly when the limit is non-zero; its value reads back as the limit and starts with '-' exactly when the limit is negative |
| NominatimProperties.CountryCodesSent | src/nominatim.ts:97-99 | `countrycodes` is sent exactly when the array is given; an empty array sends ""; comma-free codes split back into the array, with one comma fewer than there are codes |
| NominatimProperties.ViewboxSent | src/nominatim.ts:100-102 | `viewbox` is sent exactly when the array is given; an empty array sends ""; otherwise it has one comma fewer than there are numbers, and splits into pieces that read back as the numbers |
| NominatimProperties.FeaturesSent | src/nominatim.ts:103-109 | `addressdetails` and `polygon_geojson` are sent exactly when their flag is true, always as "1"; "0" is never sent |
| NominatimProperties.NotFoundFails | src/nominatim.ts:114-117 | a 404 response fails with the message `Status code is not 200: 404` |

## Left out

- `fetch`, `await` and the asynchronous flow (src/nominatim.ts:113, 119) are network I/O. `Search` takes the response status as a parameter, and returns the request it would issue.
- The form-encoding done by `URLSearchParams` (src/nominatim.ts:111) is left out. This is the application/x-www-form-urlencoded serializer of section 5.2 of the WHATWG URL Standard. The model stops at the ordered key/value pairs, and `Request` holds the URL prefix and those pairs.
- Response decoding is left out: `resp.json()` and the `SearchResult` and `SearchAddress` interfaces (src/nominatim.ts:21-50, 119-121). The source only casts the parsed JSON, and JSON parsing is a foreign call. A passing `Outcome` carries no results.
- Nominatim.Nominatim.Search: the thrown `Error` is modelled as a `Fail` outcome. That the call returns no results on failure is therefore part of the type, not an `ensures` clause.
- Limit and Viewbox are meant as integers of magnitude at most 2^53. JavaScript numbers that are not integers (and NaN, infinities or -0) are floating point and are left out.
- JsText.DecimalString: agrees with `Number.prototype.toString` only for magnitudes up to 2^53. Above that, a Dafny `int` need not be a JavaScript number at all (2^53 + 1 is not one). For those that are, `toString` writes the fewest significant digits that round to the same double and pads with zeros: 2^64 is sent as "18446744073709552000", while the model writes "18446744073709551616". From 1e21 on it switches to exponent notation. Modelling this needs double-precision rounding, which is floating point and is left out; no search limit or coordinate comes near that range.
- The source's type annotations are trusted. Values of other runtime types (for example `undefined` or `null` elements inside an array, which `join` writes as "") are not modelled.
- NominatimProperties.CountryCodesSent: the round trip is stated only for non-empty arrays of comma-free codes. `[]` and `[""]` both send "", and a code containing a comma cannot be told apart from two codes.
