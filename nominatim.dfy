/**
 * The Nominatim geocoding client: its search parameters, the base URL chosen
 * at construction, the translation of parameters into the ordered key/value
 * pairs of the request's query string, and the check on the response status.
 *
 * Every guard in the client is a JavaScript truthiness test, not an "is set"
 * test: an empty string, a zero limit and `false` are left out exactly as an
 * absent field is, while an array is truthy even when it is empty.
 */
module Nominatim {
  import opened Wrappers
  import opened JsText

  /** The caller's search request; every field is optional. */
  datatype SearchParameters = SearchParameters(
    Query: Option<string>,
    Street: Option<string>,
    City: Option<string>,
    County: Option<string>,
    State: Option<string>,
    Country: Option<string>,
    PostalCode: Option<string>,
    CountryCodes: Option<seq<string>>,
    Limit: Option<int>,
    Viewbox: Option<seq<int>>,
    IncludeAddress: Option<bool>,
    IncludeGeoJSON: Option<bool>)

  /** The plain object `query`: its own string-keyed properties in insertion
      order, which is the order in which `URLSearchParams` serialises them. */
  type QueryObject = seq<(string, string)>

  // ---------------------------------------------------------------------------
  // JavaScript truthiness of the optional fields (`if (p.Field)`)
  // ---------------------------------------------------------------------------

  predicate TruthyText(s: Option<string>)
  {
    s.Some? && s.value != ""
  }

  predicate TruthyNumber(n: Option<int>)
  {
    n.Some? && n.value != 0
  }

  predicate TruthyFlag(b: Option<bool>)
  {
    b.Some? && b.value
  }

  // ---------------------------------------------------------------------------
  // The query object as an insertion-ordered dictionary
  // ---------------------------------------------------------------------------

  function Keys(q: QueryObject): (ks: seq<string>)
    ensures |ks| == |q|
  {
    seq(|q|, i requires 0 <= i < |q| => q[i].0)
  }

  /** Reading `query[key]`: the value of the property, if there is one. */
  function Lookup(q: QueryObject, key: string): Option<string>
  {
    if q == [] then None
    else if q[0].0 == key then Some(q[0].1)
    else Lookup(q[1..], key)
  }

  /** Assigning `query[key] = value`: a new key is added at the end, while an
      existing key keeps its place and takes the new value.  This is
      JavaScript's property order for keys that are not array indices (such
      keys, like "0", would be listed first); none of the client's keys is one. */
  function Put(q: QueryObject, key: string, value: string): QueryObject
  {
    if q == [] then [(key, value)]
    else if q[0].0 == key then [(key, value)] + q[1..]
    else [q[0]] + Put(q[1..], key, value)
  }

  /** Assigning to a key the object does not have yet appends the pair. */
  lemma {:induction false} PutNewKey(q: QueryObject, key: string, value: string)
    requires key !in Keys(q)
    ensures Put(q, key, value) == q + [(key, value)]
  {
    if q != [] {
      assert Keys(q) == [q[0].0] + Keys(q[1..]);
      PutNewKey(q[1..], key, value);
      assert [q[0]] + (q[1..] + [(key, value)]) == q + [(key, value)];
    }
  }

  /** After the assignment, reading `key` gives the value assigned, and
      reading any other key gives what it gave before. */
  lemma {:induction false} PutLookup(q: QueryObject, key: string, value: string)
    ensures Lookup(Put(q, key, value), key) == Some(value)
    ensures forall k :: k != key ==> Lookup(Put(q, key, value), k) == Lookup(q, k)
  {
    if q != [] && q[0].0 != key {
      PutLookup(q[1..], key, value);
    }
  }

  /** Assigning to a key that is already there leaves the key order as it was. */
  lemma {:induction false} PutKeepsKeys(q: QueryObject, key: string, value: string)
    requires key in Keys(q)
    ensures Keys(Put(q, key, value)) == Keys(q)
  {
    assert Keys(q) == [q[0].0] + Keys(q[1..]);
    if q[0].0 != key {
      PutKeepsKeys(q[1..], key, value);
      assert Keys([q[0]] + Put(q[1..], key, value)) == [q[0].0] + Keys(Put(q[1..], key, value));
    }
  }

  // ---------------------------------------------------------------------------
  // What is sent for each key
  // ---------------------------------------------------------------------------

  /** The thirteen query keys the client knows. */
  datatype Key = Format | Q | Street | City | County | State | Country | PostalCode
               | Limit | CountryCodes | Viewbox | AddressDetails | PolygonGeoJson

  /** The name of a key on the wire. */
  function Name(k: Key): string
  {
    match k
    case Format => "format"
    case Q => "q"
    case Street => "street"
    case City => "city"
    case County => "county"
    case State => "state"
    case Country => "country"
    case PostalCode => "postalcode"
    case Limit => "limit"
    case CountryCodes => "countrycodes"
    case Viewbox => "viewbox"
    case AddressDetails => "addressdetails"
    case PolygonGeoJson => "polygon_geojson"
  }

  function Names(ks: seq<Key>): (r: seq<string>)
    ensures |r| == |ks|
  {
    seq(|ks|, i requires 0 <= i < |ks| => Name(ks[i]))
  }

  /** The keys in the order the client assigns them. */
  const KeyOrder: seq<Key> := [Format, Q, Street, City, County, State, Country,
    PostalCode, Limit, CountryCodes, Viewbox, AddressDetails, PolygonGeoJson]

  /** The value sent for key `k`, or `None` when the key is left out: `format`
      is always `json`; a text field is sent verbatim when it is non-empty; the
      limit in decimal when it is non-zero; an array, even an empty one, as its
      elements joined with commas; a feature flag as "1" when it is true. */
  function Wire(p: SearchParameters, k: Key): Option<string>
  {
    match k
    case Format => Some("json")
    case Q => TextWire(p.Query)
    case Street => TextWire(p.Street)
    case City => TextWire(p.City)
    case County => TextWire(p.County)
    case State => TextWire(p.State)
    case Country => TextWire(p.Country)
    case PostalCode => TextWire(p.PostalCode)
    case Limit =>
      if TruthyNumber(p.Limit) then Some(DecimalString(p.Limit.value)) else None
    case CountryCodes =>
      if p.CountryCodes.Some? then Some(Join(p.CountryCodes.value, ",")) else None
    case Viewbox =>
      if p.Viewbox.Some? then Some(Join(DecimalStrings(p.Viewbox.value), ",")) else None
    case AddressDetails => FlagWire(p.IncludeAddress)
    case PolygonGeoJson => FlagWire(p.IncludeGeoJSON)
  }

  function TextWire(s: Option<string>): Option<string>
  {
    if TruthyText(s) then s else None
  }

  function FlagWire(b: Option<bool>): Option<string>
  {
    if TruthyFlag(b) then Some("1") else None
  }

  /** The pairs sent for the keys `ks`, in the order of `ks`, skipping the keys
      for which nothing is sent. */
  function Emitted(p: SearchParameters, ks: seq<Key>): QueryObject
  {
    if ks == [] then []
    else
      var k := ks[|ks| - 1];
      Emitted(p, ks[..|ks| - 1]) + (if Wire(p, k).Some? then [(Name(k), Wire(p, k).value)] else [])
  }

  /** The query the client should send for `p`. */
  function QueryOf(p: SearchParameters): QueryObject
  {
    Emitted(p, KeyOrder)
  }

  // ---------------------------------------------------------------------------
  // Building the query, statement by statement
  // ---------------------------------------------------------------------------

  lemma {:induction false} EmittedKeysWithin(p: SearchParameters, ks: seq<Key>)
    ensures forall s :: s in Keys(Emitted(p, ks)) ==> s in Names(ks)
  {
    if ks != [] {
      var init := ks[..|ks| - 1];
      EmittedKeysWithin(p, init);
      var e := Emitted(p, ks);
      forall s | s in Keys(e)
        ensures s in Names(ks)
      {
        var i :| 0 <= i < |e| && e[i].0 == s;
        if i < |Emitted(p, init)| {
          assert Keys(Emitted(p, init))[i] == s;
          assert s in Names(init);
          var j :| 0 <= j < |init| && Names(init)[j] == s;
          assert Names(ks)[j] == Names(init)[j];
        } else {
          assert Names(ks)[|ks| - 1] == s;
        }
      }
    }
  }

  lemma NameInjective(k: Key)
    ensures forall k' :: Name(k') == Name(k) ==> k' == k
  {
  }

  /** Where a key stands in `KeyOrder`: no key occurs there twice. */
  function Position(k: Key): nat
  {
    match k
    case Format => 0
    case Q => 1
    case Street => 2
    case City => 3
    case County => 4
    case State => 5
    case Country => 6
    case PostalCode => 7
    case Limit => 8
    case CountryCodes => 9
    case Viewbox => 10
    case AddressDetails => 11
    case PolygonGeoJson => 12
  }

  lemma PositionInKeyOrder(i: nat)
    requires i < |KeyOrder|
    ensures Position(KeyOrder[i]) == i
  {
  }

  /** What the guarded assignment for key `k` does to the query `q`. */
  function Send(p: SearchParameters, q: QueryObject, k: Key): QueryObject
  {
    if Wire(p, k).Some? then Put(q, Name(k), Wire(p, k).value) else q
  }

  /** The guarded assignment for the `n`-th key extends the query built for
      the keys before it by the pair sent for that key. */
  lemma EmittedStep(p: SearchParameters, n: nat)
    requires n < |KeyOrder|
    ensures Emitted(p, KeyOrder[..n + 1]) == Send(p, Emitted(p, KeyOrder[..n]), KeyOrder[n])
  {
    var done := KeyOrder[..n];
    assert KeyOrder[..n + 1][..n] == done;
    EmittedKeysWithin(p, done);
    forall j | 0 <= j < n
      ensures Names(done)[j] != Name(KeyOrder[n])
    {
      NameInjective(KeyOrder[n]);
      PositionInKeyOrder(j);
      PositionInKeyOrder(n);
    }
    if Wire(p, KeyOrder[n]).Some? {
      PutNewKey(Emitted(p, done), Name(KeyOrder[n]), Wire(p, KeyOrder[n]).value);
    }
  }

  /** The keys up to and including the postal code: `format`, then the seven
      address fields. */
  lemma EmittedAddress(p: SearchParameters)
    ensures Emitted(p, KeyOrder[..8]) == Send(p, Send(p, Send(p, Send(p, Send(p, Send(p, Send(p, Send(p, [], Format), Q), Street), City), County), State), Country), PostalCode)
  {
    EmittedStep(p, 0);
    EmittedStep(p, 1);
    EmittedStep(p, 2);
    EmittedStep(p, 3);
    EmittedStep(p, 4);
    EmittedStep(p, 5);
    EmittedStep(p, 6);
    EmittedStep(p, 7);
  }

  /** The filters follow the address fields. */
  lemma EmittedFilters(p: SearchParameters)
    ensures Emitted(p, KeyOrder[..11]) == Send(p, Send(p, Send(p, Emitted(p, KeyOrder[..8]), Limit), CountryCodes), Viewbox)
  {
    EmittedStep(p, 8);
    EmittedStep(p, 9);
    EmittedStep(p, 10);
  }

  /** The two feature flags close the query. */
  lemma EmittedFeatures(p: SearchParameters)
    ensures QueryOf(p) == Send(p, Send(p, Emitted(p, KeyOrder[..11]), AddressDetails), PolygonGeoJson)
  {
    EmittedStep(p, 11);
    EmittedStep(p, 12);
    assert KeyOrder[..13] == KeyOrder;
  }

  /** The "Query" block of the search: one guarded assignment per address
      field, each sent verbatim when it is a non-empty string. */
  method AssignAddressFields(p: SearchParameters, start: QueryObject) returns (query: QueryObject)
    ensures query == Send(p, Send(p, Send(p, Send(p, Send(p, Send(p, Send(p, start, Q), Street), City), County), State), Country), PostalCode)
  {
    query := start;
    ghost var before := query;
    if TruthyText(p.Query) {
      query := Put(query, "q", p.Query.value);
    }
    assert query == Send(p, before, Q);
    before := query;
    if TruthyText(p.Street) {
      query := Put(query, "street", p.Street.value);
    }
    assert query == Send(p, before, Street);
    before := query;
    if TruthyText(p.City) {
      query := Put(query, "city", p.City.value);
    }
    assert query == Send(p, before, City);
    before := query;
    if TruthyText(p.County) {
      query := Put(query, "county", p.County.value);
    }
    assert query == Send(p, before, County);
    before := query;
    if TruthyText(p.State) {
      query := Put(query, "state", p.State.value);
    }
    assert query == Send(p, before, State);
    before := query;
    if TruthyText(p.Country) {
      query := Put(query, "country", p.Country.value);
    }
    assert query == Send(p, before, Country);
    before := query;
    if TruthyText(p.PostalCode) {
      query := Put(query, "postalcode", p.PostalCode.value);
    }
  }

  /** The "Filtering" block: a non-zero limit in decimal, and the country
      codes and the viewbox joined with commas whenever they are given. */
  method AssignFilters(p: SearchParameters, start: QueryObject) returns (query: QueryObject)
    ensures query == Send(p, Send(p, Send(p, start, Limit), CountryCodes), Viewbox)
  {
    query := start;
    ghost var before := query;
    if TruthyNumber(p.Limit) {
      query := Put(query, "limit", DecimalString(p.Limit.value));
    }
    assert query == Send(p, before, Limit);
    before := query;
    // An array is truthy even when it is empty.
    if p.CountryCodes.Some? {
      query := Put(query, "countrycodes", Join(p.CountryCodes.value, ","));
    }
    assert query == Send(p, before, CountryCodes);
    before := query;
    if p.Viewbox.Some? {
      query := Put(query, "viewbox", Join(DecimalStrings(p.Viewbox.value), ","));
    }
  }

  /** The "Features" block: each flag is assigned only when it is true, so
      the "0" arm of the conditional is never taken. */
  method AssignFeatures(p: SearchParameters, start: QueryObject) returns (query: QueryObject)
    ensures query == Send(p, Send(p, start, AddressDetails), PolygonGeoJson)
  {
    query := start;
    ghost var before := query;
    if TruthyFlag(p.IncludeAddress) {
      query := Put(query, "addressdetails", if p.IncludeAddress.value then "1" else "0");
    }
    assert query == Send(p, before, AddressDetails);
    if TruthyFlag(p.IncludeGeoJSON) {
      query := Put(query, "polygon_geojson", if p.IncludeGeoJSON.value then "1" else "0");
    }
  }

  /** The query construction of the search: `format` first, then the address
      fields, the filters and the features, in source order. */
  method BuildQuery(p: SearchParameters) returns (query: QueryObject)
    ensures query == QueryOf(p)
  {
    query := [];
    query := Put(query, "format", "json");
    assert query == Send(p, [], Format);
    query := AssignAddressFields(p, query);
    EmittedAddress(p);
    query := AssignFilters(p, query);
    EmittedFilters(p);
    query := AssignFeatures(p, query);
    EmittedFeatures(p);
  }

  // ---------------------------------------------------------------------------
  // The response status
  // ---------------------------------------------------------------------------

  const StatusPrefix: string := "Status code is not 200: "

  /** The check after the fetch: 200 passes; any other status fails with a
      message that ends in the status written in decimal. */
  function CheckStatus(status: int): (r: Outcome<string>)
    ensures r.Pass? <==> status == 200
    ensures r.Fail? ==>
      StatusPrefix <= r.error && ParseDecimal(r.error[|StatusPrefix|..]) == Some(status)
  {
    DecimalRoundTrip(status);
    if status != 200 then
      var msg := StatusPrefix + DecimalString(status);
      assert msg[|StatusPrefix|..] == DecimalString(status);
      Fail(msg)
    else Pass
  }

  // ---------------------------------------------------------------------------
  // The client
  // ---------------------------------------------------------------------------

  const DefaultBaseUrl: string := "https://nominatim.openstreetmap.org"

  /** A GET request: the URL up to and including the `?`, and the pairs that
      `URLSearchParams` form-encodes after it. */
  datatype Request = Request(prefix: string, query: QueryObject)

  class Nominatim {
    var baseurl: string

    /** A non-empty argument becomes the base URL; an absent or empty one
        selects the public service. */
    constructor (baseurl: Option<string>)
      ensures TruthyText(baseurl) ==> this.baseurl == baseurl.value
      ensures !TruthyText(baseurl) ==> this.baseurl == DefaultBaseUrl
      ensures this.baseurl != ""
    {
      if TruthyText(baseurl) {
        this.baseurl := baseurl.value;
      } else {
        this.baseurl := DefaultBaseUrl;
      }
    }

    /** One search.  `status` stands for the status of the response to the
        request; the request is issued whatever it turns out to be. */
    method Search(p: SearchParameters, status: int) returns (request: Request, outcome: Outcome<string>)
      ensures request.prefix == baseurl + "/search?"
      ensures request.query == QueryOf(p)
      ensures outcome == CheckStatus(status)
    {
      var url := baseurl + "/search";
      var query := BuildQuery(p);
      url := url + "?";
      request := Request(url, query);
      outcome := CheckStatus(status);
    }
  }
}
