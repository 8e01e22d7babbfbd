/**
 * What the query the client builds means, stated against the parameters
 * rather than against the statements that build it: which keys are present,
 * what each one holds, in which order they appear, and what a server can
 * recover from them.
 */
module NominatimProperties {
  import opened Wrappers
  import opened JsText
  import opened Nominatim

  // ---------------------------------------------------------------------------
  // Reading the insertion-ordered object
  // ---------------------------------------------------------------------------

  /** Appending a pair changes the reading of that pair's key only when the
      key was absent. */
  lemma {:induction false} LookupAppend(q: QueryObject, key: string, value: string, s: string)
    ensures Lookup(q + [(key, value)], s) ==
      if Lookup(q, s).Some? then Lookup(q, s) else if key == s then Some(value) else None
  {
    if q != [] {
      assert (q + [(key, value)])[1..] == q[1..] + [(key, value)];
      LookupAppend(q[1..], key, value, s);
    }
  }

  /** A key reads as present exactly when it is among the keys. */
  lemma {:induction false} LookupPresent(q: QueryObject, s: string)
    ensures Lookup(q, s).Some? <==> s in Keys(q)
  {
    if q != [] {
      LookupPresent(q[1..], s);
      assert Keys(q) == [q[0].0] + Keys(q[1..]);
    }
  }

  // ---------------------------------------------------------------------------
  // Where each key stands
  // ---------------------------------------------------------------------------

  lemma KeyAtPosition(k: Key)
    ensures Position(k) < |KeyOrder| && KeyOrder[Position(k)] == k
  {
  }

  /** The first index of `s` in `xs`, or `|xs|` when it does not occur. */
  function IndexOf(xs: seq<string>, s: string): (i: nat)
    ensures i <= |xs|
    ensures i < |xs| ==> xs[i] == s
    ensures forall j :: 0 <= j < i ==> xs[j] != s
  {
    if xs == [] then 0
    else if xs[0] == s then 0
    else 1 + IndexOf(xs[1..], s)
  }

  /** The rank of a key name in the client's assignment order; 13 for a
      string that is no key name. */
  function Rank(s: string): nat
  {
    IndexOf(Names(KeyOrder), s)
  }

  lemma RankOfName(k: Key)
    ensures Rank(Name(k)) == Position(k)
  {
    KeyAtPosition(k);
    var i := Rank(Name(k));
    assert Names(KeyOrder)[Position(k)] == Name(k);
    NameInjective(k);
    PositionInKeyOrder(i);
  }

  // ---------------------------------------------------------------------------
  // The query, key by key
  // ---------------------------------------------------------------------------

  /** Within the query built from the first `n` keys, a key reads as the value
      sent for it when it is one of those `n`, and as absent otherwise. */
  lemma {:induction false} PrefixLookup(p: SearchParameters, n: nat, k: Key)
    requires n <= |KeyOrder|
    ensures Lookup(Emitted(p, KeyOrder[..n]), Name(k)) == if Position(k) < n then Wire(p, k) else None
  {
    if n > 0 {
      var m := n - 1;
      assert KeyOrder[..n][..m] == KeyOrder[..m];
      PrefixLookup(p, m, k);
      var last := KeyOrder[m];
      PositionInKeyOrder(m);
      KeyAtPosition(k);
      NameInjective(k);
      if Wire(p, last).Some? {
        assert Emitted(p, KeyOrder[..n]) == Emitted(p, KeyOrder[..m]) + [(Name(last), Wire(p, last).value)];
        LookupAppend(Emitted(p, KeyOrder[..m]), Name(last), Wire(p, last).value, Name(k));
        assert Name(last) == Name(k) <==> Position(k) == m;
      } else {
        assert Emitted(p, KeyOrder[..n]) == Emitted(p, KeyOrder[..m]);
      }
    }
  }

  /** Reading any of the thirteen keys from the query gives exactly the value
      the client sends for it, and absence when it sends nothing. */
  lemma QueryLookup(p: SearchParameters, k: Key)
    ensures Lookup(QueryOf(p), Name(k)) == Wire(p, k)
  {
    PrefixLookup(p, |KeyOrder|, k);
    assert KeyOrder[..|KeyOrder|] == KeyOrder;
  }

  /** No other key is ever sent. */
  lemma QueryHasOnlyKnownKeys(p: SearchParameters, s: string)
    requires forall k :: Name(k) != s
    ensures Lookup(QueryOf(p), s) == None
  {
    LookupPresent(QueryOf(p), s);
    EmittedKeysWithin(p, KeyOrder);
    forall i | 0 <= i < |KeyOrder|
      ensures Names(KeyOrder)[i] != s
    {
    }
  }

  /** The keys of the query built from the first `n` keys all rank below `n`,
      and they appear in strictly increasing rank. */
  lemma {:induction false} PrefixOrdered(p: SearchParameters, n: nat)
    requires n <= |KeyOrder|
    ensures forall i :: 0 <= i < |Emitted(p, KeyOrder[..n])| ==> Rank(Emitted(p, KeyOrder[..n])[i].0) < n
    ensures forall i, j :: 0 <= i < j < |Emitted(p, KeyOrder[..n])| ==>
      Rank(Emitted(p, KeyOrder[..n])[i].0) < Rank(Emitted(p, KeyOrder[..n])[j].0)
  {
    if n > 0 {
      var m := n - 1;
      assert KeyOrder[..n][..m] == KeyOrder[..m];
      PrefixOrdered(p, m);
      var last := KeyOrder[m];
      PositionInKeyOrder(m);
      RankOfName(last);
    }
  }

  /** The query lists its keys in the order the client assigns them, so no
      key occurs twice. */
  lemma QueryOrdered(p: SearchParameters)
    ensures forall i, j :: 0 <= i < j < |QueryOf(p)| ==> Rank(QueryOf(p)[i].0) < Rank(QueryOf(p)[j].0)
    ensures forall i, j :: 0 <= i < j < |QueryOf(p)| ==> QueryOf(p)[i].0 != QueryOf(p)[j].0
  {
    PrefixOrdered(p, |KeyOrder|);
    assert KeyOrder[..|KeyOrder|] == KeyOrder;
  }

  /** The query built from fewer keys is a prefix of the one built from more. */
  lemma {:induction false} PrefixGrows(p: SearchParameters, m: nat, n: nat)
    requires m <= n <= |KeyOrder|
    ensures Emitted(p, KeyOrder[..m]) <= Emitted(p, KeyOrder[..n])
  {
    if m < n {
      PrefixGrows(p, m, n - 1);
      assert KeyOrder[..n][..n - 1] == KeyOrder[..n - 1];
    }
  }

  /** `format=json` is always the first pair. */
  lemma FormatFirst(p: SearchParameters)
    ensures |QueryOf(p)| >= 1 && QueryOf(p)[0] == ("format", "json")
  {
    PrefixGrows(p, 1, |KeyOrder|);
    assert KeyOrder[..|KeyOrder|] == KeyOrder;
    assert KeyOrder[..1][..0] == [];
  }

  // ---------------------------------------------------------------------------
  // A falsy field is the same as an absent one
  // ---------------------------------------------------------------------------

  function DropEmpty(s: Option<string>): Option<string>
  {
    if s == Some("") then None else s
  }

  /** The parameters with every field that JavaScript finds falsy (an empty
      string, a zero limit, `false`) made absent. */
  function WithoutFalsy(p: SearchParameters): SearchParameters
  {
    p.(Query := DropEmpty(p.Query), Street := DropEmpty(p.Street), City := DropEmpty(p.City),
       County := DropEmpty(p.County), State := DropEmpty(p.State), Country := DropEmpty(p.Country),
       PostalCode := DropEmpty(p.PostalCode),
       Limit := if p.Limit == Some(0) then None else p.Limit,
       IncludeAddress := if p.IncludeAddress == Some(false) then None else p.IncludeAddress,
       IncludeGeoJSON := if p.IncludeGeoJSON == Some(false) then None else p.IncludeGeoJSON)
  }

  /** Parameters that send the same value for every key give the same query. */
  lemma {:induction false} EmittedAgree(p: SearchParameters, p': SearchParameters, ks: seq<Key>)
    requires forall k :: Wire(p, k) == Wire(p', k)
    ensures Emitted(p, ks) == Emitted(p', ks)
  {
    if ks != [] {
      EmittedAgree(p, p', ks[..|ks| - 1]);
    }
  }

  /** Making the falsy fields absent does not change the query. */
  lemma FalsyIsAbsent(p: SearchParameters)
    ensures QueryOf(WithoutFalsy(p)) == QueryOf(p)
  {
    forall k
      ensures Wire(WithoutFalsy(p), k) == Wire(p, k)
    {
    }
    EmittedAgree(WithoutFalsy(p), p, KeyOrder);
  }

  // ---------------------------------------------------------------------------
  // Field by field
  // ---------------------------------------------------------------------------

  /** Each address field is sent, unchanged, exactly when it is a non-empty
      string. */
  lemma AddressFieldsSent(p: SearchParameters)
    ensures Lookup(QueryOf(p), "q") == if TruthyText(p.Query) then p.Query else None
    ensures Lookup(QueryOf(p), "street") == if TruthyText(p.Street) then p.Street else None
    ensures Lookup(QueryOf(p), "city") == if TruthyText(p.City) then p.City else None
    ensures Lookup(QueryOf(p), "county") == if TruthyText(p.County) then p.County else None
    ensures Lookup(QueryOf(p), "state") == if TruthyText(p.State) then p.State else None
    ensures Lookup(QueryOf(p), "country") == if TruthyText(p.Country) then p.Country else None
    ensures Lookup(QueryOf(p), "postalcode") == if TruthyText(p.PostalCode) then p.PostalCode else None
  {
    QueryLookup(p, Q);
    QueryLookup(p, Street);
    QueryLookup(p, City);
    QueryLookup(p, County);
    QueryLookup(p, State);
    QueryLookup(p, Country);
    QueryLookup(p, PostalCode);
  }

  /** The limit is sent exactly when it is non-zero, in a form that reads back
      as the limit, with a minus sign exactly when it is negative. */
  lemma LimitSent(p: SearchParameters)
    ensures Lookup(QueryOf(p), "limit").Some? <==> TruthyNumber(p.Limit)
    ensures TruthyNumber(p.Limit) ==>
      var v := Lookup(QueryOf(p), "limit").value;
      ParseDecimal(v) == p.Limit && v != [] && (v[0] == '-' <==> p.Limit.value < 0)
  {
    QueryLookup(p, Limit);
    if TruthyNumber(p.Limit) {
      DecimalRoundTrip(p.Limit.value);
      DecimalShape(p.Limit.value);
    }
  }

  /** The country codes are sent whenever the array is given, even empty; an
      empty array sends the empty string, and codes free of commas can be
      split back into the array given. */
  lemma CountryCodesSent(p: SearchParameters)
    ensures Lookup(QueryOf(p), "countrycodes").Some? <==> p.CountryCodes.Some?
    ensures p.CountryCodes == Some([]) ==> Lookup(QueryOf(p), "countrycodes") == Some("")
    ensures p.CountryCodes.Some? && p.CountryCodes.value != [] &&
            (forall i :: 0 <= i < |p.CountryCodes.value| ==> ',' !in p.CountryCodes.value[i]) ==>
      var v := Lookup(QueryOf(p), "countrycodes").value;
      Split(v, ',') == p.CountryCodes.value && Occurrences(v, ',') == |p.CountryCodes.value| - 1
  {
    QueryLookup(p, CountryCodes);
    if p.CountryCodes.Some? && p.CountryCodes.value != [] &&
       (forall i :: 0 <= i < |p.CountryCodes.value| ==> ',' !in p.CountryCodes.value[i]) {
      SplitJoin(p.CountryCodes.value, ',');
      JoinSeparatorCount(p.CountryCodes.value, ',');
    }
  }

  /** The viewbox is sent whenever the array is given, even empty; a non-empty
      one splits at its commas into one piece per number, each reading back
      as that number. */
  lemma ViewboxSent(p: SearchParameters)
    ensures Lookup(QueryOf(p), "viewbox").Some? <==> p.Viewbox.Some?
    ensures p.Viewbox == Some([]) ==> Lookup(QueryOf(p), "viewbox") == Some("")
    ensures p.Viewbox.Some? && p.Viewbox.value != [] ==>
      var v := Lookup(QueryOf(p), "viewbox").value;
      var pieces := Split(v, ',');
      Occurrences(v, ',') == |p.Viewbox.value| - 1 && |pieces| == |p.Viewbox.value| &&
      forall i :: 0 <= i < |pieces| ==> ParseDecimal(pieces[i]) == Some(p.Viewbox.value[i])
  {
    QueryLookup(p, Viewbox);
    if p.Viewbox.Some? && p.Viewbox.value != [] {
      JoinedDecimalsRoundTrip(p.Viewbox.value);
    }
  }

  /** A feature flag sends "1" when it is true and nothing otherwise: "0" is
      never sent. */
  lemma FeaturesSent(p: SearchParameters)
    ensures Lookup(QueryOf(p), "addressdetails") == if p.IncludeAddress == Some(true) then Some("1") else None
    ensures Lookup(QueryOf(p), "polygon_geojson") == if p.IncludeGeoJSON == Some(true) then Some("1") else None
  {
    QueryLookup(p, AddressDetails);
    QueryLookup(p, PolygonGeoJson);
  }

  /** `format` is always sent, as `json`. */
  lemma FormatSent(p: SearchParameters)
    ensures Lookup(QueryOf(p), "format") == Some("json")
  {
    QueryLookup(p, Format);
  }

  // ---------------------------------------------------------------------------
  // Examples
  // ---------------------------------------------------------------------------

  /** A 404 response fails with the status in the message. */
  lemma NotFoundFails()
    ensures CheckStatus(404) == Fail("Status code is not 200: 404")
  {
    assert DigitChar(4) == '4' && DigitChar(0) == '0';
    assert NatDigits(4) == "4";
    assert NatDigits(40) == "40";
    assert NatDigits(404) == "404";
    assert DecimalString(404) == "404";
    assert CheckStatus(404) == Fail(StatusPrefix + "404");
    assert StatusPrefix + "404" == "Status code is not 200: 404";
  }
}
