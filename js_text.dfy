/**
 * The two JavaScript built-ins the query builder relies on, for the values it
 * passes them: `Array.prototype.join` over strings, and `Number.prototype.toString`
 * (radix 10) over integers of magnitude at most 2^53.  `Split` and
 * `ParseDecimal` are their reference inverses; they are not called by the
 * client and exist so that contracts can say that the text written determines
 * what was joined or rendered.
 */
module JsText {
  import opened Wrappers

  /** Sum of the lengths of `parts`. */
  function TotalLength(parts: seq<string>): nat
  {
    if parts == [] then 0 else |parts[0]| + TotalLength(parts[1..])
  }

  /** Number of occurrences of `c` in `s`. */
  function Occurrences(s: string, c: char): nat
  {
    if s == [] then 0 else (if s[0] == c then 1 else 0) + Occurrences(s[1..], c)
  }

  /** `parts.join(sep)`: the elements in order, with `sep` between neighbours.
      No elements give the empty string and one element gives that element
      unchanged. */
  function Join(parts: seq<string>, sep: string): (r: string)
    ensures parts == [] ==> r == ""
    ensures |parts| == 1 ==> r == parts[0]
  {
    if parts == [] then ""
    else if |parts| == 1 then parts[0]
    else parts[0] + sep + Join(parts[1..], sep)
  }

  /** The joined string holds every part and `|parts| - 1` separators. */
  lemma {:induction false} JoinLength(parts: seq<string>, sep: string)
    requires parts != []
    ensures |Join(parts, sep)| + |sep| == TotalLength(parts) + |parts| * |sep|
  {
    if |parts| > 1 {
      JoinLength(parts[1..], sep);
    }
  }

  /** Splitting at every `c`, as `s.split(c)` does for a one-character
      separator: the empty string gives one empty piece, and there is always
      one piece more than there are separators. */
  function Split(s: string, c: char): (r: seq<string>)
    ensures |r| == Occurrences(s, c) + 1
    ensures forall i :: 0 <= i < |r| ==> c !in r[i]
  {
    if s == [] then [""]
    else
      var rest := Split(s[1..], c);
      if s[0] == c then [""] + rest
      else [[s[0]] + rest[0]] + rest[1..]
  }

  lemma {:induction false} SplitWithoutSeparator(a: string, c: char)
    requires c !in a
    ensures Split(a, c) == [a]
  {
    if a != [] {
      SplitWithoutSeparator(a[1..], c);
      assert [a[0]] + a[1..] == a;
    }
  }

  lemma {:induction false} SplitAtFirstSeparator(a: string, b: string, c: char)
    requires c !in a
    ensures Split(a + [c] + b, c) == [a] + Split(b, c)
  {
    var s := a + [c] + b;
    if a == [] {
      assert s[1..] == b;
    } else {
      assert s[1..] == a[1..] + [c] + b;
      SplitAtFirstSeparator(a[1..], b, c);
      assert [s[0]] + a[1..] == a;
    }
  }

  /** Joining with a one-character separator that occurs in none of the parts
      can be undone: the parts are recovered exactly, in order.  (With no parts
      at all it cannot: `Join([], ",")` and `Join([""], ",")` are both "".) */
  lemma {:induction false} SplitJoin(parts: seq<string>, c: char)
    requires parts != []
    requires forall i :: 0 <= i < |parts| ==> c !in parts[i]
    ensures Split(Join(parts, [c]), c) == parts
  {
    if |parts| == 1 {
      SplitWithoutSeparator(parts[0], c);
    } else {
      SplitJoin(parts[1..], c);
      SplitAtFirstSeparator(parts[0], Join(parts[1..], [c]), c);
      assert [parts[0]] + parts[1..] == parts;
    }
  }

  /** n parts joined with a separator that none of them contains hold exactly
      n - 1 separators: one part gives none. */
  lemma JoinSeparatorCount(parts: seq<string>, c: char)
    requires parts != []
    requires forall i :: 0 <= i < |parts| ==> c !in parts[i]
    ensures Occurrences(Join(parts, [c]), c) == |parts| - 1
  {
    SplitJoin(parts, c);
  }

  predicate IsDigits(s: string)
  {
    forall i :: 0 <= i < |s| ==> '0' <= s[i] <= '9'
  }

  function DigitChar(d: nat): (c: char)
    requires d < 10
    ensures '0' <= c <= '9'
  {
    (48 + d) as char
  }

  /** The decimal digits of `n`, most significant first, with no leading zero:
      the first digit is '0' only for zero itself. */
  function NatDigits(n: nat): (r: string)
    ensures r != [] && IsDigits(r)
    ensures r[0] == '0' <==> n == 0
    ensures n == 0 <==> r == "0"
  {
    if n < 10 then [DigitChar(n)] else NatDigits(n / 10) + [DigitChar(n % 10)]
  }

  /** `n.toString()` for an integer `n` with |n| <= 2^53.  Beyond that the two
      differ: JavaScript rounds to a double and writes the shortest digits
      that identify it, padded with zeros. */
  function DecimalString(n: int): string
  {
    if n < 0 then "-" + NatDigits(-n) else NatDigits(n)
  }

  /** A '-' exactly when `n` is negative, followed by the digits of its
      magnitude. */
  lemma DecimalShape(n: int)
    ensures DecimalString(n) != []
    ensures DecimalString(n)[0] == '-' <==> n < 0
    ensures IsDigits(if n < 0 then DecimalString(n)[1..] else DecimalString(n))
  {
    if n < 0 {
      assert DecimalString(n)[1..] == NatDigits(-n);
    }
  }

  /** `xs.map(x => x.toString())`, the conversion `join` applies to numbers. */
  function DecimalStrings(xs: seq<int>): (r: seq<string>)
    ensures |r| == |xs|
  {
    seq(|xs|, i requires 0 <= i < |xs| => DecimalString(xs[i]))
  }

  /** Value of a string of decimal digits. */
  function DigitsValue(s: string): nat
    requires IsDigits(s)
  {
    if s == [] then 0 else 10 * DigitsValue(s[..|s| - 1]) + (s[|s| - 1] as int - 48)
  }

  /** Reads an optionally signed decimal integer; anything else is `None`. */
  function ParseDecimal(s: string): Option<int>
  {
    if |s| > 1 && s[0] == '-' && IsDigits(s[1..]) then Some(-(DigitsValue(s[1..]) as int))
    else if s != [] && IsDigits(s) then Some(DigitsValue(s))
    else None
  }

  lemma {:induction false} NatDigitsValue(n: nat)
    ensures DigitsValue(NatDigits(n)) == n
  {
    if n >= 10 {
      var r := NatDigits(n);
      NatDigitsValue(n / 10);
      assert r[..|r| - 1] == NatDigits(n / 10);
    }
  }

  /** The decimal rendering of an integer reads back as that integer. */
  lemma DecimalRoundTrip(n: int)
    ensures ParseDecimal(DecimalString(n)) == Some(n)
  {
    var r := DecimalString(n);
    if n < 0 {
      NatDigitsValue(-n);
      assert r[1..] == NatDigits(-n);
    } else {
      NatDigitsValue(n);
    }
  }

  /** Different integers never render alike. */
  lemma DecimalInjective(a: int, b: int)
    requires DecimalString(a) == DecimalString(b)
    ensures a == b
  {
    DecimalRoundTrip(a);
    DecimalRoundTrip(b);
  }

  /** A rendered integer contains no comma, so it is safe to join with one. */
  lemma DecimalHasNoComma(n: int)
    ensures ',' !in DecimalString(n)
  {
    var r := DecimalString(n);
    forall i | 0 <= i < |r|
      ensures r[i] != ','
    {
      if n < 0 && i > 0 {
        assert r[i] == r[1..][i - 1];
      }
    }
  }

  /** A comma-joined list of integers reads back element by element. */
  lemma JoinedDecimalsRoundTrip(xs: seq<int>)
    requires xs != []
    ensures var pieces := Split(Join(DecimalStrings(xs), ","), ',');
            |pieces| == |xs| &&
            forall i :: 0 <= i < |xs| ==> ParseDecimal(pieces[i]) == Some(xs[i])
  {
    var ds := DecimalStrings(xs);
    forall i | 0 <= i < |ds|
      ensures ',' !in ds[i] && ParseDecimal(ds[i]) == Some(xs[i])
    {
      DecimalHasNoComma(xs[i]);
      DecimalRoundTrip(xs[i]);
    }
    SplitJoin(ds, ',');
  }
}
