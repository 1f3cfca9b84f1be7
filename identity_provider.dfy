/**
 * Conversion of a stored identity-provider record into the security layer's
 * identity provider: three fields are copied and the record's entity tag
 * becomes the provider's version, with every leading and trailing double
 * quote removed (the `Trim('"')` of .NET strings).
 *
 * An HTTP entity tag is a quoted string (`opaque-tag = DQUOTE *etagc DQUOTE`,
 * section 8.8.3 of RFC 9110); the lemmas below say what trimming does to one.
 */
module CosmosIdentityProviders {

  const Quote: char := '"'

  /** The record as the document store keeps it. */
  datatype CosmosIdentityProvider = CosmosIdentityProvider(
    name: string,
    authority: string,
    audience: string,
    eTag: string)

  /** The identity provider handed to the security layer. */
  datatype IdentityProvider = IdentityProvider(
    name: string,
    authority: string,
    audience: string,
    version: string)

  predicate NoQuoteAtEnds(s: string) {
    s == [] || (s[0] != Quote && s[|s| - 1] != Quote)
  }

  /** Every character of `s` from index `lo` up to (not including) `hi` is a quote. */
  predicate QuotesBetween(s: string, lo: nat, hi: nat)
    requires lo <= hi <= |s|
  {
    forall k :: lo <= k < hi ==> s[k] == Quote
  }

  /** `TrimStart('"')`: drops the longest prefix made only of quotes. */
  function TrimStart(s: string): (r: string)
    ensures |r| <= |s| && r == s[|s| - |r|..]
    ensures QuotesBetween(s, 0, |s| - |r|)
    ensures r == [] || r[0] != Quote
  {
    if |s| > 0 && s[0] == Quote then TrimStart(s[1..]) else s
  }

  /** `TrimEnd('"')`: drops the longest suffix made only of quotes. */
  function TrimEnd(s: string): (r: string)
    ensures |r| <= |s| && r == s[..|r|]
    ensures QuotesBetween(s, |r|, |s|)
    ensures r == [] || r[|r| - 1] != Quote
  {
    if |s| > 0 && s[|s| - 1] == Quote then TrimEnd(s[..|s| - 1]) else s
  }

  /** `Trim('"')`: drops the quotes at both ends; what is left has no quote at either end. */
  function Trim(s: string): (r: string)
    ensures |r| <= |s|
    ensures NoQuoteAtEnds(r)
  {
    TrimEnd(TrimStart(s))
  }

  /** The number of quotes `Trim` drops at the front. */
  function LeadingQuotes(s: string): (n: nat)
    ensures n <= |s|
  {
    |s| - |TrimStart(s)|
  }

  /**
   * `v` is the contiguous slice of `e` that starts after the leading quotes,
   * only quotes precede it and only quotes follow it, and it has no quote at
   * either end.
   */
  predicate IsTrimmedSlice(v: string, e: string) {
    var i := LeadingQuotes(e);
    i + |v| <= |e| && v == e[i..i + |v|] &&
    QuotesBetween(e, 0, i) && QuotesBetween(e, i + |v|, |e|) &&
    NoQuoteAtEnds(v)
  }

  /** `Trim(s)` is that slice of `s`. */
  lemma TrimIsSlice(s: string)
    ensures IsTrimmedSlice(Trim(s), s)
  {
    var t, r := TrimStart(s), Trim(s);
    var i := LeadingQuotes(s);
    assert t == s[i..] && r == t[..|r|];
    assert r == s[i..i + |r|] by {
      assert s[i..][..|r|] == s[i..i + |r|];
    }
    assert QuotesBetween(s, i + |r|, |s|) by {
      assert QuotesBetween(t, |r|, |t|);
      forall k | i + |r| <= k < |s| ensures s[k] == Quote {
        assert s[k] == t[k - i];
      }
    }
  }

  /** The conversion: name, authority and audience are copied, the version is the trimmed entity tag. */
  function ToIdentityProvider(p: CosmosIdentityProvider): (r: IdentityProvider)
    ensures r.name == p.name && r.authority == p.authority && r.audience == p.audience
    ensures |r.version| <= |p.eTag|
    ensures IsTrimmedSlice(r.version, p.eTag)
  {
    TrimIsSlice(p.eTag);
    IdentityProvider(p.name, p.authority, p.audience, Trim(p.eTag))
  }

  /**
   * Uniqueness: whenever `s` splits into quotes, a middle part with no quote at
   * either end, and quotes, trimming yields exactly that middle part. Together
   * with the ensures of `Trim` this pins `Trim` down completely.
   */
  lemma TrimIsTheQuoteFreeCore(s: string, i: nat, j: nat)
    requires i <= j <= |s|
    requires QuotesBetween(s, 0, i) && QuotesBetween(s, j, |s|)
    requires NoQuoteAtEnds(s[i..j])
    ensures Trim(s) == s[i..j]
  {
    TrimIsSlice(s);
    var r := Trim(s);
    var a := LeadingQuotes(s);
    var b := a + |r|;
    if i == j {
      // s is made only of quotes, and nothing survives
    } else {
      // s[i] is the first character that is not a quote, s[j - 1] the last
      assert s[i] == s[i..j][0] && s[j - 1] == s[i..j][j - i - 1];
      assert a == i;
      assert b == j;
    }
  }

  /** Only quotes are removed: an entity tag without a quote at either end is kept whole, interior quotes included. */
  lemma TrimUnchangedIff(s: string)
    ensures Trim(s) == s <==> NoQuoteAtEnds(s)
  {
    if NoQuoteAtEnds(s) {
      assert s[0..|s|] == s;
      TrimIsTheQuoteFreeCore(s, 0, |s|);
    }
  }

  /** Trimming twice is trimming once. */
  lemma TrimIdempotent(s: string)
    ensures Trim(Trim(s)) == Trim(s)
  {
    TrimUnchangedIff(Trim(s));
  }

  /** A strong entity tag `"s"`, with `s` free of quotes at its ends, becomes `s`. */
  lemma TrimStrongEntityTag(s: string)
    requires NoQuoteAtEnds(s)
    ensures Trim([Quote] + s + [Quote]) == s
  {
    var e := [Quote] + s + [Quote];
    assert e[0] == Quote && e[1 + |s|] == Quote && e[1..1 + |s|] == s;
    TrimIsTheQuoteFreeCore(e, 1, 1 + |s|);
  }

  /**
   * A weak entity tag `W/"s"`, with `s` non-empty and not ending in a quote,
   * loses only its closing quote: the version keeps the `W/` prefix and the
   * opening quote.
   */
  lemma TrimWeakEntityTag(s: string)
    requires s != [] && s[|s| - 1] != Quote
    ensures Trim("W/" + [Quote] + s + [Quote]) == "W/" + [Quote] + s
  {
    var e := "W/" + [Quote] + s + [Quote];
    var n := 3 + |s|;
    assert e[n] == Quote && e[0..n] == "W/" + [Quote] + s;
    TrimIsTheQuoteFreeCore(e, 0, n);
  }
}
