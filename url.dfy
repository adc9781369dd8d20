/** Expansion of the plugin-base placeholder in asset and data URLs (lib/url.ts). */
module Url {

  /** The marker that stands for the plugin's base URL. */
  const Placeholder: string := "%{RARA_MAPS}"

  predicate StartsWith(s: string, prefix: string)
  {
    |prefix| <= |s| && s[..|prefix|] == prefix
  }

  /** `absUrl`: a URL that begins with the placeholder gets the base URL in its place;
      any other URL is returned as it is. */
  function AbsUrl(baseUrl: string, url: string): string
  {
    if StartsWith(url, Placeholder) then baseUrl + url[|Placeholder|..] else url
  }

  /** A leading placeholder is replaced by the base URL and the rest is kept verbatim,
      so any later occurrence of the placeholder survives. */
  lemma ExpandsLeadingPlaceholder(baseUrl: string, rest: string)
    ensures AbsUrl(baseUrl, Placeholder + rest) == baseUrl + rest
  {
    assert (Placeholder + rest)[..|Placeholder|] == Placeholder;
    assert (Placeholder + rest)[|Placeholder|..] == rest;
  }

  /** A URL that does not begin with the placeholder is left alone. */
  lemma KeepsOtherUrls(baseUrl: string, url: string)
    requires !StartsWith(url, Placeholder)
    ensures AbsUrl(baseUrl, url) == url
  {
  }

  /** Expanding twice gives what expanding once gives when the base URL is the placeholder
      itself, or when neither of the two begins with the other: the expanded URL then cannot
      begin with the placeholder again. */
  lemma IdempotentWithoutPrefix(baseUrl: string, url: string)
    requires baseUrl == Placeholder || (!StartsWith(baseUrl, Placeholder) && !StartsWith(Placeholder, baseUrl))
    ensures AbsUrl(baseUrl, AbsUrl(baseUrl, url)) == AbsUrl(baseUrl, url)
  {
    var once := AbsUrl(baseUrl, url);
    if StartsWith(url, Placeholder) && baseUrl != Placeholder {
      if |baseUrl| >= |Placeholder| {
        assert once[..|Placeholder|] == baseUrl[..|Placeholder|];
      } else {
        assert once[..|baseUrl|] == baseUrl;
      }
    }
  }

  /** The exact condition: expansion is idempotent on every URL if and only if the base URL is
      the placeholder or neither begins with the other. A base URL that extends the placeholder
      re-expands the bare placeholder; a proper prefix of it completes a second one. */
  lemma {:induction false} IdempotentExactly(baseUrl: string)
    ensures (forall url :: AbsUrl(baseUrl, AbsUrl(baseUrl, url)) == AbsUrl(baseUrl, url)) <==>
      (baseUrl == Placeholder || (!StartsWith(baseUrl, Placeholder) && !StartsWith(Placeholder, baseUrl)))
  {
    if baseUrl == Placeholder || (!StartsWith(baseUrl, Placeholder) && !StartsWith(Placeholder, baseUrl)) {
      forall url
        ensures AbsUrl(baseUrl, AbsUrl(baseUrl, url)) == AbsUrl(baseUrl, url)
      {
        IdempotentWithoutPrefix(baseUrl, url);
      }
    } else if StartsWith(baseUrl, Placeholder) {
      ExpandsLeadingPlaceholder(baseUrl, "");
      assert Placeholder + "" == Placeholder;
      var rest := baseUrl[|Placeholder|..];
      assert baseUrl == Placeholder + rest;
      ExpandsLeadingPlaceholder(baseUrl, rest);
      assert AbsUrl(baseUrl, AbsUrl(baseUrl, Placeholder)) != AbsUrl(baseUrl, Placeholder);
    } else {
      var tail := Placeholder[|baseUrl|..];
      ExpandsLeadingPlaceholder(baseUrl, tail);
      assert baseUrl + tail == Placeholder;
      ExpandsLeadingPlaceholder(baseUrl, "");
      assert Placeholder + "" == Placeholder;
      assert AbsUrl(baseUrl, AbsUrl(baseUrl, Placeholder + tail)) != AbsUrl(baseUrl, Placeholder + tail);
    }
  }

  /** Not beginning with the placeholder is not enough for idempotence: a base URL that is a
      proper prefix of the placeholder can complete a placeholder that follows the first one. */
  lemma ShortBaseBreaksIdempotence()
    ensures !StartsWith("%", Placeholder)
    ensures AbsUrl("%", "%{RARA_MAPS}{RARA_MAPS}") == "%{RARA_MAPS}"
    ensures AbsUrl("%", AbsUrl("%", "%{RARA_MAPS}{RARA_MAPS}")) == "%"
  {
    ExpandsLeadingPlaceholder("%", "{RARA_MAPS}");
    ExpandsLeadingPlaceholder("%", "");
    assert "%{RARA_MAPS}{RARA_MAPS}" == Placeholder + "{RARA_MAPS}";
    assert "%{RARA_MAPS}" == Placeholder + "";
  }
}
