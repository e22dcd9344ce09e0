/** helpers/getApiUrl.ts: the earlier API URL builder. It appends the configured
    key and then every parameter, falsy or not, and has no language parameter. */
module LegacyApiUrl {
  import opened Urls
  import opened Wrappers
  import GetUrl

  /** The URL the legacy getApiUrl returns: `api_key`, then every parameter in
      order; `None` (null) for a present but empty map. */
  function ApiUrl(apiPath: string, params: Option<Params>, apiKey: string): (r: Option<RequestUrl>)
    ensures r.None? <==> params == Some([])
    ensures r.Some? ==> r.value.endpoint == ApiBaseUrl + apiPath
    ensures r.Some? ==> |r.value.query| >= 1 && r.value.query[0] == ("api_key", apiKey)
  {
    if params == Some([]) then None
    else
      Some(RequestUrl(ApiBaseUrl + apiPath,
                      if params.Some? then [("api_key", apiKey)] + RenderedParams(params.value) else [("api_key", apiKey)]))
  }

  /** getApiUrl; `apiKey` is the configured `configs.API_KEY`. */
  method GetApiUrl(apiPath: string, params: Option<Params>, apiKey: string) returns (r: Option<RequestUrl>)
    ensures r == ApiUrl(apiPath, params, apiKey)
  {
    var query := [("api_key", apiKey)];
    if params.Some? {
      var entries := params.value;
      if |entries| == 0 {
        return None;
      }
      for i := 0 to |entries|
        invariant query == [("api_key", apiKey)] + RenderedParams(entries[..i])
      {
        var (key, value) := entries[i];
        assert entries[..i + 1] == entries[..i] + [(key, value)];
        RenderedParamsConcat(entries[..i], [(key, value)]);
        query := query + [(key, Rendered(value))];
      }
      assert entries[..|entries|] == entries;
    }
    r := Some(RequestUrl(ApiBaseUrl + apiPath, query));
  }

  /** The query is the key and then one entry per parameter, falsy values
      included; there is never a language entry. */
  lemma ApiUrlQueryShape(apiPath: string, params: Params, apiKey: string)
    requires params != []
    ensures var u := ApiUrl(apiPath, Some(params), apiKey).value;
      && u.endpoint == ApiBaseUrl + apiPath
      && |u.query| == |params| + 1 && u.query[0] == ("api_key", apiKey)
      && forall i :: 0 <= i < |params| ==> u.query[i + 1] == (params[i].0, Rendered(params[i].1))
  {
  }

  /** Without a parameter map the query is the key alone. */
  lemma ApiUrlWithoutParams(apiPath: string, apiKey: string)
    ensures ApiUrl(apiPath, None, apiKey) == Some(RequestUrl(ApiBaseUrl + apiPath, [("api_key", apiKey)]))
  {
  }

  /** Putting `b` after the first entry of `[a] + rest`. */
  lemma InsertSecond<T>(a: T, b: T, rest: seq<T>)
    ensures [a, b] + rest == ([a] + rest)[..1] + [b] + ([a] + rest)[1..]
  {
    assert ([a] + rest)[..1] == [a] && ([a] + rest)[1..] == rest;
  }

  /** Where the two builders differ: on the same parameters and key, the current
      one inserts the language after the key, and the two agree on the rest
      exactly when no value is falsy. */
  lemma AgreesWithCurrentBuilder(apiPath: string, params: Params, apiKey: string, language: string)
    requires params != []
    ensures var legacy := ApiUrl(apiPath, Some(params), apiKey).value;
      var current := GetUrl.ApiUrl(apiPath, Some(params), Some(apiKey), language).value;
      && legacy.endpoint == current.endpoint
      && (current.query == legacy.query[..1] + [("language", language)] + legacy.query[1..]
          <==> forall i :: 0 <= i < |params| ==> IsTruthy(params[i].1))
  {
    if forall i :: 0 <= i < |params| ==> IsTruthy(params[i].1) {
      GetUrl.AppendedParamsAllTruthy(params);
      InsertSecond(("api_key", apiKey), ("language", language), RenderedParams(params));
    } else {
      GetUrl.AppendedParamsDropsFalsy(params);
      var legacy := ApiUrl(apiPath, Some(params), apiKey).value;
      var current := GetUrl.ApiUrl(apiPath, Some(params), Some(apiKey), language).value;
      assert |current.query| < |legacy.query| + 1;
    }
  }
}
