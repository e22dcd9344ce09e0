/** helpers/getUrl.ts: image and YouTube URLs, and the API URL builder with a
    language parameter that skips falsy parameter values. */
module GetUrl {
  import opened Wrappers
  import opened Urls
  import ArrayOps
  import Numbers

  /** What every image URL of the given size starts with. */
  function ImagePrefix(size: string): string {
    ImageBaseUrl + "/" + size
  }

  /** getImageUrl: `path` is `None` for `null` or `undefined`; an empty or missing
      path gives "", any other path is appended to the base URL and size. */
  function ImageUrl(path: Option<string>, size: string := "w500"): (r: string)
    ensures r == "" <==> path.None? || path.value == ""
    ensures r != "" ==> |ImagePrefix(size)| < |r| && r[..|ImagePrefix(size)|] == ImagePrefix(size)
    ensures r != "" ==> r[|ImagePrefix(size)|..] == path.value
  {
    if path.None? || path.value == "" then "" else ImageBaseUrl + "/" + size + path.value
  }

  /** For one size, an image URL names a single path. */
  lemma ImageUrlInjective(p: Option<string>, q: Option<string>, size: string)
    requires ImageUrl(p, size) == ImageUrl(q, size) != ""
    ensures p == q
  {
  }

  /** getYoutubeUrl */
  function YoutubeUrl(id: string): (r: string)
    ensures |r| == |YoutubeWatchPrefix| + |id|
    ensures r[..|YoutubeWatchPrefix|] == YoutubeWatchPrefix && r[|YoutubeWatchPrefix|..] == id
  {
    YoutubeWatchPrefix + id
  }

  /** The video id can be read back from the URL. */
  lemma YoutubeUrlInjective(a: string, b: string)
    requires YoutubeUrl(a) == YoutubeUrl(b)
    ensures a == b
  {
    assert a == YoutubeUrl(a)[|YoutubeWatchPrefix|..];
  }

  /** `process.env.API_KEY || ""`: the configured key, or "" when it is unset. */
  function ApiKeyOf(envApiKey: Option<string>): (r: string)
    ensures r == "" <==> envApiKey.None? || envApiKey.value == ""
    ensures r != "" ==> r == envApiKey.value
  {
    if envApiKey.Some? then envApiKey.value else ""
  }

  predicate IsTruthyEntry(p: (string, ParamValue)) {
    IsTruthy(p.1)
  }

  /** The query entry a parameter adds: none for a falsy value, otherwise its
      key and rendered value. */
  function EntryOf(p: (string, ParamValue)): seq<(string, string)> {
    if IsTruthy(p.1) then [(p.0, Rendered(p.1))] else []
  }

  /** The query entries the parameter loop appends, parameter by parameter. */
  function AppendedParams(params: Params): (q: seq<(string, string)>)
    ensures |q| <= |params|
    ensures forall i :: 0 <= i < |q| ==> q[i].1 != ""
  {
    if params == [] then [] else EntryOf(params[0]) + AppendedParams(params[1..])
  }

  /** The loop appends exactly the parameters a `filter` on truthy values keeps,
      rendered, in their order. */
  lemma {:induction false} AppendedParamsIsFilter(params: Params)
    ensures AppendedParams(params) == RenderedParams(ArrayOps.Filter(params, IsTruthyEntry))
  {
    if params != [] {
      AppendedParamsIsFilter(params[1..]);
      var rest := ArrayOps.Filter(params[1..], IsTruthyEntry);
      if IsTruthyEntry(params[0]) {
        assert ArrayOps.Filter(params, IsTruthyEntry) == [params[0]] + rest;
        RenderedParamsConcat([params[0]], rest);
      }
    }
  }

  /** One more parameter appends one entry when its value is truthy, none otherwise. */
  lemma {:induction false} AppendedParamsSnoc(params: Params, key: string, value: ParamValue)
    ensures AppendedParams(params + [(key, value)])
         == AppendedParams(params) + (if IsTruthy(value) then [(key, Rendered(value))] else [])
  {
    if params == [] {
      assert params + [(key, value)] == [(key, value)];
      assert [(key, value)][1..] == [];
    } else {
      assert (params + [(key, value)])[0] == params[0];
      assert (params + [(key, value)])[1..] == params[1..] + [(key, value)];
      AppendedParamsSnoc(params[1..], key, value);
    }
  }

  /** A falsy value appends nothing, so the query is shorter than the parameter list. */
  lemma {:induction false} AppendedParamsDropsFalsy(params: Params)
    requires exists i :: 0 <= i < |params| && !IsTruthy(params[i].1)
    ensures |AppendedParams(params)| < |params|
  {
    if IsTruthy(params[0].1) {
      var i :| 0 <= i < |params| && !IsTruthy(params[i].1);
      assert params[1..][i - 1] == params[i];
      AppendedParamsDropsFalsy(params[1..]);
    }
  }

  /** When no value is falsy, every parameter is appended. */
  lemma AppendedParamsAllTruthy(params: Params)
    requires forall i :: 0 <= i < |params| ==> IsTruthy(params[i].1)
    ensures AppendedParams(params) == RenderedParams(params)
  {
    AppendedParamsIsFilter(params);
    ArrayOps.FilterKeepsAll(params, IsTruthyEntry);
  }

  /** The URL getApiUrl returns: `api_key` and `language` first, then the
      parameters' entries; `None` (null) for a present but empty map. */
  function ApiUrl(apiPath: string, params: Option<Params>, envApiKey: Option<string>, language: string): (r: Option<RequestUrl>)
    ensures r.None? <==> params == Some([])
    ensures r.Some? ==> r.value.endpoint == ApiBaseUrl + apiPath
    ensures r.Some? ==> |r.value.query| >= 2 && r.value.query[0] == ("api_key", ApiKeyOf(envApiKey))
                                             && r.value.query[1] == ("language", language)
  {
    if params == Some([]) then None
    else
      var head := [("api_key", ApiKeyOf(envApiKey)), ("language", language)];
      Some(RequestUrl(ApiBaseUrl + apiPath, if params.Some? then head + AppendedParams(params.value) else head))
  }

  /** The loop step: parameter `i` appends its entry to those of the ones before it. */
  lemma AppendedParamsStep(entries: Params, i: nat)
    requires i < |entries|
    ensures AppendedParams(entries[..i + 1])
         == AppendedParams(entries[..i]) + (if IsTruthy(entries[i].1) then [(entries[i].0, Rendered(entries[i].1))] else [])
  {
    assert entries[..i + 1] == entries[..i] + [(entries[i].0, entries[i].1)];
    AppendedParamsSnoc(entries[..i], entries[i].0, entries[i].1);
  }

  /** The parameter loop of getApiUrl: appends each parameter with a truthy value. */
  method AppendParams(head: seq<(string, string)>, entries: Params) returns (query: seq<(string, string)>)
    ensures query == head + AppendedParams(entries)
  {
    query := head;
    for i := 0 to |entries|
      invariant query == head + AppendedParams(entries[..i])
    {
      AppendedParamsStep(entries, i);
      if IsTruthy(entries[i].1) {
        query := query + [(entries[i].0, Rendered(entries[i].1))];
      }
    }
    assert entries[..|entries|] == entries;
  }

  /** getApiUrl */
  method GetApiUrl(apiPath: string, params: Option<Params>, envApiKey: Option<string>, language: string := "zh-TW")
    returns (r: Option<RequestUrl>)
    ensures r == ApiUrl(apiPath, params, envApiKey, language)
  {
    var query := [("api_key", ApiKeyOf(envApiKey)), ("language", language)];
    if params.Some? {
      if |params.value| == 0 {
        return None;
      }
      query := AppendParams(query, params.value);
    }
    r := Some(RequestUrl(ApiBaseUrl + apiPath, query));
  }

  /** Without a parameter map the query is exactly the key and the language. */
  lemma ApiUrlWithoutParams(apiPath: string, envApiKey: Option<string>, language: string)
    ensures ApiUrl(apiPath, None, envApiKey, language)
         == Some(RequestUrl(ApiBaseUrl + apiPath, [("api_key", ApiKeyOf(envApiKey)), ("language", language)]))
  {
  }

  /** A search query and a page number, both truthy, follow the key and the
      language in that order; the page is rendered in decimal. */
  lemma ApiUrlSearchQuery(apiPath: string, envApiKey: Option<string>, language: string, query: string, page: int)
    requires query != "" && page != 0
    ensures ApiUrl(apiPath, Some([("query", Text(query)), ("page", Number(page))]), envApiKey, language)
         == Some(RequestUrl(ApiBaseUrl + apiPath,
              [("api_key", ApiKeyOf(envApiKey)), ("language", language), ("query", query), ("page", Numbers.IntToString(page))]))
  {
    var ps: Params := [("query", Text(query)), ("page", Number(page))];
    assert ps != [];
    AppendedParamsAllTruthy(ps);
    var rendered := RenderedParams(ps);
    assert rendered[0] == ("query", query) && rendered[1] == ("page", Numbers.IntToString(page));
    assert rendered == [("query", query), ("page", Numbers.IntToString(page))];
    var head := [("api_key", ApiKeyOf(envApiKey)), ("language", language)];
    assert ApiUrl(apiPath, Some(ps), envApiKey, language) == Some(RequestUrl(ApiBaseUrl + apiPath, head + rendered));
    assert head + rendered == [("api_key", ApiKeyOf(envApiKey)), ("language", language), ("query", query), ("page", Numbers.IntToString(page))];
  }
}
