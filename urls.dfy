/** What the URL builders share: the configured base URLs, query parameter
    values, and the URL a builder produces. A URL is kept as its endpoint
    (base URL and API path) and its ordered query list; how `URLSearchParams`
    percent-encodes that list into text (the application/x-www-form-urlencoded
    serialiser of the WHATWG URL Standard, section 5.2) is not modelled. */
module Urls {
  import Numbers

  /** The base URLs of the repository's `config` module, as its tests set them. */
  const ApiBaseUrl := "https://api.themoviedb.org/3"
  const ImageBaseUrl := "https://image.tmdb.org/t/p"

  const YoutubeWatchPrefix := "https://www.youtube.com/watch?v="

  /** A value of a `Record<string, string | number>` parameter map; numbers are integral. */
  datatype ParamValue = Text(text: string) | Number(number: int)

  /** A parameter map as `Object.entries` lists it. */
  type Params = seq<(string, ParamValue)>

  /** An API request URL: `new URL(base + path)` and its appended search parameters. */
  datatype RequestUrl = RequestUrl(endpoint: string, query: seq<(string, string)>)

  /** JavaScript truthiness of a parameter value: "" and 0 are falsy. */
  predicate IsTruthy(v: ParamValue) {
    match v
    case Text(s) => s != ""
    case Number(n) => n != 0
  }

  /** A value as a query string holds it: a string as it is, a number through
      `toString()`. */
  function Rendered(v: ParamValue): string {
    match v
    case Text(s) => s
    case Number(n) => Numbers.IntToString(n)
  }

  /** The query entries for a list of parameters, one per parameter, in order. */
  function RenderedParams(params: Params): (q: seq<(string, string)>)
    ensures |q| == |params|
    ensures forall i :: 0 <= i < |params| ==> q[i] == (params[i].0, Rendered(params[i].1))
  {
    if params == [] then [] else [(params[0].0, Rendered(params[0].1))] + RenderedParams(params[1..])
  }

  /** A truthy value is rendered as a non-empty string. */
  lemma TruthyRenderedNonEmpty(v: ParamValue)
    requires IsTruthy(v)
    ensures Rendered(v) != ""
  {
  }

  lemma RenderedParamsConcat(a: Params, b: Params)
    ensures RenderedParams(a + b) == RenderedParams(a) + RenderedParams(b)
  {
  }
}
