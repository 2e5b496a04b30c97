/** What the search-form route actions answer, and the redirect location they
    build from the edition and query flags and the server address. */
module Remix {
  import opened Js

  /** The answer of a search-form route action. */
  datatype ActionResponse =
    | NoContent                 // `return null`
    | ErrorJson(error: string)  // `json({ error })`
    | Redirect(location: string)

  /** The `server` field of the submitted form (absent when the form lacks
      it) and the request's `cookie` header (absent when none was sent). */
  datatype SearchSubmission = SearchSubmission(server: Option<string>, cookieHeader: Option<string>)

  /** `getCookieWithoutDocument(name, header)`: its code is not part of this
      model, so it is a parameter that may answer a string, `undefined` or `null`. */
  type CookieReader = (string, string) -> NullableString

  /** `validateServer(server)`: its code is not part of this model either; a
      truthy answer is the error message, anything else lets the search go on. */
  type Validator = string -> NullableString

  /** `getCookieWithoutDocument(name, header ?? "") === "true"`: only the
      string "true" sets a flag, and a missing header reads as an empty one. */
  predicate CookieFlag(getCookie: CookieReader, cookieHeader: Option<string>, name: string)
    ensures CookieFlag(getCookie, cookieHeader, name) ==> getCookie(name, cookieHeader.GetOr("")) == Text("true")
    ensures cookieHeader.None? ==> (CookieFlag(getCookie, cookieHeader, name) <==> getCookie(name, "") == Text("true"))
  {
    getCookie(name, cookieHeader.GetOr("")) == Text("true")
  }

  const BedrockPrefix: string := "bedrock/"
  const QuerySuffix: string := "?query"

  /** The redirect target of a search: the Bedrock edition lives under
      `/bedrock/`, and the `?query` suffix is only ever added to a Java path. */
  function SearchLocation(bedrock: bool, query: bool, address: string): (location: string)
    ensures 1 <= |location| && location[0] == '/'
    ensures bedrock ==> location == "/" + BedrockPrefix + address
    ensures !bedrock && !query ==> location == "/" + address
    ensures !bedrock && query ==> location == "/" + address + QuerySuffix
    ensures NoUpper(address) ==> NoUpper(location)
  {
    "/" + (if bedrock then BedrockPrefix else "") + address + (if query && !bedrock then QuerySuffix else "")
  }

  /** Reads a location back into (bedrock, query, address): an independent
      reading of the path, the way a router splits it. */
  function ParseSearchLocation(location: string): Option<(bool, bool, string)> {
    if |location| == 0 || location[0] != '/' then None
    else
      var rest := location[1..];
      var bedrock := BedrockPrefix <= rest;
      var path := if bedrock then rest[|BedrockPrefix|..] else rest;
      var query := EndsWith(path, QuerySuffix);
      var address := if query then path[..|path| - |QuerySuffix|] else path;
      Some((bedrock, query, address))
  }

  /** A string without '?' cannot end with the `?query` suffix. */
  lemma NoQuerySuffix(a: string)
    requires '?' !in a
    ensures !EndsWith(a, QuerySuffix)
  {
    if |a| >= |QuerySuffix| {
      assert a[|a| - |QuerySuffix|] in a;
    }
  }

  /** A path made of a '/'-free address, optionally followed by the `?query`
      suffix, never starts with `bedrock/`. */
  lemma NoBedrockPrefix(address: string, tail: string)
    requires '/' !in address
    requires tail == "" || tail == QuerySuffix
    ensures !(BedrockPrefix <= address + tail)
  {
    var rest := address + tail;
    if |address| >= |BedrockPrefix| {
      assert rest[7] == address[7];
    } else if |rest| >= |BedrockPrefix| {
      assert rest[|address|] == '?';
    }
  }

  /** The redirect location carries the flags and the address unambiguously:
      for an address without '/' or '?', parsing the location gives back the
      Bedrock flag, the query flag exactly when it was set without Bedrock,
      and the address itself. In particular the location starts with
      `/bedrock/` exactly when the Bedrock flag is set, and never carries
      both the prefix and the `?query` suffix. */
  lemma {:induction false} SearchLocationRoundTrip(bedrock: bool, query: bool, address: string)
    requires '/' !in address && '?' !in address
    ensures ParseSearchLocation(SearchLocation(bedrock, query, address)) == Some((bedrock, query && !bedrock, address))
  {
    var location := SearchLocation(bedrock, query, address);
    var rest := location[1..];
    NoQuerySuffix(address);
    if bedrock {
      assert rest == BedrockPrefix + address;
      assert rest[|BedrockPrefix|..] == address;
    } else {
      var tail := if query then QuerySuffix else "";
      assert rest == address + tail;
      NoBedrockPrefix(address, tail);
      if query {
        assert rest[..|rest| - |QuerySuffix|] == address;
      }
    }
  }
}
