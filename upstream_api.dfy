/** The upstream status API client: the argument check and the request URL
    of `getServerInfo`. The request itself is not part of this model. */
module UpstreamApi {
  import opened Js

  /** The request URL, or the error thrown before any request is made. */
  datatype ServerInfoRequest = Url(url: string) | Thrown(message: string)

  /** An optional boolean argument is truthy only when it is `true`. */
  predicate Truthy(flag: Option<bool>) {
    flag == Some(true)
  }

  const CannotQueryBedrock: string := "Cannot query bedrock servers."

  /** The URL `getServerInfo` requests, as written: the mode segment is
      `bedrock/` for Bedrock and `/query` (note: no separator before the
      address) for a query. */
  function ServerInfoUrl(api: string, address: string, query: Option<bool>, bedrock: Option<bool>): (r: ServerInfoRequest)
    // asking for a Bedrock query fails before any request
    ensures r.Thrown? <==> Truthy(query) && Truthy(bedrock)
    ensures r.Thrown? ==> r.message == CannotQueryBedrock
    // every URL lies under the API base and ends with the address, unaltered
    ensures r.Url? ==> api + "/" <= r.url && EndsWith(r.url, address)
  {
    if Truthy(query) && Truthy(bedrock) then Thrown(CannotQueryBedrock)
    else
      var mode := if Truthy(bedrock) then "bedrock/" else if Truthy(query) then "/query" else "";
      var url := api + "/" + mode + address;
      assert url == (api + "/") + mode + address;
      assert url[|url| - |address|..] == address;
      Url(url)
  }

  /** The three URL shapes: Bedrock only, query only, and neither flag (an
      absent flag counts as false). */
  lemma ServerInfoUrlShapes(api: string, address: string, query: Option<bool>, bedrock: Option<bool>)
    ensures Truthy(bedrock) && !Truthy(query) ==> ServerInfoUrl(api, address, query, bedrock) == Url(api + "/bedrock/" + address)
    ensures Truthy(query) && !Truthy(bedrock) ==> ServerInfoUrl(api, address, query, bedrock) == Url(api + "//query" + address)
    ensures !Truthy(query) && !Truthy(bedrock) ==> ServerInfoUrl(api, address, query, bedrock) == Url(api + "/" + address)
  {
    if Truthy(bedrock) && !Truthy(query) {
      assert api + "/" + "bedrock/" + address == api + "/bedrock/" + address;
    }
    if Truthy(query) && !Truthy(bedrock) {
      assert api + "/" + "/query" + address == api + "//query" + address;
    }
  }

  /** The last path segment of a URL: what follows its last '/'. */
  function LastSegment(s: string): (r: string)
    ensures '/' !in r && EndsWith(s, r)
  {
    if s == [] then []
    else if s[|s| - 1] == '/' then []
    else
      var r := LastSegment(s[..|s| - 1]) + [s[|s| - 1]];
      assert s == s[..|s| - 1] + [s[|s| - 1]];
      r
  }

  lemma {:induction false} LastSegmentAfterSlash(prefix: string, segment: string)
    requires '/' !in segment
    ensures LastSegment(prefix + "/" + segment) == segment
  {
    var s := prefix + "/" + segment;
    if segment != [] {
      var init := segment[..|segment| - 1];
      assert s[..|s| - 1] == prefix + "/" + init;
      LastSegmentAfterSlash(prefix, init);
      assert segment == init + [segment[|segment| - 1]];
    }
  }

  /** As written, a query URL for a '/'-free address does not have the
      address as its last segment: the address is glued to "query". */
  lemma QueryUrlGluesAddress(api: string, address: string)
    requires '/' !in address
    ensures ServerInfoUrl(api, address, Some(true), None).Url?
    ensures LastSegment(ServerInfoUrl(api, address, Some(true), None).url) == "query" + address
    ensures LastSegment(ServerInfoUrl(api, address, Some(true), None).url) != address
  {
    ServerInfoUrlShapes(api, address, Some(true), None);
    assert api + "//query" + address == (api + "/") + "/" + ("query" + address);
    LastSegmentAfterSlash(api + "/", "query" + address);
  }

  /** The URL with the query segment spelled like the Bedrock one, `query/`. */
  function IntendedServerInfoUrl(api: string, address: string, query: Option<bool>, bedrock: Option<bool>): (r: ServerInfoRequest)
    ensures r.Thrown? <==> Truthy(query) && Truthy(bedrock)
    ensures r.Thrown? ==> r.message == CannotQueryBedrock
    ensures r.Url? ==> api + "/" <= r.url && EndsWith(r.url, address)
    // only the query URL differs from the one as written
    ensures !Truthy(query) ==> r == ServerInfoUrl(api, address, query, bedrock)
  {
    if Truthy(query) && Truthy(bedrock) then Thrown(CannotQueryBedrock)
    else
      var mode := if Truthy(bedrock) then "bedrock/" else if Truthy(query) then "query/" else "";
      var url := api + "/" + mode + address;
      assert url == (api + "/") + mode + address;
      assert url[|url| - |address|..] == address;
      Url(url)
  }

  /** With the intended spelling, every accepted request puts a '/'-free
      address in a path segment of its own, preceded by the mode segment. */
  lemma IntendedUrlAddressIsLastSegment(api: string, address: string, query: Option<bool>, bedrock: Option<bool>)
    requires '/' !in address
    requires !(Truthy(query) && Truthy(bedrock))
    ensures IntendedServerInfoUrl(api, address, query, bedrock).Url?
    ensures LastSegment(IntendedServerInfoUrl(api, address, query, bedrock).url) == address
  {
    var mode := if Truthy(bedrock) then "bedrock" else if Truthy(query) then "query" else "";
    if mode == "" {
      assert IntendedServerInfoUrl(api, address, query, bedrock).url == api + "/" + address;
      LastSegmentAfterSlash(api, address);
    } else {
      assert IntendedServerInfoUrl(api, address, query, bedrock).url == (api + "/" + mode) + "/" + address;
      LastSegmentAfterSlash(api + "/" + mode, address);
    }
  }
}
