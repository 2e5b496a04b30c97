/** The application root route: its search-form action and its loader, which
    decides whether ads are shown. */
module RootRoute {
  import opened Js
  import opened Remix

  /** The root search action. Unlike the home page it never reads the query
      cookie, so its redirect never carries the `?query` suffix. */
  function Action(form: SearchSubmission, getCookie: CookieReader,
                  validate: Validator): (r: ActionResponse)
    // a missing or empty address answers nothing
    ensures r.NoContent? <==> form.server == None || form.server == Some("")
    // the lowercased address is what is validated, and its error is returned as is
    // (only a truthy answer, a non-empty string, is an error)
    ensures r.ErrorJson? <==> form.server.Some? && form.server.value != "" && TruthyText(validate(ToLower(form.server.value)))
    ensures r.ErrorJson? ==> validate(ToLower(form.server.value)) == Text(r.error) && r.error != ""
    // the path is lowercased, and nothing follows the address in it
    ensures r.Redirect? ==> NoUpper(r.location) && EndsWith(r.location, ToLower(form.server.value))
  {
    var bedrock := getCookie("bedrock", form.cookieHeader.GetOr(""));
    match form.server
    case None => NoContent
    case Some(raw) =>
      var server := ToLower(raw);
      if server == "" then NoContent
      else
        var error := validate(server);
        if TruthyText(error) then ErrorJson(error.text)
        else Redirect(SearchLocation(bedrock == Text("true"), false, server))
  }

  /** For an address without '/' or '?', the redirect path is
      `/bedrock/<address>` exactly when the Bedrock cookie is "true", else
      `/<address>`, with the address lowercased and no query flag. */
  lemma {:induction false} ActionRedirectEncodesEdition(form: SearchSubmission, getCookie: CookieReader,
                                                        validate: Validator)
    requires form.server.Some? && '/' !in form.server.value && '?' !in form.server.value
    requires Action(form, getCookie, validate).Redirect?
    ensures ParseSearchLocation(Action(form, getCookie, validate).location)
              == Some((CookieFlag(getCookie, form.cookieHeader, "bedrock"), false, ToLower(form.server.value)))
  {
    ToLowerKeepsNonLetter(form.server.value, '/');
    ToLowerKeepsNonLetter(form.server.value, '?');
    SearchLocationRoundTrip(CookieFlag(getCookie, form.cookieHeader, "bedrock"), false, ToLower(form.server.value));
  }

  /** The request URL: its path and its decoded search parameters, in order. */
  datatype Url = Url(pathname: string, params: seq<(string, string)>)

  /** `url.searchParams.get(name)`: the value of the first parameter named `name`. */
  function SearchParam(params: seq<(string, string)>, name: string): (r: Option<string>)
    ensures r.Some? <==> exists i :: 0 <= i < |params| && params[i].0 == name
    ensures r.Some? ==> (name, r.value) in params
  {
    if params == [] then None
    else if params[0].0 == name then Some(params[0].1)
    else
      assert forall i :: 1 <= i < |params| ==> params[i] == params[1..][i - 1];
      SearchParam(params[1..], name)
  }

  /** Of several parameters with the same name, the first one wins. */
  lemma {:induction false} SearchParamFirst(params: seq<(string, string)>, name: string, i: nat)
    requires i < |params| && params[i].0 == name
    requires forall k :: 0 <= k < i ==> params[k].0 != name
    ensures SearchParam(params, name) == Some(params[i].1)
  {
    if i > 0 {
      SearchParamFirst(params[1..], name, i - 1);
    }
  }

  /** The process environment the loader reads: `NO_ADS_PARAM_NAME` and
      `NO_ADS_PARAM_VALUE`, each possibly unset. */
  datatype NoAdsConfig = NoAdsConfig(paramName: Option<string>, paramValue: Option<string>)

  /** What the loader answers: a redirect that sets a cookie, or the page data. */
  datatype LoaderResponse =
    | RedirectSettingCookie(location: string, setCookie: string)
    | PageData(cookies: string, showAds: bool)

  /** A template string renders an unset value as "undefined" and a set one as itself. */
  function TemplateText(v: Option<string>): (text: string)
    ensures v.Some? ==> text == v.value
    ensures v.None? ==> text == "undefined"
  {
    v.GetOr("undefined")
  }

  /** The search parameter the loader compares against the configured value:
      the one named by `NO_ADS_PARAM_NAME`, or "nope" when that is unset. */
  function NoAdsTerm(url: Url, config: NoAdsConfig): (term: Option<string>)
    ensures term.Some? ==> (config.paramName.GetOr("nope"), term.value) in url.params
    ensures term.None? <==> forall p :: p in url.params ==> p.0 != config.paramName.GetOr("nope")
  {
    var r := SearchParam(url.params, config.paramName.GetOr("nope"));
    assert forall p :: p in url.params ==> exists i :: 0 <= i < |url.params| && url.params[i] == p;
    r
  }

  /** The root loader, as written. An unset search parameter and an unset
      configured value are both `undefined`, and `===` holds between them. */
  function Loader(url: Url, cookieHeader: Option<string>, config: NoAdsConfig,
                  getCookie: CookieReader): (r: LoaderResponse)
    // redirect exactly when the parameter's value is the configured one (absent == unset)
    ensures r.RedirectSettingCookie? <==> NoAdsTerm(url, config) == config.paramValue
    // the redirect goes to the same path and sets the no_ads cookie to the configured value
    ensures r.RedirectSettingCookie? ==> r.location == url.pathname && r.setCookie == "no_ads=" + TemplateText(config.paramValue)
    // otherwise ads are hidden exactly when the no_ads cookie holds the configured value
    // (`!==`: a cookie reader answering `null` never matches, so ads are shown)
    ensures r.PageData? ==> (r.showAds <==> !StrictEquals(getCookie("no_ads", cookieHeader.GetOr("")), config.paramValue))
    ensures r.PageData? && getCookie("no_ads", cookieHeader.GetOr("")).NullString? ==> r.showAds
    ensures r.PageData? ==> r.cookies == cookieHeader.GetOr("")
  {
    var term := NoAdsTerm(url, config);
    if term == config.paramValue then
      RedirectSettingCookie(url.pathname, "no_ads=" + TemplateText(config.paramValue))
    else
      PageData(cookieHeader.GetOr(""), !StrictEquals(getCookie("no_ads", cookieHeader.GetOr("")), config.paramValue))
  }

  /** With `NO_ADS_PARAM_VALUE` unset, the loader as written redirects every
      request that lacks the parameter back to its own path, and the request
      that follows the redirect is redirected again: a redirect loop. */
  lemma {:induction false} LoaderRedirectLoop(pathname: string, cookieHeader: Option<string>, paramName: Option<string>,
                                              getCookie: CookieReader)
    ensures var config := NoAdsConfig(paramName, None);
            var first := Loader(Url(pathname, []), cookieHeader, config, getCookie);
            && first == RedirectSettingCookie(pathname, "no_ads=undefined")
            && Loader(Url(first.location, []), cookieHeader, config, getCookie) == first
  {
  }

  /** The loader with an unset `NO_ADS_PARAM_VALUE` read as "feature off":
      no redirect and ads shown; with the value set it is the loader above. */
  function IntendedLoader(url: Url, cookieHeader: Option<string>, config: NoAdsConfig,
                          getCookie: CookieReader): (r: LoaderResponse)
    ensures config.paramValue.Some? ==> r == Loader(url, cookieHeader, config, getCookie)
    ensures config.paramValue.None? ==> r == PageData(cookieHeader.GetOr(""), true)
  {
    match config.paramValue
    case None => PageData(cookieHeader.GetOr(""), true)
    case Some(value) =>
      var term := NoAdsTerm(url, config);
      if term == Some(value) then
        RedirectSettingCookie(url.pathname, "no_ads=" + value)
      else
        PageData(cookieHeader.GetOr(""), getCookie("no_ads", cookieHeader.GetOr("")) != Text(value))
  }

  /** Following a redirect of the intended loader (whose location carries no
      search parameters) never redirects again, and the redirect sets the
      cookie to the value the parameter carried. */
  lemma {:induction false} IntendedLoaderRedirectSettles(url: Url, cookieHeader: Option<string>, config: NoAdsConfig,
                                                         getCookie: CookieReader)
    requires IntendedLoader(url, cookieHeader, config, getCookie).RedirectSettingCookie?
    ensures var r := IntendedLoader(url, cookieHeader, config, getCookie);
            && NoAdsTerm(url, config).Some?
            && r.setCookie == "no_ads=" + NoAdsTerm(url, config).value
            && IntendedLoader(Url(r.location, []), cookieHeader, config, getCookie).PageData?
  {
  }
}
