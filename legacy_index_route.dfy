/** The older index route, superseded by the home route: its search action
    reads only the Bedrock cookie. */
module LegacyIndexRoute {
  import opened Js
  import opened Remix
  import RootRoute
  import HomeRoute

  /** The legacy search action: same outcomes as the root action. */
  function Action(form: SearchSubmission, getCookie: CookieReader,
                  validate: Validator): (r: ActionResponse)
    // a missing or empty address answers nothing
    ensures r.NoContent? <==> form.server == None || form.server == Some("")
    // the lowercased address is what is validated, and its error is returned as is
    // (only a truthy answer, a non-empty string, is an error)
    ensures r.ErrorJson? <==> form.server.Some? && form.server.value != "" && TruthyText(validate(ToLower(form.server.value)))
    ensures r.ErrorJson? ==> validate(ToLower(form.server.value)) == Text(r.error) && r.error != ""
    // the path is lowercased, and nothing follows the address in it
    ensures r.Redirect? ==> NoUpper(r.location) && EndsWith(r.location, ToLower(form.server.value))
  {
    var bedrock := CookieFlag(getCookie, form.cookieHeader, "bedrock");
    match form.server
    case None => NoContent
    case Some(raw) =>
      var server := ToLower(raw);
      if server == "" then NoContent
      else
        var error := validate(server);
        if TruthyText(error) then ErrorJson(error.text)
        else Redirect(SearchLocation(bedrock, false, server))
  }

  /** For an address without '/' or '?', the redirect path is
      `/bedrock/<address>` exactly when the Bedrock cookie is "true", else
      `/<address>`, and it never carries the query flag: the action equals
      the root action, so this follows from the root action's lemma. */
  lemma {:induction false} ActionRedirectEncodesEdition(form: SearchSubmission, getCookie: CookieReader,
                                                        validate: Validator)
    requires form.server.Some? && '/' !in form.server.value && '?' !in form.server.value
    requires Action(form, getCookie, validate).Redirect?
    ensures ParseSearchLocation(Action(form, getCookie, validate).location)
              == Some((CookieFlag(getCookie, form.cookieHeader, "bedrock"), false, ToLower(form.server.value)))
  {
    SearchActionsAgree(form, getCookie, validate);
    RootRoute.ActionRedirectEncodesEdition(form, getCookie, validate);
  }

  /** Given the same validator and cookie reader, the three search actions
      agree: the legacy and root actions on every input, and the home action
      with them whenever the query cookie is not "true" (it differs only by
      the `?query` suffix). The legacy page imports `validateServer` from a
      different module than the other two (app/routes/index.tsx:11), so in
      the running system the validators may differ. */
  lemma SearchActionsAgree(form: SearchSubmission, getCookie: CookieReader,
                           validate: Validator)
    ensures Action(form, getCookie, validate) == RootRoute.Action(form, getCookie, validate)
    ensures !CookieFlag(getCookie, form.cookieHeader, "query") ==>
              HomeRoute.Action(form, getCookie, validate) == Action(form, getCookie, validate)
  {
  }
}
