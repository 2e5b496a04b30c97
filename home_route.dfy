/** The home page route: its search-form action, and the rule that picks the
    sample servers shown on the page. */
module HomeRoute {
  import opened Js
  import opened Remix

  /** The search action. The submitted address is lowercased, handed to the
      validator, and, when valid, turned into a redirect whose path carries
      the Bedrock and query cookie flags. */
  function Action(form: SearchSubmission, getCookie: CookieReader,
                  validate: Validator): (r: ActionResponse)
    // a missing or empty address answers nothing
    ensures r.NoContent? <==> form.server == None || form.server == Some("")
    // the lowercased address is what is validated, and its error is returned as is
    // (only a truthy answer, a non-empty string, is an error)
    ensures r.ErrorJson? <==> form.server.Some? && form.server.value != "" && TruthyText(validate(ToLower(form.server.value)))
    ensures r.ErrorJson? ==> validate(ToLower(form.server.value)) == Text(r.error) && r.error != ""
    // what goes into the path is lowercased too; `?query` follows the address
    // exactly when the query cookie is set and the Bedrock cookie is not
    ensures r.Redirect? ==> NoUpper(r.location)
    ensures r.Redirect? ==> EndsWith(r.location, ToLower(form.server.value) +
              (if CookieFlag(getCookie, form.cookieHeader, "query") && !CookieFlag(getCookie, form.cookieHeader, "bedrock")
               then QuerySuffix else ""))
  {
    var bedrock := CookieFlag(getCookie, form.cookieHeader, "bedrock");
    var query := CookieFlag(getCookie, form.cookieHeader, "query");
    match form.server
    case None => NoContent
    case Some(raw) =>
      var server := ToLower(raw);
      if server == "" then NoContent
      else
        var error := validate(server);
        if TruthyText(error) then ErrorJson(error.text)
        else Redirect(SearchLocation(bedrock, query, server))
  }

  /** The redirect of the search action encodes, for an address without '/'
      or '?', exactly the Bedrock cookie flag, the query cookie flag when
      Bedrock is off, and the lowercased address. */
  lemma {:induction false} ActionRedirectEncodesFlags(form: SearchSubmission, getCookie: CookieReader,
                                                      validate: Validator)
    requires form.server.Some? && '/' !in form.server.value && '?' !in form.server.value
    requires Action(form, getCookie, validate).Redirect?
    ensures var bedrock := CookieFlag(getCookie, form.cookieHeader, "bedrock");
            var query := CookieFlag(getCookie, form.cookieHeader, "query");
            ParseSearchLocation(Action(form, getCookie, validate).location)
              == Some((bedrock, query && !bedrock, ToLower(form.server.value)))
  {
    var address := ToLower(form.server.value);
    ToLowerKeepsNonLetter(form.server.value, '/');
    ToLowerKeepsNonLetter(form.server.value, '?');
    SearchLocationRoundTrip(CookieFlag(getCookie, form.cookieHeader, "bedrock"),
                            CookieFlag(getCookie, form.cookieHeader, "query"), address);
  }

  /** A row of the sample-server table, its dates as timestamps. */
  datatype SampleServer = SampleServer(server: string, bedrock: bool, favicon: Option<string>,
                                       addDate: int, endDate: Option<int>)

  /** The `where` clause of the loader: the promotion has not ended yet, or
      has no end; a row whose end date is now is still shown. */
  predicate StillPromoted(row: SampleServer, now: int)
    ensures row.endDate.None? ==> StillPromoted(row, now)
    ensures row.endDate == Some(now) ==> StillPromoted(row, now)
    ensures row.endDate.Some? && row.endDate.value < now ==> !StillPromoted(row, now)
  {
    row.endDate == None || row.endDate.value >= now
  }

  /** The rows that pass the `where` clause, in table order. */
  function PromotedRows(rows: seq<SampleServer>, now: int): (r: seq<SampleServer>)
    ensures forall x :: x in r <==> x in rows && StillPromoted(x, now)
    ensures forall x :: x in rows && StillPromoted(x, now) ==> multiset(r)[x] == multiset(rows)[x]
    ensures forall x :: !StillPromoted(x, now) ==> multiset(r)[x] == 0
  {
    if rows == [] then []
    else
      assert rows == [rows[0]] + rows[1..];
      (if StillPromoted(rows[0], now) then [rows[0]] else []) + PromotedRows(rows[1..], now)
  }

  /** `orderBy: { add_date: "desc" }` */
  predicate NewestFirst(rows: seq<SampleServer>) {
    forall i, j :: 0 <= i < j < |rows| ==> rows[i].addDate >= rows[j].addDate
  }

  function InsertNewestFirst(row: SampleServer, sorted: seq<SampleServer>): (r: seq<SampleServer>)
    requires NewestFirst(sorted)
    ensures NewestFirst(r)
    ensures multiset(r) == multiset(sorted) + multiset{row}

  {
    if sorted == [] then [row]
    else if row.addDate >= sorted[0].addDate then [row] + sorted
    else
      assert sorted == [sorted[0]] + sorted[1..];
      var rest := InsertNewestFirst(row, sorted[1..]);
      assert forall x :: x in rest ==> x in multiset(sorted[1..]) + multiset{row};
      assert forall x :: x in rest ==> x.addDate <= sorted[0].addDate;
      NewestFirstCons(sorted[0], rest);
      [sorted[0]] + rest
  }

  lemma NewestFirstCons(head: SampleServer, rest: seq<SampleServer>)
    requires NewestFirst(rest)
    requires forall x :: x in rest ==> x.addDate <= head.addDate
    ensures NewestFirst([head] + rest)
  {
    var r := [head] + rest;
    forall i, j | 0 <= i < j < |r| ensures r[i].addDate >= r[j].addDate {
      if i > 0 {
        assert r[i] == rest[i - 1] && r[j] == rest[j - 1];
      } else {
        assert r[j] in rest;
      }
    }
  }

  function SortNewestFirst(rows: seq<SampleServer>): (r: seq<SampleServer>)
    ensures NewestFirst(r)
    ensures multiset(r) == multiset(rows)
  {
    if rows == [] then []
    else
      assert rows == [rows[0]] + rows[1..];
      InsertNewestFirst(rows[0], SortNewestFirst(rows[1..]))
  }

  /** The sample servers the home page lists: exactly the rows whose end date
      is unset or not yet past, each as often as in the table, newest first. */
  function SampleServers(rows: seq<SampleServer>, now: int): (r: seq<SampleServer>)
    ensures NewestFirst(r)
    ensures forall x :: x in r <==> x in rows && StillPromoted(x, now)
    ensures multiset(r) == multiset(PromotedRows(rows, now))
  {
    var r := SortNewestFirst(PromotedRows(rows, now));
    assert forall x :: x in r <==> x in multiset(r);
    r
  }
}
