/** The tag input of the server panel: suggestions fetched as the user types,
    the check applied to each response, and the "create" option. */
module TagsAutocomplete {
  import opened Js

  /** A JavaScript value, as far as the response check looks at it
      (numbers are integers here). */
  datatype JsValue =
    | Undefined
    | Null
    | Bool(b: bool)
    | Number(n: int)
    | Str(s: string)
    | Array(items: seq<JsValue>)
    | Object(fields: map<string, JsValue>)

  predicate Truthy(v: JsValue) {
    match v
    case Undefined => false
    case Null => false
    case Bool(b) => b
    case Number(n) => n != 0
    case Str(s) => s != ""
    case _ => true
  }

  /** `v.tags`; None where reading a property throws (`undefined`, `null`). */
  function TagsProperty(v: JsValue): Option<JsValue> {
    match v
    case Undefined => None
    case Null => None
    case Object(fields) => Some(if "tags" in fields then fields["tags"] else Undefined)
    case _ => Some(Undefined)
  }

  /** `items.every((t) => typeof t === "string")` */
  predicate AllStrings(items: seq<JsValue>) {
    forall i :: 0 <= i < |items| ==> items[i].Str?
  }

  function Strings(items: seq<JsValue>): (r: seq<string>)
    requires AllStrings(items)
    ensures |r| == |items| && forall i :: 0 <= i < |r| ==> items[i] == Str(r[i])
  {
    seq(|items|, i requires 0 <= i < |items| => items[i].s)
  }

  /** How the fetcher callback treats a response. */
  datatype TagsCheck = Accepted(tags: seq<string>) | Rejected | Threw

  /** `(data && !Array.isArray(data.tags)) || !data.tags.every(...)`, as
      written: a falsy response gets past the first test and the second one
      throws on it. */
  function CheckTagsResponse(data: JsValue): (r: TagsCheck)
    // accepted exactly when `tags` is an array of strings, and then those strings in order
    ensures r.Accepted? <==> (data.Object? && "tags" in data.fields && data.fields["tags"].Array?
                              && AllStrings(data.fields["tags"].items))
    ensures r.Accepted? ==> |r.tags| == |data.fields["tags"].items|
                            && forall i :: 0 <= i < |r.tags| ==> data.fields["tags"].items[i] == Str(r.tags[i])
    // a falsy response makes the callback throw instead of raising the toast
    ensures r.Threw? <==> !Truthy(data)
  {
    if Truthy(data) && !TagsProperty(data).value.Array? then Rejected
    else
      match TagsProperty(data)
      case None => Threw
      case Some(tags) =>
        if !tags.Array? then Threw
        else if AllStrings(tags.items) then Accepted(Strings(tags.items))
        else Rejected
  }

  /** `!elements.includes(input)`: "create" is offered when no suggestion
      spells the input exactly; an empty suggestion list always offers it. */
  predicate OffersCreate(input: string, elements: seq<string>)
    ensures OffersCreate(input, elements) <==> forall i :: 0 <= i < |elements| ==> elements[i] != input
    ensures elements == [] ==> OffersCreate(input, elements)
  {
    input !in elements
  }

  /** After an accepted response, the "create" option is offered exactly
      when no tag of the response spells the current input. */
  lemma OffersCreateAfterResponse(input: string, data: JsValue)
    requires CheckTagsResponse(data).Accepted?
    ensures var items := data.fields["tags"].items;
            OffersCreate(input, CheckTagsResponse(data).tags) <==> Str(input) !in items
  {
    var tags := CheckTagsResponse(data).tags;
    var items := data.fields["tags"].items;
    if input in tags {
      var i :| 0 <= i < |tags| && tags[i] == input;
      assert items[i] == Str(input);
    }
    if Str(input) in items {
      var i :| 0 <= i < |items| && items[i] == Str(input);
      assert tags[i] == input;
    }
  }

  /** The search the input effect submits. */
  datatype TagSearch = TagSearch(search: string, action: string)

  /** The option handed to `onSelectOption`. */
  datatype SelectedOption = SelectedOption(value: string, creatable: bool)

  /** The component's state: the input text (held by the parent and passed
      in) and the suggestions. */
  class TagsInput {
    var input: string
    var elements: seq<string>

    constructor (input: string)
      ensures this.input == input && elements == []
    {
      this.input := input;
      elements := [];
    }

    /** The fetcher callback: suggestions are replaced only by an accepted
        response; a rejected one raises the error toast and changes nothing;
        a falsy response makes the callback throw (reported in `threw`)
        before it touches anything. */
    method ReceiveTags(data: JsValue) returns (toast: bool, threw: bool)
      modifies this`elements
      ensures elements == if CheckTagsResponse(data).Accepted? then CheckTagsResponse(data).tags else old(elements)
      ensures toast <==> CheckTagsResponse(data).Rejected?
      ensures threw <==> !Truthy(data)
      ensures threw ==> !toast && elements == old(elements)
    {
      var check := CheckTagsResponse(data);
      toast := check.Rejected?;
      threw := check.Threw?;
      if check.Accepted? {
        elements := check.tags;
      }
    }

    /** The input's `onChange`. */
    method SetInput(value: string)
      modifies this`input
      ensures input == value
    {
      input := value;
    }

    /** The effect run when the input changes: an empty input clears the
        suggestions and searches nothing; otherwise the input is searched. */
    method InputChanged() returns (search: Option<TagSearch>)
      modifies this`elements
      ensures |input| == 0 ==> elements == [] && search == None
      ensures |input| > 0 ==> elements == old(elements) && search == Some(TagSearch(input, "/api/tags"))
    {
      if |input| < 1 {
        elements := [];
        search := None;
      } else {
        search := Some(TagSearch(input, "/api/tags"));
      }
    }

    /** Whether the list shows the "create" option. */
    method Creatable() returns (offered: bool)
      ensures offered <==> OffersCreate(input, elements)
    {
      offered := true;
      var i := 0;
      while i < |elements| && offered
        invariant 0 <= i <= |elements|
        invariant offered <==> input !in elements[..i]
      {
        offered := elements[i] != input;
        assert elements[..i + 1] == elements[..i] + [elements[i]];
        i := i + 1;
      }
      assert i == |elements| ==> elements[..i] == elements;
    }

    /** Selecting an option forwards its value and whether it is new to
        `onSubmit`, when one is given, and empties the input. */
    method SelectOption(option: SelectedOption, hasOnSubmit: bool) returns (submitted: Option<SelectedOption>)
      modifies this`input
      ensures input == ""
      ensures submitted == if hasOnSubmit then Some(option) else None
    {
      submitted := if hasOnSubmit then Some(option) else None;
      input := "";
    }
  }
}
