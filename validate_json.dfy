/**
 * ValidationErrorJSON: the answer to a request body that did not bind. Validator errors
 * become one message per field (422); any other error is passed on as its text (400).
 */
module ValidateJson {
  import opened Base
  import opened Strs
  import Http

  /** One failed rule: the struct field's name, the rule's tag and its parameter. */
  datatype FieldError = FieldError(field: string, tag: string, param: string)

  /** What binding returned: validator.ValidationErrors, or some other error (malformed JSON, say). */
  datatype BindError = Validation(errors: seq<FieldError>) | Other(message: string)

  /** The tags with a template of their own. */
  const KnownTags: set<string> :=
    {"required", "max", "min", "email", "uuid", "gte", "lte", "oneof", "url", "alpha", "numeric", "alphanum", "datetime"}

  /** The message for a failed rule; `field` is already lower-cased. */
  function Message(field: string, tag: string, param: string): (msg: string)
    ensures HasPrefix(msg, field + " ")
  {
    var tail := Template(tag, param);
    assert (field + " " + tail)[..|field + " "|] == field + " ";
    field + " " + tail
  }

  /** What follows the field's name: the default "is invalid" exactly for a tag without a template. */
  function Template(tag: string, param: string): (t: string)
    ensures t == "is invalid" <==> tag !in KnownTags
    ensures tag == "oneof" ==> HasPrefix(t, "must be one of the following values: ")
  {
    if tag == "required" then "is required"
    else if tag == "max" then "must not exceed " + param + " characters"
    else if tag == "min" then "must be at least " + param + " characters"
    else if tag == "email" then "must be a valid email address"
    else if tag == "uuid" then "must be a valid UUID"
    else if tag == "gte" then "must be greater than or equal to " + param
    else if tag == "lte" then "must be less than or equal to " + param
    else if tag == "oneof" then "must be one of the following values: " + ReplaceChar(param, ' ', ", ")
    else if tag == "url" then "must be a valid URL"
    else if tag == "alpha" then "must contain only alphabetic characters"
    else if tag == "numeric" then "must contain only numeric characters"
    else if tag == "alphanum" then "must contain only alphanumeric characters"
    else if tag == "datetime" then "must be a valid datetime in the format " + param
    else "is invalid"
  }

  /** The error map after the given errors: keyed by the lower-cased field, a later error replacing an earlier one. */
  function ErrorsOf(es: seq<FieldError>): map<string, string>
    decreases |es|
  {
    if es == [] then map[]
    else
      var fe := es[|es| - 1];
      ErrorsOf(es[..|es| - 1])[ToLower(fe.field) := Message(ToLower(fe.field), fe.tag, fe.param)]
  }

  /** One more error of the sequence adds (or replaces) its field's entry. */
  lemma ErrorsOfPrefix(es: seq<FieldError>, i: nat)
    requires i < |es|
    ensures var k := ToLower(es[i].field);
      ErrorsOf(es[..i + 1]) == ErrorsOf(es[..i])[k := Message(k, es[i].tag, es[i].param)]
  {
    assert es[..i + 1][..i] == es[..i];
    assert es[..i + 1][i] == es[i];
  }

  /** ValidationErrorJSON: written with c.JSON, so the chain is not aborted. */
  method ValidationErrorJSON(ctx: Http.Context, err: BindError)
    modifies ctx
    ensures match err
      case Validation(es) => ctx.responses == old(ctx.responses) + [Http.Errors(422, "Invalid request data", ErrorsOf(es))]
      case Other(e) => ctx.responses == old(ctx.responses) + [Http.Errors(400, "Invalid request payload", map["details" := e])]
    ensures ctx.values == old(ctx.values) && ctx.cookies == old(ctx.cookies) && ctx.headers == old(ctx.headers)
    ensures ctx.aborted == old(ctx.aborted)
  {
    match err
    case Validation(ve) =>
      var errorsList := CollectErrors(ve);
      ctx.Respond(Http.Errors(422, "Invalid request data", errorsList));
    case Other(e) =>
      ctx.Respond(Http.Errors(400, "Invalid request payload", map["details" := e]));
  }

  /** The loop over the validator's errors, filling the map field by field. */
  method CollectErrors(ve: seq<FieldError>) returns (errorsList: map<string, string>)
    ensures errorsList == ErrorsOf(ve)
  {
    errorsList := map[];
    var i := 0;
    while i < |ve|
      invariant 0 <= i <= |ve|
      invariant errorsList == ErrorsOf(ve[..i])
    {
      var fe := ve[i];
      var field := ToLower(fe.field);
      var msg := Message(field, fe.tag, fe.param);
      ErrorsOfPrefix(ve, i);
      errorsList := errorsList[field := msg];
      i := i + 1;
    }
    assert ve[..|ve|] == ve;
  }

  // ---------------------------------------------------------------------------
  // Properties

  /** The map has an entry for exactly the fields that failed, lower-cased. */
  lemma {:induction false} ErrorsKeys(es: seq<FieldError>, k: string)
    ensures k in ErrorsOf(es) <==> exists i :: 0 <= i < |es| && ToLower(es[i].field) == k
    decreases |es|
  {
    if es != [] {
      var init := es[..|es| - 1];
      ErrorsKeys(init, k);
      if k in ErrorsOf(init) {
        var i :| 0 <= i < |init| && ToLower(init[i].field) == k;
        assert es[i] == init[i];
      }
      if exists i :: 0 <= i < |es| && ToLower(es[i].field) == k {
        var i :| 0 <= i < |es| && ToLower(es[i].field) == k;
        if i < |es| - 1 {
          assert init[i] == es[i];
        }
      }
    }
  }

  /** A field's message is the one for the last of its errors. */
  lemma {:induction false} LastErrorWins(es: seq<FieldError>, i: nat)
    requires i < |es|
    requires forall j :: i < j < |es| ==> ToLower(es[j].field) != ToLower(es[i].field)
    ensures var k := ToLower(es[i].field);
      k in ErrorsOf(es) && ErrorsOf(es)[k] == Message(k, es[i].tag, es[i].param)
    decreases |es|
  {
    var init, last := es[..|es| - 1], es[|es| - 1];
    var k := ToLower(es[i].field);
    assert ErrorsOf(es) == ErrorsOf(init)[ToLower(last.field) := Message(ToLower(last.field), last.tag, last.param)];
    if i < |es| - 1 {
      assert init[i] == es[i];
      forall j | i < j < |init| ensures ToLower(init[j].field) != k {
        assert init[j] == es[j];
      }
      LastErrorWins(init, i);
      assert ToLower(last.field) != k;
    }
  }

  /** Every key is lower case. */
  lemma KeysLowerCase(es: seq<FieldError>, k: string)
    requires k in ErrorsOf(es)
    ensures ToLower(k) == k
  {
    ErrorsKeys(es, k);
    var i :| 0 <= i < |es| && ToLower(es[i].field) == k;
    ToLowerIdempotent(es[i].field);
  }

  /** A oneof rule lists its space-separated values separated by commas. */
  lemma OneOfListsValues(field: string, values: seq<string>)
    requires |values| >= 1
    requires forall k :: 0 <= k < |values| ==> ' ' !in values[k]
    ensures Message(field, "oneof", Join(values, " ")) == field + " " + "must be one of the following values: " + Join(values, ", ")
  {
    var param := Join(values, " ");
    MessageOneOf(field, param);
    ReplaceCharIsSplitJoin(param, ' ', ", ");
    SplitJoin(values, ' ');
  }

  lemma MessageOneOf(field: string, param: string)
    ensures Message(field, "oneof", param) == field + " " + "must be one of the following values: " + ReplaceChar(param, ' ', ", ")
  {
    assert Template("oneof", param) == "must be one of the following values: " + ReplaceChar(param, ' ', ", ");
  }

  /** A tag without a template of its own says only that the field is invalid. */
  lemma UnknownTagIsInvalid(field: string, tag: string, param: string)
    requires tag !in KnownTags
    ensures Message(field, tag, param) == field + " " + "is invalid"
  {
    assert Template(tag, param) == "is invalid";
  }
}
