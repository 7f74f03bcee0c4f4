/**
 * The request-validation middleware: the errors the validator reports for a request are
 * reshaped into one-key records and thrown as a 400 ApiError, or the request is passed on.
 */
module Validate {
  import opened Optional
  import opened ApiErrors

  /**
   * One error reported by the validator: its `type` ("field" for an error about a request
   * field, other kinds otherwise), the field `path` (meaningful for "field" errors) and its `msg`.
   */
  datatype ValidationError = ValidationError(kind: string, path: string, msg: string)

  /** The key an error is reported under: the field path for a field error, otherwise its type. */
  function KeyOf(e: ValidationError): string {
    if e.kind == "field" then e.path else e.kind
  }

  /** `extracted` holds, in order, one record per error, keyed by KeyOf and carrying the error's message. */
  ghost predicate ShapedFrom(extracted: seq<Entry>, errors: seq<ValidationError>) {
    |extracted| == |errors| &&
    forall i :: 0 <= i < |errors| ==> extracted[i] == Entry(KeyOf(errors[i]), errors[i].msg)
  }

  /** Walks the errors in order, pushing one `{ [key]: msg }` record for each. */
  method ExtractValidationErrors(errors: seq<ValidationError>) returns (extracted: seq<Entry>)
    ensures |extracted| == |errors|
    ensures forall i :: 0 <= i < |errors| && errors[i].kind == "field" ==>
      extracted[i] == Entry(errors[i].path, errors[i].msg)
    ensures forall i :: 0 <= i < |errors| && errors[i].kind != "field" ==>
      extracted[i] == Entry(errors[i].kind, errors[i].msg)
  {
    extracted := [];
    var i := 0;
    while i < |errors|
      invariant 0 <= i <= |errors|
      invariant ShapedFrom(extracted, errors[..i])
    {
      var err := errors[i];
      if err.kind == "field" {
        extracted := extracted + [Entry(err.path, err.msg)];
      } else {
        extracted := extracted + [Entry(err.kind, err.msg)];
      }
      i := i + 1;
    }
    assert errors[..i] == errors;
  }

  /** The 400 error for a non-empty list of validator errors: the first error's message, and all of them reshaped. */
  function CreateValidationError(errors: seq<ValidationError>, extracted: seq<Entry>): (e: ApiError)
    requires |errors| > 0
    ensures e.status == 400
    ensures e.message == errors[0].msg
    ensures e.errors == extracted
  {
    ApiError(400, errors[0].msg, extracted)
  }

  /**
   * The middleware. `errors` is what the validator found for the request. The result says how
   * many times `next()` was called and what, if anything, was thrown.
   */
  method Validate(errors: seq<ValidationError>) returns (nextCalls: nat, thrown: Option<ApiError>)
    ensures thrown.None? <==> errors == []
    ensures errors == [] ==> nextCalls == 1
    ensures errors != [] ==> nextCalls == 0
    ensures thrown.Some? ==> thrown.value.status == 400 && thrown.value.message == errors[0].msg
    ensures thrown.Some? ==> ShapedFrom(thrown.value.errors, errors)
  {
    nextCalls := 0;
    thrown := None;
    if errors != [] {
      var extracted := ExtractValidationErrors(errors);
      thrown := Some(CreateValidationError(errors, extracted));
      return;
    }
    nextCalls := nextCalls + 1;
  }
}
