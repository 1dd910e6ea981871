/** The validation middleware that runs before the POST and PUT handlers. */
module Validation {
  import opened Tasks

  datatype Verb = Get | Post | Put | Delete

  /** The two 400 responses of the middleware. */
  datatype ValidationError = MissingFields | InvalidStatus

  /** Pass means the middleware calls `next()`; Fail means it answers 400. */
  datatype Outcome = Pass | Fail(error: ValidationError)

  predicate IsWrite(verb: Verb)
  {
    verb == Post || verb == Put
  }

  /** The middleware's decision for a request with the given verb and body.
      Only writes are checked; the missing-field check is made first. */
  function ValidateTask(verb: Verb, body: Body): (r: Outcome)
    // Reads and deletes always pass.
    ensures !IsWrite(verb) ==> r == Pass
    // A write passes exactly when title and description are present and
    // non-empty and the status is absent, empty or one of the three values.
    ensures IsWrite(verb) ==>
      (r == Pass <==>
        && body.title.Some? && body.title.value != ""
        && body.description.Some? && body.description.value != ""
        && (body.status == None || body.status == Some("") || body.status.value in Statuses))
    // A body missing a required field is reported as such, whatever its status.
    ensures IsWrite(verb) ==>
      (r == Fail(MissingFields) <==>
        (body.title.None? || body.title == Some("") || body.description.None? || body.description == Some("")))
    // With both fields given, a truthy status outside the three values is reported as invalid.
    ensures
      (&& IsWrite(verb) && Truthy(body.title) && Truthy(body.description)
       && Truthy(body.status) && !IsStatus(body.status.value))
      ==> r == Fail(InvalidStatus)
    ensures r == Fail(InvalidStatus) ==> body.status.Some? && !IsStatus(body.status.value)
    // What passes can be stored: the written fields keep the store invariant.
    ensures IsWrite(verb) && r == Pass ==>
      && body.title.Some? && body.title.value != ""
      && body.description.Some? && body.description.value != ""
      && (body.status.Some? ==> StorableStatus(body.status.value))
  {
    if IsWrite(verb) then
      if !Truthy(body.title) || !Truthy(body.description) then Fail(MissingFields)
      else if Truthy(body.status) && !IsStatus(body.status.value) then Fail(InvalidStatus)
      else Pass
    else Pass
  }
}
