/** `responses/ErrorResponse.java`: the error body the exception handlers return. */
module Responses {
  /** `ErrorResponse.ValidationError`: one rejected field and why. */
  datatype ValidationError = ValidationError(field: string, message: string)

  /** The response object; the timestamp is left out. */
  class ErrorResponse {
    var status: int
    var error: string
    var message: string
    var path: string
    var validationErrors: seq<ValidationError>

    /** The four-argument constructor; the validation list starts empty. */
    constructor (status: int, error: string, message: string, path: string)
      ensures this.status == status && this.error == error
      ensures this.message == message && this.path == path
      ensures validationErrors == []
    {
      this.status := status;
      this.error := error;
      this.message := message;
      this.path := path;
      validationErrors := [];
    }

    /** The messages recorded for one field, in the order they were added. */
    function MessagesFor(field: string): (r: seq<string>)
      reads this
      ensures |r| <= |validationErrors|
    {
      FieldMessages(validationErrors, field)
    }

    /**
     * `addValidationError`: appends one entry at the end; the earlier
     * entries and every other field stay as they were.
     */
    method AddValidationError(field: string, message: string)
      modifies this`validationErrors
      ensures validationErrors == old(validationErrors) + [ValidationError(field, message)]
      ensures MessagesFor(field) == old(MessagesFor(field)) + [message]
      ensures forall f | f != field :: MessagesFor(f) == old(MessagesFor(f))
    {
      FieldMessagesAppend(validationErrors, ValidationError(field, message));
      validationErrors := validationErrors + [ValidationError(field, message)];
    }
  }

  /** The messages of the entries for `field`, in list order. */
  function FieldMessages(errors: seq<ValidationError>, field: string): (r: seq<string>)
    ensures |r| <= |errors|
    ensures forall m | m in r :: ValidationError(field, m) in errors
  {
    if errors == [] then []
    else FieldMessages(errors[..|errors| - 1], field)
         + (if errors[|errors| - 1].field == field then [errors[|errors| - 1].message] else [])
  }

  /** Appending an entry extends the messages of its field alone. */
  lemma FieldMessagesAppend(errors: seq<ValidationError>, e: ValidationError)
    ensures FieldMessages(errors + [e], e.field) == FieldMessages(errors, e.field) + [e.message]
    ensures forall f | f != e.field :: FieldMessages(errors + [e], f) == FieldMessages(errors, f)
  {
    assert (errors + [e])[..|errors + [e]| - 1] == errors;
  }
}
