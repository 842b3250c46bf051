/**
  The JSON response envelope and the validation-error flattening of
  core/response.go. Go errors are modelled as a small datatype: a
  validator's `ValidationErrors` list, any other error with its text, and an
  error wrapped with `%w` behind a prefix, which `errors.As` looks through.
 */
module Response {
  import opened Common
  import GoStrings

  /** `Meta`: the message, code and status of a response. */
  datatype Meta = Meta(message: string, code: int, status: string)

  /** `Response`: the envelope around any payload. */
  datatype Response<T> = Response(meta: Meta, data: T)

  /** `FormatResponse(message, code, status, data)`. */
  function FormatResponse<T>(message: string, code: int, status: string, data: T): (r: Response<T>)
    ensures r.meta.message == message && r.meta.code == code && r.meta.status == status
    ensures r.data == data
  {
    Response(Meta(message, code, status), data)
  }

  /** The message every `GiveResponse` envelope carries, whatever the status. */
  const FailureMessage: string := "Failed to register"

  /** The status every `GiveResponse` envelope carries. */
  const FailureStatus: string := "error"

  /**
    `GiveResponse(c, status, response)`: the HTTP status written to the client
    and the envelope sent with it.
   */
  function GiveResponse<T>(status: int, response: T): (out: (int, Response<T>))
    ensures out.0 == status
    ensures out.1.meta == Meta(FailureMessage, status, FailureStatus)
    ensures out.1.data == response
  {
    (status, FormatResponse(FailureMessage, status, FailureStatus, response))
  }

  /** Sending the same payload with two statuses differs in the status code alone. */
  lemma GiveResponseOnlyStatusVaries<T>(s1: int, s2: int, response: T)
    ensures GiveResponse(s1, response).1.(meta := GiveResponse(s1, response).1.meta.(code := s2))
         == GiveResponse(s2, response).1
    ensures GiveResponse(s1, response) == GiveResponse(s2, response) <==> s1 == s2
  {
  }

  // ---------------------------------------------------------------------------
  // Errors
  // ---------------------------------------------------------------------------

  /** One failed field check of the validator, with the text its `Error()` returns. */
  datatype FieldError = FieldError(text: string)

  /** A non-nil Go `error`. */
  datatype GoError =
    | Validation(fields: seq<FieldError>)      // validator.ValidationErrors
    | Plain(text: string)                      // any other error
    | Wrapped(prefix: string, inner: GoError)  // fmt.Errorf(prefix + "%w", inner)

  /** The field texts, one line each. */
  function Lines(fields: seq<FieldError>): string
  {
    if |fields| == 0 then "" else fields[0].text + "\n" + Lines(fields[1..])
  }

  /**
    `err.Error()`. A `ValidationErrors` list writes each field's text followed
    by a newline and trims the outer white space; a wrapped error is its prefix
    followed by the text of the error it wraps.
   */
  function ErrorText(err: GoError): string
  {
    match err
    case Validation(fields) => GoStrings.TrimSpace(Lines(fields))
    case Plain(text) => text
    case Wrapped(prefix, inner) => prefix + ErrorText(inner)
  }

  /** `errors.As(err, &validationErrors)`: the first `ValidationErrors` on the wrap chain. */
  function AsValidation(err: GoError): Option<seq<FieldError>>
  {
    match err
    case Validation(fields) => Some(fields)
    case Plain(_) => None
    case Wrapped(_, inner) => AsValidation(inner)
  }

  /** The texts of a field list, in order. */
  function Texts(fields: seq<FieldError>): (texts: seq<string>)
    ensures |texts| == |fields|
    ensures forall i :: 0 <= i < |fields| ==> texts[i] == fields[i].text
  {
    seq(|fields|, i requires 0 <= i < |fields| => fields[i].text)
  }

  /**
    What `FormatValidationErrors` is for: one message per field error, in
    order, when the error is or wraps a validation list; otherwise the error's
    own text as the only message.
   */
  function ValidationMessages(err: GoError): (messages: seq<string>)
    ensures AsValidation(err).None? ==> messages == [ErrorText(err)]
    ensures AsValidation(err).Some? ==> messages == Texts(AsValidation(err).value)
  {
    match AsValidation(err)
    case Some(fields) => Texts(fields)
    case None => [ErrorText(err)]
  }

  /** The outcome of a Go call that may panic. */
  datatype Outcome<T> = Returns(value: T) | Panics

  /**
    `FormatValidationErrors` as written: the guard looks through wrapping with
    `errors.As`, but the loop then asserts the type of `err` itself, which
    panics whenever the list was wrapped.
   */
  function FormatValidationErrorsAsWritten(err: GoError): Outcome<seq<string>>
  {
    if AsValidation(err).Some? then
      if err.Validation? then Returns(Texts(err.fields)) else Panics
    else Returns([ErrorText(err)])
  }

  /**
    The code as written panics exactly on wrapped validation lists, and
    otherwise returns the intended messages.
   */
  lemma AsWrittenPanicsOnWrappedValidation(err: GoError)
    ensures FormatValidationErrorsAsWritten(err).Panics? <==> err.Wrapped? && AsValidation(err).Some?
    ensures !FormatValidationErrorsAsWritten(err).Panics? ==>
      FormatValidationErrorsAsWritten(err).value == ValidationMessages(err)
  {
  }

  /** A validation list wrapped by a binding layer makes the code as written panic. */
  lemma WrappedValidationCounterexample()
    ensures var err := Wrapped("bind: ", Validation([FieldError("Key: 'Email' Error:required")]));
      FormatValidationErrorsAsWritten(err).Panics?
      && ValidationMessages(err) == ["Key: 'Email' Error:required"]
  {
    var err := Wrapped("bind: ", Validation([FieldError("Key: 'Email' Error:required")]));
    assert Texts([FieldError("Key: 'Email' Error:required")])[0] == "Key: 'Email' Error:required";
  }

  /**
    `FormatValidationErrors`, with the loop walking the list `errors.As`
    found rather than re-asserting the type of `err`: one message per field
    error, appended in order, or the error's text alone.
   */
  method FormatValidationErrors(err: GoError) returns (errorMessages: seq<string>)
    ensures errorMessages == ValidationMessages(err)
    ensures |errorMessages| >= 1 || AsValidation(err) == Some([])
  {
    errorMessages := [];
    var validationErrors := AsValidation(err);
    if validationErrors.Some? {
      var fields := validationErrors.value;
      for i := 0 to |fields|
        invariant errorMessages == Texts(fields[..i])
      {
        assert Texts(fields[..i + 1]) == Texts(fields[..i]) + [fields[i].text];
        errorMessages := errorMessages + [fields[i].text];
      }
      assert fields[..|fields|] == fields;
    } else {
      errorMessages := errorMessages + [ErrorText(err)];
    }
  }
}
