/** The response chosen by the HTTP function `fnvalidacpf` for each outcome
    of reading the request body. The hosting framework (JSON parsing,
    routing, response objects, logging) is outside the model. */
module Handler {
  import opened Digits
  import opened Cpf

  /** The parsed JSON body, as far as the handler looks at it. */
  datatype Body =
    | Falsy                  // null, {}, [], "", 0 or false
    | WithCpf(cpf: string)   // a non-empty object whose "cpf" is a string
    | WithoutCpf             // a non-empty object with no "cpf", or a null one

  /** What `req.get_json()` produced. */
  datatype Request = Malformed | Parsed(body: Body)

  /** An HTTP response, or an exception that escapes the handler (the
      `TypeError` raised when `valida_cpf` receives `None`). */
  datatype Outcome = Response(status: int, message: string) | Unhandled

  const InvalidJsonMessage := "JSON inválido."
  const MissingCpfMessage := "Por favor, informe um CPF para validação."
  const ValidMessage := "CPF válido."
  const InvalidMessage := "CPF inválido."

  /** `fnvalidacpf(req)`, reduced to its decision. */
  function Respond(req: Request): (o: Outcome)
    ensures o.Unhandled? <==> req == Parsed(WithoutCpf)
    ensures o.Response? ==> o.status == 200 || o.status == 400
    ensures o.Response? ==> (o.status == 200 <==> o.message == ValidMessage)
  {
    match req
    case Malformed => Response(400, InvalidJsonMessage)
    case Parsed(Falsy) => Response(400, MissingCpfMessage)
    case Parsed(WithoutCpf) => Unhandled
    case Parsed(WithCpf(cpf)) =>
      if IsValidCpf(cpf) then Response(200, ValidMessage)
      else Response(400, InvalidMessage)
  }

  /** The four messages are distinct, so a caller can tell the branches apart. */
  lemma MessagesDistinct()
    ensures InvalidJsonMessage != MissingCpfMessage
    ensures InvalidJsonMessage != ValidMessage && InvalidJsonMessage != InvalidMessage
    ensures MissingCpfMessage != ValidMessage && MissingCpfMessage != InvalidMessage
    ensures ValidMessage != InvalidMessage
  {
  }

  /** A body that is not JSON, and an empty body, get their own 400 responses. */
  lemma RejectedBodies(req: Request)
    ensures req == Malformed ==> Respond(req) == Response(400, InvalidJsonMessage)
    ensures req == Parsed(Falsy) ==> Respond(req) == Response(400, MissingCpfMessage)
  {
  }

  /** Status 200 is given exactly to a request carrying a valid CPF. */
  lemma AcceptedIffValid(req: Request)
    ensures Respond(req) == Response(200, ValidMessage) <==>
      req.Parsed? && req.body.WithCpf? && IsValidCpf(req.body.cpf)
  {
  }

  /** A request carrying a CPF string gets 200 "CPF válido." or 400
      "CPF inválido.", according to the validator. */
  lemma CpfVerdict(cpf: string)
    ensures Respond(Parsed(WithCpf(cpf))) ==
      if IsValidCpf(cpf) then Response(200, ValidMessage) else Response(400, InvalidMessage)
  {
  }

  /** The response does not depend on punctuation in the CPF string. */
  lemma ResponseIgnoresPunctuation(cpf: string, i: nat, c: char)
    requires i <= |cpf|
    requires !IsDigit(c)
    ensures Respond(Parsed(WithCpf(cpf[..i] + [c] + cpf[i..]))) == Respond(Parsed(WithCpf(cpf)))
  {
    PunctuationInvariance(cpf, i, c);
  }

  /** End-to-end cases: {"cpf": "11144477735"}, {"cpf": "111"}, a body that
      is not JSON, and {}. */
  lemma EndToEnd()
    ensures Respond(Parsed(WithCpf("11144477735"))) == Response(200, ValidMessage)
    ensures Respond(Parsed(WithCpf(Formatted("11144477735")))) == Response(200, ValidMessage)
    ensures Respond(Parsed(WithCpf("11144477736"))) == Response(400, InvalidMessage)
    ensures Respond(Parsed(WithCpf("111"))) == Response(400, InvalidMessage)
    ensures Respond(Malformed) == Response(400, InvalidJsonMessage)
    ensures Respond(Parsed(Falsy)) == Response(400, MissingCpfMessage)
  {
    KnownValid();
    KnownInvalid();
    KnownRejected();
  }
}
