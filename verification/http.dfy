/** Responses as the handlers build them, the faults they catch, and the outcome of one
    middleware stage. */
module Http {
  import opened Crypto

  /** A fault raised while saving a user document. */
  datatype Fault =
    | ValidationFailed(paths: set<string>)   // schema validation rejected these fields
    | HashFailed(reason: string)             // the hashing library raised an error
    | DuplicateKey(email: string)            // the store's unique index on email refused an insert
    | DocumentNotFound                       // an update matched no stored record

  /** A JSON response body. */
  datatype Body =
    | Message(message: string)                  // { message }
    | LoginToken(message: string, token: string) // { message, token }
    | UserInfo(message: string, user: Claims)    // { message, user }
    | ErrorText(error: string)                  // { error } with a fixed text
    | ErrorOf(fault: Fault)                     // { error: error.message } of a caught fault

  datatype Response = Response(status: nat, body: Body)

  /** What a middleware stage does: call `next`, or send a response and stop the chain.
      Exactly one of the two happens, by construction. */
  datatype Step = Next | Halt(response: Response)
}
