/** The request wrappers' view of the backend. A `fetch` is not modelled:
    each call site receives what the server answered as a value. */
module Api {
  import opened Common

  /** What one `fetch` produced: an ok response with its parsed JSON body,
      a non-ok response with the `error` field of its body, or an exception
      (network failure) with its message. */
  datatype Http<T> = Ok(body: T) | NotOk(error: Option<string>) | Thrown(message: string)

  /** The `{ success, data }` / `{ success: false, message }` objects the
      request wrappers hand back to the pages. */
  datatype Reply<T> = Success(data: T) | Failure(message: string)

  /** `getToken()` is truthy: a stored, non-empty bearer token. */
  predicate HasToken(token: Option<string>) {
    token.Some? && token.value != ""
  }

  /** Calling a function imported from a hook module: it returns its
      reply; or the module does not export that name, so the import is
      bound to `undefined` and the call throws a TypeError; or the function
      exists but the promise it returns rejects (a `fetch` that fails, a
      body that is not JSON) inside a wrapper without `try`/`catch`. In
      both thrown cases nothing in the handler catches the exception. */
  datatype Call<T> = Returned(reply: T) | NotAFunction | Rejected

  /** The call of `name` imported from a module that exports `exports`,
      where the function, if it existed, would answer `reply`. */
  function Invoke<T>(exports: set<string>, name: string, reply: T): (c: Call<T>)
    ensures c.Returned? <==> name in exports
    ensures c.Returned? ==> c.reply == reply
  {
    if name in exports then Returned(reply) else NotAFunction
  }

  /** What a handler that awaits `call` and then alerts on the reply
      reports, as an alert and whether it reloads: nothing when the call
      throws, `done` and a reload on a success, and the server's message
      (or `fallback` when it is empty) on a failure. */
  function Announce<T>(call: Call<Reply<T>>, done: string, fallback: string): (r: (Option<string>, bool))
    ensures !call.Returned? ==> r == (None, false)
    ensures call.Returned? && call.reply.Success? ==> r == (Some(done), true)
    ensures call.Returned? && call.reply.Failure? ==> r == (Some(OrElse(Some(call.reply.message), fallback)), false)
  {
    match call
    case Returned(Success(_)) => (Some(done), true)
    case Returned(Failure(message)) => (Some(OrElse(Some(message), fallback)), false)
    case _ => (None, false)
  }

  /** `x || fallback` for an optional text from a response body. */
  function OrElse(x: Option<string>, fallback: string): (r: string)
    ensures x.Some? && x.value != "" ==> r == x.value
    ensures x.None? || x.value == "" ==> r == fallback
  {
    if x.Some? && x.value != "" then x.value else fallback
  }
}
