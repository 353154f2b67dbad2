/** The answer an express route handler writes: a status and a JSON body. */
module Http {
  import opened Wrappers
  import opened ServerDb

  datatype Body<T> = Json(value: T) | ErrorJson(error: string)
  datatype Reply<T> = Reply(status: int, body: Body<T>)

  /** `res.json(value)` on success, `res.status(500).json({ error: err.message })` in the handler's `catch`. */
  function Respond<T>(r: Result<T, Error>): (reply: Reply<T>)
    ensures reply.status == 200 <==> r.Ok?
    ensures r.Ok? ==> reply.body == Json(r.value)
    ensures r.Err? ==> reply.status == 500 && reply.body == ErrorJson(r.error.message)
  {
    match r
    case Ok(v) => Reply(200, Json(v))
    case Err(e) => Reply(500, ErrorJson(e.message))
  }
}
