/** The shape of the route handlers' answers: a status code, a message and
    an optional redirect target. Redirects are kept structured (a path and
    its query parameters in order) instead of as encoded strings. */
module Http {
  import opened Common

  datatype Url = Url(path: string, query: seq<(string, string)>)

  /** A redirect target without query parameters. */
  function Path(p: string): (u: Url)
    ensures u.path == p && u.query == []
  {
    Url(p, [])
  }

  datatype Reply = Reply(status: int, message: string, redirectTo: Option<Url>)

  /** A reply with a message and no redirect. */
  function Json(status: int, message: string): (r: Reply)
    ensures r.status == status && r.message == message && r.redirectTo == None
  {
    Reply(status, message, None)
  }

  /** A reply that tells the client where to go next. */
  function Redirect(status: int, message: string, to: Url): (r: Reply)
    ensures r.status == status && r.message == message && r.redirectTo == Some(to)
  {
    Reply(status, message, Some(to))
  }
}
