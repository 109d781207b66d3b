/** The one HTTP call an API helper issues: its verb, its path and what it sends. */
module Http {

  datatype Verb = Get | Post | Put

  /** For a GET, `payload` is the query parameters; otherwise it is the JSON body. */
  datatype Request<B> = Request(verb: Verb, url: string, payload: B)
}
