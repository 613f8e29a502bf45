/** What the request pipeline calls but does not define: the network fetch
    and two JavaScript built-ins, `JSON.stringify` on a string and
    `encodeURI`. They are parameters of the model. */
module Host {

  /** The status and the body text of the upstream response. */
  datatype Upstream = Upstream(status: int, body: string)

  datatype Runtime = Runtime(
    fetch: string -> Upstream,
    jsonStringify: string -> string,
    encodeUri: string -> string)
}
