/** The entities of `internal/task`: the in-memory task fields and what each store keeps of them. */
module TaskTypes {

  import opened Wrappers

  datatype State = New | Provisioning | Running | Error

  // A Go map of request headers; Nil is the nil map, which ranges like an empty one.
  datatype Headers = Nil | Entries(pairs: map<string, string>)

  // The JSON text that json.Marshal makes of a header map: "null" or an object.
  datatype HeadersJson = Null | Object(pairs: map<string, string>)

  function Marshal(h: Headers): HeadersJson {
    match h
    case Nil => Null
    case Entries(m) => Object(m)
  }

  // Loading skips an absent field and the text "{}", both of which leave the nil map.
  function Unmarshal(j: HeadersJson): Headers {
    if j.Null? || j.pairs == map[] then Nil else Entries(j.pairs)
  }

  // What a request loop over the headers sees.
  function Pairs(h: Headers): map<string, string> {
    if h.Nil? then map[] else h.pairs
  }

  datatype Route = Route(sandboxId: string, baseUrl: string, headers: Headers)

  // A row of the MySQL tasks table.
  datatype Row = Row(state: State, provisioned: bool, sessionId: string, errorMsg: string)

  // The Redis hash sandbox:{id} that goes with a MySQL row.
  datatype SandboxHash = SandboxHash(sandboxId: string, baseUrl: string, headers: HeadersJson)

  // Whether a hash read back names a sandbox (HGET sandbox_id is neither nil nor "").
  predicate Mapped(hash: Option<SandboxHash>) {
    hash.Some? && hash.value.sandboxId != ""
  }
}
