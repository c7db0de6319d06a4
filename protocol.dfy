/** The request processor of the KV/1.0 server as a function of the state it reads:
    `process_request` and its handlers, for both copies of the server. */
module Protocol {
  import opened Tokenizer
  import opened Responses

  /** The two copies of the server. Root is server/kvss_server.py: any first token other
      than KV/1.0 is answered 426. Lab is chap_1/kvss/server/kvss_server.py: a first token
      without the KV/ tag is answered 400, and only a wrong KV/ version gets 426. */
  datatype Variant = Root | Lab

  const Version := "KV/1.0"
  const Tag := "KV/"

  type Store = map<string, string>

  /** The server's mutable state: `storage` and `requests_served`. */
  datatype State = State(storage: Store, served: nat)

  /** The outcome of the version check: dispatch, or answer with a rejection. */
  datatype Gate = Pass | Reject(response: Response)

  function VersionGate(variant: Variant, version: string): (g: Gate)
    ensures g.Pass? <==> version == Version
  {
    match variant
    case Root =>
      if version != Version then Reject(UpgradeRequired) else Pass
    case Lab =>
      if !StartsWith(version, Tag) then Reject(BadRequest)
      else if version != Version then Reject(UpgradeRequired)
      else Pass
  }

  /** `handle_put`: the response and the new storage. */
  function Put(storage: Store, args: seq<string>): (Response, Store) {
    if |args| < 2 then (BadRequest, storage)
    else
      var key, value := args[0], Join(args[1..]);
      if ' ' in key then (BadRequest, storage)
      else ((if key !in storage then Created else Ok), storage[key := value])
  }

  /** `handle_get` */
  function Get(storage: Store, args: seq<string>): Response {
    if |args| != 1 then BadRequest
    else if args[0] in storage then OkValue(storage[args[0]])
    else NotFound
  }

  /** `handle_del`: the response and the new storage. */
  function Del(storage: Store, args: seq<string>): (Response, Store) {
    if |args| != 1 then (BadRequest, storage)
    else if args[0] in storage then (NoContent, storage - {args[0]})
    else (NotFound, storage)
  }

  /** `handle_stats`; `served` already counts the STATS request itself. */
  function Stats(storage: Store, served: nat, uptime: nat): Response {
    StatsLine(|storage|, uptime, served)
  }

  /** The verb dispatch of `process_request` under a KV/1.0 tag. */
  function Dispatch(command: string, args: seq<string>, storage: Store, served: nat, uptime: nat): (Response, Store) {
    if command == "PUT" then Put(storage, args)
    else if command == "GET" then (Get(storage, args), storage)
    else if command == "DEL" then Del(storage, args)
    else if command == "STATS" then (Stats(storage, served, uptime), storage)
    else if command == "QUIT" then (Bye, storage)
    else (BadRequest, storage)
  }

  /** `process_request`: bump the counter, tokenise, check the version, dispatch. */
  function Step(variant: Variant, st: State, uptime: nat, request: string): (r: (Response, State))
    ensures r.1.served == st.served + 1
  {
    var served := st.served + 1;
    var parts := Split(Strip(request));
    var (response, storage) :=
      if |parts| < 2 then (BadRequest, st.storage)
      else match VersionGate(variant, parts[0])
        case Reject(rejection) => (rejection, st.storage)
        case Pass => Dispatch(parts[1], parts[2..], st.storage, served, uptime);
    (response, State(storage, served))
  }

  /** A stored value as PUT writes it: words rejoined with single spaces. */
  predicate IsValue(v: string) {
    Split(v) != [] && Join(Split(v)) == v
  }

  /** Keys are single tokens and values are rejoined words. */
  predicate WellFormedStore(storage: Store) {
    forall k :: k in storage ==> IsToken(k) && IsValue(storage[k])
  }
}
