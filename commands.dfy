/** The five well-formed KV/1.0 requests as values, the line a client sends for each, and
    what the server does with each one stated directly on the store: a reference semantics
    that does not go through the tokeniser. */
module Commands {
  import opened Tokenizer
  import opened Responses
  import opened Protocol
  import opened RequestLaws

  /** A request the server accepts: PUT with a key and the words of its value, GET, DEL,
      STATS and QUIT. */
  datatype Command =
    | PutCmd(key: string, words: seq<string>)
    | GetCmd(key: string)
    | DelCmd(key: string)
    | StatsCmd
    | QuitCmd

  /** Keys and value words are tokens, and a PUT carries at least one word. */
  predicate WellFormed(c: Command) {
    match c
    case PutCmd(k, ws) => IsToken(k) && ws != [] && AllTokens(ws)
    case GetCmd(k) => IsToken(k)
    case DelCmd(k) => IsToken(k)
    case _ => true
  }

  /** The tokens of the request line for a command, version first. */
  function Tokens(c: Command): seq<string> {
    match c
    case PutCmd(k, ws) => [Version, "PUT", k] + ws
    case GetCmd(k) => [Version, "GET", k]
    case DelCmd(k) => [Version, "DEL", k]
    case StatsCmd => [Version, "STATS"]
    case QuitCmd => [Version, "QUIT"]
  }

  /** The request line a client sends for a command, as the bundled clients build it. */
  function Line(c: Command): string {
    Join(Tokens(c))
  }

  /** What a command does to the server state, read off the handlers: the answer and the
      new state. */
  function Apply(st: State, c: Command, uptime: nat): (r: (Response, State))
    ensures r.1.served == st.served + 1
  {
    var storage, served := st.storage, st.served + 1;
    match c
    case PutCmd(k, ws) =>
      (if k in storage then Ok else Created, State(storage[k := Join(ws)], served))
    case GetCmd(k) =>
      (if k in storage then OkValue(storage[k]) else NotFound, State(storage, served))
    case DelCmd(k) =>
      (if k in storage then NoContent else NotFound, State(storage - {k}, served))
    case StatsCmd =>
      (StatsLine(|storage|, uptime, served), State(storage, served))
    case QuitCmd =>
      (Bye, State(storage, served))
  }

  lemma WellFormedTokens(c: Command)
    requires WellFormed(c)
    ensures AllTokens(Tokens(c))
  {
    var ts := Tokens(c);
    assert IsToken(Version) by { assert forall i :: 0 <= i < |Version| ==> Version[i] != ' '; }
    forall i | 0 <= i < |ts| ensures IsToken(ts[i]) {
      if c.PutCmd? && i >= 3 {
        assert ts[i] == c.words[i - 3];
      }
    }
  }

  /** Round trip: the line of a well-formed command splits back into its tokens. */
  lemma LineTokens(c: Command)
    requires WellFormed(c)
    ensures Split(Line(c)) == Tokens(c)
  {
    WellFormedTokens(c);
    SplitJoin(Tokens(c));
  }

  /** The request processor agrees with the reference semantics on every line whose tokens
      are those of a well-formed command, in both copies of the server. */
  lemma StepMatchesApply(variant: Variant, st: State, uptime: nat, request: string, c: Command)
    requires WellFormed(c) && Split(request) == Tokens(c)
    ensures Step(variant, st, uptime, request) == Apply(st, c, uptime)
  {
    match c
    case PutCmd(k, ws) =>
      var args := [k] + ws;
      assert [Version, "PUT", k] + ws == [Version, "PUT"] + args;
      PutRequest(variant, st, uptime, request, args);
      assert args[0] == k && args[1..] == ws;
    case GetCmd(k) =>
      GetRequest(variant, st, uptime, request, [k]);
    case DelCmd(k) =>
      DelRequest(variant, st, uptime, request, [k]);
      if k !in st.storage { assert st.storage - {k} == st.storage; }
    case StatsCmd =>
      StatsRequest(variant, st, uptime, request, []);
    case QuitCmd =>
      QuitRequest(variant, st, uptime, request, []);
  }
}
