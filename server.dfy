/** The `KVSSServer` object: its store and request counter updated in place by
    `process_request` and its handlers, and the per-connection loop of `handle_client`. */
module Server {
  import opened Tokenizer
  import opened Responses
  import opened Protocol
  import opened RequestLaws
  import opened Session

  class KVSSServer {
    /** Which copy of the server this object is: the two differ only in the version check. */
    const variant: Variant
    var storage: Store
    var requestsServed: nat

    /** Every stored key is one token and every stored value is a rejoined list of words. */
    ghost predicate Valid()
      reads this
    {
      WellFormedStore(storage)
    }

    /** The state the request processor reads and writes. */
    function Snapshot(): State
      reads this
    {
      State(storage, requestsServed)
    }

    /** `__init__`: an empty store and no request served yet. */
    constructor (variant: Variant)
      ensures this.variant == variant
      ensures storage == map[] && requestsServed == 0
      ensures Valid()
    {
      this.variant := variant;
      storage := map[];
      requestsServed := 0;
    }

    /** `handle_put`. Arguments that come from the tokeniser keep the store well formed. */
    method HandlePut(args: seq<string>) returns (response: Response)
      requires Valid()
      modifies this
      ensures (response, storage) == Put(old(storage), args)
      ensures requestsServed == old(requestsServed)
      ensures AllTokens(args) ==> Valid()
    {
      if |args| < 2 {
        return BadRequest;
      }
      var key, value := args[0], Join(args[1..]);
      if ' ' in key {
        return BadRequest;
      }
      if AllTokens(args) {
        TailTokens(args, 1);
        JoinedWordsAreValue(args[1..]);
      }
      var isNew := key !in storage;
      storage := storage[key := value];
      response := if isNew then Created else Ok;
    }

    /** `handle_get`: reads the store and changes nothing. */
    method HandleGet(args: seq<string>) returns (response: Response)
      ensures response == Get(storage, args)
    {
      if |args| != 1 {
        return BadRequest;
      }
      var key := args[0];
      if key in storage {
        response := OkValue(storage[key]);
      } else {
        response := NotFound;
      }
    }

    /** `handle_del`: removing a key keeps the store well formed. */
    method HandleDel(args: seq<string>) returns (response: Response)
      requires Valid()
      modifies this
      ensures (response, storage) == Del(old(storage), args)
      ensures requestsServed == old(requestsServed)
      ensures Valid()
    {
      if |args| != 1 {
        return BadRequest;
      }
      var key := args[0];
      if key in storage {
        storage := storage - {key};
        response := NoContent;
      } else {
        response := NotFound;
      }
    }

    /** `handle_stats`, with the seconds since start-up given as `uptime`. */
    method HandleStats(uptime: nat) returns (response: Response)
      ensures response == StatsLine(|storage|, uptime, requestsServed)
    {
      response := StatsLine(|storage|, uptime, requestsServed);
    }

    /** `handle_quit` */
    method HandleQuit() returns (response: Response)
      ensures response == Bye && ClosesSession(response)
    {
      response := Bye;
    }

    /** `process_request`: count the request, tokenise it, check the version and dispatch to
        a handler. The new state and the answer are those of `Step`, and the store stays
        well formed. */
    method ProcessRequest(request: string, uptime: nat) returns (response: Response)
      requires Valid()
      modifies this
      ensures (response, Snapshot()) == Step(variant, old(Snapshot()), uptime, request)
      ensures requestsServed == old(requestsServed) + 1
      ensures Valid()
    {
      ghost var st := Snapshot();
      StepKeepsStoreWellFormed(variant, st, uptime, request);
      requestsServed := requestsServed + 1;
      var parts := Split(Strip(request));
      if |parts| < 2 {
        return BadRequest;
      }
      var version, command := parts[0], parts[1];
      if variant == Lab && !StartsWith(version, Tag) {
        return BadRequest;
      }
      if version != Version {
        return UpgradeRequired;
      }
      if command == "PUT" {
        TailTokens(parts, 2);
        response := HandlePut(parts[2..]);
      } else if command == "GET" {
        response := HandleGet(parts[2..]);
      } else if command == "DEL" {
        response := HandleDel(parts[2..]);
      } else if command == "STATS" {
        response := HandleStats(uptime);
      } else if command == "QUIT" {
        response := HandleQuit();
      } else {
        response := BadRequest;
      }
    }

    /** `handle_client` over the chunks one connection delivers: strip each chunk, stop at a
        blank one, answer it and send the answer with a newline, and stop after an answer
        that starts with "200 OK bye". The lines sent and the final state are those of
        `Serve`. */
    method HandleClient(arrivals: seq<Arrival>) returns (sent: seq<string>)
      requires Valid()
      modifies this
      ensures var r := Serve(variant, old(Snapshot()), arrivals);
        sent == Wire(r.0) && Snapshot() == r.1
      ensures requestsServed == old(requestsServed) + |sent|
      ensures Valid()
    {
      ghost var total := Serve(variant, Snapshot(), arrivals);
      ServedCountsAnswers(variant, Snapshot(), arrivals, false);
      sent := [];
      ghost var answered: seq<Response> := [];
      var i := 0;
      assert arrivals[0..] == arrivals && answered + total.0 == total.0;
      while i < |arrivals|
        invariant 0 <= i <= |arrivals|
        invariant Valid()
        invariant sent == Wire(answered)
        invariant total == Resume(answered, ServeUntil(Process(variant), Snapshot(), arrivals[i..], false))
        decreases |arrivals| - i
      {
        ghost var st := Snapshot();
        ghost var tail := arrivals[i..];
        assert tail[0] == arrivals[i];
        var data := Strip(arrivals[i].data);
        if data == "" {
          BlankChunkEnds(Process(variant), st, tail, false);
          assert answered + [] == answered;
          return;
        }
        ServeUntilCons(Process(variant), st, tail, false);
        var response := ProcessRequest(data, arrivals[i].uptime);
        assert Process(variant)(st, arrivals[i].uptime, data) == (response, Snapshot());
        WireSnoc(answered, response);
        sent := sent + [Render(response) + "\n"];
        ResumeCons(answered, response, ServeUntil(Process(variant), Snapshot(), tail[1..], false));
        answered := answered + [response];
        if StartsWith(Render(response), ByePrefix) {
          return;
        }
        assert tail[1..] == arrivals[i + 1..];
        i := i + 1;
      }
      assert arrivals[i..] == [] && answered + [] == answered;
    }
  }
}
