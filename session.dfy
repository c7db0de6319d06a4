/** The per-connection loop of `handle_client`, over an abstract sequence of chunks read
    from the socket: strip each chunk, stop on an empty one, answer it, and stop after an
    answer that starts with "200 OK bye". The loop is stated for any request processor, and
    `Serve` instantiates it with `process_request`. */
module Session {
  import opened Tokenizer
  import opened Responses
  import opened Protocol
  import opened RequestLaws
  import opened Commands

  /** One chunk read from the socket, with the server's uptime in whole seconds at the
      moment it is processed. */
  datatype Arrival = Arrival(data: string, uptime: nat)

  /** A request processor: state, uptime and stripped line to answer and new state. */
  type Processor = (State, nat, string) -> (Response, State)

  /** `process_request` of one copy of the server. */
  function Process(variant: Variant): Processor {
    (st: State, uptime: nat, request: string) => Step(variant, st, uptime, request)
  }

  /** The rule that ends a session after an answer. As written the loop tests the rendered
      line for the prefix "200 OK bye"; the evidently intended rule ends it after the QUIT
      answer only. */
  predicate Ends(response: Response, intended: bool) {
    if intended then response == Bye else ClosesSession(response)
  }

  /** The answers of one session and the state after it, under either end rule. */
  function ServeUntil(process: Processor, st: State, arrivals: seq<Arrival>, intended: bool): (r: (seq<Response>, State))
    ensures |r.0| <= |arrivals|
    decreases |arrivals|
  {
    if arrivals == [] then ([], st)
    else
      var data := Strip(arrivals[0].data);
      if data == "" then ([], st)
      else
        var (response, st1) := process(st, arrivals[0].uptime, data);
        if Ends(response, intended) then ([response], st1)
        else
          var (rest, st2) := ServeUntil(process, st1, arrivals[1..], intended);
          ([response] + rest, st2)
  }

  /** `handle_client` as written. */
  function Serve(variant: Variant, st: State, arrivals: seq<Arrival>): (r: (seq<Response>, State))
    ensures |r.0| <= |arrivals|
  {
    ServeUntil(Process(variant), st, arrivals, false)
  }

  /** `handle_client` with the evidently intended end rule: close after QUIT only. */
  function ServeIntended(variant: Variant, st: State, arrivals: seq<Arrival>): (r: (seq<Response>, State))
    ensures |r.0| <= |arrivals|
  {
    ServeUntil(Process(variant), st, arrivals, true)
  }

  /** The lines written to the socket: each answer followed by a newline. */
  function Wire(responses: seq<Response>): (lines: seq<string>)
    ensures |lines| == |responses|
    decreases |responses|
  {
    if responses == [] then []
    else Wire(responses[..|responses| - 1]) + [Render(responses[|responses| - 1]) + "\n"]
  }

  /** One turn of the loop: the first chunk is answered, then the loop ends or goes on. */
  lemma ServeUntilCons(process: Processor, st: State, arrivals: seq<Arrival>, intended: bool)
    requires arrivals != [] && Strip(arrivals[0].data) != ""
    ensures var step := process(st, arrivals[0].uptime, Strip(arrivals[0].data));
      var rest := ServeUntil(process, step.1, arrivals[1..], intended);
      ServeUntil(process, st, arrivals, intended)
        == if Ends(step.0, intended) then ([step.0], step.1) else ([step.0] + rest.0, rest.1)
  {
  }

  /** A chunk that strips to nothing ends the session without an answer. */
  lemma BlankChunkEnds(process: Processor, st: State, arrivals: seq<Arrival>, intended: bool)
    requires arrivals != [] && Strip(arrivals[0].data) == ""
    ensures ServeUntil(process, st, arrivals, intended) == ([], st)
  {
  }

  /** A request sent on a connection of its own gets the same answer and leaves the same state
      as when it opens a longer session; if its answer does not end the session, the rest of
      that session is a new session started from that state. */
  lemma OwnConnection(process: Processor, st: State, a: Arrival, rest: seq<Arrival>, intended: bool)
    requires Strip(a.data) != ""
    ensures var one := ServeUntil(process, st, [a], intended);
      var after := ServeUntil(process, one.1, rest, intended);
      && |one.0| == 1
      && ServeUntil(process, st, [a] + rest, intended)
           == if Ends(one.0[0], intended) then one else (one.0 + after.0, after.1)
  {
    ServeUntilCons(process, st, [a], intended);
    ServeUntilCons(process, st, [a] + rest, intended);
    assert ([a] + rest)[0] == a && ([a] + rest)[1..] == rest;
    assert [a][1..] == [];
    var step := process(st, a.uptime, Strip(a.data));
    assert ServeUntil(process, step.1, [], intended) == ([], step.1);
    assert [step.0] + [] == [step.0];
  }

  /** The answers of a session that has already produced `answered` and goes on as `rest`. */
  function Resume(answered: seq<Response>, rest: (seq<Response>, State)): (seq<Response>, State) {
    (answered + rest.0, rest.1)
  }

  lemma ResumeCons(answered: seq<Response>, response: Response, rest: (seq<Response>, State))
    ensures Resume(answered, ([response] + rest.0, rest.1)) == Resume(answered + [response], rest)
  {
    assert answered + ([response] + rest.0) == (answered + [response]) + rest.0;
  }

  /** Sending one more answer appends its line. */
  lemma WireSnoc(responses: seq<Response>, response: Response)
    ensures Wire(responses + [response]) == Wire(responses) + [Render(response) + "\n"]
  {
    assert (responses + [response])[..|responses|] == responses;
  }

  /** Every answered chunk counts once: the counter after a session has gone up by the
      number of answers. */
  lemma {:induction false} ServedCountsAnswers(variant: Variant, st: State, arrivals: seq<Arrival>, intended: bool)
    ensures var r := ServeUntil(Process(variant), st, arrivals, intended);
      r.1.served == st.served + |r.0|
    decreases |arrivals|
  {
    if arrivals != [] && Strip(arrivals[0].data) != "" {
      ServeUntilCons(Process(variant), st, arrivals, intended);
      var step := Step(variant, st, arrivals[0].uptime, Strip(arrivals[0].data));
      ServedCountsAnswers(variant, step.1, arrivals[1..], intended);
    }
  }

  /** Line `i` on the wire is answer `i` rendered and followed by one newline. */
  lemma {:induction false} WireLines(responses: seq<Response>)
    ensures forall i :: 0 <= i < |responses| ==> Wire(responses)[i] == Render(responses[i]) + "\n"
    decreases |responses|
  {
    if responses != [] {
      var init := responses[..|responses| - 1];
      WireLines(init);
      assert forall i :: 0 <= i < |init| ==> responses[i] == init[i];
    }
  }

  /** Started from a well-formed store, no answer of a session renders with a line break of
      its own, so the client reads exactly one line per answer. */
  lemma {:induction false} AnswersAreOneLine(variant: Variant, st: State, arrivals: seq<Arrival>, intended: bool)
    requires WellFormedStore(st.storage)
    ensures var rs := ServeUntil(Process(variant), st, arrivals, intended).0;
      forall i :: 0 <= i < |rs| ==> '\n' !in Render(rs[i])
    decreases |arrivals|
  {
    if arrivals != [] && Strip(arrivals[0].data) != "" {
      var data := Strip(arrivals[0].data);
      ServeUntilCons(Process(variant), st, arrivals, intended);
      var step := Step(variant, st, arrivals[0].uptime, data);
      AnswerIsOneLine(variant, st, arrivals[0].uptime, data);
      StepKeepsStoreWellFormed(variant, st, arrivals[0].uptime, data);
      AnswersAreOneLine(variant, step.1, arrivals[1..], intended);
    }
  }

  /** A session ends only at the end of the input, at a blank chunk, or after an answer
      that meets the end rule; every earlier answer does not meet it. */
  lemma ServeUntilEnds(process: Processor, st: State, arrivals: seq<Arrival>, intended: bool)
    ensures var rs := ServeUntil(process, st, arrivals, intended).0;
      && (forall i :: 0 <= i < |rs| - 1 ==> !Ends(rs[i], intended))
      && (|rs| < |arrivals| && (rs == [] || !Ends(rs[|rs| - 1], intended)) ==> Strip(arrivals[|rs|].data) == "")
  {
    EarlyAnswersContinue(process, st, arrivals, intended);
    StopsAtBlank(process, st, arrivals, intended);
  }

  lemma {:induction false} EarlyAnswersContinue(process: Processor, st: State, arrivals: seq<Arrival>, intended: bool)
    ensures var rs := ServeUntil(process, st, arrivals, intended).0;
      forall i :: 0 <= i < |rs| - 1 ==> !Ends(rs[i], intended)
    decreases |arrivals|
  {
    if arrivals != [] && Strip(arrivals[0].data) != "" {
      var step := process(st, arrivals[0].uptime, Strip(arrivals[0].data));
      ServeUntilCons(process, st, arrivals, intended);
      if !Ends(step.0, intended) {
        EarlyAnswersContinue(process, step.1, arrivals[1..], intended);
        var rest := ServeUntil(process, step.1, arrivals[1..], intended).0;
        var rs := ServeUntil(process, st, arrivals, intended).0;
        assert rs == [step.0] + rest;
        forall i | 0 <= i < |rs| - 1 ensures !Ends(rs[i], intended) {
          if i > 0 { assert rs[i] == rest[i - 1]; }
        }
      }
    }
  }

  lemma {:induction false} StopsAtBlank(process: Processor, st: State, arrivals: seq<Arrival>, intended: bool)
    ensures var rs := ServeUntil(process, st, arrivals, intended).0;
      |rs| < |arrivals| && (rs == [] || !Ends(rs[|rs| - 1], intended)) ==> Strip(arrivals[|rs|].data) == ""
    decreases |arrivals|
  {
    if arrivals != [] {
      if Strip(arrivals[0].data) != "" {
        var step := process(st, arrivals[0].uptime, Strip(arrivals[0].data));
        ServeUntilCons(process, st, arrivals, intended);
        if !Ends(step.0, intended) {
          StopsAtBlank(process, step.1, arrivals[1..], intended);
          var rest := ServeUntil(process, step.1, arrivals[1..], intended).0;
          var rs := ServeUntil(process, st, arrivals, intended).0;
          assert rs == [step.0] + rest;
          if |rs| < |arrivals| && !Ends(rs[|rs| - 1], intended) {
            assert rest != [] ==> rs[|rs| - 1] == rest[|rest| - 1];
            assert arrivals[|rs|] == arrivals[1..][|rest|];
          }
        }
      }
    }
  }

  /** The corrected loop keeps answering until QUIT, whatever the request processor: no
      answer before the last is the QUIT answer, and a session that stops before the input
      runs out without a QUIT answer stopped at a chunk that strips to nothing. */
  lemma IntendedEndsOnlyOnQuit(process: Processor, st: State, arrivals: seq<Arrival>)
    ensures var rs := ServeUntil(process, st, arrivals, true).0;
      && (forall i :: 0 <= i < |rs| - 1 ==> rs[i] != Bye)
      && (|rs| < |arrivals| && (rs == [] || rs[|rs| - 1] != Bye) ==> Strip(arrivals[|rs|].data) == "")
  {
    ServeUntilEnds(process, st, arrivals, true);
  }

  /** The loop as written also stops after a GET answer whose value starts with "bye". */
  lemma AsWrittenEndsOnByePrefix(process: Processor, st: State, arrivals: seq<Arrival>)
    ensures var rs := ServeUntil(process, st, arrivals, false).0;
      && (forall i :: 0 <= i < |rs| - 1 ==> rs[i] != Bye && !(rs[i].OkValue? && StartsWith(rs[i].value, "bye")))
      && (|rs| < |arrivals| && (rs == [] || !ClosesSession(rs[|rs| - 1])) ==> Strip(arrivals[|rs|].data) == "")
  {
    ServeUntilEnds(process, st, arrivals, false);
    var rs := ServeUntil(process, st, arrivals, false).0;
    forall i | 0 <= i < |rs| - 1
      ensures rs[i] != Bye && !(rs[i].OkValue? && StartsWith(rs[i].value, "bye"))
    {
      ClosesSessionCases(rs[i]);
    }
  }

  /** Without a GET answer whose value starts with "bye", the loop as written and the
      corrected loop behave alike. */
  lemma {:induction false} AgreeWithoutByeValues(process: Processor, st: State, arrivals: seq<Arrival>)
    requires forall r :: r in ServeUntil(process, st, arrivals, true).0 ==> !(r.OkValue? && StartsWith(r.value, "bye"))
    ensures ServeUntil(process, st, arrivals, false) == ServeUntil(process, st, arrivals, true)
    decreases |arrivals|
  {
    if arrivals != [] {
      var data := Strip(arrivals[0].data);
      if data != "" {
        var (response, st1) := process(st, arrivals[0].uptime, data);
        ServeUntilCons(process, st, arrivals, true);
        ServeUntilCons(process, st, arrivals, false);
        assert response in ServeUntil(process, st, arrivals, true).0;
        ClosesSessionCases(response);
        if response != Bye {
          assert ServeUntil(process, st1, arrivals[1..], true).0 <= ServeUntil(process, st, arrivals, true).0[1..];
          AgreeWithoutByeValues(process, st1, arrivals[1..]);
        }
      }
    }
  }

  /** One command of a session at the command level, with the uptime when it is answered. */
  datatype Turn = Turn(cmd: Command, uptime: nat)

  /** The end rule at the command level, read off the answers rather than their text: the
      QUIT answer, and under the rule as written also a value that starts with "bye". */
  predicate StopsAfter(response: Response, intended: bool) {
    response == Bye || (!intended && response.OkValue? && StartsWith(response.value, "bye"))
  }

  /** The two statements of the end rule agree on every answer. */
  lemma EndsIffStopsAfter(response: Response, intended: bool)
    ensures Ends(response, intended) <==> StopsAfter(response, intended)
  {
    ClosesSessionCases(response);
  }

  /** The reference session: apply the commands in order to the state, stopping after an
      answer that meets the end rule. */
  function Replay(st: State, turns: seq<Turn>, intended: bool): (r: (seq<Response>, State))
    ensures |r.0| <= |turns|
    decreases |turns|
  {
    if turns == [] then ([], st)
    else
      var (response, st1) := Apply(st, turns[0].cmd, turns[0].uptime);
      if StopsAfter(response, intended) then ([response], st1)
      else
        var (rest, st2) := Replay(st1, turns[1..], intended);
        ([response] + rest, st2)
  }

  /** The chunks a client sends for a list of commands: one request line each. */
  function Chunks(turns: seq<Turn>): (arrivals: seq<Arrival>)
    ensures |arrivals| == |turns|
    decreases |turns|
  {
    if turns == [] then [] else [Arrival(Line(turns[0].cmd), turns[0].uptime)] + Chunks(turns[1..])
  }

  /** The connection loop agrees with the reference session on every input whose chunks
      carry the tokens of well-formed commands, under either end rule. */
  lemma {:induction false} ServeCommands(variant: Variant, st: State, arrivals: seq<Arrival>, turns: seq<Turn>, intended: bool)
    requires |arrivals| == |turns|
    requires forall i :: 0 <= i < |turns| ==>
      WellFormed(turns[i].cmd) && Split(arrivals[i].data) == Tokens(turns[i].cmd) && arrivals[i].uptime == turns[i].uptime
    ensures ServeUntil(Process(variant), st, arrivals, intended) == Replay(st, turns, intended)
    decreases |turns|
  {
    if turns != [] {
      var data, c := arrivals[0].data, turns[0].cmd;
      SplitIgnoresStrip(data);
      assert Strip(data) != "" by { assert Split(Strip(data)) != []; }
      StepMatchesApply(variant, st, arrivals[0].uptime, Strip(data), c);
      EndsIffStopsAfter(Apply(st, c, turns[0].uptime).0, intended);
      ServeUntilCons(Process(variant), st, arrivals, intended);
      var st1 := Apply(st, c, turns[0].uptime).1;
      ServeCommands(variant, st1, arrivals[1..], turns[1..], intended);
    }
  }

  /** Sending the request lines of well-formed commands is answered as the reference
      session says. */
  lemma ServeLines(variant: Variant, st: State, turns: seq<Turn>, intended: bool)
    requires forall i :: 0 <= i < |turns| ==> WellFormed(turns[i].cmd)
    ensures ServeUntil(Process(variant), st, Chunks(turns), intended) == Replay(st, turns, intended)
  {
    ChunksCarryLines(turns);
    var arrivals := Chunks(turns);
    forall i | 0 <= i < |turns|
      ensures Split(arrivals[i].data) == Tokens(turns[i].cmd)
    {
      LineTokens(turns[i].cmd);
    }
    ServeCommands(variant, st, arrivals, turns, intended);
  }

  lemma {:induction false} ChunksCarryLines(turns: seq<Turn>)
    ensures forall i :: 0 <= i < |turns| ==> Chunks(turns)[i] == Arrival(Line(turns[i].cmd), turns[i].uptime)
    decreases |turns|
  {
    if turns != [] {
      ChunksCarryLines(turns[1..]);
      var rest := Chunks(turns[1..]);
      assert Chunks(turns) == [Arrival(Line(turns[0].cmd), turns[0].uptime)] + rest;
      forall i | 0 <= i < |turns|
        ensures Chunks(turns)[i] == Arrival(Line(turns[i].cmd), turns[i].uptime)
      {
        if i > 0 { assert Chunks(turns)[i] == rest[i - 1]; assert turns[1..][i - 1] == turns[i]; }
      }
    }
  }

  /** The lab's manual sequence: PUT k v, GET k, DEL k, GET k, STATS, QUIT. Lists in the
      scenarios below are written one element at a time, `[x] + rest`, as the reference
      session takes them apart. */
  function LabTurns(key: string, value: string, u: nat): seq<Turn> {
    [Turn(PutCmd(key, [value]), u)] + LabTail(key, u)
  }

  /** The lab's sequence after the PUT. */
  function LabTail(key: string, u: nat): seq<Turn> {
    [Turn(GetCmd(key), u)] + ([Turn(DelCmd(key), u)] + EmptyTail(key, u))
  }

  /** GET k, STATS, QUIT. */
  function EmptyTail(key: string, u: nat): seq<Turn> {
    [Turn(GetCmd(key), u)] + ([Turn(StatsCmd, u)] + [Turn(QuitCmd, u)])
  }

  /** A turn of the reference session whose answer does not end it. */
  lemma ReplayGoesOn(st: State, t: Turn, rest: seq<Turn>, intended: bool, response: Response, st1: State)
    requires Apply(st, t.cmd, t.uptime) == (response, st1) && !StopsAfter(response, intended)
    ensures Replay(st, [t] + rest, intended).0 == [response] + Replay(st1, rest, intended).0
    ensures Replay(st, [t] + rest, intended).1 == Replay(st1, rest, intended).1
  {
    assert ([t] + rest)[0] == t;
    assert ([t] + rest)[1..] == rest;
  }

  /** The last turn of the reference session: its answer ends it. */
  lemma ReplayEnds(st: State, t: Turn, rest: seq<Turn>, intended: bool, response: Response, st1: State)
    requires Apply(st, t.cmd, t.uptime) == (response, st1) && StopsAfter(response, intended)
    ensures Replay(st, [t] + rest, intended) == ([response], st1)
  {
    assert ([t] + rest)[0] == t;
  }

  /** QUIT answers bye and ends the reference session under either end rule, whatever
      commands follow it; only the counter moves. */
  lemma QuitTail(st: State, u: nat, rest: seq<Turn>, intended: bool)
    ensures Replay(st, [Turn(QuitCmd, u)] + rest, intended) == ([Bye], State(st.storage, st.served + 1))
  {
    ReplayEnds(st, Turn(QuitCmd, u), rest, intended, Bye, State(st.storage, st.served + 1));
  }

  /** GET k, STATS and QUIT on an empty store answer 404, keys=0 and bye, and change nothing
      but the counter. */
  lemma EmptyStoreTail(st: State, u: nat, key: string)
    requires st.storage == map[]
    ensures Replay(st, EmptyTail(key, u), false)
      == ([NotFound] + ([StatsLine(0, u, st.served + 2)] + [Bye]), State(map[], st.served + 3))
  {
    var s1 := State(map[], st.served + 1);
    var s2 := State(map[], st.served + 2);
    QuitTail(s2, u, [], false);
    assert [Turn(QuitCmd, u)] + [] == [Turn(QuitCmd, u)];
    ReplayGoesOn(s1, Turn(StatsCmd, u), [Turn(QuitCmd, u)], false, StatsLine(0, u, st.served + 2), s2);
    ReplayGoesOn(st, Turn(GetCmd(key), u), [Turn(StatsCmd, u)] + [Turn(QuitCmd, u)], false, NotFound, s1);
  }

  /** GET k and DEL k on a store holding only k, then the empty-store tail. */
  lemma StoredTail(st: State, u: nat, key: string, value: string)
    requires st.storage == map[key := value] && !StartsWith(value, "bye")
    ensures Replay(st, LabTail(key, u), false)
      == ([OkValue(value)] + ([NoContent] + ([NotFound] + ([StatsLine(0, u, st.served + 4)] + [Bye]))),
          State(map[], st.served + 5))
  {
    var s1 := State(st.storage, st.served + 1);
    var s2 := State(st.storage - {key}, st.served + 2);
    assert s2.storage == map[];
    EmptyStoreTail(s2, u, key);
    ReplayGoesOn(s1, Turn(DelCmd(key), u), EmptyTail(key, u), false, NoContent, s2);
    ReplayGoesOn(st, Turn(GetCmd(key), u), [Turn(DelCmd(key), u)] + EmptyTail(key, u), false, OkValue(value), s1);
  }

  /** The reference session of the lab's manual sequence on an empty store. */
  lemma LabReplay(served: nat, u: nat, key: string, value: string)
    requires !StartsWith(value, "bye")
    ensures Replay(State(map[], served), LabTurns(key, value, u), false)
      == ([Created] + ([OkValue(value)] + ([NoContent] + ([NotFound] + ([StatsLine(0, u, served + 5)] + [Bye])))),
          State(map[], served + 6))
  {
    var s1 := State(map[key := value], served + 1);
    assert Join([value]) == value;
    StoredTail(s1, u, key, value);
    ReplayGoesOn(State(map[], served), Turn(PutCmd(key, [value]), u), LabTail(key, u), false, Created, s1);
  }

  /** The lab's manual sequence on an empty store, for any key k and one-word value v,
      answers 201, 200 OK v, 204, 404, keys=0 and bye in both copies and leaves the store
      empty (as written, a value starting with "bye" would end the session at the first GET
      instead). */
  lemma LabSequence(variant: Variant, served: nat, u: nat, key: string, value: string)
    requires IsToken(key) && IsToken(value) && !StartsWith(value, "bye")
    ensures Serve(variant, State(map[], served), Chunks(LabTurns(key, value, u)))
      == ([Created, OkValue(value), NoContent, NotFound, StatsLine(0, u, served + 5), Bye],
          State(map[], served + 6))
  {
    var turns := LabTurns(key, value, u);
    assert forall i :: 0 <= i < |turns| ==> WellFormed(turns[i].cmd);
    ServeLines(variant, State(map[], served), turns, false);
    LabReplay(served, u, key, value);
    SixInARow(Created, OkValue(value), NoContent, NotFound, StatsLine(0, u, served + 5), Bye);
  }

  lemma SixInARow<T>(a: T, b: T, c: T, d: T, e: T, f: T)
    ensures [a] + ([b] + ([c] + ([d] + ([e] + [f])))) == [a, b, c, d, e, f]
  {
    assert [e] + [f] == [e, f];
    assert [d] + [e, f] == [d, e, f];
    assert [c] + [d, e, f] == [c, d, e, f];
    assert [b] + [c, d, e, f] == [b, c, d, e, f];
  }

  /** The chunks of the counterexample to the end rule as written: PUT k v, GET k, STATS. */
  function ByeTurns(key: string, value: string, u: nat): seq<Turn> {
    [Turn(PutCmd(key, [value]), u)] + ([Turn(GetCmd(key), u)] + [Turn(StatsCmd, u)])
  }

  /** The reference session of the counterexample under the end rule as written: it stops
      after the GET answer. */
  lemma ByeReplayAsWritten(served: nat, u: nat, key: string, value: string)
    requires StartsWith(value, "bye")
    ensures Replay(State(map[], served), ByeTurns(key, value, u), false).0 == [Created] + [OkValue(value)]
  {
    var stored := map[key := value];
    assert Join([value]) == value;
    ReplayEnds(State(stored, served + 1), Turn(GetCmd(key), u), [Turn(StatsCmd, u)], false,
               OkValue(value), State(stored, served + 2));
    ReplayGoesOn(State(map[], served), Turn(PutCmd(key, [value]), u), [Turn(GetCmd(key), u)] + [Turn(StatsCmd, u)],
                 false, Created, State(stored, served + 1));
  }

  /** The reference session of the counterexample under the corrected end rule: the STATS
      line is answered. */
  lemma ByeReplayIntended(served: nat, u: nat, key: string, value: string)
    ensures Replay(State(map[], served), ByeTurns(key, value, u), true).0
      == [Created] + ([OkValue(value)] + ([StatsLine(1, u, served + 3)] + []))
  {
    var stored := map[key := value];
    assert Join([value]) == value;
    ReplayGoesOn(State(stored, served + 2), Turn(StatsCmd, u), [], true,
                 StatsLine(1, u, served + 3), State(stored, served + 3));
    assert [Turn(StatsCmd, u)] + [] == [Turn(StatsCmd, u)];
    ReplayGoesOn(State(stored, served + 1), Turn(GetCmd(key), u), [Turn(StatsCmd, u)], true,
                 OkValue(value), State(stored, served + 2));
    ReplayGoesOn(State(map[], served), Turn(PutCmd(key, [value]), u), [Turn(GetCmd(key), u)] + [Turn(StatsCmd, u)],
                 true, Created, State(stored, served + 1));
  }

  /** The counterexample to the end rule as written: after PUT k v and GET k with a value v
      that starts with "bye", the loop closes the connection and the STATS line is never
      answered; the corrected loop answers it. */
  lemma ByeValueEndsSession(variant: Variant, served: nat, u: nat, key: string, value: string)
    requires IsToken(key) && IsToken(value) && StartsWith(value, "bye")
    ensures Serve(variant, State(map[], served), Chunks(ByeTurns(key, value, u))).0
      == [Created, OkValue(value)]
    ensures ServeIntended(variant, State(map[], served), Chunks(ByeTurns(key, value, u))).0
      == [Created, OkValue(value), StatsLine(1, u, served + 3)]
  {
    var turns := ByeTurns(key, value, u);
    assert forall i :: 0 <= i < |turns| ==> WellFormed(turns[i].cmd);
    ServeLines(variant, State(map[], served), turns, false);
    ServeLines(variant, State(map[], served), turns, true);
    ByeReplayAsWritten(served, u, key, value);
    ByeReplayIntended(served, u, key, value);
    assert [Created] + [OkValue(value)] == [Created, OkValue(value)];
    assert [Created] + ([OkValue(value)] + ([StatsLine(1, u, served + 3)] + []))
      == [Created, OkValue(value), StatsLine(1, u, served + 3)];
  }
}
