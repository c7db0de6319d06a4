# KV/1.0 key-value server: request processor and connection loop

This project models the core of the KV/1.0 key-value server in Dafny. A client sends text
lines such as `KV/1.0 PUT user42 Alice` over TCP. The server keeps an in-memory
`map<string, string>` store and a counter of requests served. It answers each line with one
status line (`201 CREATED`, `200 OK <value>`, `404 NOT_FOUND`, ...).

The repository holds two copies of the server, and both are modelled:

- **Root** (`server/kvss_server.py`): any first token other than exactly `KV/1.0` is
  answered `426 UPGRADE_REQUIRED`.
- **Lab** (`chap_1/kvss/server/kvss_server.py`): a first token that does not start with
  `KV/` is answered `400 BAD_REQUEST`. Only a `KV/` token with another version gets `426`.

Apart from this version check the two copies are the same code. The model follows each
file as written. The Root file's own test case 6 (`PUT user43 Charlie`) expects `400`, but
the Root code answers `426`, and its test docstring also says `426`.
`RequestLaws.MissingVersionLine` proves what each copy answers to that line, and
`RequestLaws.VariantsDiffer` proves that this is the only kind of line on which the two
copies differ.

Modules, in dependency order:

- `Tokenizer`: Python's `str.split()`, `str.strip()` and `" ".join`, over the `str.isspace`
  whitespace set. Includes the split/join round trip.
- `Responses`: the status lines as a datatype, their exact text (`Render`), and the
  connection loop's `startswith("200 OK bye")` test.
- `Protocol`: `process_request` and its handlers as pure functions of
  `State(storage, served)`. `Step` is the whole request processor, with a `Variant`
  parameter for the copy.
- `RequestLaws`: what one request line does, stated over its tokens: every error path,
  each verb, the Root/Lab difference, and the store invariant.
- `Commands`: the five well-formed requests as values, and a reference semantics `Apply`
  stated directly on the store. `StepMatchesApply` proves the request processor agrees
  with it.
- `Session`: the `handle_client` loop over the chunks of one connection, for any request
  processor. It gives the loop as written (`Serve`) and with the corrected end rule
  (`ServeIntended`), plus a command-level reference session (`Replay`) and the scenarios
  from the tests.
- `Server`: the `KVSSServer` class. Its `storage` and `requestsServed` fields are updated
  in place by `ProcessRequest` and the handler methods. `HandleClient` is the connection
  loop as a `while` loop. Every method is proved against the functions above.

## Model

| member | source | states |
|---|---|---|
| Tokenizer.Split | server/kvss_server.py:107 | every token `split()` yields is non-empty and free of whitespace |
| Tokenizer.TokensHaveNoSpace | server/kvss_server.py:144-145 | no token contains `' '`, so the key-with-space rejection in `handle_put` can never fire on a tokenised line |
| Tokenizer.SplitJoin | server/kvss_server.py:142 | splitting the space-joined list of tokens gives back exactly those tokens |
| Tokenizer.SplitJoinSqueezes | server/kvss_server.py:142 | splitting any string and re-joining the words gives the string stripped, with every run of whitespace replaced by one space |
| Tokenizer.JoinedSpaces | server/kvss_server.py:142 | the only whitespace in a space-joined list of tokens is the `' '` characters put between them |
| Tokenizer.SplitIgnoresStrip | server/kvss_server.py:107 | `strip()` before `split()` does not change the tokens |
| Tokenizer.StripEmptyIffBlank | server/kvss_server.py:83-85 | a chunk strips to the empty string exactly when every character of it is whitespace |
| Responses.Decimal | server/kvss_server.py:181 | `str(n)` is a non-empty string of digits with no leading zero |
| Responses.DecimalRoundTrip | server/kvss_server.py:181 | the counts written in a STATS line read back as the same numbers |
| Responses.RenderOneLine | server/kvss_server.py:91 | an answer's text contains a newline exactly when it is a GET value that contains one |
| Responses.ClosesSessionCases | server/kvss_server.py:94-95 | the `startswith("200 OK bye")` test holds exactly for the QUIT answer and for a GET answer whose value starts with `bye` |
| Protocol.VersionGate | chap_1/kvss/server/kvss_server.py:93-97 | in both copies a request is dispatched exactly when its first token is `KV/1.0` |
| Protocol.Step | server/kvss_server.py:102-134 | every request raises `requests_served` by exactly one, whatever the answer |
| RequestLaws.ShortLine | server/kvss_server.py:107-109 | fewer than two tokens: `400`, store unchanged, counter up by one (both copies) |
| RequestLaws.RootVersionMismatch | server/kvss_server.py:115-116 | Root: a first token other than `KV/1.0` gets `426` whatever follows, store unchanged |
| RequestLaws.LabMissingTag | chap_1/kvss/server/kvss_server.py:93-94 | Lab: a first token without the `KV/` tag gets `400`, store unchanged |
| RequestLaws.LabWrongVersion | chap_1/kvss/server/kvss_server.py:96-97 | Lab: a `KV/` tag with another version gets `426` before the verb is examined |
| RequestLaws.VariantsDiffer | chap_1/kvss/server/kvss_server.py:90-97 | the copies give different results on a line exactly when it has two or more tokens and its first lacks the `KV/` tag; Root then answers `426` and Lab `400` |
| RequestLaws.MissingVersionLine | tests/test_kvss.py:121-122 | the test line `PUT <key> <value>` gets `426` from Root and `400` from Lab |
| RequestLaws.WrongVersionBeforeVerb | chap_1/kvss/tests/test_kvss.py:134-139 | `KV/2.0 GET k` gets `426` from both copies, even when `k` is stored |
| RequestLaws.UnknownVerb | server/kvss_server.py:129-130 | a `KV/1.0` line with a verb other than the five gets `400`, store unchanged |
| RequestLaws.PutRequest | server/kvss_server.py:136-150 | PUT with fewer than two arguments is `400` with no change. Otherwise the key maps to the other arguments joined by single spaces, and no other key changes. The answer is `201` exactly when the key was absent and `200` exactly when it was present |
| RequestLaws.GetRequest | server/kvss_server.py:152-162 | GET needs exactly one argument (else `400`). A hit answers `200 OK <value>` and a miss `404`. The store never changes |
| RequestLaws.DelRequest | server/kvss_server.py:164-175 | DEL needs exactly one argument (else `400`). A present key is removed with `204` and nothing else changes. An absent key gives `404` with no change |
| RequestLaws.StatsRequest | server/kvss_server.py:177-181 | STATS reports `keys=` as the number of stored keys and `served=` as the counter including this request; nothing changes |
| RequestLaws.QuitRequest | server/kvss_server.py:183-185 | QUIT answers `200 OK bye` and changes nothing |
| RequestLaws.ByeOnlyFromQuit | server/kvss_server.py:119-130 | the answer is the QUIT answer (the `Bye` constructor) exactly when the line is `KV/1.0 QUIT ...`. A GET answer whose value is `bye` has the same text; `Responses.ClosesSessionCases` covers the text |
| RequestLaws.OnlyPutAndDelWrite | server/kvss_server.py:119-130 | a request that changes the store is a `KV/1.0` PUT or DEL |
| RequestLaws.KeyCountTracksAnswers | chap_1/kvss/server/kvss_server.py:154-157 | the number of stored keys goes up by one exactly on `201`, down by one exactly on `204`, and is unchanged otherwise; `keys=` counts distinct keys, not PUTs |
| RequestLaws.PutThenGet | server/kvss_server.py:136-162 | PUT k followed by GET k answers `200 OK` with the words rejoined, and splitting that value gives the words back |
| RequestLaws.DelTwice | server/kvss_server.py:164-175 | a second DEL of the same key answers `404` |
| RequestLaws.JoinedWordsAreValue | server/kvss_server.py:142 | a value written by PUT is in normal form: its words rejoined give it back |
| RequestLaws.StepKeepsStoreWellFormed | server/kvss_server.py:136-150 | every request keeps each stored key a single token and each stored value a rejoined list of words |
| RequestLaws.ValueIsOneLine | server/kvss_server.py:142 | the only whitespace in a stored value is `' '`, so it contains no newline |
| RequestLaws.AnswerIsOneLine | server/kvss_server.py:102-134 | against a well-formed store, no answer's text contains a newline |
| Commands.Apply | server/kvss_server.py:136-185 | the reference semantics of the five requests on the store; each raises the counter by one |
| Commands.LineTokens | server/kvss_server.py:107 | the request line of a well-formed command splits back into its tokens |
| Commands.StepMatchesApply | server/kvss_server.py:102-185 | both copies of `process_request` agree with the reference semantics on every line that carries a well-formed command |
| Session.ServeUntil | server/kvss_server.py:78-100 | a session answers at most one line per chunk |
| Session.Serve | server/kvss_server.py:82-95 | the connection loop as written answers at most one line per chunk |
| Session.ServeIntended | server/kvss_server.py:93-95 | the loop with the end rule its comment states answers at most one line per chunk |
| Session.Wire | server/kvss_server.py:91 | one string is sent per answer; `Session.WireLines` and `Session.AnswersAreOneLine` show that each string is exactly one line |
| Session.WireLines | server/kvss_server.py:91 | string `i` on the wire is the text of answer `i` followed by one newline |
| Session.AnswersAreOneLine | server/kvss_server.py:78-100 | in a session started from a well-formed store, no answer's text contains a newline, so the client reads exactly one line per answer |
| Session.OwnConnection | chap_1/kvss/tests/test_kvss.py:28-39 | a request sent alone on its own connection gets the same answer and leaves the same state as the first request of a longer session. If that answer does not end the session, the rest of it is answered as a new session from that state |
| Session.ServedCountsAnswers | server/kvss_server.py:104 | after a session the counter has risen by exactly the number of answers |
| Session.EarlyAnswersContinue | server/kvss_server.py:94-95 | no answer before the last one meets the end rule |
| Session.StopsAtBlank | server/kvss_server.py:83-85 | a session that stops early without meeting the end rule stopped at a chunk that strips to nothing |
| Session.ServeUntilEnds | server/kvss_server.py:82-95 | a session ends only at the end of input, at a blank chunk, or after an answer meeting the end rule |
| Session.IntendedEndsOnlyOnQuit | server/kvss_server.py:93-95 | with the corrected rule, no answer before the last is the QUIT answer, and an early stop without one is at a blank chunk |
| Session.AsWrittenEndsOnByePrefix | server/kvss_server.py:94-95 | as written, the loop also stops after a GET answer whose value starts with `bye` |
| Session.AgreeWithoutByeValues | server/kvss_server.py:94-95 | when no answer is a value starting with `bye`, the loop as written and the corrected loop give the same answers and state |
| Session.EndsIffStopsAfter | server/kvss_server.py:94-95 | the end rule on the rendered text and the end rule on the answer value agree |
| Session.Replay | server/kvss_server.py:82-95 | the reference session over commands answers at most one line per command |
| Session.ServeCommands | server/kvss_server.py:82-95 | on chunks carrying well-formed commands, the connection loop gives exactly the reference session, under either end rule and in both copies |
| Session.ServeLines | server/kvss_server.py:82-95 | sending the request lines of well-formed commands is answered as the reference session says |
| Session.QuitTail | server/kvss_server.py:183-185 | under either end rule, QUIT answers `bye` and ends the reference session whatever commands follow; only the counter changes |
| Session.EmptyStoreTail | chap_1/kvss/server/kvss_server.py:131-157 | on an empty store, GET k, STATS and QUIT answer `404`, `keys=0` and `bye` |
| Session.StoredTail | chap_1/kvss/server/kvss_server.py:131-152 | on a store holding only k, with a value that does not start with `bye`, GET k and DEL k answer the value and `204` and leave the store empty. The empty-store tail follows |
| Session.LabReplay | chap_1/kvss/tests/test_kvss.py:193-200 | the reference session of the lab sequence on an empty store, for a value that does not start with `bye` |
| Session.LabSequence | chap_1/kvss/tests/test_kvss.py:193-200 | for a one-token key k and a one-token value v that does not start with `bye`, both copies answer the lab sequence PUT k v, GET k, DEL k, GET k, STATS, QUIT on an empty store with `201`, `200 OK v`, `204`, `404`, `keys=0`, `bye`, and end with an empty store. The six requests share one connection here, while the test opens a new connection for each (chap_1/kvss/tests/test_kvss.py:28-39); `Session.OwnConnection` relates the two forms |
| Session.ByeReplayIntended | server/kvss_server.py:93-95 | with the corrected end rule the same session answers the STATS line too |
| Session.ByeValueEndsSession | server/kvss_server.py:93-95 | the loop as written closes the connection after `GET k` when k holds a value starting with `bye`; the corrected loop goes on |
| Server.KVSSServer.constructor | server/kvss_server.py:35-42 | a new server has an empty store and has served no request |
| Server.KVSSServer.HandlePut | server/kvss_server.py:136-150 | `handle_put` updates the store in place as `Put` says and leaves the counter alone; on arguments that are tokens it keeps the store well formed |
| Server.KVSSServer.HandleGet | server/kvss_server.py:152-162 | `handle_get` answers as `Get` says and changes nothing |
| Server.KVSSServer.HandleDel | server/kvss_server.py:164-175 | `handle_del` removes in place as `Del` says, leaves the counter alone and keeps the store well formed |
| Server.KVSSServer.HandleStats | server/kvss_server.py:177-181 | `handle_stats` reports the key count, the given uptime and the counter |
| Server.KVSSServer.HandleQuit | server/kvss_server.py:183-185 | `handle_quit` answers `200 OK bye`, which closes the session |
| Server.KVSSServer.ProcessRequest | server/kvss_server.py:102-134 | the answer and the new fields are those of `Step` for the object's copy; the counter rises by one; the store stays well formed |
| Server.KVSSServer.HandleClient | server/kvss_server.py:78-100 | the lines sent and the final fields are those of `Serve`; the counter rises by the number of lines sent |

## Left out

- Sockets, threads, `start`, `stop`, the accept loop, `SO_REUSEADDR` and logging: I/O plumbing. The `host`, `port`, `running` and `socket` fields are not modelled.
- `recv(1024)` framing: a connection is modelled as the sequence of chunks it delivers, and each chunk is taken as one request.
- UTF-8 decoding: chunks are given as strings, so a decoding error, which would end the connection through the `except` clause, does not arise.
- `time.time()`: the uptime STATS reports is a `nat` given with each chunk (`Arrival.uptime`). The float subtraction and `int()` truncation are not modelled.
- The `except Exception` path answering `500 SERVER_ERROR` (server/kvss_server.py:132-134): none of the modelled operations can raise.
- Concurrency: the source takes no lock around `storage` or `requests_served`. The model is sequential and makes no atomicity claim.
- The clients, the test harnesses (used only as evidence for expected answers), and the `chap_4` benchmark and Java race demos.
- Server.KVSSServer.HandleClient: it models the loop as written, ending on the `200 OK bye` prefix. The corrected end rule is stated and proved on `Session.ServeIntended` only.

## Findings

| source | as written | input that shows it | evidently intended | confidence | as-written member | corrected member |
|---|---|---|---|---|---|---|
| server/kvss_server.py:94-95 | the loop closes the connection after any answer whose text starts with `200 OK bye` (the lab copy has the same test at chap_1/kvss/server/kvss_server.py:74-75) | `KV/1.0 PUT k bye`, `KV/1.0 GET k`, `KV/1.0 STATS`: the GET answer `200 OK bye` closes the connection and STATS is never answered | close only after the QUIT answer, as the comment on line 93 says | high, not executed | Session.ByeValueEndsSession | Session.IntendedEndsOnlyOnQuit |
