/** What one request line does to the server, stated over the tokens of the line. */
module RequestLaws {
  import opened Tokenizer
  import opened Responses
  import opened Protocol

  /** The state after a request that leaves the storage alone. */
  function Counted(st: State): State {
    State(st.storage, st.served + 1)
  }

  /** Fewer than two tokens: 400, nothing stored changes (both copies). */
  lemma ShortLine(variant: Variant, st: State, uptime: nat, request: string)
    requires |Split(request)| < 2
    ensures Step(variant, st, uptime, request) == (BadRequest, Counted(st))
  {
    SplitIgnoresStrip(request);
  }

  /** Root copy: any first token other than exactly KV/1.0 gets 426, whatever follows. */
  lemma RootVersionMismatch(st: State, uptime: nat, request: string)
    requires |Split(request)| >= 2 && Split(request)[0] != Version
    ensures Step(Root, st, uptime, request) == (UpgradeRequired, Counted(st))
  {
    SplitIgnoresStrip(request);
  }

  /** Lab copy: a first token without the KV/ tag gets 400. */
  lemma LabMissingTag(st: State, uptime: nat, request: string)
    requires |Split(request)| >= 2 && !StartsWith(Split(request)[0], Tag)
    ensures Step(Lab, st, uptime, request) == (BadRequest, Counted(st))
  {
    SplitIgnoresStrip(request);
  }

  /** Lab copy: a KV/ tag with another version gets 426, before the verb is looked at. */
  lemma LabWrongVersion(st: State, uptime: nat, request: string)
    requires |Split(request)| >= 2 && StartsWith(Split(request)[0], Tag) && Split(request)[0] != Version
    ensures Step(Lab, st, uptime, request) == (UpgradeRequired, Counted(st))
  {
    SplitIgnoresStrip(request);
  }

  /** The two copies answer every line alike, except a line of two or more tokens whose
      first token lacks the KV/ tag: Root answers it 426 and Lab 400. */
  lemma VariantsDiffer(st: State, uptime: nat, request: string)
    ensures Step(Root, st, uptime, request) != Step(Lab, st, uptime, request)
        <==> |Split(request)| >= 2 && !StartsWith(Split(request)[0], Tag)
    ensures |Split(request)| >= 2 && !StartsWith(Split(request)[0], Tag) ==>
      Step(Root, st, uptime, request) == (UpgradeRequired, Counted(st)) &&
      Step(Lab, st, uptime, request) == (BadRequest, Counted(st))
  {
    SplitIgnoresStrip(request);
    var parts := Split(request);
    if |parts| >= 2 {
      if StartsWith(parts[0], Tag) {
        assert VersionGate(Root, parts[0]) == VersionGate(Lab, parts[0]);
      }
    }
  }

  /** A line that starts with the verb and leaves out the version, as the repository's test
      case 6 sends it (PUT user43 Charlie): Root answers 426, Lab answers 400. */
  lemma MissingVersionLine(st: State, uptime: nat, request: string, key: string, value: string)
    requires Split(request) == ["PUT", key, value]
    ensures Step(Root, st, uptime, request) == (UpgradeRequired, Counted(st))
    ensures Step(Lab, st, uptime, request) == (BadRequest, Counted(st))
  {
    assert !StartsWith("PUT", Tag) by { assert "PUT"[..|Tag|][0] != Tag[0]; }
    RootVersionMismatch(st, uptime, request);
    LabMissingTag(st, uptime, request);
  }

  /** KV/2.0 GET k gets 426 from both copies, even when k is stored. */
  lemma WrongVersionBeforeVerb(variant: Variant, st: State, uptime: nat, request: string, key: string)
    requires Split(request) == ["KV/2.0", "GET", key]
    ensures Step(variant, st, uptime, request) == (UpgradeRequired, Counted(st))
  {
    assert StartsWith("KV/2.0", Tag);
    if variant == Root {
      RootVersionMismatch(st, uptime, request);
    } else {
      LabWrongVersion(st, uptime, request);
    }
  }

  /** A KV/1.0 line whose verb is none of the five: 400, nothing stored changes. */
  lemma UnknownVerb(variant: Variant, st: State, uptime: nat, request: string)
    requires |Split(request)| >= 2 && Split(request)[0] == Version
    requires Split(request)[1] !in {"PUT", "GET", "DEL", "STATS", "QUIT"}
    ensures Step(variant, st, uptime, request) == (BadRequest, Counted(st))
  {
    SplitIgnoresStrip(request);
  }

  /** PUT: fewer than two arguments is 400 with no change; otherwise the key maps to the
      remaining arguments joined by single spaces, every other key is untouched, and the
      answer is 201 exactly when the key was absent and 200 exactly when it was present.
      The `' ' in key` rejection of handle_put never fires on a tokenised line. */
  lemma PutRequest(variant: Variant, st: State, uptime: nat, request: string, args: seq<string>)
    requires Split(request) == [Version, "PUT"] + args
    ensures var (response, st') := Step(variant, st, uptime, request);
      && st'.served == st.served + 1
      && (|args| < 2 ==> response == BadRequest && st'.storage == st.storage)
      && (|args| >= 2 ==>
            && st'.storage == st.storage[args[0] := Join(args[1..])]
            && (response == Created <==> args[0] !in st.storage)
            && (response == Ok <==> args[0] in st.storage))
  {
    SplitIgnoresStrip(request);
    TokensHaveNoSpace(request);
    var parts := Split(request);
    assert parts[0] == Version && parts[1] == "PUT" && parts[2..] == args;
    if |args| >= 2 {
      assert ' ' !in parts[2];
    }
  }

  /** GET: exactly one argument, else 400; a hit answers 200 with the stored value, a miss
      404; the storage never changes. */
  lemma GetRequest(variant: Variant, st: State, uptime: nat, request: string, args: seq<string>)
    requires Split(request) == [Version, "GET"] + args
    ensures var (response, st') := Step(variant, st, uptime, request);
      && st' == Counted(st)
      && (|args| != 1 ==> response == BadRequest)
      && (|args| == 1 && args[0] in st.storage ==> response == OkValue(st.storage[args[0]]))
      && (|args| == 1 && args[0] !in st.storage ==> response == NotFound)
  {
    SplitIgnoresStrip(request);
    var parts := Split(request);
    assert parts[0] == Version && parts[1] == "GET" && parts[2..] == args;
  }

  /** DEL: exactly one argument, else 400; a present key is removed (and only it) with
      204; an absent key answers 404 with no change. */
  lemma DelRequest(variant: Variant, st: State, uptime: nat, request: string, args: seq<string>)
    requires Split(request) == [Version, "DEL"] + args
    ensures var (response, st') := Step(variant, st, uptime, request);
      && st'.served == st.served + 1
      && (|args| != 1 ==> response == BadRequest && st'.storage == st.storage)
      && (|args| == 1 && args[0] in st.storage ==>
            response == NoContent && st'.storage == st.storage - {args[0]})
      && (|args| == 1 && args[0] !in st.storage ==>
            response == NotFound && st'.storage == st.storage)
  {
    SplitIgnoresStrip(request);
    var parts := Split(request);
    assert parts[0] == Version && parts[1] == "DEL" && parts[2..] == args;
  }

  /** STATS: keys= is the number of keys stored, served= counts this request too; any
      arguments are ignored and nothing changes. */
  lemma StatsRequest(variant: Variant, st: State, uptime: nat, request: string, args: seq<string>)
    requires Split(request) == [Version, "STATS"] + args
    ensures Step(variant, st, uptime, request)
      == (StatsLine(|st.storage|, uptime, st.served + 1), Counted(st))
  {
    SplitIgnoresStrip(request);
    var parts := Split(request);
    assert parts[0] == Version && parts[1] == "STATS";
  }

  /** QUIT: 200 OK bye and no change; any arguments are ignored. */
  lemma QuitRequest(variant: Variant, st: State, uptime: nat, request: string, args: seq<string>)
    requires Split(request) == [Version, "QUIT"] + args
    ensures Step(variant, st, uptime, request) == (Bye, Counted(st))
  {
    SplitIgnoresStrip(request);
    var parts := Split(request);
    assert parts[0] == Version && parts[1] == "QUIT";
  }

  /** The QUIT answer comes from a KV/1.0 QUIT line and from nothing else. */
  lemma ByeOnlyFromQuit(variant: Variant, st: State, uptime: nat, request: string)
    ensures Step(variant, st, uptime, request).0 == Bye
        <==> |Split(request)| >= 2 && Split(request)[0] == Version && Split(request)[1] == "QUIT"
  {
    SplitIgnoresStrip(request);
    var parts := Split(request);
    if |parts| >= 2 && parts[0] == Version {
      var args := parts[2..];
      var storage := st.storage;
      assert Put(storage, args).0 != Bye;
      assert Del(storage, args).0 != Bye;
    }
  }

  /** Only an accepted PUT or DEL changes the storage. */
  lemma OnlyPutAndDelWrite(variant: Variant, st: State, uptime: nat, request: string)
    requires Step(variant, st, uptime, request).1.storage != st.storage
    ensures |Split(request)| >= 2 && Split(request)[0] == Version
    ensures Split(request)[1] == "PUT" || Split(request)[1] == "DEL"
  {
    SplitIgnoresStrip(request);
  }

  /** keys= moves with the answers: up by one exactly on 201, down by one exactly on 204,
      unchanged on every other answer. */
  lemma KeyCountTracksAnswers(variant: Variant, st: State, uptime: nat, request: string)
    ensures var (response, st') := Step(variant, st, uptime, request);
      && (response == Created ==> |st'.storage| == |st.storage| + 1)
      && (response == NoContent ==> |st'.storage| == |st.storage| - 1)
      && (response != Created && response != NoContent ==> |st'.storage| == |st.storage|)
  {
    SplitIgnoresStrip(request);
    TokensHaveNoSpace(request);
    var parts := Split(request);
    var (response, st') := Step(variant, st, uptime, request);
    if st'.storage != st.storage {
      OnlyPutAndDelWrite(variant, st, uptime, request);
      var args := parts[2..];
      if parts[1] == "PUT" {
        assert |args| >= 2 && ' ' !in parts[2];
        var k := args[0];
        if k in st.storage {
          assert st'.storage.Keys == st.storage.Keys;
        } else {
          assert st'.storage.Keys == st.storage.Keys + {k};
        }
      } else {
        assert st'.storage.Keys == st.storage.Keys - {args[0]};
      }
    }
  }

  /** Every part of a tokenised line is a token. */
  lemma TailTokens(tokens: seq<string>, n: nat)
    requires AllTokens(tokens) && n <= |tokens|
    ensures AllTokens(tokens[n..])
  {
    forall i | 0 <= i < |tokens| - n ensures IsToken(tokens[n..][i]) {
      assert tokens[n..][i] == tokens[n + i];
    }
  }

  /** PUT k v... then GET k answers 200 with the words rejoined, and splitting that value
      gives the words back. */
  lemma PutThenGet(variant: Variant, st: State, u1: nat, u2: nat, put: string, get: string,
                   key: string, words: seq<string>)
    requires Split(put) == [Version, "PUT", key] + words && |words| >= 1
    requires Split(get) == [Version, "GET", key]
    ensures Step(variant, Step(variant, st, u1, put).1, u2, get).0 == OkValue(Join(words))
    ensures Split(Join(words)) == words
  {
    assert Split(Join(words)) == words by {
      assert Split(put)[3..] == words;
      TailTokens(Split(put), 3);
      SplitJoin(words);
    }
    var args := [key] + words;
    assert [Version, "PUT", key] + words == [Version, "PUT"] + args by {
      assert [Version, "PUT", key] == [Version, "PUT"] + [key];
    }
    var st1 := Step(variant, st, u1, put).1;
    assert key in st1.storage && st1.storage[key] == Join(words) by {
      PutRequest(variant, st, u1, put, args);
      assert args[1..] == words;
    }
    assert Split(get) == [Version, "GET"] + [key];
    GetRequest(variant, st1, u2, get, [key]);
  }

  /** DEL k twice: the second answer is 404 and the key stays absent. */
  lemma DelTwice(variant: Variant, st: State, u1: nat, u2: nat, del: string, key: string)
    requires Split(del) == [Version, "DEL", key]
    ensures var st1 := Step(variant, st, u1, del).1;
      && key !in st1.storage
      && Step(variant, st1, u2, del) == (NotFound, Counted(st1))
  {
    DelRequest(variant, st, u1, del, [key]);
    var st1 := Step(variant, st, u1, del).1;
    DelRequest(variant, st1, u2, del, [key]);
  }

  /** Rejoined words are a stored value in normal form. */
  lemma JoinedWordsAreValue(words: seq<string>)
    requires AllTokens(words) && words != []
    ensures IsValue(Join(words))
  {
    SplitJoin(words);
  }

  /** Every request keeps keys single tokens and values rejoined words. */
  lemma StepKeepsStoreWellFormed(variant: Variant, st: State, uptime: nat, request: string)
    requires WellFormedStore(st.storage)
    ensures WellFormedStore(Step(variant, st, uptime, request).1.storage)
  {
    var st' := Step(variant, st, uptime, request).1;
    if st'.storage != st.storage {
      OnlyPutAndDelWrite(variant, st, uptime, request);
      SplitIgnoresStrip(request);
      TokensHaveNoSpace(request);
      var parts := Split(request);
      var args := parts[2..];
      if parts[1] == "PUT" {
        assert |args| >= 2 && ' ' !in parts[2];
        var words := args[1..];
        assert parts[3..] == words;
        TailTokens(parts, 3);
        JoinedWordsAreValue(words);
        assert IsToken(args[0]);
        assert st'.storage == st.storage[args[0] := Join(words)];
      }
    }
  }

  /** A stored value holds no whitespace but the single spaces put between its words, so in
      particular no line break. */
  lemma ValueIsOneLine(v: string)
    requires IsValue(v)
    ensures forall i :: 0 <= i < |v| && IsSpace(v[i]) ==> v[i] == ' '
    ensures '\n' !in v
  {
    JoinedSpaces(Split(v));
  }

  /** Against a well-formed store every answer renders to a single line: the only answer that
      carries text from a client is a GET value, and stored values hold no line break. */
  lemma AnswerIsOneLine(variant: Variant, st: State, uptime: nat, request: string)
    requires WellFormedStore(st.storage)
    ensures '\n' !in Render(Step(variant, st, uptime, request).0)
  {
    var r := Step(variant, st, uptime, request).0;
    RenderOneLine(r);
    if r.OkValue? {
      var parts := Split(Strip(request));
      assert |parts| >= 2 && parts[1] == "GET";
      var args := parts[2..];
      assert r == Get(st.storage, args);
      ValueIsOneLine(st.storage[args[0]]);
    }
  }
}
