/** The status lines the KV/1.0 server answers with, and their exact text. */
module Responses {
  import opened Tokenizer

  /** One response line, before the newline the connection loop appends. */
  datatype Response =
    | Created                                       // 201 CREATED
    | Ok                                            // 200 OK
    | OkValue(value: string)                        // 200 OK <value>
    | NoContent                                     // 204 NO_CONTENT
    | BadRequest                                    // 400 BAD_REQUEST
    | NotFound                                      // 404 NOT_FOUND
    | UpgradeRequired                               // 426 UPGRADE_REQUIRED
    | StatsLine(keys: nat, uptime: nat, served: nat) // 200 OK keys=<n> uptime=<s>s served=<n>
    | Bye                                           // 200 OK bye

  function DigitChar(d: nat): (c: char)
    requires d < 10
    ensures '0' <= c <= '9'
  {
    (d + '0' as int) as char
  }

  predicate AllDigits(s: string) {
    forall i :: 0 <= i < |s| ==> '0' <= s[i] <= '9'
  }

  /** Python's `str(n)` for a non-negative integer: decimal, no leading zeros. */
  function Decimal(n: nat): (s: string)
    ensures |s| > 0 && AllDigits(s)
    ensures n >= 10 ==> s[0] != '0'
    decreases n
  {
    if n < 10 then [DigitChar(n)] else Decimal(n / 10) + [DigitChar(n % 10)]
  }

  /** Reading a decimal numeral back. */
  function ParseDecimal(s: string): nat
    requires AllDigits(s)
    decreases |s|
  {
    if s == [] then 0 else ParseDecimal(s[..|s| - 1]) * 10 + (s[|s| - 1] as int - '0' as int)
  }

  /** The counts a STATS line carries can be read back from its text. */
  lemma {:induction false} DecimalRoundTrip(n: nat)
    ensures ParseDecimal(Decimal(n)) == n
    decreases n
  {
    if n >= 10 {
      var s := Decimal(n);
      assert s[..|s| - 1] == Decimal(n / 10);
      DecimalRoundTrip(n / 10);
    }
  }

  /** The text of a response, as the handlers of the server return it. */
  function Render(r: Response): string {
    match r
    case Created => "201 CREATED"
    case Ok => "200 OK"
    case OkValue(v) => "200 OK " + v
    case NoContent => "204 NO_CONTENT"
    case BadRequest => "400 BAD_REQUEST"
    case NotFound => "404 NOT_FOUND"
    case UpgradeRequired => "426 UPGRADE_REQUIRED"
    case StatsLine(k, u, s) =>
      "200 OK keys=" + Decimal(k) + " uptime=" + Decimal(u) + "s served=" + Decimal(s)
    case Bye => "200 OK bye"
  }

  /** A rendered answer holds a newline only if it carries a value that holds one. */
  lemma RenderOneLine(r: Response)
    ensures '\n' in Render(r) <==> r.OkValue? && '\n' in r.value
  {
    match r
    case OkValue(v) =>
      assert Render(r) == "200 OK " + v;
      assert '\n' !in "200 OK ";
    case StatsLine(k, u, n) =>
      forall d: nat ensures '\n' !in Decimal(d) {
        var s := Decimal(d);
        assert forall i :: 0 <= i < |s| ==> s[i] != '\n';
      }
      assert '\n' !in "200 OK keys=" && '\n' !in " uptime=" && '\n' !in "s served=";
    case _ =>
  }

  const ByePrefix := "200 OK bye"

  /** The connection loop's test `response.startswith('200 OK bye')`. */
  predicate ClosesSession(r: Response) {
    StartsWith(Render(r), ByePrefix)
  }

  /** Which responses the connection loop's prefix test matches: the QUIT answer, and also
      every value-carrying GET answer whose value starts with "bye". */
  lemma ClosesSessionCases(r: Response)
    ensures ClosesSession(r) <==> r == Bye || (r.OkValue? && StartsWith(r.value, "bye"))
  {
    match r
    case OkValue(v) =>
      var line := Render(r);
      assert line == "200 OK " + v;
      if StartsWith(v, "bye") {
        assert line[..|ByePrefix|] == "200 OK " + v[..3];
      }
      if ClosesSession(r) {
        assert v[..3] == line[7..10];
      }
    case StatsLine(k, u, s) =>
      var line := Render(r);
      assert line[7] == 'k';
      assert ByePrefix[7] == 'b';
    case Created => assert Render(r)[2] != ByePrefix[2];
    case NoContent => assert Render(r)[2] != ByePrefix[2];
    case BadRequest => assert Render(r)[0] != ByePrefix[0];
    case NotFound => assert Render(r)[0] != ByePrefix[0];
    case UpgradeRequired => assert Render(r)[0] != ByePrefix[0];
    case Ok =>
    case Bye =>
  }
}
