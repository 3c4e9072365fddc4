/** How `query` (main.go:257-292) turns one HTTP exchange into an exit or the
    decoded JSON object. The transport, Basic authentication and the JSON
    decoder are library calls; the model takes their results. */
module Transport {
  import opened Options
  import opened Strings
  import opened Nagios

  /** What reading the body gave: an error, or what `json.Unmarshal` made of it (nothing on a decode error). */
  datatype Body<+T> = ReadFailed | Decoded(json: Option<T>)

  datatype Response<+T> = ConnectFailed | Received(statusCode: int, body: Body<T>)

  const ConnectError := Outcome(CRITICAL, "Cannot connect to Graylog API")
  const ReadError := Outcome(CRITICAL, "No response received from Graylog API")
  const JsonError := Outcome(UNKNOWN, "Cannot parse JSON from Graylog API")

  function StatusError(code: int): Outcome {
    Outcome(CRITICAL, "Graylog API replied with HTTP code " + Decimal(code))
  }

  /** The checks run in source order: connect, read, decode, and only then the status code. */
  function Classify<T>(r: Response<T>): (s: Step<T>)
    ensures s.Continue? <==> r.Received? && r.body.Decoded? && r.body.json.Some? && r.statusCode == 200
    ensures s.Continue? ==> s.value == r.body.json.value
    ensures r.ConnectFailed? ==> s == Exit(ConnectError)
    ensures r.Received? && r.body.ReadFailed? ==> s == Exit(ReadError)
    ensures r.Received? && r.body.Decoded? && r.body.json.None? ==> s == Exit(JsonError)
    ensures s.Exit? ==> s.outcome.status == CRITICAL || s.outcome.status == UNKNOWN
  {
    match r
    case ConnectFailed => Exit(ConnectError)
    case Received(code, body) =>
      match body
      case ReadFailed => Exit(ReadError)
      case Decoded(None) => Exit(JsonError)
      case Decoded(Some(data)) =>
        if code != 200 then Exit(StatusError(code)) else Continue(data)
  }

  /** A non-200 reply whose body is not JSON ends UNKNOWN, not CRITICAL. */
  lemma DecodeErrorBeforeStatus<T>(code: int)
    ensures Classify<T>(Received(code, Decoded(None))) == Exit(JsonError)
  {
  }

  /** A decoded non-200 reply ends CRITICAL and its message carries the code in decimal. */
  lemma StatusCodeInMessage<T>(code: nat, data: T)
    requires code != 200
    ensures Classify(Received(code, Decoded(Some(data)))).outcome.status == CRITICAL
    ensures var m := Classify(Received(code, Decoded(Some(data)))).outcome.message;
            var prefix := "Graylog API replied with HTTP code ";
            HasPrefix(m, prefix) && m[|prefix|..] == Digits(code)
            && (forall i | |prefix| <= i < |m| :: IsDigit(m[i]))
            && DigitsValue(m[|prefix|..]) == code
  {
    var prefix := "Graylog API replied with HTTP code ";
    var m := prefix + Digits(code);
    assert m[|prefix|..] == Digits(code);
    assert m[..|prefix|] == prefix;
    DigitsRoundTrip(code);
  }
}
