/**
 * The rate fetcher of the bot (`getUSDTPrice`): one GET to the exchange's
 * level-1 summary, then a search of the returned quotes for the USDT/THB
 * instrument.
 *
 * The HTTP client, `io.ReadAll` and `encoding/json` are library code; their
 * outcomes are inputs here. The response body, once read, decodes either to
 * nothing (the outer array failed to decode) or to one entry per inner
 * string, where `None` marks an inner string that failed to decode.
 */
module RateFetcher {
  import opened Wrappers
  import opened Floats

  /** The exchange's instrument identifier for USDT/THB. */
  const TargetInstrument := 5

  /** `http.StatusOK`. */
  const StatusOK := 200

  /** One decoded quote record. */
  datatype Instrument = Instrument(instrumentId: int, lastTradedPx: Float64)

  /** Each point at which `getUSDTPrice` returns an error. */
  datatype FetchError =
    | RequestFailed           // http.Get returned an error
    | BadStatus(status: int)  // the status code was not 200
    | ReadFailed              // reading the body failed
    | OuterDecodeFailed       // the body is not a JSON array of strings
    | NotFound                // no decoded record has the target identifier

  /** What reading the body yielded. */
  datatype Body =
    | Unreadable
    | Readable(outer: Option<seq<Option<Instrument>>>)

  /** What the GET yielded. */
  datatype HttpResult =
    | RequestError
    | Response(status: int, body: Body)

  /** A record that decoded and carries the target identifier. */
  predicate Matches(rec: Option<Instrument>) {
    rec.Some? && rec.value.instrumentId == TargetInstrument
  }

  /** Entry `i` is the first matching record of `raw`. */
  predicate IsFirstMatch(raw: seq<Option<Instrument>>, i: int) {
    0 <= i < |raw| && Matches(raw[i]) && forall j :: 0 <= j < i ==> !Matches(raw[j])
  }

  /** The outcome of the record search, as a reference definition. */
  function FirstQuote(raw: seq<Option<Instrument>>): Result<Float64, FetchError> {
    if raw == [] then Failure(NotFound)
    else if Matches(raw[0]) then Success(raw[0].value.lastTradedPx)
    else FirstQuote(raw[1..])
  }

  /** The entries of `raw` that decoded, in their order. */
  function Decoded(raw: seq<Option<Instrument>>): (r: seq<Option<Instrument>>)
    ensures forall k :: 0 <= k < |r| ==> r[k].Some?
    ensures |r| <= |raw|
  {
    if raw == [] then []
    else if raw[0].None? then Decoded(raw[1..])
    else [raw[0]] + Decoded(raw[1..])
  }

  /** The whole of `getUSDTPrice`, as a function of what the libraries returned. */
  function Fetch(http: HttpResult): Result<Float64, FetchError> {
    match http
    case RequestError => Failure(RequestFailed)
    case Response(status, body) =>
      if status != StatusOK then Failure(BadStatus(status))
      else match body
        case Unreadable => Failure(ReadFailed)
        case Readable(None) => Failure(OuterDecodeFailed)
        case Readable(Some(raw)) => FirstQuote(raw)
  }

  /** The GET succeeded with 200, the body was read and the outer array decoded. */
  predicate ReachesRecords(http: HttpResult) {
    http.Response? && http.status == StatusOK && http.body.Readable? && http.body.outer.Some?
  }

  // ---------------------------------------------------------------------------
  // The record-selection loop

  /** The `for _, item := range rawData` loop: skip failed decodes, return the first match. */
  method SelectQuote(raw: seq<Option<Instrument>>) returns (r: Result<Float64, FetchError>)
    ensures r == FirstQuote(raw)
  {
    for i := 0 to |raw|
      invariant FirstQuote(raw[i..]) == FirstQuote(raw)
    {
      assert raw[i..][1..] == raw[i + 1..];
      var item := raw[i];
      if item.None? {
        continue;
      }
      if item.value.instrumentId == TargetInstrument {
        return Success(item.value.lastTradedPx);
      }
    }
    return Failure(NotFound);
  }

  /** `getUSDTPrice`: each library failure is reported before any record is looked at. */
  method GetUSDTPrice(http: HttpResult) returns (r: Result<Float64, FetchError>)
    ensures r == Fetch(http)
  {
    if http.RequestError? {
      return Failure(RequestFailed);
    }
    if http.status != StatusOK {
      return Failure(BadStatus(http.status));
    }
    if http.body.Unreadable? {
      return Failure(ReadFailed);
    }
    if http.body.outer.None? {
      return Failure(OuterDecodeFailed);
    }
    r := SelectQuote(http.body.outer.value);
  }

  // ---------------------------------------------------------------------------
  // Properties of the search

  /** A search succeeds with the price of the first matching record. */
  lemma {:induction false} FirstQuoteFound(raw: seq<Option<Instrument>>, i: int)
    requires IsFirstMatch(raw, i)
    ensures FirstQuote(raw) == Success(raw[i].value.lastTradedPx)
  {
    if i > 0 {
      assert !Matches(raw[0]);
      assert IsFirstMatch(raw[1..], i - 1) by {
        forall j | 0 <= j < i - 1 ensures !Matches(raw[1..][j]) {
          assert raw[1..][j] == raw[j + 1];
        }
      }
      FirstQuoteFound(raw[1..], i - 1);
    }
  }

  /** Conversely, every success is the price of a first matching record. */
  lemma {:induction false} FirstQuoteSuccessIsFirstMatch(raw: seq<Option<Instrument>>)
    requires FirstQuote(raw).Success?
    ensures exists i :: IsFirstMatch(raw, i) && FirstQuote(raw).value == raw[i].value.lastTradedPx
  {
    if Matches(raw[0]) {
      assert IsFirstMatch(raw, 0);
    } else {
      FirstQuoteSuccessIsFirstMatch(raw[1..]);
      var i :| IsFirstMatch(raw[1..], i) && FirstQuote(raw[1..]).value == raw[1..][i].value.lastTradedPx;
      assert IsFirstMatch(raw, i + 1) by {
        forall j | 0 <= j < i + 1 ensures !Matches(raw[j]) {
          if j > 0 { assert raw[j] == raw[1..][j - 1]; }
        }
      }
    }
  }

  /**
   * The search fails only with NotFound, and exactly when no entry both
   * decoded and carries the target identifier; other decoded records do not
   * help.
   */
  lemma {:induction false} FirstQuoteNotFound(raw: seq<Option<Instrument>>)
    ensures FirstQuote(raw).Success? || FirstQuote(raw) == Failure(NotFound)
    ensures FirstQuote(raw) == Failure(NotFound) <==> forall i :: 0 <= i < |raw| ==> !Matches(raw[i])
  {
    if raw != [] {
      FirstQuoteNotFound(raw[1..]);
      if !Matches(raw[0]) {
        assert forall i :: 1 <= i < |raw| ==> raw[i] == raw[1..][i - 1];
      }
    }
  }

  /** Searching a concatenation: the first part wins if it has a match. */
  lemma {:induction false} FirstQuoteAppend(a: seq<Option<Instrument>>, b: seq<Option<Instrument>>)
    ensures FirstQuote(a + b) == if FirstQuote(a).Success? then FirstQuote(a) else FirstQuote(b)
  {
    if a == [] {
      assert a + b == b;
    } else {
      assert (a + b)[0] == a[0];
      assert (a + b)[1..] == a[1..] + b;
      FirstQuoteAppend(a[1..], b);
    }
  }

  /** Inserting a record that failed to decode never changes the outcome. */
  lemma InsertFailedDecode(a: seq<Option<Instrument>>, b: seq<Option<Instrument>>)
    ensures FirstQuote(a + [None] + b) == FirstQuote(a + b)
  {
    FirstQuoteAppend(a, [None] + b);
    FirstQuoteAppend(a, b);
    assert a + [None] + b == a + ([None] + b);
    assert ([None] + b)[1..] == b;
  }

  /** Dropping every record that failed to decode never changes the outcome. */
  lemma {:induction false} SkipFailedDecodes(raw: seq<Option<Instrument>>)
    ensures FirstQuote(Decoded(raw)) == FirstQuote(raw)
  {
    if raw != [] {
      SkipFailedDecodes(raw[1..]);
      if raw[0].Some? {
        assert ([raw[0]] + Decoded(raw[1..]))[1..] == Decoded(raw[1..]);
      }
    }
  }

  // ---------------------------------------------------------------------------
  // Properties of the whole fetch

  /**
   * A request error, a status other than 200, an unreadable body or an outer
   * decode failure is reported as that error, whatever the body would have
   * held; past those checks the outcome is the search's.
   */
  lemma FetchFailsBeforeRecords(http: HttpResult)
    ensures http.RequestError? ==> Fetch(http) == Failure(RequestFailed)
    ensures http.Response? && http.status != StatusOK ==> Fetch(http) == Failure(BadStatus(http.status))
    ensures http.Response? && http.status == StatusOK && http.body.Unreadable? ==> Fetch(http) == Failure(ReadFailed)
    ensures http.Response? && http.status == StatusOK && http.body == Readable(None) ==> Fetch(http) == Failure(OuterDecodeFailed)
    ensures !ReachesRecords(http) ==> Fetch(http).Failure? && Fetch(http).error != NotFound
    ensures ReachesRecords(http) ==> Fetch(http) == FirstQuote(http.body.outer.value)
  {
  }

  /** The fetch yields a rate exactly when the records are reached and one of them matches. */
  lemma FetchSucceedsIff(http: HttpResult)
    ensures Fetch(http).Success? <==>
      ReachesRecords(http) && exists i :: IsFirstMatch(http.body.outer.value, i)
    ensures Fetch(http).Success? ==>
      exists i :: IsFirstMatch(http.body.outer.value, i) &&
        Fetch(http).value == http.body.outer.value[i].value.lastTradedPx
  {
    if ReachesRecords(http) {
      var raw := http.body.outer.value;
      if Fetch(http).Success? {
        FirstQuoteSuccessIsFirstMatch(raw);
      }
      if exists i :: IsFirstMatch(raw, i) {
        var i :| IsFirstMatch(raw, i);
        FirstQuoteFound(raw, i);
      }
    }
  }
}
