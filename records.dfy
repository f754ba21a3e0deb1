/**
 * One test of `_send_request`: which request goes out for an HTTP method,
 * how the transport's outcome and the clock readings turn into a result
 * record, and the record itself, which `_send_request` and
 * `_analyze_response` fill in place.
 */
module Records {
  import opened Options
  import opened Text
  import opened Payloads
  import opened Classifier

  // ---------------------------------------------------------------------
  // Dispatch on the HTTP method

  datatype Verb = Get | Post | Put | Delete | Patch

  /** The verb the upper-cased method names, if it is one the fuzzer sends. */
  function Dispatch(httpMethod: string): (v: Option<Verb>)
    ensures v == Some(Get) <==> Upper(httpMethod) == "GET"
    ensures v == Some(Post) <==> Upper(httpMethod) == "POST"
    ensures v == Some(Put) <==> Upper(httpMethod) == "PUT"
    ensures v == Some(Delete) <==> Upper(httpMethod) == "DELETE"
    ensures v == Some(Patch) <==> Upper(httpMethod) == "PATCH"
  {
    var m := Upper(httpMethod);
    if m == "GET" then Some(Get)
    else if m == "POST" then Some(Post)
    else if m == "PUT" then Some(Put)
    else if m == "DELETE" then Some(Delete)
    else if m == "PATCH" then Some(Patch)
    else None
  }

  /** The method name is matched without regard to ASCII case. */
  lemma DispatchIgnoresCase(httpMethod: string)
    ensures Dispatch(Lower(httpMethod)) == Dispatch(httpMethod)
    ensures Dispatch(Upper(httpMethod)) == Dispatch(httpMethod)
  {
    UpperOfLower(httpMethod);
    UpperOfUpper(httpMethod);
  }

  lemma UpperOfUpper(s: string)
    ensures Upper(Upper(s)) == Upper(s)
  {
  }

  /** A GET carries the payload as query parameters; every other verb as a JSON body. */
  datatype Placement = QueryParams | JsonBody

  /** The request handed to the transport. */
  datatype Request = Request(verb: Verb, url: string, placement: Placement, payload: Payload, timeout: int)

  /**
   * The request `_send_request` issues for an HTTP method, or None when the
   * method is unsupported and nothing goes out.
   */
  function Outgoing(url: string, httpMethod: string, payload: Payload, timeout: int): (r: Option<Request>)
    ensures r.None? <==> Dispatch(httpMethod).None?
    ensures r.Some? ==> r.value.verb == Dispatch(httpMethod).value && r.value.url == url
                        && r.value.payload == payload && r.value.timeout == timeout
    ensures r.Some? ==> (r.value.placement == QueryParams <==> Upper(httpMethod) == "GET")
  {
    match Dispatch(httpMethod)
    case None => None
    case Some(v) => Some(Request(v, url, if v == Get then QueryParams else JsonBody, payload, timeout))
  }

  // ---------------------------------------------------------------------
  // Transport outcomes and clocks

  /** What the HTTP library hands back for a request that got an answer; `json` is None when the body is not JSON. */
  datatype Reply = Reply(status: int, text: string, json: Option<Value>)

  /** How the transport call ended. */
  datatype Transport =
    | Received(reply: Reply)
    | TimedOut
    | ConnectionFailed
    | Raised(message: string)

  /**
   * Everything one test takes from its environment: the transport's outcome,
   * the ISO timestamp, and the clock (seconds) at the start, when the reply
   * arrived, and after the analysis.
   */
  datatype Exchange = Exchange(transport: Transport, stamp: string, start: real, responded: real, finished: real)

  /** The stored response body: the decoded JSON, or the text cut to 500 characters. */
  datatype Body = Decoded(value: Value) | Raw(snippet: string)

  const SnippetLength: nat := 500

  function BodyOf(reply: Reply): (b: Body)
    ensures reply.json.Some? ==> b == Decoded(reply.json.value)
    ensures reply.json.None? ==> b.Raw? && b.snippet <= reply.text
                                 && |b.snippet| == if |reply.text| < 500 then |reply.text| else 500
  {
    match reply.json
    case Some(v) => Decoded(v)
    case None => Raw(if |reply.text| <= SnippetLength then reply.text else reply.text[..SnippetLength])
  }

  // ---------------------------------------------------------------------
  // The result record

  datatype TestResult = TestResult(
    testId: string,
    stamp: string,
    url: string,
    httpMethod: string,
    payload: Payload,
    statusCode: Option<int>,
    responseTime: Option<real>,
    error: Option<string>,
    responseBody: Option<Body>,
    issues: seq<string>)

  /** The result record as `_send_request` creates it, before the request. */
  function Fresh(testId: string, stamp: string, url: string, httpMethod: string, payload: Payload): TestResult {
    TestResult(testId, stamp, url, httpMethod, payload, None, None, None, None, [])
  }

  /**
   * The record after the request of a supported method went out: the
   * transport's failure with its tag, or the reply's status, the time until
   * it arrived, its body and the tags of the analysis rules.
   */
  function Attempted(base: TestResult, ex: Exchange): TestResult
  {
    match ex.transport
    case TimedOut => base.(error := Some("Request timeout"), issues := base.issues + [TimeoutTag])
    case ConnectionFailed => base.(error := Some("Connection error"), issues := base.issues + [ConnectionErrorTag])
    case Raised(message) => base.(error := Some(message), issues := base.issues + [ExceptionTag])
    case Received(reply) =>
      base.(statusCode := Some(reply.status),
            responseTime := Some(ex.responded - ex.start),
            responseBody := Some(BodyOf(reply)),
            issues := base.issues + IssueTags(reply.status, ex.responded - ex.start, reply.text, base.payload))
  }

  /** The result `_send_request` returns for one test. */
  function Sent(url: string, httpMethod: string, payload: Payload, testId: string, ex: Exchange): TestResult
  {
    var base := Fresh(testId, ex.stamp, url, httpMethod, payload);
    var r :=
      if Dispatch(httpMethod).None? then
        base.(error := Some("Unsupported HTTP method: " + httpMethod), issues := [ExceptionTag])
      else Attempted(base, ex);
    r.(responseTime := Some(ex.finished - ex.start))
  }

  /**
   * Every result names its test, URL, method and payload and records the
   * time until the analysis ended; it carries an error exactly when the
   * method is unsupported or the transport failed, and then one failure tag
   * and neither status nor body.
   */
  lemma SentShape(url: string, httpMethod: string, payload: Payload, testId: string, ex: Exchange)
    ensures var r := Sent(url, httpMethod, payload, testId, ex);
            && r.testId == testId && r.stamp == ex.stamp && r.url == url && r.httpMethod == httpMethod && r.payload == payload
            && r.responseTime == Some(ex.finished - ex.start)
            && (r.error.None? <==> Dispatch(httpMethod).Some? && ex.transport.Received?)
            && (r.statusCode.Some? <==> r.error.None?)
            && (r.responseBody.Some? <==> r.error.None?)
            && (r.error.Some? ==> |r.issues| == 1 && r.issues[0] in [TimeoutTag, ConnectionErrorTag, ExceptionTag])
  {
  }

  /** An answered request carries the reply's status and exactly the tags of the analysis rules. */
  lemma AnsweredRequest(url: string, httpMethod: string, payload: Payload, testId: string, ex: Exchange)
    requires Dispatch(httpMethod).Some? && ex.transport.Received?
    ensures var r := Sent(url, httpMethod, payload, testId, ex);
            var reply := ex.transport.reply;
            && r.statusCode == Some(reply.status)
            && r.responseBody == Some(BodyOf(reply))
            && (ServerError in r.issues <==> 500 <= reply.status < 600)
            && (SlowResponse in r.issues <==> ex.responded - ex.start > 5.0)
            && (LargeResponse in r.issues <==> |reply.text| > 100000)
            && (ValidationBypass in r.issues <==> reply.status == 200 && Suspicious(payload))
            && TimeoutTag !in r.issues && ConnectionErrorTag !in r.issues && ExceptionTag !in r.issues
  {
    var reply := ex.transport.reply;
    IssueTagsRules(reply.status, ex.responded - ex.start, reply.text, payload);
    NoFailureTagsFromRules(reply.status, ex.responded - ex.start, reply.text, payload);
  }

  /** The analysis rules never produce the tags of a failed request. */
  lemma NoFailureTagsFromRules(status: int, elapsed: real, text: string, payload: Payload)
    ensures var r := IssueTags(status, elapsed, text, payload);
            TimeoutTag !in r && ConnectionErrorTag !in r && ExceptionTag !in r
  {
    IssueTagVocabulary(status, elapsed, text, payload);
    assert !IsDisclosureTag(TimeoutTag) by { assert TimeoutTag[0] != 'I'; }
    assert !IsDisclosureTag(ConnectionErrorTag) by { assert ConnectionErrorTag[0] != 'I'; }
    assert !IsDisclosureTag(ExceptionTag) by { assert ExceptionTag[0] != 'I'; }
  }

  /** A failed request is recorded with its error message and one tag naming how it failed. */
  lemma FailedRequest(url: string, httpMethod: string, payload: Payload, testId: string, ex: Exchange)
    ensures var r := Sent(url, httpMethod, payload, testId, ex);
            && (Dispatch(httpMethod).None? ==>
                  r.error == Some("Unsupported HTTP method: " + httpMethod) && r.issues == [ExceptionTag])
            && (Dispatch(httpMethod).Some? && ex.transport.TimedOut? ==>
                  r.error == Some("Request timeout") && r.issues == [TimeoutTag])
            && (Dispatch(httpMethod).Some? && ex.transport.ConnectionFailed? ==>
                  r.error == Some("Connection error") && r.issues == [ConnectionErrorTag])
            && (Dispatch(httpMethod).Some? && ex.transport.Raised? ==>
                  r.error == Some(ex.transport.message) && r.issues == [ExceptionTag])
  {
  }

  /**
   * The slow-response rule judges the time until the reply arrived, while
   * the recorded response time runs to the end of the analysis: a reply that
   * arrived within five seconds is not tagged slow even when the recorded
   * time exceeds five seconds.
   */
  lemma SlowJudgedAtArrival(url: string, httpMethod: string, payload: Payload, testId: string, ex: Exchange)
    requires Dispatch(httpMethod).Some? && ex.transport.Received?
    requires ex.responded - ex.start <= 5.0 < ex.finished - ex.start
    ensures var r := Sent(url, httpMethod, payload, testId, ex);
            SlowResponse !in r.issues && r.responseTime.value > 5.0
  {
    AnsweredRequest(url, httpMethod, payload, testId, ex);
  }

  /**
   * The result record while `_send_request` and `_analyze_response` fill it
   * in; `Snapshot` is the record's value.
   */
  class ResultRecord {
    var testId: string
    var stamp: string
    var url: string
    var httpMethod: string
    var payload: Payload
    var statusCode: Option<int>
    var responseTime: Option<real>
    var error: Option<string>
    var responseBody: Option<Body>
    var issues: seq<string>

    function Snapshot(): TestResult
      reads this
    {
      TestResult(testId, stamp, url, httpMethod, payload, statusCode, responseTime, error, responseBody, issues)
    }

    constructor (testId: string, stamp: string, url: string, httpMethod: string, payload: Payload)
      ensures Snapshot() == Fresh(testId, stamp, url, httpMethod, payload)
    {
      this.testId := testId;
      this.stamp := stamp;
      this.url := url;
      this.httpMethod := httpMethod;
      this.payload := payload;
      statusCode := None;
      responseTime := None;
      error := None;
      responseBody := None;
      issues := [];
    }

    /** Records a reply: its status, the time it took to arrive and its body. */
    method Receive(reply: Reply, elapsed: real)
      modifies this
      ensures Snapshot() == old(Snapshot()).(statusCode := Some(reply.status), responseTime := Some(elapsed),
                                             responseBody := Some(BodyOf(reply)))
    {
      statusCode := Some(reply.status);
      responseTime := Some(elapsed);
      match reply.json {
        case Some(v) =>
          responseBody := Some(Decoded(v));
        case None =>
          var text := reply.text;
          responseBody := Some(Raw(if |text| <= SnippetLength then text else text[..SnippetLength]));
      }
    }

    /** Records a failed request: its error message and the tag naming how it failed. */
    method Fail(message: string, tag: string)
      modifies this
      ensures Snapshot() == old(Snapshot()).(error := Some(message), issues := old(issues) + [tag])
    {
      error := Some(message);
      issues := issues + [tag];
    }
  }
}
