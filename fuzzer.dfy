/**
 * The fuzzing session: `APIFuzzer` with its base URL, timeout and the
 * results of every test run so far. The network, the clock, Faker and
 * `random` are inputs: each request's `Exchange`, the picks behind random
 * strings, the Faker identity and each random payload's `RandomDraw`.
 */
module Fuzzer {
  import opened Options
  import opened Text
  import opened Payloads
  import opened Classifier
  import opened Records
  import opened Reports
  import opened Seqs

  /** The test id of the `i`-th corpus payload. */
  function MalformedId(i: nat): string {
    "malformed_" + NatToString(i)
  }

  /** The test id of the `i`-th random payload. */
  function RandomId(i: nat): string {
    "random_" + NatToString(i)
  }

  /** The number of iterations of `range(n)`. */
  function RangeLength(n: int): nat {
    if n < 0 then 0 else n
  }

  /** The payloads a session sends before the random ones: the custom list when it is non-empty, else the corpus. */
  function PayloadsFor(custom: Option<seq<Payload>>, namePicks: seq<nat>, fake: FakeIdentity): seq<Payload>
    requires ValidPicks(namePicks, 1000)
  {
    if custom.Some? && custom.value != [] then custom.value else MalformedPayloads(namePicks, fake)
  }

  predicate ValidDraws(draws: seq<RandomDraw>) {
    forall i :: 0 <= i < |draws| ==> ValidDraw(draws[i])
  }

  /** The payload of the `i`-th test of a session: first the given payloads in order, then the random payloads. */
  function PayloadAt(payloads: seq<Payload>, draws: seq<RandomDraw>, i: nat): Payload
    requires ValidDraws(draws) && i < |payloads| + |draws|
  {
    if i < |payloads| then payloads[i] else RandomPayload(draws[i - |payloads|])
  }

  /** The id of the `i`-th test of a session. */
  function IdAt(count: nat, i: nat): string {
    if i < count then MalformedId(i) else RandomId(i - count)
  }

  /** The `i`-th test of a session. */
  function TestAt(url: string, httpMethod: string, payloads: seq<Payload>, draws: seq<RandomDraw>,
                  exchanges: seq<Exchange>, i: nat): TestResult
    requires ValidDraws(draws) && |exchanges| == |payloads| + |draws| && i < |exchanges|
  {
    Sent(url, httpMethod, PayloadAt(payloads, draws, i), IdAt(|payloads|, i), exchanges[i])
  }

  /** The results `fuzz_endpoint` returns: the session's tests in order. */
  function Batch(url: string, httpMethod: string, payloads: seq<Payload>, draws: seq<RandomDraw>,
                 exchanges: seq<Exchange>): (b: seq<TestResult>)
    requires ValidDraws(draws) && |exchanges| == |payloads| + |draws|
    ensures |b| == |payloads| + |draws|
  {
    seq(|exchanges|, i requires 0 <= i < |exchanges| => TestAt(url, httpMethod, payloads, draws, exchanges, i))
  }

  /** The test of the `i`-th given payload sends it with id `malformed_i`. */
  lemma PayloadTestAt(url: string, httpMethod: string, payloads: seq<Payload>, draws: seq<RandomDraw>,
                      exchanges: seq<Exchange>, i: nat)
    requires ValidDraws(draws) && |exchanges| == |payloads| + |draws| && i < |payloads|
    ensures TestAt(url, httpMethod, payloads, draws, exchanges, i)
         == Sent(url, httpMethod, payloads[i], MalformedId(i), exchanges[i])
  {
  }

  /** The test after the given payloads and `j` random ones sends the `j`-th random payload with id `random_j`. */
  lemma RandomTestAt(url: string, httpMethod: string, payloads: seq<Payload>, draws: seq<RandomDraw>,
                     exchanges: seq<Exchange>, j: nat)
    requires ValidDraws(draws) && |exchanges| == |payloads| + |draws| && j < |draws|
    ensures TestAt(url, httpMethod, payloads, draws, exchanges, |payloads| + j)
         == Sent(url, httpMethod, RandomPayload(draws[j]), RandomId(j), exchanges[|payloads| + j])
  {
    assert PayloadAt(payloads, draws, |payloads| + j) == RandomPayload(draws[j]);
    assert IdAt(|payloads|, |payloads| + j) == RandomId(j);
  }

  /** Appending the next test to the tests sent so far extends them by one. */
  lemma TestAppended(url: string, httpMethod: string, payloads: seq<Payload>, draws: seq<RandomDraw>,
                     exchanges: seq<Exchange>, batch: seq<TestResult>, result: TestResult)
    requires ValidDraws(draws) && |exchanges| == |payloads| + |draws| && |batch| < |exchanges|
    requires batch == Batch(url, httpMethod, payloads, draws, exchanges)[..|batch|]
    requires result == TestAt(url, httpMethod, payloads, draws, exchanges, |batch|)
    ensures batch + [result] == Batch(url, httpMethod, payloads, draws, exchanges)[..|batch + [result]|]
  {
    PrefixStep(Batch(url, httpMethod, payloads, draws, exchanges), |batch|);
  }

  /**
   * A session sends one test per payload and then one per random draw, to
   * the same URL with the same method, with ids `malformed_0`, ... followed
   * by `random_0`, ..., and with the payloads in order.
   */
  lemma BatchShape(url: string, httpMethod: string, payloads: seq<Payload>, draws: seq<RandomDraw>, exchanges: seq<Exchange>)
    requires ValidDraws(draws) && |exchanges| == |payloads| + |draws|
    ensures var b := Batch(url, httpMethod, payloads, draws, exchanges);
            && |b| == |payloads| + |draws|
            && (forall i :: 0 <= i < |b| ==> b[i].url == url && b[i].httpMethod == httpMethod)
            && (forall i :: 0 <= i < |b| ==> b[i].testId == IdAt(|payloads|, i))
            && (forall i :: 0 <= i < |payloads| ==> b[i].testId == MalformedId(i) && b[i].payload == payloads[i])
            && (forall j :: 0 <= j < |draws| ==>
                  b[|payloads| + j].testId == RandomId(j) && b[|payloads| + j].payload == RandomPayload(draws[j]))
  {
    var b := Batch(url, httpMethod, payloads, draws, exchanges);
    forall i | 0 <= i < |exchanges|
      ensures b[i].url == url && b[i].httpMethod == httpMethod
      ensures b[i].testId == IdAt(|payloads|, i) && b[i].payload == PayloadAt(payloads, draws, i)
    {
      SentShape(url, httpMethod, PayloadAt(payloads, draws, i), IdAt(|payloads|, i), exchanges[i]);
    }
  }

  /** Distinct positions get distinct ids. */
  lemma IdsDistinct(i: nat, j: nat)
    ensures MalformedId(i) != RandomId(j)
    ensures MalformedId(i) == MalformedId(j) ==> i == j
    ensures RandomId(i) == RandomId(j) ==> i == j
  {
    assert MalformedId(i)[0] != RandomId(j)[0];
    if MalformedId(i) == MalformedId(j) {
      assert NatToString(i) == MalformedId(i)[10..] == MalformedId(j)[10..] == NatToString(j);
      NatToStringInjective(i, j);
    }
    if RandomId(i) == RandomId(j) {
      assert NatToString(i) == RandomId(i)[7..] == RandomId(j)[7..] == NatToString(j);
      NatToStringInjective(i, j);
    }
  }

  /** Distinct positions of a session get distinct ids. */
  lemma IdAtInjective(count: nat, i: nat, j: nat)
    requires i != j
    ensures IdAt(count, i) != IdAt(count, j)
  {
    if i < count && j < count {
      IdsDistinct(i, j);
    } else if i < count {
      IdsDistinct(i, j - count);
    } else if j < count {
      IdsDistinct(j, i - count);
    } else {
      IdsDistinct(i - count, j - count);
    }
  }

  /** No two tests of a session share an id. */
  lemma BatchIdsDistinct(url: string, httpMethod: string, payloads: seq<Payload>, draws: seq<RandomDraw>, exchanges: seq<Exchange>)
    requires ValidDraws(draws) && |exchanges| == |payloads| + |draws|
    ensures var b := Batch(url, httpMethod, payloads, draws, exchanges);
            forall i, j :: 0 <= i < j < |b| ==> b[i].testId != b[j].testId
  {
    BatchShape(url, httpMethod, payloads, draws, exchanges);
    forall i, j | 0 <= i < j < |exchanges|
      ensures IdAt(|payloads|, i) != IdAt(|payloads|, j)
    {
      IdAtInjective(|payloads|, i, j);
    }
  }

  /** An absent or empty custom list falls back to the 32-payload corpus. */
  lemma EmptyCustomFallsBack(custom: Option<seq<Payload>>, namePicks: seq<nat>, fake: FakeIdentity)
    requires ValidPicks(namePicks, 1000)
    requires custom.None? || custom.value == []
    ensures PayloadsFor(custom, namePicks, fake) == MalformedPayloads(namePicks, fake)
    ensures |PayloadsFor(custom, namePicks, fake)| == 32
  {
  }

  /**
   * The disclosure rule of `_analyze_response`: scans the keywords in order
   * over the lower-cased text and reports the first one found, if any.
   */
  method ScanDisclosure(text: string) returns (tags: seq<string>)
    ensures tags == DisclosureTags(text)
  {
    var lowered := Lower(text);
    tags := [];
    var i := 0;
    while i < |DisclosureKeywords|
      invariant 0 <= i <= |DisclosureKeywords|
      invariant forall j :: 0 <= j < i ==> !Contains(lowered, DisclosureKeywords[j])
    {
      if Contains(lowered, DisclosureKeywords[i]) {
        tags := [DisclosureTag(DisclosureKeywords[i])];
        DisclosureNamesFirstKeyword(text, i);
        return;
      }
      i := i + 1;
    }
  }

  /**
   * The method dispatch of `_send_request`: the request for the upper-cased
   * method name, or None for a method the fuzzer does not send.
   */
  method BuildRequest(url: string, httpMethod: string, payload: Payload, timeout: int) returns (request: Option<Request>)
    ensures request == Outgoing(url, httpMethod, payload, timeout)
  {
    var m := Upper(httpMethod);
    if m == "GET" {
      request := Some(Request(Get, url, QueryParams, payload, timeout));
    } else if m == "POST" {
      request := Some(Request(Post, url, JsonBody, payload, timeout));
    } else if m == "PUT" {
      request := Some(Request(Put, url, JsonBody, payload, timeout));
    } else if m == "DELETE" {
      request := Some(Request(Delete, url, JsonBody, payload, timeout));
    } else if m == "PATCH" {
      request := Some(Request(Patch, url, JsonBody, payload, timeout));
    } else {
      request := None;
    }
  }

  /** The status-code loop of `generate_report`: how many results carry each status code, in first-seen order. */
  method CountStatusCodes(rs: seq<TestResult>) returns (statusCodes: Histogram<Option<int>>)
    ensures statusCodes == Tally(StatusCodes(rs))
  {
    statusCodes := [];
    var i := 0;
    while i < |rs|
      invariant 0 <= i <= |rs|
      invariant statusCodes == Tally(StatusCodes(rs[..i]))
    {
      assert rs[..i + 1][..i] == rs[..i];
      assert StatusCodes(rs[..i + 1])[..i] == StatusCodes(rs[..i]);
      statusCodes := Bump(statusCodes, rs[i].statusCode);
      i := i + 1;
    }
    assert rs[..i] == rs;
  }

  /** The loop of `generate_report` that gathers every result's tags, in order. */
  method CollectIssues(rs: seq<TestResult>) returns (allIssues: seq<string>)
    ensures allIssues == AllIssues(rs)
  {
    allIssues := [];
    var i := 0;
    while i < |rs|
      invariant 0 <= i <= |rs|
      invariant allIssues == AllIssues(rs[..i])
    {
      assert rs[..i + 1][..i] == rs[..i];
      allIssues := allIssues + rs[i].issues;
      i := i + 1;
    }
    assert rs[..i] == rs;
  }

  /** The loop of `generate_report` that counts each tag, in first-seen order. */
  method CountIssues(allIssues: seq<string>) returns (issueSummary: Histogram<string>)
    ensures issueSummary == Tally(allIssues)
  {
    issueSummary := [];
    var j := 0;
    while j < |allIssues|
      invariant 0 <= j <= |allIssues|
      invariant issueSummary == Tally(allIssues[..j])
    {
      assert allIssues[..j + 1][..j] == allIssues[..j];
      issueSummary := Bump(issueSummary, allIssues[j]);
      j := j + 1;
    }
    assert allIssues[..j] == allIssues;
  }

  class ApiFuzzer {
    const baseUrl: string
    const timeout: int
    var results: seq<TestResult>

    /** A session against `baseUrl` with its trailing slashes removed; the timeout defaults to 10 seconds. */
    constructor (baseUrl: string, timeout: int := 10)
      ensures this.baseUrl == StripTrailing(baseUrl, '/')
      ensures this.timeout == timeout && results == []
    {
      this.baseUrl := StripTrailing(baseUrl, '/');
      this.timeout := timeout;
      results := [];
    }

    /**
     * `_send_request`: the result record for one test, and the request
     * handed to the transport (None for an unsupported method). Never fails,
     * whatever the transport does.
     */
    method SendRequest(url: string, httpMethod: string, payload: Payload, testId: string, ex: Exchange)
        returns (result: TestResult, request: Option<Request>)
      ensures result == Sent(url, httpMethod, payload, testId, ex)
      ensures request == Outgoing(url, httpMethod, payload, timeout)
    {
      var rec := new ResultRecord(testId, ex.stamp, url, httpMethod, payload);
      request := BuildRequest(url, httpMethod, payload, timeout);
      if request.None? {
        rec.Fail("Unsupported HTTP method: " + httpMethod, ExceptionTag);
      } else {
        Attempt(ex, rec);
      }
      rec.responseTime := Some(ex.finished - ex.start);
      result := rec.Snapshot();
    }

    /**
     * The transport call of `_send_request` for a supported method, and how
     * its outcome is recorded.
     */
    method Attempt(ex: Exchange, rec: ResultRecord)
      requires rec.responseTime.None?
      modifies rec
      ensures rec.Snapshot() == Attempted(old(rec.Snapshot()), ex)
    {
      ghost var before := rec.Snapshot();
      match ex.transport
      case TimedOut =>
        rec.Fail("Request timeout", TimeoutTag);
      case ConnectionFailed =>
        rec.Fail("Connection error", ConnectionErrorTag);
      case Raised(message) =>
        rec.Fail(message, ExceptionTag);
      case Received(reply) =>
        rec.Receive(reply, ex.responded - ex.start);
        AnalyzeResponse(reply, rec);
        assert rec.issues == before.issues + IssueTags(reply.status, ex.responded - ex.start, reply.text, before.payload);
    }

    /**
     * `_analyze_response`: appends the tags of the analysis rules to the
     * record's tags, in rule order, and changes nothing else.
     */
    method AnalyzeResponse(reply: Reply, rec: ResultRecord)
      requires rec.responseTime.Some?
      modifies rec`issues
      ensures rec.issues == old(rec.issues) + IssueTags(reply.status, rec.responseTime.value, reply.text, rec.payload)
    {
      ghost var start := rec.issues;
      ghost var elapsed := rec.responseTime.value;
      if IsServerError(reply.status) {
        rec.issues := rec.issues + [ServerError];
      }
      assert rec.issues == start + ServerErrorTags(reply.status);
      if rec.responseTime.value > SlowSeconds {
        rec.issues := rec.issues + [SlowResponse];
      }
      assert rec.issues == start + ServerErrorTags(reply.status) + SlowTags(elapsed);
      var disclosed := ScanDisclosure(reply.text);
      rec.issues := rec.issues + disclosed;
      if |reply.text| > LargeLength {
        rec.issues := rec.issues + [LargeResponse];
      }
      assert rec.issues == start + ServerErrorTags(reply.status) + SlowTags(elapsed) + DisclosureTags(reply.text)
                           + LargeTags(reply.text);
      if reply.status == 200 && Suspicious(rec.payload) {
        rec.issues := rec.issues + [ValidationBypass];
      }
      AppendParts(start, ServerErrorTags(reply.status), SlowTags(elapsed), DisclosureTags(reply.text),
                  LargeTags(reply.text), BypassTags(reply.status, rec.payload));
    }

    /** The first loop of `fuzz_endpoint`: a test per payload, in order. */
    method SendPayloads(url: string, httpMethod: string, payloads: seq<Payload>,
                        draws: seq<RandomDraw>, exchanges: seq<Exchange>)
        returns (batch: seq<TestResult>)
      requires ValidDraws(draws) && |exchanges| == |payloads| + |draws|
      ensures batch == Batch(url, httpMethod, payloads, draws, exchanges)[..|payloads|]
    {
      batch := [];
      var idx := 0;
      while idx < |payloads|
        invariant 0 <= idx <= |payloads| && |batch| == idx
        invariant batch == Batch(url, httpMethod, payloads, draws, exchanges)[..|batch|]
      {
        var result, _ := SendRequest(url, httpMethod, payloads[idx], MalformedId(idx), exchanges[idx]);
        PayloadTestAt(url, httpMethod, payloads, draws, exchanges, idx);
        TestAppended(url, httpMethod, payloads, draws, exchanges, batch, result);
        batch := batch + [result];
        idx := idx + 1;
      }
    }

    /** The second loop of `fuzz_endpoint`: `numRequests` tests with random payloads after the first ones. */
    method SendRandom(url: string, httpMethod: string, payloads: seq<Payload>, numRequests: int,
                      draws: seq<RandomDraw>, exchanges: seq<Exchange>, first: seq<TestResult>)
        returns (batch: seq<TestResult>)
      requires |draws| == RangeLength(numRequests) && ValidDraws(draws)
      requires |exchanges| == |payloads| + |draws|
      requires first == Batch(url, httpMethod, payloads, draws, exchanges)[..|payloads|]
      ensures batch == Batch(url, httpMethod, payloads, draws, exchanges)
    {
      batch := first;
      var i := 0;
      while i < numRequests
        invariant 0 <= i <= |draws| && |batch| == |payloads| + i
        invariant batch == Batch(url, httpMethod, payloads, draws, exchanges)[..|batch|]
      {
        var randomPayload := RandomPayload(draws[i]);
        var result, _ := SendRequest(url, httpMethod, randomPayload, RandomId(i), exchanges[|payloads| + i]);
        RandomTestAt(url, httpMethod, payloads, draws, exchanges, i);
        TestAppended(url, httpMethod, payloads, draws, exchanges, batch, result);
        batch := batch + [result];
        i := i + 1;
      }
      assert |batch| == |exchanges|;
    }

    /**
     * `fuzz_endpoint`: one test per payload (the custom list, or the corpus
     * when it is absent or empty), then `numRequests` tests with random
     * payloads; the session's results grow by exactly the returned list.
     */
    method FuzzEndpoint(endpoint: string, httpMethod: string := "POST", numRequests: int := 10,
                        custom: Option<seq<Payload>> := None,
                        namePicks: seq<nat>, fake: FakeIdentity, draws: seq<RandomDraw>, exchanges: seq<Exchange>)
        returns (batch: seq<TestResult>)
      requires ValidPicks(namePicks, 1000)
      requires |draws| == RangeLength(numRequests) && ValidDraws(draws)
      requires |exchanges| == |PayloadsFor(custom, namePicks, fake)| + |draws|
      modifies this
      ensures batch == Batch(baseUrl + endpoint, httpMethod, PayloadsFor(custom, namePicks, fake), draws, exchanges)
      ensures results == old(results) + batch
    {
      var url := baseUrl + endpoint;
      var payloads := if custom.Some? && custom.value != [] then custom.value else MalformedPayloads(namePicks, fake);
      batch := SendPayloads(url, httpMethod, payloads, draws, exchanges);
      batch := SendRandom(url, httpMethod, payloads, numRequests, draws, exchanges, batch);
      results := results + batch;
    }

    /** `generate_report` over the session's results; the results stay as they are. */
    method GenerateReport() returns (rep: Report)
      ensures rep == ReportOf(results)
    {
      if results == [] {
        return NoTests(NoTestsMessage);
      }
      var total := |results|;
      var errors := CountErrors(results);
      var withIssues := CountWithIssues(results);

      var statusCodes := CountStatusCodes(results);
      var allIssues := CollectIssues(results);
      var issueSummary := CountIssues(allIssues);
      var average := TimeSum(results) / (total as real);
      rep := Full(Summary(total, errors, withIssues, average), statusCodes, issueSummary, CriticalFindings(results));
    }
  }

  // ---------------------------------------------------------------------
  // Sessions built and driven with the default arguments

  /** `APIFuzzer(base_url=...)` for the example API, given with or without a trailing slash. */
  method ExampleSession(withSlash: bool) returns (f: ApiFuzzer)
    ensures f.baseUrl == "https://api.example.com" && f.timeout == 10 && f.results == []
  {
    var url := "https://api.example.com";
    assert url[|url| - 1] == 'm';
    f := new ApiFuzzer(if withSlash then url + "/" else url);
    assert f.baseUrl == url by {
      var given := if withSlash then url + "/" else url;
      var r := StripTrailing(given, '/');
      assert given[|url| - 1] == 'm';
      assert |r| >= |url|;
      assert r[..] == given[..|r|];
    }
  }

  /**
   * `fuzz_endpoint(endpoint)` with every default: POST, ten random payloads
   * and the corpus, so 42 tests all sent with POST.
   */
  method FuzzWithDefaults(f: ApiFuzzer, endpoint: string, namePicks: seq<nat>, fake: FakeIdentity,
                          draws: seq<RandomDraw>, exchanges: seq<Exchange>)
      returns (batch: seq<TestResult>)
    requires ValidPicks(namePicks, 1000)
    requires |draws| == 10 && ValidDraws(draws) && |exchanges| == 42
    modifies f
    ensures |batch| == 42 && forall i :: 0 <= i < 42 ==> batch[i].httpMethod == "POST" && batch[i].url == f.baseUrl + endpoint
    ensures forall i :: 0 <= i < 32 ==> batch[i].testId == MalformedId(i)
    ensures forall j :: 0 <= j < 10 ==> batch[32 + j].testId == RandomId(j)
  {
    EmptyCustomFallsBack(None, namePicks, fake);
    batch := f.FuzzEndpoint(endpoint, namePicks := namePicks, fake := fake, draws := draws, exchanges := exchanges);
    BatchShape(f.baseUrl + endpoint, "POST", MalformedPayloads(namePicks, fake), draws, exchanges);
  }
}
