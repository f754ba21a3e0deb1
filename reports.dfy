/**
 * What `generate_report` computes from a session's results: counts, the
 * status and issue histograms, the average response time and the critical
 * findings.
 */
module Reports {
  import opened Options
  import opened Text
  import opened Seqs
  import opened Payloads
  import opened Classifier
  import opened Records

  // ---------------------------------------------------------------------
  // Histograms: dictionaries built by `d[k] = d.get(k, 0) + 1`, whose keys
  // keep their insertion order

  type Histogram<K> = seq<(K, nat)>

  function Keys<K>(h: Histogram<K>): (ks: seq<K>)
    ensures |ks| == |h|
  {
    if h == [] then [] else [h[0].0] + Keys(h[1..])
  }

  /** `d.get(k, 0)`. */
  function Get<K(==)>(h: Histogram<K>, k: K): nat {
    if h == [] then 0 else if h[0].0 == k then h[0].1 else Get(h[1..], k)
  }

  /** `sum(d.values())`. */
  function Total<K>(h: Histogram<K>): nat {
    if h == [] then 0 else h[0].1 + Total(h[1..])
  }

  /** `d[k] = d.get(k, 0) + 1`. */
  function Bump<K(==,!new)>(h: Histogram<K>, k: K): (r: Histogram<K>)
    ensures Keys(r) == if k in Keys(h) then Keys(h) else Keys(h) + [k]
    ensures Get(r, k) == Get(h, k) + 1
    ensures forall j :: j != k ==> Get(r, j) == Get(h, j)
    ensures Total(r) == Total(h) + 1
  {
    if h == [] then [(k, 1)]
    else if h[0].0 == k then [(k, h[0].1 + 1)] + h[1..]
    else
      var rest := Bump(h[1..], k);
      assert ([h[0]] + rest)[1..] == rest;
      assert Keys(h) == [h[0].0] + Keys(h[1..]);
      [h[0]] + rest
  }

  /** The histogram the counting loop builds over `xs`. */
  function Tally<K(==,!new)>(xs: seq<K>): Histogram<K> {
    if xs == [] then [] else Bump(Tally(xs[..|xs| - 1]), xs[|xs| - 1])
  }

  /**
   * The counting loop builds a true histogram: one key per distinct element
   * in order of first occurrence, each counting that element's occurrences,
   * so the counts add up to the number of elements.
   */
  lemma {:induction false} TallyIsHistogram<K(!new)>(xs: seq<K>)
    ensures Keys(Tally(xs)) == Distinct(xs)
    ensures forall k :: Get(Tally(xs), k) == Count(xs, k)
    ensures Total(Tally(xs)) == |xs|
  {
    TallyKeys(xs);
    TallyCounts(xs);
    TallyTotal(xs);
  }

  lemma {:induction false} TallyKeys<K(!new)>(xs: seq<K>)
    ensures Keys(Tally(xs)) == Distinct(xs)
  {
    if xs != [] {
      TallyKeys(xs[..|xs| - 1]);
      KeysStep(Tally(xs[..|xs| - 1]), xs);
    }
  }

  /** Counting the last element keeps the keys those of the distinct elements. */
  lemma KeysStep<K(!new)>(h: Histogram<K>, xs: seq<K>)
    requires xs != [] && Keys(h) == Distinct(xs[..|xs| - 1])
    ensures Keys(Bump(h, xs[|xs| - 1])) == Distinct(xs)
  {
    var init, last := xs[..|xs| - 1], xs[|xs| - 1];
    assert xs == init + [last];
    DistinctAppend(init, last);
  }

  lemma {:induction false} TallyCounts<K(!new)>(xs: seq<K>)
    ensures forall k :: Get(Tally(xs), k) == Count(xs, k)
  {
    if xs != [] {
      TallyCounts(xs[..|xs| - 1]);
    }
  }

  lemma {:induction false} TallyTotal<K(!new)>(xs: seq<K>)
    ensures Total(Tally(xs)) == |xs|
  {
    if xs != [] {
      TallyTotal(xs[..|xs| - 1]);
    }
  }

  // ---------------------------------------------------------------------
  // Per-record quantities

  /** `if r["error"]`: an error message is present and non-empty. */
  predicate HasError(r: TestResult) {
    r.error.Some? && r.error.value != ""
  }

  /** `if r["issues_found"]`: at least one tag. */
  predicate HasIssues(r: TestResult) {
    r.issues != []
  }

  function CountErrors(rs: seq<TestResult>): (n: nat)
    ensures n <= |rs|
    ensures n == 0 <==> forall i :: 0 <= i < |rs| ==> !HasError(rs[i])
  {
    if rs == [] then 0
    else CountErrors(rs[..|rs| - 1]) + if HasError(rs[|rs| - 1]) then 1 else 0
  }

  function CountWithIssues(rs: seq<TestResult>): (n: nat)
    ensures n <= |rs|
    ensures n == 0 <==> forall i :: 0 <= i < |rs| ==> !HasIssues(rs[i])
  {
    if rs == [] then 0
    else CountWithIssues(rs[..|rs| - 1]) + if HasIssues(rs[|rs| - 1]) then 1 else 0
  }

  /** The status code of each record, in order. */
  function StatusCodes(rs: seq<TestResult>): (codes: seq<Option<int>>)
    ensures |codes| == |rs|
  {
    if rs == [] then [] else StatusCodes(rs[..|rs| - 1]) + [rs[|rs| - 1].statusCode]
  }

  /** Every record's tags, one record after another. */
  function AllIssues(rs: seq<TestResult>): (tags: seq<string>)
    ensures forall i, t :: 0 <= i < |rs| && t in rs[i].issues ==> t in tags
    ensures forall t <- tags :: exists i :: 0 <= i < |rs| && t in rs[i].issues
  {
    if rs == [] then []
    else
      var init := rs[..|rs| - 1];
      var tags := AllIssues(init);
      assert forall i :: 0 <= i < |init| ==> init[i] == rs[i];
      tags + rs[|rs| - 1].issues
  }

  /** The sum of the response times that are present and non-zero. */
  function TimeSum(rs: seq<TestResult>): real {
    if rs == [] then 0.0
    else
      var r := rs[|rs| - 1];
      TimeSum(rs[..|rs| - 1]) + if r.responseTime.Some? && r.responseTime.value != 0.0 then r.responseTime.value else 0.0
  }

  /** Times that are never negative add up to a sum that is never negative. */
  lemma {:induction false} TimeSumNonNegative(rs: seq<TestResult>)
    requires forall i :: 0 <= i < |rs| && rs[i].responseTime.Some? ==> rs[i].responseTime.value >= 0.0
    ensures TimeSum(rs) >= 0.0
  {
    if rs != [] {
      TimeSumNonNegative(rs[..|rs| - 1]);
    }
  }

  /** The summed times over the number of tests, including tests without a time. */
  function AverageTime(rs: seq<TestResult>): real
    requires rs != []
  {
    TimeSum(rs) / (|rs| as real)
  }

  // ---------------------------------------------------------------------
  // Critical findings

  const CriticalKeywords: seq<string> := ["SERVER_ERROR", "VALIDATION_BYPASS", "INFO_DISCLOSURE"]

  /** `str(tags)`: Python's repr of a list of strings. */
  function TagsText(tags: seq<string>): string {
    Repr(List(seq(|tags|, i requires 0 <= i < |tags| => Str(tags[i]))))
  }

  /** `any(keyword in str(r["issues_found"]) for keyword in ...)`. */
  predicate IsCritical(r: TestResult) {
    exists k :: 0 <= k < |CriticalKeywords| && Contains(TagsText(r.issues), CriticalKeywords[k])
  }

  /** A tag spelled with capital letters and underscores only, as every tag the fuzzer writes is. */
  predicate TagWord(t: string) {
    forall c <- t :: 'A' <= c <= 'Z' || c == '_'
  }

  /** Each tag between single quotes. */
  function Quoted(tags: seq<string>): (q: seq<string>)
    ensures |q| == |tags| && forall i :: 0 <= i < |tags| ==> q[i] == "'" + tags[i] + "'"
  {
    seq(|tags|, i requires 0 <= i < |tags| => "'" + tags[i] + "'")
  }

  /** Repr writes a list of tag words as the quoted tags joined by `, ` in brackets. */
  lemma TagsTextShape(tags: seq<string>)
    requires forall t <- tags :: TagWord(t)
    ensures TagsText(tags) == "[" + Join(", ", Quoted(tags)) + "]"
  {
    var items := seq(|tags|, i requires 0 <= i < |tags| => Str(tags[i]));
    var reprs := seq(|items|, k requires 0 <= k < |items| => Repr(items[k]));
    forall i | 0 <= i < |tags|
      ensures reprs[i] == Quoted(tags)[i]
    {
      var t := tags[i];
      assert TagWord(t);
      assert '\'' !in t;
      EscapePlain(t, '\'');
    }
    assert reprs == Quoted(tags);
  }

  /**
   * In the text of a list of tag words, a tag word occurs only inside one of
   * the tags: the quotes, commas and spaces between tags break every match.
   */
  lemma {:induction false} JoinedTagsContain(tags: seq<string>, kw: string)
    requires forall t <- tags :: TagWord(t)
    requires TagWord(kw) && kw != []
    requires Contains(Join(", ", Quoted(tags)), kw)
    ensures exists i :: 0 <= i < |tags| && Contains(tags[i], kw)
  {
    var q := Quoted(tags);
    var s := Join(", ", q);
    assert ',' !in kw && ' ' !in kw && '\'' !in kw;
    var m :| 0 <= m <= |s| - |kw| && MatchAt(s, kw, m);
    assert |tags| > 0;
    if Contains(q[0], kw) {
      ContainsInner("'", tags[0], "'", kw);
    } else {
      assert |tags| > 1;
      var rest := Join(", ", q[1..]);
      assert s == q[0] + [','] + (" " + rest);
      ContainsSplit(q[0], ',', " " + rest, kw);
      assert " " + rest + [] == " " + rest;
      ContainsInner(" ", rest, [], kw);
      assert q[1..] == Quoted(tags[1..]);
      JoinedTagsContain(tags[1..], kw);
      var i :| 0 <= i < |tags[1..]| && Contains(tags[1..][i], kw);
      assert tags[i + 1] == tags[1..][i];
    }
  }

  /** A tag word occurs in the text of a list of tag words iff it occurs in one of the tags. */
  lemma TagsTextContains(tags: seq<string>, kw: string)
    requires forall t <- tags :: TagWord(t)
    requires TagWord(kw) && kw != []
    ensures Contains(TagsText(tags), kw) <==> exists i :: 0 <= i < |tags| && Contains(tags[i], kw)
  {
    TagsTextShape(tags);
    var joined := Join(", ", Quoted(tags));
    if Contains(TagsText(tags), kw) {
      assert '[' !in kw && ']' !in kw;
      ContainsInner("[", joined, "]", kw);
      JoinedTagsContain(tags, kw);
    }
    if i :| 0 <= i < |tags| && Contains(tags[i], kw) {
      var qi := Quoted(tags)[i];
      ContainsWithin("'", tags[i], "'", kw);
      ContainsJoinPart(", ", Quoted(tags), i);
      ContainsTransitive(joined, qi, kw);
      ContainsWithin("[", joined, "]", kw);
    }
  }

  lemma CriticalKeywordsAreTagWords()
    ensures forall k :: 0 <= k < |CriticalKeywords| ==> TagWord(CriticalKeywords[k]) && CriticalKeywords[k] != []
  {
  }

  /** For records whose tags are tag words, a record is critical iff one of its tags contains a critical keyword. */
  lemma CriticalByTag(r: TestResult)
    requires forall t <- r.issues :: TagWord(t)
    ensures IsCritical(r) <==>
            exists i, k :: 0 <= i < |r.issues| && 0 <= k < |CriticalKeywords| && Contains(r.issues[i], CriticalKeywords[k])
  {
    CriticalKeywordsAreTagWords();
    forall k | 0 <= k < |CriticalKeywords|
      ensures Contains(TagsText(r.issues), CriticalKeywords[k])
              <==> exists i :: 0 <= i < |r.issues| && Contains(r.issues[i], CriticalKeywords[k])
    {
      TagsTextContains(r.issues, CriticalKeywords[k]);
    }
  }

  /** The disclosure keywords are lower-case words separated by spaces. */
  lemma KeywordLetters(k: nat)
    requires k < |DisclosureKeywords|
    ensures forall c <- DisclosureKeywords[k] :: 'a' <= c <= 'z' || c == ' '
  {
  }

  /** The fixed tags are tag words. */
  lemma FixedTagsAreTagWords()
    ensures TagWord(ServerError) && TagWord(SlowResponse) && TagWord(LargeResponse) && TagWord(ValidationBypass)
    ensures TagWord(TimeoutTag) && TagWord(ConnectionErrorTag) && TagWord(ExceptionTag)
  {
  }

  lemma DisclosureTagIsTagWord(kw: string)
    requires forall c <- kw :: 'a' <= c <= 'z' || c == ' '
    ensures TagWord(DisclosureTag(kw))
  {
    var u := Underscored(Upper(kw));
    forall c <- u
      ensures 'A' <= c <= 'Z' || c == '_'
    {
      var j :| 0 <= j < |u| && u[j] == c;
      assert kw[j] in kw;
    }
    assert TagWord(DisclosurePrefix);
  }

  /** Every tag the analysis rules produce is a tag word. */
  lemma IssueTagsAreTagWords(status: int, elapsed: real, text: string, payload: Payload)
    ensures forall t <- IssueTags(status, elapsed, text, payload) :: TagWord(t)
  {
    FixedTagsAreTagWords();
    match FirstMatch(DisclosureKeywords, Lower(text))
    case None =>
    case Some(k) =>
      KeywordLetters(k);
      DisclosureTagIsTagWord(DisclosureKeywords[k]);
  }

  /** The tags of no critical kind contain no critical keyword. */
  lemma QuietTagsNotCritical(t: string, k: nat)
    requires t in [SlowResponse, LargeResponse, TimeoutTag, ConnectionErrorTag, ExceptionTag]
    requires k < |CriticalKeywords|
    ensures !Contains(t, CriticalKeywords[k])
  {
    assert 'V' !in t && 'F' !in t;
    if k < 2 {
      assert 'V' in CriticalKeywords[k];
      NotContainsMissingChar(t, CriticalKeywords[k], 'V');
    } else {
      assert 'F' in CriticalKeywords[k];
      NotContainsMissingChar(t, CriticalKeywords[k], 'F');
    }
  }

  /** A tag the fuzzer writes: a fixed tag or a disclosure tag, spelled as a tag word. */
  predicate KnownTag(t: string) {
    TagWord(t)
    && (t in [ServerError, SlowResponse, LargeResponse, ValidationBypass, TimeoutTag, ConnectionErrorTag, ExceptionTag]
        || IsDisclosureTag(t))
  }

  /** Every tag of every result `_send_request` returns is a known tag. */
  lemma SentTagsKnown(url: string, httpMethod: string, payload: Payload, testId: string, ex: Exchange)
    ensures forall t <- Sent(url, httpMethod, payload, testId, ex).issues :: KnownTag(t)
  {
    FixedTagsAreTagWords();
    if Dispatch(httpMethod).Some? && ex.transport.Received? {
      var reply := ex.transport.reply;
      RuleTagsKnown(reply.status, ex.responded - ex.start, reply.text, payload);
      assert Sent(url, httpMethod, payload, testId, ex).issues == [] + IssueTags(reply.status, ex.responded - ex.start, reply.text, payload);
    }
  }

  /** Every tag the analysis rules produce is a known tag. */
  lemma RuleTagsKnown(status: int, elapsed: real, text: string, payload: Payload)
    ensures forall t <- IssueTags(status, elapsed, text, payload) :: KnownTag(t)
  {
    IssueTagsAreTagWords(status, elapsed, text, payload);
    IssueTagVocabulary(status, elapsed, text, payload);
  }

  lemma BypassTagNamesKeyword()
    ensures ValidationBypass[10..27] == CriticalKeywords[1]
  {
  }

  lemma DisclosureTagNamesKeyword(t: string)
    requires IsDisclosureTag(t)
    ensures t[0..15] == CriticalKeywords[2]
  {
    assert t[..16] == DisclosurePrefix;
  }

  /** Among known tags, a critical keyword occurs exactly in the SERVER_ERROR, validation-bypass and disclosure tags. */
  lemma KnownTagCritical(t: string)
    requires KnownTag(t)
    ensures (exists k :: 0 <= k < |CriticalKeywords| && Contains(t, CriticalKeywords[k]))
            <==> t == ServerError || t == ValidationBypass || IsDisclosureTag(t)
  {
    if t == ServerError {
      ContainsSelf(ServerError);
      assert Contains(t, CriticalKeywords[0]);
    } else if t == ValidationBypass {
      BypassTagNamesKeyword();
      ContainsAt(ValidationBypass, CriticalKeywords[1], 10);
    } else if IsDisclosureTag(t) {
      DisclosureTagNamesKeyword(t);
      ContainsAt(t, CriticalKeywords[2], 0);
    } else {
      forall k | 0 <= k < |CriticalKeywords|
        ensures !Contains(t, CriticalKeywords[k])
      {
        QuietTagsNotCritical(t, k);
      }
    }
  }

  /**
   * A test result is a critical finding exactly when it carries a
   * SERVER_ERROR, a POTENTIAL_VALIDATION_BYPASS or an INFO_DISCLOSURE tag.
   */
  lemma SentCritical(url: string, httpMethod: string, payload: Payload, testId: string, ex: Exchange)
    ensures var r := Sent(url, httpMethod, payload, testId, ex);
            IsCritical(r) <==> exists t <- r.issues :: t == ServerError || t == ValidationBypass || IsDisclosureTag(t)
  {
    SentTagsKnown(url, httpMethod, payload, testId, ex);
    KnownTagsCritical(Sent(url, httpMethod, payload, testId, ex));
  }

  /** A record whose tags are all known is critical exactly when it carries a critical kind of tag. */
  lemma KnownTagsCritical(r: TestResult)
    requires forall t <- r.issues :: KnownTag(t)
    ensures IsCritical(r) <==> exists t <- r.issues :: t == ServerError || t == ValidationBypass || IsDisclosureTag(t)
  {
    CriticalByTag(r);
    if IsCritical(r) {
      var i, k :| 0 <= i < |r.issues| && 0 <= k < |CriticalKeywords| && Contains(r.issues[i], CriticalKeywords[k]);
      KnownTagCritical(r.issues[i]);
      assert r.issues[i] in r.issues;
    } else {
      forall i | 0 <= i < |r.issues|
        ensures !(r.issues[i] == ServerError || r.issues[i] == ValidationBypass || IsDisclosureTag(r.issues[i]))
      {
        KnownTagCritical(r.issues[i]);
      }
    }
  }

  /** The records that are critical, in their original order. */
  function CriticalFindings(rs: seq<TestResult>): seq<TestResult> {
    if rs == [] then []
    else CriticalFindings(rs[..|rs| - 1]) + if IsCritical(rs[|rs| - 1]) then [rs[|rs| - 1]] else []
  }

  /** The positions of the critical records, increasing. */
  function CriticalPositions(rs: seq<TestResult>): (idx: seq<nat>)
    ensures forall i, j :: 0 <= i < j < |idx| ==> idx[i] < idx[j]
    ensures forall i :: 0 <= i < |idx| ==> idx[i] < |rs|
    ensures forall j :: 0 <= j < |rs| ==> (IsCritical(rs[j]) <==> j in idx)
  {
    if rs == [] then []
    else
      var init := rs[..|rs| - 1];
      var idx := CriticalPositions(init);
      assert forall j :: 0 <= j < |init| ==> init[j] == rs[j];
      idx + if IsCritical(rs[|rs| - 1]) then [|rs| - 1] else []
  }

  /**
   * The critical findings are exactly the critical records, in order: the
   * subsequence of the results at the increasing positions of the critical
   * records.
   */
  lemma {:induction false} CriticalFindingsSubsequence(rs: seq<TestResult>)
    ensures var idx := CriticalPositions(rs);
            var cf := CriticalFindings(rs);
            |cf| == |idx| && forall i :: 0 <= i < |cf| ==> cf[i] == rs[idx[i]]
  {
    if rs != [] {
      var init := rs[..|rs| - 1];
      CriticalFindingsSubsequence(init);
      assert forall j :: 0 <= j < |init| ==> init[j] == rs[j];
    }
  }

  // ---------------------------------------------------------------------
  // The report

  datatype Summary = Summary(totalTests: nat, errors: nat, testsWithIssues: nat, averageResponseTime: real)

  datatype Report =
    | NoTests(message: string)
    | Full(summary: Summary, statusCodes: Histogram<Option<int>>, issuesFound: Histogram<string>,
           criticalFindings: seq<TestResult>)

  const NoTestsMessage := "No tests run yet"

  /** The report `generate_report` returns for a session's results. */
  function ReportOf(rs: seq<TestResult>): (rep: Report)
    ensures rep.NoTests? <==> rs == []
    ensures rs == [] ==> rep.message == "No tests run yet"
  {
    if rs == [] then NoTests(NoTestsMessage)
    else
      Full(Summary(|rs|, CountErrors(rs), CountWithIssues(rs), AverageTime(rs)),
           Tally(StatusCodes(rs)), Tally(AllIssues(rs)), CriticalFindings(rs))
  }

  /**
   * For a non-empty session the status histogram adds up to the number of
   * tests, the issue histogram to the number of tags, and the error and
   * issue counts stay within the number of tests.
   */
  lemma ReportCounts(rs: seq<TestResult>)
    requires rs != []
    ensures var rep := ReportOf(rs);
            && rep.summary.totalTests == |rs|
            && Total(rep.statusCodes) == |rs|
            && Total(rep.issuesFound) == |AllIssues(rs)|
            && rep.summary.errors <= rep.summary.totalTests
            && rep.summary.testsWithIssues <= rep.summary.totalTests
            && Keys(rep.issuesFound) == Distinct(AllIssues(rs))
  {
    TallyIsHistogram(StatusCodes(rs));
    TallyIsHistogram(AllIssues(rs));
  }

  /** The average lies between zero and any bound on the recorded times. */
  lemma AverageBounded(rs: seq<TestResult>, bound: real)
    requires rs != [] && 0.0 <= bound
    requires forall i :: 0 <= i < |rs| && rs[i].responseTime.Some? ==> 0.0 <= rs[i].responseTime.value <= bound
    ensures 0.0 <= AverageTime(rs) <= bound
  {
    TimeSumNonNegative(rs);
    TimeSumBounded(rs, bound);
    QuotientBounded(TimeSum(rs), |rs| as real, bound);
  }

  lemma QuotientBounded(sum: real, n: real, bound: real)
    requires 0.0 < n && 0.0 <= sum <= bound * n
    ensures 0.0 <= sum / n <= bound
  {
  }

  lemma {:induction false} TimeSumBounded(rs: seq<TestResult>, bound: real)
    requires 0.0 <= bound
    requires forall i :: 0 <= i < |rs| && rs[i].responseTime.Some? ==> 0.0 <= rs[i].responseTime.value <= bound
    ensures TimeSum(rs) <= bound * (|rs| as real)
  {
    if rs != [] {
      var n := |rs| - 1;
      TimeSumBounded(rs[..n], bound);
      assert bound * (|rs| as real) == bound * (n as real) + bound;
    }
  }
}
