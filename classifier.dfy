/**
 * The rules `_analyze_response` applies to a received reply, as a pure
 * function from what the rules look at (status code, elapsed time, reply
 * text, the payload sent) to the issue tags they append, in rule order.
 */
module Classifier {
  import opened Options
  import opened Text
  import opened Payloads

  // Issue tags.
  const ServerError := "SERVER_ERROR"
  const SlowResponse := "SLOW_RESPONSE"
  const DisclosurePrefix := "INFO_DISCLOSURE_"
  const LargeResponse := "LARGE_RESPONSE"
  const ValidationBypass := "POTENTIAL_VALIDATION_BYPASS"
  const TimeoutTag := "TIMEOUT"
  const ConnectionErrorTag := "CONNECTION_ERROR"
  const ExceptionTag := "EXCEPTION"

  /** Seconds after which a reply counts as slow. */
  const SlowSeconds: real := 5.0
  /** Length of reply text above which a reply counts as large. */
  const LargeLength: nat := 100000

  /** Words whose presence in the lower-cased reply text suggests information disclosure, in the order they are tried. */
  const DisclosureKeywords: seq<string> :=
    ["exception", "stack trace", "error at line", "sql", "database", "query failed", "path", "file not found"]

  /** Fragments whose presence in the lower-cased payload text marks the payload as an attack. */
  const SuspiciousMarkers: seq<string> := ["<script>", "or 1=1", "drop table", "../"]

  /** `s.replace(' ', '_')`. */
  function Underscored(s: string): (r: string)
    ensures |r| == |s|
    ensures forall i :: 0 <= i < |s| ==> r[i] == (if s[i] == ' ' then '_' else s[i])
    ensures ' ' !in r
  {
    if s == [] then [] else [if s[0] == ' ' then '_' else s[0]] + Underscored(s[1..])
  }

  /** The tag reported for a disclosure keyword. */
  function DisclosureTag(keyword: string): string {
    DisclosurePrefix + Underscored(Upper(keyword))
  }

  /**
   * The index of the first keyword `s` contains: the loop over the keywords
   * that stops at its first hit.
   */
  function FirstMatch(keywords: seq<string>, s: string): (r: Option<nat>)
    ensures r.Some? ==> r.value < |keywords| && Contains(s, keywords[r.value])
    ensures r.Some? ==> forall j :: 0 <= j < r.value ==> !Contains(s, keywords[j])
    ensures r.None? <==> forall j :: 0 <= j < |keywords| ==> !Contains(s, keywords[j])
  {
    if |keywords| == 0 then None
    else if Contains(s, keywords[0]) then Some(0)
    else match FirstMatch(keywords[1..], s)
      case None => None
      case Some(k) => Some(k + 1)
  }

  /** The disclosure tag for a reply text, if any keyword occurs in it. */
  function DisclosureTags(text: string): (r: seq<string>) {
    match FirstMatch(DisclosureKeywords, Lower(text))
    case None => []
    case Some(k) => [DisclosureTag(DisclosureKeywords[k])]
  }

  predicate IsServerError(status: int) { 500 <= status < 600 }

  /** Some suspicious marker occurs in the lower-cased `str(payload)`. */
  predicate Suspicious(payload: Payload) {
    exists i :: 0 <= i < |SuspiciousMarkers| && Contains(Lower(Render(payload)), SuspiciousMarkers[i])
  }

  function ServerErrorTags(status: int): seq<string> {
    if IsServerError(status) then [ServerError] else []
  }

  function SlowTags(elapsed: real): seq<string> {
    if elapsed > SlowSeconds then [SlowResponse] else []
  }

  function LargeTags(text: string): seq<string> {
    if |text| > LargeLength then [LargeResponse] else []
  }

  function BypassTags(status: int, payload: Payload): seq<string> {
    if status == 200 && Suspicious(payload) then [ValidationBypass] else []
  }

  /** The tags `_analyze_response` appends, rule by rule. */
  function IssueTags(status: int, elapsed: real, text: string, payload: Payload): (r: seq<string>)
    ensures |r| <= 5
  {
    ServerErrorTags(status) + SlowTags(elapsed) + DisclosureTags(text) + LargeTags(text) + BypassTags(status, payload)
  }

  /** `t` is a disclosure tag: it starts with the disclosure prefix. */
  predicate IsDisclosureTag(t: string) {
    |DisclosurePrefix| <= |t| && t[..|DisclosurePrefix|] == DisclosurePrefix
  }

  /** Which rule produces a tag; tags from no rule rank last. */
  function Rank(t: string): nat {
    if t == ServerError then 0
    else if t == SlowResponse then 1
    else if IsDisclosureTag(t) then 2
    else if t == LargeResponse then 3
    else if t == ValidationBypass then 4
    else 5
  }

  /** The five rule tags are told apart by `Rank`. */
  lemma RankOfRuleTags(keyword: string)
    ensures Rank(ServerError) == 0 && Rank(SlowResponse) == 1
    ensures Rank(DisclosureTag(keyword)) == 2
    ensures Rank(LargeResponse) == 3 && Rank(ValidationBypass) == 4
  {
    var d := DisclosureTag(keyword);
    assert d[..|DisclosurePrefix|] == DisclosurePrefix;
    assert d[0] == 'I';
    assert ServerError[0] == 'S' && SlowResponse[0] == 'S' && ServerError[1] != SlowResponse[1];
    assert !IsDisclosureTag(LargeResponse) by { assert LargeResponse[0] != 'I'; }
    assert !IsDisclosureTag(ValidationBypass) by { assert ValidationBypass[0] != 'I'; }
  }

  /** Every tag of the disclosure rule ranks 2. */
  lemma DisclosureTagsRank(text: string)
    ensures forall i :: 0 <= i < |DisclosureTags(text)| ==> Rank(DisclosureTags(text)[i]) == 2
  {
    match FirstMatch(DisclosureKeywords, Lower(text))
    case None =>
    case Some(k) => RankOfRuleTags(DisclosureKeywords[k]);
  }

  /**
   * The tags come out in rule order (server error, slow, disclosure, large,
   * bypass) with at most one tag per rule; in particular no tag repeats and
   * at most one disclosure tag is reported however many keywords occur.
   */
  lemma TagsInRuleOrder(status: int, elapsed: real, text: string, payload: Payload)
    ensures RankSorted(IssueTags(status, elapsed, text, payload))
  {
    RankOfRuleTags("");
    DisclosureTagsRank(text);
    RankedParts(ServerErrorTags(status), SlowTags(elapsed), DisclosureTags(text), LargeTags(text), BypassTags(status, payload));
  }

  /** Tags whose ranks strictly increase. */
  predicate RankSorted(r: seq<string>) {
    forall i, j :: 0 <= i < j < |r| ==> Rank(r[i]) < Rank(r[j])
  }

  /** Five parts of at most one tag each, ranking 0 to 4 in turn, make rank-sorted tags. */
  lemma RankedParts(a: seq<string>, b: seq<string>, c: seq<string>, d: seq<string>, e: seq<string>)
    requires |a| <= 1 && forall i :: 0 <= i < |a| ==> Rank(a[i]) == 0
    requires |b| <= 1 && forall i :: 0 <= i < |b| ==> Rank(b[i]) == 1
    requires |c| <= 1 && forall i :: 0 <= i < |c| ==> Rank(c[i]) == 2
    requires |d| <= 1 && forall i :: 0 <= i < |d| ==> Rank(d[i]) == 3
    requires |e| <= 1 && forall i :: 0 <= i < |e| ==> Rank(e[i]) == 4
    ensures RankSorted(a + b + c + d + e)
  {
    RankedAppend(a, b, 1);
    RankedAppend(a + b, c, 2);
    RankedAppend(a + b + c, d, 3);
    RankedAppend(a + b + c + d, e, 4);
  }

  /**
   * Appending at most one tag of rank `k` to rank-sorted tags that all rank
   * below `k` keeps them rank-sorted, all ranking below `k + 1`.
   */
  lemma RankedAppend(a: seq<string>, b: seq<string>, k: nat)
    requires RankSorted(a) && forall i :: 0 <= i < |a| ==> Rank(a[i]) < k
    requires |b| <= 1 && forall i :: 0 <= i < |b| ==> Rank(b[i]) == k
    ensures RankSorted(a + b) && forall i :: 0 <= i < |a + b| ==> Rank((a + b)[i]) < k + 1
  {
  }

  /** Every tag the analysis produces is one of the five rule tags. */
  lemma IssueTagVocabulary(status: int, elapsed: real, text: string, payload: Payload)
    ensures forall t <- IssueTags(status, elapsed, text, payload) ::
              t == ServerError || t == SlowResponse || IsDisclosureTag(t) || t == LargeResponse || t == ValidationBypass
  {
    forall t | t in IssueTags(status, elapsed, text, payload)
      ensures t == ServerError || t == SlowResponse || IsDisclosureTag(t) || t == LargeResponse || t == ValidationBypass
    {
      InIssueTags(t, status, elapsed, text, payload);
      if t in DisclosureTags(text) {
        DisclosureTagsArePrefixed(text);
      }
    }
  }

  /** The disclosure rule's tags start with the disclosure prefix. */
  lemma DisclosureTagsArePrefixed(text: string)
    ensures forall t <- DisclosureTags(text) :: IsDisclosureTag(t)
  {
    match FirstMatch(DisclosureKeywords, Lower(text))
    case None =>
    case Some(k) =>
      var d := DisclosureTag(DisclosureKeywords[k]);
      assert d[..|DisclosurePrefix|] == DisclosurePrefix;
  }

  /** Each of the four single-tag rules fires exactly when its condition holds. */
  lemma IssueTagsRules(status: int, elapsed: real, text: string, payload: Payload)
    ensures var r := IssueTags(status, elapsed, text, payload);
            && (ServerError in r <==> 500 <= status < 600)
            && (SlowResponse in r <==> elapsed > 5.0)
            && (LargeResponse in r <==> |text| > 100000)
            && (ValidationBypass in r <==> status == 200 && Suspicious(payload))
  {
    FixedTagsNotDisclosed(text);
    FixedTagsDistinct();
    var r := IssueTags(status, elapsed, text, payload);
    InIssueTags(ServerError, status, elapsed, text, payload);
    InIssueTags(SlowResponse, status, elapsed, text, payload);
    InIssueTags(LargeResponse, status, elapsed, text, payload);
    InIssueTags(ValidationBypass, status, elapsed, text, payload);
  }

  /** A tag is among the rule tags exactly when one of the rules produced it. */
  lemma InIssueTags(t: string, status: int, elapsed: real, text: string, payload: Payload)
    ensures t in IssueTags(status, elapsed, text, payload)
        <==> t in ServerErrorTags(status) || t in SlowTags(elapsed) || t in DisclosureTags(text)
             || t in LargeTags(text) || t in BypassTags(status, payload)
  {
  }

  /** The four fixed rule tags differ from each other. */
  lemma FixedTagsDistinct()
    ensures ServerError != SlowResponse && ServerError != LargeResponse && ServerError != ValidationBypass
    ensures SlowResponse != LargeResponse && SlowResponse != ValidationBypass && LargeResponse != ValidationBypass
  {
    assert ServerError[1] != SlowResponse[1];
    assert ServerError[0] != LargeResponse[0] && ServerError[0] != ValidationBypass[0];
    assert SlowResponse[0] != LargeResponse[0] && SlowResponse[0] != ValidationBypass[0];
    assert LargeResponse[0] != ValidationBypass[0];
  }

  /** The disclosure rule never produces one of the four fixed tags. */
  lemma FixedTagsNotDisclosed(text: string)
    ensures var d := DisclosureTags(text);
            ServerError !in d && SlowResponse !in d && LargeResponse !in d && ValidationBypass !in d
  {
    RankOfRuleTags("");
    DisclosureTagsRank(text);
  }

  /** A disclosure tag is reported exactly when some keyword occurs in the lower-cased reply text. */
  lemma DisclosureRule(status: int, elapsed: real, text: string, payload: Payload)
    ensures var r := IssueTags(status, elapsed, text, payload);
            (exists t <- r :: IsDisclosureTag(t))
            <==> exists k :: 0 <= k < |DisclosureKeywords| && Contains(Lower(text), DisclosureKeywords[k])
  {
    var r := IssueTags(status, elapsed, text, payload);
    var d := DisclosureTags(text);
    RankOfRuleTags("");
    DisclosureTagsRank(text);
    assert !IsDisclosureTag(ServerError) && !IsDisclosureTag(SlowResponse);
    assert !IsDisclosureTag(LargeResponse) && !IsDisclosureTag(ValidationBypass);
    if d != [] {
      assert d[0] in r;
      RankOfRuleTags(DisclosureKeywords[FirstMatch(DisclosureKeywords, Lower(text)).value]);
      assert IsDisclosureTag(d[0]);
    } else {
      forall t <- r ensures !IsDisclosureTag(t) { }
    }
  }

  /**
   * The disclosure tag names the FIRST keyword of the list the reply text
   * contains, upper-cased with spaces turned into underscores.
   */
  lemma DisclosureNamesFirstKeyword(text: string, k: nat)
    requires k < |DisclosureKeywords| && Contains(Lower(text), DisclosureKeywords[k])
    requires forall j :: 0 <= j < k ==> !Contains(Lower(text), DisclosureKeywords[j])
    ensures DisclosureTags(text) == [DisclosureTag(DisclosureKeywords[k])]
  {
    var m := FirstMatch(DisclosureKeywords, Lower(text));
    assert m.Some?;
    assert m.value == k by {
      if m.value < k {
      } else if m.value > k {
      }
    }
  }

  /** No suspicious marker needs escaping in a Python string repr, whichever quote it uses. */
  lemma MarkersArePlain()
    ensures forall m, c :: 0 <= m < |SuspiciousMarkers| && c in SuspiciousMarkers[m] ==> PlainIn(c, '\'') && PlainIn(c, '"')
  {
  }

  /**
   * A payload with a string value that, lower-cased, contains a suspicious
   * marker is flagged as a validation bypass whenever the server answers 200.
   */
  lemma MarkerInValueIsFlagged(p: Payload, k: nat, m: nat, elapsed: real, text: string)
    requires k < |p| && p[k].1.Str? && m < |SuspiciousMarkers|
    requires Contains(Lower(p[k].1.s), SuspiciousMarkers[m])
    ensures ValidationBypass in IssueTags(200, elapsed, text, p)
  {
    MarkersArePlain();
    MarkerInValueShowsInRender(p, k, SuspiciousMarkers[m]);
    assert Suspicious(p);
    InIssueTags(ValidationBypass, 200, elapsed, text, p);
  }

  /** `Lower(s)` starts with `t` when lower-casing the first `|t|` characters of `s` gives `t`. */
  lemma LowerStartsWith(s: string, t: string)
    requires |t| <= |s| && Lower(s[..|t|]) == t
    ensures Contains(Lower(s), t)
  {
    LowerAppend(s[..|t|], s[|t|..]);
    assert s == s[..|t|] + s[|t|..];
    ContainsAt(Lower(s), t, 0);
  }

  /**
   * A reply text naming both an exception and a stack trace is reported
   * once, under the first keyword of the list.
   */
  lemma ExceptionTextExample(status: int, elapsed: real, payload: Payload)
    ensures var text := "Exception at line 42: Stack trace follows...";
            DisclosureTags(text) == [DisclosurePrefix + "EXCEPTION"]
            && DisclosurePrefix + "EXCEPTION" in IssueTags(status, elapsed, text, payload)
  {
    var text := "Exception at line 42: Stack trace follows...";
    ExceptionTextStarts(text);
    DisclosureNamesFirstKeyword(text, 0);
    ExceptionTagSpelling();
  }

  lemma ExceptionTextStarts(text: string)
    requires text == "Exception at line 42: Stack trace follows..."
    ensures Contains(Lower(text), "exception")
  {
    assert forall i :: 0 <= i < 9 ==> text[i] == "Exception"[i];
    assert text[..9] == "Exception";
    var low := Lower("Exception");
    assert forall i :: 0 <= i < 9 ==> low[i] == "exception"[i];
    LowerStartsWith(text, "exception");
  }

  lemma ExceptionTagSpelling()
    ensures DisclosureTag("exception") == DisclosurePrefix + "EXCEPTION"
  {
    var up := Upper("exception");
    assert up[0] == 'E' && up[1] == 'X' && up[2] == 'C' && up[3] == 'E' && up[4] == 'P';
    assert up[5] == 'T' && up[6] == 'I' && up[7] == 'O' && up[8] == 'N';
    assert up == "EXCEPTION";
    UnderscoredWithoutSpaces(up);
  }

  /** Replacing spaces changes nothing in a string without spaces. */
  lemma {:induction false} UnderscoredWithoutSpaces(s: string)
    requires ' ' !in s
    ensures Underscored(s) == s
  {
    if s != [] {
      assert s[0] in s;
      UnderscoredWithoutSpaces(s[1..]);
    }
  }

  /** A payload carrying `OR 1=1` that the server accepts with 200 is flagged as a validation bypass. */
  lemma InjectionAcceptedExample(elapsed: real, text: string)
    ensures ValidationBypass in IssueTags(200, elapsed, text, [("query", Str("' OR 1=1--"))])
  {
    var v := "' OR 1=1--";
    var low := Lower(v);
    assert forall i :: 0 <= i < |v| ==> low[i] == "' or 1=1--"[i];
    assert low[2..8] == "or 1=1";
    ContainsAt(low, "or 1=1", 2);
    MarkerInValueIsFlagged([("query", Str(v))], 0, 1, elapsed, text);
  }

  /** `Lower(v)` contains `t` at `at` when lower-casing that slice of `v` gives `t`. */
  lemma LowerHasAt(v: string, t: string, at: nat)
    requires at + |t| <= |v| && Lower(v[at..at + |t|]) == t
    ensures Contains(Lower(v), t)
  {
    assert v == v[..at] + v[at..at + |t|] + v[at + |t|..];
    LowerAppend(v[..at], v[at..at + |t|]);
    LowerAppend(v[..at] + v[at..at + |t|], v[at + |t|..]);
    ContainsWithin(Lower(v[..at]), t, Lower(v[at + |t|..]), t) by { ContainsSelf(t); }
  }

  /**
   * Of the malformed corpus, the `1 OR 1=1`, `DROP TABLE`, `<script>` and
   * `../` payloads are each flagged as a validation bypass when the server
   * accepts them with 200.
   */
  lemma AcceptedCorpusAttacksAreFlagged(namePicks: seq<nat>, fake: FakeIdentity, i: nat, elapsed: real, text: string)
    requires ValidPicks(namePicks, 1000)
    requires i == 3 || i == 4 || i == 5 || i == 8
    ensures ValidationBypass in IssueTags(200, elapsed, text, MalformedPayloads(namePicks, fake)[i])
  {
    var corpus: seq<Payload> := MalformedPayloads(namePicks, fake);
    CorpusInjectionEntries(namePicks, fake);
    CorpusMarkupEntries(namePicks, fake);
    var v: string := corpus[i][0].1.s;
    if i == 3 {
      OrOneIsOne(v);
      MarkerInValueIsFlagged(corpus[i], 0, 1, elapsed, text);
    } else if i == 4 {
      DropTable(v);
      MarkerInValueIsFlagged(corpus[i], 0, 2, elapsed, text);
    } else if i == 5 {
      ScriptTag(v);
      MarkerInValueIsFlagged(corpus[i], 0, 0, elapsed, text);
    } else {
      DotDotSlash(v);
      MarkerInValueIsFlagged(corpus[i], 0, 3, elapsed, text);
    }
  }

  lemma OrOneIsOne(v: string)
    requires v == "1 OR 1=1"
    ensures Contains(Lower(v), SuspiciousMarkers[1])
  {
    var low := Lower(v[2..8]);
    assert forall j :: 0 <= j < 6 ==> low[j] == "or 1=1"[j];
    LowerHasAt(v, "or 1=1", 2);
  }

  lemma DropTable(v: string)
    requires v == "'; DROP TABLE users--"
    ensures Contains(Lower(v), SuspiciousMarkers[2])
  {
    var low := Lower(v[3..13]);
    assert forall j :: 0 <= j < 10 ==> low[j] == "drop table"[j];
    LowerHasAt(v, "drop table", 3);
  }

  lemma ScriptTag(v: string)
    requires v == "<script>alert('XSS')</script>"
    ensures Contains(Lower(v), SuspiciousMarkers[0])
  {
    var low := Lower(v[0..8]);
    assert forall j :: 0 <= j < 8 ==> low[j] == "<script>"[j];
    LowerHasAt(v, "<script>", 0);
  }

  lemma DotDotSlash(v: string)
    requires v == "../../etc/passwd"
    ensures Contains(Lower(v), SuspiciousMarkers[3])
  {
    var low := Lower(v[0..3]);
    assert forall j :: 0 <= j < 3 ==> low[j] == "../"[j];
    LowerHasAt(v, "../", 0);
  }
}
