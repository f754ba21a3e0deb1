# API fuzzer engine and rule-based text-to-SQL mapper, in Dafny

This project models two small Python components and proves properties about them.

The first is the engine of `api_fuzzer/fuzzer.py`, the `APIFuzzer` class. A session
(`Fuzzer.ApiFuzzer`) keeps a base URL, a timeout and a list of results. `FuzzEndpoint`
sends the fixed corpus of malformed payloads, or a custom list, and then a number of
random payloads. Every request goes through `SendRequest`. It turns any outcome of the
HTTP transport into one result record (`Records.ResultRecord`), which is filled in
place. `AnalyzeResponse` appends the issue tags of the five response rules to that
record. `GenerateReport` aggregates the session into counts, a status histogram, an
issue histogram, an average time and the critical findings.

The second is `NLP-Text-to-SQL/app/src/nl2sql_rulebased.py`:
- `ParseColumns` maps keywords to columns;
- `QuoteSql` quotes SQL literals;
- `NlToSql` assembles `SELECT … FROM books [WHERE …] [ORDER BY …] [LIMIT …]` from the
  lower-cased question and the values the extractors found.

Modules:
- `Options` holds the optional value.
- `Text` has ASCII case mapping, substring search, strip, join and decimal numerals.
- `Seqs` has first occurrence, de-duplication and counting.
- `Payloads` holds payload values and their Python `str()` rendering, the 32-entry
  corpus, random strings and random payloads.
- `Classifier` holds the response rules.
- `Records` covers method dispatch, transport outcomes, the result record and its
  specification `Sent`.
- `Reports` covers histograms and the report.
- `Fuzzer` holds the session class and its loops.
- `SqlMapper` models the text-to-SQL mapper.

The environment arrives as parameters, so each function describes every value the
source can produce:
- `namePicks` and `picks` are indices into the 62-letter alphabet that `random.choices`
  draws;
- `FakeIdentity` holds the Faker strings;
- `RandomDraw` is the choice `_generate_random_payload` makes;
- `Exchange` carries one request's transport outcome and its clock readings.

Methods with loops are proved against specification functions:
- `Fuzzer.ApiFuzzer.FuzzEndpoint` against `Fuzzer.Batch`;
- `Fuzzer.CountStatusCodes` and `Fuzzer.CountIssues` against `Reports.Tally`;
- `Fuzzer.ScanDisclosure` against `Classifier.DisclosureTags`;
- `SqlMapper.ParseColumns` against `SqlMapper.ColumnsFor`;
- `SqlMapper.NlToSql` against `SqlMapper.Query`.

The lemmas state what the source promises about those functions.

## Model

| member | source | states |
|---|---|---|
| Fuzzer.ApiFuzzer.constructor | api_fuzzer/fuzzer.py:30-41 | the base URL has every trailing `/` removed; the timeout is kept (10 by default) and the results start empty |
| Fuzzer.ExampleSession | api_fuzzer/test_fuzzer.py:12-16 | a session for `https://api.example.com`, with or without a trailing slash and with the default timeout, has that base URL, timeout 10 and no results |
| Text.StripTrailing | api_fuzzer/fuzzer.py:38 | the result is a prefix of the input, does not end in the stripped character, and only that character was removed |
| Payloads.RandomString | api_fuzzer/fuzzer.py:43-45 | the string has the requested length (10 by default, 0 for a negative one) and consists of ASCII letters and digits |
| Payloads.EveryAlnumStringCanBeDrawn | api_fuzzer/fuzzer.py:43-45 | conversely, every string of letters and digits is what some sequence of random picks yields |
| Payloads.AlphabetIndex | api_fuzzer/fuzzer.py:45 | every letter and digit sits at some position of the 62-character alphabet |
| Payloads.MalformedPayloads | api_fuzzer/fuzzer.py:47-112 | the corpus has exactly 32 payloads |
| Payloads.CorpusInjectionEntries | api_fuzzer/fuzzer.py:54-62 | the corpus starts with the empty payload, and the SQL injection entries sit at positions 2 to 4 with their exact contents |
| Payloads.CorpusMarkupEntries | api_fuzzer/fuzzer.py:65-78 | the script, path traversal and negative age entries sit at positions 5, 8 and 12 |
| Payloads.CorpusCoversAttackClasses | api_fuzzer/fuzzer.py:54-110 | the corpus holds an empty payload and a negative age; its rendering contains `OR '1'='1`, `<script>` and `DROP TABLE` |
| Payloads.RandomPayload | api_fuzzer/fuzzer.py:158-168 | each of the five random shapes gives a non-empty payload whose keys are distinct |
| Payloads.ValueShowsInRender | api_fuzzer/fuzzer.py:293 | the repr of every value of a payload occurs in the payload's `str()` |
| Payloads.MarkerInValueShowsInRender | api_fuzzer/fuzzer.py:293-294 | a quote-free marker in a lower-cased string value survives into the lower-cased `str()` of the payload |
| Payloads.LowerReprStr | api_fuzzer/fuzzer.py:293 | lower-casing the repr of a string is the repr of the lower-cased string |
| Fuzzer.PayloadsFor | api_fuzzer/fuzzer.py:137 | (as specification) the custom list when it is non-empty, otherwise the corpus |
| Fuzzer.EmptyCustomFallsBack | api_fuzzer/fuzzer.py:137 | a missing or empty custom list falls back to the 32-entry corpus |
| Fuzzer.Batch | api_fuzzer/fuzzer.py:143-153 | the batch has one record per payload plus one per random draw |
| Fuzzer.BatchShape | api_fuzzer/fuzzer.py:143-153 | record i carries the URL and method; the first records are `malformed_i` with payload i, then `random_j` with the j-th random payload |
| Fuzzer.BatchIdsDistinct | api_fuzzer/fuzzer.py:143-153 | no two records of a batch share a test id |
| Fuzzer.IdsDistinct | api_fuzzer/fuzzer.py:145 | `malformed_i` never equals `random_j`, and each family is injective in its index |
| Fuzzer.ApiFuzzer.SendPayloads | api_fuzzer/fuzzer.py:143-146 | the first loop returns exactly the first part of the batch |
| Fuzzer.ApiFuzzer.SendRandom | api_fuzzer/fuzzer.py:149-153 | the second loop completes the batch |
| Fuzzer.ApiFuzzer.FuzzEndpoint | api_fuzzer/fuzzer.py:114-156 | it returns the batch for the joined URL and the chosen payloads, and the session's results grow by exactly that batch, earlier entries unchanged; the method defaults to POST, 10 random requests and no custom list |
| Fuzzer.FuzzWithDefaults | api_fuzzer/fuzzer.py:114-118 | with every default, a session sends 42 POST tests to its URL: `malformed_0` to `malformed_31`, then `random_0` to `random_9` |
| Records.Dispatch | api_fuzzer/fuzzer.py:206-217 | each of the five verbs is chosen exactly when the upper-cased method names it |
| Records.DispatchIgnoresCase | api_fuzzer/fuzzer.py:206-217 | lower- or upper-casing the method does not change the verb chosen |
| Records.Outgoing | api_fuzzer/fuzzer.py:204-217 | no request goes out for an unsupported method; otherwise the request carries the URL, payload and timeout, as query parameters exactly for GET |
| Fuzzer.BuildRequest | api_fuzzer/fuzzer.py:204-217 | the if-chain builds the request `Records.Outgoing` specifies |
| Records.BodyOf | api_fuzzer/fuzzer.py:222-226 | the body is the decoded JSON, or else a prefix of the text of length min(500, length) |
| Records.ResultRecord.constructor | api_fuzzer/fuzzer.py:189-200 | a new record holds the id, timestamp, URL, method and payload, with no status, time, error or body and no tags |
| Records.ResultRecord.Receive | api_fuzzer/fuzzer.py:219-226 | it sets the status, time and body and nothing else |
| Records.ResultRecord.Fail | api_fuzzer/fuzzer.py:231-244 | it sets the error and appends the one tag, nothing else |
| Fuzzer.ApiFuzzer.Attempt | api_fuzzer/fuzzer.py:206-244 | the record afterwards is `Records.Attempted` of the record before and the exchange |
| Fuzzer.ApiFuzzer.SendRequest | api_fuzzer/fuzzer.py:170-255 | it returns `Records.Sent` for every transport outcome (it never fails), having issued the `Outgoing` request |
| Records.SentShape | api_fuzzer/fuzzer.py:170-255 | id, timestamp, URL, method and payload are copied; the time is always set; there is an error iff the method is unsupported or the transport failed, and then one failure tag and no status or body |
| Records.AnsweredRequest | api_fuzzer/fuzzer.py:219-229 | on a reply, the status and body come from the reply, the four rule tags appear iff their conditions hold, and no failure tag appears |
| Records.FailedRequest | api_fuzzer/fuzzer.py:231-244 | an unsupported method, a timeout, a connection failure and any other exception each give their exact message and one matching tag |
| Records.SlowJudgedAtArrival | api_fuzzer/fuzzer.py:220-246 | the slow rule uses the time until the reply arrived; the recorded time can exceed 5 s without a `SLOW_RESPONSE` tag |
| Fuzzer.ApiFuzzer.AnalyzeResponse | api_fuzzer/fuzzer.py:257-295 | it only appends the rule tags to the record's tags; no other field changes |
| Classifier.IssueTags | api_fuzzer/fuzzer.py:257-295 | at most five tags are appended |
| Classifier.IssueTagsRules | api_fuzzer/fuzzer.py:266-295 | `SERVER_ERROR` iff 500 <= status < 600; `SLOW_RESPONSE` iff time > 5; `LARGE_RESPONSE` iff length > 100000; the bypass tag iff status 200 and a suspicious payload |
| Classifier.TagsInRuleOrder | api_fuzzer/fuzzer.py:257-295 | the tags come in the order server error, slow, disclosure, large, bypass |
| Classifier.IssueTagVocabulary | api_fuzzer/fuzzer.py:257-295 | every appended tag is one of the five rule tags |
| Classifier.FirstMatch | api_fuzzer/fuzzer.py:277-285 | it finds the first keyword, in list order, that occurs, and none when none occurs |
| Fuzzer.ScanDisclosure | api_fuzzer/fuzzer.py:275-285 | the loop with its `break` yields the disclosure tags `Classifier.DisclosureTags` specifies |
| Classifier.DisclosureRule | api_fuzzer/fuzzer.py:275-285 | a disclosure tag appears iff some keyword occurs in the lower-cased text |
| Classifier.DisclosureNamesFirstKeyword | api_fuzzer/fuzzer.py:275-285 | exactly one disclosure tag appears, naming the first keyword found, upper-cased with `_` for spaces |
| Classifier.Underscored | api_fuzzer/fuzzer.py:284 | each space becomes `_` and every other character is kept |
| Classifier.ExceptionTextExample | api_fuzzer/test_fuzzer.py:134-151 | the text "Exception at line 42: Stack trace follows..." yields only `INFO_DISCLOSURE_EXCEPTION` |
| Classifier.InjectionAcceptedExample | api_fuzzer/test_fuzzer.py:154-171 | a 200 reply to `{"query": "' OR 1=1--"}` is tagged `POTENTIAL_VALIDATION_BYPASS` |
| Classifier.MarkerInValueIsFlagged | api_fuzzer/fuzzer.py:292-295 | a 200 reply to a payload with a string value containing a marker is tagged as a bypass |
| Classifier.AcceptedCorpusAttacksAreFlagged | api_fuzzer/fuzzer.py:292-295 | a 200 reply to corpus entries 3, 4, 5 and 8 is tagged as a bypass |
| Records.NoFailureTagsFromRules | api_fuzzer/fuzzer.py:257-295 | the response rules never produce `TIMEOUT`, `CONNECTION_ERROR` or `EXCEPTION` |
| Reports.Bump | api_fuzzer/fuzzer.py:313-314 | one key's count rises by one; a new key goes last; other counts are unchanged |
| Reports.TallyIsHistogram | api_fuzzer/fuzzer.py:311-322 | the histogram's keys are the distinct values in first-occurrence order, each count is the number of occurrences, and the counts add up to the length |
| Seqs.DistinctKeepsFirstOccurrenceOrder | api_fuzzer/fuzzer.py:311-322 | de-duplication keeps the order of first occurrences |
| Fuzzer.CountStatusCodes | api_fuzzer/fuzzer.py:311-314 | the loop builds the tally of the status codes |
| Fuzzer.CollectIssues | api_fuzzer/fuzzer.py:316-318 | the loop concatenates every record's tags |
| Fuzzer.CountIssues | api_fuzzer/fuzzer.py:320-322 | the loop builds the tally of all tags |
| Reports.AllIssues | api_fuzzer/fuzzer.py:316-318 | every tag of every record occurs, and nothing else |
| Reports.CountErrors | api_fuzzer/fuzzer.py:308 | the count is at most the number of records, and zero iff no record has a non-empty error |
| Reports.CountWithIssues | api_fuzzer/fuzzer.py:309 | the count is at most the number of records, and zero iff no record has a tag |
| Reports.AverageBounded | api_fuzzer/fuzzer.py:324-326 | with times between 0 and a bound, the average lies between 0 and that bound |
| Reports.TimeSumNonNegative | api_fuzzer/fuzzer.py:324-326 | non-negative times add up to a non-negative sum |
| Reports.TagsTextContains | api_fuzzer/fuzzer.py:337-341 | a keyword of capitals and `_` occurs in `str()` of the tag list iff it occurs in one tag |
| Reports.CriticalByTag | api_fuzzer/fuzzer.py:337-341 | a record is critical iff one of its tags contains one of the three keywords |
| Reports.KnownTagCritical | api_fuzzer/fuzzer.py:337-341 | among the tags the fuzzer writes, exactly server error, bypass and disclosure tags contain a critical keyword |
| Reports.SentCritical | api_fuzzer/fuzzer.py:337-341 | a result of `SendRequest` is critical iff it has a server error, bypass or disclosure tag |
| Reports.SentTagsKnown | api_fuzzer/fuzzer.py:229-244 | every tag `SendRequest` writes is a failure tag or a rule tag |
| Reports.CriticalPositions | api_fuzzer/fuzzer.py:337-341 | the positions are increasing and in range, and a record is at one of them iff it is critical |
| Reports.CriticalFindingsSubsequence | api_fuzzer/fuzzer.py:337-341 | the critical findings are the records at those positions, in order |
| Reports.ReportOf | api_fuzzer/fuzzer.py:304-305 | an empty session, and only that, gives the "No tests run yet" message |
| Reports.ReportCounts | api_fuzzer/fuzzer.py:307-322 | the status histogram adds up to the test count and the issue histogram to the tag count; the issue keys are the distinct tags; errors and tests with issues stay within the test count |
| Fuzzer.ApiFuzzer.GenerateReport | api_fuzzer/fuzzer.py:297-342 | it returns the report `Reports.ReportOf` specifies and does not change the session |
| SqlMapper.ParseColumns | NLP-Text-to-SQL/app/src/nl2sql_rulebased.py:18-31 | the loops return the columns `SqlMapper.ColumnsFor` specifies |
| SqlMapper.MatchedMembers | NLP-Text-to-SQL/app/src/nl2sql_rulebased.py:24-30 | a column is matched iff some keyword for it occurs as a whole word |
| SqlMapper.ColumnsStar | NLP-Text-to-SQL/app/src/nl2sql_rulebased.py:18-23 | the result is `*` iff `all` or `everything` occurs as a whole word |
| SqlMapper.ColumnsListed | NLP-Text-to-SQL/app/src/nl2sql_rulebased.py:24-30 | otherwise the matched columns are joined by `, `, without duplicates, and contain exactly the columns whose keyword occurs |
| SqlMapper.ColumnsDefault | NLP-Text-to-SQL/app/src/nl2sql_rulebased.py:31 | with no keyword, the result is `title, author, price, year` |
| SqlMapper.ColumnsAvoid | NLP-Text-to-SQL/app/src/nl2sql_rulebased.py:5-16 | column lists contain only lower-case letters, commas and spaces |
| SqlMapper.UndoubleDoubleQuotes | NLP-Text-to-SQL/app/src/nl2sql_rulebased.py:37 | halving `''` pairs undoes doubling every `'` |
| SqlMapper.QuoteSqlRoundTrip | NLP-Text-to-SQL/app/src/nl2sql_rulebased.py:33-37 | a non-numeric value is quoted so that removing the outer quotes and halving `''` gives back the stripped value |
| SqlMapper.QuoteSqlNumeric | NLP-Text-to-SQL/app/src/nl2sql_rulebased.py:33-36 | a numeric value is returned stripped and unquoted, made only of digits and `.` |
| SqlMapper.LikePatternQuoted | NLP-Text-to-SQL/app/src/nl2sql_rulebased.py:91 | a `%…%` pattern is never numeric, so it is quoted with its `'` doubled |
| SqlMapper.CollectConditions | NLP-Text-to-SQL/app/src/nl2sql_rulebased.py:87-113 | the appends build the conditions `SqlMapper.Conditions` specifies |
| SqlMapper.AppendOrdering | NLP-Text-to-SQL/app/src/nl2sql_rulebased.py:127-143 | it appends the ordering and limit `SqlMapper.OrderPart` specifies |
| SqlMapper.NlToSql | NLP-Text-to-SQL/app/src/nl2sql_rulebased.py:84-148 | it returns the query and select clause `SqlMapper.Query` specifies |
| SqlMapper.SelectChoice | NLP-Text-to-SQL/app/src/nl2sql_rulebased.py:115-122 | the query starts with `SELECT <select> FROM books`; the select is `COUNT(*) as count` for a count question, otherwise the parsed columns |
| SqlMapper.ConditionsInOrder | NLP-Text-to-SQL/app/src/nl2sql_rulebased.py:89-113 | the conditions name their columns in the order author, genre, price, year, each exactly when found |
| SqlMapper.ConditionsFound | NLP-Text-to-SQL/app/src/nl2sql_rulebased.py:89-113 | there is a condition iff some filter was extracted |
| SqlMapper.WhereIffFilters | NLP-Text-to-SQL/app/src/nl2sql_rulebased.py:124-125 | the query contains ` WHERE ` iff some filter was extracted |
| SqlMapper.WhereWhenFiltered | NLP-Text-to-SQL/app/src/nl2sql_rulebased.py:124-125 | with a condition, the query contains ` WHERE ` |
| SqlMapper.NoWhereUnfiltered | NLP-Text-to-SQL/app/src/nl2sql_rulebased.py:122-146 | without one, no later part of the query contains ` WHERE ` |
| SqlMapper.OrderDirection | NLP-Text-to-SQL/app/src/nl2sql_rulebased.py:131-138 | `expensive` or `highest price` sorts descending; otherwise `cheapest` or `lowest price` sorts ascending; both add the top limit |
| SqlMapper.TopLimitCarriesCount | NLP-Text-to-SQL/app/src/nl2sql_rulebased.py:127-138 | the top limit is present iff the top count is non-zero, and it reads back as that count |
| SqlMapper.LimitCarriesNumber | NLP-Text-to-SQL/app/src/nl2sql_rulebased.py:143 | ` LIMIT n` reads back as n |
| SqlMapper.NonCountQueryHasLimit | NLP-Text-to-SQL/app/src/nl2sql_rulebased.py:145-146 | every query that does not count contains `limit`, case-insensitively |
| SqlMapper.LimitFollows | NLP-Text-to-SQL/app/src/nl2sql_rulebased.py:145-146 | the default-limit step leaves `limit` in a query that does not count |
| SqlMapper.NoDefaultAfterOrderLimit | NLP-Text-to-SQL/app/src/nl2sql_rulebased.py:145-146 | after a limit from the ordering step, ` LIMIT 50` is not appended |
| SqlMapper.LeastExpensiveSortsDescending | NLP-Text-to-SQL/app/src/nl2sql_rulebased.py:131-134 | as written, "least expensive" sorts by price descending |
| SqlMapper.LeastExpensiveSortsAscending | NLP-Text-to-SQL/app/src/nl2sql_rulebased.py:135-138 | with the ascending phrases tested first, "least expensive" sorts ascending |
| SqlMapper.IntendedOrderingAgrees | NLP-Text-to-SQL/app/src/nl2sql_rulebased.py:131-143 | the corrected ordering equals the original unless the text has both an ascending and a descending phrase |
| SqlMapper.IntendedLimitFlag | NLP-Text-to-SQL/app/src/nl2sql_rulebased.py:127-143 | the corrected ordering reports a limit iff its text ends in ` LIMIT n` |
| SqlMapper.LimitInAuthorUnbounded | NLP-Text-to-SQL/app/src/nl2sql_rulebased.py:145-146 | as written, an author name containing `limit` with no other limit leaves the query without any `LIMIT` clause |
| SqlMapper.LimitlessSaysLimit | NLP-Text-to-SQL/app/src/nl2sql_rulebased.py:89-91 | the author "Limitless" is such a name |
| SqlMapper.IntendedQueryLimited | NLP-Text-to-SQL/app/src/nl2sql_rulebased.py:145-146 | the corrected query of a question that does not count always ends in ` LIMIT n` |

## Left out

- HTTP transport, JSON decoding, the clock, `datetime.now()`, Faker and `random`:
  - these are parameters (`Exchange`, `Reply.json`, `FakeIdentity`, picks, `RandomDraw`);
  - the model covers every value they can supply within `Payloads.Value`, but not which
    one is drawn.
- `time.sleep` pacing, logging, `save_results`, the command line in `main`, and the
  files `examples.py`, the scraper, the database and the UI: I/O with no logic to prove.
- Reports.AverageTime: the average is stated over reals, with bounds only. Floating-point
  summation and `round(…, 3)` are not modelled.
- Text.Lower and Text.Upper: case mapping is ASCII only. Python maps every Unicode
  letter, so lower- and upper-casing non-ASCII text may differ. Text.Strip uses the full
  set of characters for which Python's `str.isspace()` holds.
- Payloads.Value: has no floating-point numbers. A JSON reply such as `{"price": 9.99}`
  and a custom payload holding a float cannot be represented.
- Payloads.Repr:
  - this is Python's `repr` with its choice of quote, the `\\`, `\n`, `\r` and `\t`
    escapes, and `\xNN` for the other control characters below 32 and for 127;
  - every other character is treated as printable, so Python's `\x`, `\u` and `\U`
    escapes for non-printable characters from 128 up are not modelled.
- SqlMapper.Query:
  - the extractors `extract_author`, `extract_genre`, `extract_price_filter` and
    `extract_year_filter`, and the regular expressions for `top N` and `show/list N`, are
    inputs (`Extracted`);
  - their regular expressions and the float formatting of prices are not modelled.
- SqlMapper.QuoteSql: the numeric test accepts the ASCII digits `0`-`9` only. Python's `\d`
  also accepts every other Unicode decimal digit. So a value such as `٣` (U+0663) is
  returned unquoted by the source but quoted by the model.
- QuoteSqlNumeric: "numeric" is stated for ASCII digits only, for the same reason as
  SqlMapper.QuoteSql.
- SqlMapper.HasWord: `\b` is approximated with ASCII letters, digits and `_`, while
  Python's `\w` is Unicode-aware.
- SqlMapper.NlToSql: the SQL-building steps are split into two helper methods.
  - `CollectConditions` models the appends to `where_clauses`.
  - `AppendOrdering` models the ordering branch.
  - The code follows the source's order of `+=` steps.
- Records.Outgoing: a DELETE sends the payload as a JSON body, which is what the code
  does. Only GET uses query parameters. A prose description of the tool says DELETE uses
  query parameters.
- Payloads.RandomPayload: only the shape of the payload is stated: non-empty, with
  distinct keys.

## Findings

| source | as written | input that shows it | evidently intended | confidence | as-written member | corrected member |
|---|---|---|---|---|---|---|
| NLP-Text-to-SQL/app/src/nl2sql_rulebased.py:131-138 | `expensive` is tested first, and "least expensive" contains it, so the ascending alternative "least expensive" can never match | "least expensive books" gives `ORDER BY price DESC` | "least expensive" sorts ascending | not executed | SqlMapper.LeastExpensiveSortsDescending | SqlMapper.LeastExpensiveSortsAscending |
| NLP-Text-to-SQL/app/src/nl2sql_rulebased.py:145-146 | the default ` LIMIT 50` is skipped whenever `limit` occurs anywhere in the lower-cased query, including inside a quoted author name | author "Limitless" with no ordering or `show N` gives `SELECT … FROM books WHERE author LIKE '%Limitless%'` with no LIMIT | every query that does not count ends in a LIMIT clause | not executed | SqlMapper.LimitInAuthorUnbounded | SqlMapper.IntendedQueryLimited |
