/// Payloads: the JSON-like values the fuzzer sends, their Python `str()`
/// rendering (which the classifier searches), the fixed malformed corpus
/// of `generate_malformed_payloads`, `generate_random_string` and the five
/// shapes of `_generate_random_payload`.
///
/// Randomness (Python's `random` and Faker) is not computed here: every
/// random choice arrives as a parameter, so each function describes every
/// value the source can produce.
module Payloads {
  import opened Text

  datatype Value =
    | Null
    | Bool(b: bool)
    | Int(i: int)
    | Str(s: string)
    | List(items: seq<Value>)
    | Dict(entries: seq<(string, Value)>)

  /** A payload is a dictionary with string keys, in insertion order. */
  type Payload = seq<(string, Value)>

  // ---------------------------------------------------------------------
  // Python's repr of strings, lists and dictionaries

  function HexDigit(d: nat): char
    requires d < 16
  {
    "0123456789abcdef"[d]
  }

  /** The quote Python's repr puts around `s`. */
  function QuoteFor(s: string): char {
    if '\'' in s && '"' !in s then '"' else '\''
  }

  /** How repr writes one character inside a string quoted with `q`. */
  function EscapeChar(c: char, q: char): string {
    if c == q || c == '\\' then ['\\', c]
    else if c == '\t' then "\\t"
    else if c == '\n' then "\\n"
    else if c == '\r' then "\\r"
    else if c as int < 32 || c as int == 127 then ['\\', 'x', HexDigit(c as int / 16), HexDigit(c as int % 16)]
    else [c]
  }

  function Escape(s: string, q: char): string {
    if s == [] then "" else EscapeChar(s[0], q) + Escape(s[1..], q)
  }

  function ReprStr(s: string): string {
    var q := QuoteFor(s);
    [q] + Escape(s, q) + [q]
  }

  function Repr(v: Value): string
    decreases v, 0
  {
    match v
    case Null => "None"
    case Bool(b) => if b then "True" else "False"
    case Int(i) => IntToString(i)
    case Str(s) => ReprStr(s)
    case List(items) =>
      "[" + Join(", ", seq(|items|, k requires 0 <= k < |items| => Repr(items[k]))) + "]"
    case Dict(entries) =>
      "{" + Join(", ", seq(|entries|, k requires 0 <= k < |entries| => ReprEntry(entries[k].0, entries[k].1))) + "}"
  }

  function ReprEntry(key: string, v: Value): string
    decreases v, 1
  {
    ReprStr(key) + ": " + Repr(v)
  }

  /** Python's `str(payload)` for a payload dictionary. */
  function Render(p: Payload): string {
    Repr(Dict(p))
  }

  /** A character that repr writes unchanged inside a string quoted with `q`. */
  predicate PlainIn(c: char, q: char) {
    c != q && c != '\\' && 32 <= c as int && c as int != 127
  }

  lemma {:induction false} EscapeAppend(a: string, b: string, q: char)
    ensures Escape(a + b, q) == Escape(a, q) + Escape(b, q)
  {
    if a == [] {
      assert a + b == b;
    } else {
      assert (a + b)[1..] == a[1..] + b;
      EscapeAppend(a[1..], b, q);
    }
  }

  lemma {:induction false} EscapePlain(t: string, q: char)
    requires forall c <- t :: PlainIn(c, q)
    ensures Escape(t, q) == t
  {
    if t != [] {
      assert PlainIn(t[0], q);
      EscapePlain(t[1..], q);
      assert Escape(t, q) == [t[0]] + t[1..];
    }
  }

  lemma EscapeAround(before: string, t: string, after: string, q: char)
    requires forall c <- t :: PlainIn(c, q)
    ensures Escape(before + t + after, q) == Escape(before, q) + t + Escape(after, q)
  {
    EscapeAppend(before + t, after, q);
    EscapeAppend(before, t, q);
    EscapePlain(t, q);
  }

  /** A run of characters that need no escaping shows up verbatim in the repr of a string. */
  lemma PlainInfixSurvivesRepr(s: string, t: string)
    requires Contains(s, t)
    requires forall c <- t :: PlainIn(c, QuoteFor(s))
    ensures Contains(ReprStr(s), t)
  {
    var q := QuoteFor(s);
    var i :| 0 <= i <= |s| - |t| && MatchAt(s, t, i);
    var before, after := s[..i], s[i + |t|..];
    assert s == before + t + after;
    EscapeAround(before, t, after, q);
    QuotedInfix(q, Escape(before, q), t, Escape(after, q));
  }

  lemma QuotedInfix(q: char, e1: string, t: string, e2: string)
    ensures Contains([q] + (e1 + t + e2) + [q], t)
  {
    var w := [q] + (e1 + t + e2) + [q];
    assert w[1 + |e1|..1 + |e1| + |t|] == t;
    ContainsAt(w, t, 1 + |e1|);
  }

  lemma LowerEscapeChar(c: char, q: char)
    requires q == '\'' || q == '"'
    ensures Lower(EscapeChar(c, q)) == EscapeChar(LowerChar(c), q)
  {
  }

  lemma {:induction false} LowerEscape(s: string, q: char)
    requires q == '\'' || q == '"'
    ensures Lower(Escape(s, q)) == Escape(Lower(s), q)
  {
    if s != [] {
      LowerEscape(s[1..], q);
      LowerAppend(EscapeChar(s[0], q), Escape(s[1..], q));
      LowerEscapeChar(s[0], q);
      assert Lower(s)[1..] == Lower(s[1..]);
    }
  }

  /** Lower-casing commutes with repr: the lower-cased rendering is the rendering of the lower-cased string. */
  lemma LowerReprStr(s: string)
    ensures Lower(ReprStr(s)) == ReprStr(Lower(s))
  {
    var q := QuoteFor(s);
    assert '\'' in Lower(s) <==> '\'' in s by {
      if '\'' in s { var k :| 0 <= k < |s| && s[k] == '\''; assert Lower(s)[k] == '\''; }
      if '\'' in Lower(s) { var k :| 0 <= k < |s| && Lower(s)[k] == '\''; assert s[k] == '\''; }
    }
    assert '"' in Lower(s) <==> '"' in s by {
      if '"' in s { var k :| 0 <= k < |s| && s[k] == '"'; assert Lower(s)[k] == '"'; }
      if '"' in Lower(s) { var k :| 0 <= k < |s| && Lower(s)[k] == '"'; assert s[k] == '"'; }
    }
    LowerEscape(s, q);
    LowerAppend([q] + Escape(s, q), [q]);
    LowerAppend([q], Escape(s, q));
  }

  /** The repr of every value of a payload occurs in `str(payload)`. */
  lemma ValueShowsInRender(p: Payload, k: nat)
    requires k < |p|
    ensures Contains(Render(p), Repr(p[k].1))
  {
    var parts := seq(|p|, j requires 0 <= j < |p| => ReprEntry(p[j].0, p[j].1));
    assert Render(p) == "{" + Join(", ", parts) + "}";
    ContainsSelf(Repr(p[k].1));
    ContainsWithin(ReprStr(p[k].0) + ": ", Repr(p[k].1), [], Repr(p[k].1));
    assert parts[k] == ReprStr(p[k].0) + ": " + Repr(p[k].1) + [];
    ContainsJoinPart(", ", parts, k);
    ContainsWithin("{", Join(", ", parts), "}", parts[k]);
    ContainsTransitive(Render(p), parts[k], Repr(p[k].1));
  }

  /** A run of a string value that needs no escaping occurs in `str(payload)`. */
  lemma TextInValueShowsInRender(p: Payload, k: nat, t: string)
    requires k < |p| && p[k].1.Str?
    requires Contains(p[k].1.s, t)
    requires forall c <- t :: PlainIn(c, QuoteFor(p[k].1.s))
    ensures Contains(Render(p), t)
  {
    PlainInfixSurvivesRepr(p[k].1.s, t);
    ValueShowsInRender(p, k);
    ContainsTransitive(Render(p), Repr(p[k].1), t);
  }

  /**
   * When a string value of a payload contains `marker` once lower-cased, and
   * the marker needs no escaping, the lower-cased `str(payload)` contains it.
   * This is what lets the validation-bypass rule see suspicious values.
   */
  lemma MarkerInValueShowsInRender(p: Payload, k: nat, marker: string)
    requires k < |p| && p[k].1.Str?
    requires Contains(Lower(p[k].1.s), marker)
    requires forall c <- marker :: PlainIn(c, '\'') && PlainIn(c, '"')
    ensures Contains(Lower(Render(p)), marker)
  {
    var v := p[k].1.s;
    PlainInfixSurvivesRepr(Lower(v), marker);
    LowerReprStr(v);
    ValueShowsInRender(p, k);
    ContainsLower(Render(p), ReprStr(v));
    ContainsTransitive(Lower(Render(p)), Lower(ReprStr(v)), marker);
  }

  // ---------------------------------------------------------------------
  // generate_random_string

  /** The `n` consecutive characters starting at `first`. */
  function Span(first: char, n: nat): (s: string)
    requires first as int + n <= 0xD800
    ensures |s| == n && forall i :: 0 <= i < n ==> s[i] as int == first as int + i
  {
    if n == 0 then [] else Span(first, n - 1) + [(first as int + n - 1) as char]
  }

  /** `string.ascii_letters + string.digits`: a-z, then A-Z, then 0-9. */
  const Alphabet: string := Span('a', 26) + Span('A', 26) + Span('0', 10)

  /** The alphabet's character at position `k`, computed. */
  function AlphabetChar(k: nat): char
    requires k < 62
  {
    if k < 26 then ('a' as int + k) as char
    else if k < 52 then ('A' as int + (k - 26)) as char
    else ('0' as int + (k - 52)) as char
  }

  lemma AlphabetAt(k: nat)
    requires k < 62
    ensures |Alphabet| == 62 && Alphabet[k] == AlphabetChar(k)
  {
  }

  /**
   * The random choices behind `random.choices(alphabet, k=length)`: one
   * position in the alphabet per character; a negative `length` yields none.
   */
  predicate ValidPicks(picks: seq<nat>, length: int) {
    && |picks| == (if length < 0 then 0 else length)
    && forall i :: 0 <= i < |picks| ==> picks[i] < |Alphabet|
  }

  function RandomString(length: int := 10, picks: seq<nat>): (s: string)
    requires ValidPicks(picks, length)
    ensures |s| == (if length < 0 then 0 else length)
    ensures forall i :: 0 <= i < |s| ==> IsAlnum(s[i])
  {
    AlphabetIsAlnum();
    seq(|picks|, i requires 0 <= i < |picks| => Alphabet[picks[i]])
  }

  lemma AlphabetIsAlnum()
    ensures |Alphabet| == 62 && forall k :: 0 <= k < 62 ==> IsAlnum(Alphabet[k])
  {
    forall k | 0 <= k < 62
      ensures IsAlnum(Alphabet[k])
    {
      AlphabetAt(k);
    }
  }

  /** The position of an alphanumeric character in the alphabet. */
  function AlphabetIndex(c: char): (k: nat)
    requires IsAlnum(c)
    ensures k < 62 && Alphabet[k] == c
  {
    var k := if 'a' <= c <= 'z' then c as int - 'a' as int
             else if 'A' <= c <= 'Z' then 26 + (c as int - 'A' as int)
             else 52 + (c as int - '0' as int);
    AlphabetAt(k);
    k
  }

  /** Every alphanumeric string of a given length is one that `RandomString` can produce. */
  lemma EveryAlnumStringCanBeDrawn(s: string)
    requires forall i :: 0 <= i < |s| ==> IsAlnum(s[i])
    ensures exists picks :: ValidPicks(picks, |s|) && RandomString(|s|, picks) == s
  {
    var picks := seq(|s|, i requires 0 <= i < |s| => AlphabetIndex(s[i]));
    assert ValidPicks(picks, |s|);
    assert RandomString(|s|, picks) == s;
  }

  // ---------------------------------------------------------------------
  // generate_malformed_payloads

  /** The five Faker values the corpus draws on each time it is built. */
  datatype FakeIdentity = FakeIdentity(name: string, email: string, address: string, phone: string, text: string)

  /** Python's `c * n` for a one-character string `c`. */
  function Repeat(c: char, n: nat): (s: string)
    ensures |s| == n && forall x <- s :: x == c
  {
    if n == 0 then [] else Repeat(c, n - 1) + [c]
  }

  /**
   * The malformed-payload corpus, in the source's order. `namePicks` are the
   * random choices of `generate_random_string(1000)`; `fake` holds the Faker
   * strings.
   */
  function MalformedPayloads(namePicks: seq<nat>, fake: FakeIdentity): (corpus: seq<Payload>)
    requires ValidPicks(namePicks, 1000)
    ensures |corpus| == 32
  {
    [
      // empty payloads
      [],
      [("", Str(""))],
      // SQL injection
      [("username", Str("admin' OR '1'='1")), ("password", Str("password"))],
      [("id", Str("1 OR 1=1"))],
      [("query", Str("'; DROP TABLE users--"))],
      // cross-site scripting
      [("name", Str("<script>alert('XSS')</script>"))],
      [("comment", Str("<img src=x onerror=alert('XSS')>"))],
      // command injection and path traversal
      [("file", Str("; ls -la"))],
      [("path", Str("../../etc/passwd"))],
      // type confusion
      [("id", Str("not_a_number"))],
      [("active", Str("true_string_not_bool"))],
      [("count", List([Int(1), Int(2), Int(3)]))],
      // extreme values
      [("age", Int(-1))],
      [("price", Int(999999999999999))],
      [("quantity", Int(0))],
      // very long strings
      [("description", Str(Repeat('A', 10000)))],
      [("name", Str(RandomString(1000, namePicks)))],
      // special characters
      [("text", Str("!@#$%^&*(){}[]|\\:;\"'<>,.?/~`"))],
      [("unicode", Str("\U{e2}\U{2dc}\U{a0}\U{ef}\U{b8}\U{f0}\U{178}\U{2019}\U{20ac}\U{f0}\U{178}\U{2018}\U{bb}\U{f0}\U{178}\U{201d}\U{a5}"))],
      // null and undefined
      [("value", Null)],
      [("data", Str("null"))],
      // format issues
      [("email", Str("not-an-email"))],
      [("url", Str("invalid://url"))],
      [("date", Str("not-a-date"))],
      // Faker-generated data
      [("name", Str(fake.name))],
      [("email", Str(fake.email))],
      [("address", Str(fake.address))],
      [("phone", Str(fake.phone))],
      [("text", Str(fake.text))],
      // nesting and arrays
      [("nested", Dict([("deep", Dict([("very", Dict([("deep", Str("value"))]))]))]))],
      [("array", List([]))],
      [("mixed", List([Int(1), Str("two"), Dict([("three", Int(3))]), Null]))]
    ]
  }

  // ---------------------------------------------------------------------
  // _generate_random_payload

  /** The random choices behind one call of `_generate_random_payload`: which of the five shapes, and its contents. */
  datatype RandomDraw =
    | NameAndEmail(name: string, email: string)
    | IdAndFlag(id: int, active: bool)
    | TextAndTimestamp(text: string, timestamp: string)
    | DataString(dataPicks: seq<nat>)
    | RandomEntry(keyPicks: seq<nat>, valuePicks: seq<nat>)

  /** What the source's random calls can return: `randint(1, 1000)`, a length from `randint(5, 50)`, fixed key and value lengths. */
  predicate ValidDraw(d: RandomDraw) {
    match d
    case IdAndFlag(id, _) => 1 <= id <= 1000
    case DataString(picks) => 5 <= |picks| <= 50 && ValidPicks(picks, |picks|)
    case RandomEntry(keyPicks, valuePicks) => ValidPicks(keyPicks, 5) && ValidPicks(valuePicks, 10)
    case _ => true
  }

  function RandomPayload(d: RandomDraw): (p: Payload)
    requires ValidDraw(d)
    ensures |p| > 0
    ensures forall i, j :: 0 <= i < j < |p| ==> p[i].0 != p[j].0
  {
    match d
    case NameAndEmail(name, email) => [("name", Str(name)), ("email", Str(email))]
    case IdAndFlag(id, active) => [("id", Int(id)), ("active", Bool(active))]
    case TextAndTimestamp(text, timestamp) => [("text", Str(text)), ("timestamp", Str(timestamp))]
    case DataString(picks) => [("data", Str(RandomString(|picks|, picks)))]
    case RandomEntry(keyPicks, valuePicks) => [(RandomString(5, keyPicks), Str(RandomString(10, valuePicks)))]
  }

  /** `str(p)` for each payload `p` of a corpus, in order. */
  function Renders(corpus: seq<Payload>): (r: seq<string>)
    ensures |r| == |corpus|
    ensures forall i :: 0 <= i < |corpus| ==> r[i] == Render(corpus[i])
  {
    seq(|corpus|, i requires 0 <= i < |corpus| => Render(corpus[i]))
  }

  /**
   * The corpus holds the attack classes the source's tests look for in the
   * text of all payloads joined by spaces: an empty payload, a negative age,
   * the `OR '1'='1` and `DROP TABLE` injections and a `<script>` tag.
   */
  lemma CorpusCoversAttackClasses(namePicks: seq<nat>, fake: FakeIdentity)
    requires ValidPicks(namePicks, 1000)
    ensures var corpus := MalformedPayloads(namePicks, fake);
            var combined := Join(" ", Renders(corpus));
            && [] in corpus
            && (exists i :: 0 <= i < |corpus| && ("age", Int(-1)) in corpus[i])
            && Contains(combined, "OR '1'='1")
            && Contains(combined, "<script>")
            && Contains(combined, "DROP TABLE")
  {
    CorpusInjectionEntries(namePicks, fake);
    CorpusMarkupEntries(namePicks, fake);
    CoverageOfEntries(MalformedPayloads(namePicks, fake));
  }

  /** Coverage, for any corpus whose inspected entries are those of the source. */
  lemma CoverageOfEntries(corpus: seq<Payload>)
    requires |corpus| == 32
    requires corpus[0] == [] && corpus[12] == [("age", Int(-1))]
    requires |corpus[2]| > 0 && |corpus[4]| > 0 && |corpus[5]| > 0
    requires corpus[2][0].1 == Str("admin' OR '1'='1")
    requires corpus[4][0].1 == Str("'; DROP TABLE users--")
    requires corpus[5][0].1 == Str("<script>alert('XSS')</script>")
    ensures var combined := Join(" ", Renders(corpus));
            && [] in corpus
            && (exists i :: 0 <= i < |corpus| && ("age", Int(-1)) in corpus[i])
            && Contains(combined, "OR '1'='1")
            && Contains(combined, "<script>")
            && Contains(combined, "DROP TABLE")
  {
    var renders := Renders(corpus);
    assert ("age", Int(-1)) in corpus[12];
    InjectionIsPlain();
    CoverageEntry(corpus, renders, 2, 0, "admin' OR '1'='1", "OR '1'='1", 7);
    ScriptIsPlain();
    CoverageEntry(corpus, renders, 5, 0, "<script>alert('XSS')</script>", "<script>", 0);
    DropIsPlain();
    CoverageEntry(corpus, renders, 4, 0, "'; DROP TABLE users--", "DROP TABLE", 3);
  }

  /** The corpus entries that carry the injections, as the source lists them. */
  lemma CorpusInjectionEntries(namePicks: seq<nat>, fake: FakeIdentity)
    requires ValidPicks(namePicks, 1000)
    ensures var corpus := MalformedPayloads(namePicks, fake);
            && corpus[0] == []
            && corpus[2] == [("username", Str("admin' OR '1'='1")), ("password", Str("password"))]
            && corpus[3] == [("id", Str("1 OR 1=1"))]
            && corpus[4] == [("query", Str("'; DROP TABLE users--"))]
  {
    var corpus := MalformedPayloads(namePicks, fake);
    assert corpus[0] == [];
    assert corpus[2] == [("username", Str("admin' OR '1'='1")), ("password", Str("password"))];
    assert corpus[3] == [("id", Str("1 OR 1=1"))];
  }

  /** The corpus entries that carry the script, path traversal and negative age, as the source lists them. */
  lemma CorpusMarkupEntries(namePicks: seq<nat>, fake: FakeIdentity)
    requires ValidPicks(namePicks, 1000)
    ensures var corpus := MalformedPayloads(namePicks, fake);
            && corpus[5] == [("name", Str("<script>alert('XSS')</script>"))]
            && corpus[8] == [("path", Str("../../etc/passwd"))]
            && corpus[12] == [("age", Int(-1))]
  {
    var corpus := MalformedPayloads(namePicks, fake);
    assert corpus[5] == [("name", Str("<script>alert('XSS')</script>"))];
    assert corpus[8] == [("path", Str("../../etc/passwd"))];
  }

  lemma InjectionIsPlain()
    ensures "admin' OR '1'='1"[7..16] == "OR '1'='1"
    ensures forall c <- "OR '1'='1" :: PlainIn(c, QuoteFor("admin' OR '1'='1"))
  {
    assert '\'' in "admin' OR '1'='1";
    assert QuoteFor("admin' OR '1'='1") == '"';
  }

  lemma ScriptIsPlain()
    ensures "<script>alert('XSS')</script>"[0..8] == "<script>"
    ensures forall c <- "<script>" :: PlainIn(c, QuoteFor("<script>alert('XSS')</script>"))
  {
  }

  lemma DropIsPlain()
    ensures "'; DROP TABLE users--"[3..13] == "DROP TABLE"
    ensures forall c <- "DROP TABLE" :: PlainIn(c, QuoteFor("'; DROP TABLE users--"))
  {
  }

  lemma CoverageEntry(corpus: seq<Payload>, renders: seq<string>, i: nat, k: nat, v: string, t: string, at: nat)
    requires |renders| == |corpus| && i < |corpus| && forall j :: 0 <= j < |corpus| ==> renders[j] == Render(corpus[j])
    requires k < |corpus[i]| && corpus[i][k].1 == Str(v)
    requires at + |t| <= |v| && v[at..at + |t|] == t
    requires forall c <- t :: PlainIn(c, QuoteFor(v))
    ensures Contains(Join(" ", renders), t)
  {
    ContainsAt(v, t, at);
    TextInValueShowsInRender(corpus[i], k, t);
    ContainsJoinPart(" ", renders, i);
    ContainsTransitive(Join(" ", renders), renders[i], t);
  }
}
