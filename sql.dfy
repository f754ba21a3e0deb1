/**
 * The rule-based text-to-SQL mapper for the `books` table: the keyword to
 * column table, `parse_columns`, `quote_sql_value` and `nl_to_sql`. The
 * values the regular-expression extractors pull out of the question (author,
 * genre, price and year filters, the `top N` and `show N` counts) are inputs.
 */
module SqlMapper {
  import opened Options
  import opened Text
  import opened Seqs

  // ---------------------------------------------------------------------
  // Whole-word search: `re.search(r"\b" + word + r"\b", text)` for a word
  // that starts and ends with word characters

  predicate IsWordChar(c: char) { IsAlnum(c) || c == '_' }

  /** `w` occurs in `s` at `i` with no word character right before or after it. */
  predicate WordAt(s: string, w: string, i: int) {
    && MatchAt(s, w, i)
    && (i == 0 || !IsWordChar(s[i - 1]))
    && (i + |w| == |s| || !IsWordChar(s[i + |w|]))
  }

  predicate HasWord(s: string, w: string) {
    exists i | 0 <= i <= |s| - |w| :: WordAt(s, w, i)
  }

  // ---------------------------------------------------------------------
  // Columns

  /** `COLUMNS`: question words and the column each selects, in insertion order; `*` selects every column. */
  const Columns: seq<(string, string)> := [
    ("title", "title"), ("titles", "title"), ("author", "author"), ("authors", "author"),
    ("price", "price"), ("year", "year"), ("genre", "genre"), ("stock", "stock"),
    ("all", "*"), ("everything", "*")
  ]

  const DefaultColumns := "title, author, price, year"

  /** The columns of the keys that occur as words in `text`, in key order, repeats kept. */
  function Matched(keys: seq<(string, string)>, text: string): seq<string> {
    if keys == [] then []
    else
      var last := keys[|keys| - 1];
      Matched(keys[..|keys| - 1], text) + if HasWord(text, last.0) then [last.1] else []
  }

  /** Some key that selects every column occurs as a word. */
  predicate StarMatched(text: string) {
    exists j :: 0 <= j < |Columns| && Columns[j].1 == "*" && HasWord(text, Columns[j].0)
  }

  /** What `parse_columns` returns for the lower-cased question `text`. */
  function ColumnsFor(text: string): string {
    if StarMatched(text) then "*"
    else
      var m := Matched(Columns, text);
      if m == [] then DefaultColumns else Join(", ", Distinct(m))
  }

  /**
   * `parse_columns`: scans the keys in order, answering `*` as soon as a
   * key for every column occurs; otherwise lists the matched columns without
   * repeats, or the default columns when none matched.
   */
  method ParseColumns(text: string) returns (r: string)
    ensures r == ColumnsFor(text)
  {
    var cols: seq<string> := [];
    var i := 0;
    while i < |Columns|
      invariant 0 <= i <= |Columns|
      invariant cols == Matched(Columns[..i], text)
      invariant forall j :: 0 <= j < i && Columns[j].1 == "*" ==> !HasWord(text, Columns[j].0)
    {
      var key, col := Columns[i].0, Columns[i].1;
      assert Columns[..i + 1][..i] == Columns[..i];
      if HasWord(text, key) {
        if col == "*" {
          return "*";
        }
        cols := cols + [col];
      }
      i := i + 1;
    }
    assert Columns[..i] == Columns;
    if cols != [] {
      var seen: seq<string> := [];
      var j := 0;
      while j < |cols|
        invariant 0 <= j <= |cols|
        invariant seen == Distinct(cols[..j])
      {
        var c := cols[j];
        assert cols[..j + 1][..j] == cols[..j];
        if c !in seen {
          seen := seen + [c];
        }
        j := j + 1;
      }
      assert cols[..j] == cols;
      return Join(", ", seen);
    }
    return DefaultColumns;
  }

  /** A column is matched exactly when one of its keys occurs as a word. */
  lemma {:induction false} MatchedMembers(keys: seq<(string, string)>, text: string, c: string)
    ensures c in Matched(keys, text) <==> exists j :: 0 <= j < |keys| && keys[j].1 == c && HasWord(text, keys[j].0)
  {
    if keys != [] {
      var init := keys[..|keys| - 1];
      MatchedMembers(init, text, c);
      assert forall j :: 0 <= j < |init| ==> init[j] == keys[j];
    }
  }

  /** Only the keys `all` and `everything` select every column. */
  lemma StarKeys(text: string)
    ensures StarMatched(text) <==> HasWord(text, "all") || HasWord(text, "everything")
  {
    assert Columns[8] == ("all", "*") && Columns[9] == ("everything", "*");
    assert forall j :: 0 <= j < 8 ==> |Columns[j].1| > 1;
  }

  lemma JoinStartsWithFirst(sep: string, parts: seq<string>)
    requires parts != []
    ensures parts[0] <= Join(sep, parts)
  {
  }

  /** `parse_columns` answers `*` exactly when `all` or `everything` occurs as a word. */
  lemma ColumnsStar(text: string)
    ensures ColumnsFor(text) == "*" <==> HasWord(text, "all") || HasWord(text, "everything")
  {
    StarKeys(text);
    if !StarMatched(text) {
      var m := Matched(Columns, text);
      if m != [] {
        var d := Distinct(m);
        JoinStartsWithFirst(", ", d);
        MatchedMembers(Columns, text, d[0]);
        var j :| 0 <= j < |Columns| && Columns[j].1 == d[0] && HasWord(text, Columns[j].0);
        assert |d[0]| > 1;
      }
    }
  }

  /**
   * Without `all` or `everything`, and with some key present, `parse_columns`
   * lists each matched column once, in the order of first match, joined by
   * `", "`; a column is listed exactly when one of its keys occurs as a word.
   */
  lemma ColumnsListed(text: string)
    requires !HasWord(text, "all") && !HasWord(text, "everything")
    requires exists j :: 0 <= j < |Columns| && HasWord(text, Columns[j].0)
    ensures var d := Distinct(Matched(Columns, text));
            && ColumnsFor(text) == Join(", ", d)
            && (forall i, k :: 0 <= i < k < |d| ==> d[i] != d[k])
            && (forall c :: c in d <==> exists j :: 0 <= j < |Columns| && Columns[j].1 == c && HasWord(text, Columns[j].0))
  {
    StarKeys(text);
    var m := Matched(Columns, text);
    var j :| 0 <= j < |Columns| && HasWord(text, Columns[j].0);
    MatchedMembers(Columns, text, Columns[j].1);
    forall c
      ensures c in Distinct(m) <==> exists j :: 0 <= j < |Columns| && Columns[j].1 == c && HasWord(text, Columns[j].0)
    {
      MatchedMembers(Columns, text, c);
    }
  }

  /** When no key occurs as a word, `parse_columns` answers the default columns. */
  lemma ColumnsDefault(text: string)
    requires forall j :: 0 <= j < |Columns| ==> !HasWord(text, Columns[j].0)
    ensures ColumnsFor(text) == DefaultColumns
  {
    if Matched(Columns, text) != [] {
      var c := Matched(Columns, text)[0];
      MatchedMembers(Columns, text, c);
    }
  }

  // ---------------------------------------------------------------------
  // Quoting values

  /** One or more decimal digits. */
  predicate Digits(s: string) {
    |s| > 0 && forall c <- s :: IsDigit(c)
  }

  /** `re.fullmatch(r"\d+(\.\d+)?", s)`. */
  predicate IsNumeric(s: string) {
    Digits(s) || exists k | 0 < k < |s| :: s[k] == '.' && Digits(s[..k]) && Digits(s[k + 1..])
  }

  /** `s.replace("'", "''")`. */
  function DoubleQuotes(s: string): (r: string)
    ensures |r| >= |s|
  {
    if s == [] then [] else (if s[0] == '\'' then "''" else [s[0]]) + DoubleQuotes(s[1..])
  }

  /** `quote_sql_value`: a stripped number as it is, anything else as an SQL string literal. */
  function QuoteSql(val: string): string {
    var v := Strip(val);
    if IsNumeric(v) then v else "'" + DoubleQuotes(v) + "'"
  }

  /** Reads the body of an SQL string literal: each `''` stands for one `'`; a lone `'` is malformed. */
  function Undouble(s: string): Option<string> {
    if s == [] then Some([])
    else if s[0] == '\'' then
      if |s| >= 2 && s[1] == '\'' then
        match Undouble(s[2..])
        case None => None
        case Some(t) => Some("'" + t)
      else None
    else
      match Undouble(s[1..])
      case None => None
      case Some(t) => Some([s[0]] + t)
  }

  /** Reads an SQL string literal: a body between single quotes. */
  function Unquote(lit: string): Option<string> {
    if |lit| >= 2 && lit[0] == '\'' && lit[|lit| - 1] == '\'' then Undouble(lit[1..|lit| - 1]) else None
  }

  lemma {:induction false} UndoubleDoubleQuotes(s: string)
    ensures Undouble(DoubleQuotes(s)) == Some(s)
  {
    if s != [] {
      var head := if s[0] == '\'' then "''" else [s[0]];
      var rest := DoubleQuotes(s[1..]);
      UndoubleDoubleQuotes(s[1..]);
      assert DoubleQuotes(s) == head + rest;
      if s[0] == '\'' {
        assert (head + rest)[2..] == rest;
      } else {
        assert (head + rest)[1..] == rest;
      }
      assert s == [s[0]] + s[1..];
    }
  }

  /**
   * A value that is not a number is quoted so that reading the literal back
   * gives the stripped value: the quotes inside are all doubled.
   */
  lemma QuoteSqlRoundTrip(val: string)
    requires !IsNumeric(Strip(val))
    ensures Unquote(QuoteSql(val)) == Some(Strip(val))
  {
    var body := DoubleQuotes(Strip(val));
    assert ("'" + body + "'")[1..|body| + 1] == body;
    UndoubleDoubleQuotes(Strip(val));
  }

  /** A number is kept as it is, stripped: only digits and a dot, and not a string literal. */
  lemma QuoteSqlNumeric(val: string)
    requires IsNumeric(Strip(val))
    ensures QuoteSql(val) == Strip(val)
    ensures forall c <- QuoteSql(val) :: IsDigit(c) || c == '.'
    ensures Unquote(QuoteSql(val)).None?
  {
    NumericChars(Strip(val));
  }

  /** A number is digits with at most one dot, and starts with a digit. */
  lemma NumericChars(v: string)
    requires IsNumeric(v)
    ensures forall c <- v :: IsDigit(c) || c == '.'
    ensures IsDigit(v[0])
  {
    if !Digits(v) {
      var k :| 0 < k < |v| && v[k] == '.' && Digits(v[..k]) && Digits(v[k + 1..]);
      assert v == v[..k] + "." + v[k + 1..];
      assert v[0] in v[..k];
    } else {
      assert v[0] in v;
    }
  }

  lemma {:induction false} DoubleQuotesAppend(a: string, b: string)
    ensures DoubleQuotes(a + b) == DoubleQuotes(a) + DoubleQuotes(b)
  {
    if a != [] {
      var head := if a[0] == '\'' then "''" else [a[0]];
      assert (a + b)[0] == a[0] && (a + b)[1..] == a[1..] + b;
      DoubleQuotesAppend(a[1..], b);
      assert DoubleQuotes(a) == head + DoubleQuotes(a[1..]);
      assert DoubleQuotes(a + b) == head + (DoubleQuotes(a[1..]) + DoubleQuotes(b));
    } else {
      assert a + b == b;
    }
  }

  /** A string that starts and ends with a non-space character is its own strip. */
  lemma StripUnpadded(s: string)
    requires s != [] && !IsSpace(s[0]) && !IsSpace(s[|s| - 1])
    ensures Strip(s) == s
  {
    assert LeadingSpaces(s) == 0;
    assert s[0..] == s;
    assert TrailingSpaces(s) == 0;
  }

  /** A string that starts with `%` is not a number. */
  lemma PercentNotNumeric(s: string)
    requires s != [] && s[0] == '%'
    ensures !IsNumeric(s)
  {
    assert s[0] in s;
    forall k | 0 < k < |s|
      ensures !(s[k] == '.' && Digits(s[..k]) && Digits(s[k + 1..]))
    {
      assert s[0] in s[..k];
    }
  }

  /** The `LIKE` patterns are always string literals: `%` + the value with quotes doubled + `%`, between quotes. */
  lemma LikePatternQuoted(v: string)
    ensures QuoteSql("%" + v + "%") == "'%" + DoubleQuotes(v) + "%'"
  {
    var s := "%" + v + "%";
    StripUnpadded(s);
    PercentNotNumeric(s);
    PercentsKept(v);
    LiteralRegrouped(DoubleQuotes(v));
  }

  lemma PercentsKept(v: string)
    ensures DoubleQuotes("%" + v + "%") == "%" + DoubleQuotes(v) + "%"
  {
    DoubleQuotesAppend("%" + v, "%");
    DoubleQuotesAppend("%", v);
    assert DoubleQuotes("%") == "%";
  }

  lemma LiteralRegrouped(d: string)
    ensures "'" + ("%" + d + "%") + "'" == "'%" + d + "%'"
  {
  }

  // ---------------------------------------------------------------------
  // Assembling the query

  /** A filter the price or year extractor found: a comparison with an operator, or a range. */
  datatype Filter = Compare(op: string, value: string) | Between(low: string, high: string)

  /**
   * What the extractors found in the question: the author and genre names,
   * the price and year filters with their numbers already rendered, the
   * number after `top` and the number after `show` or `list`.
   */
  datatype Extracted = Extracted(
    author: Option<string>,
    genre: Option<string>,
    price: Option<Filter>,
    year: Option<Filter>,
    topN: Option<nat>,
    shown: Option<nat>)

  /** Python truthiness of an optional string. */
  predicate Truthy(o: Option<string>) {
    o.Some? && o.value != ""
  }

  /** Python truthiness of an optional number. */
  predicate Nonzero(o: Option<nat>) {
    o.Some? && o.value != 0
  }

  function LikeClause(column: string, v: string): string {
    column + " LIKE " + QuoteSql("%" + v + "%")
  }

  function FilterClause(column: string, f: Filter): string {
    match f
    case Compare(op, v) => column + " " + op + " " + v
    case Between(a, b) => column + " BETWEEN " + a + " AND " + b
  }

  /** The `where_clauses` list: author, genre, price and year conditions, each when found. */
  function Conditions(ex: Extracted): seq<string> {
    (if Truthy(ex.author) then [LikeClause("author", ex.author.value)] else [])
    + (if Truthy(ex.genre) then [LikeClause("genre", ex.genre.value)] else [])
    + (if ex.price.Some? then [FilterClause("price", ex.price.value)] else [])
    + (if ex.year.Some? then [FilterClause("year", ex.year.value)] else [])
  }

  const CountSelect := "COUNT(*) as count"

  /** `re.search(r"\bhow many\b|\bcount\b|\bnumber of\b", text)`. */
  predicate IsCountQuestion(text: string) {
    HasWord(text, "how many") || HasWord(text, "count") || HasWord(text, "number of")
  }

  function SelectClause(text: string, cols: string): string {
    if IsCountQuestion(text) then CountSelect else if Strip(cols) == "*" then "*" else cols
  }

  function Head(select: string): string {
    "SELECT " + select + " FROM books"
  }

  function WherePart(conditions: seq<string>): string {
    if conditions == [] then "" else " WHERE " + Join(" AND ", conditions)
  }

  const DescendingPhrases: seq<string> := ["most expensive", "expensive", "highest price"]
  const AscendingPhrases: seq<string> := ["cheapest", "least expensive", "lowest price"]

  /** One of the alternatives of a regular expression made of plain phrases matches. */
  predicate MentionsAny(text: string, phrases: seq<string>) {
    exists i :: 0 <= i < |phrases| && Contains(text, phrases[i])
  }

  function LimitClause(n: nat): string {
    " LIMIT " + NatToString(n)
  }

  function TopLimit(topN: Option<nat>): string {
    if Nonzero(topN) then LimitClause(topN.value) else ""
  }

  /** The ordering and limit `nl_to_sql` appends after the conditions. */
  function OrderPart(text: string, ex: Extracted): string {
    if MentionsAny(text, DescendingPhrases) then " ORDER BY price DESC" + TopLimit(ex.topN)
    else if MentionsAny(text, AscendingPhrases) then " ORDER BY price ASC" + TopLimit(ex.topN)
    else if ex.shown.Some? then LimitClause(ex.shown.value)
    else ""
  }

  /** The final ` LIMIT 50`, added when neither the query nor the select clause mentions a limit or a count. */
  function DefaultLimit(sql: string, select: string): string {
    if !Contains(Lower(sql), "limit") && !Contains(Lower(select), "count(") then " LIMIT 50" else ""
  }

  /** The query and the select clause `nl_to_sql` returns. */
  function Query(nl: string, ex: Extracted): (string, string) {
    Assemble(Lower(nl), ColumnsFor(Lower(nl)), ex)
  }

  /** The query and select clause for the lower-cased question and the columns `parse_columns` found in it. */
  function Assemble(text: string, cols: string, ex: Extracted): (string, string) {
    var select := SelectClause(text, cols);
    var sql := Head(select) + WherePart(Conditions(ex)) + OrderPart(text, ex);
    (sql + DefaultLimit(sql, select), select)
  }

  /** The four steps that append to the condition list, in the order of `Conditions`. */
  lemma ConditionsBuilt(ex: Extracted, w1: seq<string>, w2: seq<string>, w3: seq<string>, w4: seq<string>)
    requires w1 == (if Truthy(ex.author) then [LikeClause("author", ex.author.value)] else [])
    requires w2 == w1 + (if Truthy(ex.genre) then [LikeClause("genre", ex.genre.value)] else [])
    requires w3 == w2 + (if ex.price.Some? then [FilterClause("price", ex.price.value)] else [])
    requires w4 == w3 + (if ex.year.Some? then [FilterClause("year", ex.year.value)] else [])
    ensures w4 == Conditions(ex)
  {
  }

  /** Appending the WHERE keyword and then the joined conditions appends the WHERE part. */
  lemma WhereAppended(head: string, conditions: seq<string>, sql: string)
    requires conditions != [] ==> sql == head + " WHERE " + Join(" AND ", conditions)
    requires conditions == [] ==> sql == head
    ensures sql == head + WherePart(conditions)
  {
  }

  /** Appending the ordering and then its limit, if any, appends their concatenation. */
  lemma OrderAppended(before: string, order: string, limit: string, sql: string)
    requires sql == before + order + limit || (limit == "" && sql == before + order)
    ensures sql == before + (order + limit)
  {
  }

  /** The pieces `nl_to_sql` computes are the pieces `Query` names. */
  lemma QueryAssembled(nl: string, ex: Extracted, text: string, cols: string, select: string, unlimited: string)
    requires text == Lower(nl) && cols == ColumnsFor(text)
    requires select == SelectClause(text, cols)
    requires unlimited == Head(select) + WherePart(Conditions(ex)) + OrderPart(text, ex)
    ensures Query(nl, ex) == (unlimited + DefaultLimit(unlimited, select), select)
  {
  }

  /** The first part of `nl_to_sql`: the conditions appended one filter at a time. */
  method CollectConditions(ex: Extracted) returns (whereClauses: seq<string>)
    ensures whereClauses == Conditions(ex)
  {
    whereClauses := [];
    if Truthy(ex.author) {
      whereClauses := whereClauses + [LikeClause("author", ex.author.value)];
    }
    ghost var w1 := whereClauses;
    if Truthy(ex.genre) {
      whereClauses := whereClauses + [LikeClause("genre", ex.genre.value)];
    }
    ghost var w2 := whereClauses;
    if ex.price.Some? {
      whereClauses := whereClauses + [FilterClause("price", ex.price.value)];
    }
    ghost var w3 := whereClauses;
    if ex.year.Some? {
      whereClauses := whereClauses + [FilterClause("year", ex.year.value)];
    }
    ConditionsBuilt(ex, w1, w2, w3, whereClauses);
  }

  /** The ordering step of `nl_to_sql`: an ORDER BY with the top-n limit, or the show/list limit. */
  method AppendOrdering(sql: string, text: string, ex: Extracted) returns (r: string)
    ensures r == sql + OrderPart(text, ex)
  {
    r := sql;
    if MentionsAny(text, DescendingPhrases) {
      r := r + " ORDER BY price DESC";
      if Nonzero(ex.topN) {
        r := r + LimitClause(ex.topN.value);
      }
      OrderAppended(sql, " ORDER BY price DESC", TopLimit(ex.topN), r);
    } else if MentionsAny(text, AscendingPhrases) {
      r := r + " ORDER BY price ASC";
      if Nonzero(ex.topN) {
        r := r + LimitClause(ex.topN.value);
      }
      OrderAppended(sql, " ORDER BY price ASC", TopLimit(ex.topN), r);
    } else if ex.shown.Some? {
      r := r + LimitClause(ex.shown.value);
    }
  }

  /**
   * `nl_to_sql`: collects the conditions, picks the select clause, then
   * grows the query clause by clause.
   */
  method NlToSql(nl: string, ex: Extracted) returns (sql: string, select: string)
    ensures (sql, select) == Query(nl, ex)
  {
    var text := Lower(nl);
    var cols := ParseColumns(text);
    var whereClauses := CollectConditions(ex);

    if IsCountQuestion(text) {
      select := CountSelect;
    } else if Strip(cols) == "*" {
      select := "*";
    } else {
      select := cols;
    }
    assert select == SelectClause(text, cols);
    sql := "SELECT " + select + " FROM books";
    ghost var head := sql;
    if whereClauses != [] {
      sql := sql + " WHERE " + Join(" AND ", whereClauses);
    }
    WhereAppended(head, whereClauses, sql);
    sql := AppendOrdering(sql, text, ex);

    ghost var unlimited := sql;
    if !Contains(Lower(sql), "limit") && !Contains(Lower(select), "count(") {
      sql := sql + " LIMIT 50";
    }
    assert sql == unlimited + DefaultLimit(unlimited, select);
    QueryAssembled(nl, ex, text, cols, select, unlimited);
  }

  // ---------------------------------------------------------------------
  // What the query says

  /** Every character of a column list other than `*` is a lower-case letter, a comma or a space. */
  lemma ColumnsAvoid(text: string, c: char)
    requires !('a' <= c <= 'z') && c != ',' && c != ' '
    ensures ColumnsFor(text) == "*" || c !in ColumnsFor(text)
  {
    if !StarMatched(text) {
      var m := Matched(Columns, text);
      if m == [] {
        assert forall x <- DefaultColumns :: 'a' <= x <= 'z' || x == ',' || x == ' ';
      } else {
        var d := Distinct(m);
        forall p | p in d
          ensures c !in p
        {
          MatchedMembers(Columns, text, p);
          var j :| 0 <= j < |Columns| && Columns[j].1 == p && HasWord(text, Columns[j].0);
          ColumnNameLetters(j);
        }
        JoinAvoids(", ", d, c);
      }
    }
  }

  lemma ColumnNameLetters(j: int)
    requires 0 <= j < |Columns| && Columns[j].1 != "*"
    ensures forall x <- Columns[j].1 :: 'a' <= x <= 'z'
  {
  }

  /** Lower-casing brings in no character that is not a lower-case letter. */
  lemma LowerAvoids(s: string, c: char)
    requires c !in s && !('a' <= c <= 'z')
    ensures c !in Lower(s)
  {
    forall i | 0 <= i < |s|
      ensures Lower(s)[i] != c
    {
    }
  }

  /**
   * The query starts `SELECT <select clause> FROM books`; a counting question
   * selects `COUNT(*) as count` and any other the columns `parse_columns` found
   * (the check for a bare `*` changes nothing).
   */
  lemma SelectChoice(nl: string, ex: Extracted)
    ensures var text := Lower(nl);
            && Head(Query(nl, ex).1) <= Query(nl, ex).0
            && Query(nl, ex).1 == if IsCountQuestion(text) then CountSelect else ColumnsFor(text)
  {
    var text := Lower(nl);
    var cols := ColumnsFor(text);
    var select := AssembleParts(text, cols, ex);
    var unlimited := Head(select) + WherePart(Conditions(ex)) + OrderPart(text, ex);
    PrefixOfParts(Head(select), WherePart(Conditions(ex)), OrderPart(text, ex), DefaultLimit(unlimited, select));
    if Strip(cols) == "*" && cols != "*" {
      var i, j :| 0 <= i <= j <= |cols| && Strip(cols) == cols[i..j];
      assert cols[i] == '*';
      ColumnsAvoid(text, '*');
    }
  }

  lemma PrefixOfParts<T>(a: seq<T>, b: seq<T>, c: seq<T>, d: seq<T>)
    ensures a <= a + b + c + d
  {
  }

  /** `Assemble` spelled out: the select clause, and the query as head, conditions, ordering and default limit. */
  lemma AssembleParts(text: string, cols: string, ex: Extracted) returns (select: string)
    ensures select == Assemble(text, cols, ex).1 == SelectClause(text, cols)
    ensures var unlimited := Head(select) + WherePart(Conditions(ex)) + OrderPart(text, ex);
            Assemble(text, cols, ex).0 == unlimited + DefaultLimit(unlimited, select)
  {
    select := Assemble(text, cols, ex).1;
  }

  /** The column a condition filters: the word it starts with. */
  function ClauseColumn(clause: string): string {
    if "author " <= clause then "author"
    else if "genre " <= clause then "genre"
    else if "price " <= clause then "price"
    else if "year " <= clause then "year"
    else ""
  }

  function ClauseColumns(w: seq<string>): (r: seq<string>)
    ensures |r| == |w|
  {
    seq(|w|, i requires 0 <= i < |w| => ClauseColumn(w[i]))
  }

  lemma ClauseColumnsAppend(a: seq<string>, b: seq<string>)
    ensures ClauseColumns(a + b) == ClauseColumns(a) + ClauseColumns(b)
  {
  }

  lemma LikeClauseColumns(v: string)
    ensures ClauseColumn(LikeClause("author", v)) == "author"
    ensures ClauseColumn(LikeClause("genre", v)) == "genre"
  {
    var t := "LIKE " + QuoteSql("%" + v + "%");
    assert LikeClause("author", v) == "author " + t;
    assert LikeClause("genre", v) == "genre " + t;
    ColumnNames(t);
  }

  lemma FilterClauseColumns(f: Filter)
    ensures ClauseColumn(FilterClause("price", f)) == "price"
    ensures ClauseColumn(FilterClause("year", f)) == "year"
  {
    var t := match f
      case Compare(op, v) => op + " " + v
      case Between(lo, hi) => "BETWEEN " + lo + " AND " + hi;
    assert FilterClause("price", f) == "price " + t;
    assert FilterClause("year", f) == "year " + t;
    ColumnNames(t);
  }

  /** A condition's column is read off the word it starts with. */
  lemma ColumnNames(t: string)
    ensures ClauseColumn("author " + t) == "author"
    ensures ClauseColumn("genre " + t) == "genre"
    ensures ClauseColumn("price " + t) == "price"
    ensures ClauseColumn("year " + t) == "year"
  {
    assert ("author " + t)[..7] == "author ";
    var g, p, y := "genre " + t, "price " + t, "year " + t;
    assert g[0] == 'g' && g[..6] == "genre ";
    assert p[0] == 'p' && p[..6] == "price ";
    assert y[0] == 'y' && y[..5] == "year ";
  }

  /**
   * The conditions filter, in this order, the author when one was found, the
   * genre, the price and the year: each found filter gives one condition on
   * its own column, and nothing else does.
   */
  lemma ConditionsInOrder(ex: Extracted)
    ensures ClauseColumns(Conditions(ex)) ==
      (if Truthy(ex.author) then ["author"] else [])
      + (if Truthy(ex.genre) then ["genre"] else [])
      + (if ex.price.Some? then ["price"] else [])
      + (if ex.year.Some? then ["year"] else [])
  {
    var a := if Truthy(ex.author) then [LikeClause("author", ex.author.value)] else [];
    var g := if Truthy(ex.genre) then [LikeClause("genre", ex.genre.value)] else [];
    var p := if ex.price.Some? then [FilterClause("price", ex.price.value)] else [];
    var y := if ex.year.Some? then [FilterClause("year", ex.year.value)] else [];
    if Truthy(ex.author) {
      LikeClauseColumns(ex.author.value);
      SingleColumn(a[0], "author");
    }
    if Truthy(ex.genre) {
      LikeClauseColumns(ex.genre.value);
      SingleColumn(g[0], "genre");
    }
    if ex.price.Some? {
      FilterClauseColumns(ex.price.value);
      SingleColumn(p[0], "price");
    }
    if ex.year.Some? {
      FilterClauseColumns(ex.year.value);
      SingleColumn(y[0], "year");
    }
    assert a + g + p + y == Conditions(ex);
    PartsColumns(a, g, p, y);
  }

  lemma SingleColumn(x: string, c: string)
    requires ClauseColumn(x) == c
    ensures ClauseColumns([x]) == [c]
  {
  }

  lemma PartsColumns(a: seq<string>, g: seq<string>, p: seq<string>, y: seq<string>)
    ensures ClauseColumns(a + g + p + y) == ClauseColumns(a) + ClauseColumns(g) + ClauseColumns(p) + ClauseColumns(y)
  {
    ClauseColumnsAppend(a + g + p, y);
    ClauseColumnsAppend(a + g, p);
    ClauseColumnsAppend(a, g);
  }

  /** The ordering part is made of the ORDER BY keywords, `LIMIT` and digits. */
  lemma OrderAvoids(text: string, ex: Extracted, c: char)
    requires c !in " ORDER BY price DESC" && c !in " ORDER BY price ASC" && c !in " LIMIT " && !IsDigit(c)
    ensures c !in OrderPart(text, ex)
  {
    if Nonzero(ex.topN) {
      assert c !in NatToString(ex.topN.value);
    }
    if ex.shown.Some? {
      assert c !in NatToString(ex.shown.value);
    }
  }

  /** The query has a WHERE clause exactly when some filter was found. */
  lemma WhereIffFilters(nl: string, ex: Extracted)
    ensures Contains(Query(nl, ex).0, " WHERE ") <==>
              Truthy(ex.author) || Truthy(ex.genre) || ex.price.Some? || ex.year.Some?
  {
    ConditionsFound(ex);
    if Conditions(ex) != [] {
      WhereWhenFiltered(Lower(nl), ColumnsFor(Lower(nl)), ex);
    } else {
      ColumnsAvoid(Lower(nl), 'W');
      NoWhereUnfiltered(Lower(nl), ColumnsFor(Lower(nl)), ex);
    }
  }

  lemma WhereWhenFiltered(text: string, cols: string, ex: Extracted)
    requires Conditions(ex) != []
    ensures Contains(Assemble(text, cols, ex).0, " WHERE ")
  {
    var select := AssembleParts(text, cols, ex);
    var order := OrderPart(text, ex);
    var unlimited := Head(select) + WherePart(Conditions(ex)) + order;
    var joined := Join(" AND ", Conditions(ex));
    var tail := DefaultLimit(unlimited, select);
    WhereShown(Head(select), joined + order + tail);
    Regrouped(Head(select), " WHERE ", joined, order, tail);
  }

  lemma NoWhereUnfiltered(text: string, cols: string, ex: Extracted)
    requires Conditions(ex) == []
    requires cols == "*" || 'W' !in cols
    ensures !Contains(Assemble(text, cols, ex).0, " WHERE ")
  {
    var select := AssembleParts(text, cols, ex);
    var order := OrderPart(text, ex);
    SelectAvoids(text, cols, 'W');
    OrderAvoids(text, ex, 'W');
    WhereHidden(select, order, DefaultLimit(Head(select) + WherePart([]) + order, select));
  }

  lemma SelectAvoids(text: string, cols: string, c: char)
    requires cols == "*" || c !in cols
    requires c != '*' && c !in CountSelect
    ensures c !in SelectClause(text, cols)
  {
  }

  lemma ConditionsFound(ex: Extracted)
    ensures Conditions(ex) != [] <==> Truthy(ex.author) || Truthy(ex.genre) || ex.price.Some? || ex.year.Some?
  {
  }

  lemma Regrouped<T>(a: seq<T>, b: seq<T>, c: seq<T>, d: seq<T>, e: seq<T>)
    ensures a + (b + c) + d + e == a + b + (c + d + e)
  {
  }

  lemma WhereShown(a: string, b: string)
    ensures Contains(a + " WHERE " + b, " WHERE ")
  {
    ContainsSelf(" WHERE ");
    ContainsWithin(a, " WHERE ", b, " WHERE ");
  }

  lemma WhereHidden(select: string, order: string, tail: string)
    requires 'W' !in select && 'W' !in order
    requires tail == "" || tail == " LIMIT 50"
    ensures !Contains(Head(select) + WherePart([]) + order + tail, " WHERE ")
  {
    var sql := Head(select) + WherePart([]) + order + tail;
    assert 'W' !in tail;
    assert sql == "SELECT " + select + " FROM books" + order + tail;
    NotContainsMissingChar(sql, " WHERE ", 'W');
  }

  /**
   * Any mention of `expensive` or `highest price` sorts by price, highest
   * first; otherwise `cheapest` or `lowest price` sorts lowest first. The top
   * count, when given, limits either.
   */
  lemma OrderDirection(text: string, ex: Extracted)
    ensures Contains(text, "expensive") || Contains(text, "highest price") ==>
              OrderPart(text, ex) == " ORDER BY price DESC" + TopLimit(ex.topN)
    ensures !Contains(text, "expensive") && !Contains(text, "highest price") &&
            (Contains(text, "cheapest") || Contains(text, "lowest price")) ==>
              OrderPart(text, ex) == " ORDER BY price ASC" + TopLimit(ex.topN)
  {
    assert DescendingPhrases[1] == "expensive" && DescendingPhrases[2] == "highest price";
    assert AscendingPhrases[0] == "cheapest" && AscendingPhrases[2] == "lowest price";
    if Contains(text, "most expensive") {
      ContainsAt("most expensive", "expensive", 5);
      ContainsTransitive(text, "most expensive", "expensive");
    }
  }

  /** A top count of zero, or none, adds no limit; any other is written out and reads back as itself. */
  lemma TopLimitCarriesCount(topN: Option<nat>)
    ensures TopLimit(topN) == "" <==> !Nonzero(topN)
    ensures Nonzero(topN) ==> TopLimit(topN)[..7] == " LIMIT " && ParseNat(TopLimit(topN)[7..]) == topN.value
  {
    if Nonzero(topN) {
      LimitCarriesNumber(topN.value);
    }
  }

  /** A LIMIT clause reads back as the number it was written from. */
  lemma LimitCarriesNumber(n: nat)
    ensures LimitClause(n)[..7] == " LIMIT " && ParseNat(LimitClause(n)[7..]) == n
  {
    assert LimitClause(n)[7..] == NatToString(n);
    ParseNatToString(n);
  }

  /** A query holding ` LIMIT ` mentions `limit` once lower-cased. */
  lemma LimitKeyword(s: string)
    requires Contains(s, " LIMIT ")
    ensures Contains(Lower(s), "limit")
  {
    ContainsLower(s, " LIMIT ");
    assert Lower(" LIMIT ") == " limit ";
    ContainsAt(" limit ", "limit", 1);
    ContainsTransitive(Lower(s), " limit ", "limit");
  }

  /** Every query for a question that does not count mentions `limit`. */
  lemma NonCountQueryHasLimit(nl: string, ex: Extracted)
    requires !IsCountQuestion(Lower(nl))
    ensures Contains(Lower(Query(nl, ex).0), "limit")
  {
    ColumnsAvoid(Lower(nl), '(');
    AssembledLimit(Lower(nl), ColumnsFor(Lower(nl)), ex);
  }

  lemma AssembledLimit(text: string, cols: string, ex: Extracted)
    requires !IsCountQuestion(text) && (cols == "*" || '(' !in cols)
    ensures Contains(Lower(Assemble(text, cols, ex).0), "limit")
  {
    var select := AssembleParts(text, cols, ex);
    SelectNotCounting(text, cols);
    LimitFollows(Head(select) + WherePart(Conditions(ex)) + OrderPart(text, ex), select);
  }

  /** A query whose select clause does not count ends up mentioning `limit`, default or not. */
  lemma LimitFollows(unlimited: string, select: string)
    requires !Contains(Lower(select), "count(")
    ensures Contains(Lower(unlimited + DefaultLimit(unlimited, select)), "limit")
  {
    var sql := unlimited + DefaultLimit(unlimited, select);
    if !Contains(Lower(unlimited), "limit") {
      assert sql == unlimited + " LIMIT 50";
      assert sql[|unlimited|..|unlimited| + 7] == " LIMIT ";
      ContainsAt(sql, " LIMIT ", |unlimited|);
      LimitKeyword(sql);
    } else {
      assert sql == unlimited;
    }
  }

  /** When the ordering already carries a limit, no default limit follows it. */
  lemma NoDefaultAfterOrderLimit(nl: string, ex: Extracted)
    requires Contains(OrderPart(Lower(nl), ex), " LIMIT ")
    ensures Query(nl, ex).0 == Head(Query(nl, ex).1) + WherePart(Conditions(ex)) + OrderPart(Lower(nl), ex)
  {
    var select := AssembleParts(Lower(nl), ColumnsFor(Lower(nl)), ex);
    var front := Head(select) + WherePart(Conditions(ex));
    var order := OrderPart(Lower(nl), ex);
    ContainsWithin(front, order, "", " LIMIT ");
    assert front + order + "" == front + order;
    LimitKeyword(front + order);
  }

  // ---------------------------------------------------------------------
  // Findings: the ordering phrases, and the default limit guard

  /**
   * As written, `least expensive` sorts by price highest first: the
   * descending alternatives are tried first and `expensive` matches inside
   * it, so the ascending `least expensive` alternative can never apply.
   */
  lemma LeastExpensiveSortsDescending(text: string, ex: Extracted)
    requires Contains(text, "least expensive")
    ensures OrderPart(text, ex) == " ORDER BY price DESC" + TopLimit(ex.topN)
  {
    ContainsAt("least expensive", "expensive", 6);
    ContainsTransitive(text, "least expensive", "expensive");
    assert DescendingPhrases[1] == "expensive";
  }

  /**
   * The ordering as evidently intended: the ascending phrases are tried
   * first, so that `least expensive` is not taken for `expensive`. The flag
   * says whether the ordering ended in a LIMIT clause.
   */
  function IntendedOrdering(text: string, ex: Extracted): (string, bool) {
    if MentionsAny(text, AscendingPhrases) then (" ORDER BY price ASC" + TopLimit(ex.topN), Nonzero(ex.topN))
    else if MentionsAny(text, DescendingPhrases) then (" ORDER BY price DESC" + TopLimit(ex.topN), Nonzero(ex.topN))
    else if ex.shown.Some? then (LimitClause(ex.shown.value), true)
    else ("", false)
  }

  /** With the intended ordering, `least expensive` sorts lowest first. */
  lemma LeastExpensiveSortsAscending(text: string, ex: Extracted)
    requires Contains(text, "least expensive")
    ensures IntendedOrdering(text, ex).0 == " ORDER BY price ASC" + TopLimit(ex.topN)
  {
    assert AscendingPhrases[1] == "least expensive";
  }

  /** The intended ordering differs from the written one only for questions with both kinds of phrase. */
  lemma IntendedOrderingAgrees(text: string, ex: Extracted)
    requires !MentionsAny(text, AscendingPhrases) || !MentionsAny(text, DescendingPhrases)
    ensures IntendedOrdering(text, ex).0 == OrderPart(text, ex)
  {
  }

  predicate EndsWith(s: string, t: string) {
    |t| <= |s| && s[|s| - |t|..] == t
  }

  lemma EndsWithAppend(s: string, t: string)
    ensures EndsWith(s + t, t)
  {
    assert (s + t)[|s|..] == t;
  }

  /** A LIMIT clause ends in a digit. */
  lemma LimitClauseEndsInDigit(n: nat)
    ensures |LimitClause(n)| > 7 && IsDigit(LimitClause(n)[|LimitClause(n)| - 1])
  {
    var d := NatToString(n);
    assert LimitClause(n)[|LimitClause(n)| - 1] == d[|d| - 1];
  }

  /** The flag of the intended ordering is set exactly when the ordering ends in a LIMIT clause. */
  lemma IntendedLimitFlag(text: string, ex: Extracted)
    ensures IntendedOrdering(text, ex).1 <==> exists n :: EndsWith(IntendedOrdering(text, ex).0, LimitClause(n))
  {
    var (order, limited) := IntendedOrdering(text, ex);
    if limited {
      var pre, n := OrderingLimit(text, ex);
      EndsWithAppend(pre, LimitClause(n));
    } else {
      forall n: nat
        ensures !EndsWith(order, LimitClause(n))
      {
        LimitClauseEndsInDigit(n);
        if order != "" {
          assert order[|order| - 1] == 'C';
        }
      }
    }
  }

  /** A limited intended ordering is some keywords followed by a LIMIT clause. */
  lemma OrderingLimit(text: string, ex: Extracted) returns (pre: string, n: nat)
    requires IntendedOrdering(text, ex).1
    ensures IntendedOrdering(text, ex).0 == pre + LimitClause(n)
  {
    if MentionsAny(text, AscendingPhrases) {
      pre, n := " ORDER BY price ASC", ex.topN.value;
    } else if MentionsAny(text, DescendingPhrases) {
      pre, n := " ORDER BY price DESC", ex.topN.value;
    } else {
      pre, n := "", ex.shown.value;
      assert IntendedOrdering(text, ex).0 == LimitClause(n);
    }
  }

  /**
   * As written, a `limit` anywhere in the query, even inside a value, counts
   * as a limit clause: for an author such as `Limitless`, and no ordering or
   * show count, the query has no LIMIT clause at all.
   */
  lemma LimitInAuthorUnbounded(nl: string, ex: Extracted)
    requires !MentionsAny(Lower(nl), DescendingPhrases) && !MentionsAny(Lower(nl), AscendingPhrases)
    requires ex.author.Some? && '\'' !in ex.author.value && Contains(Lower(ex.author.value), "limit")
    requires ex.genre.None? && ex.price.None? && ex.year.None? && ex.shown.None?
    ensures Query(nl, ex).0 == Head(Query(nl, ex).1) + " WHERE " + LikeClause("author", ex.author.value)
    ensures LikeClause("author", ex.author.value) == "author LIKE '%" + ex.author.value + "%'"
  {
    AssembledUnbounded(Lower(nl), ColumnsFor(Lower(nl)), ex);
  }

  lemma AssembledUnbounded(text: string, cols: string, ex: Extracted)
    requires !MentionsAny(text, DescendingPhrases) && !MentionsAny(text, AscendingPhrases)
    requires ex.author.Some? && '\'' !in ex.author.value && Contains(Lower(ex.author.value), "limit")
    requires ex.genre.None? && ex.price.None? && ex.year.None? && ex.shown.None?
    ensures Assemble(text, cols, ex).0 == Head(Assemble(text, cols, ex).1) + " WHERE " + LikeClause("author", ex.author.value)
    ensures LikeClause("author", ex.author.value) == "author LIKE '%" + ex.author.value + "%'"
  {
    var v := ex.author.value;
    AuthorOnlyConditions(ex);
    var select := AssembleParts(text, cols, ex);
    assert OrderPart(text, ex) == "";
    NothingAfterWhere(Head(select), select, LikeClause("author", v), v);
  }

  lemma AuthorOnlyConditions(ex: Extracted)
    requires ex.author.Some? && '\'' !in ex.author.value && ex.author.value != ""
    requires ex.genre.None? && ex.price.None? && ex.year.None?
    ensures Conditions(ex) == [LikeClause("author", ex.author.value)]
    ensures LikeClause("author", ex.author.value) == "author LIKE '%" + ex.author.value + "%'"
  {
    PlainLikeClause(ex.author.value);
  }

  lemma NothingAfterWhere(head: string, select: string, clause: string, v: string)
    requires clause == "author LIKE '%" + v + "%'" && Contains(Lower(v), "limit")
    ensures var unlimited := head + WherePart([clause]) + "";
            unlimited + DefaultLimit(unlimited, select) == head + " WHERE " + clause
  {
    var front := head + " WHERE ";
    assert head + WherePart([clause]) + "" == front + clause;
    ValueSaysLimit(front, v);
  }

  /** `Limitless` holds `limit` once lower-cased. */
  lemma LimitlessSaysLimit()
    ensures Contains(Lower("Limitless"), "limit") && '\'' !in "Limitless"
  {
    assert Lower("Limitless")[..5] == "limit";
    ContainsAt(Lower("Limitless"), "limit", 0);
  }

  /** Without quotes in the value, the LIKE condition is the value between `'%` and `%'`. */
  lemma PlainLikeClause(v: string)
    requires '\'' !in v
    ensures LikeClause("author", v) == "author LIKE '%" + v + "%'"
  {
    LikePatternQuoted(v);
    DoubleQuotesPlain(v);
  }

  lemma {:induction false} DoubleQuotesPlain(s: string)
    requires '\'' !in s
    ensures DoubleQuotes(s) == s
  {
    if s != [] {
      assert s[0] in s;
      assert forall c <- s[1..] :: c in s;
      DoubleQuotesPlain(s[1..]);
      assert s == [s[0]] + s[1..];
    }
  }

  /** A value holding `limit`, once lower-cased, keeps the default limit away from the query it ends. */
  lemma ValueSaysLimit(front: string, v: string)
    requires Contains(Lower(v), "limit")
    ensures forall select :: DefaultLimit(front + ("author LIKE '%" + v + "%'"), select) == ""
  {
    var a := front + "author LIKE '%";
    assert front + ("author LIKE '%" + v + "%'") == a + v + "%'";
    LowerAppend(a + v, "%'");
    LowerAppend(a, v);
    ContainsWithin(Lower(a), Lower(v), Lower("%'"), "limit");
  }

  /**
   * The query as evidently intended: the ordering of `IntendedOrdering`, and
   * the default limit added when that ordering added no LIMIT clause, rather
   * than when the text `limit` occurs nowhere in the query.
   */
  function IntendedQuery(nl: string, ex: Extracted): string {
    IntendedAssemble(Lower(nl), ColumnsFor(Lower(nl)), ex)
  }

  function IntendedAssemble(text: string, cols: string, ex: Extracted): string {
    var select := SelectClause(text, cols);
    var (order, limited) := IntendedOrdering(text, ex);
    WithDefaultLimit(Head(select) + WherePart(Conditions(ex)) + order, limited, select)
  }

  /** The default limit, added when no LIMIT clause was added and the select clause does not count. */
  function WithDefaultLimit(sql: string, limited: bool, select: string): string {
    if !limited && !Contains(Lower(select), "count(") then sql + " LIMIT 50" else sql
  }

  /** Every intended query for a question that does not count ends in a LIMIT clause, whatever the values hold. */
  lemma IntendedQueryLimited(nl: string, ex: Extracted)
    requires !IsCountQuestion(Lower(nl))
    ensures exists n :: EndsWith(IntendedQuery(nl, ex), LimitClause(n))
  {
    ColumnsAvoid(Lower(nl), '(');
    IntendedAssembledLimited(Lower(nl), ColumnsFor(Lower(nl)), ex);
  }

  lemma IntendedAssembledLimited(text: string, cols: string, ex: Extracted)
    requires !IsCountQuestion(text) && (cols == "*" || '(' !in cols)
    ensures exists n :: EndsWith(IntendedAssemble(text, cols, ex), LimitClause(n))
  {
    var select := SelectClause(text, cols);
    SelectNotCounting(text, cols);
    var (order, limited) := IntendedOrdering(text, ex);
    var front := Head(select) + WherePart(Conditions(ex));
    if limited {
      var pre, n := OrderingLimit(text, ex);
      assert front + order == (front + pre) + LimitClause(n);
      EndsWithAppend(front + pre, LimitClause(n));
    }
    DefaultLimitEnds(front + order, limited, select);
  }

  lemma SelectNotCounting(text: string, cols: string)
    requires !IsCountQuestion(text) && (cols == "*" || '(' !in cols)
    ensures !Contains(Lower(SelectClause(text, cols)), "count(")
  {
    var select := SelectClause(text, cols);
    assert '(' !in select;
    LowerAvoids(select, '(');
    NotContainsMissingChar(Lower(select), "count(", '(');
  }

  /** Adding the default limit to a query that lacks a LIMIT clause makes it end in one. */
  lemma DefaultLimitEnds(sql: string, limited: bool, select: string)
    requires !Contains(Lower(select), "count(")
    requires limited ==> exists n :: EndsWith(sql, LimitClause(n))
    ensures exists n :: EndsWith(WithDefaultLimit(sql, limited, select), LimitClause(n))
  {
    if !limited {
      assert LimitClause(50) == " LIMIT 50";
      EndsWithAppend(sql, LimitClause(50));
    }
  }
}
