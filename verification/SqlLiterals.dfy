/**
 SQL text built from inventory values, pkg/duckdb_parser/builder.go (the IN list of VM IDs) and
 pkg/duckdb_parser/concern.go (the VALUES tuples of concerns), read back by a lexer for the
 character literals, delimited names and comments of ISO/IEC 9075-2 (section 5.3).
 */
module SqlLiterals {
  import opened Common

  // ----- printing

  /** Every q in s written twice. */
  function Doubled(s: string, q: char): string {
    if s == "" then "" else (if s[0] == q then [q, q] else [s[0]]) + Doubled(s[1..], q)
  }

  function EscapeSQLString(s: string): string {
    Doubled(s, '\'')
  }

  function Quoted(s: string): string {
    "'" + EscapeSQLString(s) + "'"
  }

  function QuotedAll(list: seq<string>): seq<string> {
    seq(|list|, i requires 0 <= i < |list| => Quoted(list[i]))
  }

  function Join(parts: seq<string>): string {
    if parts == [] then "" else if |parts| == 1 then parts[0] else parts[0] + ", " + Join(parts[1..])
  }

  function Tuple(fields: seq<string>): string {
    "(" + Join(QuotedAll(fields)) + ")"
  }

  function Tuples(rows: seq<seq<string>>): seq<string> {
    seq(|rows|, i requires 0 <= i < |rows| => Tuple(rows[i]))
  }

  function ValuesText(rows: seq<seq<string>>): string {
    Join(Tuples(rows))
  }

  function ColumnPrefix(tableAlias: string): string {
    if tableAlias == "" then "" else tableAlias + "."
  }

  function VMListFilter(vmList: seq<string>, tableAlias: string): string {
    if vmList == [] then ""
    else " AND " + ColumnPrefix(tableAlias) + "\"VM ID\"" + " IN " + Tuple(vmList)
  }

  method BuildVMListFilter(vmList: seq<string>, tableAlias: string) returns (text: string)
    ensures text == VMListFilter(vmList, tableAlias)
  {
    if |vmList| == 0 {
      return "";
    }
    var quoted := new string[|vmList|];
    var i := 0;
    while i < |vmList|
      invariant 0 <= i <= |vmList|
      invariant forall j :: 0 <= j < i ==> quoted[j] == Quoted(vmList[j])
    {
      var escaped := EscapeSQLString(vmList[i]);
      quoted[i] := "'" + escaped + "'";
      i := i + 1;
    }
    assert quoted[..] == QuotedAll(vmList);
    var columnRef := "\"VM ID\"";
    if tableAlias != "" {
      columnRef := tableAlias + ".\"VM ID\"";
    }
    text := " AND " + columnRef + " IN (" + Join(quoted[..]) + ")";
    SameFilter(tableAlias, columnRef, Join(quoted[..]));
  }

  lemma SameFilter(tableAlias: string, columnRef: string, list: string)
    requires columnRef == if tableAlias == "" then "\"VM ID\"" else tableAlias + ".\"VM ID\""
    ensures " AND " + columnRef + " IN (" + list + ")"
         == " AND " + ColumnPrefix(tableAlias) + "\"VM ID\"" + " IN " + ("(" + list + ")")
  {
    var column := "\"VM ID\"";
    assert columnRef == ColumnPrefix(tableAlias) + column by {
      assert tableAlias + ".\"VM ID\"" == tableAlias + "." + column;
    }
    hide ColumnPrefix;
    var head := " AND " + columnRef;
    Associate(" AND ", ColumnPrefix(tableAlias), column);
    assert " IN (" == " IN " + "(";
    Associate(head, " IN ", "(");
    Associate(head + " IN ", "(", list);
    Associate(head + " IN ", "(" + list, ")");
  }

  datatype Concern = Concern(id: string, concernLabel: string, category: string, assessment: string)

  function ConcernRow(vmID: string, c: Concern): seq<string> {
    [vmID, c.id, c.concernLabel, c.category, c.assessment]
  }

  function ConcernRows(vmID: string, concerns: seq<Concern>): seq<seq<string>> {
    seq(|concerns|, i requires 0 <= i < |concerns| => ConcernRow(vmID, concerns[i]))
  }

  const INSERT_COLUMNS := ["VM_ID", "Concern_ID", "Label", "Category", "Assessment"]

  function Named(s: string): string {
    "\"" + s + "\""
  }

  function Columns(names: seq<string>): string {
    if names == [] then "" else if |names| == 1 then Named(names[0]) else Named(names[0]) + (", " + Columns(names[1..]))
  }

  function InsertPrefix(): string {
    InsertInto() + (Columns(INSERT_COLUMNS) + Values())
  }

  function InsertInto(): (s: string)
    ensures IsPlain(s)
  {
    "INSERT INTO concerns ("
  }

  function Values(): (s: string)
    ensures IsPlain(s) && s != "" && s[0] == ')' && Last(s) == ' '
  {
    ") VALUES "
  }

  function InsertText(rows: seq<seq<string>>): string {
    InsertPrefix() + ValuesText(rows) + ";"
  }

  class ConcernValuesBuilder {
    var values: seq<string>
    ghost var rows: seq<seq<string>>

    ghost predicate Valid()
      reads this
    {
      values == Tuples(rows) && forall i :: 0 <= i < |rows| ==> |rows[i]| == |INSERT_COLUMNS|
    }

    constructor ()
      ensures Valid() && rows == []
    {
      values, rows := [], [];
    }

    method Append(vmID: string, concerns: seq<Concern>)
      requires Valid()
      modifies this
      ensures Valid() && rows == old(rows) + ConcernRows(vmID, concerns)
    {
      var i := 0;
      while i < |concerns|
        invariant 0 <= i <= |concerns|
        invariant Valid() && rows == old(rows) + ConcernRows(vmID, concerns[..i])
      {
        var c := concerns[i];
        var value := FormatTuple(vmID, c);
        ghost var before := rows;
        values, rows := values + [value], rows + [ConcernRow(vmID, c)];
        assert Tuples(rows) == Tuples(before) + [Tuple(ConcernRow(vmID, c))];
        assert ConcernRows(vmID, concerns[..i + 1]) == ConcernRows(vmID, concerns[..i]) + [ConcernRow(vmID, c)];
        i := i + 1;
      }
      assert concerns[..i] == concerns;
    }

    method Build() returns (text: string)
      requires Valid()
      ensures text == ValuesText(rows)
    {
      if |values| == 0 {
        return "";
      }
      text := Join(values);
    }

    method IsEmpty() returns (empty: bool)
      requires Valid()
      ensures empty <==> rows == []
    {
      empty := |values| == 0;
    }
  }

  /** The format ('%s', '%s', '%s', '%s', '%s'). */
  function FormatTuple(vmID: string, c: Concern): (value: string)
    ensures value == Tuple(ConcernRow(vmID, c))
  {
    var r := QuotedAll(ConcernRow(vmID, c));
    JoinFive(r);
    "("
    + (Quoted(vmID) + ", " + Quoted(c.id) + ", " + Quoted(c.concernLabel) + ", " + Quoted(c.category) + ", "
       + Quoted(c.assessment))
    + ")"
  }

  lemma JoinFive(r: seq<string>)
    requires |r| == 5
    ensures Join(r) == r[0] + ", " + r[1] + ", " + r[2] + ", " + r[3] + ", " + r[4]
  {
    assert r[3..][1..] == [r[4]];
    assert Join(r[3..]) == r[3] + ", " + r[4];
    assert r[2..][1..] == r[3..];
    assert Join(r[2..]) == r[2] + ", " + r[3] + ", " + r[4];
    assert r[1..][1..] == r[2..];
    assert Join(r[1..]) == r[1] + ", " + r[2] + ", " + r[3] + ", " + r[4];
  }

  /** The statement that is executed; none when there is nothing to insert. */
  method InsertConcerns(builder: ConcernValuesBuilder) returns (statement: Option<string>)
    requires builder.Valid()
    ensures statement == if builder.rows == [] then None else Some(InsertText(builder.rows))
    ensures builder.rows != [] ==>
              var tokens := Lex(InsertText(builder.rows));
              && tokens.Some? && InsertTokens() <= tokens.value
              && ReadTuples(tokens.value[|InsertTokens()|..]) == Some((builder.rows, [Symbol(';')]))
  {
    var valuesStr := builder.Build();
    if valuesStr == "" {
      TextOfNothing(builder.rows);
      return None;
    }
    TextOfNothing(builder.rows);
    InsertedRows(builder.rows);
    statement := Some(InsertPrefix() + valuesStr + ";");
  }

  lemma TextOfNothing(rows: seq<seq<string>>)
    ensures ValuesText(rows) == "" <==> rows == []
  {
    if rows != [] {
      assert Tuples(rows)[0] == Tuple(rows[0]);
      assert |Tuples(rows)[0]| >= 2;
    }
  }

  // ----- reading

  datatype Token = Literal(text: string) | Name(text: string) | Comment(text: string) | Symbol(c: char)

  /** The body of a quoted item, whose opening quote has been read, and the text after its closing quote. */
  function Scan(s: string, q: char): (r: Option<(string, string)>)
    ensures r.Some? ==> |r.value.1| < |s|
  {
    if s == "" then None
    else if s[0] != q then
      match Scan(s[1..], q)
      case None => None
      case Some((body, rest)) => Some(([s[0]] + body, rest))
    else if |s| > 1 && s[1] == q then
      match Scan(s[2..], q)
      case None => None
      case Some((body, rest)) => Some(([q] + body, rest))
    else Some(("", s[1..]))
  }

  /** The text up to the end of the line. */
  function Line(s: string): (line: string)
    ensures |line| <= |s|
  {
    if s == "" || s[0] == '\n' then "" else [s[0]] + Line(s[1..])
  }

  function Before(ts: seq<Token>, more: Option<seq<Token>>): Option<seq<Token>> {
    match more
    case None => None
    case Some(us) => Some(ts + us)
  }

  /** The first token of a text and the text after it; None when a quoted item is left open. */
  function Step(s: string): (r: Option<(Token, string)>)
    requires s != ""
    ensures r.Some? ==> |r.value.1| < |s|
  {
    if s[0] == '\'' then
      match Scan(s[1..], '\'')
      case None => None
      case Some((body, rest)) => Some((Literal(body), rest))
    else if s[0] == '"' then
      match Scan(s[1..], '"')
      case None => None
      case Some((body, rest)) => Some((Name(body), rest))
    else if |s| > 1 && s[0] == '-' && s[1] == '-' then
      var line := Line(s[2..]);
      Some((Comment(line), s[2 + |line|..]))
    else Some((Symbol(s[0]), s[1..]))
  }

  /** The tokens of a text. */
  function Lex(s: string): Option<seq<Token>>
    decreases |s|
  {
    if s == "" then Some([])
    else
      match Step(s)
      case None => None
      case Some((token, rest)) => Before([token], Lex(rest))
  }

  function SkipBlanks(ts: seq<Token>): (r: seq<Token>)
    ensures |r| <= |ts|
  {
    if ts != [] && (ts[0] == Symbol(' ') || ts[0].Comment?) then SkipBlanks(ts[1..]) else ts
  }

  /** The literals of a list separated by commas and ended by a parenthesis, and what follows it. */
  function ReadList(ts: seq<Token>): (r: Option<(seq<string>, seq<Token>)>)
    ensures r.Some? ==> |r.value.1| < |ts|
    decreases |ts|
  {
    var us := SkipBlanks(ts);
    if us == [] || !us[0].Literal? then None
    else
      var vs := SkipBlanks(us[1..]);
      if vs == [] then None
      else if vs[0] == Symbol(')') then Some(([us[0].text], vs[1..]))
      else if vs[0] == Symbol(',') then
        match ReadList(vs[1..])
        case None => None
        case Some((more, rest)) => Some(([us[0].text] + more, rest))
      else None
  }

  function ReadTuple(ts: seq<Token>): (r: Option<(seq<string>, seq<Token>)>)
    ensures r.Some? ==> |r.value.1| < |ts|
  {
    var us := SkipBlanks(ts);
    if us == [] || us[0] != Symbol('(') then None else ReadList(us[1..])
  }

  function ReadTuples(ts: seq<Token>): Option<(seq<seq<string>>, seq<Token>)>
    decreases |ts|
  {
    match ReadTuple(ts)
    case None => None
    case Some((row, rest)) =>
      var us := SkipBlanks(rest);
      if us == [] || us[0] != Symbol(',') then Some(([row], rest))
      else
        match ReadTuples(us[1..])
        case None => None
        case Some((more, end)) => Some(([row] + more, end))
  }

  // ----- one quoted item

  lemma {:induction false} ScanDoubled(body: string, q: char, rest: string)
    requires rest == "" || rest[0] != q
    ensures Scan(Doubled(body, q) + [q] + rest, q) == Some((body, rest))
  {
    var t := Doubled(body, q) + [q] + rest;
    if body == "" {
      assert t == [q] + rest && t[1..] == rest;
    } else {
      var unit := if body[0] == q then [q, q] else [body[0]];
      var more := Doubled(body[1..], q) + [q] + rest;
      ScanDoubled(body[1..], q, rest);
      assert t == unit + more;
      assert t[|unit|..] == more;
      assert body == [body[0]] + body[1..];
    }
  }

  lemma {:induction false} ScanFound(t: string, q: char)
    requires Scan(t, q).Some?
    ensures var (body, rest) := Scan(t, q).value;
            t == Doubled(body, q) + [q] + rest && (rest == "" || rest[0] != q)
  {
    var (body, rest) := Scan(t, q).value;
    if t[0] == q && (|t| == 1 || t[1] != q) {
      assert t == [q] + t[1..];
    } else {
      var n := if t[0] == q then 2 else 1;
      ScanFound(t[n..], q);
      var (b, _) := Scan(t[n..], q).value;
      assert body == [t[0]] + b && body[1..] == b;
      assert t == t[..n] + t[n..];
      assert t[..n] == if t[0] == q then [q, q] else [t[0]];
      assert Doubled(body, q) == t[..n] + Doubled(b, q);
    }
  }

  /** A text is one character literal with the value s exactly when it is s quoted. */
  lemma LiteralExactly(text: string, s: string)
    ensures Lex(text) == Some([Literal(s)]) <==> text == Quoted(s)
  {
    var q := '\'';
    if text == Quoted(s) {
      ScanDoubled(s, q, "");
      assert text[1..] == Doubled(s, q) + [q] + "";
      assert Step(text) == Some((Literal(s), ""));
      assert Lex(text) == Before([Literal(s)], Lex(""));
      assert [Literal(s)] + [] == [Literal(s)];
    }
    if Lex(text) == Some([Literal(s)]) {
      assert text != "";
      var (token, rest) := Step(text).value;
      assert Lex(text).value == [token] + Lex(rest).value;
      assert ([token] + Lex(rest).value)[0] == token;
      assert ([token] + Lex(rest).value)[1..] == Lex(rest).value;
      assert token == Literal(s) && Lex(rest).value == [];
      LexNothing(rest);
      assert Scan(text[1..], q) == Some((s, ""));
      ScanFound(text[1..], q);
      assert text == "'" + text[1..];
      assert text[1..] == EscapeSQLString(s) + "'";
      assert text == "'" + EscapeSQLString(s) + "'";
    }
  }

  lemma LexNothing(s: string)
    ensures Lex(s) == Some([]) <==> s == ""
  {
  }

  // ----- putting texts together

  /** The text t does not extend the last token of ts. */
  predicate Joins(ts: seq<Token>, t: string) {
    ts == [] || t == "" ||
    match Last(ts)
    case Literal(_) => t[0] != '\''
    case Name(_) => t[0] != '"'
    case Comment(_) => false
    case Symbol(c) => c != '-' || t[0] != '-'
  }

  lemma {:induction false} ScanThen(a: string, q: char, t: string)
    requires Scan(a, q).Some?
    requires Scan(a, q).value.1 != "" || t == "" || t[0] != q
    ensures Scan(a + t, q) == Some((Scan(a, q).value.0, Scan(a, q).value.1 + t))
  {
    var (body, rest) := Scan(a, q).value;
    ScanFound(a, q);
    ScanDoubled(body, q, rest + t);
    assert a + t == Doubled(body, q) + [q] + (rest + t);
  }

  lemma {:induction false} LineThen(s: string, t: string)
    requires |Line(s)| < |s|
    ensures Line(s + t) == Line(s)
  {
    if s[0] != '\n' {
      LineThen(s[1..], t);
      assert (s + t)[1..] == s[1..] + t;
    }
  }

  lemma {:induction false} StepThen(a: string, t: string)
    requires a != "" && Step(a).Some?
    requires Step(a).value.1 != "" || Joins([Step(a).value.0], t)
    ensures Step(a + t) == Some((Step(a).value.0, Step(a).value.1 + t))
  {
    assert (a + t)[1..] == a[1..] + t;
    if t == "" {
      assert a + t == a;
      assert Step(a).value.1 + t == Step(a).value.1;
    } else if a[0] == '\'' {
      ScanThen(a[1..], '\'', t);
    } else if a[0] == '"' {
      ScanThen(a[1..], '"', t);
    } else if |a| > 1 && a[0] == '-' && a[1] == '-' {
      assert (a + t)[2..] == a[2..] + t;
      LineThen(a[2..], t);
      assert (a + t)[2 + |Line(a[2..])|..] == a[2 + |Line(a[2..])|..] + t;
    }
  }

  /** Two texts that do not run into each other are lexed apart. */
  lemma {:induction false} LexThen(a: string, t: string)
    requires Lex(a).Some? && Joins(Lex(a).value, t)
    ensures Lex(a + t) == Before(Lex(a).value, Lex(t))
    decreases |a|
  {
    if a == "" {
      assert a + t == t;
      assert Lex(t).Some? ==> [] + Lex(t).value == Lex(t).value;
    } else {
      var (token, rest) := Step(a).value;
      var more := Lex(rest).value;
      assert Lex(a).value == [token] + more;
      LexNothing(rest);
      assert more != [] ==> Last([token] + more) == Last(more);
      LexThen(rest, t);
      StepThen(a, t);
      if Lex(t).Some? {
        assert [token] + (more + Lex(t).value) == [token] + more + Lex(t).value;
      }
    }
  }

  /** A text without quotes and hyphens is lexed character by character. */
  predicate IsPlain(s: string) {
    '\'' !in s && '"' !in s && '-' !in s
  }

  function Plain(s: string): seq<Token> {
    seq(|s|, i requires 0 <= i < |s| => Symbol(s[i]))
  }

  lemma {:induction false} LexPlain(s: string)
    requires IsPlain(s)
    ensures Lex(s) == Some(Plain(s))
  {
    if s != "" {
      LexPlain(s[1..]);
      assert s[0] in s;
      assert Step(s) == Some((Symbol(s[0]), s[1..]));
      assert Plain(s) == [Symbol(s[0])] + Plain(s[1..]);
    } else {
      assert Plain(s) == [];
    }
  }

  /** A plain text in front of any other, which it neither opens nor closes. */
  lemma LexPlainThen(s: string, t: string)
    requires IsPlain(s)
    ensures Lex(s + t) == Before(Plain(s), Lex(t))
  {
    LexPlain(s);
    LexThen(s, t);
  }

  /** A quoted value in front of a text that does not begin with a quote. */
  lemma LexQuotedThen(s: string, t: string)
    requires t == "" || t[0] != '\''
    ensures Lex(Quoted(s) + t) == Before([Literal(s)], Lex(t))
  {
    LiteralExactly(Quoted(s), s);
    LexThen(Quoted(s), t);
  }

  /** A delimited name in front of a text that does not begin with a double quote. */
  lemma LexNamedThen(s: string, t: string)
    requires '"' !in s && (t == "" || t[0] != '"')
    ensures Lex(Named(s) + t) == Before([Name(s)], Lex(t))
  {
    var text := Named(s) + t;
    StepNamed(s, t);
    assert text != "";
    hide Step, Named;
    assert Lex(text) == Before([Name(s)], Lex(t));
  }

  lemma StepNamed(s: string, t: string)
    requires '"' !in s && (t == "" || t[0] != '"')
    ensures Step(Named(s) + t) == Some((Name(s), t))
  {
    var text := Named(s) + t;
    NothingDoubled(s, '"');
    ScanDoubled(s, '"', t);
    assert text == "\"" + (s + ['"'] + t);
    assert text[1..] == s + ['"'] + t;
    hide Scan, Doubled;
  }

  lemma {:induction false} NothingDoubled(s: string, q: char)
    requires q !in s
    ensures Doubled(s, q) == s
  {
    if s != "" {
      NothingDoubled(s[1..], q);
      assert s == [s[0]] + s[1..];
    }
  }

  /** A value escaped into a quoted place of any query text is read there as that literal. */
  lemma EscapedInQuery(before: string, s: string, after: string)
    requires Lex(before).Some? && Joins(Lex(before).value, "'")
    requires after == "" || after[0] != '\''
    ensures Lex(before + Quoted(s) + after) == Before(Lex(before).value + [Literal(s)], Lex(after))
  {
    LexQuotedThen(s, after);
    assert Quoted(s)[0] == '\'';
    hide Lex, Quoted;
    Associate(before, Quoted(s), after);
    LexThen(before, Quoted(s) + after);
    BeforeBefore(Lex(before).value, [Literal(s)], Lex(after));
  }

  // ----- tuples

  /** The tokens of a list of quoted values. */
  function ListTokens(list: seq<string>): seq<Token> {
    if list == [] then []
    else if |list| == 1 then [Literal(list[0])]
    else [Literal(list[0]), Symbol(','), Symbol(' ')] + ListTokens(list[1..])
  }

  function TupleTokens(list: seq<string>): seq<Token> {
    [Symbol('(')] + ListTokens(list) + [Symbol(')')]
  }

  function TuplesTokens(rows: seq<seq<string>>): seq<Token> {
    if rows == [] then []
    else if |rows| == 1 then TupleTokens(rows[0])
    else TupleTokens(rows[0]) + [Symbol(','), Symbol(' ')] + TuplesTokens(rows[1..])
  }

  lemma BeforeBefore(ts: seq<Token>, us: seq<Token>, more: Option<seq<Token>>)
    ensures Before(ts, Before(us, more)) == Before(ts + us, more)
  {
    if more.Some? {
      assert ts + (us + more.value) == ts + us + more.value;
    }
  }

  lemma {:induction false} LexList(list: seq<string>, t: string)
    requires list != [] && (t == "" || t[0] != '\'')
    ensures Lex(Join(QuotedAll(list)) + t) == Before(ListTokens(list), Lex(t))
  {
    hide Lex, Quoted;
    if |list| == 1 {
      assert QuotedAll(list)[0] == Quoted(list[0]);
      LexQuotedThen(list[0], t);
    } else {
      var more := Join(QuotedAll(list[1..])) + t;
      assert QuotedAll(list)[1..] == QuotedAll(list[1..]);
      var rest := Join(QuotedAll(list[1..]));
      assert Join(QuotedAll(list)) == Quoted(list[0]) + ", " + rest;
      assert Join(QuotedAll(list)) + t == Quoted(list[0]) + (", " + more) by {
        Associate(Quoted(list[0]), ", ", rest);
        Associate(Quoted(list[0]), ", " + rest, t);
        Associate(", ", rest, t);
      }
      LexList(list[1..], t);
      LexPlainThen(", ", more);
      assert Plain(", ") == [Symbol(','), Symbol(' ')];
      LexQuotedThen(list[0], ", " + more);
      BeforeBefore(Plain(", "), ListTokens(list[1..]), Lex(t));
      BeforeBefore([Literal(list[0])], Plain(", ") + ListTokens(list[1..]), Lex(t));
      assert ListTokens(list) == [Literal(list[0])] + (Plain(", ") + ListTokens(list[1..]));
    }
  }

  lemma LexTuple(list: seq<string>, t: string)
    requires list != []
    ensures Lex(Tuple(list) + t) == Before(TupleTokens(list), Lex(t))
  {
    var body := Join(QuotedAll(list));
    assert Tuple(list) + t == "(" + (body + (")" + t));
    LexPlainThen("(", body + (")" + t));
    LexPlainThen(")", t);
    LexList(list, ")" + t);
    assert Plain("(") == [Symbol('(')] && Plain(")") == [Symbol(')')];
    BeforeBefore(ListTokens(list), Plain(")"), Lex(t));
    BeforeBefore(Plain("("), ListTokens(list) + Plain(")"), Lex(t));
    assert TupleTokens(list) == Plain("(") + (ListTokens(list) + Plain(")"));
  }

  lemma {:induction false} LexTuples(rows: seq<seq<string>>, t: string)
    requires rows != [] && forall i :: 0 <= i < |rows| ==> rows[i] != []
    ensures Lex(ValuesText(rows) + t) == Before(TuplesTokens(rows), Lex(t))
  {
    hide Lex, Tuple, TupleTokens;
    if |rows| == 1 {
      assert Tuples(rows)[0] == Tuple(rows[0]);
      LexTuple(rows[0], t);
    } else {
      var more := ValuesText(rows[1..]) + t;
      assert Tuples(rows)[1..] == Tuples(rows[1..]);
      var rest := ValuesText(rows[1..]);
      assert ValuesText(rows) == Tuple(rows[0]) + ", " + rest;
      assert ValuesText(rows) + t == Tuple(rows[0]) + (", " + more) by {
        Associate(Tuple(rows[0]), ", ", rest);
        Associate(Tuple(rows[0]), ", " + rest, t);
        Associate(", ", rest, t);
      }
      LexTuples(rows[1..], t);
      LexPlainThen(", ", more);
      assert Plain(", ") == [Symbol(','), Symbol(' ')];
      LexTuple(rows[0], ", " + more);
      BeforeBefore(Plain(", "), TuplesTokens(rows[1..]), Lex(t));
      BeforeBefore(TupleTokens(rows[0]), Plain(", ") + TuplesTokens(rows[1..]), Lex(t));
      assert TuplesTokens(rows) == TupleTokens(rows[0]) + (Plain(", ") + TuplesTokens(rows[1..]));
    }
  }

  lemma {:induction false} ReadListTokens(list: seq<string>, more: seq<Token>)
    requires list != []
    ensures ReadList(ListTokens(list) + [Symbol(')')] + more) == Some((list, more))
  {
    var ts := ListTokens(list) + [Symbol(')')] + more;
    if |list| == 1 {
      assert ts == [Literal(list[0])] + ([Symbol(')')] + more);
      assert ts[1..] == [Symbol(')')] + more;
      assert ts[1..][1..] == more;
      assert list == [list[0]];
    } else {
      var us := ListTokens(list[1..]) + [Symbol(')')] + more;
      assert ts == [Literal(list[0]), Symbol(',')] + ([Symbol(' ')] + us);
      ReadListTokens(list[1..], more);
      ReadListBlank(us);
      ReadListMore(list[0], [Symbol(' ')] + us);
      assert list == [list[0]] + list[1..];
    }
  }

  lemma ReadListMore(s: string, us: seq<Token>)
    requires ReadList(us).Some?
    ensures ReadList([Literal(s), Symbol(',')] + us) == Some(([s] + ReadList(us).value.0, ReadList(us).value.1))
  {
    var ts := [Literal(s), Symbol(',')] + us;
    assert ts[1..] == [Symbol(',')] + us;
    assert ts[1..][1..] == us;
  }

  lemma SkipBlank(us: seq<Token>)
    ensures SkipBlanks([Symbol(' ')] + us) == SkipBlanks(us)
  {
    assert ([Symbol(' ')] + us)[1..] == us;
  }

  lemma ReadListBlank(us: seq<Token>)
    ensures ReadList([Symbol(' ')] + us) == ReadList(us)
  {
    SkipBlank(us);
  }

  lemma ReadTupleTokens(list: seq<string>, more: seq<Token>)
    requires list != []
    ensures ReadTuple(TupleTokens(list) + more) == Some((list, more))
  {
    var ts := TupleTokens(list) + more;
    assert ts[0] == Symbol('(') && ts[1..] == ListTokens(list) + [Symbol(')')] + more;
    ReadListTokens(list, more);
  }

  lemma ReadTuplesBlank(us: seq<Token>)
    ensures ReadTuples([Symbol(' ')] + us) == ReadTuples(us)
  {
    SkipBlank(us);
  }

  lemma {:induction false} ReadTuplesTokens(rows: seq<seq<string>>, more: seq<Token>)
    requires rows != [] && forall i :: 0 <= i < |rows| ==> rows[i] != []
    requires SkipBlanks(more) == [] || SkipBlanks(more)[0] != Symbol(',')
    ensures ReadTuples(TuplesTokens(rows) + more) == Some((rows, more))
  {
    hide ReadTuples, ReadTuple, TupleTokens, SkipBlanks;
    assert rows == [rows[0]] + rows[1..];
    if |rows| == 1 {
      ReadTuplesOne(rows[0], more);
      assert rows == [rows[0]];
    } else {
      var us := TuplesTokens(rows[1..]) + more;
      ReadTuplesTokens(rows[1..], more);
      ReadTuplesMore(rows[0], rows[1..], us, more);
      assert TuplesTokens(rows) + more == TupleTokens(rows[0]) + ([Symbol(','), Symbol(' ')] + us);
    }
  }

  lemma ReadTuplesOne(row: seq<string>, more: seq<Token>)
    requires row != []
    requires SkipBlanks(more) == [] || SkipBlanks(more)[0] != Symbol(',')
    ensures ReadTuples(TupleTokens(row) + more) == Some(([row], more))
  {
    hide TupleTokens, ReadTuple;
    ReadTupleTokens(row, more);
  }

  lemma ReadTuplesMore(row: seq<string>, rows: seq<seq<string>>, us: seq<Token>, more: seq<Token>)
    requires row != [] && ReadTuples(us) == Some((rows, more))
    ensures ReadTuples(TupleTokens(row) + ([Symbol(','), Symbol(' ')] + us)) == Some(([row] + rows, more))
  {
    var tail := [Symbol(','), Symbol(' ')] + us;
    hide TupleTokens, ReadTuple;
    ReadTupleTokens(row, tail);
    assert tail[1..] == [Symbol(' ')] + us;
    ReadTuplesBlank(us);
  }

  // ----- what is read back

  /** The filter's text up to its list. */
  lemma LexFilterHead(tableAlias: string, rest: string)
    requires IsPlain(tableAlias)
    ensures Lex(" AND " + ColumnPrefix(tableAlias) + "\"VM ID\"" + " IN " + rest) == Before(FilterHead(tableAlias), Lex(rest))
  {
    var column := " AND " + ColumnPrefix(tableAlias);
    LexPlainThen(" IN ", rest);
    LexNamedThen("VM ID", " IN " + rest);
    LexPlainThen(column, Named("VM ID") + (" IN " + rest));
    assert column + "\"VM ID\"" + " IN " + rest == column + (Named("VM ID") + (" IN " + rest));
    BeforeBefore([Name("VM ID")], Plain(" IN "), Lex(rest));
    BeforeBefore(Plain(column), [Name("VM ID")] + Plain(" IN "), Lex(rest));
  }

  function FilterHead(tableAlias: string): seq<Token> {
    Plain(" AND " + ColumnPrefix(tableAlias)) + ([Name("VM ID")] + Plain(" IN "))
  }

  lemma LexFilter(vmList: seq<string>, tableAlias: string, after: string)
    requires vmList != [] && IsPlain(tableAlias)
    ensures Lex(VMListFilter(vmList, tableAlias) + after)
         == Before(FilterHead(tableAlias) + TupleTokens(vmList), Lex(after))
  {
    hide Lex, Tuple, TupleTokens, FilterHead, ColumnPrefix;
    LexTuple(vmList, after);
    LexFilterHead(tableAlias, Tuple(vmList) + after);
    assert VMListFilter(vmList, tableAlias) + after
        == " AND " + ColumnPrefix(tableAlias) + "\"VM ID\"" + " IN " + (Tuple(vmList) + after);
    BeforeBefore(FilterHead(tableAlias), TupleTokens(vmList), Lex(after));
  }

  /** In any query text, the filter's list is read back as exactly the VM IDs it was given. */
  lemma FilterInQuery(before: string, vmList: seq<string>, tableAlias: string, after: string)
    requires vmList != [] && IsPlain(tableAlias)
    requires Lex(before).Some? && Joins(Lex(before).value, " ") && Lex(after).Some?
    ensures var query := Lex(before + VMListFilter(vmList, tableAlias) + after);
            var head := Lex(before).value + FilterHead(tableAlias);
            && query.Some? && head <= query.value
            && ReadTuple(query.value[|head|..]) == Some((vmList, Lex(after).value))
  {
    var filter := VMListFilter(vmList, tableAlias);
    hide Lex, Tuple, TupleTokens, FilterHead, ColumnPrefix, ReadTuple;
    assert filter != "" && filter[0] == ' ';
    hide VMListFilter;
    var list := TupleTokens(vmList) + Lex(after).value;
    var head := Lex(before).value + FilterHead(tableAlias);
    LexFilter(vmList, tableAlias, after);
    assert FilterHead(tableAlias) + TupleTokens(vmList) + Lex(after).value == FilterHead(tableAlias) + list;
    assert before + filter + after == before + (filter + after);
    LexThen(before, filter + after);
    BeforeBefore(Lex(before).value, FilterHead(tableAlias), Some(list));
    assert (head + list)[|head|..] == list;
    ReadTupleTokens(vmList, Lex(after).value);
  }

  /** The concerns appended are exactly the rows read back from the VALUES clause, in order. */
  lemma ValuesInStatement(before: string, rows: seq<seq<string>>, after: string)
    requires rows != [] && forall i :: 0 <= i < |rows| ==> rows[i] != []
    requires Lex(before).Some? && Joins(Lex(before).value, "(") && Lex(after).Some?
    requires var end := SkipBlanks(Lex(after).value); end == [] || end[0] != Symbol(',')
    ensures var statement := Lex(before + ValuesText(rows) + after);
            && statement.Some? && Lex(before).value <= statement.value
            && ReadTuples(statement.value[|Lex(before).value|..]) == Some((rows, Lex(after).value))
  {
    var head, end := Lex(before).value, Lex(after).value;
    assert ValuesText(rows) != "" && ValuesText(rows)[0] == '(' by {
      assert Tuples(rows)[0] == Tuple(rows[0]);
    }
    hide Lex, ValuesText, TuplesTokens, ReadTuples;
    assert before + ValuesText(rows) + after == before + (ValuesText(rows) + after);
    LexTuples(rows, after);
    LexThen(before, ValuesText(rows) + after);
    assert (head + (TuplesTokens(rows) + end))[|head|..] == TuplesTokens(rows) + end;
    ReadTuplesTokens(rows, end);
  }

  function ColumnTokens(names: seq<string>): seq<Token> {
    if names == [] then []
    else if |names| == 1 then [Name(names[0])]
    else [Name(names[0])] + (Plain(", ") + ColumnTokens(names[1..]))
  }

  lemma {:induction false} LexColumns(names: seq<string>, t: string)
    requires forall i :: 0 <= i < |names| ==> '"' !in names[i]
    requires t == "" || t[0] != '"'
    ensures Lex(Columns(names) + t) == Before(ColumnTokens(names), Lex(t))
  {
    hide Lex, Named;
    if names == [] {
      assert Columns(names) + t == t;
      assert Lex(t).Some? ==> [] + Lex(t).value == Lex(t).value;
    } else if |names| == 1 {
      assert '"' !in names[0];
      LexNamedThen(names[0], t);
    } else {
      var more := Columns(names[1..]) + t;
      LexColumns(names[1..], t);
      LexPlainThen(", ", more);
      LexNamedThen(names[0], ", " + more);
      Associate(", ", Columns(names[1..]), t);
      Associate(Named(names[0]), ", " + Columns(names[1..]), t);
      BeforeBefore(Plain(", "), ColumnTokens(names[1..]), Lex(t));
      BeforeBefore([Name(names[0])], Plain(", ") + ColumnTokens(names[1..]), Lex(t));
    }
  }

  /** The INSERT up to its rows. */
  function InsertTokens(): seq<Token> {
    Plain(InsertInto()) + (ColumnTokens(INSERT_COLUMNS) + Plain(Values()))
  }

  lemma LexInsertPrefix()
    ensures Lex(InsertPrefix()) == Some(InsertTokens())
  {
    hide Lex, Columns, ColumnTokens, InsertInto, Values;
    LexPlain(Values());
    LexColumns(INSERT_COLUMNS, Values());
    LexPlainThen(InsertInto(), Columns(INSERT_COLUMNS) + Values());
  }

  /** The executed statement inserts exactly the rows appended to the builder. */
  lemma InsertedRows(rows: seq<seq<string>>)
    requires rows != [] && forall i :: 0 <= i < |rows| ==> rows[i] != []
    ensures var statement := Lex(InsertText(rows));
            && statement.Some? && InsertTokens() <= statement.value
            && ReadTuples(statement.value[|InsertTokens()|..]) == Some((rows, [Symbol(';')]))
  {
    LexInsertPrefix();
    LexPlain(";");
    assert Plain(";") == [Symbol(';')];
    assert Last(InsertTokens()) == Symbol(' ') by {
      hide Values;
      assert Last(Plain(Values())) == Symbol(' ');
    }
    hide InsertTokens, Lex, ValuesText, InsertPrefix, ReadTuples;
    ValuesInStatement(InsertPrefix(), rows, ";");
  }

  /** The value a row has under a named column. */
  ghost predicate HasCell(columns: seq<string>, row: seq<string>, column: string, value: string) {
    |row| == |columns| && exists i :: 0 <= i < |columns| && columns[i] == column && row[i] == value
  }

  /** Each field of a concern is inserted under its own column. */
  lemma ConcernInColumns(vmID: string, c: Concern)
    ensures var row := ConcernRow(vmID, c);
      && HasCell(INSERT_COLUMNS, row, "VM_ID", vmID)
      && HasCell(INSERT_COLUMNS, row, "Concern_ID", c.id)
      && HasCell(INSERT_COLUMNS, row, "Label", c.concernLabel)
      && HasCell(INSERT_COLUMNS, row, "Category", c.category)
      && HasCell(INSERT_COLUMNS, row, "Assessment", c.assessment)
  {
    var row := ConcernRow(vmID, c);
    assert INSERT_COLUMNS[0] == "VM_ID" && row[0] == vmID;
    assert INSERT_COLUMNS[1] == "Concern_ID" && row[1] == c.id;
    assert INSERT_COLUMNS[2] == "Label" && row[2] == c.concernLabel;
    assert INSERT_COLUMNS[3] == "Category" && row[3] == c.category;
    assert INSERT_COLUMNS[4] == "Assessment" && row[4] == c.assessment;
  }

  /** The filter as it stands in a query, with and without alias. */
  lemma FilterText(vmList: seq<string>)
    ensures VMListFilter([], "i") == "" && VMListFilter([], "") == ""
    ensures vmList != [] ==> VMListFilter(vmList, "i") == " AND i.\"VM ID\" IN " + Tuple(vmList)
    ensures vmList != [] ==> VMListFilter(vmList, "") == " AND \"VM ID\" IN " + Tuple(vmList)
  {
    hide Tuple;
    assert " AND " + ("i" + ".") + "\"VM ID\"" + " IN " == " AND i.\"VM ID\" IN ";
    assert " AND " + "" + "\"VM ID\"" + " IN " == " AND \"VM ID\" IN ";
  }
}
