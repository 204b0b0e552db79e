/**
  The INSERT blocks of the dashboard loader (tools/evaluation-dashboard.py) and a reader that lexes them back under the
  SQL rule for character string literals (section 5.3 of ISO/IEC 9075-2): only a doubled quote is special.
 */
module SqlText {
  import opened Outcomes
  import opened Sequences
  import JsonNul

  /** Json holds the canonical serialisation; Unwritable is a non-finite number or a value of a foreign type. */
  datatype Value =
    | Null
    | Bool(b: bool)
    | Int(n: int)
    | Float(text: string)
    | Str(s: string)
    | List(items: seq<string>)
    | Json(text: string)
    | Unwritable

  datatype Cell = Cell(stamped: bool, value: Value)

  type Row = seq<Cell>

  // ----- Writing -----

  function Double(s: string): string {
    if s == "" then "" else (if s[0] == '\'' then "''" else [s[0]]) + Double(s[1..])
  }

  function Quoted(s: string): string {
    "'" + (Double(s) + "'")
  }

  function Digit(d: nat): char
    requires d < 10
  {
    "0123456789"[d]
  }

  function Digits(n: nat): string {
    if n < 10 then [Digit(n)] else Digits(n / 10) + [Digit(n % 10)]
  }

  function IntText(n: int): string {
    if n < 0 then "-" + Digits(-n) else Digits(n)
  }

  predicate IsDigit(c: char) {
    '0' <= c <= '9'
  }

  predicate IsNumeric(c: char) {
    IsDigit(c) || c == '-' || c == '+' || c == '.' || c == 'e'
  }

  /** repr of a finite float: always with a point or an exponent. */
  predicate IsFloatText(t: string) {
    && t != "" && (IsDigit(t[0]) || t[0] == '-')
    && (forall c | c in t :: IsNumeric(c))
    && ('.' in t || 'e' in t)
  }

  function QuotedItems(items: seq<string>): string {
    if items == [] then "]"
    else Quoted(items[0]) + ((if |items| == 1 then "" else ",") + QuotedItems(items[1..]))
  }

  predicate Writable(v: Value) {
    match v
    case Float(text) => IsFloatText(text)
    case Str(s) => '\0' !in s
    case List(items) => forall i | 0 <= i < |items| :: '\0' !in items[i]
    case Json(text) => !JsonNul.Find(text, false)
    case Unwritable => false
    case _ => true
  }

  function LiteralText(v: Value): string {
    match v
    case Null => "NULL"
    case Bool(b) => if b then "TRUE" else "FALSE"
    case Int(n) => IntText(n)
    case Float(text) => text
    case Str(s) => Quoted(s)
    case List(items) => "ARRAY[" + (QuotedItems(items) + "::text[]")
    case Json(text) => Quoted(text) + "::jsonb"
    case Unwritable => ""
  }

  function CellFor(key: string, value: Value): Cell {
    Cell(key == "run_at" && value != Null, value)
  }

  function CellText(c: Cell): string {
    LiteralText(c.value) + if c.stamped then "::timestamptz" else ""
  }

  /** The cells of a tuple, its closing parenthesis included. */
  function CellsText(row: Row): string {
    if row == [] then ")"
    else CellText(row[0]) + ((if |row| == 1 then "" else ", ") + CellsText(row[1..]))
  }

  function Line(row: Row): string {
    "  (" + CellsText(row)
  }

  function LinesText(rows: seq<Row>): string {
    if rows == [] then ";"
    else Line(rows[0]) + ((if |rows| == 1 then "" else ",\n") + LinesText(rows[1..]))
  }

  datatype Table = Runs | Results

  function TableName(table: Table): string {
    match table case Runs => "runs" case Results => "results"
  }

  /** A key of the contract and the column of the database that holds it. */
  datatype Column = Column(key: string, name: string)

  datatype Schema = Schema(runColumns: seq<Column>, resultColumns: seq<Column>)

  function NamesOf(columns: seq<Column>): seq<string> {
    seq(|columns|, i requires 0 <= i < |columns| => columns[i].name)
  }

  /** The columns an INSERT lists: results carry the id of their run in front. */
  function InsertColumns(schema: Schema, table: Table): seq<string> {
    match table
    case Runs => NamesOf(schema.runColumns)
    case Results => ["run_id"] + NamesOf(schema.resultColumns)
  }

  /** The listed names, the closing parenthesis included. */
  function NamesText(names: seq<string>): string {
    if names == [] then ")"
    else names[0] + ((if |names| == 1 then "" else ", ") + NamesText(names[1..]))
  }

  datatype Statement = Statement(table: Table, columns: seq<string>, rows: seq<Row>)

  const INSERT := "INSERT INTO evaluation."

  function StatementText(s: Statement): string {
    INSERT + (TableName(s.table) + (" (" + (NamesText(s.columns) + (" VALUES\n" + LinesText(s.rows)))))
  }

  /** Statements separated by one blank line. */
  function ScriptText(script: seq<Statement>): string {
    if script == [] then ""
    else StatementText(script[0]) + ((if |script| == 1 then "" else "\n\n") + ScriptText(script[1..]))
  }

  // ----- The dataset -----

  type Record = map<string, Value>

  datatype Entry = Entry(run: Record, results: seq<Record>)

  predicate HasKeys(r: Record, columns: seq<Column>) {
    forall i | 0 <= i < |columns| :: columns[i].key in r
  }

  predicate Complete(schema: Schema, e: Entry) {
    && HasKeys(e.run, schema.runColumns) && "run_id" in e.run
    && forall i | 0 <= i < |e.results| :: HasKeys(e.results[i], schema.resultColumns)
  }

  function RowOf(r: Record, columns: seq<Column>): Row
    requires HasKeys(r, columns)
  {
    seq(|columns|, i requires 0 <= i < |columns| => CellFor(columns[i].key, r[columns[i].key]))
  }

  function RunRows(schema: Schema, entries: seq<Entry>): seq<Row>
    requires forall i | 0 <= i < |entries| :: Complete(schema, entries[i])
  {
    seq(|entries|, i requires 0 <= i < |entries| =>
      assert Complete(schema, entries[i]); RowOf(entries[i].run, schema.runColumns))
  }

  /** The result rows of one run, each preceded by its id. */
  function OwnRows(schema: Schema, e: Entry): seq<Row>
    requires Complete(schema, e)
  {
    seq(|e.results|, i requires 0 <= i < |e.results| =>
      [Cell(false, e.run["run_id"])] + RowOf(e.results[i], schema.resultColumns))
  }

  /** Every result row of every run, in order. */
  function ResultRows(schema: Schema, entries: seq<Entry>): seq<Row>
    requires forall i | 0 <= i < |entries| :: Complete(schema, entries[i])
  {
    if entries == [] then []
    else
      var e := entries[|entries| - 1];
      assert Complete(schema, e);
      ResultRows(schema, entries[..|entries| - 1]) + OwnRows(schema, e)
  }

  const INSERT_CHUNK := 500

  function Chunks(columns: seq<string>, rows: seq<Row>): seq<Statement> {
    if rows == [] then []
    else if |rows| <= INSERT_CHUNK then [Statement(Results, columns, rows)]
    else [Statement(Results, columns, rows[..INSERT_CHUNK])] + Chunks(columns, rows[INSERT_CHUNK..])
  }

  function Script(schema: Schema, entries: seq<Entry>): seq<Statement>
    requires forall i | 0 <= i < |entries| :: Complete(schema, entries[i])
  {
    (if entries == [] then [] else [Statement(Runs, InsertColumns(schema, Runs), RunRows(schema, entries))]) +
    Chunks(InsertColumns(schema, Results), ResultRows(schema, entries))
  }

  predicate RowWritable(row: Row) {
    row != [] && forall i | 0 <= i < |row| :: Writable(row[i].value)
  }

  predicate AllWritable(rows: seq<Row>) {
    forall i | 0 <= i < |rows| :: RowWritable(rows[i])
  }

  // ----- Reading -----

  /** The rest of a quoted literal whose opening quote has been read. */
  function ReadQuoted(t: string): Option<(string, string)> {
    if t == "" then None
    else if t[0] != '\'' then
      (match ReadQuoted(t[1..])
       case None => None
       case Some((s, rest)) => Some(([t[0]] + s, rest)))
    else if |t| > 1 && t[1] == '\'' then
      (match ReadQuoted(t[2..])
       case None => None
       case Some((s, rest)) => Some((['\''] + s, rest)))
    else Some(("", t[1..]))
  }

  function NumericRun(t: string): (n: nat)
    ensures n <= |t|
  {
    if t == "" || !IsNumeric(t[0]) then 0 else NumericRun(t[1..]) + 1
  }

  predicate AllDigits(t: string) {
    t != "" && forall c | c in t :: IsDigit(c)
  }

  function ParseDigits(t: string): int
    requires forall c | c in t :: IsDigit(c)
  {
    if t == "" then 0 else 10 * ParseDigits(t[..|t| - 1]) + (t[|t| - 1] as int - '0' as int)
  }

  function ReadNumber(t: string): Value {
    if AllDigits(t) then Int(ParseDigits(t))
    else if t != "" && t[0] == '-' && AllDigits(t[1..]) then Int(-ParseDigits(t[1..]))
    else Float(t)
  }

  /** The items up to the closing bracket, separated by single commas. */
  function ReadItems(t: string): (r: Option<(seq<string>, string)>)
    decreases |t|
  {
    if t == "" || t[0] != '\'' then None
    else
      match ReadQuoted(t[1..])
      case None => None
      case Some((s, rest)) =>
        if |rest| >= |t| || rest == "" then None
        else if rest[0] == ']' then Some(([s], rest[1..]))
        else if rest[0] != ',' then None
        else
          match ReadItems(rest[1..])
          case None => None
          case Some((more, after)) => Some(([s] + more, after))
  }

  function ReadList(t: string): Option<(seq<string>, string)> {
    if t != "" && t[0] == ']' then Some(([], t[1..])) else ReadItems(t)
  }

  function After(t: string, prefix: string): Option<string> {
    if prefix <= t then Some(t[|prefix|..]) else None
  }

  function ReadLiteral(t: string): Option<(Value, string)> {
    if t == "" then None
    else if IsNumeric(t[0]) then Some((ReadNumber(t[..NumericRun(t)]), t[NumericRun(t)..]))
    else if t[0] == '\'' then
      match ReadQuoted(t[1..])
      case None => None
      case Some((s, rest)) => if "::jsonb" <= rest then Some((Json(s), rest[7..])) else Some((Str(s), rest))
    else if "NULL" <= t then Some((Null, t[4..]))
    else if "TRUE" <= t then Some((Bool(true), t[4..]))
    else if "FALSE" <= t then Some((Bool(false), t[5..]))
    else if "ARRAY[" <= t then
      match ReadList(t[6..])
      case None => None
      case Some((items, rest)) => if "::text[]" <= rest then Some((List(items), rest[8..])) else None
    else None
  }

  function ReadCell(t: string): Option<(Cell, string)> {
    match ReadLiteral(t)
    case None => None
    case Some((v, rest)) =>
      if "::timestamptz" <= rest then Some((Cell(true, v), rest[13..])) else Some((Cell(false, v), rest))
  }

  /** The cells up to the closing parenthesis, separated by a comma and a blank. */
  function ReadCells(t: string): Option<(Row, string)>
    decreases |t|
  {
    match ReadCell(t)
    case None => None
    case Some((c, rest)) =>
      if rest != "" && rest[0] == ')' then Some(([c], rest[1..]))
      else if !(", " <= rest) || |rest| >= |t| then None
      else
        match ReadCells(rest[2..])
        case None => None
        case Some((row, after)) => Some(([c] + row, after))
  }

  /** The tuples up to the semicolon, one a line. */
  function ReadLines(t: string): Option<(seq<Row>, string)>
    decreases |t|
  {
    if !("  (" <= t) then None
    else
      match ReadCells(t[3..])
      case None => None
      case Some((row, rest)) =>
        if rest != "" && rest[0] == ';' then Some(([row], rest[1..]))
        else if !(",\n" <= rest) || |rest| >= |t| then None
        else
          match ReadLines(rest[2..])
          case None => None
          case Some((rows, after)) => Some(([row] + rows, after))
  }

  predicate IsNameChar(c: char) {
    'a' <= c <= 'z' || '0' <= c <= '9' || c == '_'
  }

  function NameRun(t: string): (n: nat)
    ensures n <= |t|
  {
    if t == "" || !IsNameChar(t[0]) then 0 else NameRun(t[1..]) + 1
  }

  /** The column names up to the closing parenthesis. */
  function ReadNames(t: string): Option<(seq<string>, string)>
    decreases |t|
  {
    var n := NameRun(t);
    var rest := t[n..];
    if n == 0 then None
    else if rest != "" && rest[0] == ')' then Some(([t[..n]], rest[1..]))
    else if !(", " <= rest) then None
    else
      match ReadNames(rest[2..])
      case None => None
      case Some((more, after)) => Some(([t[..n]] + more, after))
  }

  function ReadTable(t: string): Option<(Table, string)> {
    if INSERT + "runs (" <= t then Some((Runs, t[|INSERT| + 6..]))
    else if INSERT + "results (" <= t then Some((Results, t[|INSERT| + 9..]))
    else None
  }

  function ReadStatement(t: string): Option<(Statement, string)> {
    match ReadTable(t)
    case None => None
    case Some((table, listed)) =>
      match ReadNames(listed)
      case None => None
      case Some((columns, after)) =>
        match After(after, " VALUES\n")
        case None => None
        case Some(body) =>
          match ReadLines(body)
          case None => None
          case Some((rows, rest)) => Some((Statement(table, columns, rows), rest))
  }

  /** Statements up to the end of the text, separated by one blank line. */
  function ReadScript(t: string): Option<seq<Statement>>
    decreases |t|
  {
    if t == "" then Some([])
    else
      match ReadStatement(t)
      case None => None
      case Some((s, rest)) =>
        if rest == "" then Some([s])
        else if !("\n\n" <= rest) || |rest| >= |t| || rest == "\n\n" then None
        else
          match ReadScript(rest[2..])
          case None => None
          case Some(more) => Some([s] + more)
  }

  // ----- What the statements load -----

  /** A tuple as what it puts into each listed column. */
  function AsRecord(columns: seq<string>, row: Row): Record {
    if columns == [] || row == [] then map[]
    else AsRecord(columns[1..], row[1..])[columns[0] := row[0].value]
  }

  function RecordsOf(columns: seq<string>, rows: seq<Row>): seq<Record> {
    seq(|rows|, i requires 0 <= i < |rows| => AsRecord(columns, rows[i]))
  }

  /** What a table holds after these statements, in the order of insertion. */
  function Loaded(script: seq<Statement>, table: Table): seq<Record> {
    if script == [] then []
    else
      (if script[0].table == table then RecordsOf(script[0].columns, script[0].rows) else []) +
      Loaded(script[1..], table)
  }

  // ----- Reading inverts writing -----

  lemma Starts(prefix: string, rest: string)
    ensures prefix <= prefix + rest && (prefix + rest)[|prefix|..] == rest
  {
  }

  lemma {:induction false} DoubleBack(s: string, rest: string)
    requires rest == "" || rest[0] != '\''
    ensures ReadQuoted(Double(s) + ("'" + rest)) == Some((s, rest))
  {
    var t := Double(s) + ("'" + rest);
    if s == "" {
      assert t == "'" + rest && t[1..] == rest;
    } else {
      DoubleBack(s[1..], rest);
      var tail := Double(s[1..]) + ("'" + rest);
      if s[0] == '\'' {
        assert t == "''" + tail && t[2..] == tail;
      } else {
        assert t == [s[0]] + tail && t[1..] == tail;
      }
      assert [s[0]] + s[1..] == s;
    }
  }

  lemma QuotedBack(s: string, rest: string)
    requires rest == "" || rest[0] != '\''
    ensures var t := Quoted(s) + rest; t != "" && t[0] == '\'' && ReadQuoted(t[1..]) == Some((s, rest))
  {
    DoubleBack(s, rest);
    assert Quoted(s) + rest == "'" + (Double(s) + ("'" + rest));
    assert (Quoted(s) + rest)[1..] == Double(s) + ("'" + rest);
  }

  lemma {:induction false} ItemsBack(items: seq<string>, rest: string)
    requires items != []
    ensures ReadItems(QuotedItems(items) + rest) == Some((items, rest))
  {
    var t := QuotedItems(items) + rest;
    hide Quoted;
    var comma := if |items| == 1 then "" else ",";
    var tail := QuotedItems(items[1..]) + rest;
    Reassociate(comma, QuotedItems(items[1..]), rest);
    Reassociate(Quoted(items[0]), comma + QuotedItems(items[1..]), rest);
    assert t == Quoted(items[0]) + (comma + tail);
    if |items| == 1 {
      assert comma + tail == tail && tail == "]" + rest && tail[1..] == rest;
      QuotedBack(items[0], tail);
      assert [items[0]] == items;
    } else {
      ItemsBack(items[1..], rest);
      assert (comma + tail)[1..] == tail;
      QuotedBack(items[0], comma + tail);
      assert [items[0]] + items[1..] == items;
    }
  }

  lemma ListedBack(items: seq<string>, rest: string)
    ensures ReadList(QuotedItems(items) + rest) == Some((items, rest))
  {
    if items == [] {
      assert (QuotedItems(items) + rest)[1..] == rest;
    } else {
      ItemsBack(items, rest);
      assert (QuotedItems(items) + rest)[0] == '\'';
    }
  }

  lemma {:induction false} DigitsBack(n: nat)
    ensures AllDigits(Digits(n)) && ParseDigits(Digits(n)) == n
  {
    if n < 10 {
      assert Digits(n)[..0] == "" && ParseDigits("") == 0;
    } else {
      DigitsBack(n / 10);
      var t := Digits(n);
      assert t[..|t| - 1] == Digits(n / 10) && t[|t| - 1] == Digit(n % 10);
    }
  }

  lemma IntBack(n: int)
    ensures ReadNumber(IntText(n)) == Int(n)
    ensures IntText(n) != "" && forall c | c in IntText(n) :: IsNumeric(c)
  {
    hide Digits, ParseDigits;
    if n < 0 {
      DigitsBack(-n);
      var digits := Digits(-n);
      SignedText(digits);
    } else {
      DigitsBack(n);
    }
  }

  lemma SignedText(digits: string)
    requires AllDigits(digits)
    ensures ReadNumber("-" + digits) == Int(-ParseDigits(digits))
    ensures forall c | c in "-" + digits :: IsNumeric(c)
  {
    hide ParseDigits;
    var t := "-" + digits;
    assert t[1..] == digits;
    assert t[0] in t && !IsDigit(t[0]);
    forall c | c in t
      ensures IsNumeric(c)
    {
      assert c == '-' || c in digits;
    }
  }

  lemma FloatBack(t: string)
    requires IsFloatText(t)
    ensures ReadNumber(t) == Float(t)
  {
    assert !AllDigits(t) by {
      if '.' in t {
        assert !IsDigit('.');
      } else {
        assert 'e' in t && !IsDigit('e');
      }
    }
    if t[0] == '-' {
      assert '.' in t[1..] || 'e' in t[1..];
      assert !AllDigits(t[1..]);
    }
  }

  lemma {:induction false} RunBack(t: string, rest: string)
    requires forall c | c in t :: IsNumeric(c)
    requires rest == "" || !IsNumeric(rest[0])
    ensures NumericRun(t + rest) == |t|
  {
    if t == "" {
      assert t + rest == rest;
    } else {
      assert (t + rest)[1..] == t[1..] + rest;
      RunBack(t[1..], rest);
    }
  }

  /** What may follow a literal inside a tuple: a cast, a separator or the closing parenthesis. */
  predicate Follows(rest: string) {
    rest != "" && rest[0] in {',', ')', ':'} && !("::jsonb" <= rest)
  }

  lemma NumberBack(t: string, v: Value, rest: string)
    requires t != "" && (forall c | c in t :: IsNumeric(c)) && ReadNumber(t) == v && Follows(rest)
    ensures ReadLiteral(t + rest) == Some((v, rest))
  {
    RunBack(t, rest);
    Starts(t, rest);
    assert (t + rest)[..|t|] == t;
    assert t[0] in t && (t + rest)[0] == t[0];
  }

  lemma WordBack(v: Value, rest: string)
    requires v.Null? || v.Bool?
    ensures ReadLiteral(LiteralText(v) + rest) == Some((v, rest))
  {
    var t := LiteralText(v) + rest;
    Starts(LiteralText(v), rest);
    assert t[0] == LiteralText(v)[0];
  }

  lemma ListBack(items: seq<string>, rest: string)
    ensures ReadLiteral(LiteralText(List(items)) + rest) == Some((List(items), rest))
  {
    hide QuotedItems, ReadList, ReadQuoted, ReadNumber;
    var cast := "::text[]";
    ListedBack(items, cast + rest);
    Starts(cast, rest);
    Reassociate(QuotedItems(items), cast, rest);
    Reassociate("ARRAY[", QuotedItems(items) + cast, rest);
    ArrayPrefix(QuotedItems(items) + (cast + rest));
  }

  lemma ArrayPrefix(body: string)
    ensures var t := "ARRAY[" + body;
            && t[0] == 'A' && "ARRAY[" <= t && t[6..] == body
            && !("NULL" <= t) && !("TRUE" <= t) && !("FALSE" <= t)
  {
    Starts("ARRAY[", body);
  }

  /** Any writable value is read back as itself, up to exactly where its literal ends. */
  lemma LiteralBack(v: Value, rest: string)
    requires Writable(v) && Follows(rest)
    ensures ReadLiteral(LiteralText(v) + rest) == Some((v, rest))
  {
    match v
    case Null => WordBack(v, rest);
    case Bool(_) => WordBack(v, rest);
    case Int(n) =>
      IntBack(n);
      NumberBack(IntText(n), v, rest);
    case Float(text) =>
      FloatBack(text);
      NumberBack(text, v, rest);
    case Str(s) => QuotedBack(s, rest);
    case List(items) => ListBack(items, rest);
    case Json(text) =>
      QuotedBack(text, "::jsonb" + rest);
      Starts("::jsonb", rest);
      Reassociate(Quoted(text), "::jsonb", rest);
  }

  predicate Separates(rest: string) {
    rest != "" && rest[0] in {',', ')'}
  }

  lemma CellBack(c: Cell, rest: string)
    requires Writable(c.value) && Separates(rest)
    ensures ReadCell(CellText(c) + rest) == Some((c, rest))
  {
    hide ReadLiteral, LiteralText, Writable;
    var stamp := "::timestamptz";
    if c.stamped {
      Starts(stamp, rest);
      assert stamp[2] == 't' && (stamp + rest)[2] == 't';
      LiteralBack(c.value, stamp + rest);
      Reassociate(LiteralText(c.value), stamp, rest);
    } else {
      assert LiteralText(c.value) + "" == LiteralText(c.value);
      LiteralBack(c.value, rest);
    }
  }

  lemma CellNotEmpty(c: Cell, rest: string)
    requires Writable(c.value)
    ensures |CellText(c) + rest| > |rest|
  {
    match c.value
    case Int(n) => IntBack(n);
    case _ =>
  }

  lemma {:induction false} CellsBack(row: Row, rest: string)
    requires row != [] && forall i | 0 <= i < |row| :: Writable(row[i].value)
    ensures ReadCells(CellsText(row) + rest) == Some((row, rest))
    decreases |row|
  {
    hide ReadCell, CellText, Writable;
    var comma := if |row| == 1 then "" else ", ";
    var tail := CellsText(row[1..]) + rest;
    Reassociate(comma, CellsText(row[1..]), rest);
    Reassociate(CellText(row[0]), comma + CellsText(row[1..]), rest);
    assert CellsText(row) + rest == CellText(row[0]) + (comma + tail);
    CellNotEmpty(row[0], comma + tail);
    if |row| == 1 {
      assert comma + tail == tail && tail == ")" + rest && tail[1..] == rest;
      CellBack(row[0], tail);
      assert [row[0]] == row;
    } else {
      assert forall i | 0 <= i < |row[1..]| :: row[1..][i] == row[i + 1];
      CellsBack(row[1..], rest);
      Starts(comma, tail);
      CellBack(row[0], comma + tail);
      assert [row[0]] + row[1..] == row;
    }
  }

  lemma {:induction false} LinesBack(rows: seq<Row>, rest: string)
    requires rows != [] && AllWritable(rows)
    ensures ReadLines(LinesText(rows) + rest) == Some((rows, rest))
    decreases |rows|
  {
    hide ReadCells, CellsText, RowWritable;
    var comma := if |rows| == 1 then "" else ",\n";
    var tail := LinesText(rows[1..]) + rest;
    Reassociate(comma, LinesText(rows[1..]), rest);
    Reassociate(Line(rows[0]), comma + LinesText(rows[1..]), rest);
    Reassociate("  (", CellsText(rows[0]), comma + tail);
    assert LinesText(rows) + rest == "  (" + (CellsText(rows[0]) + (comma + tail));
    Starts("  (", CellsText(rows[0]) + (comma + tail));
    WritableCells(rows[0]);
    CellsBack(rows[0], comma + tail);
    if |rows| == 1 {
      assert comma + tail == tail && tail == ";" + rest && tail[1..] == rest;
      assert [rows[0]] == rows;
    } else {
      assert forall i | 0 <= i < |rows[1..]| :: rows[1..][i] == rows[i + 1];
      LinesBack(rows[1..], rest);
      Starts(comma, tail);
      assert [rows[0]] + rows[1..] == rows;
    }
  }

  lemma WritableCells(row: Row)
    requires RowWritable(row)
    ensures row != [] && forall i | 0 <= i < |row| :: Writable(row[i].value)
  {
  }

  // ----- Column lists and statements -----

  predicate IsName(t: string) {
    t != "" && forall c | c in t :: IsNameChar(c)
  }

  predicate AreNames(names: seq<string>) {
    forall i | 0 <= i < |names| :: IsName(names[i])
  }

  lemma {:induction false} NameRunBack(t: string, rest: string)
    requires forall c | c in t :: IsNameChar(c)
    requires rest != "" && rest[0] in {',', ')'}
    ensures NameRun(t + rest) == |t|
  {
    if t == "" {
      assert t + rest == rest;
    } else {
      assert (t + rest)[1..] == t[1..] + rest;
      NameRunBack(t[1..], rest);
    }
  }

  lemma {:induction false} NamesBack(names: seq<string>, rest: string)
    requires names != [] && AreNames(names)
    ensures ReadNames(NamesText(names) + rest) == Some((names, rest))
    decreases |names|
  {
    var comma := if |names| == 1 then "" else ", ";
    var tail := NamesText(names[1..]) + rest;
    Reassociate(comma, NamesText(names[1..]), rest);
    Reassociate(names[0], comma + NamesText(names[1..]), rest);
    assert NamesText(names) + rest == names[0] + (comma + tail);
    assert IsName(names[0]);
    Starts(names[0], comma + tail);
    assert (names[0] + (comma + tail))[..|names[0]|] == names[0];
    if |names| == 1 {
      assert comma + tail == tail && tail == ")" + rest && tail[1..] == rest;
      NameRunBack(names[0], tail);
      assert [names[0]] == names;
    } else {
      Starts(comma, tail);
      NameRunBack(names[0], comma + tail);
      NamesBack(names[1..], rest);
      assert [names[0]] + names[1..] == names;
    }
  }

  lemma TableBack(table: Table, body: string)
    ensures ReadTable(INSERT + (TableName(table) + (" (" + body))) == Some((table, body))
  {
    var t := INSERT + (TableName(table) + (" (" + body));
    match table
    case Runs =>
      Starts(INSERT + "runs (", body);
      assert t == INSERT + "runs (" + body;
    case Results =>
      Starts(INSERT + "results (", body);
      assert t == INSERT + "results (" + body;
      assert (INSERT + "runs (")[24] == 'u' && t[24] == 'e';
  }

  ghost predicate StatementWritable(s: Statement) {
    s.columns != [] && AreNames(s.columns) && s.rows != [] && AllWritable(s.rows)
  }

  lemma StatementBack(s: Statement, rest: string)
    requires StatementWritable(s)
    ensures ReadStatement(StatementText(s) + rest) == Some((s, rest))
  {
    hide ReadTable, ReadNames, NamesText, ReadLines, LinesText, AllWritable, AreNames, TableName;
    var names, lines := NamesText(s.columns), LinesText(s.rows);
    var values := " VALUES\n";
    Reassociate(values, lines, rest);
    Reassociate(names, values + lines, rest);
    Reassociate(" (", names + (values + lines), rest);
    Reassociate(TableName(s.table), " (" + (names + (values + lines)), rest);
    Reassociate(INSERT, TableName(s.table) + (" (" + (names + (values + lines))), rest);
    var body := values + (lines + rest);
    assert StatementText(s) + rest == INSERT + (TableName(s.table) + (" (" + (names + body)));
    TableBack(s.table, names + body);
    NamesBack(s.columns, body);
    Starts(values, lines + rest);
    LinesBack(s.rows, rest);
  }

  lemma StatementNotEmpty(s: Statement)
    ensures StatementText(s) != ""
  {
  }

  ghost predicate ScriptWritable(script: seq<Statement>) {
    forall i | 0 <= i < |script| :: StatementWritable(script[i])
  }

  lemma {:induction false} ScriptBack(script: seq<Statement>)
    requires ScriptWritable(script)
    ensures ReadScript(ScriptText(script)) == Some(script)
    ensures script != [] ==> ScriptText(script) != ""
    decreases |script|
  {
    hide StatementText, ReadStatement, StatementWritable;
    if script != [] {
      var gap := if |script| == 1 then "" else "\n\n";
      var tail := ScriptText(script[1..]);
      StatementNotEmpty(script[0]);
      StatementBack(script[0], gap + tail);
      if |script| == 1 {
        assert tail == "" && gap + tail == "";
        assert [script[0]] == script;
      } else {
        assert forall i | 0 <= i < |script[1..]| :: script[1..][i] == script[i + 1];
        ScriptBack(script[1..]);
        Starts(gap, tail);
        assert [script[0]] + script[1..] == script;
      }
    }
  }

  // ----- The script of a dataset -----

  lemma RecordsConcat(columns: seq<string>, a: seq<Row>, b: seq<Row>)
    ensures RecordsOf(columns, a + b) == RecordsOf(columns, a) + RecordsOf(columns, b)
  {
    hide AsRecord;
  }

  lemma ChunksUnfold(columns: seq<string>, rows: seq<Row>)
    requires |rows| > INSERT_CHUNK
    ensures Chunks(columns, rows)
            == [Statement(Results, columns, rows[..INSERT_CHUNK])] + Chunks(columns, rows[INSERT_CHUNK..])
    ensures rows == rows[..INSERT_CHUNK] + rows[INSERT_CHUNK..]
  {
  }

  lemma LoadedPrepend(s: Statement, script: seq<Statement>, table: Table)
    ensures Loaded([s] + script, table)
            == (if s.table == table then RecordsOf(s.columns, s.rows) else []) + Loaded(script, table)
  {
    assert ([s] + script)[1..] == script;
  }

  lemma {:induction false} ChunksLoad(columns: seq<string>, rows: seq<Row>)
    ensures Loaded(Chunks(columns, rows), Results) == RecordsOf(columns, rows)
    ensures Loaded(Chunks(columns, rows), Runs) == []
    decreases |rows|
  {
    if |rows| > INSERT_CHUNK {
      ChunksLoad(columns, rows[INSERT_CHUNK..]);
      ChunksUnfold(columns, rows);
      RecordsConcat(columns, rows[..INSERT_CHUNK], rows[INSERT_CHUNK..]);
      hide Chunks, Loaded, RecordsOf;
      var first, rest := Statement(Results, columns, rows[..INSERT_CHUNK]), Chunks(columns, rows[INSERT_CHUNK..]);
      LoadedPrepend(first, rest, Results);
      LoadedPrepend(first, rest, Runs);
    } else if rows != [] {
      hide RecordsOf;
      LoadedPrepend(Statement(Results, columns, rows), [], Results);
      LoadedPrepend(Statement(Results, columns, rows), [], Runs);
      assert [Statement(Results, columns, rows)] + [] == [Statement(Results, columns, rows)];
    }
  }

  /** A block of these rows. */
  ghost predicate IsChunk(s: Statement, columns: seq<string>, rows: seq<Row>) {
    s.table == Results && s.columns == columns && 0 < |s.rows| <= 500 && forall r | r in s.rows :: r in rows
  }

  lemma {:induction false} ChunksKeepRows(columns: seq<string>, rows: seq<Row>)
    ensures forall i | 0 <= i < |Chunks(columns, rows)| :: IsChunk(Chunks(columns, rows)[i], columns, rows)
    ensures forall i | 0 <= i < |Chunks(columns, rows)| - 1 :: |Chunks(columns, rows)[i].rows| == 500
    decreases |rows|
  {
    if |rows| > INSERT_CHUNK {
      var rest := rows[INSERT_CHUNK..];
      ChunksKeepRows(columns, rest);
      ChunksUnfold(columns, rows);
      var first := Statement(Results, columns, rows[..INSERT_CHUNK]);
      assert IsChunk(first, columns, rows);
      forall i | 1 <= i < |Chunks(columns, rows)|
        ensures IsChunk(Chunks(columns, rows)[i], columns, rows)
        ensures Chunks(columns, rows)[i] == Chunks(columns, rest)[i - 1]
      {
        assert Chunks(columns, rows)[i] == Chunks(columns, rest)[i - 1];
        assert forall r | r in rest :: r in rows;
      }
    }
  }

  /** Nothing ambiguous in the column lists, and no INSERT without columns. */
  predicate Printable(schema: Schema) {
    && schema.runColumns != []
    && AreNames(NamesOf(schema.runColumns)) && AreNames(NamesOf(schema.resultColumns))
    && (forall i, j | 0 <= i < j < |schema.runColumns| :: schema.runColumns[i].name != schema.runColumns[j].name)
    && (forall i, j | 0 <= i < j < |schema.resultColumns| ::
          schema.resultColumns[i].name != schema.resultColumns[j].name)
    && (forall i | 0 <= i < |schema.resultColumns| :: schema.resultColumns[i].name != "run_id")
  }

  lemma ScriptIsWritable(schema: Schema, entries: seq<Entry>)
    requires Printable(schema)
    requires forall i | 0 <= i < |entries| :: Complete(schema, entries[i])
    requires AllWritable(RunRows(schema, entries)) && AllWritable(ResultRows(schema, entries))
    ensures ScriptWritable(Script(schema, entries))
  {
    var columns, rows := InsertColumns(schema, Results), ResultRows(schema, entries);
    ChunksKeepRows(columns, rows);
    assert IsName("run_id");
    assert AreNames(columns);
    forall i | 0 <= i < |Chunks(columns, rows)|
      ensures StatementWritable(Chunks(columns, rows)[i])
    {
      forall k | 0 <= k < |Chunks(columns, rows)[i].rows|
        ensures RowWritable(Chunks(columns, rows)[i].rows[k])
      {
        assert Chunks(columns, rows)[i].rows[k] in rows;
      }
    }
  }

  // ----- Every value in its own column -----

  /** `loaded` has exactly these columns, each with what the record has under its key. */
  ghost predicate Holds(loaded: Record, r: Record, columns: seq<Column>) {
    forall i | 0 <= i < |columns| ::
      columns[i].key in r && columns[i].name in loaded && loaded[columns[i].name] == r[columns[i].key]
  }

  ghost predicate IsRun(loaded: Record, e: Entry, schema: Schema) {
    && Holds(loaded, e.run, schema.runColumns)
    && loaded.Keys == set name | name in NamesOf(schema.runColumns)
  }

  ghost predicate IsResult(loaded: Record, e: Entry, k: nat, schema: Schema)
    requires k < |e.results| && "run_id" in e.run
  {
    && Holds(loaded, e.results[k], schema.resultColumns)
    && "run_id" in loaded && loaded["run_id"] == e.run["run_id"]
    && loaded.Keys == (set name | name in NamesOf(schema.resultColumns)) + {"run_id"}
  }

  /** How many results the first n runs have. */
  function Before(entries: seq<Entry>, n: nat): nat
    requires n <= |entries|
  {
    if n == 0 then 0 else Before(entries, n - 1) + |entries[n - 1].results|
  }

  /** The k-th result of run i stands after all results of the runs before it. */
  ghost predicate LoadsResult(results: seq<Record>, schema: Schema, entries: seq<Entry>, i: nat, k: nat)
    requires i < |entries| && k < |entries[i].results|
  {
    && Complete(schema, entries[i])
    && Before(entries, i) + k < |results|
    && IsResult(results[Before(entries, i) + k], entries[i], k, schema)
  }

  /** The two tables hold exactly the runs and the results of the dataset, in order. */
  ghost predicate LoadsDataset(script: seq<Statement>, schema: Schema, entries: seq<Entry>)
    requires forall i | 0 <= i < |entries| :: Complete(schema, entries[i])
  {
    var runs, results := Loaded(script, Runs), Loaded(script, Results);
    && |runs| == |entries| && (forall i | 0 <= i < |entries| :: IsRun(runs[i], entries[i], schema))
    && |results| == Before(entries, |entries|)
    && forall i, k | 0 <= i < |entries| && 0 <= k < |entries[i].results| :: LoadsResult(results, schema, entries, i, k)
  }

  /** From `offset` on the tuple has a cell for each column, cast to a timestamp exactly where run_at has a value. */
  ghost predicate Stamped(r: Row, columns: seq<Column>, offset: nat) {
    && |r| == offset + |columns|
    && forall i | 0 <= i < |columns| ::
         r[offset + i].stamped <==> columns[i].key == "run_at" && r[offset + i].value != Null
  }

  ghost predicate ShapedRows(rows: seq<Row>, columns: seq<Column>, offset: nat) {
    forall r | r in rows :: Stamped(r, columns, offset)
  }

  lemma {:induction false} AsRecordHolds(columns: seq<Column>, r: Record)
    requires HasKeys(r, columns)
    requires forall i, j | 0 <= i < j < |columns| :: columns[i].name != columns[j].name
    ensures var loaded := AsRecord(NamesOf(columns), RowOf(r, columns));
            Holds(loaded, r, columns) && loaded.Keys == set name | name in NamesOf(columns)
    decreases |columns|
  {
    if columns != [] {
      var names := NamesOf(columns);
      assert names[1..] == NamesOf(columns[1..]) && RowOf(r, columns)[1..] == RowOf(r, columns[1..]);
      AsRecordHolds(columns[1..], r);
      assert names == [columns[0].name] + names[1..];
      forall i | 0 <= i < |columns|
        ensures columns[i].name in AsRecord(names, RowOf(r, columns))
                && AsRecord(names, RowOf(r, columns))[columns[i].name] == r[columns[i].key]
      {
        if i > 0 {
          assert columns[1..][i - 1] == columns[i];
        }
      }
    }
  }

  lemma RunHolds(schema: Schema, e: Entry)
    requires Printable(schema) && Complete(schema, e)
    ensures IsRun(AsRecord(InsertColumns(schema, Runs), RowOf(e.run, schema.runColumns)), e, schema)
  {
    AsRecordHolds(schema.runColumns, e.run);
  }

  lemma ResultHolds(schema: Schema, e: Entry, k: nat)
    requires Printable(schema) && Complete(schema, e) && k < |e.results|
    ensures IsResult(AsRecord(InsertColumns(schema, Results), OwnRows(schema, e)[k]), e, k, schema)
  {
    var names, row := NamesOf(schema.resultColumns), RowOf(e.results[k], schema.resultColumns);
    AsRecordHolds(schema.resultColumns, e.results[k]);
    var columns := InsertColumns(schema, Results);
    assert columns[1..] == names && OwnRows(schema, e)[k][1..] == row;
    assert AsRecord(columns, OwnRows(schema, e)[k]) == AsRecord(names, row)["run_id" := e.run["run_id"]];
  }

  lemma {:induction false} BeforePrefix(entries: seq<Entry>, m: nat, n: nat)
    requires n <= m <= |entries|
    ensures Before(entries[..m], n) == Before(entries, n)
  {
    if n > 0 {
      BeforePrefix(entries, m, n - 1);
    }
  }

  lemma {:induction false} BeforeGrows(entries: seq<Entry>, m: nat, n: nat)
    requires m <= n <= |entries|
    ensures Before(entries, m) <= Before(entries, n)
  {
    if m < n {
      BeforeGrows(entries, m, n - 1);
    }
  }

  lemma {:induction false} ResultRowsAt(schema: Schema, entries: seq<Entry>, i: nat, k: nat)
    requires forall j | 0 <= j < |entries| :: Complete(schema, entries[j])
    requires i < |entries| && k < |entries[i].results|
    ensures Complete(schema, entries[i]) && Before(entries, i) + k < |ResultRows(schema, entries)|
    ensures ResultRows(schema, entries)[Before(entries, i) + k] == OwnRows(schema, entries[i])[k]
  {
    var n := |entries| - 1;
    assert Complete(schema, entries[i]) && Complete(schema, entries[n]);
    ResultRowsCount(schema, entries[..n]);
    BeforePrefix(entries, n, n);
    assert ResultRows(schema, entries) == ResultRows(schema, entries[..n]) + OwnRows(schema, entries[n]);
    if i < n {
      ResultRowsAt(schema, entries[..n], i, k);
      BeforePrefix(entries, n, i);
    }
  }

  lemma {:induction false} ResultRowsCount(schema: Schema, entries: seq<Entry>)
    requires forall j | 0 <= j < |entries| :: Complete(schema, entries[j])
    ensures |ResultRows(schema, entries)| == Before(entries, |entries|)
  {
    if entries != [] {
      var n := |entries| - 1;
      assert Complete(schema, entries[n]);
      ResultRowsCount(schema, entries[..n]);
      BeforePrefix(entries, n, n);
    }
  }

  lemma RowOfStamped(r: Record, columns: seq<Column>)
    requires HasKeys(r, columns)
    ensures Stamped(RowOf(r, columns), columns, 0)
  {
  }

  lemma PrefixedStamped(cell: Cell, row: Row, columns: seq<Column>)
    requires Stamped(row, columns, 0)
    ensures Stamped([cell] + row, columns, 1)
  {
    assert forall i | 0 <= i < |columns| :: ([cell] + row)[1 + i] == row[i];
  }

  lemma OwnRowsShape(schema: Schema, e: Entry)
    requires Complete(schema, e)
    ensures ShapedRows(OwnRows(schema, e), schema.resultColumns, 1)
  {
    hide Stamped, RowOf;
    forall r | r in OwnRows(schema, e)
      ensures Stamped(r, schema.resultColumns, 1)
    {
      var k :| 0 <= k < |OwnRows(schema, e)| && OwnRows(schema, e)[k] == r;
      RowOfStamped(e.results[k], schema.resultColumns);
      PrefixedStamped(Cell(false, e.run["run_id"]), RowOf(e.results[k], schema.resultColumns), schema.resultColumns);
    }
  }

  lemma {:induction false} ResultRowsShape(schema: Schema, entries: seq<Entry>)
    requires forall j | 0 <= j < |entries| :: Complete(schema, entries[j])
    ensures ShapedRows(ResultRows(schema, entries), schema.resultColumns, 1)
  {
    hide Stamped, OwnRows;
    if entries != [] {
      var n := |entries| - 1;
      assert Complete(schema, entries[n]);
      ResultRowsShape(schema, entries[..n]);
      OwnRowsShape(schema, entries[n]);
    }
  }

  lemma ResultLoads(schema: Schema, entries: seq<Entry>, i: nat, k: nat)
    requires Printable(schema) && forall j | 0 <= j < |entries| :: Complete(schema, entries[j])
    requires i < |entries| && k < |entries[i].results|
    ensures LoadsResult(RecordsOf(InsertColumns(schema, Results), ResultRows(schema, entries)), schema, entries, i, k)
  {
    hide Printable, ResultRows, AsRecord, IsResult, InsertColumns, Before, OwnRows;
    ResultRowsAt(schema, entries, i, k);
    ResultHolds(schema, entries[i], k);
  }

  lemma ScriptLoads(schema: Schema, entries: seq<Entry>)
    requires Printable(schema) && forall i | 0 <= i < |entries| :: Complete(schema, entries[i])
    ensures LoadsDataset(Script(schema, entries), schema, entries)
  {
    var script := Script(schema, entries);
    ResultRowsCount(schema, entries);
    LoadedScript(schema, entries);
    LoadedRuns(schema, entries);
    hide Loaded, Chunks, Script, ResultRows, RunRows, AsRecord, IsRun, IsResult, NamesOf, Printable, LoadsResult,
      Before, Complete, InsertColumns;
    forall i, k | 0 <= i < |entries| && 0 <= k < |entries[i].results|
      ensures LoadsResult(Loaded(script, Results), schema, entries, i, k)
    {
      ResultLoads(schema, entries, i, k);
    }
  }

  lemma LoadedRuns(schema: Schema, entries: seq<Entry>)
    requires Printable(schema) && forall i | 0 <= i < |entries| :: Complete(schema, entries[i])
    ensures var records := RecordsOf(InsertColumns(schema, Runs), RunRows(schema, entries));
            |records| == |entries| && forall i | 0 <= i < |entries| :: IsRun(records[i], entries[i], schema)
  {
    hide IsRun, AsRecord, InsertColumns, RowOf;
    forall i | 0 <= i < |entries|
      ensures Complete(schema, entries[i])
      ensures IsRun(AsRecord(InsertColumns(schema, Runs), RunRows(schema, entries)[i]), entries[i], schema)
    {
      assert Complete(schema, entries[i]);
      RunHolds(schema, entries[i]);
    }
  }

  lemma LoadedScript(schema: Schema, entries: seq<Entry>)
    requires forall i | 0 <= i < |entries| :: Complete(schema, entries[i])
    ensures Loaded(Script(schema, entries), Runs) == RecordsOf(InsertColumns(schema, Runs), RunRows(schema, entries))
    ensures Loaded(Script(schema, entries), Results)
            == RecordsOf(InsertColumns(schema, Results), ResultRows(schema, entries))
  {
    var columns, rows := InsertColumns(schema, Results), ResultRows(schema, entries);
    var chunks := Chunks(columns, rows);
    ChunksLoad(columns, rows);
    hide RecordsOf, Chunks, Loaded;
    if entries != [] {
      var first := Statement(Runs, InsertColumns(schema, Runs), RunRows(schema, entries));
      LoadedPrepend(first, chunks, Runs);
      LoadedPrepend(first, chunks, Results);
      assert Script(schema, entries) == [first] + chunks;
    } else {
      NoRecords(InsertColumns(schema, Runs), schema, entries);
      assert Script(schema, entries) == [] + chunks == chunks;
    }
  }

  lemma NoRecords(columns: seq<string>, schema: Schema, entries: seq<Entry>)
    requires entries == []
    ensures RecordsOf(columns, RunRows(schema, entries)) == []
  {
  }

  lemma RunsShape(schema: Schema, entries: seq<Entry>)
    requires forall i | 0 <= i < |entries| :: Complete(schema, entries[i])
    ensures ShapedRows(RunRows(schema, entries), schema.runColumns, 0)
  {
    hide Stamped, RowOf;
    forall r | r in RunRows(schema, entries)
      ensures Stamped(r, schema.runColumns, 0)
    {
      var k :| 0 <= k < |RunRows(schema, entries)| && RunRows(schema, entries)[k] == r;
      assert Complete(schema, entries[k]);
      RowOfStamped(entries[k].run, schema.runColumns);
    }
  }

  ghost predicate RunsShaped(schema: Schema, s: Statement) {
    s.table == Runs && |s.columns| == |schema.runColumns| && ShapedRows(s.rows, schema.runColumns, 0)
  }

  ghost predicate ResultsShaped(schema: Schema, s: Statement) {
    && s.table == Results && |s.columns| == 1 + |schema.resultColumns| && ShapedRows(s.rows, schema.resultColumns, 1)
    && 0 < |s.rows| <= 500
  }

  /**
    One INSERT of all runs first, then the results in blocks of 500 but for the last, every tuple as long as its list of
    columns and a timestamp cast exactly where run_at has a value.
   */
  ghost predicate WellShaped(schema: Schema, script: seq<Statement>) {
    && (script != [] ==> RunsShaped(schema, script[0]))
    && (forall i | 1 <= i < |script| :: ResultsShaped(schema, script[i]))
    && (forall i | 1 <= i < |script| - 1 :: |script[i].rows| == 500)
  }

  lemma ChunksShape(schema: Schema, columns: seq<string>, rows: seq<Row>)
    requires ShapedRows(rows, schema.resultColumns, 1) && |columns| == 1 + |schema.resultColumns|
    ensures forall i | 0 <= i < |Chunks(columns, rows)| :: ResultsShaped(schema, Chunks(columns, rows)[i])
    ensures forall i | 0 <= i < |Chunks(columns, rows)| - 1 :: |Chunks(columns, rows)[i].rows| == 500
  {
    ChunksKeepRows(columns, rows);
    hide Stamped;
  }

  lemma ScriptShape(schema: Schema, entries: seq<Entry>)
    requires forall i | 0 <= i < |entries| :: Complete(schema, entries[i])
    ensures WellShaped(schema, Script(schema, entries))
  {
    var columns, rows := InsertColumns(schema, Results), ResultRows(schema, entries);
    var chunks := Chunks(columns, rows);
    ResultRowsShape(schema, entries);
    ChunksShape(schema, columns, rows);
    RunsShape(schema, entries);
    if entries == [] {
      EmptyScript(schema, entries);
    } else {
      var first := Statement(Runs, InsertColumns(schema, Runs), RunRows(schema, entries));
      assert RunsShaped(schema, first);
      hide RunsShaped, ResultsShaped, WellShaped;
      ShapedParts(schema, first, chunks);
      assert Script(schema, entries) == [first] + chunks;
    }
  }

  lemma ShapedParts(schema: Schema, first: Statement, chunks: seq<Statement>)
    requires RunsShaped(schema, first)
    requires forall i | 0 <= i < |chunks| :: ResultsShaped(schema, chunks[i])
    requires forall i | 0 <= i < |chunks| - 1 :: |chunks[i].rows| == 500
    ensures WellShaped(schema, [first] + chunks)
  {
    hide RunsShaped, ResultsShaped;
    var script := [first] + chunks;
    assert forall i | 1 <= i < |script| :: script[i] == chunks[i - 1];
  }

  lemma EmptyScript(schema: Schema, entries: seq<Entry>)
    requires entries == []
    ensures Script(schema, entries) == []
  {
  }

  /**
    The written script determines the dataset: reading its INSERT blocks, column lists included, consumes the whole
    text, and executing what was read puts every value of every run and result into its own column, runs first and
    results in order under their run's id, whatever quotes, backslashes, separators or parentheses the values contain.
   */
  lemma PrinterIsFaithful(schema: Schema, entries: seq<Entry>)
    requires Printable(schema) && forall i | 0 <= i < |entries| :: Complete(schema, entries[i])
    requires AllWritable(RunRows(schema, entries)) && AllWritable(ResultRows(schema, entries))
    ensures var read := ReadScript(ScriptText(Script(schema, entries)));
            && read == Some(Script(schema, entries))
            && LoadsDataset(read.value, schema, entries) && WellShaped(schema, read.value)
  {
    ScriptIsWritable(schema, entries);
    ScriptBack(Script(schema, entries));
    ScriptLoads(schema, entries);
    ScriptShape(schema, entries);
    hide Script, ScriptText, ReadScript, LoadsDataset, WellShaped, ScriptWritable;
  }

  // ----- The loops that write it -----

  method TupleCells(r: Record, columns: seq<Column>, prefix: Row) returns (row: Option<Row>)
    requires HasKeys(r, columns)
    ensures var cells := prefix + RowOf(r, columns);
            row.Some? <==> forall i | 0 <= i < |cells| :: Writable(cells[i].value)
    ensures row.Some? ==> row.value == prefix + RowOf(r, columns)
  {
    var cells := prefix;
    for i := 0 to |prefix|
      invariant forall k | 0 <= k < i :: Writable(prefix[k].value)
    {
      if !Writable(prefix[i].value) {
        assert (prefix + RowOf(r, columns))[i] == prefix[i];
        return None;
      }
    }
    for i := 0 to |columns|
      invariant cells == prefix + RowOf(r, columns)[..i]
      invariant forall k | 0 <= k < i :: Writable(RowOf(r, columns)[k].value)
    {
      var cell := CellFor(columns[i].key, r[columns[i].key]);
      if !Writable(cell.value) {
        assert (prefix + RowOf(r, columns))[|prefix| + i] == cell;
        return None;
      }
      cells := cells + [cell];
    }
    assert RowOf(r, columns)[..|columns|] == RowOf(r, columns);
    return Some(cells);
  }

  method CollectRuns(schema: Schema, entries: seq<Entry>) returns (rows: Option<seq<Row>>)
    requires schema.runColumns != [] && forall i | 0 <= i < |entries| :: Complete(schema, entries[i])
    ensures rows.Some? <==> AllWritable(RunRows(schema, entries))
    ensures rows.Some? ==> rows.value == RunRows(schema, entries)
  {
    var runs: seq<Row> := [];
    for i := 0 to |entries|
      invariant runs == RunRows(schema, entries)[..i] && AllWritable(runs)
    {
      assert Complete(schema, entries[i]);
      var row := TupleCells(entries[i].run, schema.runColumns, []);
      var own := RowOf(entries[i].run, schema.runColumns);
      assert RunRows(schema, entries)[i] == own == [] + own;
      if row.None? {
        return None;
      }
      runs := runs + [row.value];
    }
    return Some(runs);
  }

  method WriteChunks(columns: seq<string>, rows: seq<Row>) returns (texts: seq<string>)
    ensures texts == Texts(Chunks(columns, rows))
  {
    hide StatementText;
    texts := [];
    var start := 0;
    while start < |rows|
      invariant 0 <= start <= |rows|
      invariant texts + Texts(Chunks(columns, rows[start..])) == Texts(Chunks(columns, rows))
      decreases |rows| - start
    {
      var stop := if start + INSERT_CHUNK < |rows| then start + INSERT_CHUNK else |rows|;
      var rest := rows[start..];
      assert rest[stop - start..] == rows[stop..] && rest[..stop - start] == rows[start..stop];
      FirstChunk(columns, rest);
      texts := texts + [StatementText(Statement(Results, columns, rows[start..stop]))];
      start := stop;
    }
    assert rows[start..] == [];
  }

  /** `_insert_blocks`: every tuple first, so that an unwritable value leaves no partial text, and then the blocks. */
  method InsertBlocks(schema: Schema, entries: seq<Entry>) returns (blocks: Option<seq<string>>)
    requires Printable(schema) && forall i | 0 <= i < |entries| :: Complete(schema, entries[i])
    ensures blocks.Some? <==> ValuesWritable(schema, entries)
    ensures blocks.Some? ==>
              var read := ReadScript(JoinBlank(blocks.value));
              && read.Some? && |read.value| == |blocks.value|
              && LoadsDataset(read.value, schema, entries) && WellShaped(schema, read.value)
  {
    ValuesAreRows(schema, entries);
    var runs := CollectRuns(schema, entries);
    if runs.None? {
      return None;
    }
    var results := CollectResults(schema, entries);
    if results.None? {
      return None;
    }
    hide StatementText;
    var texts := [];
    ghost var first := [];
    if entries != [] {
      texts := [StatementText(Statement(Runs, InsertColumns(schema, Runs), runs.value))];
      first := [Statement(Runs, InsertColumns(schema, Runs), runs.value)];
      assert first[1..] == [];
    }
    var chunks := WriteChunks(InsertColumns(schema, Results), results.value);
    TextsConcat(first, Chunks(InsertColumns(schema, Results), results.value));
    JoinIsScript(Script(schema, entries));
    PrinterIsFaithful(schema, entries);
    return Some(texts + chunks);
  }

  /** Every value that is written for one run and its results can be written. */
  ghost predicate EntryWritable(schema: Schema, e: Entry)
    requires Complete(schema, e)
  {
    && (forall c | 0 <= c < |schema.runColumns| :: Writable(e.run[schema.runColumns[c].key]))
    && forall k | 0 <= k < |e.results| :: ResultWritable(schema, e, k)
  }

  ghost predicate ResultWritable(schema: Schema, e: Entry, k: nat)
    requires Complete(schema, e) && k < |e.results|
  {
    && Writable(e.run["run_id"])
    && forall c | 0 <= c < |schema.resultColumns| :: Writable(e.results[k][schema.resultColumns[c].key])
  }

  ghost predicate ValuesWritable(schema: Schema, entries: seq<Entry>)
    requires forall i | 0 <= i < |entries| :: Complete(schema, entries[i])
  {
    forall i | 0 <= i < |entries| :: Complete(schema, entries[i]) && EntryWritable(schema, entries[i])
  }

  lemma RunRowWritable(schema: Schema, e: Entry)
    requires Printable(schema) && Complete(schema, e)
    ensures RowWritable(RowOf(e.run, schema.runColumns))
            <==> forall c | 0 <= c < |schema.runColumns| :: Writable(e.run[schema.runColumns[c].key])
  {
    hide Writable;
    var row := RowOf(e.run, schema.runColumns);
    assert forall c | 0 <= c < |row| :: row[c].value == e.run[schema.runColumns[c].key];
  }

  lemma OwnRowWritable(schema: Schema, e: Entry, k: nat)
    requires Complete(schema, e) && k < |e.results|
    ensures RowWritable(OwnRows(schema, e)[k]) <==> ResultWritable(schema, e, k)
  {
    hide Writable;
    var own := RowOf(e.results[k], schema.resultColumns);
    var row := OwnRows(schema, e)[k];
    assert row == [Cell(false, e.run["run_id"])] + own;
    assert row[0].value == e.run["run_id"];
    if RowWritable(row) {
      forall c | 0 <= c < |schema.resultColumns|
        ensures Writable(e.results[k][schema.resultColumns[c].key])
      {
        assert Writable(row[c + 1].value);
      }
    }
    if ResultWritable(schema, e, k) {
      forall c | 0 <= c < |row|
        ensures Writable(row[c].value)
      {
        assert c == 0 || row[c] == own[c - 1];
      }
    }
  }

  lemma {:induction false} ResultRowsOrigin(schema: Schema, entries: seq<Entry>, r: Row)
    requires forall j | 0 <= j < |entries| :: Complete(schema, entries[j])
    requires r in ResultRows(schema, entries)
    ensures exists i, k | 0 <= i < |entries| && 0 <= k < |entries[i].results| ::
              Complete(schema, entries[i]) && r == OwnRows(schema, entries[i])[k]
  {
    var n := |entries| - 1;
    assert Complete(schema, entries[n]);
    if r in OwnRows(schema, entries[n]) {
      var k :| 0 <= k < |OwnRows(schema, entries[n])| && OwnRows(schema, entries[n])[k] == r;
      assert k < |entries[n].results|;
    } else {
      ResultRowsOrigin(schema, entries[..n], r);
      var i, k :| 0 <= i < n && 0 <= k < |entries[..n][i].results|
                  && Complete(schema, entries[..n][i]) && r == OwnRows(schema, entries[..n][i])[k];
      assert entries[..n][i] == entries[i];
    }
  }

  lemma EntryIsRows(schema: Schema, e: Entry)
    requires Printable(schema) && Complete(schema, e)
    ensures EntryWritable(schema, e)
            <==> && RowWritable(RowOf(e.run, schema.runColumns))
                 && forall k | 0 <= k < |e.results| :: RowWritable(OwnRows(schema, e)[k])
  {
    RunRowWritable(schema, e);
    hide RowWritable, Writable, RowOf, ResultWritable;
    forall k | 0 <= k < |e.results|
      ensures RowWritable(OwnRows(schema, e)[k]) <==> ResultWritable(schema, e, k)
    {
      OwnRowWritable(schema, e, k);
    }
  }

  lemma WritableValuesGiveRows(schema: Schema, entries: seq<Entry>)
    requires Printable(schema) && forall i | 0 <= i < |entries| :: Complete(schema, entries[i])
    requires ValuesWritable(schema, entries)
    ensures AllWritable(RunRows(schema, entries)) && AllWritable(ResultRows(schema, entries))
  {
    var results := ResultRows(schema, entries);
    hide RowWritable, RowOf, EntryWritable, ResultRows, OwnRows;
    forall i | 0 <= i < |entries|
      ensures RowWritable(RunRows(schema, entries)[i])
    {
      assert Complete(schema, entries[i]);
      EntryIsRows(schema, entries[i]);
    }
    forall j | 0 <= j < |results|
      ensures RowWritable(results[j])
    {
      ResultRowsOrigin(schema, entries, results[j]);
      var i, k :| 0 <= i < |entries| && 0 <= k < |entries[i].results|
                  && Complete(schema, entries[i]) && results[j] == OwnRows(schema, entries[i])[k];
      EntryIsRows(schema, entries[i]);
    }
  }

  lemma WritableRowsGiveValues(schema: Schema, entries: seq<Entry>)
    requires Printable(schema) && forall i | 0 <= i < |entries| :: Complete(schema, entries[i])
    requires AllWritable(RunRows(schema, entries)) && AllWritable(ResultRows(schema, entries))
    ensures ValuesWritable(schema, entries)
  {
    hide RowWritable, RowOf, EntryWritable, ResultRows, OwnRows, Complete;
    forall i | 0 <= i < |entries|
      ensures Complete(schema, entries[i]) && EntryWritable(schema, entries[i])
    {
      EntryOfRows(schema, entries, i);
    }
  }

  lemma EntryOfRows(schema: Schema, entries: seq<Entry>, i: nat)
    requires Printable(schema) && forall j | 0 <= j < |entries| :: Complete(schema, entries[j])
    requires AllWritable(RunRows(schema, entries)) && AllWritable(ResultRows(schema, entries)) && i < |entries|
    ensures Complete(schema, entries[i]) && EntryWritable(schema, entries[i])
  {
    hide RowWritable, RowOf, EntryWritable, ResultRows, Before;
    assert Complete(schema, entries[i]);
    assert RowWritable(RunRows(schema, entries)[i]);
    forall k | 0 <= k < |entries[i].results|
      ensures RowWritable(OwnRows(schema, entries[i])[k])
    {
      ResultRowsAt(schema, entries, i, k);
    }
    hide OwnRows, AllWritable;
    EntryIsRows(schema, entries[i]);
  }

  lemma ValuesAreRows(schema: Schema, entries: seq<Entry>)
    requires Printable(schema) && forall i | 0 <= i < |entries| :: Complete(schema, entries[i])
    ensures ValuesWritable(schema, entries)
            <==> AllWritable(RunRows(schema, entries)) && AllWritable(ResultRows(schema, entries))
  {
    hide ValuesWritable, AllWritable, RunRows, ResultRows;
    if ValuesWritable(schema, entries) {
      WritableValuesGiveRows(schema, entries);
    }
    if AllWritable(RunRows(schema, entries)) && AllWritable(ResultRows(schema, entries)) {
      WritableRowsGiveValues(schema, entries);
    }
  }

  /** The blocks as `build_sql` joins them. */
  function JoinBlank(blocks: seq<string>): string {
    if blocks == [] then "" else blocks[0] + ((if |blocks| == 1 then "" else "\n\n") + JoinBlank(blocks[1..]))
  }

  lemma {:induction false} JoinIsScript(script: seq<Statement>)
    ensures |Texts(script)| == |script| && JoinBlank(Texts(script)) == ScriptText(script)
  {
    if script != [] {
      hide StatementText;
      JoinIsScript(script[1..]);
      assert Texts(script)[1..] == Texts(script[1..]);
    }
  }

  method CollectResults(schema: Schema, entries: seq<Entry>) returns (rows: Option<seq<Row>>)
    requires forall i | 0 <= i < |entries| :: Complete(schema, entries[i])
    ensures rows.Some? <==> AllWritable(ResultRows(schema, entries))
    ensures rows.Some? ==> rows.value == ResultRows(schema, entries)
  {
    var all: seq<Row> := [];
    for i := 0 to |entries|
      invariant all == ResultRows(schema, entries[..i]) && AllWritable(all)
    {
      var e := entries[i];
      assert Complete(schema, e) && entries[..i + 1][..i] == entries[..i];
      var expected := OwnRows(schema, e);
      ghost var before := all;
      for k := 0 to |e.results|
        invariant all == before + expected[..k] && AllWritable(all)
      {
        var row := TupleCells(e.results[k], schema.resultColumns, [Cell(false, e.run["run_id"])]);
        if row.None? {
          assert !RowWritable(expected[k]);
          ResultRowsContain(schema, entries, i, k);
          return None;
        }
        all := all + [row.value];
      }
    }
    assert entries[..|entries|] == entries;
    return Some(all);
  }

  lemma {:induction false} ResultRowsContain(schema: Schema, entries: seq<Entry>, i: nat, k: nat)
    requires forall j | 0 <= j < |entries| :: Complete(schema, entries[j])
    requires i < |entries| && k < |entries[i].results|
    ensures Complete(schema, entries[i]) && OwnRows(schema, entries[i])[k] in ResultRows(schema, entries)
  {
    var n := |entries| - 1;
    assert Complete(schema, entries[i]) && Complete(schema, entries[n]);
    assert ResultRows(schema, entries) == ResultRows(schema, entries[..n]) + OwnRows(schema, entries[n]);
    if i < n {
      ResultRowsContain(schema, entries[..n], i, k);
    } else {
      assert OwnRows(schema, entries[n])[k] in OwnRows(schema, entries[n]);
    }
  }

  function Texts(script: seq<Statement>): seq<string> {
    if script == [] then [] else [StatementText(script[0])] + Texts(script[1..])
  }

  lemma {:induction false} TextsConcat(a: seq<Statement>, b: seq<Statement>)
    ensures Texts(a + b) == Texts(a) + Texts(b)
  {
    if a == [] {
      assert a + b == b;
    } else {
      assert (a + b)[1..] == a[1..] + b;
      TextsConcat(a[1..], b);
    }
  }

  lemma FirstChunk(columns: seq<string>, rows: seq<Row>)
    requires rows != []
    ensures var n := if INSERT_CHUNK < |rows| then INSERT_CHUNK else |rows|;
            Texts(Chunks(columns, rows))
            == [StatementText(Statement(Results, columns, rows[..n]))] + Texts(Chunks(columns, rows[n..]))
  {
    if |rows| <= INSERT_CHUNK {
      assert rows[..|rows|] == rows && rows[|rows|..] == [];
      assert Chunks(columns, rows)[1..] == [];
    } else {
      assert Chunks(columns, rows)[1..] == Chunks(columns, rows[INSERT_CHUNK..]);
    }
  }
}
