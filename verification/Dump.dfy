/** parseCOPY of internal/transfer/archive.go: the records of a plain-text database dump. */
module Dump {
  import opened Common
  import opened Text
  import opened CopyText

  datatype Kind = Data | Jobs | Migrations | Unknown

  function KindOf(table: string): Kind {
    if table == "jobs" then Jobs
    else if table == "schema_migrations" then Migrations
    else if table in ["runtimes", "catalogs", "sources", "endpoints", "secrets", "revisions", "candidates", "probes",
                      "source_sets", "publications", "bindings", "feedback", "audits"] then Data
    else Unknown
  }

  function Columns(k: Kind): seq<string> {
    match k
    case Jobs => ["id", "kind", "target_id", "status", "attempts", "available_at", "lease_until", "lease_token",
                  "error", "created_at", "finished_at"]
    case Migrations => ["name", "applied_at"]
    case _ => ["id", "data"]
  }

  /** Jobs have eleven columns, every other table two. */
  function Arity(k: Kind): nat { if k == Jobs then 11 else 2 }

  function ColumnText(k: Kind): string { Joined(Columns(k), ", ") }

  /** The tables of the schema, the text of their columns, json.Valid and strconv.Atoi. */
  datatype Env = Env(kind: string -> Kind, columns: Kind -> string, valid: string -> bool, atoi: string -> Option<int>)

  function Schema(valid: string -> bool, atoi: string -> Option<int>): Env { Env(KindOf, ColumnText, valid, atoi) }

  type Value = Option<string>

  datatype Record = Record(id: string, data: string)

  datatype Job = Job(values: seq<Value>, attempts: int)

  datatype Document = Document(migrations: seq<string>, tables: map<string, seq<Record>>, jobs: seq<Job>)

  datatype CopyError =
    BadHeader | UnknownTable | WrongColumns | BadRow | BadEscape | NoId | BadJob | BadAttempts | BadJson | Truncated

  /** Outside a table the table is the empty string. */
  datatype State = State(table: string, seen: set<string>, doc: Document)

  const START := State("", {}, Document([], map[], []))

  const END := "\\."

  // ---- lines and fields ----

  /** strings.Split(s, "\t") */
  function Fields(s: string): (fs: seq<string>)
    ensures fs != []
    decreases |s|
  {
    var k := Find(s, '\t');
    if k == |s| then [s] else [s[..k]] + Fields(s[k + 1..])
  }

  function Joined(fs: seq<string>, separator: string): string
    requires fs != []
  {
    if |fs| == 1 then fs[0] else fs[0] + (separator + Joined(fs[1..], separator))
  }

  function NameRun(s: string): (n: nat)
    ensures n <= |s|
  {
    if s == [] || !('a' <= s[0] <= 'z' || s[0] == '_') then 0 else 1 + NameRun(s[1..])
  }

  const OPENING := "COPY public."
  const CLOSING := ") FROM stdin;"

  datatype Header = Header(table: string, columns: string)

  /** copyHeader: the table and the text between the parentheses. */
  function CopyHeader(line: string): Option<Header> {
    if !StartsWith(line, OPENING) then None
    else
      var rest := line[|OPENING|..];
      var n := NameRun(rest);
      if n == 0 || !StartsWith(rest[n..], " (") then None
      else
        var inner := rest[n + 2..];
        var k := Find(inner, ')');
        if k == 0 || inner[k..] != CLOSING then None else Some(Header(rest[..n], inner[..k]))
  }

  // ---- one line ----

  function OpenTable(env: Env, st: State, line: string): Result<State, CopyError> {
    var h := CopyHeader(line);
    if h.None? || h.value.table in st.seen then Err(BadHeader)
    else
      var table := h.value.table;
      var k := env.kind(table);
      if k == Unknown then Err(UnknownTable)
      else if h.value.columns != env.columns(k) then Err(WrongColumns)
      else
        var doc := if k == Data then st.doc.(tables := st.doc.tables[table := []]) else st.doc;
        Ok(State(table, st.seen + {table}, doc))
  }

  function Values(fields: seq<string>): (r: Option<seq<Value>>)
    ensures r.Some? ==> |r.value| == |fields|
  {
    if fields == [] then Some([])
    else
      var v, rest := ReadField(fields[0]), Values(fields[1..]);
      if v.None? || rest.None? then None else Some([v.value] + rest.value)
  }

  function RowsOf(doc: Document, table: string): seq<Record> { if table in doc.tables then doc.tables[table] else [] }

  function AddRow(env: Env, table: string, doc: Document, row: seq<Value>): Result<Document, CopyError>
    requires |row| == Arity(env.kind(table))
  {
    if row[0].None? then Err(NoId)
    else
      match env.kind(table)
      case Migrations => Ok(doc.(migrations := doc.migrations + [row[0].value]))
      case Jobs =>
        if row[4].None? then Err(BadJob)
        else if env.atoi(row[4].value).None? then Err(BadAttempts)
        else Ok(doc.(jobs := doc.jobs + [Job(row, env.atoi(row[4].value).value)]))
      case _ =>
        if row[1].None? || !env.valid(row[1].value) then Err(BadJson)
        else Ok(doc.(tables := doc.tables[table := RowsOf(doc, table) + [Record(row[0].value, row[1].value)]]))
  }

  function ReadRow(env: Env, st: State, line: string): Result<State, CopyError> {
    var fields := Fields(line);
    if |fields| != Arity(env.kind(st.table)) then Err(BadRow)
    else
      var row := Values(fields);
      if row.None? then Err(BadEscape)
      else
        var doc := AddRow(env, st.table, st.doc, row.value);
        if doc.Err? then Err(doc.error) else Ok(st.(doc := doc.value))
  }

  function Step(env: Env, st: State, line: string): Result<State, CopyError> {
    if st.table == "" then
      if StartsWith(line, "COPY ") then OpenTable(env, st, line) else Ok(st)
    else if line == END then Ok(st.(table := ""))
    else ReadRow(env, st, line)
  }

  function Stepper(env: Env): (State, string) -> Result<State, CopyError> {
    (st: State, line: string) => Step(env, st, line)
  }

  function Parse(env: Env, lines: seq<string>): Result<Document, CopyError> {
    var st := Fold(Stepper(env), START, lines);
    if st.Err? then Err(st.error)
    else if st.value.table != "" || st.value.seen == {} then Err(Truncated)
    else Ok(st.value.doc)
  }

  // ---- what pg_dump writes ----

  /** A part of a dump: any other line, or the contents of a table. */
  datatype Part = Noise(line: string) | Table(name: string, rows: seq<seq<Value>>)

  function HeaderLine(name: string, columns: string): string { OPENING + (name + (" (" + (columns + CLOSING))) }

  function RowLine(row: seq<Value>): string
  {
    if row == [] then "" else Joined(Map(Field, row), "\t")
  }

  function PartLines(env: Env, p: Part): seq<string> {
    match p
    case Noise(line) => [line]
    case Table(name, rows) => [HeaderLine(name, env.columns(env.kind(name)))] + (Map(RowLine, rows) + [END])
  }

  predicate RowOk(env: Env, k: Kind, row: seq<Value>) {
    && |row| == Arity(k) && row[0].Some?
    && match k
       case Migrations => true
       case Jobs => row[4].Some? && env.atoi(row[4].value).Some?
       case _ => row[1].Some? && env.valid(row[1].value)
  }

  predicate TableOk(env: Env, name: string, rows: seq<seq<Value>>) {
    && name != "" && NameRun(name) == |name| && env.kind(name) != Unknown
    && env.columns(env.kind(name)) != "" && ')' !in env.columns(env.kind(name))
    && forall row | row in rows :: RowOk(env, env.kind(name), row)
  }

  predicate PartOk(env: Env, p: Part) {
    match p
    case Noise(line) => !StartsWith(line, "COPY ")
    case Table(name, rows) => TableOk(env, name, rows)
  }

  // ---- reading a header back ----

  lemma {:induction false} NameRunStops(name: string, rest: string)
    requires NameRun(name) == |name| && rest != [] && rest[0] == ' '
    ensures NameRun(name + rest) == |name|
  {
    if name == [] {
      assert name + rest == rest;
    } else {
      assert (name + rest)[1..] == name[1..] + rest;
      NameRunStops(name[1..], rest);
    }
  }

  lemma HeaderParts(name: string, columns: string)
    ensures var inner := columns + CLOSING;
            var rest := name + (" (" + inner);
            && StartsWith(HeaderLine(name, columns), OPENING) && HeaderLine(name, columns)[|OPENING|..] == rest
            && rest[..|name|] == name && rest[|name|..] == " (" + inner && rest[|name| + 2..] == inner
            && inner[..|columns|] == columns && inner[|columns|..] == CLOSING
  {
  }

  lemma InnerFound(columns: string)
    requires ')' !in columns
    ensures Find(columns + CLOSING, ')') == |columns|
  {
    FindPast(columns, ')', CLOSING);
  }

  lemma HeaderRead(name: string, columns: string)
    requires name != "" && NameRun(name) == |name| && columns != "" && ')' !in columns
    ensures CopyHeader(HeaderLine(name, columns)) == Some(Header(name, columns))
  {
    HeaderParts(name, columns);
    NameRunStops(name, " (" + (columns + CLOSING));
    InnerFound(columns);
  }

  lemma {:induction false} JoinedLacks(fs: seq<string>, separator: string, c: char)
    requires fs != [] && c !in separator && forall f | f in fs :: c !in f
    ensures c !in Joined(fs, separator)
  {
    if |fs| > 1 {
      JoinedLacks(fs[1..], separator, c);
    }
  }

  lemma ColumnsAreNames(k: Kind, f: string)
    requires f in Columns(k)
    ensures ')' !in f && f != ""
  {
  }

  lemma {:induction false} JoinedNonEmpty(fs: seq<string>, separator: string)
    requires fs != [] && forall f | f in fs :: f != ""
    ensures Joined(fs, separator) != ""
  {
    assert fs[0] in fs;
  }

  /** The columns of the schema are such that their headers can be read. */
  lemma SchemaColumns(k: Kind)
    ensures |Columns(k)| == Arity(k) && ColumnText(k) != "" && ')' !in ColumnText(k)
  {
    forall f | f in Columns(k) ensures ')' !in f && f != "" {
      ColumnsAreNames(k, f);
    }
    JoinedLacks(Columns(k), ", ", ')');
    JoinedNonEmpty(Columns(k), ", ");
  }

  function Opened(env: Env, doc: Document, name: string): Document {
    if env.kind(name) == Data then doc.(tables := doc.tables[name := []]) else doc
  }

  lemma HeaderOpens(name: string, columns: string)
    ensures StartsWith(HeaderLine(name, columns), "COPY ")
  {
    assert OPENING[..5] == "COPY ";
  }

  lemma TableOpens(env: Env, st: State, name: string)
    requires st.table == "" && name !in st.seen && TableOk(env, name, [])
    ensures Step(env, st, HeaderLine(name, env.columns(env.kind(name))))
         == Ok(State(name, st.seen + {name}, Opened(env, st.doc, name)))
  {
    HeaderOpens(name, env.columns(env.kind(name)));
    HeaderRead(name, env.columns(env.kind(name)));
  }

  // ---- reading a row back ----

  lemma FieldsTake(field: string, rest: string)
    requires '\t' !in field
    ensures Fields(field + ("\t" + rest)) == [field] + Fields(rest)
  {
    var s := field + ("\t" + rest);
    FindPast(field, '\t', "\t" + rest);
    assert s[..|field|] == field && s[|field| + 1..] == rest;
  }

  lemma OneField(field: string)
    requires '\t' !in field
    ensures Fields(field) == [field]
  {
    FindPast(field, '\t', "");
    assert field + "" == field;
  }

  lemma {:induction false} FieldsOfJoined(fs: seq<string>)
    requires fs != [] && forall f | f in fs :: '\t' !in f
    ensures Fields(Joined(fs, "\t")) == fs
  {
    assert fs[0] in fs && fs == [fs[0]] + fs[1..];
    if |fs| == 1 {
      OneField(fs[0]);
    } else {
      FieldsOfJoined(fs[1..]);
      FieldsTake(fs[0], Joined(fs[1..], "\t"));
    }
  }

  lemma {:induction false} MapTail<X, Y>(f: X -> Y, xs: seq<X>)
    ensures |Map(f, xs)| == |xs|
    ensures xs != [] ==> Map(f, xs) == [f(xs[0])] + Map(f, xs[1..])
  {
    if |xs| > 1 {
      var n := |xs| - 1;
      MapTail(f, xs[..n]);
      assert xs[..n][1..] == xs[1..][..n - 1];
      MapTail(f, xs[1..]);
    }
  }

  lemma {:induction false} ValuesOfFields(row: seq<Value>)
    ensures Values(Map(Field, row)) == Some(row)
  {
    MapTail(Field, row);
    if row != [] {
      ValuesOfFields(row[1..]);
      FieldRoundTrip(row[0]);
      var fs := Map(Field, row);
      assert fs[1..] == Map(Field, row[1..]);
      assert row == [row[0]] + row[1..];
    }
  }

  lemma FieldHasNoTab(v: Value)
    ensures '\t' !in Field(v)
  {
    if v.Some? {
      EscapeShape(v.value);
    }
  }

  lemma RowFields(row: seq<Value>)
    requires row != []
    ensures Fields(RowLine(row)) == Map(Field, row)
  {
    MapTail(Field, row);
    forall f | f in Map(Field, row) ensures '\t' !in f {
      var v := MapIn(Field, row, f);
      FieldHasNoTab(v);
    }
    FieldsOfJoined(Map(Field, row));
  }

  /** With two columns or more a row has a tab, so it is never taken for the end mark. */
  lemma RowIsNoEnd(row: seq<Value>)
    requires |row| > 1
    ensures RowLine(row) != END
  {
    RowFields(row);
    MapTail(Field, row);
    if RowLine(row) == END {
      OneField(END);
    }
  }

  // ---- what a dump holds ----

  function Cell(row: seq<Value>, i: nat): string { if i < |row| && row[i].Some? then row[i].value else "" }

  function Name(row: seq<Value>): string { Cell(row, 0) }

  function RecordOf(row: seq<Value>): Record { Record(Cell(row, 0), Cell(row, 1)) }

  function Attempts(env: Env, row: seq<Value>): int {
    var n := env.atoi(Cell(row, 4));
    if n.Some? then n.value else 0
  }

  function JobOf(env: Env): seq<Value> -> Job { (row: seq<Value>) => Job(row, Attempts(env, row)) }

  function Loaded(env: Env, doc: Document, name: string, rows: seq<seq<Value>>): Document {
    match env.kind(name)
    case Migrations => doc.(migrations := doc.migrations + Map(Name, rows))
    case Jobs => doc.(jobs := doc.jobs + Map(JobOf(env), rows))
    case _ => doc.(tables := doc.tables[name := Map(RecordOf, rows)])
  }

  function DocOf(env: Env, parts: seq<Part>): Document {
    if parts == [] then START.doc
    else
      var before := DocOf(env, parts[..|parts| - 1]);
      match parts[|parts| - 1]
      case Noise(_) => before
      case Table(name, rows) => Loaded(env, before, name, rows)
  }

  function Names(parts: seq<Part>): set<string> { set p | p in parts && p.Table? :: p.name }

  predicate DumpOk(env: Env, parts: seq<Part>) {
    && (forall p | p in parts :: PartOk(env, p))
    && forall i, j | 0 <= i < j < |parts| && parts[i].Table? && parts[j].Table? :: parts[i].name != parts[j].name
  }

  function PartWriter(env: Env): Part -> seq<string> { (p: Part) => PartLines(env, p) }

  function DumpLines(env: Env, parts: seq<Part>): seq<string> { FlatMap(PartWriter(env), parts) }

  // ---- the round trip ----

  lemma LoadedNext(env: Env, doc: Document, name: string, rows: seq<seq<Value>>, row: seq<Value>)
    requires env.kind(name) != Unknown && RowOk(env, env.kind(name), row)
    ensures AddRow(env, name, Loaded(env, doc, name, rows), row) == Ok(Loaded(env, doc, name, rows + [row]))
  {
    assert (rows + [row])[..|rows|] == rows;
    match env.kind(name)
    case Migrations =>
      assert doc.migrations + Map(Name, rows) + [Name(row)] == doc.migrations + (Map(Name, rows) + [Name(row)]);
    case Jobs =>
      var before, job := Map(JobOf(env), rows), JobOf(env)(row);
      assert job == Job(row, env.atoi(row[4].value).value);
      assert Map(JobOf(env), rows + [row]) == before + [job];
      assert doc.jobs + before + [job] == doc.jobs + (before + [job]);
    case Data =>
      var before, more := Map(RecordOf, rows), Map(RecordOf, rows + [row]);
      assert doc.tables[name := before][name := more] == doc.tables[name := more];
  }

  lemma RowStep(env: Env, st: State, row: seq<Value>, doc: Document)
    requires st.table != "" && RowOk(env, env.kind(st.table), row) && AddRow(env, st.table, st.doc, row) == Ok(doc)
    ensures Step(env, st, RowLine(row)) == Ok(st.(doc := doc))
  {
    RowIsNoEnd(row);
    RowFields(row);
    ValuesOfFields(row);
    MapTail(Field, row);
  }

  lemma OneStep(step: (State, string) -> Result<State, CopyError>, st: State, l: string)
    ensures Fold(step, st, [l]) == step(st, l)
  {
    assert [l][1..] == [];
  }

  ghost predicate RowAdds(env: Env, step: (State, string) -> Result<State, CopyError>, name: string, row: seq<Value>) {
    forall st: State, doc |
        st.table == name && |row| == Arity(env.kind(name)) && AddRow(env, name, st.doc, row) == Ok(doc) ::
      step(st, RowLine(row)) == Ok(st.(doc := doc))
  }

  lemma {:induction false} RowsRead(env: Env, step: (State, string) -> Result<State, CopyError>, st: State,
                                    name: string, doc: Document, rows: seq<seq<Value>>)
    requires TableOk(env, name, rows) && st == State(name, st.seen, Loaded(env, doc, name, []))
    requires forall row | row in rows :: RowAdds(env, step, name, row)
    ensures Fold(step, st, Map(RowLine, rows)) == Ok(st.(doc := Loaded(env, doc, name, rows)))
  {
    if rows != [] {
      var n := |rows| - 1;
      var row := rows[n];
      RowsRead(env, step, st, name, doc, rows[..n]);
      FoldAppended(step, st, Map(RowLine, rows[..n]), [RowLine(row)]);
      assert RowOk(env, env.kind(name), row) && RowAdds(env, step, name, row);
      LoadedNext(env, doc, name, rows[..n], row);
      assert rows[..n] + [row] == rows;
      var mid := st.(doc := Loaded(env, doc, name, rows[..n]));
      OneStep(step, mid, RowLine(row));
    }
  }

  lemma EndRead(env: Env, st: State)
    requires st.table != ""
    ensures Step(env, st, END) == Ok(st.(table := ""))
  {
  }

  lemma RowAddsOk(env: Env, name: string, row: seq<Value>)
    requires name != "" && RowOk(env, env.kind(name), row)
    ensures RowAdds(env, Stepper(env), name, row)
  {
    forall st: State, doc | st.table == name && |row| == Arity(env.kind(name))
      && AddRow(env, name, st.doc, row) == Ok(doc)
      ensures Stepper(env)(st, RowLine(row)) == Ok(st.(doc := doc))
    {
      RowStep(env, st, row, doc);
    }
  }

  lemma OpenedIsLoaded(env: Env, doc: Document, name: string)
    requires env.kind(name) != Unknown
    ensures Loaded(env, doc, name, []) == Opened(env, doc, name)
  {
    assert doc.migrations + [] == doc.migrations && doc.jobs + [] == doc.jobs;
  }

  /** Opening, the rows, the end mark. */
  lemma TableFold(step: (State, string) -> Result<State, CopyError>, st: State, head: string, begun: State,
                  rows: seq<string>, filled: State, end: State)
    requires step(st, head) == Ok(begun) && Fold(step, begun, rows) == Ok(filled) && step(filled, END) == Ok(end)
    ensures Fold(step, st, [head] + (rows + [END])) == Ok(end)
  {
    assert ([head] + (rows + [END]))[1..] == rows + [END];
    FoldAppended(step, begun, rows, [END]);
    OneStep(step, filled, END);
  }

  lemma TableRead(env: Env, st: State, name: string, rows: seq<seq<Value>>)
    requires TableOk(env, name, rows) && st.table == "" && name !in st.seen
    ensures Fold(Stepper(env), st, PartLines(env, Table(name, rows)))
         == Ok(State("", st.seen + {name}, Loaded(env, st.doc, name, rows)))
  {
    var seen := st.seen + {name};
    var begun := State(name, seen, Opened(env, st.doc, name));
    var filled := State(name, seen, Loaded(env, st.doc, name, rows));
    TableOpens(env, st, name);
    OpenedIsLoaded(env, st.doc, name);
    forall row | row in rows ensures RowAdds(env, Stepper(env), name, row) {
      RowAddsOk(env, name, row);
    }
    RowsRead(env, Stepper(env), begun, name, st.doc, rows);
    EndRead(env, filled);
    TableFold(Stepper(env), st, HeaderLine(name, env.columns(env.kind(name))), begun, Map(RowLine, rows), filled,
              filled.(table := ""));
  }

  lemma {:induction false} DumpRead(env: Env, parts: seq<Part>)
    requires DumpOk(env, parts)
    ensures Fold(Stepper(env), START, DumpLines(env, parts)) == Ok(State("", Names(parts), DocOf(env, parts)))
  {
    if parts == [] {
      assert Names(parts) == {};
    } else {
      var n := |parts| - 1;
      var p := parts[n];
      DumpRead(env, parts[..n]);
      var mid := State("", Names(parts[..n]), DocOf(env, parts[..n]));
      FoldAppended(Stepper(env), START, DumpLines(env, parts[..n]), PartLines(env, p));
      assert parts == parts[..n] + [p] && PartOk(env, p);
      match p
      case Noise(line) =>
        OneStep(Stepper(env), mid, line);
        assert Names(parts) == Names(parts[..n]);
      case Table(name, rows) =>
        assert Names(parts) == Names(parts[..n]) + {name};
        TableRead(env, mid, name, rows);
    }
  }

  /** Parsing a printed dump gives back exactly its records, jobs and migrations. */
  lemma DumpRoundTrip(env: Env, parts: seq<Part>)
    requires DumpOk(env, parts) && Names(parts) != {}
    ensures Parse(env, DumpLines(env, parts)) == Ok(DocOf(env, parts))
  {
    DumpRead(env, parts);
  }

  ghost predicate Holds(env: Env, doc: Document, p: Part) {
    p.Table? && env.kind(p.name) == Data ==> p.name in doc.tables && doc.tables[p.name] == Map(RecordOf, p.rows)
  }

  lemma LoadedHolds(env: Env, doc: Document, p: Part, name: string, rows: seq<seq<Value>>)
    requires Holds(env, doc, p) && (p.Table? ==> p.name != name)
    ensures Holds(env, Loaded(env, doc, name, rows), p)
  {
  }

  /** Every data table of the dump is there with its rows. */
  lemma {:induction false} DocHolds(env: Env, parts: seq<Part>, p: Part)
    requires DumpOk(env, parts) && p in parts
    ensures Holds(env, DocOf(env, parts), p)
  {
    var n := |parts| - 1;
    var last := parts[n];
    assert parts == parts[..n] + [last] && PartOk(env, last);
    if p in parts[..n] {
      DocHolds(env, parts[..n], p);
      if last.Table? {
        LoadedHolds(env, DocOf(env, parts[..n]), p, last.name, last.rows);
      }
    }
  }

  /** And no other table is. */
  lemma {:induction false} DocHoldsOnly(env: Env, parts: seq<Part>)
    requires forall p | p in parts :: PartOk(env, p)
    ensures forall name | name in DocOf(env, parts).tables :: name in Names(parts) && env.kind(name) == Data
  {
    if parts != [] {
      var n := |parts| - 1;
      DocHoldsOnly(env, parts[..n]);
      assert parts == parts[..n] + [parts[n]] && PartOk(env, parts[n]);
    }
  }

  // ---- a dump that is cut off ----

  lemma {:induction false} InsideStays(env: Env, st: State, lines: seq<string>)
    requires st.table != "" && END !in lines
    ensures var r := Fold(Stepper(env), st, lines); r.Ok? ==> r.value.table == st.table
    decreases |lines|
  {
    if lines != [] {
      var next := Step(env, st, lines[0]);
      assert lines[0] in lines;
      if next.Ok? {
        InsideStays(env, next.value, lines[1..]);
      }
    }
  }

  /** Whatever came before: once a table is begun and its end mark never follows, the dump is rejected. */
  lemma CutInsideATable(env: Env, before: seq<string>, head: string, rest: seq<string>)
    requires Fold(Stepper(env), START, before).Ok? && Fold(Stepper(env), START, before).value.table == ""
    requires StartsWith(head, "COPY ") && END !in rest
    ensures Parse(env, before + [head] + rest).Err?
  {
    var st := Fold(Stepper(env), START, before).value;
    FoldAppended(Stepper(env), START, before, [head] + rest);
    assert before + [head] + rest == before + ([head] + rest) && ([head] + rest)[1..] == rest;
    var begun := Step(env, st, head);
    if begun.Ok? {
      HeaderNamesTable(env, st, head);
      InsideStays(env, begun.value, rest);
    }
  }

  lemma HeaderNamesTable(env: Env, st: State, head: string)
    requires st.table == "" && StartsWith(head, "COPY ") && Step(env, st, head).Ok?
    ensures Step(env, st, head).value.table != ""
  {
  }

  // ---- what a parsed dump promises ----

  /** Data tables of the schema with valid JSON in every row, and jobs whose attempts are the number that stands
      there. */
  ghost predicate DocOk(env: Env, doc: Document) {
    && (forall t | t in doc.tables ::
          env.kind(t) == Data && forall i | 0 <= i < |doc.tables[t]| :: env.valid(doc.tables[t][i].data))
    && forall i | 0 <= i < |doc.jobs| ::
         var job := doc.jobs[i];
         && |job.values| == 11 && job.values[0].Some? && job.values[4].Some?
         && env.atoi(job.values[4].value) == Some(job.attempts)
  }

  /** The table that is open is one of the schema. */
  ghost predicate StateOk(env: Env, st: State) {
    DocOk(env, st.doc) && (st.table != "" ==> env.kind(st.table) != Unknown)
  }

  lemma RowKeepsOk(env: Env, table: string, doc: Document, row: seq<Value>)
    requires DocOk(env, doc) && env.kind(table) != Unknown && |row| == Arity(env.kind(table))
    ensures AddRow(env, table, doc, row).Ok? ==> DocOk(env, AddRow(env, table, doc, row).value)
  {
    assert forall t | t in doc.tables :: RowsOf(doc, t) == doc.tables[t];
  }

  lemma StepKeepsOk(env: Env, st: State, line: string)
    requires StateOk(env, st)
    ensures Step(env, st, line).Ok? ==> StateOk(env, Step(env, st, line).value)
  {
    if st.table != "" && line != END && |Fields(line)| == Arity(env.kind(st.table)) && Values(Fields(line)).Some? {
      RowKeepsOk(env, st.table, st.doc, Values(Fields(line)).value);
    }
  }

  lemma {:induction false} FoldKeepsOk(env: Env, st: State, lines: seq<string>)
    requires StateOk(env, st)
    ensures var r := Fold(Stepper(env), st, lines); r.Ok? ==> StateOk(env, r.value)
    decreases |lines|
  {
    if lines != [] {
      StepKeepsOk(env, st, lines[0]);
      var next := Stepper(env)(st, lines[0]);
      if next.Ok? {
        FoldKeepsOk(env, next.value, lines[1..]);
      }
    }
  }

  /** Whatever text is accepted: every record is valid JSON in a data table of the schema, and every job is complete
      with attempts that are a number. */
  lemma ParsedIsValid(env: Env, lines: seq<string>)
    requires Parse(env, lines).Ok?
    ensures DocOk(env, Parse(env, lines).value)
  {
    FoldKeepsOk(env, START, lines);
  }

  /** No table comes twice: its second header is refused, whatever stands between. */
  lemma {:induction false} SeenStays(env: Env, st: State, lines: seq<string>, name: string)
    requires name in st.seen
    ensures var r := Fold(Stepper(env), st, lines); r.Ok? ==> name in r.value.seen
    decreases |lines|
  {
    if lines != [] {
      var next := Stepper(env)(st, lines[0]);
      if next.Ok? {
        SeenStays(env, next.value, lines[1..], name);
      }
    }
  }

  lemma TableOnlyOnce(env: Env, before: seq<string>, name: string, columns: string, rest: seq<string>)
    requires Fold(Stepper(env), START, before).Ok? && name in Fold(Stepper(env), START, before).value.seen
    requires Fold(Stepper(env), START, before).value.table == ""
    requires name != "" && NameRun(name) == |name| && columns != "" && ')' !in columns
    ensures Parse(env, before + [HeaderLine(name, columns)] + rest).Err?
  {
    var st, head := Fold(Stepper(env), START, before).value, HeaderLine(name, columns);
    HeaderRead(name, columns);
    HeaderOpens(name, columns);
    assert Step(env, st, head).Err?;
    FoldAppended(Stepper(env), START, before, [head]);
    OneStep(Stepper(env), st, head);
    FoldAppended(Stepper(env), START, before + [head], rest);
  }

  // ---- the text ----

  /** bufio.ScanLines: without the newlines, and without a carriage return before them. */
  function ScanLines(s: string): seq<string>
    decreases |s|
  {
    if s == [] then []
    else
      var k := Find(s, '\n');
      var line := s[..k];
      var text := if line != [] && line[|line| - 1] == '\r' then line[..|line| - 1] else line;
      [text] + (if k == |s| then [] else ScanLines(s[k + 1..]))
  }

  lemma ScanTakes(line: string, rest: string)
    requires OneLine(line)
    ensures ScanLines(line + ("\n" + rest)) == [line] + ScanLines(rest)
  {
    var s := line + ("\n" + rest);
    FindPast(line, '\n', "\n" + rest);
    assert s[..|line|] == line && s[|line| + 1..] == rest;
    assert line != [] ==> line[|line| - 1] in line;
  }

  lemma {:induction false} ScanOfUnlines(ls: seq<string>)
    requires forall l | l in ls :: OneLine(l)
    ensures ScanLines(Unlines(ls)) == ls
  {
    if ls != [] {
      assert ls[0] in ls && ls == [ls[0]] + ls[1..];
      ScanOfUnlines(ls[1..]);
      ScanTakes(ls[0], Unlines(ls[1..]));
    }
  }

  lemma RowIsOneLine(row: seq<Value>)
    ensures OneLine(RowLine(row))
  {
    MapTail(Field, row);
    if row != [] {
      forall f | f in Map(Field, row) ensures '\n' !in f && '\r' !in f {
        var v := MapIn(Field, row, f);
        if v.Some? {
          EscapeShape(v.value);
        }
      }
      JoinedLacks(Map(Field, row), "\t", '\n');
      JoinedLacks(Map(Field, row), "\t", '\r');
    }
  }

  predicate PartOneLine(env: Env, p: Part) {
    match p
    case Noise(line) => OneLine(line)
    case Table(name, _) => OneLine(HeaderLine(name, env.columns(env.kind(name))))
  }

  lemma PartIsOneLine(env: Env, p: Part, l: string)
    requires PartOneLine(env, p) && l in PartLines(env, p)
    ensures OneLine(l)
  {
    if p.Table? && l in Map(RowLine, p.rows) {
      var row := MapIn(RowLine, p.rows, l);
      RowIsOneLine(row);
    }
  }

  /** The round trip down to the text of the dump: no value, whatever its characters, breaks a line or a field. */
  lemma TextRoundTrip(env: Env, parts: seq<Part>)
    requires DumpOk(env, parts) && Names(parts) != {} && forall p | p in parts :: PartOneLine(env, p)
    ensures Parse(env, ScanLines(Unlines(DumpLines(env, parts)))) == Ok(DocOf(env, parts))
  {
    forall l | l in DumpLines(env, parts) ensures OneLine(l) {
      var p := FlatMapIn(PartWriter(env), parts, l);
      PartIsOneLine(env, p, l);
    }
    ScanOfUnlines(DumpLines(env, parts));
    DumpRoundTrip(env, parts);
  }

  // ---- the loops ----

  ghost predicate ReadSoFar(fields: seq<string>, i: nat, values: seq<Value>)
    requires i <= |fields|
  {
    var rest := Values(fields[i..]);
    Values(fields) == if rest.None? then None else Some(values + rest.value)
  }

  lemma ReadNext(fields: seq<string>, i: nat, values: seq<Value>)
    requires i < |fields| && ReadSoFar(fields, i, values)
    ensures var v := ReadField(fields[i]);
            if v.None? then Values(fields) == None else ReadSoFar(fields, i + 1, values + [v.value])
  {
    var v, rest := ReadField(fields[i]), Values(fields[i + 1..]);
    assert fields[i..][1..] == fields[i + 1..];
    if v.Some? && rest.Some? {
      assert values + ([v.value] + rest.value) == values + [v.value] + rest.value;
    }
  }

  method ReadValues(fields: seq<string>) returns (r: Option<seq<Value>>)
    ensures r == Values(fields)
  {
    var values: seq<Value> := [];
    assert fields[0..] == fields;
    assert Values(fields).Some? ==> values + Values(fields).value == Values(fields).value;
    assert ReadSoFar(fields, 0, values);
    for i := 0 to |fields|
      invariant ReadSoFar(fields, i, values)
    {
      ReadNext(fields, i, values);
      if fields[i] == NULL {
        values := values + [None];
        continue;
      }
      var value := CopyValue(fields[i]);
      if value.None? {
        return None;
      }
      values := values + [value];
    }
    assert values + [] == values;
    return Some(values);
  }

  function From(env: Env, st: State, lines: seq<string>, i: nat): Result<State, CopyError>
    requires i <= |lines|
    decreases |lines| - i
  {
    if i == |lines| then Ok(st)
    else
      var next := Step(env, st, lines[i]);
      if next.Err? then next else From(env, next.value, lines, i + 1)
  }

  lemma {:induction false} FromIs(env: Env, st: State, lines: seq<string>, i: nat)
    requires i <= |lines|
    ensures From(env, st, lines, i) == Fold(Stepper(env), st, lines[i..])
    decreases |lines| - i
  {
    if i < |lines| {
      var next := Step(env, st, lines[i]);
      assert lines[i..][1..] == lines[i + 1..];
      if next.Ok? {
        FromIs(env, next.value, lines, i + 1);
      }
    }
  }

  method ParseCopy(env: Env, lines: seq<string>) returns (r: Result<Document, CopyError>)
    ensures r == Parse(env, lines)
  {
    var table, seen: set<string>, doc := "", {}, START.doc;
    ghost var st := START;
    FromIs(env, START, lines, 0);
    assert lines[0..] == lines;
    for i := 0 to |lines|
      invariant st == State(table, seen, doc)
      invariant From(env, START, lines, 0) == From(env, st, lines, i)
    {
      var line := lines[i];
      ghost var next := Step(env, st, line);
      if table == "" {
        if StartsWith(line, "COPY ") {
          var h := CopyHeader(line);
          if h.None? || h.value.table in seen {
            return Err(BadHeader);
          }
          table := h.value.table;
          seen := seen + {table};
          var k := env.kind(table);
          if k == Unknown {
            return Err(UnknownTable);
          }
          if h.value.columns != env.columns(k) {
            return Err(WrongColumns);
          }
          if k == Data {
            doc := doc.(tables := doc.tables[table := []]);
          }
        }
      } else if line == END {
        table := "";
      } else {
        var fields := Fields(line);
        if |fields| != Arity(env.kind(table)) {
          return Err(BadRow);
        }
        var row := ReadValues(fields);
        if row.None? {
          return Err(BadEscape);
        }
        var more := AddRow(env, table, doc, row.value);
        if more.Err? {
          return Err(more.error);
        }
        doc := more.value;
      }
      st := next.value;
    }
    if table != "" || seen == {} {
      return Err(Truncated);
    }
    return Ok(doc);
  }
}
