/** Spec files: the header check and the three parallel lists a valid spec file becomes. */
module Schema {
  import opened Base
  import opened PyText
  import opened Files

  /** The exact first line a spec file must have. */
  const SpecHeader: string := "\"column name\",width,datatype"

  /** A value read by `csv.DictReader`: None where the row has too few fields. */
  type Field = Option<string>

  /** One row of a spec file, under the three column names of the header. */
  datatype SpecRow = SpecRow(name: Field, width: Field, typeName: Field)

  /** The dict `spec_schema`: its lists under "column name", "width" and "datatype". */
  datatype SpecSchema = SpecSchema(names: seq<Field>, widths: seq<Field>, datatypes: seq<Field>) {
    predicate WellShaped() {
      |names| == |widths| == |datatypes|
    }
  }

  /** `readline().rstrip('\n')`: the first line, or "" for an empty file. */
  function HeaderLine(f: File): string {
    if f.lines == [] then "" else f.lines[0]
  }

  /** The `i`-th field of a split row with its leading spaces skipped (`skipinitialspace=True`). */
  function FieldAt(fields: seq<string>, i: nat): Field {
    if i < |fields| then Some(SkipInitialSpaces(fields[i])) else None
  }

  /** A data row of the spec file read under the header's field names; fields past the third are ignored. */
  function ParseRow(line: string): SpecRow {
    var fields := Split(line, ',');
    SpecRow(FieldAt(fields, 0), FieldAt(fields, 1), FieldAt(fields, 2))
  }

  type RowParser = string -> SpecRow

  /** The rows `csv.DictReader` yields for the lines after the header, each read by `parse`: blank lines
      yield none. */
  function RowsOf(parse: RowParser, lines: seq<string>): seq<SpecRow>
    decreases |lines|
  {
    if lines == [] then []
    else
      var last := lines[|lines| - 1];
      RowsOf(parse, lines[..|lines| - 1]) + (if last == "" then [] else [parse(last)])
  }

  function SpecRows(f: File): seq<SpecRow> {
    if f.lines == [] then [] else RowsOf(ParseRow, f.lines[1..])
  }

  /** The schema after appending the rows one by one to three empty lists. */
  function SchemaOf(rows: seq<SpecRow>): SpecSchema
    decreases |rows|
  {
    if rows == [] then SpecSchema([], [], [])
    else
      var s := SchemaOf(rows[..|rows| - 1]);
      var r := rows[|rows| - 1];
      SpecSchema(s.names + [r.name], s.widths + [r.width], s.datatypes + [r.typeName])
  }

  /** Each list gets exactly one entry per spec row, in file order. */
  lemma {:induction false} SchemaShape(rows: seq<SpecRow>)
    ensures var s := SchemaOf(rows);
      && s.WellShaped() && |s.names| == |rows|
      && forall i :: 0 <= i < |rows| ==>
           s.names[i] == rows[i].name && s.widths[i] == rows[i].width && s.datatypes[i] == rows[i].typeName
    decreases |rows|
  {
    if rows != [] {
      SchemaShape(rows[..|rows| - 1]);
    }
  }

  /** Conversely, rows that hold given columns entry by entry give the schema of exactly those columns. */
  lemma SchemaOfColumns(rows: seq<SpecRow>, names: seq<Field>, widths: seq<Field>, types: seq<Field>)
    requires |rows| == |names| == |widths| == |types|
    requires forall i :: 0 <= i < |rows| ==> rows[i] == SpecRow(names[i], widths[i], types[i])
    ensures SchemaOf(rows) == SpecSchema(names, widths, types)
  {
    SchemaShape(rows);
  }

  /** The loop that fills `spec_schema` from the reader's rows. */
  method BuildSchema(rows: seq<SpecRow>) returns (s: SpecSchema)
    ensures s == SchemaOf(rows)
    ensures s.WellShaped() && |s.names| == |rows|
    ensures forall i :: 0 <= i < |rows| ==>
      s.names[i] == rows[i].name && s.widths[i] == rows[i].width && s.datatypes[i] == rows[i].typeName
  {
    s := SpecSchema([], [], []);
    var i := 0;
    while i < |rows|
      invariant 0 <= i <= |rows|
      invariant s == SchemaOf(rows[..i])
    {
      assert rows[..i + 1][..i] == rows[..i];
      var row := rows[i];
      s := SpecSchema(s.names + [row.name], s.widths + [row.width], s.datatypes + [row.typeName]);
      i := i + 1;
    }
    assert rows[..i] == rows;
    SchemaShape(rows);
  }

  /** A row written as three comma-free fields that do not start with a space reads back as those fields. */
  lemma ParseRowOfFields(line: string, name: string, width: string, typeName: string)
    requires line == name + "," + width + "," + typeName
    requires ',' !in name && ',' !in width && ',' !in typeName
    requires (name == [] || name[0] != ' ') && (width == [] || width[0] != ' ') && (typeName == [] || typeName[0] != ' ')
    ensures ParseRow(line) == SpecRow(Some(name), Some(width), Some(typeName))
  {
    var parts := [name, width, typeName];
    assert Join(parts, ',') == line by {
      assert parts[..2][..1] == [name];
      assert Join(parts[..2], ',') == name + [','] + width;
    }
    SplitOfJoin(parts, ',');
    FieldAtUnpadded(parts, 0);
    FieldAtUnpadded(parts, 1);
    FieldAtUnpadded(parts, 2);
  }

  lemma FieldAtUnpadded(fields: seq<string>, i: nat)
    requires i < |fields| && (fields[i] == [] || fields[i][0] != ' ')
    ensures FieldAt(fields, i) == Some(fields[i])
  {
  }

  /** Without blank lines, the reader yields one row per line after the header, in file order. */
  lemma {:induction false} RowsOfNonBlank(parse: RowParser, lines: seq<string>)
    requires forall i :: 0 <= i < |lines| ==> lines[i] != ""
    ensures |RowsOf(parse, lines)| == |lines|
    ensures forall i :: 0 <= i < |lines| ==> RowsOf(parse, lines)[i] == parse(lines[i])
    decreases |lines|
  {
    if lines != [] {
      var init, last := lines[..|lines| - 1], lines[|lines| - 1];
      assert forall i :: 0 <= i < |init| ==> init[i] == lines[i];
      RowsOfNonBlank(parse, init);
      assert last != "" && RowsOf(parse, lines) == RowsOf(parse, init) + [parse(last)];
    }
  }

  /** Blank lines are skipped: the rows are those of the lines that are not blank. */
  lemma {:induction false} RowsOfBlank(parse: RowParser, a: seq<string>, b: seq<string>)
    ensures RowsOf(parse, a + [""] + b) == RowsOf(parse, a + b)
    decreases |b|
  {
    if b == [] {
      assert a + [""] + b == a + [""] && (a + [""])[..|a|] == a && a + b == a;
    } else {
      var init := b[..|b| - 1];
      RowsOfBlank(parse, a, init);
      assert (a + [""] + b)[..|a + [""] + b| - 1] == a + [""] + init;
      assert (a + b)[..|a + b| - 1] == a + init;
    }
  }
}
