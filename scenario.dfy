/** The end-to-end case of the repository's test: spec `testformat1` (name, 10, TEXT; valid, 1, BOOLEAN;
    count, 3, INTEGER) and its three data lines. */
module Scenario {
  import opened Base
  import opened PyText
  import opened Files
  import opened Schema
  import opened Records
  import opened Loader

  const TestTypes: seq<Field> := [Some("TEXT"), Some("BOOLEAN"), Some("INTEGER")]

  /** A line laid out as three fields of the given lengths is cut back into exactly those fields. */
  lemma ThreeFields(ws: seq<int>, line: string, a: string, b: string, c: string)
    requires ws == [|a|, |b|, |c|] && line == a + b + c
    ensures RawField(ws, line, 0) == a && RawField(ws, line, 1) == b && RawField(ws, line, 2) == c
  {
    SumStep(ws, 0);
    SumStep(ws, 1);
    assert line[..|a|] == a;
    assert line[|a|..|a| + |b|] == b;
    assert line[|a| + |b|..|a| + |b| + |c|] == c;
  }

  /** Field `i` converts under datatype `dts[i]` to `values[i]`, and every datatype is a supported one. */
  predicate Converts(conv: Conversion, dts: seq<Field>, fields: seq<string>, values: seq<Value>) {
    && |dts| == |fields| == |values|
    && forall i :: 0 <= i < |dts| ==> Supported(dts[i]) && conv(dts[i], fields[i]) == Success(values[i])
  }

  /** Three fields that each convert, under supported datatypes, give their three values and no log line. */
  lemma DecodeThree(conv: Conversion, ws: seq<int>, dts: seq<Field>, line: string, a: string, b: string, c: string, va: Value, vb: Value, vc: Value)
    requires ws == [|a|, |b|, |c|] && line == a + b + c && Converts(conv, dts, [a, b, c], [va, vb, vc])
    ensures DecodeFields(conv, ws, dts, line) == Step(Success([va, vb, vc]), [])
  {
    ThreeFields(ws, line, a, b, c);
    assert conv(dts[0], a) == Success(va) && conv(dts[1], b) == Success(vb) && conv(dts[2], c) == Success(vc);
    FieldsUpToSpec(conv, ws, dts, line, 3);
    FieldsLog(conv, ws, dts, line, 3);
    var r := DecodeFields(conv, ws, dts, line).result;
    assert r.value == [va, vb, vc];
  }

  /** Three fields each converting under a supported datatype convert together. */
  lemma ConvertsThree(conv: Conversion, dts: seq<Field>, fields: seq<string>, values: seq<Value>)
    requires |dts| == |fields| == |values| == 3
    requires Supported(dts[0]) && conv(dts[0], fields[0]) == Success(values[0])
    requires Supported(dts[1]) && conv(dts[1], fields[1]) == Success(values[1])
    requires Supported(dts[2]) && conv(dts[2], fields[2]) == Success(values[2])
    ensures Converts(conv, dts, fields, values)
  {
  }

  /** The test's first column: a name padded on the right converts to the name. */
  lemma CoerceTestName(t: string, k: nat)
    requires t == [] || !IsSpace(t[|t| - 1])
    ensures Supported(TestTypes[0]) && Coerce(TestTypes[0], t + Spaces(k)) == Success(Str(t))
  {
    CoerceText(t + Spaces(k), t, k);
  }

  /** The test's second column: a number converts to whether it is non-zero. */
  lemma CoerceTestFlag(b: int)
    ensures Supported(TestTypes[1]) && Coerce(TestTypes[1], IntToString(b)) == Success(Bool(b != 0))
  {
    ParseIntOfIntToString(b);
    assert TestTypes[1] == Some("BOOLEAN");
  }

  /** The test's third column: a number padded on the left converts to the number. */
  lemma CoerceTestCount(j: nat, n: int)
    ensures Supported(TestTypes[2]) && Coerce(TestTypes[2], Spaces(j) + IntToString(n)) == Success(Int(n))
  {
    CoerceNumber(j, n, 0);
    assert Spaces(j) + IntToString(n) + Spaces(0) == Spaces(j) + IntToString(n);
  }

  /** The three fields of such a line convert, under the test's datatypes, to the name, the flag and the number. */
  lemma ConvertTextBoolInt(t: string, k: nat, b: int, j: nat, n: int)
    requires t == [] || !IsSpace(t[|t| - 1])
    ensures Converts(Coerce, TestTypes, [t + Spaces(k), IntToString(b), Spaces(j) + IntToString(n)], [Str(t), Bool(b != 0), Int(n)])
  {
    CoerceTestName(t, k);
    CoerceTestFlag(b);
    CoerceTestCount(j, n);
    ConvertsThree(Coerce, TestTypes, [t + Spaces(k), IntToString(b), Spaces(j) + IntToString(n)], [Str(t), Bool(b != 0), Int(n)]);
  }

  /** A line made of a padded name, a one-flag number and a left-padded number decodes to
      `(name, flag != 0, number)` with nothing logged. */
  lemma DecodeTextBoolInt(ws: seq<int>, line: string, t: string, k: nat, b: int, j: nat, n: int)
    requires t == [] || !IsSpace(t[|t| - 1])
    requires line == (t + Spaces(k)) + IntToString(b) + (Spaces(j) + IntToString(n))
    requires ws == [|t| + k, |IntToString(b)|, j + |IntToString(n)|]
    ensures DecodeFields(Coerce, ws, TestTypes, line) == Step(Success([Str(t), Bool(b != 0), Int(n)]), [])
  {
    var f0, f1, f2 := t + Spaces(k), IntToString(b), Spaces(j) + IntToString(n);
    ConvertTextBoolInt(t, k, b, j, n);
    DecodeThree(Coerce, ws, TestTypes, line, f0, f1, f2, Str(t), Bool(b != 0), Int(n));
  }

  /** The three lines of the test's data file, each under widths 10, 1 and 3. */
  lemma TestLineFoonyor(line: string)
    requires line == "Foonyor   1  1"
    ensures DecodeFields(Coerce, [10, 1, 3], TestTypes, line) == Step(Success([Str("Foonyor"), Bool(true), Int(1)]), [])
  {
    assert IntToString(1) == "1";
    assert line == ("Foonyor" + Spaces(3)) + IntToString(1) + (Spaces(2) + IntToString(1));
    DecodeTextBoolInt([10, 1, 3], line, "Foonyor", 3, 1, 2, 1);
  }

  lemma TestLineBarzane(line: string)
    requires line == "Barzane   0-12"
    ensures DecodeFields(Coerce, [10, 1, 3], TestTypes, line) == Step(Success([Str("Barzane"), Bool(false), Int(-12)]), [])
  {
    assert IntToString(0) == "0" && IntToString(-12) == "-12";
    assert line == ("Barzane" + Spaces(3)) + IntToString(0) + (Spaces(0) + IntToString(-12));
    DecodeTextBoolInt([10, 1, 3], line, "Barzane", 3, 0, 0, -12);
  }

  lemma TestLineQuuxitude(line: string)
    requires line == "Quuxitude 1103"
    ensures DecodeFields(Coerce, [10, 1, 3], TestTypes, line) == Step(Success([Str("Quuxitude"), Bool(true), Int(103)]), [])
  {
    assert IntToString(1) == "1" && IntToString(103) == "103";
    assert line == ("Quuxitude" + Spaces(1)) + IntToString(1) + (Spaces(0) + IntToString(103));
    DecodeTextBoolInt([10, 1, 3], line, "Quuxitude", 1, 1, 0, 103);
  }

  const TestSpecLines: seq<string> := ["name,10,TEXT", "valid,1,BOOLEAN", "count,3,INTEGER"]

  const TestNames: seq<Field> := [Some("name"), Some("valid"), Some("count")]

  /** A spec line of three plain fields reads as exactly those fields. */
  lemma TestSpecLine(line: string, name: string, width: string, typeName: string)
    requires line == name + "," + width + "," + typeName
    requires ',' !in name && ',' !in width && ',' !in typeName
    requires name != [] && name[0] != ' ' && width != [] && width[0] != ' ' && typeName != [] && typeName[0] != ' '
    ensures line != "" && ParseRow(line) == SpecRow(Some(name), Some(width), Some(typeName))
  {
    ParseRowOfFields(line, name, width, typeName);
  }

  /** Each data row of the test's spec file reads as its column name, width and datatype. */
  lemma TestSpecRow(j: nat)
    requires j < 3
    ensures TestSpecLines[j] != "" && ParseRow(TestSpecLines[j]) == SpecRow(TestNames[j], TestWidths[j], TestTypes[j])
  {
    if j == 0 {
      TestSpecLine("name,10,TEXT", "name", "10", "TEXT");
    } else if j == 1 {
      TestSpecLine("valid,1,BOOLEAN", "valid", "1", "BOOLEAN");
    } else {
      TestSpecLine("count,3,INTEGER", "count", "3", "INTEGER");
    }
  }

  /** The test's spec file reads as one row per data line. */
  lemma TestSpecRows(f: File)
    requires f.lines == [SpecHeader] + TestSpecLines
    ensures |SpecRows(f)| == 3 && forall j :: 0 <= j < 3 ==> SpecRows(f)[j] == SpecRow(TestNames[j], TestWidths[j], TestTypes[j])
  {
    assert f.lines[1..] == TestSpecLines;
    forall j | 0 <= j < 3 ensures TestSpecLines[j] != "" && ParseRow(TestSpecLines[j]) == SpecRow(TestNames[j], TestWidths[j], TestTypes[j]) {
      TestSpecRow(j);
    }
    RowsOfNonBlank(ParseRow, TestSpecLines);
  }

  /** The test's spec file has the expected header and gives the schema the test expects. */
  lemma TestSpecSchema(f: File)
    requires f.lines == [SpecHeader] + TestSpecLines
    ensures HeaderLine(f) == SpecHeader
    ensures SchemaOf(SpecRows(f)) == SpecSchema(TestNames, TestWidths, TestTypes)
  {
    TestSpecRows(f);
    SchemaOfColumns(SpecRows(f), TestNames, TestWidths, TestTypes);
  }

  const TestWidths: seq<Field> := [Some("10"), Some("1"), Some("3")]

  /** Each of the test's widths reads as its number. */
  lemma TestWidthRead(i: nat)
    requires i < 3
    ensures ReadWidth(TestWidths[i]) == Success([10, 1, 3][i])
  {
    if i == 0 {
      assert IntToString(10) == "10";
      ReadWidthOfString(10, "10");
    } else if i == 1 {
      assert IntToString(1) == "1";
      ReadWidthOfString(1, "1");
    } else {
      assert IntToString(3) == "3";
      ReadWidthOfString(3, "3");
    }
  }

  /** The test's widths read as 10, 1 and 3. */
  lemma TestWidthsRead()
    ensures ParseWidths(ReadWidth, TestWidths) == Success([10, 1, 3])
  {
    forall i | 0 <= i < 3 ensures ReadWidth(TestWidths[i]) == Success([10, 1, 3][i]) {
      TestWidthRead(i);
    }
    ParseWidthsOf(ReadWidth, TestWidths, [10, 1, 3]);
  }

  const TestLines: seq<string> := ["Foonyor   1  1", "Barzane   0-12", "Quuxitude 1103"]

  const TestRows: seq<Row> := [[Str("Foonyor"), Bool(true), Int(1)], [Str("Barzane"), Bool(false), Int(-12)], [Str("Quuxitude"), Bool(true), Int(103)]]

  /** Each line of the test's data file is 14 characters long and decodes to its tuple. */
  lemma TestLineDecodes(j: nat)
    requires j < 3
    ensures |TestLines[j]| == 14 && FieldDecoder(Coerce, [10, 1, 3], TestTypes)(TestLines[j]) == Step(Success(TestRows[j]), [])
  {
    if j == 0 {
      TestLineFoonyor(TestLines[0]);
    } else if j == 1 {
      TestLineBarzane(TestLines[1]);
    } else {
      TestLineQuuxitude(TestLines[2]);
    }
  }

  /** The widths of the test's spec add up to the line length 14. */
  lemma TestLineLength()
    ensures Sum([10, 1, 3]) == 14
  {
    var ws := [10, 1, 3];
    SumStep(ws, 0);
    SumStep(ws, 1);
    SumStep(ws, 2);
    assert ws[..0] == [] && ws[..3] == ws;
  }

  /** The test's batch: its one data file decodes, under the test's schema, to the three tuples the test
      expects to find in the database, and nothing is logged. */
  lemma TestBatchRows(fs: FileSystem, name: string, columns: seq<Field>)
    requires IsFile(fs, DataDir, name) && fs[DataDir][name].lines == TestLines
    requires |columns| == 3
    ensures DecodeData(fs, SpecSchema(columns, TestWidths, TestTypes), [name]) == Step(Success(TestRows), [])
  {
    TestWidthsRead();
    TestLineLength();
    forall j | 0 <= j < 3 ensures |TestLines[j]| == 14 && FieldDecoder(Coerce, [10, 1, 3], TestTypes)(TestLines[j]) == Step(Success(TestRows[j]), []) {
      TestLineDecodes(j);
    }
    OneFileClean(FieldDecoder(Coerce, [10, 1, 3], TestTypes), LengthMessage, fs, 14, name, TestRows);
  }

  /** A batch whose valid spec gives `schema` and whose files decode to `rows` makes exactly the one request
      for those rows; the files move to `data/processed` when the database reports success, and otherwise stay. */
  lemma BatchLoads(storage: Storage, st: State, spec: string, files: seq<string>, schema: SpecSchema, rows: seq<Row>)
    requires IsFile(st.fs, SpecDir, spec + SpecExtension) && HeaderLine(st.fs[SpecDir][spec + SpecExtension]) == SpecHeader
    requires SchemaFor(st, spec) == schema && DecodeData(st.fs, schema, files).result == Success(rows)
    ensures var request := LoadRequest(spec, schema.names, rows, schema, CreateTable);
      var e := ProcessFilesSpec(storage, st, spec, files);
      && e.st.loads == st.loads + [request]
      && (storage(st.loads, request).ok && Movable(st.fs, DataDir, DataProcessedDir, files) ==>
            e.result == Success(()) && Relocated(st.fs, DataDir, DataProcessedDir, files, e.st.fs))
      && (!storage(st.loads, request).ok ==> e.result == Success(()) && e.st.fs == st.fs)
  {
    LoadDisposition(storage, st, spec, files);
  }

  /** A single data file can be moved to `data/processed` once that directory exists. */
  lemma OneMovable(fs: FileSystem, name: string)
    requires IsFile(fs, DataDir, name) && DataProcessedDir in fs
    ensures Movable(fs, DataDir, DataProcessedDir, [name])
  {
  }

  /** The test's run of one batch: the spec file holds the test's header and three rows and the batch is the
      test's one data file. Exactly one load request is made, for the spec's table with the test's columns and
      its three tuples; when the database reports success the data file is moved to `data/processed`, and
      otherwise no file moves. */
  lemma TestBatchLoads(storage: Storage, st: State, spec: string, name: string)
    requires IsFile(st.fs, SpecDir, spec + SpecExtension) && st.fs[SpecDir][spec + SpecExtension].lines == [SpecHeader] + TestSpecLines
    requires IsFile(st.fs, DataDir, name) && st.fs[DataDir][name].lines == TestLines
    ensures var request := LoadRequest(spec, TestNames, TestRows, SpecSchema(TestNames, TestWidths, TestTypes), CreateTable);
      var e := ProcessFilesSpec(storage, st, spec, [name]);
      && e.st.loads == st.loads + [request]
      && (storage(st.loads, request).ok && DataProcessedDir in st.fs ==>
            e.result == Success(()) && Relocated(st.fs, DataDir, DataProcessedDir, [name], e.st.fs))
      && (!storage(st.loads, request).ok ==> e.result == Success(()) && e.st.fs == st.fs)
  {
    var schema := SpecSchema(TestNames, TestWidths, TestTypes);
    TestSpecSchema(st.fs[SpecDir][spec + SpecExtension]);
    TestBatchRows(st.fs, name, TestNames);
    if DataProcessedDir in st.fs {
      OneMovable(st.fs, name);
    }
    BatchLoads(storage, st, spec, [name], schema, TestRows);
  }
}
