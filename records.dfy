/** Fixed-width data files: each line cut into fields by the schema's widths, each field converted by its datatype. */
module Records {
  import opened Base
  import opened PyText
  import opened Files
  import opened Schema

  /** The Python values a field becomes: `str`, `bool` or `int`. */
  datatype Value = Str(s: string) | Bool(b: bool) | Int(n: int)

  /** One parsed line, the tuple handed to the database. */
  type Row = seq<Value>

  /** What a step computed, or the exception that ended it, with the log lines it appended meanwhile. */
  datatype Step<T> = Step(result: Result<T, Error>, log: seq<string>)

  const UnsupportedMessage: string := "Unsupported datatype"

  predicate Supported(dt: Field) {
    dt == Some("TEXT") || dt == Some("BOOLEAN") || dt == Some("INTEGER")
  }

  predicate Numeric(dt: Field) {
    dt == Some("BOOLEAN") || dt == Some("INTEGER")
  }

  /** The conversion of one sliced field by its datatype. */
  function Coerce(dt: Field, raw: string): Result<Value, Error> {
    if dt == Some("TEXT") then Success(Str(RStrip(raw)))
    else if dt == Some("BOOLEAN") then
      match ParseInt(raw)
      case None => Failure(InvalidLiteral(raw))
      case Some(n) => Success(Bool(n != 0))
    else if dt == Some("INTEGER") then
      match ParseInt(raw)
      case None => Failure(InvalidLiteral(raw))
      case Some(n) => Success(Int(n))
    else Success(Str(raw))
  }

  /** What converting a field appends to the log: one message for a datatype it does not know. */
  function CoerceLog(dt: Field): seq<string> {
    if Supported(dt) then [] else [UnsupportedMessage]
  }

  /** Only BOOLEAN and INTEGER can fail, with the ValueError of `int()`, exactly on a field `int()` rejects;
      an unknown datatype keeps the field as it is. */
  lemma CoerceFails(dt: Field, raw: string)
    ensures Coerce(dt, raw).Failure? <==> Numeric(dt) && ParseInt(raw).None?
    ensures Coerce(dt, raw).Failure? ==> Coerce(dt, raw).error == InvalidLiteral(raw)
    ensures !Supported(dt) ==> Coerce(dt, raw) == Success(Str(raw))
  {
  }

  /** TEXT keeps the field up to its trailing whitespace; padding behind a value is removed and nothing else. */
  lemma CoerceText(raw: string, t: string, k: nat)
    requires t == [] || !IsSpace(t[|t| - 1])
    ensures var r := Coerce(Some("TEXT"), raw);
      && r.Success? && r.value.Str? && raw == r.value.s + raw[|r.value.s|..]
      && (forall i :: |r.value.s| <= i < |raw| ==> IsSpace(raw[i]))
      && (r.value.s == [] || !IsSpace(r.value.s[|r.value.s| - 1]))
    ensures Coerce(Some("TEXT"), t + Spaces(k)) == Success(Str(t))
  {
    var s := RStrip(raw);
    assert raw == s + raw[|s|..];
    RStripPadding(t, k);
  }

  /** INTEGER and BOOLEAN read a number padded with spaces on either side; BOOLEAN is true exactly when it is not 0. */
  lemma CoerceNumber(k: nat, n: int, j: nat)
    ensures Coerce(Some("INTEGER"), Spaces(k) + IntToString(n) + Spaces(j)) == Success(Int(n))
    ensures Coerce(Some("BOOLEAN"), Spaces(k) + IntToString(n) + Spaces(j)) == Success(Bool(n != 0))
  {
    ParseIntOfPadded(k, n, j);
  }

  /** `int(w)` for one width of the spec: a missing width is a TypeError, text that is not an integer
      literal a ValueError. */
  function ReadWidth(w: Field): Result<int, Error> {
    if w.None? then Failure(NoneNotInt)
    else match ParseInt(w.value)
      case None => Failure(InvalidLiteral(w.value))
      case Some(n) => Success(n)
  }

  /** A width reads as the number it spells, whatever spaces surround it; anything else raises. */
  lemma ReadWidthSpec(w: Field, k: nat, n: int, j: nat)
    ensures ReadWidth(w).Success? <==> w.Some? && ParseInt(w.value).Some?
    ensures ReadWidth(None) == Failure(NoneNotInt)
    ensures w.Some? && ParseInt(w.value).None? ==> ReadWidth(w) == Failure(InvalidLiteral(w.value))
    ensures ReadWidth(Some(Spaces(k) + IntToString(n) + Spaces(j))) == Success(n)
  {
    ParseIntOfPadded(k, n, j);
  }

  /** A width written as `str(n)` reads as `n`. */
  lemma ReadWidthOfString(n: int, text: string)
    requires text == IntToString(n)
    ensures ReadWidth(Some(text)) == Success(n)
  {
    ReadWidthSpec(None, 0, n, 0);
    assert Spaces(0) + text + Spaces(0) == text;
  }

  type WidthReader = Field -> Result<int, Error>

  /** Each width read in order, until the first that fails. */
  function ParseWidths(read: WidthReader, widths: seq<Field>): (r: Result<seq<int>, Error>)
    ensures r.Success? ==> |r.value| == |widths|
    decreases |widths|
  {
    if widths == [] then Success([])
    else match read(widths[0])
      case Failure(e) => Failure(e)
      case Success(n) =>
        match ParseWidths(read, widths[1..])
        case Failure(e) => Failure(e)
        case Success(rest) => Success([n] + rest)
  }

  /** When the widths are read, every one was read, and the list holds what each read to. */
  lemma {:induction false} ParseWidthsValues(read: WidthReader, widths: seq<Field>)
    requires ParseWidths(read, widths).Success?
    ensures forall i :: 0 <= i < |widths| ==> read(widths[i]) == Success(ParseWidths(read, widths).value[i])
    decreases |widths|
  {
    if widths != [] {
      var tail := widths[1..];
      ParseWidthsValues(read, tail);
      var r, rest := ParseWidths(read, widths).value, ParseWidths(read, tail).value;
      assert r == [read(widths[0]).value] + rest;
      forall i | 1 <= i < |widths| ensures read(widths[i]) == Success(r[i]) {
        assert widths[i] == tail[i - 1] && r[i] == rest[i - 1];
      }
    }
  }

  /** Conversely, widths that each read to a value give the list of those values. */
  lemma {:induction false} ParseWidthsOf(read: WidthReader, widths: seq<Field>, values: seq<int>)
    requires |widths| == |values| && forall i :: 0 <= i < |widths| ==> read(widths[i]) == Success(values[i])
    ensures ParseWidths(read, widths) == Success(values)
    decreases |widths|
  {
    if widths != [] {
      var tail, rest := widths[1..], values[1..];
      assert forall i :: 0 <= i < |tail| ==> tail[i] == widths[i + 1] && rest[i] == values[i + 1];
      ParseWidthsOf(read, tail, rest);
      assert read(widths[0]) == Success(values[0]);
      assert values == [values[0]] + rest;
    }
  }

  /** When every width can be read, the widths are read. */
  lemma {:induction false} ParseWidthsReads(read: WidthReader, widths: seq<Field>)
    requires forall i :: 0 <= i < |widths| ==> read(widths[i]).Success?
    ensures ParseWidths(read, widths).Success?
    decreases |widths|
  {
    if widths != [] {
      var tail := widths[1..];
      assert forall i :: 0 <= i < |tail| ==> tail[i] == widths[i + 1];
      ParseWidthsReads(read, tail);
      assert read(widths[0]).Success?;
    }
  }

  /** The exception is the one for the first width that cannot be read. */
  lemma {:induction false} ParseWidthsFirstError(read: WidthReader, widths: seq<Field>, i: nat)
    requires i < |widths| && read(widths[i]).Failure? && forall j :: 0 <= j < i ==> read(widths[j]).Success?
    ensures ParseWidths(read, widths) == Failure(read(widths[i]).error)
    decreases i
  {
    if i > 0 {
      assert read(widths[0]).Success?;
      ParseWidthsFirstError(read, widths[1..], i - 1);
    }
  }

  function Sum(ws: seq<int>): int
    decreases |ws|
  {
    if ws == [] then 0 else Sum(ws[..|ws| - 1]) + ws[|ws| - 1]
  }

  lemma SumStep(ws: seq<int>, i: nat)
    requires i < |ws|
    ensures Sum(ws[..i + 1]) == Sum(ws[..i]) + ws[i]
  {
    assert ws[..i + 1][..i] == ws[..i];
  }

  /** `line[pointer:pointer + width]` for field `i`, the pointer having passed the widths before it. */
  function RawField(ws: seq<int>, line: string, i: nat): string
    requires i < |ws|
  {
    PySlice(line, Sum(ws[..i]), Sum(ws[..i]) + ws[i])
  }

  /** How one field's slice becomes a value: the decoding loops below are stated for any such conversion,
      and the loader uses `Coerce`. */
  type Conversion = (Field, string) -> Result<Value, Error>

  /** The first `k` fields of a line converted, left to right, until one conversion fails. */
  function FieldsUpTo(conv: Conversion, ws: seq<int>, dts: seq<Field>, line: string, k: nat): Step<Row>
    requires |dts| == |ws| && k <= |ws|
    decreases k
  {
    if k == 0 then Step(Success([]), [])
    else
      var prev := FieldsUpTo(conv, ws, dts, line, k - 1);
      if prev.result.Failure? then prev
      else match conv(dts[k - 1], RawField(ws, line, k - 1))
        case Failure(e) => Step(Failure(e), prev.log)
        case Success(v) => Step(Success(prev.result.value + [v]), prev.log + CoerceLog(dts[k - 1]))
  }

  function DecodeFields(conv: Conversion, ws: seq<int>, dts: seq<Field>, line: string): Step<Row>
    requires |dts| == |ws|
  {
    FieldsUpTo(conv, ws, dts, line, |ws|)
  }

  /** A line yields a tuple exactly when every field converts; field `i` of the tuple is field `i` of the line
      converted by datatype `i`. */
  lemma {:induction false} FieldsUpToSpec(conv: Conversion, ws: seq<int>, dts: seq<Field>, line: string, k: nat)
    requires |dts| == |ws| && k <= |ws|
    ensures var f := FieldsUpTo(conv, ws, dts, line, k);
      && (f.result.Success? <==> forall i :: 0 <= i < k ==> conv(dts[i], RawField(ws, line, i)).Success?)
      && (f.result.Success? ==> |f.result.value| == k)
      && (f.result.Success? ==> forall i :: 0 <= i < k ==> f.result.value[i] == conv(dts[i], RawField(ws, line, i)).value)
    decreases k
  {
    if k > 0 {
      FieldsUpToSpec(conv, ws, dts, line, k - 1);
      var prev := FieldsUpTo(conv, ws, dts, line, k - 1);
      var c := conv(dts[k - 1], RawField(ws, line, k - 1));
      if prev.result.Success? && c.Success? {
        var row := prev.result.value + [c.value];
        assert FieldsUpTo(conv, ws, dts, line, k).result == Success(row);
        assert forall i :: 0 <= i < k - 1 ==> row[i] == prev.result.value[i];
      }
    }
  }

  /** Once a field raises, the rest of the line is not looked at. */
  lemma {:induction false} FieldsAbort(conv: Conversion, ws: seq<int>, dts: seq<Field>, line: string, k: nat, n: nat)
    requires |dts| == |ws| && k <= n <= |ws| && FieldsUpTo(conv, ws, dts, line, k).result.Failure?
    ensures FieldsUpTo(conv, ws, dts, line, n) == FieldsUpTo(conv, ws, dts, line, k)
    decreases n - k
  {
    if n > k {
      FieldsAbort(conv, ws, dts, line, k, n - 1);
    }
  }

  /** The exception that ends a line is the one its first failing field raises. */
  lemma {:induction false} FieldsUpToFirstError(conv: Conversion, ws: seq<int>, dts: seq<Field>, line: string, i: nat, k: nat)
    requires |dts| == |ws| && i < k <= |ws|
    requires forall j :: 0 <= j < i ==> conv(dts[j], RawField(ws, line, j)).Success?
    requires conv(dts[i], RawField(ws, line, i)).Failure?
    ensures FieldsUpTo(conv, ws, dts, line, k).result == Failure(conv(dts[i], RawField(ws, line, i)).error)
    decreases k
  {
    if k - 1 > i {
      FieldsUpToFirstError(conv, ws, dts, line, i, k - 1);
    } else {
      FieldsUpToSpec(conv, ws, dts, line, k - 1);
    }
  }

  /** `int()` accepts the field wherever the datatype calls for it. */
  predicate FieldReads(dt: Field, raw: string) {
    !Numeric(dt) || ParseInt(raw).Some?
  }

  /** Every one of the first `k` fields that needs `int()` is accepted by it. */
  predicate AllRead(ws: seq<int>, dts: seq<Field>, line: string, k: nat)
    requires |dts| == |ws| && k <= |ws|
  {
    forall j :: 0 <= j < k ==> FieldReads(dts[j], RawField(ws, line, j))
  }

  /** With the loader's conversion a line yields a tuple exactly when every BOOLEAN and INTEGER field is an
      integer literal, and then value `i` is field `i` converted. */
  lemma DecodeFieldsCoerce(ws: seq<int>, dts: seq<Field>, line: string)
    requires |dts| == |ws|
    ensures var r := DecodeFields(Coerce, ws, dts, line).result;
      && (r.Success? <==> AllRead(ws, dts, line, |ws|))
      && (r.Success? ==> |r.value| == |ws| && forall i :: 0 <= i < |ws| ==> Success(r.value[i]) == Coerce(dts[i], RawField(ws, line, i)))
  {
    FieldsUpToSpec(Coerce, ws, dts, line, |ws|);
    forall i | 0 <= i < |ws| ensures Coerce(dts[i], RawField(ws, line, i)).Success? <==> FieldReads(dts[i], RawField(ws, line, i)) {
      CoerceFails(dts[i], RawField(ws, line, i));
    }
  }

  /** Otherwise the line raises the ValueError of its first field that `int()` rejects. */
  lemma DecodeFieldsCoerceError(ws: seq<int>, dts: seq<Field>, line: string, i: nat)
    requires |dts| == |ws| && i < |ws|
    requires AllRead(ws, dts, line, i) && !FieldReads(dts[i], RawField(ws, line, i))
    ensures DecodeFields(Coerce, ws, dts, line).result == Failure(InvalidLiteral(RawField(ws, line, i)))
  {
    forall j | 0 <= j < i ensures Coerce(dts[j], RawField(ws, line, j)).Success? {
      CoerceFails(dts[j], RawField(ws, line, j));
    }
    CoerceFails(dts[i], RawField(ws, line, i));
    FieldsUpToFirstError(Coerce, ws, dts, line, i, |ws|);
  }

  predicate OnlyUnsupported(log: seq<string>) {
    forall j :: 0 <= j < |log| ==> log[j] == UnsupportedMessage
  }

  /** How many of the first `k` datatypes are none of TEXT, BOOLEAN and INTEGER. */
  function UnsupportedCount(dts: seq<Field>, k: nat): nat
    requires k <= |dts|
    decreases k
  {
    if k == 0 then 0 else UnsupportedCount(dts, k - 1) + (if Supported(dts[k - 1]) then 0 else 1)
  }

  /** `n` copies of one log line. */
  function Repeat(line: string, n: nat): (r: seq<string>)
    ensures |r| == n && forall j :: 0 <= j < n ==> r[j] == line
    decreases n
  {
    if n == 0 then [] else Repeat(line, n - 1) + [line]
  }

  /** A line's fields log one unsupported-datatype message for each field of an unknown datatype they
      convert, and nothing else: a line that converts logs exactly one message per such field, and none
      when every datatype is supported. */
  lemma {:induction false} FieldsLog(conv: Conversion, ws: seq<int>, dts: seq<Field>, line: string, k: nat)
    requires |dts| == |ws| && k <= |ws|
    ensures OnlyUnsupported(FieldsUpTo(conv, ws, dts, line, k).log)
    ensures |FieldsUpTo(conv, ws, dts, line, k).log| <= UnsupportedCount(dts, k)
    ensures FieldsUpTo(conv, ws, dts, line, k).result.Success? ==>
      FieldsUpTo(conv, ws, dts, line, k).log == Repeat(UnsupportedMessage, UnsupportedCount(dts, k))
    ensures (forall i :: 0 <= i < k ==> Supported(dts[i])) ==> FieldsUpTo(conv, ws, dts, line, k).log == []
    decreases k
  {
    if k > 0 {
      FieldsLog(conv, ws, dts, line, k - 1);
      var prev := FieldsUpTo(conv, ws, dts, line, k - 1).log;
      var extra := CoerceLog(dts[k - 1]);
      assert OnlyUnsupported(prev + extra) by {
        forall j | 0 <= j < |prev + extra| ensures (prev + extra)[j] == UnsupportedMessage {
          if j < |prev| {
            assert (prev + extra)[j] == prev[j];
          } else {
            assert (prev + extra)[j] == extra[j - |prev|];
          }
        }
      }
    }
  }

  /** A single field of an unknown datatype passes through untouched and logs the message once. */
  lemma UnsupportedFieldKept(w: int, dt: Field, line: string)
    requires !Supported(dt)
    ensures DecodeFields(Coerce, [w], [dt], line) == Step(Success([Str(RawField([w], line, 0))]), [UnsupportedMessage])
  {
    var raw := RawField([w], line, 0);
    CoerceFails(dt, raw);
    var none := FieldsUpTo(Coerce, [w], [dt], line, 0);
    assert none == Step(Success([]), []);
    assert CoerceLog(dt) == [UnsupportedMessage];
    assert FieldsUpTo(Coerce, [w], [dt], line, 1) == Step(Success([] + [Str(raw)]), [] + [UnsupportedMessage]);
    assert DecodeFields(Coerce, [w], [dt], line) == FieldsUpTo(Coerce, [w], [dt], line, |[w]|);
    assert [] + [Str(raw)] == [Str(raw)] && [] + [UnsupportedMessage] == [UnsupportedMessage];
  }

  /** The fields laid end to end, as far as `k`. */
  function Tiles(ws: seq<int>, line: string, k: nat): string
    requires k <= |ws|
    decreases k
  {
    if k == 0 then [] else Tiles(ws, line, k - 1) + RawField(ws, line, k - 1)
  }

  predicate NonNegative(ws: seq<int>) {
    forall i :: 0 <= i < |ws| ==> ws[i] >= 0
  }

  /** With non-negative widths the pointer only moves forward and never passes their total. */
  lemma {:induction false} SumPrefixBounds(ws: seq<int>, k: nat)
    requires k <= |ws| && NonNegative(ws)
    ensures 0 <= Sum(ws[..k]) <= Sum(ws)
    decreases |ws| - k
  {
    if k == |ws| {
      assert ws[..k] == ws;
      SumPrefixNonNegative(ws, k);
    } else {
      SumPrefixBounds(ws, k + 1);
      SumStep(ws, k);
      SumPrefixNonNegative(ws, k);
    }
  }

  lemma {:induction false} SumPrefixNonNegative(ws: seq<int>, k: nat)
    requires k <= |ws| && NonNegative(ws)
    ensures Sum(ws[..k]) >= 0
    decreases k
  {
    if k > 0 {
      SumStep(ws, k - 1);
      SumPrefixNonNegative(ws, k - 1);
    }
  }

  /** With non-negative widths and a line of exactly their total length, field `i` is the stretch of the line
      between the sums of the widths before it and up to it: no clamping happens. */
  lemma RawFieldWithin(ws: seq<int>, line: string, i: nat)
    requires i < |ws| && NonNegative(ws) && |line| == Sum(ws)
    ensures 0 <= Sum(ws[..i]) <= Sum(ws[..i + 1]) <= |line|
    ensures RawField(ws, line, i) == line[Sum(ws[..i])..Sum(ws[..i + 1])]
  {
    SumStep(ws, i);
    SumPrefixBounds(ws, i);
    SumPrefixBounds(ws, i + 1);
  }

  /** Under the same conditions the fields laid end to end give back the line. */
  lemma {:induction false} FieldsTileLine(ws: seq<int>, line: string, k: nat)
    requires k <= |ws| && NonNegative(ws) && |line| == Sum(ws)
    ensures 0 <= Sum(ws[..k]) <= |line|
    ensures Tiles(ws, line, k) == line[..Sum(ws[..k])]
    decreases k
  {
    SumPrefixBounds(ws, k);
    if k > 0 {
      FieldsTileLine(ws, line, k - 1);
      RawFieldWithin(ws, line, k - 1);
      var p, q := Sum(ws[..k - 1]), Sum(ws[..k]);
      assert line[..q] == line[..p] + line[p..q];
    }
  }

  /** How a line of the wrong length is reported, given its length and the file's name: the decoding loops
      below are stated for any such report, and the loader uses `LengthMessage`. */
  type LengthReport = (nat, string) -> string

  function LengthMessage(length: nat, name: string): string {
    "Invalid line length (" + NatToString(length) + ") in data file: " + name
  }

  /** How one data line becomes a tuple and the log lines written for it. */
  type LineDecoder = string -> Step<Row>

  /** The field loop of `_process_data_files` for fixed widths and datatypes. */
  function FieldDecoder(conv: Conversion, ws: seq<int>, dts: seq<Field>): LineDecoder
    requires |dts| == |ws|
  {
    line => DecodeFields(conv, ws, dts, line)
  }

  /** One data line: a wrong length is reported, and the line is decoded all the same. */
  function DecodeLine(decode: LineDecoder, report: LengthReport, expected: int, name: string, line: string): Step<Row> {
    var f := decode(line);
    Step(f.result, (if |line| != expected then [report(|line|, name)] else []) + f.log)
  }

  /** A length mismatch only adds a log line: the tuple is the same whatever length was expected. */
  lemma LengthOnlyLogged(decode: LineDecoder, report: LengthReport, expected: int, other: int, name: string, line: string)
    ensures DecodeLine(decode, report, expected, name, line).result == DecodeLine(decode, report, other, name, line).result
    ensures |line| != expected ==> DecodeLine(decode, report, expected, name, line).log == [report(|line|, name)] + decode(line).log
    ensures |line| == expected ==> DecodeLine(decode, report, expected, name, line).log == decode(line).log
  {
  }

  /** The first `k` lines of one file decoded in order, until a field fails to convert. */
  function LinesUpTo(decode: LineDecoder, report: LengthReport, expected: int, name: string, lines: seq<string>, k: nat): Step<seq<Row>>
    requires k <= |lines|
    decreases k
  {
    if k == 0 then Step(Success([]), [])
    else
      var prev := LinesUpTo(decode, report, expected, name, lines, k - 1);
      if prev.result.Failure? then prev
      else
        var d := DecodeLine(decode, report, expected, name, lines[k - 1]);
        Step(if d.result.Failure? then Failure(d.result.error) else Success(prev.result.value + [d.result.value]), prev.log + d.log)
  }

  /** Once a line raises, the later lines are not read. */
  lemma {:induction false} LinesAbort(decode: LineDecoder, report: LengthReport, expected: int, name: string, lines: seq<string>, k: nat, n: nat)
    requires k <= n <= |lines| && LinesUpTo(decode, report, expected, name, lines, k).result.Failure?
    ensures LinesUpTo(decode, report, expected, name, lines, n) == LinesUpTo(decode, report, expected, name, lines, k)
    decreases n - k
  {
    if n > k {
      LinesAbort(decode, report, expected, name, lines, k, n - 1);
    }
  }

  /** Every line decodes without a conversion error. */
  predicate AllDecode(decode: LineDecoder, lines: seq<string>) {
    forall j :: 0 <= j < |lines| ==> decode(lines[j]).result.Success?
  }

  /** `rows` holds one tuple per line, the tuple that line decodes to. */
  predicate RowsMatch(decode: LineDecoder, rows: seq<Row>, lines: seq<string>) {
    |rows| == |lines| && forall j :: 0 <= j < |rows| ==> decode(lines[j]).result == Success(rows[j])
  }

  /** One tuple per line, in line order, when every line decodes; otherwise the first failure is the result. */
  lemma {:induction false} LinesUpToSpec(decode: LineDecoder, report: LengthReport, expected: int, name: string, lines: seq<string>, k: nat)
    requires k <= |lines|
    ensures var d := LinesUpTo(decode, report, expected, name, lines, k);
      && (d.result.Success? <==> AllDecode(decode, lines[..k]))
      && (d.result.Success? ==> RowsMatch(decode, d.result.value, lines[..k]))
    decreases k
  {
    if k > 0 {
      LinesUpToSpec(decode, report, expected, name, lines, k - 1);
      var prev := LinesUpTo(decode, report, expected, name, lines, k - 1);
      var d := DecodeLine(decode, report, expected, name, lines[k - 1]);
      var init := lines[..k - 1];
      assert lines[..k] == init + [lines[k - 1]];
      if prev.result.Success? && d.result.Success? {
        var rows := prev.result.value + [d.result.value];
        forall j | 0 <= j < k ensures decode(lines[..k][j]).result == Success(rows[j]) {
          if j < k - 1 { assert lines[..k][j] == init[j]; }
        }
      } else if prev.result.Success? {
        assert !decode(lines[..k][k - 1]).result.Success?;
      } else {
        assert !AllDecode(decode, init);
        var j :| 0 <= j < |init| && !decode(init[j]).result.Success?;
        assert lines[..k][j] == init[j];
      }
    }
  }

  /** Lines of the expected length that decode without logging give their tuples in order and no log line. */
  lemma {:induction false} LinesClean(decode: LineDecoder, report: LengthReport, expected: int, name: string, lines: seq<string>, rows: seq<Row>, k: nat)
    requires k <= |lines| == |rows|
    requires forall j :: 0 <= j < k ==> |lines[j]| == expected && decode(lines[j]) == Step(Success(rows[j]), [])
    ensures LinesUpTo(decode, report, expected, name, lines, k) == Step(Success(rows[..k]), [])
    decreases k
  {
    if k > 0 {
      LinesClean(decode, report, expected, name, lines, rows, k - 1);
      PrefixStep(rows, k - 1);
    }
  }

  /** The lines of the first `k` data files, one after the other. */
  function AllLines(fs: FileSystem, names: seq<string>, k: nat): seq<string>
    requires k <= |names| && forall i :: 0 <= i < k ==> IsFile(fs, DataDir, names[i])
    decreases k
  {
    if k == 0 then []
    else
      assert IsFile(fs, DataDir, names[k - 1]);
      AllLines(fs, names, k - 1) + fs[DataDir][names[k - 1]].lines
  }

  /** The first `k` data files decoded in order, until one is missing or a field fails to convert. */
  function FilesUpTo(decode: LineDecoder, report: LengthReport, fs: FileSystem, expected: int, names: seq<string>, k: nat): Step<seq<Row>>
    requires k <= |names|
    decreases k
  {
    if k == 0 then Step(Success([]), [])
    else
      var prev := FilesUpTo(decode, report, fs, expected, names, k - 1);
      if prev.result.Failure? then prev
      else match Lookup(fs, DataDir, names[k - 1])
        case None => Step(Failure(FileNotFound(PathOf(DataDir, names[k - 1]))), prev.log)
        case Some(file) =>
          var d := LinesUpTo(decode, report, expected, names[k - 1], file.lines, |file.lines|);
          Step(if d.result.Failure? then Failure(d.result.error) else Success(prev.result.value + d.result.value), prev.log + d.log)
  }

  /** A batch of one file whose lines all decode cleanly gives that file's tuples and logs nothing. */
  lemma OneFileClean(decode: LineDecoder, report: LengthReport, fs: FileSystem, expected: int, name: string, rows: seq<Row>)
    requires IsFile(fs, DataDir, name)
    requires var lines := fs[DataDir][name].lines;
      |lines| == |rows| && forall j :: 0 <= j < |lines| ==> |lines[j]| == expected && decode(lines[j]) == Step(Success(rows[j]), [])
    ensures FilesUpTo(decode, report, fs, expected, [name], 1) == Step(Success(rows), [])
  {
    var lines := fs[DataDir][name].lines;
    LinesClean(decode, report, expected, name, lines, rows, |lines|);
    assert rows[..|lines|] == rows;
    assert FilesUpTo(decode, report, fs, expected, [name], 0) == Step(Success([]), []);
    assert Lookup(fs, DataDir, [name][0]) == Some(fs[DataDir][name]);
    assert [] + rows == rows;
  }

  /** Once a file raises, the later files are not opened. */
  lemma {:induction false} FilesAbort(decode: LineDecoder, report: LengthReport, fs: FileSystem, expected: int, names: seq<string>, k: nat, n: nat)
    requires k <= n <= |names| && FilesUpTo(decode, report, fs, expected, names, k).result.Failure?
    ensures FilesUpTo(decode, report, fs, expected, names, n) == FilesUpTo(decode, report, fs, expected, names, k)
    decreases n - k
  {
    if n > k {
      FilesAbort(decode, report, fs, expected, names, k, n - 1);
    }
  }

  /** Every one of the first `k` data files exists. */
  predicate AllPresent(fs: FileSystem, names: seq<string>, k: nat)
    requires k <= |names|
  {
    forall i :: 0 <= i < k ==> IsFile(fs, DataDir, names[i])
  }

  lemma AllDecodeConcat(decode: LineDecoder, a: seq<string>, b: seq<string>)
    ensures AllDecode(decode, a + b) <==> AllDecode(decode, a) && AllDecode(decode, b)
  {
    var ab := a + b;
    if AllDecode(decode, a) && AllDecode(decode, b) {
      forall j | 0 <= j < |ab| ensures decode(ab[j]).result.Success? {
        if j < |a| { assert ab[j] == a[j]; } else { assert ab[j] == b[j - |a|]; }
      }
    }
    if AllDecode(decode, ab) {
      forall j | 0 <= j < |a| ensures decode(a[j]).result.Success? { assert ab[j] == a[j]; }
      forall j | 0 <= j < |b| ensures decode(b[j]).result.Success? { assert ab[|a| + j] == b[j]; }
    }
  }

  lemma RowsMatchConcat(decode: LineDecoder, r: seq<Row>, a: seq<string>, q: seq<Row>, b: seq<string>)
    requires RowsMatch(decode, r, a) && RowsMatch(decode, q, b)
    ensures RowsMatch(decode, r + q, a + b)
  {
    var rq, ab := r + q, a + b;
    forall j | 0 <= j < |rq| ensures decode(ab[j]).result == Success(rq[j]) {
      if j < |r| { assert rq[j] == r[j] && ab[j] == a[j]; }
      else { assert rq[j] == q[j - |r|] && ab[j] == b[j - |a|]; }
    }
  }

  /** Rows across files are the concatenation, over the files in order, of their lines' tuples in file order:
      the run succeeds exactly when every file exists and every line of every file decodes, and then tuple `j`
      comes from line `j` of all the files' lines together. */
  lemma {:induction false} FilesUpToSpec(decode: LineDecoder, report: LengthReport, fs: FileSystem, expected: int, names: seq<string>, k: nat)
    requires k <= |names|
    ensures var d := FilesUpTo(decode, report, fs, expected, names, k);
      d.result.Success? <==> AllPresent(fs, names, k) && AllDecode(decode, AllLines(fs, names, k))
    ensures var d := FilesUpTo(decode, report, fs, expected, names, k);
      d.result.Success? ==> AllPresent(fs, names, k) && RowsMatch(decode, d.result.value, AllLines(fs, names, k))
    decreases k
  {
    if k > 0 {
      FilesUpToSpec(decode, report, fs, expected, names, k - 1);
      var prev := FilesUpTo(decode, report, fs, expected, names, k - 1);
      var name := names[k - 1];
      assert AllPresent(fs, names, k) ==> AllPresent(fs, names, k - 1);
      if AllPresent(fs, names, k) {
        var lines := fs[DataDir][name].lines;
        LinesUpToSpec(decode, report, expected, name, lines, |lines|);
        assert lines[..|lines|] == lines;
        var d := LinesUpTo(decode, report, expected, name, lines, |lines|);
        var before := AllLines(fs, names, k - 1);
        assert AllLines(fs, names, k) == before + lines;
        AllDecodeConcat(decode, before, lines);
        if prev.result.Success? && d.result.Success? {
          RowsMatchConcat(decode, prev.result.value, before, d.result.value, lines);
        }
      } else if AllPresent(fs, names, k - 1) {
        assert !IsFile(fs, DataDir, name);
      }
    }
  }

  /** The loop over the widths of one line: slice, convert, append, advance the pointer. It returns the
      tuple, or the exception that ended the line, with the log lines it wrote. */
  method DecodeLineFields(conv: Conversion, ws: seq<int>, dts: seq<Field>, line: string) returns (r: Result<Row, Error>, logged: seq<string>)
    requires |dts| == |ws|
    ensures Step(r, logged) == DecodeFields(conv, ws, dts, line)
  {
    var row: Row := [];
    logged := [];
    var pointer := 0;
    var i := 0;
    while i < |ws|
      invariant i <= |ws| && pointer == Sum(ws[..i])
      invariant FieldsUpTo(conv, ws, dts, line, i) == Step(Success(row), logged)
    {
      var raw := PySlice(line, pointer, pointer + ws[i]);
      assert raw == RawField(ws, line, i);
      var value := conv(dts[i], raw);
      if value.Failure? {
        assert FieldsUpTo(conv, ws, dts, line, i + 1) == Step(Failure(value.error), logged);
        FieldsAbort(conv, ws, dts, line, i + 1, |ws|);
        r := Failure(value.error);
        assert Step(r, logged) == DecodeFields(conv, ws, dts, line);
        return;
      }
      if !Supported(dts[i]) {
        logged := logged + [UnsupportedMessage];
      }
      row := row + [value.value];
      SumStep(ws, i);
      pointer := pointer + ws[i];
      i := i + 1;
    }
    r := Success(row);
    assert i == |ws| && Step(r, logged) == DecodeFields(conv, ws, dts, line);
  }

  /** The loop over the lines of one data file: report a wrong length, then decode the line with the field
      loop, which `decode` stands for in the specification. */
  method DecodeFileLines(conv: Conversion, ws: seq<int>, dts: seq<Field>, ghost decode: LineDecoder, report: LengthReport,
                         expected: int, name: string, lines: seq<string>)
    returns (r: Result<seq<Row>, Error>, logged: seq<string>)
    requires |dts| == |ws|
    requires forall line {:trigger DecodeFields(conv, ws, dts, line)} :: decode(line) == DecodeFields(conv, ws, dts, line)
    ensures Step(r, logged) == LinesUpTo(decode, report, expected, name, lines, |lines|)
  {
    var rows: seq<Row> := [];
    logged := [];
    var k := 0;
    while k < |lines|
      invariant k <= |lines|
      invariant LinesUpTo(decode, report, expected, name, lines, k) == Step(Success(rows), logged)
    {
      var line := lines[k];
      var lengthLog := if |line| != expected then [report(|line|, name)] else [];
      var row, fieldLog := DecodeLineFields(conv, ws, dts, line);
      logged := logged + (lengthLog + fieldLog);
      if row.Failure? {
        LinesAbort(decode, report, expected, name, lines, k + 1, |lines|);
        r := Failure(row.error);
        assert Step(r, logged) == LinesUpTo(decode, report, expected, name, lines, |lines|);
        return;
      }
      rows := rows + [row.value];
      k := k + 1;
    }
    r := Success(rows);
    assert k == |lines| && Step(r, logged) == LinesUpTo(decode, report, expected, name, lines, |lines|);
  }

  /** The loop over the data files of a batch, each opened from the data directory. */
  method DecodeFiles(conv: Conversion, ws: seq<int>, dts: seq<Field>, ghost decode: LineDecoder, report: LengthReport,
                     fs: FileSystem, expected: int, names: seq<string>)
    returns (r: Result<seq<Row>, Error>, logged: seq<string>)
    requires |dts| == |ws|
    requires forall line {:trigger DecodeFields(conv, ws, dts, line)} :: decode(line) == DecodeFields(conv, ws, dts, line)
    ensures Step(r, logged) == FilesUpTo(decode, report, fs, expected, names, |names|)
  {
    var rows: seq<Row> := [];
    logged := [];
    var k := 0;
    while k < |names|
      invariant k <= |names|
      invariant FilesUpTo(decode, report, fs, expected, names, k) == Step(Success(rows), logged)
    {
      var name := names[k];
      if !IsFile(fs, DataDir, name) {
        FilesAbort(decode, report, fs, expected, names, k + 1, |names|);
        r := Failure(FileNotFound(PathOf(DataDir, name)));
        assert Step(r, logged) == FilesUpTo(decode, report, fs, expected, names, |names|);
        return;
      }
      var fileRows, fileLog := DecodeFileLines(conv, ws, dts, decode, report, expected, name, fs[DataDir][name].lines);
      logged := logged + fileLog;
      if fileRows.Failure? {
        FilesAbort(decode, report, fs, expected, names, k + 1, |names|);
        r := Failure(fileRows.error);
        assert Step(r, logged) == FilesUpTo(decode, report, fs, expected, names, |names|);
        return;
      }
      rows := rows + fileRows.value;
      k := k + 1;
    }
    r := Success(rows);
    assert k == |names| && Step(r, logged) == FilesUpTo(decode, report, fs, expected, names, |names|);
  }

  /** `_process_data_files` with the expected line length taken, as its comment says, to be the sum of the
      widths: every width is read first, then every file is decoded in order. */
  function DecodeData(fs: FileSystem, schema: SpecSchema, names: seq<string>): Step<seq<Row>>
    requires schema.WellShaped()
  {
    match ParseWidths(ReadWidth, schema.widths)
    case Failure(e) => Step(Failure(e), [])
    case Success(ws) => FilesUpTo(FieldDecoder(Coerce, ws, schema.datatypes), LengthMessage, fs, Sum(ws), names, |names|)
  }

  /** Decoding a batch: a width that cannot be read raises before any file is opened; otherwise the batch
      decodes exactly when every file exists and every line of every file decodes, and then there is one tuple
      per line of the files taken one after the other. */
  lemma DecodeDataRows(fs: FileSystem, schema: SpecSchema, names: seq<string>)
    requires schema.WellShaped()
    ensures var d, w := DecodeData(fs, schema, names), ParseWidths(ReadWidth, schema.widths);
      && (w.Failure? ==> d == Step(Failure(w.error), []))
      && (w.Success? ==>
            (d.result.Success? <==> AllPresent(fs, names, |names|)
                                    && AllDecode(FieldDecoder(Coerce, w.value, schema.datatypes), AllLines(fs, names, |names|))))
      && (w.Success? && d.result.Success? ==>
            AllPresent(fs, names, |names|)
            && RowsMatch(FieldDecoder(Coerce, w.value, schema.datatypes), d.result.value, AllLines(fs, names, |names|)))
  {
    var w := ParseWidths(ReadWidth, schema.widths);
    if w.Success? {
      FilesUpToSpec(FieldDecoder(Coerce, w.value, schema.datatypes), LengthMessage, fs, Sum(w.value), names, |names|);
    }
  }

  /** `_process_data_files` as written: `sum[data_files]` subscripts the built-in `sum`, a TypeError raised
      before any width is read or any file is opened. */
  function DecodeDataAsWritten(fs: FileSystem, schema: SpecSchema, names: seq<string>): Step<seq<Row>> {
    Step(Failure(NotSubscriptable("builtin_function_or_method")), [])
  }

  /** A batch with no files under a spec with no rows: the intended decoding returns no tuples, while the code
      as written raises TypeError. */
  lemma SumSubscriptCounterexample(fs: FileSystem)
    ensures DecodeData(fs, SpecSchema([], [], []), []) == Step(Success([]), [])
    ensures DecodeDataAsWritten(fs, SpecSchema([], [], []), []).result.Failure?
  {
  }
}
