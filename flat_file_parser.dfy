/** FlatFileParserImpl: the batch parser over a sequence of lines and the writer that
    renders records as fixed-width rows. */
module FlatFileParser {
  import opened Text
  import opened Schema
  import opened LineParser

  // ===========================================================================
  // Encoding: padding, findGetter, computeColumn, one row
  // ===========================================================================

  /** padding: the pad string repeated (end - start) - dataLength times;
      String.repeat throws on a negative count. */
  function Padding(pad: string, d: Descriptor, dataLength: nat): (r: Result<string>)
    ensures r.Ok? <==> dataLength <= d.end - d.start
    ensures r.Err? ==> r.error == NegativeRepeat
    ensures r.Ok? ==> r.value == Repeat(pad, d.end - d.start - dataLength)
    ensures r.Ok? ==> |r.value| == (d.end - d.start - dataLength) * |pad|
  {
    var unused := (d.end - d.start) - dataLength;
    if unused < 0 then Err(NegativeRepeat) else Ok(Repeat(pad, unused))
  }

  /** findGetter: the public method named get<Name>; absent, findFirst().orElseThrow()
      throws NoSuchElementException, which is not wrapped. */
  function FindGetter(cls: RecordClass, d: Descriptor): (r: Result<string>)
    ensures r.Ok? <==> GetterName(d.name) in cls.getters
    ensures r.Ok? ==> r.value == GetterName(d.name)
    ensures r.Err? ==> r.error == NoGetter
  {
    var name := GetterName(d.name);
    if name in cls.getters then Ok(name) else Err(NoGetter)
  }

  /** computeColumn: the getter's value rendered by toString, followed by its padding. */
  function ComputeColumn(pad: string, rec: Record, d: Descriptor): (r: Result<string>)
    ensures r.Ok? && |pad| == 1 ==> |r.value| == d.end - d.start
  {
    var _ :- FindGetter(rec.cls, d);
    if d.name !in rec.values then Err(NullValue)
    else
      var data := Render(rec.values[d.name]);
      var padding :- Padding(pad, d, |data|);
      Ok(data + padding)
  }

  /** The outcomes of computeColumn: no getter, then a null value, then a value too wide
      for its column; otherwise the rendered value followed by its padding. */
  lemma ComputeColumnLaw(pad: string, rec: Record, d: Descriptor)
    ensures var r := ComputeColumn(pad, rec, d);
      && (GetterName(d.name) !in rec.cls.getters ==> r == Err(NoGetter))
      && (GetterName(d.name) in rec.cls.getters && d.name !in rec.values ==> r == Err(NullValue))
      && (GetterName(d.name) in rec.cls.getters && d.name in rec.values ==>
            var data := Render(rec.values[d.name]);
            && (r.Ok? <==> |data| <= d.end - d.start)
            && (r.Err? ==> r.error == NegativeRepeat)
            && (r.Ok? ==> r.value == data + Repeat(pad, d.end - d.start - |data|)))
  {
  }

  /** Which write failures reach the caller unwrapped: a missing getter, a null value and a
      value too wide for its column are unchecked exceptions, not ParserExceptions. */
  lemma WriteErrorsUnwrapped(pad: string, rec: Record, d: Descriptor, n: nat)
    ensures FindGetter(rec.cls, d).Err? ==> !FindGetter(rec.cls, d).error.IsParserException()
    ensures Padding(pad, d, n).Err? ==> !Padding(pad, d, n).error.IsParserException()
    ensures ComputeColumn(pad, rec, d).Err? ==> !ComputeColumn(pad, rec, d).error.IsParserException()
  {
    ComputeColumnLaw(pad, rec, d);
  }

  /** The sum of the declared widths. */
  function TotalWidth(fs: seq<Descriptor>): int {
    if |fs| == 0 then 0 else TotalWidth(fs[..|fs| - 1]) + (fs[|fs| - 1].end - fs[|fs| - 1].start)
  }

  /** The texts `column` gives for `fs`, concatenated in order; the first failure decides. */
  function JoinColumns(column: Descriptor -> Result<string>, fs: seq<Descriptor>): Result<string> {
    if |fs| == 0 then Ok("")
    else
      var row :- JoinColumns(column, fs[..|fs| - 1]);
      var c :- column(fs[|fs| - 1]);
      Ok(row + c)
  }

  /** The fold succeeds exactly when every column does. */
  lemma {:induction false} JoinColumnsLaw(column: Descriptor -> Result<string>, fs: seq<Descriptor>)
    ensures JoinColumns(column, fs).Ok? <==> forall i :: 0 <= i < |fs| ==> column(fs[i]).Ok?
  {
    if |fs| > 0 {
      var init := fs[..|fs| - 1];
      JoinColumnsLaw(column, init);
      assert forall i :: 0 <= i < |init| ==> init[i] == fs[i];
    }
  }

  /** The columns of `fs` computed by computeColumn, concatenated in order; the first
      column that fails decides. */
  function Columns(pad: string, rec: Record, fs: seq<Descriptor>): Result<string> {
    JoinColumns(d => ComputeColumn(pad, rec, d), fs)
  }

  /** The columns succeed exactly when every column does. */
  lemma ColumnsLaw(pad: string, rec: Record, fs: seq<Descriptor>)
    ensures Columns(pad, rec, fs).Ok? <==> forall i :: 0 <= i < |fs| ==> ComputeColumn(pad, rec, fs[i]).Ok?
  {
    var column := d => ComputeColumn(pad, rec, d);
    JoinColumnsLaw(column, fs);
    assert forall i :: 0 <= i < |fs| ==> column(fs[i]) == ComputeColumn(pad, rec, fs[i]);
  }

  /** With a one-char pad the columns are as wide as the declared widths together. */
  lemma {:induction false} ColumnsWidth(pad: string, rec: Record, fs: seq<Descriptor>)
    requires |pad| == 1
    ensures Columns(pad, rec, fs).Ok? ==> |Columns(pad, rec, fs).value| == TotalWidth(fs)
  {
    if |fs| > 0 {
      ColumnsWidth(pad, rec, fs[..|fs| - 1]);
    }
  }

  /** One row of write: the record's columns in declaration order, then the line separator. */
  function EncodeRow(pad: string, rec: Record): Result<string> {
    var row :- Columns(pad, rec, rec.cls.fields);
    Ok(row + "\n")
  }

  /** A row is written exactly when every column can be computed; with a one-char pad it is
      as wide as the declared widths together, plus the separator that ends it. */
  lemma EncodeRowLaw(pad: string, rec: Record)
    ensures var r := EncodeRow(pad, rec);
      && (r.Ok? <==> forall i :: 0 <= i < |rec.cls.fields| ==> ComputeColumn(pad, rec, rec.cls.fields[i]).Ok?)
      && (r.Ok? ==> |r.value| > 0 && r.value[|r.value| - 1] == '\n')
      && (r.Ok? && |pad| == 1 ==> |r.value| == TotalWidth(rec.cls.fields) + 1)
  {
    ColumnsLaw(pad, rec, rec.cls.fields);
    if |pad| == 1 {
      ColumnsWidth(pad, rec, rec.cls.fields);
    }
  }

  /** A row fails with the error of its first failing column. */
  lemma {:induction false} ColumnsFirstError(pad: string, rec: Record, fs: seq<Descriptor>, i: nat)
    requires i < |fs|
    requires forall j :: 0 <= j < i ==> ComputeColumn(pad, rec, fs[j]).Ok?
    requires ComputeColumn(pad, rec, fs[i]).Err?
    ensures Columns(pad, rec, fs) == Err(ComputeColumn(pad, rec, fs[i]).error)
  {
    var init := fs[..|fs| - 1];
    if i < |fs| - 1 {
      assert init[i] == fs[i];
      assert forall j :: 0 <= j < i ==> init[j] == fs[j];
      ColumnsFirstError(pad, rec, init, i);
    } else {
      assert forall j :: 0 <= j < |init| ==> init[j] == fs[j];
      ColumnsLaw(pad, rec, init);
    }
  }

  // ===========================================================================
  // write: rows pushed to the stream one record at a time
  // ===========================================================================

  /** What write leaves in the stream, and the exception it ends with, if any. */
  datatype Emission = Emission(rows: seq<string>, failure: Option<Error>)

  /** The rows of `rs` in order up to the first failure, and that failure. */
  function EmitResults(rs: seq<Result<string>>): Emission {
    if |rs| == 0 then Emission([], None)
    else
      var e := EmitResults(rs[..|rs| - 1]);
      var row := rs[|rs| - 1];
      if e.failure.Some? then e
      else if row.Err? then Emission(e.rows, Some(row.error))
      else Emission(e.rows + [row.value], None)
  }

  /** The row of every record, in order. */
  function EncodeRows(pad: string, recs: seq<Record>): (rs: seq<Result<string>>)
    ensures |rs| == |recs| && forall i :: 0 <= i < |recs| ==> rs[i] == EncodeRow(pad, recs[i])
  {
    seq(|recs|, i requires 0 <= i < |recs| => EncodeRow(pad, recs[i]))
  }

  /** What write(List, OutputStream) does with the records `recs`. */
  function Emit(pad: string, recs: seq<Record>): Emission {
    EmitResults(EncodeRows(pad, recs))
  }

  lemma {:induction false} EmitResultsLaw(rs: seq<Result<string>>)
    ensures var e := EmitResults(rs);
      |e.rows| <= |rs|
      && (forall i :: 0 <= i < |e.rows| ==> rs[i] == Ok(e.rows[i]))
      && (e.failure.None? ==> |e.rows| == |rs|)
      && (e.failure.Some? ==> |e.rows| < |rs| && rs[|e.rows|] == Err(e.failure.value))
  {
    if |rs| > 0 {
      var init := rs[..|rs| - 1];
      EmitResultsLaw(init);
      assert forall i :: 0 <= i < |init| ==> init[i] == rs[i];
    }
  }

  /** write emits the rows of the records in list order up to the first record that fails;
      that record's error ends the call, and the rows before it stay written. */
  lemma EmitLaw(pad: string, recs: seq<Record>)
    ensures var e := Emit(pad, recs);
      |e.rows| <= |recs|
      && (forall i :: 0 <= i < |e.rows| ==> EncodeRow(pad, recs[i]) == Ok(e.rows[i]))
      && (e.failure.None? ==> |e.rows| == |recs|)
      && (e.failure.Some? ==> |e.rows| < |recs| && EncodeRow(pad, recs[|e.rows|]) == Err(e.failure.value))
  {
    EmitResultsLaw(EncodeRows(pad, recs));
  }

  /** An empty list writes nothing and does not fail. */
  lemma EmitEmpty(pad: string)
    ensures Emit(pad, []) == Emission([], None)
  {
  }

  /** A failure ends the emission: later results do not matter. */
  lemma {:induction false} EmitResultsExtend(rs: seq<Result<string>>, j: nat)
    requires j <= |rs|
    requires EmitResults(rs[..j]).failure.Some?
    ensures EmitResults(rs) == EmitResults(rs[..j])
    decreases |rs|
  {
    if j < |rs| {
      var init := rs[..|rs| - 1];
      assert init[..j] == rs[..j];
      EmitResultsExtend(init, j);
    } else {
      assert rs[..j] == rs;
    }
  }

  /** Once a record has failed, the records after it are not rendered. */
  lemma EmitStopsAtFailure(pad: string, recs: seq<Record>, more: seq<Record>)
    requires Emit(pad, recs).failure.Some?
    ensures Emit(pad, recs + more) == Emit(pad, recs)
  {
    var rs := EncodeRows(pad, recs + more);
    assert rs[..|recs|] == EncodeRows(pad, recs);
    EmitResultsExtend(rs, |recs|);
  }

  /** One more record rendered: its row is appended to those before it. */
  lemma EmitStep(pad: string, recs: seq<Record>, i: nat, written: seq<string>)
    requires i < |recs|
    requires Emit(pad, recs[..i]) == Emission(written, None)
    requires EncodeRow(pad, recs[i]).Ok?
    ensures Emit(pad, recs[..i + 1]) == Emission(written + [EncodeRow(pad, recs[i]).value], None)
  {
    var rs := EncodeRows(pad, recs[..i + 1]);
    assert rs[..i] == EncodeRows(pad, recs[..i]);
    assert rs[i] == EncodeRow(pad, recs[i]);
  }

  /** One more record rendered, and it fails: write ends with its error. */
  lemma EmitStepFails(pad: string, recs: seq<Record>, i: nat, written: seq<string>)
    requires i < |recs|
    requires Emit(pad, recs[..i]) == Emission(written, None)
    requires EncodeRow(pad, recs[i]).Err?
    ensures Emit(pad, recs) == Emission(written, Some(EncodeRow(pad, recs[i]).error))
  {
    var rs := EncodeRows(pad, recs);
    assert rs[..i] == EncodeRows(pad, recs[..i]);
    assert rs[..i + 1][..i] == rs[..i];
    assert rs[i] == EncodeRow(pad, recs[i]);
    EmitResultsExtend(rs, i + 1);
  }

  // ===========================================================================
  // Decoding one line, and the batch
  // ===========================================================================

  /** The fields `fs` parsed one after another into a target holding `values`. */
  function ApplyFields(cls: RecordClass, line: string, fs: seq<Descriptor>, values: Fields): Result<Fields> {
    if |fs| == 0 then Ok(values)
    else
      var before :- ApplyFields(cls, line, fs[..|fs| - 1], values);
      ParseField(cls, line, fs[|fs| - 1], before)
  }

  /** parse(String, Class): a fresh instance, refused if the class has no @Field field,
      then every field in declaration order. */
  function DecodeLine(cls: RecordClass, line: string): Result<Fields> {
    if |cls.fields| == 0 then Err(NoFields(cls.name))
    else ApplyFields(cls, line, cls.fields, cls.defaults)
  }

  /** One more field parsed: the target it fills is the one the earlier fields left. */
  lemma ApplyFieldsStep(cls: RecordClass, line: string, fs: seq<Descriptor>, i: nat, values: Fields, before: Fields)
    requires i < |fs|
    requires ApplyFields(cls, line, fs[..i], values) == Ok(before)
    ensures ApplyFields(cls, line, fs[..i + 1], values) == ParseField(cls, line, fs[i], before)
  {
    assert fs[..i + 1][..i] == fs[..i];
  }

  /** A failure on a field stops the line: fields after it are not parsed. */
  lemma {:induction false} ApplyFieldsExtend(cls: RecordClass, line: string, fs: seq<Descriptor>, j: nat, values: Fields)
    requires j <= |fs|
    requires ApplyFields(cls, line, fs[..j], values).Err?
    ensures ApplyFields(cls, line, fs, values) == ApplyFields(cls, line, fs[..j], values)
    decreases |fs|
  {
    if j < |fs| {
      var init := fs[..|fs| - 1];
      assert init[..j] == fs[..j];
      ApplyFieldsExtend(cls, line, init, j, values);
    } else {
      assert fs[..j] == fs;
    }
  }

  /** The field loop succeeds exactly when every field yields a value for its setter. */
  lemma {:induction false} ApplyFieldsOk(cls: RecordClass, line: string, fs: seq<Descriptor>, values: Fields)
    ensures ApplyFields(cls, line, fs, values).Ok? <==> forall i :: 0 <= i < |fs| ==> FieldValue(cls, line, fs[i]).Ok?
  {
    if |fs| > 0 {
      var init := fs[..|fs| - 1];
      ApplyFieldsOk(cls, line, init, values);
      ApplyFieldsLast(cls, line, fs, values);
      assert forall i :: 0 <= i < |init| ==> init[i] == fs[i];
    }
  }

  /** The last field succeeds on top of the earlier ones exactly when both do. */
  lemma ApplyFieldsLast(cls: RecordClass, line: string, fs: seq<Descriptor>, values: Fields)
    requires |fs| > 0
    ensures ApplyFields(cls, line, fs, values).Ok? <==>
      ApplyFields(cls, line, fs[..|fs| - 1], values).Ok? && FieldValue(cls, line, fs[|fs| - 1]).Ok?
  {
  }

  /** The field loop fails with the error of its first failing field. */
  lemma {:induction false} ApplyFieldsFirstError(cls: RecordClass, line: string, fs: seq<Descriptor>, values: Fields, i: nat)
    requires i < |fs|
    requires forall j :: 0 <= j < i ==> FieldValue(cls, line, fs[j]).Ok?
    requires FieldValue(cls, line, fs[i]).Err?
    ensures ApplyFields(cls, line, fs, values) == Err(FieldValue(cls, line, fs[i]).error)
  {
    var init := fs[..|fs| - 1];
    if i < |fs| - 1 {
      assert init[i] == fs[i];
      assert forall j :: 0 <= j < i ==> init[j] == fs[j];
      ApplyFieldsFirstError(cls, line, init, values, i);
    } else {
      assert forall j :: 0 <= j < |init| ==> init[j] == fs[j];
      ApplyFieldsOk(cls, line, init, values);
    }
  }

  /** parse(String, Class) succeeds exactly when the class has @Field fields and every one
      of them yields a value for its setter. */
  lemma DecodeLineLaw(cls: RecordClass, line: string)
    ensures DecodeLine(cls, line).Ok? <==>
      |cls.fields| > 0 && forall i :: 0 <= i < |cls.fields| ==> FieldValue(cls, line, cls.fields[i]).Ok?
  {
    ApplyFieldsOk(cls, line, cls.fields, cls.defaults);
  }

  /** A line that fails reports the error of its first failing field; the fields after it
      are not parsed. */
  lemma DecodeLineFirstError(cls: RecordClass, line: string, i: nat)
    requires i < |cls.fields|
    requires forall j :: 0 <= j < i ==> FieldValue(cls, line, cls.fields[j]).Ok?
    requires FieldValue(cls, line, cls.fields[i]).Err?
    ensures DecodeLine(cls, line) == Err(FieldValue(cls, line, cls.fields[i]).error)
  {
    ApplyFieldsFirstError(cls, line, cls.fields, cls.defaults, i);
  }

  /** The index of the first blank line, or the number of lines if none is blank:
      where readLine's loop stops. */
  function FirstBlank(lines: seq<string>): (k: nat)
    ensures k <= |lines|
    ensures k < |lines| ==> IsBlank(lines[k])
    ensures forall j :: 0 <= j < k ==> !IsBlank(lines[j])
  {
    if |lines| == 0 || IsBlank(lines[0]) then 0 else 1 + FirstBlank(lines[1..])
  }

  /** The values of `rs` in order, or the error of the first that failed. */
  function Collect<T>(rs: seq<Result<T>>): (r: Result<seq<T>>)
    ensures r.Ok? <==> forall i :: 0 <= i < |rs| ==> rs[i].Ok?
    ensures r.Ok? ==> |r.value| == |rs| && forall i :: 0 <= i < |rs| ==> rs[i] == Ok(r.value[i])
  {
    if |rs| == 0 then Ok([])
    else
      var init := rs[..|rs| - 1];
      assert forall i :: 0 <= i < |init| ==> init[i] == rs[i];
      var before := Collect(init);
      if before.Err? then before
      else if rs[|rs| - 1].Err? then Err(rs[|rs| - 1].error)
      else Ok(before.value + [rs[|rs| - 1].value])
  }

  /** A failure stops the collection: later results do not matter. */
  lemma {:induction false} CollectExtend<T>(rs: seq<Result<T>>, j: nat)
    requires j <= |rs|
    requires Collect(rs[..j]).Err?
    ensures Collect(rs) == Collect(rs[..j])
    decreases |rs|
  {
    if j < |rs| {
      var init := rs[..|rs| - 1];
      assert init[..j] == rs[..j];
      CollectExtend(init, j);
    } else {
      assert rs[..j] == rs;
    }
  }

  /** The first failure is the one reported. */
  lemma {:induction false} CollectFirstError<T>(rs: seq<Result<T>>, i: nat)
    requires i < |rs|
    requires forall j :: 0 <= j < i ==> rs[j].Ok?
    requires rs[i].Err?
    ensures Collect(rs) == Err(rs[i].error)
  {
    var pre := rs[..i + 1];
    var init := pre[..i];
    assert forall j :: 0 <= j < i ==> init[j] == rs[j];
    assert Collect(pre) == Err(rs[i].error);
    CollectExtend(rs, i + 1);
  }

  /** Every line of `ls` decoded, in order. */
  function DecodeLines(cls: RecordClass, ls: seq<string>): (rs: seq<Result<Fields>>)
    ensures |rs| == |ls| && forall i :: 0 <= i < |ls| ==> rs[i] == DecodeLine(cls, ls[i])
  {
    seq(|ls|, i requires 0 <= i < |ls| => DecodeLine(cls, ls[i]))
  }

  /** parse(BufferedReader, Class): the lines before the first blank one, decoded in order;
      the first line that fails aborts the batch. */
  function DecodeBatch(cls: RecordClass, lines: seq<string>): Result<seq<Fields>> {
    Collect(DecodeLines(cls, lines[..FirstBlank(lines)]))
  }

  /** One more line read: its record is appended to those before it. */
  lemma BatchStep(cls: RecordClass, lines: seq<string>, i: nat, decoded: seq<Fields>, v: Fields)
    requires i < |lines|
    requires Collect(DecodeLines(cls, lines[..i])) == Ok(decoded)
    requires DecodeLine(cls, lines[i]) == Ok(v)
    ensures Collect(DecodeLines(cls, lines[..i + 1])) == Ok(decoded + [v])
  {
    assert DecodeLines(cls, lines[..i + 1])[..i] == DecodeLines(cls, lines[..i]);
  }

  /** One more line read, and it fails: the batch fails with its error. */
  lemma BatchStepFails(cls: RecordClass, lines: seq<string>, i: nat, decoded: seq<Fields>)
    requires i < FirstBlank(lines)
    requires Collect(DecodeLines(cls, lines[..i])) == Ok(decoded)
    requires DecodeLine(cls, lines[i]).Err?
    ensures DecodeBatch(cls, lines) == Err(DecodeLine(cls, lines[i]).error)
  {
    assert forall j :: 0 <= j < i ==> DecodeLines(cls, lines[..i])[j] == DecodeLine(cls, lines[j]);
    BatchFailsAtFirstBadLine(cls, lines, i);
  }

  /** A successful batch holds one record per line before the terminator, in input order. */
  lemma BatchOk(cls: RecordClass, lines: seq<string>)
    ensures var r := DecodeBatch(cls, lines);
      (r.Ok? <==> forall i :: 0 <= i < FirstBlank(lines) ==> DecodeLine(cls, lines[i]).Ok?)
      && (r.Ok? ==>
            |r.value| == FirstBlank(lines)
            && forall i :: 0 <= i < |r.value| ==> DecodeLine(cls, lines[i]) == Ok(r.value[i]))
  {
    var k := FirstBlank(lines);
    assert forall i :: 0 <= i < k ==> lines[..k][i] == lines[i];
  }

  /** The first line that fails aborts the batch with its error: no partial list. */
  lemma {:induction false} BatchFailsAtFirstBadLine(cls: RecordClass, lines: seq<string>, i: nat)
    requires i < FirstBlank(lines)
    requires forall j :: 0 <= j < i ==> DecodeLine(cls, lines[j]).Ok?
    requires DecodeLine(cls, lines[i]).Err?
    ensures DecodeBatch(cls, lines) == Err(DecodeLine(cls, lines[i]).error)
  {
    var rs := DecodeLines(cls, lines[..FirstBlank(lines)]);
    CollectFirstError(rs, i);
  }

  /** Lines after the terminating blank line are never looked at. */
  lemma {:induction false} BatchIgnoresAfterBlank(cls: RecordClass, lines: seq<string>, rest: seq<string>)
    requires FirstBlank(lines) < |lines|
    ensures DecodeBatch(cls, lines + rest) == DecodeBatch(cls, lines)
  {
    FirstBlankPrefix(lines, rest);
    var k := FirstBlank(lines);
    assert (lines + rest)[..k] == lines[..k];
  }

  lemma {:induction false} FirstBlankPrefix(lines: seq<string>, rest: seq<string>)
    requires FirstBlank(lines) < |lines|
    ensures FirstBlank(lines + rest) == FirstBlank(lines)
  {
    var all := lines + rest;
    if !IsBlank(lines[0]) {
      assert all[1..] == lines[1..] + rest;
      FirstBlankPrefix(lines[1..], rest);
    }
  }

  /** No input, or a blank first line, gives an empty list, whatever the class declares. */
  lemma BatchEmpty(cls: RecordClass, lines: seq<string>)
    requires |lines| == 0 || IsBlank(lines[0])
    ensures DecodeBatch(cls, lines) == Ok([])
  {
  }

  /** A class without @Field fields is refused only once a non-blank line is read. */
  lemma BatchNoFields(cls: RecordClass, lines: seq<string>)
    requires |cls.fields| == 0
    requires |lines| > 0 && !IsBlank(lines[0])
    ensures DecodeBatch(cls, lines) == Err(NoFields(cls.name))
  {
    BatchFailsAtFirstBadLine(cls, lines, 0);
  }

  // ===========================================================================
  // The objects: the parser with its pad string, and the output stream
  // ===========================================================================

  /** The output stream: the rows written to it, in order. */
  class Sink {
    var rows: seq<string>

    constructor ()
      ensures rows == []
    {
      rows := [];
    }
  }

  class FlatFileParserImpl {
    /** The string repeated to fill the unused width of a column. */
    const pad: string

    /** The default parser pads with a single space. */
    constructor ()
      ensures pad == " "
    {
      pad := " ";
    }

    constructor WithPad(pad: string)
      ensures this.pad == pad
    {
      this.pad := pad;
    }

    /** parse(String, Class): one fresh record object holding the decoded line. */
    method ParseLine(line: string, cls: RecordClass) returns (r: Result<Instance>)
      ensures r.Ok? <==> DecodeLine(cls, line).Ok?
      ensures r.Ok? ==> fresh(r.value) && r.value.cls == cls && r.value.values == DecodeLine(cls, line).value
      ensures r.Err? ==> r.error == DecodeLine(cls, line).error
    {
      var target := new Instance(cls);
      var parser := new LineParser(line, target);
      var fields := cls.fields;
      if |fields| == 0 {
        return Err(NoFields(cls.name));
      }
      for i := 0 to |fields|
        invariant ApplyFields(cls, line, fields[..i], cls.defaults) == Ok(target.values)
      {
        ApplyFieldsStep(cls, line, fields, i, cls.defaults, target.values);
        var outcome := parser.Parse(fields[i]);
        if outcome.Fail? {
          ApplyFieldsExtend(cls, line, fields, i + 1, cls.defaults);
          return Err(outcome.error);
        }
      }
      assert fields[..|fields|] == fields;
      var t := parser.GetTarget();
      return Ok(t);
    }

    /** parse(BufferedReader, Class): reads lines until the end of input or a blank line
        and returns one fresh record object per line read, in order. */
    method Parse(lines: seq<string>, cls: RecordClass) returns (r: Result<seq<Instance>>)
      ensures r.Ok? <==> DecodeBatch(cls, lines).Ok?
      ensures r.Err? ==> r.error == DecodeBatch(cls, lines).error
      ensures r.Ok? ==> |r.value| == |DecodeBatch(cls, lines).value|
      ensures r.Ok? ==> forall i :: 0 <= i < |r.value| ==>
        fresh(r.value[i]) && r.value[i].cls == cls && r.value[i].values == DecodeBatch(cls, lines).value[i]
      ensures r.Ok? ==> forall i, j :: 0 <= i < j < |r.value| ==> r.value[i] != r.value[j]
    {
      var targets: seq<Instance> := [];
      ghost var decoded: seq<Fields> := [];
      var i := 0;
      while i < |lines| && !IsBlank(lines[i])
        invariant 0 <= i <= |lines| && |targets| == i && |decoded| == i
        invariant i <= FirstBlank(lines)
        invariant Collect(DecodeLines(cls, lines[..i])) == Ok(decoded)
        invariant forall k :: 0 <= k < i ==>
          fresh(targets[k]) && targets[k].cls == cls && targets[k].values == decoded[k]
        invariant forall k, l :: 0 <= k < l < i ==> targets[k] != targets[l]
      {
        var t := ParseLine(lines[i], cls);
        if t.Err? {
          BatchStepFails(cls, lines, i, decoded);
          return Err(t.error);
        }
        BatchStep(cls, lines, i, decoded, t.value.values);
        targets := targets + [t.value];
        decoded := decoded + [t.value.values];
        i := i + 1;
      }
      assert FirstBlank(lines) == i;
      return Ok(targets);
    }

    /** The StringBuilder of one row: every column of the record, then the separator. */
    method BuildRow(record: Instance) returns (r: Result<string>)
      ensures r == EncodeRow(pad, Record(record.cls, record.values))
    {
      var rec := Record(record.cls, record.values);
      var fields := record.cls.fields;
      var row := "";
      for j := 0 to |fields|
        invariant Columns(pad, rec, fields[..j]) == Ok(row)
      {
        assert fields[..j + 1][..j] == fields[..j];
        var column := ComputeColumn(pad, rec, fields[j]);
        if column.Err? {
          ColumnsLaw(pad, rec, fields[..j]);
          assert forall i :: 0 <= i < j ==> fields[..j][i] == fields[i];
          ColumnsFirstError(pad, rec, fields, j);
          return Err(column.error);
        }
        row := row + column.value;
      }
      assert fields[..|fields|] == fields;
      return Ok(row + "\n");
    }

    /** write: each record's row is pushed to the stream in list order; the first failure
        ends the call with the rows before it already written. */
    method Write(sink: Sink, records: seq<Instance>) returns (r: Outcome)
      modifies sink
      ensures var e := Emit(pad, old(Snapshots(records)));
        sink.rows == old(sink.rows) + e.rows
        && r == (if e.failure.Some? then Fail(e.failure.value) else Pass)
    {
      ghost var snaps := Snapshots(records);
      ghost var written: seq<string> := [];
      for i := 0 to |records|
        invariant Emit(pad, snaps[..i]) == Emission(written, None)
        invariant sink.rows == old(sink.rows) + written
      {
        var row := BuildRow(records[i]);
        if row.Err? {
          EmitStepFails(pad, snaps, i, written);
          return Fail(row.error);
        }
        EmitStep(pad, snaps, i, written);
        sink.rows := sink.rows + [row.value];
        written := written + [row.value];
      }
      assert snaps[..|records|] == snaps;
      r := Pass;
    }
  }
}
