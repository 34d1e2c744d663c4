/** The round-trip law between write and parse: with the default pad " ", a layout whose
    fields abut from column 0, and values that fit their columns and have no trimmable
    ends, parsing a written row gives back the record. */
module RoundTrip {
  import opened Text
  import opened Schema
  import opened LineParser
  import opened FlatFileParser

  /** The fields sit back to back from column 0 in declaration order. */
  predicate Abutting(fs: seq<Descriptor>) {
    && (|fs| > 0 ==> fs[0].start == 0)
    && (forall i :: 0 <= i < |fs| ==> fs[i].start <= fs[i].end)
    && (forall i :: 0 < i < |fs| ==> fs[i].start == fs[i - 1].end)
  }

  /** Where the last field of the layout ends: the width of a written row. */
  function RowWidth(fs: seq<Descriptor>): int {
    if |fs| == 0 then 0 else fs[|fs| - 1].end
  }

  /** The names of the fields of `fs`. */
  function FieldNames(fs: seq<Descriptor>): set<string> {
    if |fs| == 0 then {} else FieldNames(fs[..|fs| - 1]) + {fs[|fs| - 1].name}
  }

  /** FieldNames holds the name of every field and nothing else. */
  lemma {:induction false} FieldNamesSpec(fs: seq<Descriptor>)
    ensures forall i :: 0 <= i < |fs| ==> fs[i].name in FieldNames(fs)
    ensures forall k :: k in FieldNames(fs) ==> exists i :: 0 <= i < |fs| && fs[i].name == k
  {
    if |fs| > 0 {
      var init := fs[..|fs| - 1];
      FieldNamesSpec(init);
      assert forall i :: 0 <= i < |init| ==> init[i] == fs[i];
    }
  }

  /** The kind of setter parameter that converts back into `v`. */
  function KindOf(v: Value): Kind {
    match v
    case StrVal(_) => StrKind
    case IntVal(_) => IntKind
  }

  /** The field `d` can be written and read back: both accessors exist, the setter takes the
      value's own type, the value is not null, fits its column and has no trimmable ends. */
  predicate Survives(cls: RecordClass, values: Fields, d: Descriptor) {
    && d.name in values
    && SetterName(d.name) in cls.setters
    && cls.setters[SetterName(d.name)] == [KindOf(values[d.name])]
    && GetterName(d.name) in cls.getters
    && |Render(values[d.name])| <= d.end - d.start
    && IsTrimmed(Render(values[d.name]))
  }

  /** What write puts in the column of `d` for the value `v` with the default pad. */
  function Cell(v: Value, d: Descriptor): string
    requires |Render(v)| <= d.end - d.start
  {
    Render(v) + Repeat(" ", d.end - d.start - |Render(v)|)
  }

  /** The column of a surviving field is its padded rendering, exactly as wide as declared,
      and trimming it gives the rendering back. */
  lemma ColumnOf(cls: RecordClass, values: Fields, d: Descriptor)
    requires Survives(cls, values, d)
    ensures ComputeColumn(" ", Record(cls, values), d) == Ok(Cell(values[d.name], d))
    ensures |Cell(values[d.name], d)| == d.end - d.start
  {
    ComputeColumnLaw(" ", Record(cls, values), d);
  }

  /** Trimming a surviving field's cell gives its rendering back. */
  lemma CellTrims(cls: RecordClass, values: Fields, d: Descriptor)
    requires Survives(cls, values, d)
    ensures Trim(Cell(values[d.name], d)) == Render(values[d.name])
  {
    var v := values[d.name];
    TrimPadded(Render(v), d.end - d.start - |Render(v)|);
  }

  /** Converting a surviving field's rendering with its setter gives the value back. */
  lemma ConvertRender(cls: RecordClass, values: Fields, d: Descriptor)
    requires Survives(cls, values, d)
    ensures SetterArgument(SetterName(d.name), cls.setters[SetterName(d.name)], Render(values[d.name]))
            == Ok(values[d.name])
  {
    match values[d.name]
    case StrVal(s) =>
    case IntVal(i) => ParseIntToString(i);
  }

  /** In an abutting layout a field ends where a later one starts, or earlier. */
  lemma {:induction false} AbuttingEnds(fs: seq<Descriptor>, i: nat, j: nat)
    requires Abutting(fs) && i < j < |fs|
    ensures fs[i].end <= fs[j].start
    decreases j - i
  {
    if i + 1 < j {
      AbuttingEnds(fs, i + 1, j);
    }
  }

  lemma AbuttingPrefix(fs: seq<Descriptor>, j: nat)
    requires Abutting(fs) && j <= |fs|
    ensures Abutting(fs[..j])
  {
  }

  /** In an abutting layout every start is at or after column 0. */
  lemma {:induction false} AbuttingStarts(fs: seq<Descriptor>, i: nat)
    requires Abutting(fs) && i < |fs|
    ensures 0 <= fs[i].start
  {
    if i > 0 {
      AbuttingStarts(fs, i - 1);
    }
  }

  lemma SliceOfPrefix(a: string, b: string, lo: int, hi: int)
    requires 0 <= lo <= hi <= |a|
    ensures (a + b)[lo..hi] == a[lo..hi]
  {
  }

  lemma SliceOfSuffix(a: string, b: string)
    ensures (a + b)[|a|..|a| + |b|] == b
  {
  }

  /** The cells side by side. */
  function Join(cells: seq<string>): string {
    if |cells| == 0 then "" else Join(cells[..|cells| - 1]) + cells[|cells| - 1]
  }

  /** A row is the join of its columns. */
  lemma {:induction false} ColumnsJoin(pad: string, rec: Record, fs: seq<Descriptor>, cells: seq<string>)
    requires |cells| == |fs|
    requires forall i :: 0 <= i < |fs| ==> ComputeColumn(pad, rec, fs[i]) == Ok(cells[i])
    ensures Columns(pad, rec, fs) == Ok(Join(cells))
  {
    if |fs| > 0 {
      var n := |fs| - 1;
      var init := fs[..n];
      var before := cells[..n];
      forall i | 0 <= i < n
        ensures ComputeColumn(pad, rec, init[i]) == Ok(before[i])
      {
        assert init[i] == fs[i] && before[i] == cells[i];
      }
      ColumnsJoin(pad, rec, init, before);
      assert Join(cells) == Join(before) + cells[n];
    }
  }

  /** Cells as wide as their fields, joined, sit at [start, end) of an abutting layout. */
  lemma {:induction false} JoinLayout(cells: seq<string>, fs: seq<Descriptor>)
    requires |cells| == |fs| && Abutting(fs)
    requires forall i :: 0 <= i < |fs| ==> |cells[i]| == fs[i].end - fs[i].start
    ensures |Join(cells)| == RowWidth(fs)
    ensures forall i :: 0 <= i < |fs| ==>
      0 <= fs[i].start && fs[i].end <= |Join(cells)| && Join(cells)[fs[i].start..fs[i].end] == cells[i]
  {
    if |fs| > 0 {
      var n := |fs| - 1;
      var init := fs[..n];
      assert forall i :: 0 <= i < n ==> init[i] == fs[i];
      AbuttingPrefix(fs, n);
      var before := cells[..n];
      JoinLayout(before, init);
      var line := Join(cells);
      assert line == Join(before) + cells[n];
      if n > 0 {
        assert init[n - 1] == fs[n - 1];
      }
      assert |Join(before)| == fs[n].start;
      AbuttingStarts(fs, n);
      SliceOfSuffix(Join(before), cells[n]);
      forall i | 0 <= i < n
        ensures 0 <= fs[i].start && fs[i].end <= |line| && line[fs[i].start..fs[i].end] == cells[i]
      {
        AbuttingEnds(fs, i, n);
        AbuttingStarts(fs, i);
        SliceOfPrefix(Join(before), cells[n], fs[i].start, fs[i].end);
        assert init[i] == fs[i] && before[i] == cells[i];
      }
    }
  }

  /** Setting the last field of `fs` to its value keeps the earlier fields at theirs. */
  lemma SetLast(values: Fields, fs: seq<Descriptor>, init: seq<Descriptor>, before: Fields, m: Fields)
    requires |fs| > 0 && init == fs[..|fs| - 1] && fs[|fs| - 1].name in values
    requires forall i :: 0 <= i < |init| ==>
      (init[i].name in before && init[i].name in values && before[init[i].name] == values[init[i].name])
    requires m == before[fs[|fs| - 1].name := values[fs[|fs| - 1].name]]
    ensures forall i :: 0 <= i < |fs| ==> fs[i].name in m && fs[i].name in values && m[fs[i].name] == values[fs[i].name]
  {
    forall i | 0 <= i < |init|
      ensures fs[i].name in before && fs[i].name in values && before[fs[i].name] == values[fs[i].name]
    {
      assert init[i] == fs[i];
    }
  }

  /** Parsing the fields `fs` in turn, each yielding its value in `values`, sets each of
      them to that value and leaves the rest of `base` alone. */
  lemma {:induction false} DecodeFields(cls: RecordClass, values: Fields, line: string, fs: seq<Descriptor>, base: Fields)
    returns (m: Fields)
    requires forall i :: 0 <= i < |fs| ==> fs[i].name in values && FieldValue(cls, line, fs[i]) == Ok(values[fs[i].name])
    ensures ApplyFields(cls, line, fs, base) == Ok(m)
    ensures m.Keys == base.Keys + FieldNames(fs)
    ensures forall i :: 0 <= i < |fs| ==> fs[i].name in m && m[fs[i].name] == values[fs[i].name]
    ensures forall k :: k in base && k !in FieldNames(fs) ==> m[k] == base[k]
  {
    if |fs| == 0 {
      m := base;
    } else {
      var n := |fs| - 1;
      var init := fs[..n];
      assert forall i :: 0 <= i < n ==> init[i] == fs[i];
      var before := DecodeFields(cls, values, line, init, base);
      var d := fs[n];
      m := before[d.name := values[d.name]];
      assert ParseField(cls, line, d, before) == Ok(m);
      assert FieldNames(fs) == FieldNames(init) + {d.name};
      SetLast(values, fs, init, before, m);
    }
  }

  /** write with the default pad lays the columns of the fields side by side: the row is
      a line as wide as the layout plus "\n", holding the column of `fs[i]` at its place. */
  lemma LayoutLine(cls: RecordClass, values: Fields) returns (line: string)
    requires Abutting(cls.fields)
    requires forall i :: 0 <= i < |cls.fields| ==> Survives(cls, values, cls.fields[i])
    ensures EncodeRow(" ", Record(cls, values)) == Ok(line + "\n")
    ensures |line| == RowWidth(cls.fields)
    ensures forall i :: 0 <= i < |cls.fields| ==>
      && 0 <= cls.fields[i].start && cls.fields[i].end <= |line|
      && ComputeColumn(" ", Record(cls, values), cls.fields[i]) == Ok(line[cls.fields[i].start..cls.fields[i].end])
  {
    var fs := cls.fields;
    var rec := Record(cls, values);
    var cells := seq(|fs|, i requires 0 <= i < |fs| => Cell(values[fs[i].name], fs[i]));
    forall i | 0 <= i < |fs|
      ensures ComputeColumn(" ", rec, fs[i]) == Ok(cells[i])
      ensures |cells[i]| == fs[i].end - fs[i].start
    {
      ColumnOf(cls, values, fs[i]);
    }
    ColumnsJoin(" ", rec, fs, cells);
    JoinLayout(cells, fs);
    line := Join(cells);
  }

  /** Parsing a surviving field from a line that holds its column gives its value back. */
  lemma FieldOfColumn(cls: RecordClass, values: Fields, d: Descriptor, line: string)
    requires Survives(cls, values, d)
    requires 0 <= d.start && d.end <= |line|
    requires ComputeColumn(" ", Record(cls, values), d) == Ok(line[d.start..d.end])
    ensures FieldValue(cls, line, d) == Ok(values[d.name])
  {
    ColumnOf(cls, values, d);
    CellTrims(cls, values, d);
    ConvertRender(cls, values, d);
  }

  /** write with the default pad: the row is a line as wide as the layout plus "\n", and
      parsing the field `fs[i]` of that line yields the field's value. */
  lemma EncodeLayout(cls: RecordClass, values: Fields) returns (line: string)
    requires Abutting(cls.fields)
    requires forall i :: 0 <= i < |cls.fields| ==> Survives(cls, values, cls.fields[i])
    ensures EncodeRow(" ", Record(cls, values)) == Ok(line + "\n")
    ensures |line| == RowWidth(cls.fields)
    ensures forall i :: 0 <= i < |cls.fields| ==>
      cls.fields[i].name in values && FieldValue(cls, line, cls.fields[i]) == Ok(values[cls.fields[i].name])
  {
    line := LayoutLine(cls, values);
    forall i | 0 <= i < |cls.fields|
      ensures cls.fields[i].name in values && FieldValue(cls, line, cls.fields[i]) == Ok(values[cls.fields[i].name])
    {
      FieldOfColumn(cls, values, cls.fields[i], line);
    }
  }

  /** parse(String, Class) of a line from which every field parses to its value in `values`
      sets those fields and keeps the fresh instance's others. */
  lemma DecodeLayout(cls: RecordClass, values: Fields, line: string) returns (m: Fields)
    requires |cls.fields| > 0
    requires forall i :: 0 <= i < |cls.fields| ==>
      cls.fields[i].name in values && FieldValue(cls, line, cls.fields[i]) == Ok(values[cls.fields[i].name])
    ensures DecodeLine(cls, line) == Ok(m)
    ensures m.Keys == cls.defaults.Keys + FieldNames(cls.fields)
    ensures forall i :: 0 <= i < |cls.fields| ==> cls.fields[i].name in m && m[cls.fields[i].name] == values[cls.fields[i].name]
    ensures forall k :: k in cls.defaults && k !in FieldNames(cls.fields) ==> m[k] == cls.defaults[k]
  {
    m := DecodeFields(cls, values, line, cls.fields, cls.defaults);
  }

  /** write then parse: the row of a record is its columns plus "\n", and parsing the
      columns sets every annotated field back to its value and keeps the fresh
      instance's other fields. */
  lemma RoundTripLine(cls: RecordClass, values: Fields)
    requires |cls.fields| > 0
    requires Abutting(cls.fields)
    requires forall i :: 0 <= i < |cls.fields| ==> Survives(cls, values, cls.fields[i])
    ensures EncodeRow(" ", Record(cls, values)).Ok?
    ensures var row := EncodeRow(" ", Record(cls, values)).value;
      && |row| > 0 && |row| == RowWidth(cls.fields) + 1
      && row[|row| - 1] == '\n'
      && var decoded := DecodeLine(cls, row[..|row| - 1]);
         && decoded.Ok?
         && decoded.value.Keys == cls.defaults.Keys + FieldNames(cls.fields)
         && (forall i :: 0 <= i < |cls.fields| ==>
               cls.fields[i].name in decoded.value && cls.fields[i].name in values && decoded.value[cls.fields[i].name] == values[cls.fields[i].name])
         && (forall k :: k in cls.defaults && k !in FieldNames(cls.fields) ==> decoded.value[k] == cls.defaults[k])
  {
    var line := EncodeLayout(cls, values);
    var row := line + "\n";
    assert row[..|row| - 1] == line;
    var m := DecodeLayout(cls, values, line);
  }

  /** The record itself comes back when its fields outside the layout hold what a fresh
      instance holds, and every annotated field is set. */
  lemma RoundTripRecord(cls: RecordClass, values: Fields)
    requires |cls.fields| > 0
    requires Abutting(cls.fields)
    requires forall i :: 0 <= i < |cls.fields| ==> Survives(cls, values, cls.fields[i])
    requires values.Keys == cls.defaults.Keys + FieldNames(cls.fields)
    requires forall k :: k in cls.defaults && k !in FieldNames(cls.fields) ==> values[k] == cls.defaults[k]
    ensures var row := EncodeRow(" ", Record(cls, values));
      row.Ok? && |row.value| > 0 && DecodeLine(cls, row.value[..|row.value| - 1]) == Ok(values)
  {
    var line := EncodeLayout(cls, values);
    var row := line + "\n";
    assert row[..|row| - 1] == line;
    var m := DecodeLayout(cls, values, line);
    SameFields(cls, values, m);
  }

  /** Two field maps with the same keys that agree on every field and on every default
      outside the layout are equal. */
  lemma SameFields(cls: RecordClass, values: Fields, m: Fields)
    requires values.Keys == cls.defaults.Keys + FieldNames(cls.fields) && m.Keys == values.Keys
    requires forall k :: k in cls.defaults && k !in FieldNames(cls.fields) ==> values[k] == cls.defaults[k] && m[k] == cls.defaults[k]
    requires forall i :: 0 <= i < |cls.fields| ==> cls.fields[i].name in m && m[cls.fields[i].name] == values[cls.fields[i].name]
    ensures m == values
  {
    FieldNamesSpec(cls.fields);
    forall k | k in values
      ensures m[k] == values[k]
    {
      if k in FieldNames(cls.fields) {
        var i :| 0 <= i < |cls.fields| && cls.fields[i].name == k;
      }
    }
  }
}
