# flat-file-parser: the fixed-column-width record codec

This project models the codec at the heart of `cphne/flat-file-parser`, a Java library that reads and writes flat files whose records sit in fixed character columns. A record class declares its columns with `@Field(start, end)` annotations on its fields. The codec has two directions.

- **Decoding.** `FlatFileParserImpl.parse` reads lines until the input ends or a blank line comes. For each line it creates a fresh record object. `LineParserImpl` then fills that object in one field at a time, in declaration order:
  - it takes the substring `line[start, end)` and trims it;
  - it looks up the setter `set<Name>` and checks that it takes exactly one parameter;
  - it converts the text through the parameter type's `String` constructor and calls the setter.
- **Encoding.** `FlatFileParserImpl.write` renders every record as one row:
  - each annotated field's getter value, rendered by `toString`;
  - padded with the parser's pad string up to the column width;
  - the columns concatenated in declaration order, then a line separator.

  Rows are pushed to the output stream one record at a time.

Reflection is replaced by an explicit schema (`Schema.RecordClass`), which holds:
- the ordered field descriptors;
- the setters by method name, each with its parameter kinds;
- the getter names;
- the field values of a freshly constructed instance.

A record object is `Schema.Instance`, a class whose field map the setters update in place. A missing key stands for a Java `null` field. Errors are a `Result` datatype whose cases are the exceptions the code really throws:
- the four `ParserException` cases: `NoFields`, `NoSetter`, `BadArity` and `ConversionFailed`;
- the unchecked exceptions that escape unwrapped: `Bounds` from `substring`, `NoGetter` from `orElseThrow`, `NegativeRepeat` from `String.repeat`, and `NullValue` from `toString` on `null`.

Modules:
- `Text`: Java `String.trim`, `isBlank`, `repeat`, the ASCII capitalisation used for accessor names, `Integer.toString` and `Integer(String)`.
- `Schema`: descriptors, kinds, values, record classes, errors and the record object.
- `LineParser`: `LineParserImpl`, i.e. `extractData`, `findSetter`, `invoke`'s arity check, `convertData`, `parse(Field)` and `getTarget`.
- `FlatFileParser`: `FlatFileParserImpl`. This has the per-line `parse(String, Class)`, the batch loop `parse(BufferedReader, Class)`, `padding`, `findGetter`, `computeColumn` and `write`. The parser object holds its pad string, and the output stream is a `Sink` of rows.
- `RoundTrip`: the write-then-parse law.
- `Examples`: the `Person` class and the dummy classes of the project's tests, with what the codec does on each.

The methods follow the source's loops:
- `FlatFileParserImpl.Parse` is the `while` loop over lines;
- `ParseLine` is the loop over fields that mutates a fresh instance;
- `BuildRow` is the `StringBuilder` loop over columns;
- `Write` is the loop over records that pushes each row to the sink.

Each is proved against a specification function:
- `DecodeBatch` for `Parse`;
- `DecodeLine` for `ParseLine`;
- `EncodeRow` for `BuildRow`;
- `Emit` for `Write`.

The lemmas about those functions state what the library promises.

Five behaviours of the code are easy to misread; the model follows the code in each:
- **A value wider than its column.** It is not written with silent overflow. The pad count goes negative and `String.repeat` throws `IllegalArgumentException`, so the row fails (`NegativeRepeat`).
- **A class with no `@Field` field.** It is refused only inside the per-line parse. Empty input, or a blank first line, gives an empty list even for such a class.
- **A missing getter.** Its `NoSuchElementException` is not wrapped in a `ParserException`.
- **The "exceeded size" test.** It writes an 8-character value into an 8-wide column, so it exercises an exact fit, not an overflow.
- **Column starts.** `write` ignores `start`: it puts each column right after the previous one and sizes it by `end - start`. A written row lines up with the class's own annotations only when the fields abut from column 0 in declaration order (`Examples.GapNotReadBack`).

## Model

| member | source | states |
|---|---|---|
| Text.TrimBounds | src/main/java/cphne/flatfileparser/LineParserImpl.java:48 | trim's cut points: every char stripped from either end is at most U+0020, and the first and last chars kept are not |
| Text.Trim | src/main/java/cphne/flatfileparser/LineParserImpl.java:48 | the trimmed text has no char at most U+0020 at either end and is no longer than the input |
| Text.TrimOfTrimmed | src/main/java/cphne/flatfileparser/LineParserImpl.java:48 | trim leaves a string without trimmable ends unchanged |
| Text.TrimPadded | src/main/java/cphne/flatfileparser/LineParserImpl.java:48 | trim removes exactly the run of spaces padded after a trimmed string |
| Text.Repeat | src/main/java/cphne/flatfileparser/FlatFileParserImpl.java:127 | `String.repeat`: n copies of the pad, length n times the pad's length, every char the pad char when the pad is one char |
| Text.Capitalize | src/main/java/cphne/flatfileparser/LineParserImpl.java:58-60 | the first char upper-cased, the rest unchanged, same length |
| Text.IsBlank | src/main/java/cphne/flatfileparser/FlatFileParserImpl.java:64 | `String.isBlank`: every char is `Character.isWhitespace` (`IsWhitespace` lists them, so U+00A0 is not blank but U+2003 is); where the read loop stops is stated by `FirstBlank` and `BatchEmpty` |
| Text.Digits | src/main/java/cphne/flatfileparser/FlatFileParserImpl.java:120 | the decimal digits of a natural number: their value is that number and there is no leading zero |
| Text.IntToString | src/main/java/cphne/flatfileparser/FlatFileParserImpl.java:120 | `Integer.toString` is never empty and has no trimmable ends, so trim keeps it |
| Text.ParseInt | src/main/java/cphne/flatfileparser/LineParserImpl.java:84-85 | `Integer(String)`: a text is accepted exactly when it is a literal (an optional '-' or '+' followed by at least one ASCII digit) whose signed value lies in [-2^31, 2^31), and the result is that signed value; so every digit string below 2^31 is accepted, leading zeros included |
| Text.ParseSigned | src/main/java/cphne/flatfileparser/LineParserImpl.java:84-85 | a '-' literal is read as the negated value and a '+' literal as the value |
| Text.ParseRejectsUnderflow | src/main/java/cphne/flatfileparser/LineParserImpl.java:85-87 | one below `Integer.MIN_VALUE` is refused |
| Text.ParseIntToString | src/main/java/cphne/flatfileparser/LineParserImpl.java:85 | `Integer(String)` reads back every 32-bit int that `Integer.toString` renders |
| Text.ParseLeadingZeros | src/main/java/cphne/flatfileparser/LineParserImpl.java:85 | leading zeros are accepted: "016" is 16 and "-0042" is -42 |
| Text.ParseRejects | src/main/java/cphne/flatfileparser/LineParserImpl.java:85-87 | the empty text, a lone sign, a trailing dot and a leading space are not int literals |
| Text.ParseRejectsOverflow | src/main/java/cphne/flatfileparser/LineParserImpl.java:85-87 | one past `Integer.MAX_VALUE` is refused |
| Schema.AccessorName | src/main/java/cphne/flatfileparser/LineParserImpl.java:57-60 | an accessor name is its prefix, the field name's first letter upper-cased, then the rest of the field name; the setter name uses the prefix "set" (LineParserImpl.java:57-60) and the getter name the prefix "get" (FlatFileParserImpl.java:134-137) |
| Schema.Render | src/main/java/cphne/flatfileparser/FlatFileParserImpl.java:120 | `toString`: a String renders as itself; an int renders as non-empty text without trimmable ends |
| Schema.RenderReadsBack | src/main/java/cphne/flatfileparser/FlatFileParserImpl.java:120 | `Integer(String)` reads a rendered int back as the same int |
| Schema.Message | src/main/java/cphne/flatfileparser/LineParserImpl.java:62-74 | computes the text of the codec's own `ParserException`s: the missing-setter and bad-arity messages here and the no-fields message of FlatFileParserImpl.java:80; `Examples.Messages` and `Examples.NoFieldsRefused` state the texts for the test classes |
| Schema.Instance.constructor | src/main/java/cphne/flatfileparser/FlatFileParserImpl.java:77 | a fresh record object of a class holds that class's initial field values |
| LineParser.ExtractData | src/main/java/cphne/flatfileparser/LineParserImpl.java:45-51 | extraction succeeds exactly when 0 <= start <= end <= line length, otherwise `Bounds`; the data is trimmed and no wider than the column |
| LineParser.FindSetter | src/main/java/cphne/flatfileparser/LineParserImpl.java:53-65 | found exactly when `set<Name>` is a setter of the class, and then with its parameter types; otherwise `NoSetter` naming the field |
| LineParser.ConvertData | src/main/java/cphne/flatfileparser/LineParserImpl.java:82-89 | String is the text unchanged; int succeeds exactly when the text is a 32-bit int literal, with its value; a type without a String constructor fails with that cause; every failure is a wrapped `ConversionFailed` |
| LineParser.SetterArgument | src/main/java/cphne/flatfileparser/LineParserImpl.java:67-78 | a setter whose parameter count is not 1 is refused with its name and count before any conversion; otherwise the argument is the conversion to its one parameter type |
| LineParser.FieldValue | src/main/java/cphne/flatfileparser/LineParserImpl.java:34-43 | a value for the setter comes out only when the range lies in the line, `set<Name>` exists and it takes one parameter; every failure is `Bounds`, `NoSetter` naming the field, `BadArity` naming the setter, or a wrapped conversion failure |
| LineParser.ParseField | src/main/java/cphne/flatfileparser/LineParserImpl.java:34-43 | computes the target's fields after parse(Field): the old ones with this field set to `FieldValue`; `ParseFieldOrder` and `ParseFieldSetsOneField` state its properties |
| LineParser.ParseFieldOrder | src/main/java/cphne/flatfileparser/LineParserImpl.java:34-43 | parse(Field) checks bounds first, then the setter's existence, then its arity, then conversion; the first failing check decides the error, and success stores the converted text |
| LineParser.ParseFieldSetsOneField | src/main/java/cphne/flatfileparser/LineParserImpl.java:67-80 | a successful parse(Field) sets exactly the field it names, to the converted trimmed text, and leaves every other field as it was |
| LineParser.LineParser.constructor | src/main/java/cphne/flatfileparser/LineParserImpl.java:20-27 | the parser holds the line and the target it is given |
| LineParser.LineParser.GetTarget | src/main/java/cphne/flatfileparser/LineParserImpl.java:29-32 | getTarget returns the very object the parser was built with |
| LineParser.LineParser.Parse | src/main/java/cphne/flatfileparser/LineParserImpl.java:34-43 | on success the target's fields become the old ones with this field set; on failure the call reports the error and the target is unchanged |
| FlatFileParser.Padding | src/main/java/cphne/flatfileparser/FlatFileParserImpl.java:124-128 | padding succeeds exactly when the data fits the column, and then is the pad repeated (end - start) - length times; otherwise `NegativeRepeat` |
| FlatFileParser.FindGetter | src/main/java/cphne/flatfileparser/FlatFileParserImpl.java:130-142 | found exactly when `get<Name>` is a getter of the class; otherwise the unwrapped `NoGetter` |
| FlatFileParser.ComputeColumn | src/main/java/cphne/flatfileparser/FlatFileParserImpl.java:115-122 | with a one-char pad a computed column is exactly end - start chars wide |
| FlatFileParser.ComputeColumnLaw | src/main/java/cphne/flatfileparser/FlatFileParserImpl.java:115-128 | a column fails with `NoGetter` without a getter, then with `NullValue` on a null field, then with `NegativeRepeat` exactly when the rendered value is wider than the column; otherwise it is the rendered value followed by its padding |
| LineParser.WrappedErrors | src/main/java/cphne/flatfileparser/LineParserImpl.java:45-89 | a missing setter, a bad arity and a failed conversion are `ParserException`s; a substring range outside the line escapes unwrapped |
| FlatFileParser.WriteErrorsUnwrapped | src/main/java/cphne/flatfileparser/FlatFileParserImpl.java:115-139 | a missing getter, a null value and a value too wide for its column escape unwrapped, not as `ParserException`s |
| FlatFileParser.JoinColumnsLaw | src/main/java/cphne/flatfileparser/FlatFileParserImpl.java:103-109 | concatenating the columns given by any column function succeeds exactly when every column does |
| FlatFileParser.Columns | src/main/java/cphne/flatfileparser/FlatFileParserImpl.java:103-109 | computes the concatenated columns of a row (the fold `JoinColumns` over computeColumn), the first failing column deciding; `ColumnsLaw`, `ColumnsWidth` and `ColumnsFirstError` state its properties |
| FlatFileParser.ColumnsLaw | src/main/java/cphne/flatfileparser/FlatFileParserImpl.java:103-109 | the columns succeed exactly when every column does |
| FlatFileParser.ColumnsWidth | src/main/java/cphne/flatfileparser/FlatFileParserImpl.java:103-109 | with a one-char pad, successful columns are as wide as the declared widths together |
| FlatFileParser.ColumnsFirstError | src/main/java/cphne/flatfileparser/FlatFileParserImpl.java:103-109 | a row fails with the error of its first failing column |
| FlatFileParser.EncodeRow | src/main/java/cphne/flatfileparser/FlatFileParserImpl.java:100-110 | computes one row of write: the columns, then the line separator; `EncodeRowLaw` states its properties |
| FlatFileParser.EncodeRowLaw | src/main/java/cphne/flatfileparser/FlatFileParserImpl.java:100-110 | a row is produced exactly when every column is, it ends with the line separator, and with a one-char pad it is the sum of the widths plus one long |
| FlatFileParser.EmitResults | src/main/java/cphne/flatfileparser/FlatFileParserImpl.java:100-112 | computes what the record loop leaves in the stream from the rows' outcomes: the rows up to the first failure, and that failure; `EmitLaw` states its properties |
| FlatFileParser.Emit | src/main/java/cphne/flatfileparser/FlatFileParserImpl.java:96-113 | computes what write leaves in the stream for a list of records; `EmitLaw`, `EmitEmpty` and `EmitStopsAtFailure` state its properties |
| FlatFileParser.EmitLaw | src/main/java/cphne/flatfileparser/FlatFileParserImpl.java:100-112 | write emits the rows of the records in list order up to the first record that fails; that record's error ends the call with the earlier rows written; with no failure every record has its row |
| FlatFileParser.EmitEmpty | src/main/java/cphne/flatfileparser/FlatFileParserImpl.java:96-100 | an empty list writes nothing and does not fail |
| FlatFileParser.EmitStopsAtFailure | src/main/java/cphne/flatfileparser/FlatFileParserImpl.java:100-112 | once a record has failed, the records after it change nothing |
| FlatFileParser.ApplyFields | src/main/java/cphne/flatfileparser/FlatFileParserImpl.java:82-84 | computes the fields after parsing each descriptor in turn into the target; `ApplyFieldsOk`, `ApplyFieldsFirstError`, `ApplyFieldsExtend` and `RoundTrip.DecodeFields` state its properties |
| FlatFileParser.DecodeLine | src/main/java/cphne/flatfileparser/FlatFileParserImpl.java:76-86 | computes parse(String, Class): `NoFields` for a class without `@Field` fields, otherwise the field loop over a fresh instance; `DecodeLineLaw`, `DecodeLineFirstError`, `BatchNoFields`, `RoundTrip.DecodeLayout` and `FlatFileParserImpl.ParseLine` state its properties |
| FlatFileParser.ApplyFieldsExtend | src/main/java/cphne/flatfileparser/FlatFileParserImpl.java:82-84 | a field that fails ends the line: the fields after it are not parsed |
| FlatFileParser.ApplyFieldsOk | src/main/java/cphne/flatfileparser/FlatFileParserImpl.java:82-84 | the field loop succeeds exactly when every field yields a value for its setter |
| FlatFileParser.ApplyFieldsFirstError | src/main/java/cphne/flatfileparser/FlatFileParserImpl.java:82-84 | when the fields before the i-th succeed and the i-th fails, the loop fails with the i-th field's error |
| FlatFileParser.DecodeLineLaw | src/main/java/cphne/flatfileparser/FlatFileParserImpl.java:76-86 | a line is decoded exactly when the class has `@Field` fields and each of them yields a value for its setter |
| FlatFileParser.DecodeLineFirstError | src/main/java/cphne/flatfileparser/FlatFileParserImpl.java:76-86 | a line that fails reports the error of its first failing field |
| FlatFileParser.FirstBlank | src/main/java/cphne/flatfileparser/FlatFileParserImpl.java:63-71 | where the read loop stops: every line before it is non-blank, and it is a blank line or the end of the input |
| FlatFileParser.DecodeBatch | src/main/java/cphne/flatfileparser/FlatFileParserImpl.java:61-74 | computes parse(BufferedReader, Class): the lines before the first blank one, decoded in order, or the first error; `BatchOk`, `BatchFailsAtFirstBadLine`, `BatchIgnoresAfterBlank`, `BatchEmpty` and `BatchNoFields` state its properties |
| FlatFileParser.BatchOk | src/main/java/cphne/flatfileparser/FlatFileParserImpl.java:61-74 | the batch succeeds exactly when every line before the terminator decodes, and then holds one record per such line, in input order |
| FlatFileParser.BatchFailsAtFirstBadLine | src/main/java/cphne/flatfileparser/FlatFileParserImpl.java:64-70 | the first line that fails aborts the batch with its error and no partial list |
| FlatFileParser.BatchIgnoresAfterBlank | src/main/java/cphne/flatfileparser/FlatFileParserImpl.java:64-71 | the lines after the terminating blank line never affect the result |
| FlatFileParser.BatchEmpty | src/main/java/cphne/flatfileparser/FlatFileParserImpl.java:62-64 | no input, or a blank first line, yields an empty list whatever the class declares |
| FlatFileParser.BatchNoFields | src/main/java/cphne/flatfileparser/FlatFileParserImpl.java:76-81 | a class without `@Field` fields is refused with `NoFields` naming it once a non-blank line is read |
| FlatFileParser.FlatFileParserImpl.constructor | src/main/java/cphne/flatfileparser/FlatFileParserImpl.java:29-31 | the default parser pads with one space |
| FlatFileParser.FlatFileParserImpl.WithPad | src/main/java/cphne/flatfileparser/FlatFileParserImpl.java:37-39 | a parser pads with the string it is given |
| FlatFileParser.FlatFileParserImpl.ParseLine | src/main/java/cphne/flatfileparser/FlatFileParserImpl.java:76-86 | parse(String, Class) returns a fresh object of the class whose fields are the decoded line exactly when the line decodes, and otherwise the decoding error |
| FlatFileParser.FlatFileParserImpl.Parse | src/main/java/cphne/flatfileparser/FlatFileParserImpl.java:61-74 | the batch loop returns one fresh, distinct object per line of the decoded batch, in order, holding that line's fields, exactly when the batch decodes; otherwise the batch's error |
| FlatFileParser.FlatFileParserImpl.BuildRow | src/main/java/cphne/flatfileparser/FlatFileParserImpl.java:101-110 | the StringBuilder loop produces the record's encoded row, or the error of its first failing column |
| FlatFileParser.FlatFileParserImpl.Write | src/main/java/cphne/flatfileparser/FlatFileParserImpl.java:96-113 | the sink gains exactly the emitted rows, in order, after what it held, and the call fails with the first record's error exactly when one fails |
| RoundTrip.ColumnOf | src/main/java/cphne/flatfileparser/FlatFileParserImpl.java:115-127 | with the space pad, a value that fits is written as itself followed by spaces, exactly as wide as its column |
| RoundTrip.CellTrims | src/main/java/cphne/flatfileparser/LineParserImpl.java:48 | trimming such a column gives back the rendered value |
| RoundTrip.ConvertRender | src/main/java/cphne/flatfileparser/LineParserImpl.java:82-89 | converting the rendered value with the field's one-parameter setter gives back the value |
| RoundTrip.ColumnsJoin | src/main/java/cphne/flatfileparser/FlatFileParserImpl.java:103-109 | a row's columns are the concatenation of the computed cells, in declaration order |
| RoundTrip.JoinLayout | src/main/java/cphne/flatfileparser/LineParserImpl.java:48 | in a layout of back-to-back columns from 0, the row is as wide as the layout and each field's substring is its own cell |
| RoundTrip.DecodeFields | src/main/java/cphne/flatfileparser/FlatFileParserImpl.java:82-84 | when every field decodes to a value, the field loop sets each field to it and keeps every other field of the instance |
| RoundTrip.LayoutLine | src/main/java/cphne/flatfileparser/FlatFileParserImpl.java:100-110 | for a layout whose columns abut from column 0 in declaration order (`Abutting`), and a record whose every annotated field `Survives` (it is non-null, has a getter and a one-parameter setter of its value's type, fits its column and has no trimmable ends), the space-padded row is a line of the layout's width plus "\n", each field's substring being its column |
| RoundTrip.FieldOfColumn | src/main/java/cphne/flatfileparser/LineParserImpl.java:34-43 | parsing a field from the column written for it gives back its value |
| RoundTrip.EncodeLayout | src/main/java/cphne/flatfileparser/FlatFileParserImpl.java:96-113 | for a layout whose columns abut from column 0 in declaration order (`Abutting`), and a record whose every annotated field `Survives` (it is non-null, has a getter and a one-parameter setter of its value's type, fits its column and has no trimmable ends), the line written with the space pad has the layout's width and every field of it reads back as its value |
| RoundTrip.DecodeLayout | src/main/java/cphne/flatfileparser/FlatFileParserImpl.java:76-86 | such a line decodes to the instance's defaults with every annotated field set to its value |
| RoundTrip.RoundTripLine | src/main/java/cphne/flatfileparser/FlatFileParserImpl.java:100-110 | write then parse with the space pad, for a layout whose columns abut from column 0 in declaration order (`Abutting`), and a record whose every annotated field `Survives` (it is non-null, has a getter and a one-parameter setter of its value's type, fits its column and has no trimmable ends) and at least one field: the row is the layout's width plus "\n", and parsing it sets every annotated field back to its value and keeps the fresh instance's other fields |
| RoundTrip.RoundTripRecord | src/main/java/cphne/flatfileparser/FlatFileParserImpl.java:76-86 | for a layout whose columns abut from column 0 in declaration order (`Abutting`), and a record whose every annotated field `Survives` (it is non-null, has a getter and a one-parameter setter of its value's type, fits its column and has no trimmable ends), with at least one field, and whose other fields hold what a fresh instance holds: the record is read back equal from the row written for it with the space pad |
| Examples.AccessorNames | src/main/java/cphne/flatfileparser/LineParserImpl.java:57-60 | Person's firstname accessors are `setFirstname` and `getFirstname` |
| Examples.AgeAccessorNames | src/main/java/cphne/flatfileparser/FlatFileParserImpl.java:134-137 | Person's age accessors are `setAge` and `getAge` |
| Examples.PersonSetters | src/test/java/cphne/flatfileparser/Person.java:8-21 | only Person's age setter takes an int; the others take a String |
| Examples.WriteWithSpaces | src/test/java/cphne/flatfileparser/FlatFileParserImplTest.java:31-41 | the default parser writes parry/hotter/16/male as `parry   hotter  16 male      ` and a line separator |
| Examples.WriteWithDotPad | src/test/java/cphne/flatfileparser/FlatFileParserImplTest.java:44-55 | the debug parser writes hodd/toward/54/male as `hodd....toward..54.male......` and a line separator |
| Examples.WriteFullColumn | src/test/java/cphne/flatfileparser/FlatFileParserImplTest.java:58-69 | an 8-char firstname in its 8-wide column gets no padding |
| Examples.WriteTooWide | src/main/java/cphne/flatfileparser/FlatFileParserImpl.java:126-127 | a 9-char firstname makes the row fail with `NegativeRepeat` |
| Examples.WriteNullField | src/main/java/cphne/flatfileparser/FlatFileParserImpl.java:120 | a fresh Person, whose strings are null, cannot be written: `NullValue` |
| Examples.WriteNothing | src/test/java/cphne/flatfileparser/FlatFileParserImplTest.java:72-76 | writing no records emits nothing |
| Examples.WriteThreeRecords | src/test/java/cphne/flatfileparser/FlatFileParserImplTest.java:82-99 | the debug parser writes the three Raifod/Arnone Persons as three rows in list order |
| Examples.PersonRoundTrip | src/test/java/cphne/flatfileparser/Person.java:8-21 | a Person whose four fields are set, fit and have no trimmable ends is read back equal from its space-padded row |
| Examples.ParseWritten | src/test/java/cphne/flatfileparser/FlatFileParserImplTest.java:153-160 | the line `parry   hotter  16 male      ` decodes to parry/hotter/16/male |
| Examples.ParseLeadingZeroAge | src/test/java/cphne/flatfileparser/FlatFileParserImplTest.java:118-124 | the line `parry   hotter  016male      ` decodes to parry/hotter/16/male: the age column `016` goes through the field loop as 16 |
| Examples.DotPadNotReadBack | src/main/java/cphne/flatfileparser/LineParserImpl.java:48 | the debug parser's row is not read back: trim keeps the dots, and "54." is no int literal |
| Examples.GapNotReadBack | src/main/java/cphne/flatfileparser/FlatFileParserImpl.java:103-127 | with a = [0, 2) and b = [4, 6), the row written for "xy", "zw" is "xyzw\n" because write ignores start, and its line is refused with `Bounds` because b's range lies beyond it |
| Examples.ParseStopsAtBlankLine | src/main/java/cphne/flatfileparser/FlatFileParserImpl.java:64 | a blank line ends the batch: the line after it, not a record, is never decoded |
| Examples.NoFieldsRefused | src/test/java/cphne/flatfileparser/FlatFileParserImplTest.java:199-205 | a class without fields is refused on a non-blank line, with the message naming `class <name>` |
| Examples.NoFieldsEmptyInput | src/main/java/cphne/flatfileparser/FlatFileParserImpl.java:62-64 | empty input yields an empty list even for a class without fields |
| Examples.MissingSetterRefused | src/test/java/cphne/flatfileparser/FlatFileParserImplTest.java:207-213 | a field without a setter is refused with `NoSetter` naming `isMissingASetter` |
| Examples.TwoParameterSetterRefused | src/test/java/cphne/flatfileparser/FlatFileParserImplTest.java:215-221 | a two-parameter setter is refused with `BadArity` naming `setInvalid` and 2 |
| Examples.NonConvertableTypeRefused | src/test/java/cphne/flatfileparser/FlatFileParserImplTest.java:223-229 | a parameter type without a String constructor fails as a wrapped `NoStringConstructor` |
| Examples.Messages | src/main/java/cphne/flatfileparser/LineParserImpl.java:62-74 | the exact messages of the missing-setter and bad-arity `ParserException`s for the test dummies |

## Left out

- The `File`, `Path` and `InputStream` overloads of parse, and every `IOException`, are left out. They are stream plumbing: the batch parser works on a sequence of lines, and the end of that sequence stands for `readLine` returning `null`.
- The output stream's bytes and the UTF-8 encoding are left out. The sink is the sequence of rows written.
- The platform line separator `%n` is modelled as "\n".
- Reflection is replaced by the `RecordClass` tables. This leaves out `getDeclaredFields`, annotation lookup, `getMethods`, `MethodType.wrap` and `getConstructor(String)`.
  - Field order is the declared sequence.
  - A setter or getter is found by a table lookup, so there is no overload ambiguity from `findFirst`.
  - Inherited getters such as `getClass` are not in the tables.
- Conversion covers only `String`, `int` and a type without a `String` constructor. No other wrapper's constructor is modelled.
  - `Integer(String)` accepts ASCII digits only. `Character.digit` would also accept other Unicode digits.
  - `Text.Capitalize` upper-cases by the ASCII rule only. Java's `toUpperCase()` uses the default locale, and the model assumes one in which ASCII letters upper-case by the ASCII rule. Under a Turkish or Azerbaijani locale 'i' becomes 'İ', so a field such as `invalid` would fail setter lookup with `NoSetter` (LineParserImpl.java:62), and getter lookup would throw an unwrapped `NoSuchElementException` (FlatFileParserImpl.java:139); neither failure is modelled. Upper-casing of non-ASCII letters is not modelled either.
- A failing no-argument constructor of the record class is left out, as are exceptions thrown by setters or getters themselves. The model's accessors only store and return field values.
- The `ParserException` wrapping of a `ReflectiveOperationException` in `parse(BufferedReader, Class)` is left out. The only such exceptions are the reflective failures above, which are left out too.
- SLF4J logging is left out, including the warning on an empty write list.
- `FlatFileParser.Padding`, `FlatFileParser.ComputeColumn` and `LineParser.ExtractData` treat column bounds and widths as unbounded integers. Java's `int` arithmetic on `end - start - length` could wrap for extreme annotation values, and the model does not wrap.
- `Examples.Messages`: the bad-arity message is stated as its concatenated parts ("Cant invoke setter '" + "setInvalid" + "', expected exactly one parameter, found " + "2" + ".") rather than as one literal. The text is the same.
- Text is measured in Unicode scalar values: one Dafny `char` is one column. Java's `length()` and `substring` count UTF-16 code units, so a character above U+FFFF takes two columns in Java and one here. For such text `LineParser.ExtractData`, `FlatFileParser.Padding` and `FlatFileParser.ComputeColumn` slice and pad differently (and so do the width facts built on them, such as `FlatFileParser.ColumnsWidth` and the round trip), and a Java substring that splits a surrogate pair cannot be expressed.
- `ParserFactory`, the `FlatFileParser` and `LineParser` interfaces and the `Field` annotation are not part of this model. They hold no logic; the annotation is the `Descriptor` datatype.
