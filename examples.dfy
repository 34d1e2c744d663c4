/** The record classes of the project's tests, and what the codec does with them. */
module Examples {
  import opened Text
  import opened Schema
  import opened LineParser
  import opened FlatFileParser
  import opened RoundTrip

  // ---------------------------------------------------------------------------
  // Person: firstname [0, 8), lastname [8, 16), age [16, 19), gender [19, 29),
  // with Lombok getters and setters; a fresh Person has age 0 and null strings.
  // ---------------------------------------------------------------------------

  const FirstName := Descriptor("firstname", 0, 8)
  const LastName := Descriptor("lastname", 8, 16)
  const Age := Descriptor("age", 16, 19)
  const Gender := Descriptor("gender", 19, 29)

  /** Person's Lombok accessors: a one-`String` (one-`int` for age) setter and a getter per
      field. */
  const Person := RecordClass(
    "cphne.flatfileparser.Person",
    [FirstName, LastName, Age, Gender],
    map[SetterName("age") := [IntKind], SetterName("firstname") := [StrKind],
        SetterName("lastname") := [StrKind], SetterName("gender") := [StrKind]],
    {GetterName("firstname"), GetterName("lastname"), GetterName("age"), GetterName("gender")},
    map["age" := IntVal(0)])

  function PersonValues(first: string, last: string, age: Int32, gender: string): Fields {
    map["firstname" := StrVal(first), "lastname" := StrVal(last), "age" := IntVal(age), "gender" := StrVal(gender)]
  }

  /** The accessors are found by the names Lombok gives them. */
  lemma AccessorNames()
    ensures SetterName("firstname") == "setFirstname" && GetterName("firstname") == "getFirstname"
  {
    assert Capitalize("firstname") == "Firstname" by { assert "firstname"[1..] == "irstname"; }
    assert "set" + "Firstname" == "setFirstname";
    assert "get" + "Firstname" == "getFirstname";
  }

  lemma AgeAccessorNames()
    ensures SetterName("age") == "setAge" && GetterName("age") == "getAge"
  {
    assert Capitalize("age") == "Age" by { assert "age"[1..] == "ge"; }
  }

  /** Only the age setter takes an int. */
  lemma PersonSetters()
    ensures Person.setters[SetterName("firstname")] == [StrKind]
    ensures Person.setters[SetterName("lastname")] == [StrKind]
    ensures Person.setters[SetterName("age")] == [IntKind]
    ensures Person.setters[SetterName("gender")] == [StrKind]
  {
    assert SetterName("age")[3] == 'A';
    assert SetterName("firstname")[3] == 'F';
    assert SetterName("lastname")[3] == 'L';
    assert SetterName("gender")[3] == 'G';
  }

  /** The columns of a Person whose four fields are set. */
  lemma PersonRow(pad: string, values: Fields, c0: string, c1: string, c2: string, c3: string)
    requires ComputeColumn(pad, Record(Person, values), FirstName) == Ok(c0)
    requires ComputeColumn(pad, Record(Person, values), LastName) == Ok(c1)
    requires ComputeColumn(pad, Record(Person, values), Age) == Ok(c2)
    requires ComputeColumn(pad, Record(Person, values), Gender) == Ok(c3)
    ensures EncodeRow(pad, Record(Person, values)) == Ok(c0 + c1 + c2 + c3 + "\n")
  {
    var cells := [c0, c1, c2, c3];
    var fs := Person.fields;
    forall i | 0 <= i < 4
      ensures ComputeColumn(pad, Record(Person, values), fs[i]) == Ok(cells[i])
    {
      if i == 0 {} else if i == 1 {} else if i == 2 {} else {}
    }
    ColumnsJoin(pad, Record(Person, values), fs, cells);
    assert Join([c0]) == c0 by { assert [c0][..0] == []; }
    assert Join([c0, c1]) == c0 + c1 by { assert [c0, c1][..1] == [c0]; }
    assert Join([c0, c1, c2]) == c0 + c1 + c2 by { assert [c0, c1, c2][..2] == [c0, c1]; }
    assert cells[..3] == [c0, c1, c2];
  }

  /** One column of a Person field holding `data` with pad `pad`. */
  lemma PersonColumn(pad: string, values: Fields, d: Descriptor, data: string, padding: string)
    requires d in Person.fields && d.name in values && Render(values[d.name]) == data
    requires |data| <= d.end - d.start && padding == Repeat(pad, d.end - d.start - |data|)
    ensures ComputeColumn(pad, Record(Person, values), d) == Ok(data + padding)
  {
    ComputeColumnLaw(pad, Record(Person, values), d);
  }

  /** Runs of one pad char, as String.repeat builds them. */
  lemma Runs(c: char)
    ensures Repeat([c], 0) == [] && Repeat([c], 1) == [c] && Repeat([c], 2) == [c, c]
    ensures Repeat([c], 3) == [c, c, c] && Repeat([c], 4) == [c, c, c, c]
    ensures Repeat([c], 6) == [c, c, c, c, c, c]
  {
    assert Repeat([c], 1) == [c] + [];
    assert Repeat([c], 2) == [c] + [c];
    assert Repeat([c], 3) == [c] + [c, c];
    assert Repeat([c], 4) == [c] + [c, c, c];
    assert Repeat([c], 5) == [c] + [c, c, c, c];
    assert Repeat([c], 6) == [c] + [c, c, c, c, c];
  }

  lemma FiftyFour()
    ensures IntToString(54) == "54" && IntToString(16) == "16"
  {
    assert Digits(5) == "5" && Digits(1) == "1";
  }

  /** The debug rows of the Person tests, as the concatenation of their columns. */
  lemma DebugRowTexts()
    ensures "hodd" + "...." + ("toward" + "..") + ("54" + ".") + ("male" + "......") + "\n"
         == "hodd....toward..54.male......\n"
    ensures "hoddtodd" + "" + ("toward" + "..") + ("54" + ".") + ("male" + "......") + "\n"
         == "hoddtoddtoward..54.male......\n"
  {
  }

  /** The space-padded row of the Person test, as the concatenation of its columns. */
  lemma SpaceRowText()
    ensures "parry" + "   " + ("hotter" + "  ") + ("16" + " ") + ("male" + "      ") + "\n"
         == "parry   hotter  16 male      \n"
  {
  }

  /** The debug rows of the three Raifod Persons, as the concatenation of their columns. */
  lemma RaifodRowTexts()
    ensures "Raifod-" + "1" + ("Arnone-" + "1") + ("1" + "..") + ("female" + "....") + "\n"
         == "Raifod-1Arnone-11..female....\n"
    ensures "Raifod-" + "2" + ("Arnone-" + "2") + ("2" + "..") + ("female" + "....") + "\n"
         == "Raifod-2Arnone-22..female....\n"
    ensures "Raifod-" + "3" + ("Arnone-" + "3") + ("3" + "..") + ("female" + "....") + "\n"
         == "Raifod-3Arnone-33..female....\n"
  {
  }

  /** The debug parser (pad ".") writes hodd/toward/54/male as one row with dotted padding. */
  lemma WriteWithDotPad()
    ensures EncodeRow(".", Record(Person, PersonValues("hodd", "toward", 54, "male")))
         == Ok("hodd....toward..54.male......\n")
  {
    DebugRowTexts();
    var values := PersonValues("hodd", "toward", 54, "male");
    FiftyFour();
    Runs('.');
    PersonColumn(".", values, FirstName, "hodd", "....");
    PersonColumn(".", values, LastName, "toward", "..");
    PersonColumn(".", values, Age, "54", ".");
    PersonColumn(".", values, Gender, "male", "......");
    PersonRow(".", values, "hodd" + "....", "toward" + "..", "54" + ".", "male" + "......");
  }

  /** A value exactly as wide as its column gets no padding. */
  lemma WriteFullColumn()
    ensures EncodeRow(".", Record(Person, PersonValues("hoddtodd", "toward", 54, "male")))
         == Ok("hoddtoddtoward..54.male......\n")
  {
    DebugRowTexts();
    var values := PersonValues("hoddtodd", "toward", 54, "male");
    FiftyFour();
    Runs('.');
    PersonColumn(".", values, FirstName, "hoddtodd", "");
    PersonColumn(".", values, LastName, "toward", "..");
    PersonColumn(".", values, Age, "54", ".");
    PersonColumn(".", values, Gender, "male", "......");
    PersonRow(".", values, "hoddtodd" + "", "toward" + "..", "54" + ".", "male" + "......");
  }

  /** A value wider than its column makes String.repeat throw: write fails. */
  lemma WriteTooWide()
    ensures EncodeRow(".", Record(Person, PersonValues("hoddtoddy", "toward", 54, "male"))) == Err(NegativeRepeat)
  {
    var rec := Record(Person, PersonValues("hoddtoddy", "toward", 54, "male"));
    ComputeColumnLaw(".", rec, FirstName);
    ColumnsFirstError(".", rec, Person.fields, 0);
  }

  /** A Person with a null field cannot be written: toString on null throws. */
  lemma WriteNullField()
    ensures EncodeRow(" ", Record(Person, Person.defaults)) == Err(NullValue)
  {
    var rec := Record(Person, Person.defaults);
    ComputeColumnLaw(" ", rec, FirstName);
    ColumnsFirstError(" ", rec, Person.fields, 0);
  }

  /** Writing no records writes nothing. */
  lemma WriteNothing()
    ensures Emit(" ", []) == Emission([], None)
  {
    EmitEmpty(" ");
  }

  /** The default parser writes parry/hotter/16/male padded with spaces. */
  lemma WriteWithSpaces()
    ensures EncodeRow(" ", Record(Person, PersonValues("parry", "hotter", 16, "male")))
         == Ok("parry   hotter  16 male      \n")
  {
    SpaceRowText();
    var values := PersonValues("parry", "hotter", 16, "male");
    FiftyFour();
    Runs(' ');
    PersonColumn(" ", values, FirstName, "parry", "   ");
    PersonColumn(" ", values, LastName, "hotter", "  ");
    PersonColumn(" ", values, Age, "16", " ");
    PersonColumn(" ", values, Gender, "male", "      ");
    PersonRow(" ", values, "parry" + "   ", "hotter" + "  ", "16" + " ", "male" + "      ");
  }

  /** Every field of a Person whose four fields are set survives a round trip when the
      values fit. */
  lemma PersonSurvives(values: Fields)
    requires values.Keys == {"firstname", "lastname", "age", "gender"}
    requires values["firstname"].StrVal? && values["lastname"].StrVal? && values["gender"].StrVal?
    requires values["age"].IntVal?
    requires forall i :: 0 <= i < 4 ==>
      (|Render(values[Person.fields[i].name])| <= Person.fields[i].end - Person.fields[i].start
       && IsTrimmed(Render(values[Person.fields[i].name])))
    ensures forall i :: 0 <= i < |Person.fields| ==> Survives(Person, values, Person.fields[i])
  {
    PersonSetters();
    forall i | 0 <= i < |Person.fields|
      ensures Survives(Person, values, Person.fields[i])
    {
      if i == 0 {} else if i == 1 {} else if i == 2 {} else {}
    }
  }

  /** Person's columns sit back to back from column 0. */
  lemma PersonAbutting()
    ensures Abutting(Person.fields) && RowWidth(Person.fields) == 29
  {
  }

  lemma PersonFieldNames()
    ensures FieldNames(Person.fields) == {"firstname", "lastname", "age", "gender"}
  {
    var fs := Person.fields;
    assert FieldNames([FirstName]) == {"firstname"} by { assert [FirstName][..0] == []; }
    assert FieldNames([FirstName, LastName]) == {"firstname", "lastname"} by {
      assert [FirstName, LastName][..1] == [FirstName];
    }
    assert FieldNames([FirstName, LastName, Age]) == {"firstname", "lastname", "age"} by {
      assert [FirstName, LastName, Age][..2] == [FirstName, LastName];
    }
    assert fs[..3] == [FirstName, LastName, Age];
  }

  /** A Person whose fields fit their columns is read back from the row written for it. */
  lemma PersonRoundTrip(values: Fields)
    requires values.Keys == {"firstname", "lastname", "age", "gender"}
    requires values["firstname"].StrVal? && values["lastname"].StrVal? && values["gender"].StrVal?
    requires values["age"].IntVal?
    requires forall i :: 0 <= i < 4 ==>
      (|Render(values[Person.fields[i].name])| <= Person.fields[i].end - Person.fields[i].start
       && IsTrimmed(Render(values[Person.fields[i].name])))
    ensures var row := EncodeRow(" ", Record(Person, values));
      row.Ok? && |row.value| > 0 && DecodeLine(Person, row.value[..|row.value| - 1]) == Ok(values)
  {
    PersonSurvives(values);
    PersonFieldNames();
    PersonAbutting();
    assert Person.defaults.Keys == {"age"};
    assert values.Keys == Person.defaults.Keys + FieldNames(Person.fields);
    assert forall k :: k in Person.defaults ==> k in FieldNames(Person.fields);
    RoundTripRecord(Person, values);
  }

  /** ... and the default parser reads that row back into the same Person. */
  lemma ParseWritten()
    ensures DecodeLine(Person, "parry   hotter  16 male      ") == Ok(PersonValues("parry", "hotter", 16, "male"))
  {
    assert "parry   hotter  16 male      \n"[..29] == "parry   hotter  16 male      ";
    var values := PersonValues("parry", "hotter", 16, "male");
    FiftyFour();
    PersonRoundTrip(values);
    WriteWithSpaces();
  }

  const ZeroLine := "parry   hotter  016male      "

  /** The name columns of a line whose age has a leading zero, parsed one after the other. */
  lemma ZeroNameColumns(v1: Fields, v2: Fields)
    requires v1 == Person.defaults["firstname" := StrVal("parry")]
    requires v2 == v1["lastname" := StrVal("hotter")]
    ensures ParseField(Person, ZeroLine, Person.fields[0], Person.defaults) == Ok(v1)
    ensures ParseField(Person, ZeroLine, Person.fields[1], v1) == Ok(v2)
  {
    Runs(' ');
    assert ZeroLine[0..8] == "parry" + Repeat(" ", 3);
    assert ZeroLine[8..16] == "hotter" + Repeat(" ", 2);
    TrimPadded("parry", 3);
    TrimPadded("hotter", 2);
    PersonSetters();
  }

  /** Its age column "016" and its gender column. */
  lemma ZeroAgeColumns(v2: Fields, v3: Fields)
    requires v3 == v2["age" := IntVal(16)]
    ensures ParseField(Person, ZeroLine, Person.fields[2], v2) == Ok(v3)
    ensures ParseField(Person, ZeroLine, Person.fields[3], v3) == Ok(v3["gender" := StrVal("male")])
  {
    Runs(' ');
    assert ZeroLine[16..19] == "016";
    assert ZeroLine[19..29] == "male" + Repeat(" ", 6);
    TrimOfTrimmed("016");
    TrimPadded("male", 6);
    PersonSetters();
    ParseLeadingZeros();
  }

  /** A line whose four fields parse is decoded to the values the last field leaves. */
  lemma DecodesFour(cls: RecordClass, line: string, v1: Fields, v2: Fields, v3: Fields, v4: Fields)
    requires |cls.fields| == 4
    requires ParseField(cls, line, cls.fields[0], cls.defaults) == Ok(v1)
    requires ParseField(cls, line, cls.fields[1], v1) == Ok(v2)
    requires ParseField(cls, line, cls.fields[2], v2) == Ok(v3)
    requires ParseField(cls, line, cls.fields[3], v3) == Ok(v4)
    ensures DecodeLine(cls, line) == Ok(v4)
  {
    var fs := cls.fields;
    assert fs[..0] == [];
    ApplyFieldsStep(cls, line, fs, 0, cls.defaults, cls.defaults);
    ApplyFieldsStep(cls, line, fs, 1, cls.defaults, v1);
    ApplyFieldsStep(cls, line, fs, 2, cls.defaults, v2);
    ApplyFieldsStep(cls, line, fs, 3, cls.defaults, v3);
    assert fs[..4] == fs;
  }

  lemma ZeroValues(v4: Fields)
    requires v4 == Person.defaults["firstname" := StrVal("parry")]["lastname" := StrVal("hotter")]
                   ["age" := IntVal(16)]["gender" := StrVal("male")]
    ensures v4 == PersonValues("parry", "hotter", 16, "male")
  {
  }

  /** The age column "016" goes through the field loop as the int 16: Integer(String)
      accepts leading zeros. */
  lemma ParseLeadingZeroAge()
    ensures DecodeLine(Person, ZeroLine) == Ok(PersonValues("parry", "hotter", 16, "male"))
  {
    var v1 := Person.defaults["firstname" := StrVal("parry")];
    var v2 := v1["lastname" := StrVal("hotter")];
    var v3 := v2["age" := IntVal(16)];
    var v4 := v3["gender" := StrVal("male")];
    ZeroNameColumns(v1, v2);
    ZeroAgeColumns(v2, v3);
    DecodesFour(Person, ZeroLine, v1, v2, v3, v4);
    ZeroValues(v4);
  }

  /** The three first columns of the debug parser's row, parsed one after the other. */
  lemma DotColumns(v1: Fields, v2: Fields)
    requires v1 == Person.defaults["firstname" := StrVal("hodd....")]
    requires v2 == v1["lastname" := StrVal("toward..")]
    ensures ParseField(Person, "hodd....toward..54.male......", FirstName, Person.defaults) == Ok(v1)
    ensures ParseField(Person, "hodd....toward..54.male......", LastName, v1) == Ok(v2)
    ensures ParseField(Person, "hodd....toward..54.male......", Age, v2) == Err(ConversionFailed(ConstructorThrew))
  {
    assert "hodd....toward..54.male......"[0..8] == "hodd....";
    assert "hodd....toward..54.male......"[8..16] == "toward..";
    assert "hodd....toward..54.male......"[16..19] == "54.";

    PersonSetters();
    TrimOfTrimmed("hodd....");
    TrimOfTrimmed("toward..");
    TrimOfTrimmed("54.");
    ParseRejects();
  }

  /** A line whose third field fails is refused with that field's error. */
  lemma FailsAtThird(cls: RecordClass, line: string, v1: Fields, v2: Fields)
    requires |cls.fields| == 4
    requires ParseField(cls, line, cls.fields[0], cls.defaults) == Ok(v1)
    requires ParseField(cls, line, cls.fields[1], v1) == Ok(v2)
    requires ParseField(cls, line, cls.fields[2], v2).Err?
    ensures DecodeLine(cls, line) == Err(ParseField(cls, line, cls.fields[2], v2).error)
  {
    var fs := cls.fields;
    assert fs[..0] == [];
    ApplyFieldsStep(cls, line, fs, 0, cls.defaults, cls.defaults);
    ApplyFieldsStep(cls, line, fs, 1, cls.defaults, v1);
    ApplyFieldsStep(cls, line, fs, 2, cls.defaults, v2);
    ApplyFieldsExtend(cls, line, fs, 3, cls.defaults);
  }

  /** The round trip needs the space pad: trim keeps the dots of the debug parser's row,
      so its age column "54." is not an int literal and the row is not read back. */
  lemma DotPadNotReadBack()
    ensures DecodeLine(Person, "hodd....toward..54.male......") == Err(ConversionFailed(ConstructorThrew))
  {
    var v1 := Person.defaults["firstname" := StrVal("hodd....")];
    var v2 := v1["lastname" := StrVal("toward..")];
    DotColumns(v1, v2);
    FailsAtThird(Person, "hodd....toward..54.male......", v1, v2);
  }

  // ---------------------------------------------------------------------------
  // A layout with a gap: a [0, 2) and b [4, 6), two String fields. write ignores
  // start, so the columns are written back to back and the row is two chars short.
  // ---------------------------------------------------------------------------

  const GapA := Descriptor("a", 0, 2)
  const GapB := Descriptor("b", 4, 6)
  const Gap := RecordClass(
    "Gap", [GapA, GapB],
    map[SetterName("a") := [StrKind], SetterName("b") := [StrKind]],
    {GetterName("a"), GetterName("b")},
    map[])

  /** The row written for a = "xy", b = "zw": each value fills its column, and the
      columns sit next to each other whatever their start. */
  lemma GapRow()
    ensures EncodeRow(" ", Record(Gap, map["a" := StrVal("xy"), "b" := StrVal("zw")])) == Ok("xyzw\n")
  {
    var rec := Record(Gap, map["a" := StrVal("xy"), "b" := StrVal("zw")]);
    assert ComputeColumn(" ", rec, GapA) == Ok("xy") by {
      assert GetterName("a") in Gap.getters && Render(rec.values["a"]) == "xy";
      assert "xy" + "" == "xy";
    }
    assert ComputeColumn(" ", rec, GapB) == Ok("zw") by {
      assert GetterName("b") in Gap.getters && Render(rec.values["b"]) == "zw";
      assert "zw" + "" == "zw";
    }
    var fs := Gap.fields;
    forall i | 0 <= i < 2
      ensures ComputeColumn(" ", rec, fs[i]) == Ok(["xy", "zw"][i])
    {
    }
    ColumnsJoin(" ", rec, fs, ["xy", "zw"]);
    assert Join(["xy", "zw"]) == "xyzw" by {
      assert ["xy", "zw"][..1] == ["xy"] && ["xy"][..0] == [];
      assert "" + "xy" + "zw" == "xyzw";
    }
    assert "xyzw" + "\n" == "xyzw\n";
  }

  /** Reading that row back fails: b's substring [4, 6) lies beyond the four chars
      written, so the line is refused with `Bounds`. */
  lemma GapLineRefused()
    ensures DecodeLine(Gap, "xyzw") == Err(Bounds)
  {
    assert FieldValue(Gap, "xyzw", GapA).Ok? by {
      assert |"xyzw"| == 4;
      assert ExtractData("xyzw", GapA).Ok?;
      assert SetterName("a") in Gap.setters;
      assert Gap.setters[SetterName("a")] == [StrKind];
    }
    assert FieldValue(Gap, "xyzw", GapB) == Err(Bounds);
    DecodeLineFirstError(Gap, "xyzw", 1);
  }

  /** The round trip needs abutting columns from 0: a layout with a gap is written
      without the gap and is not read back. */
  lemma GapNotReadBack()
    ensures var row := EncodeRow(" ", Record(Gap, map["a" := StrVal("xy"), "b" := StrVal("zw")]));
      row == Ok("xyzw\n") && DecodeLine(Gap, row.value[..|row.value| - 1]) == Err(Bounds)
  {
    GapRow();
    assert "xyzw\n"[..4] == "xyzw";
    GapLineRefused();
  }

  /** The i-th Person of the multi-record test: Raifod-i, Arnone-i, age i, female. */
  function Raifod(i: nat): Fields
    requires 1 <= i <= 3
  {
    PersonValues("Raifod-" + [DigitChar(i)], "Arnone-" + [DigitChar(i)], i as Int32, "female")
  }

  /** Its row with the debug pad: the one-digit age leaves two dots. */
  lemma RaifodRow(i: nat)
    requires 1 <= i <= 3
    ensures EncodeRow(".", Record(Person, Raifod(i)))
         == Ok("Raifod-" + [DigitChar(i)] + ("Arnone-" + [DigitChar(i)]) + ([DigitChar(i)] + "..")
               + ("female" + "....") + "\n")
  {
    var values := Raifod(i);
    var c := [DigitChar(i)];
    assert IntToString(i) == c;
    Runs('.');
    PersonColumn(".", values, FirstName, "Raifod-" + c, "");
    PersonColumn(".", values, LastName, "Arnone-" + c, "");
    PersonColumn(".", values, Age, c, "..");
    PersonColumn(".", values, Gender, "female", "....");
    PersonRow(".", values, "Raifod-" + c + "", "Arnone-" + c + "", c + "..", "female" + "....");
    assert "Raifod-" + c + "" == "Raifod-" + c && "Arnone-" + c + "" == "Arnone-" + c;
  }

  /** The rows of the three Persons. */
  lemma RaifodRows()
    ensures EncodeRow(".", Record(Person, Raifod(1))) == Ok("Raifod-1Arnone-11..female....\n")
    ensures EncodeRow(".", Record(Person, Raifod(2))) == Ok("Raifod-2Arnone-22..female....\n")
    ensures EncodeRow(".", Record(Person, Raifod(3))) == Ok("Raifod-3Arnone-33..female....\n")
  {
    RaifodRowTexts();
    RaifodRow(1);
    RaifodRow(2);
    RaifodRow(3);
    assert [DigitChar(1)] == "1" && [DigitChar(2)] == "2" && [DigitChar(3)] == "3";
  }

  /** The debug parser writes the three Persons as three rows, in list order. */
  lemma WriteThreeRecords()
    ensures Emit(".", [Record(Person, Raifod(1)), Record(Person, Raifod(2)), Record(Person, Raifod(3))])
         == Emission(["Raifod-1Arnone-11..female....\n", "Raifod-2Arnone-22..female....\n",
                      "Raifod-3Arnone-33..female....\n"], None)
  {
    var recs := [Record(Person, Raifod(1)), Record(Person, Raifod(2)), Record(Person, Raifod(3))];
    RaifodRows();
    var rows := ["Raifod-1Arnone-11..female....\n", "Raifod-2Arnone-22..female....\n", "Raifod-3Arnone-33..female....\n"];
    EmitStep(".", recs, 0, []);
    assert recs[..0] == [] && [] + [rows[0]] == rows[..1];
    EmitStep(".", recs, 1, rows[..1]);
    assert rows[..1] + [rows[1]] == rows[..2];
    EmitStep(".", recs, 2, rows[..2]);
    assert rows[..2] + [rows[2]] == rows && recs[..3] == recs;
  }

  /** parse(BufferedReader, Class) stops at the blank line: what follows it is not read. */
  lemma ParseStopsAtBlankLine()
    ensures DecodeBatch(Person, ["parry   hotter  16 male      ", "", "not a record"])
         == Ok([PersonValues("parry", "hotter", 16, "male")])
  {
    var lines := ["parry   hotter  16 male      ", "", "not a record"];
    assert !IsWhitespace(lines[0][0]);
    assert FirstBlank(lines) == 1 by {
      assert lines[1..] == ["", "not a record"];
      assert IsBlank(lines[1]);
    }
    ParseWritten();
    assert DecodeLines(Person, lines[..0]) == [];
    var v := PersonValues("parry", "hotter", 16, "male");
    BatchStep(Person, lines, 0, [], v);
    assert [] + [v] == [v];
    assert DecodeBatch(Person, lines) == Collect(DecodeLines(Person, lines[..1]));
  }

  // ---------------------------------------------------------------------------
  // The test dummies behind every ParserException
  // ---------------------------------------------------------------------------

  const NoFieldsDefinedDummy := RecordClass(
    "cphne.flatfileparser.FlatFileParserImplTest$ParseTest$ThrowsAParserExceptionTest$NoFieldsDefinedDummy",
    [], map[], {}, map["undefinedField" := IntVal(0)])

  const MissingSetterDummy := RecordClass(
    "cphne.flatfileparser.FlatFileParserImplTest$ParseTest$ThrowsAParserExceptionTest$MissingSetterDummy",
    [Descriptor("isMissingASetter", 0, 8)], map[], {}, map[])

  const SetterWithTwoParametersDummy := RecordClass(
    "cphne.flatfileparser.FlatFileParserImplTest$ParseTest$ThrowsAParserExceptionTest$SetterWithTwoParametersDummy",
    [Descriptor("invalid", 0, 8)], map["setInvalid" := [StrKind, IntKind]], {}, map[])

  const FieldWithNonConvertableType := RecordClass(
    "cphne.flatfileparser.FlatFileParserImplTest$ParseTest$ThrowsAParserExceptionTest$FieldWithNonConvertableType",
    [Descriptor("type", 0, 2)], map["setType" := [Unconvertible]], {}, map[])

  const Line := "parry   hotter  16 male      "

  /** A class without @Field fields is refused with its name in the message. */
  lemma NoFieldsRefused()
    ensures DecodeBatch(NoFieldsDefinedDummy, [Line]) == Err(NoFields(NoFieldsDefinedDummy.name))
    ensures Message(NoFields(NoFieldsDefinedDummy.name))
         == "Cant parse data, no field definitions defined for class class " + NoFieldsDefinedDummy.name + "."
  {
    assert !IsWhitespace(Line[0]);
    BatchNoFields(NoFieldsDefinedDummy, [Line]);
  }

  /** ... but an empty input is an empty list even for such a class. */
  lemma NoFieldsEmptyInput()
    ensures DecodeBatch(NoFieldsDefinedDummy, []) == Ok([])
  {
    BatchEmpty(NoFieldsDefinedDummy, []);
  }

  lemma MissingSetterRefused()
    ensures DecodeLine(MissingSetterDummy, Line) == Err(NoSetter("isMissingASetter"))
  {
    var d := MissingSetterDummy.fields[0];
    assert ExtractData(Line, d).Ok?;
    assert FindSetter(MissingSetterDummy, d) == Err(NoSetter(d.name));
    assert MissingSetterDummy.fields[..0] == [];
  }

  lemma TwoParameterSetterRefused()
    ensures DecodeLine(SetterWithTwoParametersDummy, Line) == Err(BadArity("setInvalid", 2))
  {
    var d := SetterWithTwoParametersDummy.fields[0];
    assert SetterName(d.name) == "setInvalid" by {
      assert Capitalize("invalid") == "Invalid" by { assert "invalid"[1..] == "nvalid"; }
    }
    assert ExtractData(Line, d).Ok?;
    assert FindSetter(SetterWithTwoParametersDummy, d) == Ok(("setInvalid", [StrKind, IntKind]));
    assert SetterWithTwoParametersDummy.fields[..0] == [];
  }

  lemma NonConvertableTypeRefused()
    ensures DecodeLine(FieldWithNonConvertableType, Line) == Err(ConversionFailed(NoStringConstructor))
  {
    var d := FieldWithNonConvertableType.fields[0];
    assert SetterName(d.name) == "setType" by {
      assert Capitalize("type") == "Type" by { assert "type"[1..] == "ype"; }
    }
    assert ExtractData(Line, d).Ok?;
    assert FindSetter(FieldWithNonConvertableType, d) == Ok(("setType", [Unconvertible]));
    assert FieldWithNonConvertableType.fields[..0] == [];
  }

  /** The messages the ParserExceptions of the dummies carry. */
  lemma Messages()
    ensures Message(NoSetter("isMissingASetter")) == "No setter available for field 'isMissingASetter'."
    ensures Message(BadArity("setInvalid", 2))
         == "Cant invoke setter '" + "setInvalid" + "', expected exactly one parameter, found " + "2" + "."
  {
    assert "No setter available for field '" + "isMissingASetter" + "'." == "No setter available for field 'isMissingASetter'.";
    assert IntToString(2) == "2" by { assert DigitChar(2) == '2'; }
  }
}
