/** LineParserImpl: decodes the fields of one line into one record object, one
    field at a time. */
module LineParser {
  import opened Text
  import opened Schema

  /** extractData: the trimmed text between `start` (inclusive) and `end` (exclusive);
      String.substring throws when the range is not inside the line. */
  function ExtractData(line: string, d: Descriptor): (r: Result<string>)
    ensures r.Ok? <==> 0 <= d.start <= d.end <= |line|
    ensures r.Err? ==> r.error == Bounds
    ensures r.Ok? ==> IsTrimmed(r.value) && |r.value| <= d.end - d.start
  {
    if 0 <= d.start <= d.end <= |line| then Ok(Trim(line[d.start..d.end])) else Err(Bounds)
  }

  /** findSetter: the public method named set<Name>, with its parameter types. */
  function FindSetter(cls: RecordClass, d: Descriptor): (r: Result<(string, seq<Kind>)>)
    ensures r.Ok? <==> SetterName(d.name) in cls.setters
    ensures r.Ok? ==> r.value == (SetterName(d.name), cls.setters[SetterName(d.name)])
    ensures r.Err? ==> r.error == NoSetter(d.name)
  {
    var name := SetterName(d.name);
    if name in cls.setters then Ok((name, cls.setters[name])) else Err(NoSetter(d.name))
  }

  /** convertData: the value the wrapper type's String constructor builds from `data`. */
  function ConvertData(kind: Kind, data: string): (r: Result<Value>)
    ensures kind == StrKind ==> r == Ok(StrVal(data))
    ensures kind == IntKind ==> (r.Ok? <==> ParseInt(data).Some?)
    ensures kind == IntKind && r.Ok? ==> r.value == IntVal(ParseInt(data).value)
    ensures kind == Unconvertible ==> r == Err(ConversionFailed(NoStringConstructor))
    ensures r.Err? ==> r.error.ConversionFailed?
  {
    match kind
    case StrKind => Ok(StrVal(data))
    case IntKind =>
      (match ParseInt(data)
       case Some(i) => Ok(IntVal(i))
       case None => Err(ConversionFailed(ConstructorThrew)))
    case Unconvertible => Err(ConversionFailed(NoStringConstructor))
  }

  /** invoke, up to the reflective call: the arity check comes before any conversion,
      and the result is the value the setter is called with. */
  function SetterArgument(setter: string, params: seq<Kind>, data: string): (r: Result<Value>)
    ensures |params| != 1 ==> r == Err(BadArity(setter, |params|))
    ensures |params| == 1 ==> r == ConvertData(params[0], data)
  {
    if |params| != 1 then Err(BadArity(setter, |params|)) else ConvertData(params[0], data)
  }

  /** The value parse(Field) hands to the setter: extract, find the setter, check its
      arity, convert. */
  function FieldValue(cls: RecordClass, line: string, d: Descriptor): (r: Result<Value>)
    ensures r.Ok? ==> 0 <= d.start <= d.end <= |line| && SetterName(d.name) in cls.setters
                      && |cls.setters[SetterName(d.name)]| == 1
    ensures r.Err? ==> r.error == Bounds || r.error == NoSetter(d.name)
                       || (SetterName(d.name) in cls.setters
                           && r.error == BadArity(SetterName(d.name), |cls.setters[SetterName(d.name)]|))
                       || r.error.ConversionFailed?
  {
    var data :- ExtractData(line, d);
    var setter :- FindSetter(cls, d);
    SetterArgument(setter.0, setter.1, data)
  }

  /** parse(Field) on a target whose field values are `values`: the setter stores the
      converted value into the field. */
  function ParseField(cls: RecordClass, line: string, d: Descriptor, values: Fields): Result<Fields> {
    var v :- FieldValue(cls, line, d);
    Ok(values[d.name := v])
  }

  /** Which parse(Field) failures are ParserExceptions: a missing setter, a bad arity and a
      failed conversion are; a substring range outside the line escapes unwrapped. */
  lemma WrappedErrors(cls: RecordClass, line: string, d: Descriptor, setter: string, params: seq<Kind>, data: string)
    ensures FindSetter(cls, d).Err? ==> FindSetter(cls, d).error.IsParserException()
    ensures SetterArgument(setter, params, data).Err? ==> SetterArgument(setter, params, data).error.IsParserException()
    ensures ExtractData(line, d).Err? ==> !ExtractData(line, d).error.IsParserException()
  {
  }

  /** The checks of parse(Field) run in a fixed order, and the first that fails decides
      the error: bounds, then the setter's existence, then its arity, then conversion. */
  lemma ParseFieldOrder(cls: RecordClass, line: string, d: Descriptor, values: Fields)
    ensures !(0 <= d.start <= d.end <= |line|) ==> ParseField(cls, line, d, values) == Err(Bounds)
    ensures (0 <= d.start <= d.end <= |line| && SetterName(d.name) !in cls.setters) ==>
      ParseField(cls, line, d, values) == Err(NoSetter(d.name))
    ensures (0 <= d.start <= d.end <= |line| && SetterName(d.name) in cls.setters
             && |cls.setters[SetterName(d.name)]| != 1) ==>
      ParseField(cls, line, d, values) == Err(BadArity(SetterName(d.name), |cls.setters[SetterName(d.name)]|))
    ensures (0 <= d.start <= d.end <= |line| && SetterName(d.name) in cls.setters
             && |cls.setters[SetterName(d.name)]| == 1) ==>
      var conv := ConvertData(cls.setters[SetterName(d.name)][0], Trim(line[d.start..d.end]));
      ParseField(cls, line, d, values) == (if conv.Ok? then Ok(values[d.name := conv.value]) else Err(conv.error))
  {
  }

  /** A successful parse(Field) sets exactly the field `d.name`, to the converted text,
      and leaves every other field as it was. */
  lemma ParseFieldSetsOneField(cls: RecordClass, line: string, d: Descriptor, values: Fields)
    requires ParseField(cls, line, d, values).Ok?
    ensures 0 <= d.start <= d.end <= |line| && SetterName(d.name) in cls.setters
    ensures |cls.setters[SetterName(d.name)]| == 1
    ensures var r := ParseField(cls, line, d, values).value;
      && r.Keys == values.Keys + {d.name}
      && (forall k :: k in values && k != d.name ==> r[k] == values[k])
      && Ok(r[d.name]) == ConvertData(cls.setters[SetterName(d.name)][0], Trim(line[d.start..d.end]))
  {
    var setter := FindSetter(cls, d);
    var v := SetterArgument(setter.value.0, setter.value.1, ExtractData(line, d).value);
    assert ParseField(cls, line, d, values).value == values[d.name := v.value];
  }

  /** LineParserImpl: the line being decoded and the record object it fills in. */
  class LineParser {
    const line: string
    const target: Instance

    constructor (line: string, target: Instance)
      ensures this.line == line && this.target == target
    {
      this.line := line;
      this.target := target;
    }

    /** getTarget hands back the very object the parser was built with. */
    method GetTarget() returns (t: Instance)
      ensures t == target
    {
      t := target;
    }

    /** parse(Field): on success the target's fields are those ParseField computes from
        the old ones; on failure the target is untouched. */
    method Parse(d: Descriptor) returns (r: Outcome)
      modifies target
      ensures var spec := ParseField(target.cls, line, d, old(target.values));
        (r.Pass? <==> spec.Ok?)
        && (spec.Ok? ==> target.values == spec.value)
        && (spec.Err? ==> r == Fail(spec.error) && target.values == old(target.values))
    {
      var data := ExtractData(line, d);
      if data.Err? {
        return Fail(data.error);
      }
      var setter := FindSetter(target.cls, d);
      if setter.Err? {
        return Fail(setter.error);
      }
      var (name, params) := setter.value;
      var v := SetterArgument(name, params, data.value);
      if v.Err? {
        return Fail(v.error);
      }
      target.values := target.values[d.name := v.value];
      r := Pass;
    }
  }
}
