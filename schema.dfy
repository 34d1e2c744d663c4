/** The layout a record class declares and the accessors it offers, standing in for what
    FlatFileParserImpl and LineParserImpl discover through reflection, plus the errors
    the codec raises. */
module Schema {
  import opened Text

  /** A Java field name: never empty. */
  type Identifier = s: string | |s| > 0 witness "f"

  /** One `@Field(start, end)` annotation on the field called `name`. */
  datatype Descriptor = Descriptor(name: Identifier, start: int, end: int)

  /** The parameter type of a setter, as far as conversion is concerned:
      String (converted by String(String)), int (boxed to Integer, converted by
      Integer(String)), or a type without a public String constructor. */
  datatype Kind = StrKind | IntKind | Unconvertible

  /** A non-null field value. */
  datatype Value = StrVal(s: string) | IntVal(i: Int32)

  /** A record class:
      - `name`: its binary name (Class.getName), e.g. "cphne.flatfileparser.Person";
      - `fields`: its `@Field`-annotated fields in declaration order;
      - `setters`: its public methods whose name starts with "set", by name, each
        with its parameter types (so the arity is the length of that sequence);
      - `getters`: the names of its public methods whose name starts with "get";
      - `defaults`: the field values of a freshly constructed instance (a field
        that is absent holds null).
      A setter `set<Name>` stores its argument into the field `<name>`; a getter
      `get<Name>` returns the value of the field `<name>`. */
  datatype RecordClass = RecordClass(
    name: string,
    fields: seq<Descriptor>,
    setters: map<string, seq<Kind>>,
    getters: set<string>,
    defaults: map<string, Value>)

  /** The field values of one record instance; a missing key is a null field. */
  type Fields = map<string, Value>

  /** The exception a failed conversion wraps. */
  datatype Cause =
    | NoStringConstructor   // NoSuchMethodException from getConstructor(String.class)
    | ConstructorThrew      // InvocationTargetException, e.g. a NumberFormatException

  /** Everything the codec throws. The first four are ParserException; the others are
      unchecked Java exceptions that reach the caller unwrapped. */
  datatype Error =
    | NoFields(className: string)          // the class has no @Field field
    | NoSetter(field: string)              // no setter set<Name>
    | BadArity(setter: string, count: nat) // the setter does not take one parameter
    | ConversionFailed(cause: Cause)       // the text cannot be converted
    | Bounds                               // StringIndexOutOfBoundsException from substring
    | NoGetter                             // NoSuchElementException from findFirst().orElseThrow()
    | NegativeRepeat                       // IllegalArgumentException from String.repeat
    | NullValue                            // NullPointerException from toString on a null value
  {
    predicate IsParserException() {
      NoFields? || NoSetter? || BadArity? || ConversionFailed?
    }
  }

  datatype Result<+T> = Ok(value: T) | Err(error: Error) {
    predicate IsFailure() { Err? }
    function PropagateFailure<U>(): Result<U> requires Err? { Err(error) }
    function Extract(): T requires Ok? { value }
  }

  datatype Outcome = Pass | Fail(error: Error)

  /** An accessor's name: the prefix, then the field name with its first letter
      upper-cased by substring(0, 1).toUpperCase(), then the rest of the field name. */
  function AccessorName(prefix: string, field: Identifier): (r: string)
    ensures |r| == |prefix| + |field| && r[..|prefix|] == prefix
    ensures r[|prefix|] == UpperAscii(field[0]) && r[|prefix| + 1..] == field[1..]
  {
    prefix + Capitalize(field)
  }

  /** The setter findSetter looks for: "set" + the capitalised field name. */
  function SetterName(field: Identifier): string {
    AccessorName("set", field)
  }

  /** The getter findGetter looks for: "get" + the capitalised field name. */
  function GetterName(field: Identifier): string {
    AccessorName("get", field)
  }

  /** Object.toString of a field value: the text itself, or Integer.toString. */
  function Render(v: Value): (r: string)
    ensures v.StrVal? ==> r == v.s
    ensures v.IntVal? ==> |r| > 0 && IsTrimmed(r)
  {
    match v
    case StrVal(s) => s
    case IntVal(i) => IntToString(i as int)
  }

  /** Integer(String) reads a rendered int back as the same int. */
  lemma RenderReadsBack(v: Value)
    requires v.IntVal?
    ensures ParseInt(Render(v)) == Some(v.i)
  {
    ParseIntToString(v.i);
  }

  /** The message a ParserException raised by the codec itself carries (a wrapped
      conversion failure carries its cause instead). Class.toString prefixes "class ". */
  function Message(e: Error): (m: string)
    requires e.NoFields? || e.NoSetter? || e.BadArity?
  {
    match e
    case NoFields(c) => "Cant parse data, no field definitions defined for class " + "class " + c + "."
    case NoSetter(f) => "No setter available for field '" + f + "'."
    case BadArity(s, n) => "Cant invoke setter '" + s + "', expected exactly one parameter, found " + IntToString(n) + "."
  }

  /** A record object, created by the class's no-argument constructor and updated in
      place by its setters. */
  class Instance {
    const cls: RecordClass
    var values: Fields

    constructor (cls: RecordClass)
      ensures this.cls == cls && values == cls.defaults
    {
      this.cls := cls;
      values := cls.defaults;
    }
  }

  /** A record object's class together with its field values. */
  datatype Record = Record(cls: RecordClass, values: Fields)

  function Snapshots(xs: seq<Instance>): (r: seq<Record>)
    reads xs
    ensures |r| == |xs| && forall i :: 0 <= i < |xs| ==> r[i] == Record(xs[i].cls, xs[i].values)
  {
    if |xs| == 0 then [] else [Record(xs[0].cls, xs[0].values)] + Snapshots(xs[1..])
  }
}
