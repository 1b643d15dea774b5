/**
 * The tutorial's calculator schemas and `zodToOpenAI`, which turns the
 * shape of an object schema into the tool-parameter description a chat
 * completion API expects. Zod's schema classes are modelled by the
 * constructors of `ZodType`; the shape is the sequence of its entries in
 * `Object.entries` order.
 */
module SchemaConverter {

  /** The Zod schema kinds the converter tells apart, plus those it does not. */
  datatype ZodType =
    | ZodNumber
    | ZodString
    | ZodEnum(options: seq<string>)
    | ZodOptional(inner: ZodType)
    | ZodOther

  datatype Field = Field(key: string, schema: ZodType)

  /** An entry of the generated `properties` object. */
  datatype PropertySchema =
    | NumberProperty                          // { type: 'number' }
    | StringEnumProperty(options: seq<string>) // { type: 'string', enum: options }

  /** `{ type, properties, required }` as returned by `zodToOpenAI`. */
  datatype ToolParameters = ToolParameters(kind: string, properties: map<string, PropertySchema>, required: seq<string>)

  /** The keys of a shape, in order. */
  function Keys(shape: seq<Field>): (r: seq<string>)
    ensures |r| == |shape|
    ensures forall i :: 0 <= i < |shape| ==> r[i] == shape[i].key
  {
    seq(|shape|, i requires 0 <= i < |shape| => shape[i].key)
  }

  /** What one loop pass writes into `properties`: an optional field becomes a
      number whatever it wraps, an enum keeps its options, any other kind writes nothing. */
  function AddProperty(properties: map<string, PropertySchema>, field: Field): (r: map<string, PropertySchema>)
    ensures field.schema.ZodOptional? ==> r == properties[field.key := NumberProperty]
    ensures field.schema.ZodEnum? ==> r == properties[field.key := StringEnumProperty(field.schema.options)]
    ensures !field.schema.ZodOptional? && !field.schema.ZodEnum? ==> r == properties
  {
    match field.schema
    case ZodOptional(_) => properties[field.key := NumberProperty]
    case ZodEnum(options) => properties[field.key := StringEnumProperty(options)]
    case _ => properties
  }

  /** The `properties` object after the loop has seen every field of `shape`. */
  function PropertiesOf(shape: seq<Field>): map<string, PropertySchema>
    decreases |shape|
  {
    if |shape| == 0 then map[]
    else AddProperty(PropertiesOf(shape[..|shape| - 1]), shape[|shape| - 1])
  }

  /** `zodToOpenAI(schema)` on the entries of `schema.shape`. */
  method ZodToOpenAI(shape: seq<Field>) returns (r: ToolParameters)
    ensures r.kind == "object"
    ensures r.required == Keys(shape)
    ensures r.properties == PropertiesOf(shape)
  {
    var properties: map<string, PropertySchema> := map[];
    var required: seq<string> := [];
    for i := 0 to |shape|
      invariant properties == PropertiesOf(shape[..i])
      invariant required == Keys(shape[..i])
    {
      var field := shape[i];
      match field.schema {
        case ZodOptional(_) =>
          properties := properties[field.key := NumberProperty];
        case ZodEnum(options) =>
          properties := properties[field.key := StringEnumProperty(options)];
        case _ =>
      }
      required := required + [field.key];
      assert shape[..i + 1][..i] == shape[..i];
    }
    assert shape[..|shape|] == shape;
    r := ToolParameters("object", properties, required);
  }

  /** A field kind that gets an entry in `properties`. */
  predicate Described(t: ZodType) {
    t.ZodOptional? || t.ZodEnum?
  }

  /** The entry the last field with a given key leaves behind. */
  function PropertyFor(t: ZodType): PropertySchema
    requires Described(t)
  {
    if t.ZodOptional? then NumberProperty else StringEnumProperty(t.options)
  }

  /** Field `i` is the last field with `key` that gets an entry. */
  predicate LastDescribed(shape: seq<Field>, key: string, i: int) {
    && 0 <= i < |shape| && shape[i].key == key && Described(shape[i].schema)
    && forall j :: i < j < |shape| && shape[j].key == key ==> !Described(shape[j].schema)
  }

  /** A key has an entry in `properties` exactly when some field with that key
      is optional or an enum. */
  lemma {:induction false} PropertiesOfKeys(shape: seq<Field>, key: string)
    ensures key in PropertiesOf(shape) <==>
      exists i :: 0 <= i < |shape| && shape[i].key == key && Described(shape[i].schema)
    decreases |shape|
  {
    if |shape| > 0 {
      var init := shape[..|shape| - 1];
      PropertiesOfKeys(init, key);
      assert forall i :: 0 <= i < |init| ==> init[i] == shape[i];
      if key in PropertiesOf(init) {
        var i :| 0 <= i < |init| && init[i].key == key && Described(init[i].schema);
        assert shape[i].key == key && Described(shape[i].schema);
      }
    }
  }

  /** The entry of a key is the one written by the last field with that key
      that gets an entry: later fields of other kinds leave it alone. */
  lemma {:induction false} PropertiesOfLast(shape: seq<Field>, key: string, i: nat)
    requires LastDescribed(shape, key, i)
    ensures key in PropertiesOf(shape) && PropertiesOf(shape)[key] == PropertyFor(shape[i].schema)
    decreases |shape|
  {
    var init := shape[..|shape| - 1];
    var last := shape[|shape| - 1];
    if i < |shape| - 1 {
      assert !(last.key == key && Described(last.schema));
      assert forall j :: 0 <= j < |init| ==> init[j] == shape[j];
      assert LastDescribed(init, key, i);
      PropertiesOfLast(init, key, i);
    }
  }

  /** Every key with an entry in `properties` is also listed in `required`. */
  lemma PropertiesAreRequired(shape: seq<Field>)
    ensures forall key :: key in PropertiesOf(shape) ==> key in Keys(shape)
  {
    forall key | key in PropertiesOf(shape)
      ensures key in Keys(shape)
    {
      PropertiesOfKeys(shape, key);
      var i :| 0 <= i < |shape| && shape[i].key == key && Described(shape[i].schema);
      assert Keys(shape)[i] == key;
    }
  }

  /** The keys of an object shape are distinct. */
  predicate DistinctKeys(shape: seq<Field>) {
    forall i, j :: 0 <= i < j < |shape| ==> shape[i].key != shape[j].key
  }

  /** With distinct keys, each field is described on its own: an optional field
      becomes a number, an enum a string with the same options in the same
      order, and any other field has no entry although it is required. */
  lemma PropertiesOfField(shape: seq<Field>, i: nat)
    requires DistinctKeys(shape) && i < |shape|
    ensures shape[i].schema.ZodOptional? ==>
      shape[i].key in PropertiesOf(shape) && PropertiesOf(shape)[shape[i].key] == NumberProperty
    ensures shape[i].schema.ZodEnum? ==>
      shape[i].key in PropertiesOf(shape) && PropertiesOf(shape)[shape[i].key] == StringEnumProperty(shape[i].schema.options)
    ensures !Described(shape[i].schema) ==> shape[i].key !in PropertiesOf(shape)
  {
    var key := shape[i].key;
    PropertiesOfKeys(shape, key);
    if Described(shape[i].schema) {
      assert LastDescribed(shape, key, i);
      PropertiesOfLast(shape, key, i);
    }
  }

  const CalculatorOperations: seq<string> := ["add", "subtract", "multiply", "divide"]

  /** `CalculatorInputSchema.shape`. */
  const CalculatorInputShape: seq<Field> :=
    [Field("operation", ZodEnum(CalculatorOperations)), Field("a", ZodNumber), Field("b", ZodNumber)]

  /** `CalculatorOutputSchema.shape`. */
  const CalculatorOutputShape: seq<Field> :=
    [Field("result", ZodNumber), Field("explanation", ZodString)]

  /** The calculator's input converts to a description in which only
      `operation` has an entry, a string restricted to the four operations,
      while `operation`, `a` and `b` are all required. */
  lemma CalculatorInputParameters()
    ensures PropertiesOf(CalculatorInputShape) == map["operation" := StringEnumProperty(["add", "subtract", "multiply", "divide"])]
    ensures Keys(CalculatorInputShape) == ["operation", "a", "b"]
  {
    var shape := CalculatorInputShape;
    var operation := map["operation" := StringEnumProperty(CalculatorOperations)];
    assert shape[..1][..0] == [];
    assert PropertiesOf(shape[..1]) == operation;
    assert shape[..2][..1] == shape[..1];
    assert PropertiesOf(shape[..2]) == operation;
    assert shape[..2] == shape[..|shape| - 1];
  }

  /** The calculator's output converts to a description with no entries and
      both `result` and `explanation` required. */
  lemma CalculatorOutputParameters()
    ensures PropertiesOf(CalculatorOutputShape) == map[]
    ensures Keys(CalculatorOutputShape) == ["result", "explanation"]
  {
    var shape := CalculatorOutputShape;
    assert shape[..1] == [shape[0]];
  }
}
