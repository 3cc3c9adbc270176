/** The models an API description refers to, and the OpenAPI schema each one ought to get (gen/api.go). */
module ApiModels {
  import opened Common

  datatype Kind =
    | StringKind
    | BoolKind
    | IntegerKind
    | FloatKind
    | EnumKind(enum: string)
    | MessageKind(message: string, mapValue: Option<string>)
    | OtherKind

  /** A field descriptor. A message target is the full model name, prefix and enclosing messages included. */
  datatype Field = Field(kind: Kind, oneOf: Option<string>)

  /** A message descriptor: its field names in order, and what each of them is. */
  datatype Message = Message(isStruct: bool, names: seq<string>, field: map<string, Field>)

  /** What the proto file says about a field. */
  datatype ProtoField = ProtoField(isRepeated: bool, isMap: bool, isRequired: bool, isOptional: bool)

  datatype Api = Api(
    errors: map<string, string>,
    models: map<string, Message>,
    protoFields: map<string, map<string, ProtoField>>,
    enums: set<string>,
    schemaName: string -> string,
    isNumber: string -> bool)

  datatype Error =
    | NoSchemaFound(model: string)
    | NotAStruct(model: string)
    | FieldNotFound(model: string, field: string)
    | NilMessage(model: string, field: string)   // a panic: the message of a map without messages
    | UnknownEnum(enum: string)
    | KindNotSupported(model: string, field: string)
    | OnlyOneSecurityAllowed
    | EmptySecurity                              // a panic: the first of no securities
    | UnknownParameterType
    | BadStatusCode(name: string)
    | UnknownRouteOperation

  datatype Simple =
    | StringProperty
    | BooleanProperty
    | IntegerProperty
    | NumberProperty
    | EnumProperty(enum: string)
    | Ref(schema: string)
    | MapOf(schema: string)
    | ArrayOf(of: Simple)

  datatype Property = One(simple: Simple) | OneOf(variants: map<string, Simple>)

  datatype Schema =
    | Union(variants: map<string, Simple>)
    | Object(properties: map<string, Property>, required: seq<string>)

  // ---------- Error aliases ----------

  /** Up to n aliases further on. */
  function Follow(errors: map<string, string>, name: string, n: nat): string
    decreases n
  {
    if n == 0 || name !in errors then name else Follow(errors, errors[name], n - 1)
  }

  ghost predicate AliasEnds(errors: map<string, string>, name: string, n: nat) {
    Follow(errors, name, n) !in errors
  }

  ghost predicate HasEnd(errors: map<string, string>, name: string) {
    exists n :: AliasEnds(errors, name, n)
  }

  /** No alias leads round in a circle. */
  ghost predicate AliasesEnd(errors: map<string, string>) {
    forall name :: HasEnd(errors, name)
  }

  /** The model a name stands for. */
  ghost function Resolve(api: Api, name: string): string {
    if n :| AliasEnds(api.errors, name, n) then Follow(api.errors, name, n) else name
  }

  lemma {:induction false} FollowsToOneEnd(errors: map<string, string>, name: string, m: nat, n: nat)
    requires AliasEnds(errors, name, m) && AliasEnds(errors, name, n)
    ensures Follow(errors, name, m) == Follow(errors, name, n)
    decreases m
  {
    if name in errors {
      assert m > 0 && n > 0;
      FollowsToOneEnd(errors, errors[name], m - 1, n - 1);
    }
  }

  lemma ResolveIs(api: Api, name: string, n: nat)
    requires AliasEnds(api.errors, name, n)
    ensures Resolve(api, name) == Follow(api.errors, name, n)
  {
    var m :| AliasEnds(api.errors, name, m) && Resolve(api, name) == Follow(api.errors, name, m);
    FollowsToOneEnd(api.errors, name, m, n);
  }

  // ---------- The schema of one model ----------

  /** What protobuf guarantees of a message: the listed fields exist, and none is named like a oneof. */
  predicate Consistent(message: Message) {
    && (forall n | n in message.names :: n in message.field)
    && (forall n, x | n in message.names && x in message.names :: message.field[n].oneOf != Some(x))
  }

  ghost predicate WellFormed(api: Api) {
    AliasesEnd(api.errors) && forall m | m in api.models :: Consistent(api.models[m])
  }

  /** The field belongs to a oneof that has other fields too. */
  predicate InOneOf(message: Message, n: string, o: string)
    requires Consistent(message)
  {
    && n in message.names && message.field[n].oneOf == Some(o)
    && exists x | x in message.names :: x != n && message.field[x].oneOf == Some(o)
  }

  predicate IsOneOfField(message: Message, n: string)
    requires Consistent(message)
    requires n in message.names
  {
    message.field[n].oneOf.Some? && InOneOf(message, n, message.field[n].oneOf.value)
  }

  function ProtoFieldsOf(api: Api, m: string): map<string, ProtoField> {
    if m in api.protoFields then api.protoFields[m] else map[]
  }

  /** What is wrong with a field itself, whatever it refers to. */
  ghost function FieldFault(api: Api, m: string, n: string): Option<Error>
    requires WellFormed(api) && m in api.models && n in api.models[m].names
  {
    var protoFields := ProtoFieldsOf(api, m);
    if n !in protoFields then Some(FieldNotFound(m, n))
    else match api.models[m].field[n].kind
      case EnumKind(enum) => if enum in api.enums then None else Some(UnknownEnum(enum))
      case MessageKind(_, mapValue) => if protoFields[n].isMap && mapValue.None? then Some(NilMessage(m, n)) else None
      case OtherKind => Some(KindNotSupported(m, n))
      case _ => None
  }

  /** The model a field refers to. */
  ghost function Target(api: Api, m: string, n: string): Option<string>
    requires WellFormed(api) && m in api.models && n in api.models[m].names
  {
    var protoFields := ProtoFieldsOf(api, m);
    var kind := api.models[m].field[n].kind;
    if n !in protoFields || !kind.MessageKind? then None
    else if !protoFields[n].isMap then Some(Resolve(api, kind.message))
    else if kind.mapValue.Some? then Some(Resolve(api, kind.mapValue.value))
    else None
  }

  ghost function SimpleOf(api: Api, m: string, n: string): Simple
    requires WellFormed(api) && m in api.models && n in api.models[m].names && FieldFault(api, m, n).None?
  {
    var protoField := ProtoFieldsOf(api, m)[n];
    var one := match api.models[m].field[n].kind
      case StringKind => StringProperty
      case BoolKind => BooleanProperty
      case IntegerKind => IntegerProperty
      case FloatKind => NumberProperty
      case EnumKind(enum) => EnumProperty(enum)
      case MessageKind(_, _) =>
        var schema := api.schemaName(Target(api, m, n).value);
        if protoField.isMap then MapOf(schema) else Ref(schema);
    if protoField.isRepeated then ArrayOf(one) else one
  }

  /** The source reads this off a field it has already found. */
  predicate IsRequired(protoField: ProtoField) {
    protoField.isRepeated || protoField.isRequired || !protoField.isOptional
  }

  ghost predicate Healthy(api: Api, m: string)
    requires WellFormed(api)
  {
    m in api.models && api.models[m].isStruct && forall n | n in api.models[m].names :: FieldFault(api, m, n).None?
  }

  /** One thing that is wrong with a model. */
  ghost predicate Fault(api: Api, m: string, e: Error)
    requires WellFormed(api)
  {
    if m !in api.models then e == NoSchemaFound(m)
    else if !api.models[m].isStruct then e == NotAStruct(m)
    else exists n | n in api.models[m].names :: FieldFault(api, m, n) == Some(e)
  }

  ghost function PlainNames(message: Message): set<string>
    requires Consistent(message)
  {
    set n | n in message.names && !IsOneOfField(message, n)
  }

  ghost function OneOfNames(message: Message): set<string>
    requires Consistent(message)
  {
    set n | n in message.names && IsOneOfField(message, n) :: message.field[n].oneOf.value
  }

  ghost function Variants(api: Api, m: string, o: string): map<string, Simple>
    requires WellFormed(api) && Healthy(api, m)
  {
    map n | n in api.models[m].names && InOneOf(api.models[m], n, o) :: SimpleOf(api, m, n)
  }

  /** The required ones among the first i fields, in order. */
  ghost function RequiredUpTo(api: Api, m: string, i: nat): seq<string>
    requires WellFormed(api) && m in api.models && i <= |api.models[m].names|
  {
    if i == 0 then []
    else
      var n := api.models[m].names[i - 1];
      var protoFields := ProtoFieldsOf(api, m);
      RequiredUpTo(api, m, i - 1)
      + if !IsOneOfField(api.models[m], n) && n in protoFields && IsRequired(protoFields[n]) then [n] else []
  }

  /** A union of objects for a message that is nothing but one oneof; an object otherwise. */
  ghost function Describe(api: Api, m: string): Schema
    requires WellFormed(api) && Healthy(api, m)
  {
    var message := api.models[m];
    var (plain, oneOfs) := (PlainNames(message), OneOfNames(message));
    if plain == {} && |oneOfs| == 1 then
      Union(map n | n in message.names :: SimpleOf(api, m, n))
    else
      Object(map k | k in plain + oneOfs ::
               if k in oneOfs then OneOf(Variants(api, m, k)) else One(SimpleOf(api, m, k)),
             RequiredUpTo(api, m, |message.names|))
  }

  ghost predicate SimpleMentions(p: Simple, schema: string) {
    match p
    case Ref(name) => name == schema
    case MapOf(name) => name == schema
    case ArrayOf(of) => SimpleMentions(of, schema)
    case _ => false
  }

  ghost predicate VariantsMention(variants: map<string, Simple>, schema: string) {
    exists k | k in variants :: SimpleMentions(variants[k], schema)
  }

  ghost predicate PropertyMentions(p: Property, schema: string) {
    match p
    case One(simple) => SimpleMentions(simple, schema)
    case OneOf(variants) => VariantsMention(variants, schema)
  }

  /** A "$ref" to the schema stands somewhere in it. */
  ghost predicate Mentions(s: Schema, schema: string) {
    match s
    case Union(variants) => VariantsMention(variants, schema)
    case Object(properties, _) => exists k | k in properties :: PropertyMentions(properties[k], schema)
  }

  // ---------- Reachable models ----------

  ghost predicate Edge(api: Api, a: string, b: string)
    requires WellFormed(api)
  {
    a in api.models && exists n | n in api.models[a].names :: Target(api, a, n) == Some(b)
  }

  ghost predicate Path(api: Api, p: seq<string>)
    requires WellFormed(api)
  {
    |p| > 0 && forall i | 0 <= i < |p| - 1 :: Edge(api, p[i], p[i + 1])
  }

  ghost predicate PathTo(api: Api, a: string, p: seq<string>, b: string)
    requires WellFormed(api)
  {
    Path(api, p) && p[0] == a && p[|p| - 1] == b
  }

  ghost predicate Reaches(api: Api, a: string, b: string)
    requires WellFormed(api)
  {
    exists p :: PathTo(api, a, p, b)
  }

  lemma ReachesItself(api: Api, a: string)
    requires WellFormed(api)
    ensures Reaches(api, a, a)
  {
    assert PathTo(api, a, [a], a);
  }

  lemma ReachesOver(api: Api, a: string, b: string, c: string)
    requires WellFormed(api) && Edge(api, a, b) && Reaches(api, b, c)
    ensures Reaches(api, a, c)
  {
    var p :| PathTo(api, b, p, c);
    assert PathTo(api, a, [a] + p, c);
  }

  /** The references in a schema are the schemas of the models its message refers to, no more and no less. */
  lemma MentionsAreTargets(api: Api, m: string, schema: string)
    requires WellFormed(api) && Healthy(api, m)
    ensures Mentions(Describe(api, m), schema) <==> exists t :: Edge(api, m, t) && api.schemaName(t) == schema
  {
    var message := api.models[m];
    var described := Describe(api, m);
    forall n | n in message.names
      ensures SimpleMentions(SimpleOf(api, m, n), schema) <==>
                Target(api, m, n).Some? && api.schemaName(Target(api, m, n).value) == schema
    {
    }
    if t :| Edge(api, m, t) && api.schemaName(t) == schema {
      var n :| n in message.names && Target(api, m, n) == Some(t);
      FieldIsDescribed(api, m, n, schema);
    }
    if Mentions(described, schema) {
      var n := MentioningField(api, m, schema);
      assert Edge(api, m, Target(api, m, n).value);
    }
  }

  lemma FieldIsDescribed(api: Api, m: string, n: string, schema: string)
    requires WellFormed(api) && Healthy(api, m) && n in api.models[m].names
    requires SimpleMentions(SimpleOf(api, m, n), schema)
    ensures Mentions(Describe(api, m), schema)
  {
    hide SimpleMentions, SimpleOf, RequiredUpTo, FieldFault, AliasesEnd;
    var message := api.models[m];
    var described := Describe(api, m);
    match described
    case Union(variants) =>
      assert variants[n] == SimpleOf(api, m, n);
    case Object(properties, _) =>
      if IsOneOfField(message, n) {
        var o := message.field[n].oneOf.value;
        assert properties[o] == OneOf(Variants(api, m, o));
        assert Variants(api, m, o)[n] == SimpleOf(api, m, n);
        assert PropertyMentions(properties[o], schema);
      } else {
        assert n !in OneOfNames(message);
        assert properties[n] == One(SimpleOf(api, m, n));
        assert PropertyMentions(properties[n], schema);
      }
  }

  lemma MentioningField(api: Api, m: string, schema: string) returns (n: string)
    requires WellFormed(api) && Healthy(api, m) && Mentions(Describe(api, m), schema)
    ensures n in api.models[m].names && SimpleMentions(SimpleOf(api, m, n), schema)
  {
    match Describe(api, m)
    case Union(variants) =>
      n :| n in variants && SimpleMentions(variants[n], schema);
    case Object(properties, _) =>
      var k :| k in properties && PropertyMentions(properties[k], schema);
      if k in OneOfNames(api.models[m]) {
        n :| n in Variants(api, m, k) && SimpleMentions(Variants(api, m, k)[n], schema);
      } else {
        n := k;
      }
  }
}
