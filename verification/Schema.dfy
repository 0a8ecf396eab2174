/**
 The structural schema rewriter: the schema tree, and the rewriting pass as a
 function from trees to trees.  `SchemaNode.dfy` holds the pass that edits a
 node in place and is proved equal to `Rewrite`.
 */
module Schemas {
  import opened Common

  datatype Json =
    | Null
    | Bool(b: bool)
    | Num(n: real)
    | Str(s: string)
    | Arr(elems: seq<Json>)
    | Obj(fields: map<string, Json>)

  datatype InstanceType = TNull | TBoolean | TObject | TArray | TNumber | TString | TInteger

  datatype TypeSpec = Single(t: InstanceType) | AnyType(ts: seq<InstanceType>)

  datatype Metadata = Metadata(title: Option<string>, description: Option<string>)

  /** Validation rules for JSON objects. */
  datatype ObjectRules = ObjectRules(
    properties: map<string, Schema>,
    required: set<string>,
    additional: Option<Schema>)

  datatype SchemaList = Absent | Present(branches: seq<Schema>)

  datatype Subschemas = Subschemas(oneOf: SchemaList, anyOf: SchemaList)

  datatype SchemaObject = SchemaObject(
    metadata: Option<Metadata>,
    instanceType: Option<TypeSpec>,
    enumValues: Option<seq<Json>>,
    subschemas: Option<Subschemas>,
    rules: Option<ObjectRules>,
    items: Option<Schema>,
    extensions: map<string, Json>)

  datatype Schema = BoolSchema(allow: bool) | ObjectSchema(obj: SchemaObject)

  const EMPTY_RULES := ObjectRules(map[], {}, None)
  const EMPTY_OBJECT := SchemaObject(None, None, None, None, None, None, map[])
  const PRESERVE := "x-kubernetes-preserve-unknown-fields"

  /** The pass either completes or panics; which conflict is met first does not matter here. */
  datatype Outcome<+T> = Done(value: T) | Panicked
  {
    predicate IsFailure() { Panicked? }

    function PropagateFailure<U>(): Outcome<U>
      requires Panicked?
    {
      Panicked
    }

    function Extract(): T
      requires Done?
    {
      value
    }
  }

  // ---------------------------------------------------------------- hoisting

  /** What hoisting threads through the branches of one `oneOf` or `anyOf`. */
  datatype Hoisted = Hoisted(
    branches: seq<Schema>,
    rules: Option<ObjectRules>,
    instanceType: Option<TypeSpec>)

  datatype HoistedEnums = HoistedEnums(
    branches: seq<Schema>,
    enumValues: Option<seq<Json>>,
    instanceType: Option<TypeSpec>)

  function MergeTypes(common: Option<TypeSpec>, variant: Option<TypeSpec>): Outcome<Option<TypeSpec>> {
    if variant.None? then Done(common)
    else if common.None? then Done(variant)
    else if common == variant then Done(common)
    else Panicked
  }

  function Describe(s: Schema, description: string): Schema {
    match s
    case BoolSchema(_) => s
    case ObjectSchema(o) =>
      var metadata := o.metadata.GetOr(Metadata(None, None));
      ObjectSchema(o.(metadata := Some(metadata.(description := Some(description)))))
  }

  function DescribeOnly(properties: map<string, Schema>, description: string): map<string, Schema> {
    if |properties| == 1 then
      map k | k in properties :: Describe(properties[k], description)
    else
      properties
  }

  predicate HasDescription(o: SchemaObject) {
    o.metadata.Some? && o.metadata.value.description.Some?
  }

  /** The properties a branch contributes, after its description moved to its only property. */
  function Contribution(o: SchemaObject): map<string, Schema>
    requires o.rules.Some?
  {
    if HasDescription(o) then
      DescribeOnly(o.rules.value.properties, o.metadata.value.description.value)
    else
      o.rules.value.properties
  }

  /** What stays of a branch once its properties, description and type moved to the parent. */
  function Emptied(o: SchemaObject): SchemaObject
    requires o.rules.Some?
  {
    o.(metadata := if HasDescription(o) then Some(o.metadata.value.(description := None)) else o.metadata,
       instanceType := None,
       rules := Some(ObjectRules(map[], o.rules.value.required, None)))
  }

  predicate Compatible(common: map<string, Schema>, variant: map<string, Schema>) {
    forall k | k in common && k in variant :: common[k] == variant[k]
  }

  function MergeProperties(common: map<string, Schema>, variant: map<string, Schema>): Outcome<map<string, Schema>> {
    if Compatible(common, variant) then Done(common + variant) else Panicked
  }

  predicate HasRules(s: Schema) {
    s.ObjectSchema? && s.obj.rules.Some?
  }

  predicate HasEnum(s: Schema) {
    s.ObjectSchema? && s.obj.enumValues.Some?
  }

  function HoistBranch(b: Schema, rules: Option<ObjectRules>, ty: Option<TypeSpec>): Outcome<(Schema, Option<ObjectRules>, Option<TypeSpec>)> {
    if HasRules(b) then
      var common := rules.GetOr(EMPTY_RULES);
      var properties :- MergeProperties(common.properties, Contribution(b.obj));
      var merged :- MergeTypes(ty, b.obj.instanceType);
      Done((ObjectSchema(Emptied(b.obj)), Some(common.(properties := properties)), merged))
    else
      Done((b, rules, ty))
  }

  function HoistProperties(bs: seq<Schema>, rules: Option<ObjectRules>, ty: Option<TypeSpec>): Outcome<Hoisted> {
    if bs == [] then
      Done(Hoisted([], rules, ty))
    else
      var (b, rules1, ty1) :- HoistBranch(bs[0], rules, ty);
      var rest :- HoistProperties(bs[1..], rules1, ty1);
      Done(rest.(branches := [b] + rest.branches))
  }

  function HoistEnums(bs: seq<Schema>, values: Option<seq<Json>>, ty: Option<TypeSpec>): Outcome<HoistedEnums> {
    if bs == [] then
      Done(HoistedEnums([], values, ty))
    else if HasEnum(bs[0]) then
      var merged :- MergeTypes(ty, bs[0].obj.instanceType);
      HoistEnums(bs[1..], Some(values.GetOr([]) + bs[0].obj.enumValues.value), merged)
    else
      var rest :- HoistEnums(bs[1..], values, ty);
      Done(rest.(branches := [bs[0]] + rest.branches))
  }

  // ------------------------------------------------------- rewriting one node

  function HoistOneOf(o: SchemaObject): Outcome<SchemaObject> {
    if o.subschemas.Some? && o.subschemas.value.oneOf.Present? then
      var h :- HoistProperties(o.subschemas.value.oneOf.branches, o.rules, o.instanceType);
      var e :- HoistEnums(h.branches, o.enumValues, h.instanceType);
      var oneOf := if e.branches == [] then Absent else Present(e.branches);
      Done(o.(rules := h.rules, instanceType := e.instanceType, enumValues := e.enumValues,
              subschemas := Some(o.subschemas.value.(oneOf := oneOf))))
    else
      Done(o)
  }

  function HoistAnyOf(o: SchemaObject): Outcome<SchemaObject> {
    if o.subschemas.Some? && o.subschemas.value.anyOf.Present? then
      var h :- HoistProperties(o.subschemas.value.anyOf.branches, o.rules, o.instanceType);
      Done(o.(rules := h.rules, instanceType := h.instanceType,
              subschemas := Some(o.subschemas.value.(anyOf := Present(h.branches)))))
    else
      Done(o)
  }

  predicate IsFlattenedMap(rules: ObjectRules) {
    rules.properties != map[] && rules.additional == Some(BoolSchema(true))
  }

  function AllowUnknown(o: SchemaObject): SchemaObject {
    if o.rules.Some? && IsFlattenedMap(o.rules.value) then
      o.(rules := Some(o.rules.value.(additional := None)), extensions := o.extensions[PRESERVE := Bool(true)])
    else
      o
  }

  function HoistNode(o: SchemaObject): Outcome<SchemaObject> {
    var o1 :- HoistOneOf(o);
    var o2 :- HoistAnyOf(o1);
    Done(AllowUnknown(o2))
  }

  // ------------------------------------------------------- rewriting the tree

  function RewriteList(l: SchemaList): Outcome<SchemaList>
    decreases l
  {
    match l
    case Absent => Done(l)
    case Present(bs) =>
      if forall i | 0 <= i < |bs| :: Rewrite(bs[i]).Done? then
        Done(Present(seq(|bs|, i requires 0 <= i < |bs| => Rewrite(bs[i]).value)))
      else Panicked
  }

  function RewriteRules(r: ObjectRules): Outcome<ObjectRules>
    decreases r
  {
    var additional :- RewriteOption(r.additional);
    if forall k | k in r.properties :: Rewrite(r.properties[k]).Done? then
      Done(r.(properties := map k | k in r.properties :: Rewrite(r.properties[k]).value, additional := additional))
    else Panicked
  }

  function RewriteOption(s: Option<Schema>): Outcome<Option<Schema>>
    decreases s
  {
    match s
    case None => Done(None)
    case Some(c) =>
      var c1 :- Rewrite(c);
      Done(Some(c1))
  }

  function RewriteChildren(o: SchemaObject): Outcome<SchemaObject>
    decreases o
  {
    var subschemas :- match o.subschemas {
      case None => Done(None)
      case Some(sub) =>
        var anyOf :- RewriteList(sub.anyOf);
        var oneOf :- RewriteList(sub.oneOf);
        Done(Some(Subschemas(oneOf, anyOf)))
    };
    var items :- RewriteOption(o.items);
    var rules :- match o.rules {
      case None => Done(None)
      case Some(r) =>
        var r1 :- RewriteRules(r);
        Done(Some(r1))
    };
    Done(o.(subschemas := subschemas, items := items, rules := rules))
  }

  /** Visit every child schema first, then the node itself. */
  function Rewrite(s: Schema): Outcome<Schema>
    decreases s
  {
    match s
    case BoolSchema(_) => Done(s)
    case ObjectSchema(o) =>
      var children :- RewriteChildren(o);
      var node :- HoistNode(children);
      Done(ObjectSchema(node))
  }
}
