/**
 What a schema means: which JSON values it accepts (JSON Schema Validation draft-07,
 sections 6.1.1, 6.1.2, 6.4.1, 6.5.3, 6.5.4, 6.5.6, 6.7.2 and 6.7.3), which fields an
 API server prunes, and the proof that rewriting keeps that meaning.
 */
module SchemaMeaning {
  import opened Common
  import opened Schemas
  import opened SchemaNormal

  // -------------------------------------------------------------- acceptance

  predicate HasType(t: InstanceType, v: Json) {
    match t
    case TNull => v.Null?
    case TBoolean => v.Bool?
    case TObject => v.Obj?
    case TArray => v.Arr?
    case TNumber => v.Num?
    case TString => v.Str?
    case TInteger => v.Num? && v.n.Floor as real == v.n
  }

  predicate TypeAllows(ty: Option<TypeSpec>, v: Json) {
    match ty
    case None => true
    case Some(Single(t)) => HasType(t, v)
    case Some(AnyType(ts)) => exists t <- ts :: HasType(t, v)
  }

  predicate AcceptsRules(r: ObjectRules, fields: map<string, Json>)
    decreases r
  {
    && r.required <= fields.Keys
    && (forall k | k in fields && k in r.properties :: Accepts(r.properties[k], fields[k]))
    && (r.additional.Some? ==>
          forall k | k in fields && k !in r.properties :: Accepts(r.additional.value, fields[k]))
  }

  /** `oneOf`: exactly one branch accepts. */
  predicate AcceptsOneOf(l: SchemaList, v: Json)
    decreases l
  {
    l.Present? ==>
      exists i | 0 <= i < |l.branches| ::
        && Accepts(l.branches[i], v)
        && forall j | 0 <= j < |l.branches| && j != i :: !Accepts(l.branches[j], v)
  }

  /** `anyOf`: at least one branch accepts. */
  predicate AcceptsAnyOf(l: SchemaList, v: Json)
    decreases l
  {
    l.Present? ==> exists i | 0 <= i < |l.branches| :: Accepts(l.branches[i], v)
  }

  predicate AcceptsObject(o: SchemaObject, v: Json)
    decreases o
  {
    && TypeAllows(o.instanceType, v)
    && (o.enumValues.Some? ==> v in o.enumValues.value)
    && (o.subschemas.Some? ==>
          AcceptsOneOf(o.subschemas.value.oneOf, v) && AcceptsAnyOf(o.subschemas.value.anyOf, v))
    && (o.rules.Some? && v.Obj? ==> AcceptsRules(o.rules.value, v.fields))
    && (o.items.Some? && v.Arr? ==> forall e <- v.elems :: Accepts(o.items.value, e))
  }

  predicate Accepts(s: Schema, v: Json)
    decreases s
  {
    match s
    case BoolSchema(allow) => allow
    case ObjectSchema(o) => AcceptsObject(o, v)
  }

  // ----------------------------------------------------------------- pruning

  predicate Preserves(o: SchemaObject) {
    PRESERVE in o.extensions && o.extensions[PRESERVE] == Bool(true)
  }

  predicate Keeps(o: SchemaObject, k: string) {
    var r := o.rules.GetOr(EMPTY_RULES);
    k in r.properties || r.additional.Some? || Preserves(o)
  }

  /** The value as the server stores it under `s`: fields that `s` does not know are dropped. */
  function Prune(s: Schema, v: Json): Json
    decreases v
  {
    match (s, v)
    case (ObjectSchema(o), Obj(fields)) =>
      var r := o.rules.GetOr(EMPTY_RULES);
      Obj(map k | k in fields && Keeps(o, k) ::
            if k in r.properties then Prune(r.properties[k], fields[k])
            else if r.additional.Some? then Prune(r.additional.value, fields[k])
            else fields[k])
    case (ObjectSchema(o), Arr(elems)) =>
      var item := if o.items.Some? then o.items.value
                  else if Preserves(o) then BoolSchema(true)
                  else ObjectSchema(EMPTY_OBJECT);
      Arr(seq(|elems|, i requires 0 <= i < |elems| => Prune(item, elems[i])))
    case _ => v
  }

  // ------------------------------------------------ the schemas serde derives

  predicate Scalar(v: Json) { !v.Arr? && !v.Obj? }

  predicate NoBranches(o: SchemaObject) {
    o.subschemas.Some? ==> o.subschemas.value.oneOf.Absent? && o.subschemas.value.anyOf.Absent?
  }

  /** Leaves, arrays, structs and maps: no alternatives, and no required field that pruning would drop. */
  predicate PlainNode(o: SchemaObject) {
    && NoBranches(o)
    && (o.enumValues.Some? ==> forall v <- o.enumValues.value :: Scalar(v))
    && (o.rules.Some? ==> forall k <- o.rules.value.required :: Keeps(o, k))
  }

  predicate OnlyOneOf(o: SchemaObject) {
    && o.subschemas.Some? && o.subschemas.value.anyOf.Absent?
    && o.subschemas.value.oneOf.Present? && o.subschemas.value.oneOf.branches != []
    && o.enumValues.None? && o.rules.None? && o.items.None?
  }

  /** The branches of a node that has nothing but a `oneOf`. */
  function Branches(o: SchemaObject): (bs: seq<Schema>)
    requires OnlyOneOf(o)
    ensures bs != []
  {
    o.subschemas.value.oneOf.branches
  }

  function EnumOf(b: Schema): seq<Json> {
    if HasEnum(b) then b.obj.enumValues.value else []
  }

  function TypeOf(b: Schema): Option<TypeSpec> {
    if b.ObjectSchema? then b.obj.instanceType else None
  }

  function MergedType(o: SchemaObject): Option<TypeSpec>
    requires OnlyOneOf(o)
  {
    if o.instanceType.Some? then o.instanceType else TypeOf(Branches(o)[0])
  }

  predicate SimpleBranch(b: Schema, ty: Option<TypeSpec>) {
    b.ObjectSchema? && NoBranches(b.obj) && b.obj.items.None? && b.obj.instanceType == ty
  }

  predicate EnumBranch(b: Schema, ty: Option<TypeSpec>) {
    SimpleBranch(b, ty) && b.obj.rules.None? && HasEnum(b) && forall v <- EnumOf(b) :: Scalar(v)
  }

  /** A `oneOf` of documented plain enum variants: disjoint scalar values under one type. */
  predicate EnumNode(o: SchemaObject) {
    && OnlyOneOf(o)
    && var bs := Branches(o);
    && SameType(o.instanceType, TypeOf(bs[0]))
    && (forall i | 0 <= i < |bs| :: EnumBranch(bs[i], TypeOf(bs[0])))
    && (forall i, j | 0 <= i < j < |bs| :: forall v <- EnumOf(bs[i]) :: v !in EnumOf(bs[j]))
  }

  ghost predicate TagBranch(b: Schema, tag: string, ty: Option<TypeSpec>) {
    && SimpleBranch(b, ty) && b.obj.enumValues.None? && b.obj.rules.Some?
    && b.obj.rules.value.required == {tag}
    && b.obj.rules.value.properties.Keys == {tag}
    && b.obj.rules.value.additional == Some(BoolSchema(false))
  }

  /** An externally tagged enum: every branch is one required property, closed, under its own tag. */
  ghost predicate TaggedBy(o: SchemaObject, tags: seq<string>) {
    && OnlyOneOf(o) && !Preserves(o)
    && var bs := Branches(o);
    && |tags| == |bs|
    && SameType(o.instanceType, TypeOf(bs[0]))
    && (forall i | 0 <= i < |bs| :: TagBranch(bs[i], tags[i], TypeOf(bs[0])))
    && Distinct(tags)
  }

  ghost predicate Distinct(tags: seq<string>) {
    forall i, j | 0 <= i < j < |tags| :: tags[i] != tags[j]
  }

  ghost predicate SupportedRules(r: ObjectRules)
    decreases r
  {
    && (forall k | k in r.properties :: Supported(r.properties[k]))
    && (r.additional.Some? ==> Supported(r.additional.value))
  }

  ghost predicate SupportedBranches(l: SchemaList)
    decreases l
  {
    l.Present? ==> forall i | 0 <= i < |l.branches| :: Supported(l.branches[i])
  }

  ghost predicate SupportedObject(o: SchemaObject)
    decreases o
  {
    || (PlainNode(o) && (o.rules.Some? ==> SupportedRules(o.rules.value)) && (o.items.Some? ==> Supported(o.items.value)))
    || EnumNode(o)
    || ((exists tags :: TaggedBy(o, tags)) && SupportedBranches(o.subschemas.value.oneOf))
  }

  /** The schemas that plain structs, arrays, maps and enums give rise to. */
  ghost predicate Supported(s: Schema)
    decreases s
  {
    s.ObjectSchema? ==> SupportedObject(s.obj)
  }

  // --------------------------------------------------------- descriptions

  /** A description changes neither acceptance nor pruning. */
  lemma DescribeMeaning(s: Schema, description: string, v: Json)
    ensures Accepts(Describe(s, description), v) == Accepts(s, v)
    ensures Prune(Describe(s, description), v) == Prune(s, v)
  {
    if s.ObjectSchema? {
      assert AcceptsObject(Describe(s, description).obj, v) == AcceptsObject(s.obj, v);
      if v.Obj? {
        assert Prune(Describe(s, description), v).fields == Prune(s, v).fields;
      }
    }
  }

  lemma ContributionMeaning(o: SchemaObject, k: string, v: Json)
    requires o.rules.Some? && k in o.rules.value.properties
    ensures k in Contribution(o)
    ensures Accepts(Contribution(o)[k], v) == Accepts(o.rules.value.properties[k], v)
    ensures Prune(Contribution(o)[k], v) == Prune(o.rules.value.properties[k], v)
  {
    if HasDescription(o) {
      DescribeMeaning(o.rules.value.properties[k], o.metadata.value.description.value, v);
    }
  }

  // ---------------------------------------------------------- plain nodes

  /** What rewriting makes of a node without alternatives. */
  lemma PlainShape(o: SchemaObject)
    requires NoBranches(o)
    ensures Rewrite(ObjectSchema(o)) ==
            if RewriteChildren(o).Done? then Done(ObjectSchema(AllowUnknown(RewriteChildren(o).value))) else Panicked
    ensures RewriteChildren(o).Done? ==> RewriteChildren(o).value.subschemas == o.subschemas
    ensures RewriteChildren(o).Done? <==>
            (o.items.Some? ==> Rewrite(o.items.value).Done?) && (o.rules.Some? ==> RewriteRules(o.rules.value).Done?)
  {
    assert RewriteOption(o.items).Done? <==> (o.items.Some? ==> Rewrite(o.items.value).Done?);
  }

  /** The pass never panics on a supported schema. */
  lemma {:induction false} RewriteTotal(s: Schema)
    requires Supported(s)
    ensures Rewrite(s).Done?
    decreases s
  {
    if s.ObjectSchema? {
      var o := s.obj;
      if PlainNode(o) && (o.rules.Some? ==> SupportedRules(o.rules.value)) && (o.items.Some? ==> Supported(o.items.value)) {
        PlainShape(o);
        if o.items.Some? { RewriteTotal(o.items.value); }
        if o.rules.Some? { RewriteRulesTotal(o.rules.value); }
      } else if EnumNode(o) {
        EnumShape(o);
      } else {
        var tags :| TaggedBy(o, tags);
        BranchesTotal(o.subschemas.value.oneOf);
        TaggedShape(o, tags);
      }
    }
  }

  lemma {:induction false} RewriteRulesTotal(r: ObjectRules)
    requires SupportedRules(r)
    ensures RewriteRules(r).Done?
    decreases r
  {
    if r.additional.Some? { RewriteTotal(r.additional.value); }
    assert RewriteOption(r.additional).Done?;
    forall k | k in r.properties ensures Rewrite(r.properties[k]).Done? { RewriteTotal(r.properties[k]); }
  }

  lemma {:induction false} BranchesTotal(l: SchemaList)
    requires SupportedBranches(l)
    ensures RewriteList(l).Done?
    decreases l
  {
    if l.Present? {
      forall i | 0 <= i < |l.branches| ensures Rewrite(l.branches[i]).Done? { RewriteTotal(l.branches[i]); }
    }
  }

  // ---------------------------------------------------------- enum nodes

  lemma {:induction false} EnumsAll(bs: seq<Schema>, values: Option<seq<Json>>, ty: Option<TypeSpec>, bt: Option<TypeSpec>)
    requires forall i | 0 <= i < |bs| :: HasEnum(bs[i]) && TypeOf(bs[i]) == bt
    requires SameType(ty, bt)
    ensures
      var h := HoistEnums(bs, values, ty);
      && h.Done? && h.value.branches == []
      && h.value.instanceType == (if bs == [] || ty.Some? then ty else bt)
      && (bs != [] ==> h.value.enumValues.Some?)
      && (forall v :: v in h.value.enumValues.GetOr([]) <==>
            v in values.GetOr([]) || exists i | 0 <= i < |bs| :: v in EnumOf(bs[i]))
  {
    if bs != [] {
      var tail := bs[1..];
      var values1 := Some(values.GetOr([]) + EnumOf(bs[0]));
      EnumsAll(tail, values1, MergeTypes(ty, bt).value, bt);
      var h := HoistEnums(bs, values, ty).value;
      forall v
        ensures v in h.enumValues.GetOr([]) <==> v in values.GetOr([]) || exists i | 0 <= i < |bs| :: v in EnumOf(bs[i])
      {
        if i :| 1 <= i < |bs| && v in EnumOf(bs[i]) {
          assert tail[i - 1] == bs[i];
        }
        if i :| 0 <= i < |tail| && v in EnumOf(tail[i]) {
          assert bs[i + 1] == tail[i];
        }
      }
    }
  }

  /** An enum node becomes one flat list of values. */
  ghost predicate EnumResult(o: SchemaObject, t: SchemaObject) {
    && EnumNode(o)
    && var bs := Branches(o);
    && NoBranches(t) && t.rules.None? && t.items.None? && t.enumValues.Some?
    && t.instanceType == MergedType(o) && t.extensions == o.extensions
    && (forall v :: v in t.enumValues.value <==> exists i | 0 <= i < |bs| :: v in EnumOf(bs[i]))
  }

  lemma EnumShape(o: SchemaObject)
    requires EnumNode(o)
    ensures Rewrite(ObjectSchema(o)).Done?
    ensures EnumResult(o, Rewrite(ObjectSchema(o)).value.obj)
  {
    var l := o.subschemas.value.oneOf;
    var bs := Branches(o);
    forall i | 0 <= i < |bs| ensures Rewrite(bs[i]) == Done(bs[i]) {
      PlainShape(bs[i].obj);
    }
    assert RewriteList(l).value.branches == bs;
    assert RewriteChildren(o) == Done(o);
    HoistPropertiesFixed(bs, None, o.instanceType);
    EnumsAll(bs, None, o.instanceType, TypeOf(bs[0]));
    var h := HoistEnums(bs, None, o.instanceType).value;
    var t := Rewrite(ObjectSchema(o)).value.obj;
    assert t.enumValues == h.enumValues && t.enumValues.value == h.enumValues.GetOr([]);
  }

  lemma EnumBranchAccepts(b: Schema, ty: Option<TypeSpec>, v: Json)
    requires EnumBranch(b, ty)
    ensures Accepts(b, v) <==> TypeAllows(ty, v) && v in EnumOf(b)
  {
    assert AcceptsObject(b.obj, v) <==> TypeAllows(ty, v) && v in EnumOf(b);
  }

  /** Disjoint values: some branch lists the value exactly when exactly one does. */
  lemma EnumOneOf(o: SchemaObject, v: Json)
    requires EnumNode(o)
    ensures AcceptsOneOf(o.subschemas.value.oneOf, v) <==>
            TypeAllows(TypeOf(Branches(o)[0]), v) && exists i | 0 <= i < |Branches(o)| :: v in EnumOf(Branches(o)[i])
  {
    var l := o.subschemas.value.oneOf;
    var bs := l.branches;
    forall i | 0 <= i < |bs| ensures Accepts(bs[i], v) <==> TypeAllows(TypeOf(bs[0]), v) && v in EnumOf(bs[i]) {
      EnumBranchAccepts(bs[i], TypeOf(bs[0]), v);
    }
    if i :| 0 <= i < |bs| && v in EnumOf(bs[i]) {
      assert forall j | 0 <= j < |bs| && j != i :: !Accepts(bs[j], v);
    }
  }

  lemma EnumPreserves(o: SchemaObject, t: SchemaObject, v: Json)
    requires EnumResult(o, t)
    ensures AcceptsObject(o, v) <==> AcceptsObject(t, v)
    ensures AcceptsObject(t, v) ==> Prune(ObjectSchema(t), v) == v
  {
    var bs := Branches(o);
    EnumOneOf(o, v);
    assert AcceptsObject(o, v) <==> TypeAllows(o.instanceType, v) && AcceptsOneOf(o.subschemas.value.oneOf, v);
    assert AcceptsObject(t, v) <==> TypeAllows(t.instanceType, v) && v in t.enumValues.value;
    if i :| 0 <= i < |bs| && v in EnumOf(bs[i]) {
      assert EnumBranch(bs[i], TypeOf(bs[0]));
      assert Scalar(v);
    }
  }

  // -------------------------------------------------------- tagged nodes

  function PropertyOf(b: Schema, tag: string): Schema {
    if HasRules(b) && tag in b.obj.rules.value.properties then b.obj.rules.value.properties[tag] else BoolSchema(true)
  }

  /** Rewriting a tagged branch rewrites the one property it holds, nothing else. */
  ghost predicate BranchRewritten(b: Schema, tag: string, ty: Option<TypeSpec>, c: Schema) {
    && SimpleBranch(c, ty) && HasRules(c) && !HasEnum(c)
    && c.obj.rules.value.required == {tag}
    && c.obj.rules.value.properties.Keys == {tag}
    && Rewrite(PropertyOf(b, tag)) == Done(PropertyOf(c, tag))
  }

  lemma BranchShape(b: Schema, tag: string, ty: Option<TypeSpec>)
    requires TagBranch(b, tag, ty) && Rewrite(b).Done?
    ensures BranchRewritten(b, tag, ty, Rewrite(b).value)
  {
    PlainShape(b.obj);
    assert RewriteOption(Some(BoolSchema(false))) == Done(Some(BoolSchema(false)));
    var c := RewriteChildren(b.obj).value;
    assert AllowUnknown(c) == c;
    assert tag in b.obj.rules.value.properties;
    assert c.rules.value.properties.Keys == {tag};
  }

  ghost predicate TaggedHoisted(cs: seq<Schema>, tags: seq<string>, h: Hoisted) {
    && |cs| == |tags| == |h.branches|
    && (forall i | 0 <= i < |cs| :: HasRules(cs[i]) && h.branches[i] == ObjectSchema(Emptied(cs[i].obj)))
    && h.rules.Some? && h.rules.value.required == {} && h.rules.value.additional.None?
    && (forall k :: k in h.rules.value.properties <==> k in tags)
    && (forall i | 0 <= i < |cs| :: Submap(Contribution(cs[i].obj), h.rules.value.properties))
  }

  ghost predicate TaggedBranches(cs: seq<Schema>, tags: seq<string>, bt: Option<TypeSpec>) {
    && |cs| == |tags| > 0 && Distinct(tags)
    && forall i | 0 <= i < |cs| :: HasRules(cs[i]) && TypeOf(cs[i]) == bt && Contribution(cs[i].obj).Keys == {tags[i]}
  }

  lemma TaggedAgree(cs: seq<Schema>, tags: seq<string>, ty: Option<TypeSpec>, bt: Option<TypeSpec>)
    requires TaggedBranches(cs, tags, bt) && SameType(ty, bt)
    ensures Agrees(cs, None, ty)
  {
    forall i, j | 0 <= i < j < |cs| ensures Compatible(Contribution(cs[i].obj), Contribution(cs[j].obj)) {
      assert tags[i] != tags[j];
    }
  }

  lemma TaggedHoist(cs: seq<Schema>, tags: seq<string>, ty: Option<TypeSpec>, bt: Option<TypeSpec>)
    requires TaggedBranches(cs, tags, bt) && SameType(ty, bt)
    ensures HoistProperties(cs, None, ty).Done?
    ensures TaggedHoisted(cs, tags, HoistProperties(cs, None, ty).value)
    ensures HoistProperties(cs, None, ty).value.instanceType == if ty.Some? then ty else bt
  {
    TaggedAgree(cs, tags, ty, bt);
    HoistPropertiesPanicsIff(cs, None, ty);
    HoistPropertiesUnion(cs, None, ty);
    var h := HoistProperties(cs, None, ty).value;
    assert HasRules(cs[0]) && TypeOf(cs[0]) == bt;
    TaggedKeys(cs, tags, bt, h);
  }

  lemma TaggedKeys(cs: seq<Schema>, tags: seq<string>, bt: Option<TypeSpec>, h: Hoisted)
    requires TaggedBranches(cs, tags, bt) && HoldsUnion(cs, None, h.rules) && h.rules.Some?
    ensures forall k :: k in h.rules.value.properties <==> k in tags
  {
    forall k | k in h.rules.value.properties ensures k in tags {
      var i :| 0 <= i < |cs| && HasRules(cs[i]) && k in Contribution(cs[i].obj);
      assert k == tags[i];
    }
    forall k | k in tags ensures k in h.rules.value.properties {
      var i :| 0 <= i < |tags| && tags[i] == k;
      assert k in Contribution(cs[i].obj);
    }
  }

  ghost predicate BranchesRewritten(o: SchemaObject, tags: seq<string>, cs: seq<Schema>) {
    && TaggedBy(o, tags) && |cs| == |tags|
    && forall i | 0 <= i < |cs| :: BranchRewritten(Branches(o)[i], tags[i], TypeOf(Branches(o)[0]), cs[i])
  }

  /** A tagged node holds every branch's property itself; its branches only require a tag. */
  ghost predicate TaggedResult(o: SchemaObject, tags: seq<string>, cs: seq<Schema>, t: SchemaObject) {
    && BranchesRewritten(o, tags, cs)
    && t.enumValues.None? && t.items.None? && t.extensions == o.extensions
    && t.instanceType == MergedType(o)
    && t.subschemas.Some? && t.subschemas.value.anyOf.Absent? && t.subschemas.value.oneOf.Present?
    && TaggedHoisted(cs, tags, Hoisted(t.subschemas.value.oneOf.branches, t.rules, t.instanceType))
  }

  lemma TaggedChildren(o: SchemaObject, tags: seq<string>)
    requires TaggedBy(o, tags) && RewriteList(o.subschemas.value.oneOf).Done?
    ensures
      var cs := RewriteList(o.subschemas.value.oneOf).value.branches;
      && BranchesRewritten(o, tags, cs)
      && TaggedBranches(cs, tags, TypeOf(Branches(o)[0]))
      && (forall i | 0 <= i < |cs| :: !HasEnum(cs[i]))
  {
    var l := o.subschemas.value.oneOf;
    var bs := l.branches;
    var bt := TypeOf(bs[0]);
    var cs := RewriteList(l).value.branches;
    forall i | 0 <= i < |bs|
      ensures BranchRewritten(bs[i], tags[i], bt, cs[i]) && Contribution(cs[i].obj).Keys == {tags[i]}
    {
      assert Rewrite(bs[i]).Done?;
      BranchShape(bs[i], tags[i], bt);
    }
  }

  /** Rewriting a node that has only a `oneOf`, its branches already rewritten to `cs`. */
  lemma OneOfNode(o: SchemaObject, cs: seq<Schema>, h: Hoisted)
    requires OnlyOneOf(o) && RewriteList(o.subschemas.value.oneOf) == Done(Present(cs))
    requires HoistProperties(cs, None, o.instanceType) == Done(h)
    requires h.branches != [] && forall i | 0 <= i < |h.branches| :: !HasEnum(h.branches[i])
    requires h.rules.Some? && h.rules.value.additional.None?
    ensures Rewrite(ObjectSchema(o)) ==
            Done(ObjectSchema(o.(rules := h.rules, instanceType := h.instanceType,
                                 subschemas := Some(Subschemas(Present(h.branches), Absent)))))
  {
    HoistEnumsFixed(h.branches, None, h.instanceType);
    var c := o.(subschemas := Some(Subschemas(Present(cs), Absent)));
    assert RewriteChildren(o) == Done(c);
    var t := c.(rules := h.rules, instanceType := h.instanceType,
                subschemas := Some(Subschemas(Present(h.branches), Absent)));
    assert HoistOneOf(c) == Done(t) && HoistAnyOf(t) == Done(t);
  }

  lemma TaggedShape(o: SchemaObject, tags: seq<string>)
    requires TaggedBy(o, tags) && RewriteList(o.subschemas.value.oneOf).Done?
    ensures Rewrite(ObjectSchema(o)).Done?
    ensures TaggedResult(o, tags, RewriteList(o.subschemas.value.oneOf).value.branches, Rewrite(ObjectSchema(o)).value.obj)
  {
    var cs := RewriteList(o.subschemas.value.oneOf).value.branches;
    TaggedChildren(o, tags);
    TaggedHoist(cs, tags, o.instanceType, TypeOf(Branches(o)[0]));
    OneOfNode(o, cs, HoistProperties(cs, None, o.instanceType).value);
  }

  /** A value shows a tag; every value that is not an object shows all of them. */
  predicate Shows(tag: string, v: Json) {
    v.Obj? ==> tag in v.fields
  }

  ghost predicate OneTag(tags: seq<string>, i: int, v: Json) {
    0 <= i < |tags| && Shows(tags[i], v) && forall j | 0 <= j < |tags| && j != i :: !Shows(tags[j], v)
  }

  lemma EmptiedAccepts(c: SchemaObject, tag: string, v: Json)
    requires c.rules.Some? && c.rules.value.required == {tag}
    requires c.enumValues.None? && c.items.None? && NoBranches(c)
    ensures Accepts(ObjectSchema(Emptied(c)), v) <==> Shows(tag, v)
  {
    var e := Emptied(c);
    assert AcceptsObject(e, v) <==> (v.Obj? ==> AcceptsRules(e.rules.value, v.fields));
  }

  lemma BranchAccepts(b: Schema, tag: string, ty: Option<TypeSpec>, v: Json)
    requires TagBranch(b, tag, ty)
    ensures Accepts(b, v) <==>
            TypeAllows(ty, v) && (v.Obj? ==> v.fields.Keys == {tag} && Accepts(PropertyOf(b, tag), v.fields[tag]))
  {
    var r := b.obj.rules.value;
    assert tag in r.properties;
    assert AcceptsObject(b.obj, v) <==> TypeAllows(ty, v) && (v.Obj? ==> AcceptsRules(r, v.fields));
    if v.Obj? {
      assert forall k | k in v.fields :: !Accepts(r.additional.value, v.fields[k]);
      if v.fields.Keys == {tag} {
        assert tag in v.fields;
      } else if tag in v.fields {
        assert exists k :: k in v.fields && k != tag;
      }
    }
  }

  lemma TaggedOneOf(cs: seq<Schema>, tags: seq<string>, h: Hoisted, v: Json)
    requires TaggedHoisted(cs, tags, h)
    requires forall i | 0 <= i < |cs| :: SimpleBranch(cs[i], TypeOf(cs[i])) && !HasEnum(cs[i]) && cs[i].obj.rules.value.required == {tags[i]}
    ensures AcceptsOneOf(Present(h.branches), v) <==> exists i :: OneTag(tags, i, v)
  {
    var l := Present(h.branches);
    forall i | 0 <= i < |tags| ensures Accepts(l.branches[i], v) <==> Shows(tags[i], v) {
      EmptiedAccepts(cs[i].obj, tags[i], v);
    }
    if i :| OneTag(tags, i, v) {
      assert Accepts(l.branches[i], v) && forall j | 0 <= j < |l.branches| && j != i :: !Accepts(l.branches[j], v);
    }
    if AcceptsOneOf(l, v) {
      var i :| 0 <= i < |l.branches| && Accepts(l.branches[i], v) && forall j | 0 <= j < |l.branches| && j != i :: !Accepts(l.branches[j], v);
      assert OneTag(tags, i, v);
    }
  }

  ghost predicate TagsAccept(cs: seq<Schema>, tags: seq<string>, v: Json)
    requires |cs| == |tags|
  {
    v.Obj? ==> forall i | 0 <= i < |tags| && tags[i] in v.fields :: Accepts(PropertyOf(cs[i], tags[i]), v.fields[tags[i]])
  }

  lemma TaggedRules(cs: seq<Schema>, tags: seq<string>, h: Hoisted, v: Json)
    requires TaggedHoisted(cs, tags, h) && v.Obj?
    requires forall i | 0 <= i < |cs| :: cs[i].obj.rules.value.properties.Keys == {tags[i]}
    ensures AcceptsRules(h.rules.value, v.fields) <==> TagsAccept(cs, tags, v)
  {
    var properties := h.rules.value.properties;
    forall i | 0 <= i < |tags|
      ensures forall w :: Accepts(properties[tags[i]], w) == Accepts(PropertyOf(cs[i], tags[i]), w)
    {
      assert tags[i] in cs[i].obj.rules.value.properties;
      forall w ensures Accepts(properties[tags[i]], w) == Accepts(PropertyOf(cs[i], tags[i]), w) {
        ContributionMeaning(cs[i].obj, tags[i], w);
      }
    }
    forall k | k in v.fields && k in properties ensures exists i | 0 <= i < |tags| :: tags[i] == k {
    }
  }

  /** Acceptance of a rewritten tagged node, spelled out. */
  lemma TaggedAccepts(o: SchemaObject, tags: seq<string>, cs: seq<Schema>, t: SchemaObject, v: Json)
    requires TaggedResult(o, tags, cs, t)
    ensures AcceptsObject(t, v) <==>
            && TypeAllows(o.instanceType, v) && TypeAllows(TypeOf(Branches(o)[0]), v)
            && (exists i :: OneTag(tags, i, v))
            && TagsAccept(cs, tags, v)
  {
    var h := Hoisted(t.subschemas.value.oneOf.branches, t.rules, t.instanceType);
    TaggedOneOf(cs, tags, h, v);
    if v.Obj? {
      TaggedRules(cs, tags, h, v);
    }
    assert AcceptsAnyOf(t.subschemas.value.anyOf, v);
    assert TypeAllows(t.instanceType, v) == (TypeAllows(o.instanceType, v) && TypeAllows(TypeOf(Branches(o)[0]), v));
  }

  lemma TaggedForward(o: SchemaObject, tags: seq<string>, cs: seq<Schema>, t: SchemaObject, v: Json)
    requires TaggedResult(o, tags, cs, t) && AcceptsObject(o, v)
    requires forall i | 0 <= i < |tags| && v.Obj? && tags[i] in v.fields ::
               Accepts(PropertyOf(Branches(o)[i], tags[i]), v.fields[tags[i]]) ==> Accepts(PropertyOf(cs[i], tags[i]), v.fields[tags[i]])
    ensures AcceptsObject(t, v)
  {
    var bs := Branches(o);
    forall i | 0 <= i < |bs| {
      BranchAccepts(bs[i], tags[i], TypeOf(bs[0]), v);
    }
    var i :| 0 <= i < |bs| && Accepts(bs[i], v) && forall j | 0 <= j < |bs| && j != i :: !Accepts(bs[j], v);
    assert OneTag(tags, i, v);
    TaggedAccepts(o, tags, cs, t, v);
  }

  /** A value that shows one tag has no other field that a rewritten tagged node knows. */
  lemma OneTagKept(o: SchemaObject, tags: seq<string>, cs: seq<Schema>, t: SchemaObject, v: Json, i: int, k: string)
    requires TaggedResult(o, tags, cs, t) && v.Obj? && OneTag(tags, i, v)
    ensures k in v.fields && Keeps(t, k) <==> k == tags[i]
  {
    if k in v.fields && Keeps(t, k) {
      var j :| 0 <= j < |tags| && tags[j] == k;
      assert j == i;
    }
    assert tags[i] in tags;
  }

  /** Pruning under a rewritten tagged node keeps the tag and prunes what is under it. */
  lemma TaggedPrune(o: SchemaObject, tags: seq<string>, cs: seq<Schema>, t: SchemaObject, v: Json, i: int)
    requires TaggedResult(o, tags, cs, t) && v.Obj? && OneTag(tags, i, v)
    ensures
      var p := Prune(ObjectSchema(t), v);
      && p.Obj? && p.fields.Keys == {tags[i]}
      && p.fields[tags[i]] == Prune(PropertyOf(cs[i], tags[i]), v.fields[tags[i]])
  {
    var tag := tags[i];
    forall k ensures k in v.fields && Keeps(t, k) <==> k == tag {
      OneTagKept(o, tags, cs, t, v, i, k);
    }
    assert tag in cs[i].obj.rules.value.properties;
    ContributionMeaning(cs[i].obj, tag, v.fields[tag]);
  }

  lemma TaggedBackward(o: SchemaObject, tags: seq<string>, cs: seq<Schema>, t: SchemaObject, v: Json)
    requires TaggedResult(o, tags, cs, t) && AcceptsObject(t, v)
    requires forall i | 0 <= i < |tags| && v.Obj? && tags[i] in v.fields ::
               Accepts(PropertyOf(cs[i], tags[i]), v.fields[tags[i]]) ==>
               Accepts(PropertyOf(Branches(o)[i], tags[i]), Prune(PropertyOf(cs[i], tags[i]), v.fields[tags[i]]))
    ensures AcceptsObject(o, Prune(ObjectSchema(t), v))
  {
    var bs := Branches(o);
    var p := Prune(ObjectSchema(t), v);
    TaggedAccepts(o, tags, cs, t, v);
    var i :| OneTag(tags, i, v);
    PruneKeepsType(ObjectSchema(t), v, o.instanceType);
    PruneKeepsType(ObjectSchema(t), v, TypeOf(bs[0]));
    if v.Obj? {
      TaggedPrune(o, tags, cs, t, v, i);
    }
    forall j | 0 <= j < |bs| ensures Accepts(bs[j], p) <==> j == i {
      BranchAccepts(bs[j], tags[j], TypeOf(bs[0]), p);
    }
    assert AcceptsOneOf(o.subschemas.value.oneOf, p);
  }

  lemma PruneKeepsType(s: Schema, v: Json, ty: Option<TypeSpec>)
    ensures TypeAllows(ty, Prune(s, v)) == TypeAllows(ty, v)
  {
    var p := Prune(s, v);
    assert forall t :: HasType(t, p) == HasType(t, v);
  }

  // ------------------------------------------------- plain nodes, meaning

  lemma PlainForward(o: SchemaObject, v: Json)
    requires PlainNode(o) && RewriteChildren(o).Done? && AcceptsObject(o, v)
    requires o.items.Some? ==> Rewrite(o.items.value).Done?
    requires v.Arr? && o.items.Some? ==> forall e <- v.elems :: Accepts(Rewrite(o.items.value).value, e)
    requires v.Obj? && o.rules.Some? ==> AcceptsRules(RewriteRules(o.rules.value).value, v.fields)
    ensures AcceptsObject(AllowUnknown(RewriteChildren(o).value), v)
  {
    var c := RewriteChildren(o).value;
    assert o.items.Some? ==> c.items == Some(Rewrite(o.items.value).value);
    assert AcceptsObject(c, v);
  }

  lemma PlainBackward(o: SchemaObject, v: Json)
    requires PlainNode(o) && RewriteChildren(o).Done?
    requires AcceptsObject(AllowUnknown(RewriteChildren(o).value), v)
    requires o.items.Some? ==> Rewrite(o.items.value).Done?
    requires v.Arr? && o.items.Some? ==>
      forall e <- v.elems :: Accepts(Rewrite(o.items.value).value, e) ==> Accepts(o.items.value, Prune(Rewrite(o.items.value).value, e))
    requires v.Obj? && o.rules.Some? ==> AcceptsRules(o.rules.value, Prune(ObjectSchema(AllowUnknown(RewriteChildren(o).value)), v).fields)
    ensures AcceptsObject(o, Prune(ObjectSchema(AllowUnknown(RewriteChildren(o).value)), v))
  {
    var t := AllowUnknown(RewriteChildren(o).value);
    var p := Prune(ObjectSchema(t), v);
    PruneKeepsType(ObjectSchema(t), v, o.instanceType);
    assert o.items.Some? ==> t.items == Some(Rewrite(o.items.value).value);
    if o.enumValues.Some? {
      assert Scalar(v);
    }
    if v.Arr? && o.items.Some? {
      forall e | e in p.elems ensures Accepts(o.items.value, e) {
        var i :| 0 <= i < |p.elems| && p.elems[i] == e;
        assert v.elems[i] in v.elems;
      }
    }
  }

  lemma {:induction false} RulesForward(r: ObjectRules, fields: map<string, Json>)
    requires SupportedRules(r) && RewriteRules(r).Done? && AcceptsRules(r, fields)
    ensures AcceptsRules(RewriteRules(r).value, fields)
    decreases r, 0
  {
    var r1 := RewriteRules(r).value;
    forall k | k in fields && k in r.properties ensures Accepts(r1.properties[k], fields[k]) {
      RewritePreserves(r.properties[k], fields[k]);
    }
    if r.additional.Some? {
      assert r1.additional == Some(Rewrite(r.additional.value).value);
      forall k | k in fields && k !in r.properties ensures Accepts(r1.additional.value, fields[k]) {
        RewritePreserves(r.additional.value, fields[k]);
      }
    }
  }

  lemma {:induction false} RulesBackward(o: SchemaObject, fields: map<string, Json>)
    requires PlainNode(o) && RewriteChildren(o).Done? && o.rules.Some? && SupportedRules(o.rules.value)
    requires AcceptsObject(AllowUnknown(RewriteChildren(o).value), Obj(fields))
    ensures AcceptsRules(o.rules.value, Prune(ObjectSchema(AllowUnknown(RewriteChildren(o).value)), Obj(fields)).fields)
    decreases o, 0
  {
    var r := o.rules.value;
    var r1 := RewriteRules(r).value;
    var t := AllowUnknown(RewriteChildren(o).value);
    var p := Prune(ObjectSchema(t), Obj(fields)).fields;
    forall k | k in p && k in r.properties ensures Accepts(r.properties[k], p[k]) {
      RewritePreserves(r.properties[k], fields[k]);
    }
    if r.additional.Some? {
      assert RewriteOption(r.additional).Done? && Rewrite(r.additional.value).Done?;
      assert r1.additional == Some(Rewrite(r.additional.value).value);
      forall k | k in p && k !in r.properties ensures Accepts(r.additional.value, p[k]) {
        RewritePreserves(r.additional.value, fields[k]);
        if IsFlattenedMap(r1) {
          BecomesTrue(r.additional.value);
        }
      }
    }
  }

  /** Only the schema `true` is rewritten to the schema `true`. */
  lemma BecomesTrue(s: Schema)
    requires Rewrite(s) == Done(BoolSchema(true))
    ensures s == BoolSchema(true)
  {
  }

  /**
   Main result: for every supported schema the pass completes; what the original accepts the
   result accepts; and what the result accepts the original accepts once unknown fields are pruned.
   */
  lemma {:induction false} RewritePreserves(s: Schema, v: Json)
    requires Supported(s)
    ensures Rewrite(s).Done?
    ensures Accepts(s, v) ==> Accepts(Rewrite(s).value, v)
    ensures Accepts(Rewrite(s).value, v) ==> Accepts(s, Prune(Rewrite(s).value, v))
    decreases s
  {
    RewriteTotal(s);
    if s.ObjectSchema? {
      var o := s.obj;
      if PlainNode(o) && (o.rules.Some? ==> SupportedRules(o.rules.value)) && (o.items.Some? ==> Supported(o.items.value)) {
        PlainShape(o);
        if v.Arr? && o.items.Some? {
          forall e | e in v.elems
            ensures Accepts(o.items.value, e) ==> Accepts(Rewrite(o.items.value).value, e)
            ensures Accepts(Rewrite(o.items.value).value, e) ==> Accepts(o.items.value, Prune(Rewrite(o.items.value).value, e))
          {
            RewritePreserves(o.items.value, e);
          }
        }
        if Accepts(s, v) {
          assert AcceptsObject(o, v);
          if v.Obj? && o.rules.Some? { RulesForward(o.rules.value, v.fields); }
          PlainForward(o, v);
        }
        if Accepts(Rewrite(s).value, v) {
          if v.Obj? && o.rules.Some? { RulesBackward(o, v.fields); }
          PlainBackward(o, v);
        }
      } else if EnumNode(o) {
        EnumShape(o);
        EnumPreserves(o, Rewrite(s).value.obj, v);
      } else {
        var tags :| TaggedBy(o, tags);
        BranchesTotal(o.subschemas.value.oneOf);
        TaggedShape(o, tags);
        var cs := RewriteList(o.subschemas.value.oneOf).value.branches;
        var t := Rewrite(s).value.obj;
        forall i | 0 <= i < |tags| && v.Obj? && tags[i] in v.fields
          ensures Accepts(PropertyOf(Branches(o)[i], tags[i]), v.fields[tags[i]]) ==> Accepts(PropertyOf(cs[i], tags[i]), v.fields[tags[i]])
          ensures Accepts(PropertyOf(cs[i], tags[i]), v.fields[tags[i]]) ==>
                  Accepts(PropertyOf(Branches(o)[i], tags[i]), Prune(PropertyOf(cs[i], tags[i]), v.fields[tags[i]]))
        {
          BranchSupported(o, tags, i);
          RewritePreserves(PropertyOf(Branches(o)[i], tags[i]), v.fields[tags[i]]);
        }
        if Accepts(s, v) { TaggedForward(o, tags, cs, t, v); }
        if Accepts(Rewrite(s).value, v) { TaggedBackward(o, tags, cs, t, v); }
      }
    }
  }

  lemma BranchSupported(o: SchemaObject, tags: seq<string>, i: nat)
    requires TaggedBy(o, tags) && SupportedBranches(o.subschemas.value.oneOf) && i < |tags|
    ensures Supported(PropertyOf(Branches(o)[i], tags[i]))
    ensures PropertyOf(Branches(o)[i], tags[i]) < ObjectSchema(o)
  {
    var b := Branches(o)[i];
    assert Supported(b) && SupportedObject(b.obj) && !OnlyOneOf(b.obj);
    var r := b.obj.rules.value;
    assert SupportedRules(r);
    assert tags[i] in r.properties;
  }
}
