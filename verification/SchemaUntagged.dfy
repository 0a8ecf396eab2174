/**
 Untagged enums: branches of an `anyOf` that say nothing about fields they do not name.
 Hoisting them keeps a value exactly when it fits what every branch says about its own fields,
 not only what the branch it satisfies says.
 */
module SchemaUntagged {
  import opened Common
  import opened Schemas
  import opened SchemaNormal
  import opened SchemaMeaning

  predicate Open(r: Option<ObjectRules>) {
    r.Some? ==> r.value.additional.None?
  }

  predicate FitsProperties(properties: map<string, Schema>, v: Json) {
    v.Obj? ==> forall k | k in v.fields && k in properties :: Accepts(properties[k], v.fields[k])
  }

  /** The part of a branch that moves to the parent: its type, and its properties where present. */
  predicate FitsHoisted(b: Schema, v: Json) {
    HasRules(b) ==> TypeAllows(b.obj.instanceType, v) && FitsProperties(b.obj.rules.value.properties, v)
  }

  /** A node whose only branches are those of an open `anyOf`. */
  predicate OpenAnyOf(o: SchemaObject) {
    && o.subschemas.Some? && o.subschemas.value.oneOf.Absent? && o.subschemas.value.anyOf.Present?
    && Open(o.rules)
    && forall b <- o.subschemas.value.anyOf.branches :: HasRules(b) ==> Open(b.obj.rules)
  }

  function AnyOfBranches(o: SchemaObject): seq<Schema>
    requires OpenAnyOf(o)
  {
    o.subschemas.value.anyOf.branches
  }

  ghost predicate FitsAll(bs: seq<Schema>, v: Json) {
    forall i | 0 <= i < |bs| :: FitsHoisted(bs[i], v)
  }

  /** A branch is what stays of it together with what moves to the parent. */
  lemma BranchSplits(b: Schema, v: Json)
    requires HasRules(b) && Open(b.obj.rules)
    ensures Accepts(b, v) <==> Accepts(ObjectSchema(Emptied(b.obj)), v) && FitsHoisted(b, v)
  {
    if v.Obj? {
      OpenRules(b.obj.rules.value, v);
      OpenRules(Emptied(b.obj).rules.value, v);
    }
    var e := Emptied(b.obj);
    assert Accepts(b, v) == AcceptsObject(b.obj, v) && Accepts(ObjectSchema(e), v) == AcceptsObject(e, v);
  }

  lemma TypesFit(bs: seq<Schema>, ty: Option<TypeSpec>, result: Option<TypeSpec>, v: Json)
    requires TypesAgree(bs, ty, result)
    ensures TypeAllows(result, v) <==>
            TypeAllows(ty, v) && forall i | 0 <= i < |bs| && HasRules(bs[i]) :: TypeAllows(bs[i].obj.instanceType, v)
  {
  }

  lemma ContributionFits(b: Schema, v: Json)
    requires HasRules(b)
    ensures FitsProperties(Contribution(b.obj), v) <==> FitsProperties(b.obj.rules.value.properties, v)
    ensures Contribution(b.obj).Keys == b.obj.rules.value.properties.Keys
  {
    var properties := b.obj.rules.value.properties;
    assert Contribution(b.obj).Keys == properties.Keys;
    if v.Obj? {
      forall k | k in v.fields && k in properties
        ensures Accepts(Contribution(b.obj)[k], v.fields[k]) == Accepts(properties[k], v.fields[k])
      {
        ContributionMeaning(b.obj, k, v.fields[k]);
      }
    }
  }

  /** Fitting the union of the properties is fitting each set of them. */
  lemma UnionFits(bs: seq<Schema>, rules: Option<ObjectRules>, result: Option<ObjectRules>, v: Json)
    requires HoldsUnion(bs, rules, result) && result.Some?
    ensures FitsProperties(result.value.properties, v) <==>
            && FitsProperties(rules.GetOr(EMPTY_RULES).properties, v)
            && forall i | 0 <= i < |bs| && HasRules(bs[i]) :: FitsProperties(bs[i].obj.rules.value.properties, v)
  {
    var union, had := result.value.properties, rules.GetOr(EMPTY_RULES).properties;
    forall i | 0 <= i < |bs| && HasRules(bs[i])
      ensures FitsProperties(Contribution(bs[i].obj), v) <==> FitsProperties(bs[i].obj.rules.value.properties, v)
      ensures FitsProperties(union, v) ==> FitsProperties(Contribution(bs[i].obj), v)
    {
      ContributionFits(bs[i], v);
      SubmapFits(Contribution(bs[i].obj), union, v);
    }
    SubmapFits(had, union, v);
    if v.Obj? && FitsProperties(had, v) && forall i | 0 <= i < |bs| && HasRules(bs[i]) :: FitsProperties(Contribution(bs[i].obj), v) {
      forall k | k in v.fields && k in union ensures Accepts(union[k], v.fields[k]) {
        if k in had {
          assert union[k] == had[k];
        } else {
          var i :| 0 <= i < |bs| && HasRules(bs[i]) && k in Contribution(bs[i].obj);
          assert union[k] == Contribution(bs[i].obj)[k];
        }
      }
    }
  }

  lemma SubmapFits(m: map<string, Schema>, n: map<string, Schema>, v: Json)
    requires Submap(m, n)
    ensures FitsProperties(n, v) ==> FitsProperties(m, v)
  {
    if v.Obj? && FitsProperties(n, v) {
      forall k | k in v.fields && k in m ensures Accepts(m[k], v.fields[k]) {
        assert n[k] == m[k];
      }
    }
  }

  /** An open set of rules is its required fields and its properties. */
  lemma OpenRules(r: ObjectRules, v: Json)
    requires r.additional.None? && v.Obj?
    ensures AcceptsRules(r, v.fields) <==> r.required <= v.fields.Keys && FitsProperties(r.properties, v)
  {
  }

  lemma RulesFit(bs: seq<Schema>, rules: Option<ObjectRules>, result: Option<ObjectRules>, v: Json)
    requires HoldsUnion(bs, rules, result) && Open(rules) && v.Obj?
    ensures (result.Some? ==> AcceptsRules(result.value, v.fields)) <==>
            && (rules.Some? ==> AcceptsRules(rules.value, v.fields))
            && forall i | 0 <= i < |bs| && HasRules(bs[i]) :: FitsProperties(bs[i].obj.rules.value.properties, v)
  {
    if result.Some? {
      UnionFits(bs, rules, result, v);
      OpenRules(result.value, v);
      if rules.Some? {
        OpenRules(rules.value, v);
      }
    }
  }

  lemma AnyOfFits(bs: seq<Schema>, hs: seq<Schema>, v: Json)
    requires |hs| == |bs|
    requires forall i | 0 <= i < |bs| :: hs[i] == if HasRules(bs[i]) then ObjectSchema(Emptied(bs[i].obj)) else bs[i]
    requires forall i | 0 <= i < |bs| && HasRules(bs[i]) :: Open(bs[i].obj.rules)
    requires FitsAll(bs, v)
    ensures AcceptsAnyOf(Present(hs), v) <==> AcceptsAnyOf(Present(bs), v)
  {
    forall i | 0 <= i < |bs| ensures Accepts(hs[i], v) <==> Accepts(bs[i], v) {
      if HasRules(bs[i]) {
        BranchSplits(bs[i], v);
      }
    }
    var l, k := Present(bs), Present(hs);
    if i :| 0 <= i < |bs| && Accepts(bs[i], v) {
      assert Accepts(k.branches[i], v);
    }
    if i :| 0 <= i < |hs| && Accepts(hs[i], v) {
      assert Accepts(l.branches[i], v);
    }
  }

  /** Hoisting the branches of an open `anyOf`: which values are accepted afterwards. */
  lemma HoistAnyOfMeaning(o: SchemaObject, t: SchemaObject, v: Json)
    requires OpenAnyOf(o) && HoistAnyOf(o) == Done(t)
    ensures AcceptsObject(t, v) <==> AcceptsObject(o, v) && FitsAll(AnyOfBranches(o), v)
    ensures Open(t.rules)
  {
    var bs := AnyOfBranches(o);
    HoistPropertiesUnion(bs, o.rules, o.instanceType);
    var h := HoistProperties(bs, o.rules, o.instanceType).value;
    TypesFit(bs, o.instanceType, h.instanceType, v);
    if v.Obj? {
      RulesFit(bs, o.rules, h.rules, v);
    }
    if FitsAll(bs, v) {
      forall i | 0 <= i < |bs| && HasRules(bs[i]) ensures Open(bs[i].obj.rules) {
        assert bs[i] in bs;
      }
      AnyOfFits(bs, h.branches, v);
    }
  }

  lemma SubschemasFixed(sub: Subschemas)
    requires NormalList(sub.oneOf) && NormalList(sub.anyOf)
    ensures RewriteList(sub.oneOf) == Done(sub.oneOf) && RewriteList(sub.anyOf) == Done(sub.anyOf)
  {
    RewriteListFixed(sub.oneOf);
    RewriteListFixed(sub.anyOf);
  }

  lemma ChildrenFixed(o: SchemaObject)
    requires NormalChildren(o)
    ensures RewriteChildren(o) == Done(o)
  {
    if o.subschemas.Some? {
      SubschemasFixed(o.subschemas.value);
    }
    if o.items.Some? {
      RewriteFixed(o.items.value);
    }
    if o.rules.Some? {
      RewriteRulesFixed(o.rules.value);
    }
  }

  /**
   Main result: where a node's children come out of the pass as an untagged enum with open branches,
   the rewritten node accepts exactly the values the enum accepts that also fit the fields of every
   other branch.  So hoisting never accepts more, and keeps a value if and only if it fits all branches.
   */
  lemma UntaggedNarrows(o: SchemaObject, c: SchemaObject, v: Json)
    requires RewriteChildren(o) == Done(c) && OpenAnyOf(c) && Rewrite(ObjectSchema(o)).Done?
    ensures Accepts(Rewrite(ObjectSchema(o)).value, v) <==> AcceptsObject(c, v) && FitsAll(AnyOfBranches(c), v)
  {
    var t := HoistAnyOf(c).value;
    HoistAnyOfMeaning(c, t, v);
    assert AllowUnknown(t) == t;
  }

  function Leaf(t: InstanceType): Schema {
    ObjectSchema(EMPTY_OBJECT.(instanceType := Some(Single(t))))
  }

  function Variant(name: string, t: InstanceType): Schema {
    ObjectSchema(EMPTY_OBJECT.(rules := Some(ObjectRules(map[name := Leaf(t)], {name}, None))))
  }

  function TwoVariants(): SchemaObject {
    EMPTY_OBJECT.(subschemas := Some(Subschemas(Absent, Present([Variant("a", TInteger), Variant("b", TString)]))))
  }

  lemma VariantNormal(name: string, t: InstanceType)
    ensures Normal(Variant(name, t)) && Open(Variant(name, t).obj.rules)
  {
    assert Normal(Leaf(t));
  }

  lemma VariantAccepts(name: string, t: InstanceType, fields: map<string, Json>)
    ensures Accepts(Variant(name, t), Obj(fields)) <==> name in fields && HasType(t, fields[name])
    ensures FitsHoisted(Variant(name, t), Obj(fields)) <==> (name in fields ==> HasType(t, fields[name]))
  {
    if name in fields {
      assert Accepts(Leaf(t), fields[name]) <==> HasType(t, fields[name]);
    }
    var r := Variant(name, t).obj.rules.value;
    OpenRules(r, Obj(fields));
    assert Accepts(Variant(name, t), Obj(fields)) == AcceptsObject(Variant(name, t).obj, Obj(fields));
  }

  lemma TwoVariantsRewritten()
    ensures OpenAnyOf(TwoVariants()) && RewriteChildren(TwoVariants()) == Done(TwoVariants())
    ensures Rewrite(ObjectSchema(TwoVariants())).Done?
  {
    var o := TwoVariants();
    var bs := [Variant("a", TInteger), Variant("b", TString)];
    VariantNormal("a", TInteger);
    VariantNormal("b", TString);
    ChildrenFixed(o);
    assert NoPropertyClash(bs, None) && NoTypeClash(bs, None);
    HoistPropertiesPanicsIff(bs, None, None);
  }

  /** A node with just two branches: a value that fits the second and clashes with fields of the first is lost. */
  lemma Loses(o: SchemaObject, a: Schema, b: Schema, v: Json)
    requires OpenAnyOf(o) && RewriteChildren(o) == Done(o) && Rewrite(ObjectSchema(o)).Done?
    requires AnyOfBranches(o) == [a, b] && o == EMPTY_OBJECT.(subschemas := o.subschemas)
    requires Accepts(b, v) && !FitsHoisted(a, v)
    ensures Accepts(ObjectSchema(o), v) && !Accepts(Rewrite(ObjectSchema(o)).value, v)
  {
    assert AnyOfBranches(o)[1] == b && AnyOfBranches(o)[0] == a;
    assert AcceptsAnyOf(o.subschemas.value.anyOf, v);
    assert AcceptsObject(o, v);
    UntaggedNarrows(o, o, v);
  }

  lemma TwoVariantsBranches()
    ensures OpenAnyOf(TwoVariants()) && AnyOfBranches(TwoVariants()) == [Variant("a", TInteger), Variant("b", TString)]
    ensures TwoVariants() == EMPTY_OBJECT.(subschemas := TwoVariants().subschemas)
  {
  }

  function BothFields(): Json {
    Obj(map["a" := Str("x"), "b" := Str("y")])
  }

  lemma BothFieldsFit()
    ensures Accepts(Variant("b", TString), BothFields()) && !FitsHoisted(Variant("a", TInteger), BothFields())
  {
    var fields := BothFields().fields;
    VariantAccepts("a", TInteger, fields);
    VariantAccepts("b", TString, fields);
    assert fields["a"] == Str("x") && fields["b"] == Str("y");
  }

  /**
   A value that one variant accepts and the rewritten enum refuses: `a` is an integer in the other
   variant, which the value does not claim to be.
   */
  lemma UntaggedLosesValue()
    ensures Rewrite(ObjectSchema(TwoVariants())).Done?
    ensures Accepts(ObjectSchema(TwoVariants()), BothFields())
    ensures !Accepts(Rewrite(ObjectSchema(TwoVariants())).value, BothFields())
  {
    TwoVariantsRewritten();
    TwoVariantsBranches();
    BothFieldsFit();
    Loses(TwoVariants(), Variant("a", TInteger), Variant("b", TString), BothFields());
  }
}
