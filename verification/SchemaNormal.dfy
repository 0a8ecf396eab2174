/**
 What one pass of the rewriter leaves behind: a normal form, which a second
 pass does not change, and the exact condition under which hoisting panics.
 */
module SchemaNormal {
  import opened Common
  import opened Schemas

  // ------------------------------------------------------------- normal form

  /** Nothing is left on a branch that Kubernetes forbids there. */
  predicate IsEmptied(b: Schema) {
    HasRules(b) ==>
      && b.obj.rules.value.properties == map[]
      && b.obj.rules.value.additional.None?
      && b.obj.instanceType.None?
      && !HasDescription(b.obj)
  }

  predicate HoistedBranches(bs: seq<Schema>, rules: Option<ObjectRules>) {
    && (forall i | 0 <= i < |bs| :: IsEmptied(bs[i]))
    && (forall i | 0 <= i < |bs| :: HasRules(bs[i]) ==> rules.Some?)
  }

  /** The conditions on one node, its children aside. */
  predicate NormalNode(o: SchemaObject) {
    && (o.subschemas.Some? && o.subschemas.value.oneOf.Present? ==>
          var bs := o.subschemas.value.oneOf.branches;
          bs != [] && HoistedBranches(bs, o.rules) && forall i | 0 <= i < |bs| :: !HasEnum(bs[i]))
    && (o.subschemas.Some? && o.subschemas.value.anyOf.Present? ==>
          HoistedBranches(o.subschemas.value.anyOf.branches, o.rules))
    && (o.rules.Some? ==> !IsFlattenedMap(o.rules.value))
  }

  predicate NormalList(l: SchemaList)
    decreases l
  {
    l.Present? ==> forall i | 0 <= i < |l.branches| :: Normal(l.branches[i])
  }

  predicate NormalRules(r: ObjectRules)
    decreases r
  {
    && (forall k | k in r.properties :: Normal(r.properties[k]))
    && (r.additional.Some? ==> Normal(r.additional.value))
  }

  predicate NormalChildren(o: SchemaObject)
    decreases o
  {
    && (o.subschemas.Some? ==> NormalList(o.subschemas.value.oneOf) && NormalList(o.subschemas.value.anyOf))
    && (o.items.Some? ==> Normal(o.items.value))
    && (o.rules.Some? ==> NormalRules(o.rules.value))
  }

  predicate Normal(s: Schema)
    decreases s
  {
    s.ObjectSchema? ==> NormalChildren(s.obj) && NormalNode(s.obj)
  }

  // ------------------------------------------------ a second pass is a no-op

  lemma {:induction false} HoistPropertiesFixed(bs: seq<Schema>, rules: Option<ObjectRules>, ty: Option<TypeSpec>)
    requires HoistedBranches(bs, rules)
    ensures HoistProperties(bs, rules, ty) == Done(Hoisted(bs, rules, ty))
  {
    if bs != [] {
      if HasRules(bs[0]) {
        assert Contribution(bs[0].obj) == map[];
        assert rules.value.properties + map[] == rules.value.properties;
        assert ObjectSchema(Emptied(bs[0].obj)) == bs[0];
      }
      assert HoistBranch(bs[0], rules, ty) == Done((bs[0], rules, ty));
      HoistPropertiesFixed(bs[1..], rules, ty);
      assert [bs[0]] + bs[1..] == bs;
    }
  }

  lemma {:induction false} HoistEnumsFixed(bs: seq<Schema>, values: Option<seq<Json>>, ty: Option<TypeSpec>)
    requires forall i | 0 <= i < |bs| :: !HasEnum(bs[i])
    ensures HoistEnums(bs, values, ty) == Done(HoistedEnums(bs, values, ty))
  {
    if bs != [] {
      HoistEnumsFixed(bs[1..], values, ty);
      assert [bs[0]] + bs[1..] == bs;
    }
  }

  lemma HoistNodeFixed(o: SchemaObject)
    requires NormalNode(o)
    ensures HoistNode(o) == Done(o)
  {
    if o.subschemas.Some? {
      var sub := o.subschemas.value;
      if sub.oneOf.Present? {
        HoistPropertiesFixed(sub.oneOf.branches, o.rules, o.instanceType);
        HoistEnumsFixed(sub.oneOf.branches, o.enumValues, o.instanceType);
      }
      if sub.anyOf.Present? {
        HoistPropertiesFixed(sub.anyOf.branches, o.rules, o.instanceType);
      }
    }
  }

  lemma {:induction false} RewriteListFixed(l: SchemaList)
    requires NormalList(l)
    ensures RewriteList(l) == Done(l)
    decreases l
  {
    if l.Present? {
      forall i | 0 <= i < |l.branches| ensures Rewrite(l.branches[i]) == Done(l.branches[i]) {
        RewriteFixed(l.branches[i]);
      }
      assert RewriteList(l).value.branches == l.branches;
    }
  }

  lemma {:induction false} RewriteRulesFixed(r: ObjectRules)
    requires NormalRules(r)
    ensures RewriteRules(r) == Done(r)
    decreases r
  {
    if r.additional.Some? {
      RewriteFixed(r.additional.value);
    }
    assert RewriteOption(r.additional) == Done(r.additional);
    forall k | k in r.properties ensures Rewrite(r.properties[k]) == Done(r.properties[k]) {
      RewriteFixed(r.properties[k]);
    }
    assert RewriteRules(r).value.properties == r.properties;
  }

  lemma {:induction false} RewriteFixed(s: Schema)
    requires Normal(s)
    ensures Rewrite(s) == Done(s)
    decreases s
  {
    if s.ObjectSchema? {
      var o := s.obj;
      if o.subschemas.Some? {
        RewriteListFixed(o.subschemas.value.oneOf);
        RewriteListFixed(o.subschemas.value.anyOf);
      }
      if o.items.Some? {
        RewriteFixed(o.items.value);
      }
      if o.rules.Some? {
        RewriteRulesFixed(o.rules.value);
      }
      assert RewriteChildren(o) == Done(o);
      HoistNodeFixed(o);
    }
  }

  // ------------------------------------------- one pass reaches normal form

  lemma DescribeNormal(s: Schema, description: string)
    requires Normal(s)
    ensures Normal(Describe(s, description))
  {
    if s.ObjectSchema? {
      assert NormalChildren(Describe(s, description).obj);
    }
  }

  lemma ContributionNormal(o: SchemaObject)
    requires o.rules.Some? && NormalRules(o.rules.value)
    ensures forall k | k in Contribution(o) :: Normal(Contribution(o)[k])
  {
    forall k | k in Contribution(o) ensures Normal(Contribution(o)[k]) {
      var property := o.rules.value.properties[k];
      if HasDescription(o) {
        DescribeNormal(property, o.metadata.value.description.value);
      }
    }
  }

  lemma EmptiedNormal(o: SchemaObject)
    requires o.rules.Some? && Normal(ObjectSchema(o))
    ensures Normal(ObjectSchema(Emptied(o)))
  {
    assert NormalRules(Emptied(o).rules.value);
  }

  /** A branch after hoisting is still normal, and so is everything it contributed. */
  lemma HoistBranchNormal(b: Schema, rules: Option<ObjectRules>, ty: Option<TypeSpec>)
    requires Normal(b) && HoistBranch(b, rules, ty).Done?
    requires rules.Some? ==> NormalRules(rules.value)
    ensures
      var (b1, rules1, _) := HoistBranch(b, rules, ty).value;
      && Normal(b1) && IsEmptied(b1) && HasRules(b1) == HasRules(b) && HasEnum(b1) == HasEnum(b)
      && (HasRules(b) || rules.Some? ==> rules1.Some?)
      && (rules1.Some? ==> NormalRules(rules1.value))
  {
    if HasRules(b) {
      ContributionNormal(b.obj);
      EmptiedNormal(b.obj);
    }
  }

  lemma {:induction false} HoistPropertiesNormal(bs: seq<Schema>, rules: Option<ObjectRules>, ty: Option<TypeSpec>)
    requires forall i | 0 <= i < |bs| :: Normal(bs[i])
    requires rules.Some? ==> NormalRules(rules.value)
    requires HoistProperties(bs, rules, ty).Done?
    ensures
      var h := HoistProperties(bs, rules, ty).value;
      && |h.branches| == |bs|
      && (forall i | 0 <= i < |bs| :: Normal(h.branches[i]))
      && HoistedBranches(h.branches, h.rules)
      && (rules.Some? ==> h.rules.Some?)
      && (h.rules.Some? ==> NormalRules(h.rules.value))
  {
    if bs != [] {
      var (b, rules1, ty1) := HoistBranch(bs[0], rules, ty).value;
      HoistBranchNormal(bs[0], rules, ty);
      HoistPropertiesNormal(bs[1..], rules1, ty1);
      var rest := HoistProperties(bs[1..], rules1, ty1).value;
      var h := HoistProperties(bs, rules, ty).value;
      assert h.branches == [b] + rest.branches;
    }
  }

  lemma {:induction false} HoistEnumsKeeps(bs: seq<Schema>, values: Option<seq<Json>>, ty: Option<TypeSpec>)
    requires HoistEnums(bs, values, ty).Done?
    ensures forall b <- HoistEnums(bs, values, ty).value.branches :: b in bs && !HasEnum(b)
  {
    if bs == [] {
    } else if HasEnum(bs[0]) {
      var merged := MergeTypes(ty, bs[0].obj.instanceType).value;
      HoistEnumsKeeps(bs[1..], Some(values.GetOr([]) + bs[0].obj.enumValues.value), merged);
    } else {
      HoistEnumsKeeps(bs[1..], values, ty);
    }
  }

  lemma HoistOneOfNormal(o: SchemaObject)
    requires NormalChildren(o) && HoistOneOf(o).Done?
    ensures
      var o1 := HoistOneOf(o).value;
      && NormalChildren(o1)
      && (o.rules.Some? ==> o1.rules.Some?)
      && (o1.subschemas.Some? && o1.subschemas.value.oneOf.Present? ==>
            var bs := o1.subschemas.value.oneOf.branches;
            bs != [] && HoistedBranches(bs, o1.rules) && forall i | 0 <= i < |bs| :: !HasEnum(bs[i]))
  {
    if o.subschemas.Some? && o.subschemas.value.oneOf.Present? {
      var bs := o.subschemas.value.oneOf.branches;
      HoistPropertiesNormal(bs, o.rules, o.instanceType);
      var h := HoistProperties(bs, o.rules, o.instanceType).value;
      HoistEnumsKeeps(h.branches, o.enumValues, h.instanceType);
      var kept := HoistEnums(h.branches, o.enumValues, h.instanceType).value.branches;
      forall i | 0 <= i < |kept| ensures Normal(kept[i]) && IsEmptied(kept[i]) && (HasRules(kept[i]) ==> h.rules.Some?) {
        assert kept[i] in h.branches;
      }
    }
  }

  lemma HoistAnyOfNormal(o: SchemaObject)
    requires NormalChildren(o) && HoistAnyOf(o).Done?
    ensures
      var o1 := HoistAnyOf(o).value;
      && NormalChildren(o1)
      && (o.rules.Some? ==> o1.rules.Some?)
      && (o1.subschemas.Some? && o1.subschemas.value.anyOf.Present? ==>
            HoistedBranches(o1.subschemas.value.anyOf.branches, o1.rules))
  {
    if o.subschemas.Some? && o.subschemas.value.anyOf.Present? {
      HoistPropertiesNormal(o.subschemas.value.anyOf.branches, o.rules, o.instanceType);
    }
  }

  lemma HoistNodeNormal(o: SchemaObject)
    requires NormalChildren(o) && HoistNode(o).Done?
    ensures Normal(ObjectSchema(HoistNode(o).value))
  {
    HoistOneOfNormal(o);
    var o1 := HoistOneOf(o).value;
    HoistAnyOfNormal(o1);
    var o2 := HoistAnyOf(o1).value;
    var o3 := AllowUnknown(o2);
    assert o2.rules.Some? ==> NormalRules(o3.rules.value);
    assert NormalChildren(o3);
  }

  lemma {:induction false} RewriteListNormal(l: SchemaList)
    requires RewriteList(l).Done?
    ensures NormalList(RewriteList(l).value)
    decreases l
  {
    if l.Present? {
      forall i | 0 <= i < |l.branches| ensures Normal(RewriteList(l).value.branches[i]) {
        RewriteNormal(l.branches[i]);
      }
    }
  }

  lemma {:induction false} RewriteRulesNormal(r: ObjectRules)
    requires RewriteRules(r).Done?
    ensures NormalRules(RewriteRules(r).value)
    decreases r
  {
    if r.additional.Some? {
      assert RewriteOption(r.additional).Done?;
      RewriteNormal(r.additional.value);
    }
    forall k | k in r.properties ensures Normal(RewriteRules(r).value.properties[k]) {
      RewriteNormal(r.properties[k]);
    }
  }

  lemma {:induction false} RewriteNormal(s: Schema)
    requires Rewrite(s).Done?
    ensures Normal(Rewrite(s).value)
    decreases s
  {
    if s.ObjectSchema? {
      var o := s.obj;
      if o.subschemas.Some? {
        RewriteListNormal(o.subschemas.value.oneOf);
        RewriteListNormal(o.subschemas.value.anyOf);
      }
      if o.items.Some? {
        assert RewriteOption(o.items).Done?;
        RewriteNormal(o.items.value);
      }
      if o.rules.Some? {
        RewriteRulesNormal(o.rules.value);
      }
      assert NormalChildren(RewriteChildren(o).value);
      HoistNodeNormal(RewriteChildren(o).value);
    }
  }

  /** Main result: the pass is idempotent on every schema tree it accepts. */
  lemma RewriteIdempotent(s: Schema)
    requires Rewrite(s).Done?
    ensures Rewrite(Rewrite(s).value) == Done(Rewrite(s).value)
  {
    RewriteNormal(s);
    RewriteFixed(Rewrite(s).value);
  }

  // ---------------------------------------------- what the parent ends up with

  ghost predicate Submap(m: map<string, Schema>, n: map<string, Schema>) {
    forall k | k in m :: k in n && n[k] == m[k]
  }

  /** Hoisting succeeds: the parent holds exactly the union of its properties and the branches'. */
  ghost predicate HoldsUnion(bs: seq<Schema>, rules: Option<ObjectRules>, result: Option<ObjectRules>) {
    && (result.Some? <==> rules.Some? || exists i | 0 <= i < |bs| :: HasRules(bs[i]))
    && (result.Some? ==>
          var had := rules.GetOr(EMPTY_RULES);
          && result.value.required == had.required
          && result.value.additional == had.additional
          && Submap(had.properties, result.value.properties)
          && (forall i | 0 <= i < |bs| && HasRules(bs[i]) :: Submap(Contribution(bs[i].obj), result.value.properties))
          && (forall k | k in result.value.properties ::
                k in had.properties || exists i | 0 <= i < |bs| :: HasRules(bs[i]) && k in Contribution(bs[i].obj)))
  }

  ghost predicate TypesAgree(bs: seq<Schema>, ty: Option<TypeSpec>, result: Option<TypeSpec>) {
    && (ty.Some? ==> result == ty)
    && (forall i | 0 <= i < |bs| && HasRules(bs[i]) ::
          bs[i].obj.instanceType.Some? ==> result == bs[i].obj.instanceType)
    && (result.Some? ==> result == ty || exists i | 0 <= i < |bs| :: HasRules(bs[i]) && bs[i].obj.instanceType == result)
  }

  lemma UnionStep(bs: seq<Schema>, rules: Option<ObjectRules>, ty: Option<TypeSpec>,
                  rules1: Option<ObjectRules>, result: Option<ObjectRules>)
    requires bs != [] && HoistBranch(bs[0], rules, ty).Done?
    requires HoistBranch(bs[0], rules, ty).value.1 == rules1
    requires HoldsUnion(bs[1..], rules1, result)
    ensures HoldsUnion(bs, rules, result)
  {
    var tail := bs[1..];
    assert forall i | 0 < i < |bs| :: bs[i] == tail[i - 1];
    assert forall i | 0 <= i < |tail| :: tail[i] == bs[i + 1];
    if result.Some? {
      forall k | k in result.value.properties && k !in rules.GetOr(EMPTY_RULES).properties
        ensures exists i | 0 <= i < |bs| :: HasRules(bs[i]) && k in Contribution(bs[i].obj)
      {
        if k in rules1.GetOr(EMPTY_RULES).properties {
          assert HasRules(bs[0]) && k in Contribution(bs[0].obj);
        } else {
          var j :| 0 <= j < |tail| && HasRules(tail[j]) && k in Contribution(tail[j].obj);
          assert HasRules(bs[j + 1]) && k in Contribution(bs[j + 1].obj);
        }
      }
    }
  }

  lemma TypesStep(bs: seq<Schema>, rules: Option<ObjectRules>, ty: Option<TypeSpec>,
                  ty1: Option<TypeSpec>, result: Option<TypeSpec>)
    requires bs != [] && HoistBranch(bs[0], rules, ty).Done?
    requires HoistBranch(bs[0], rules, ty).value.2 == ty1
    requires TypesAgree(bs[1..], ty1, result)
    ensures TypesAgree(bs, ty, result)
  {
    var tail := bs[1..];
    assert forall i | 0 < i < |bs| :: bs[i] == tail[i - 1];
    assert forall i | 0 <= i < |tail| :: tail[i] == bs[i + 1];
    if result.Some? && result != ty && result == ty1 {
      assert HasRules(bs[0]) && bs[0].obj.instanceType == result;
    }
  }

  /** Main result: hoisting moves everything to the parent and leaves only emptied branches. */
  lemma {:induction false} HoistPropertiesUnion(bs: seq<Schema>, rules: Option<ObjectRules>, ty: Option<TypeSpec>)
    requires HoistProperties(bs, rules, ty).Done?
    ensures
      var h := HoistProperties(bs, rules, ty).value;
      && HoldsUnion(bs, rules, h.rules)
      && TypesAgree(bs, ty, h.instanceType)
      && |h.branches| == |bs|
      && forall i | 0 <= i < |bs| ::
           h.branches[i] == if HasRules(bs[i]) then ObjectSchema(Emptied(bs[i].obj)) else bs[i]
  {
    if bs != [] {
      var (b, rules1, ty1) := HoistBranch(bs[0], rules, ty).value;
      HoistPropertiesUnion(bs[1..], rules1, ty1);
      var h1 := HoistProperties(bs[1..], rules1, ty1).value;
      UnionStep(bs, rules, ty, rules1, h1.rules);
      TypesStep(bs, rules, ty, ty1, h1.instanceType);
      assert HoistProperties(bs, rules, ty).value == h1.(branches := [b] + h1.branches);
    }
  }

  /** A set of rules and a type the parent can take without contradicting itself or any branch. */
  ghost predicate Agrees(bs: seq<Schema>, rules: Option<ObjectRules>, ty: Option<TypeSpec>) {
    NoPropertyClash(bs, rules) && NoTypeClash(bs, ty)
  }

  predicate SameType(a: Option<TypeSpec>, b: Option<TypeSpec>) {
    a.None? || b.None? || a == b
  }

  lemma CompatibleUnion(a: map<string, Schema>, b: map<string, Schema>, c: map<string, Schema>)
    requires Compatible(a, b)
    ensures Compatible(a + b, c) <==> Compatible(a, c) && Compatible(b, c)
  {
    if Compatible(a, c) && Compatible(b, c) {
      forall k | k in a + b && k in c ensures (a + b)[k] == c[k] {
        if k in b { assert b[k] == c[k]; } else { assert a[k] == c[k]; }
      }
    }
    if Compatible(a + b, c) {
      forall k | k in a && k in c ensures a[k] == c[k] { assert (a + b)[k] == c[k]; }
      forall k | k in b && k in c ensures b[k] == c[k] { assert (a + b)[k] == c[k]; }
    }
  }

  /** Main result: hoisting properties out of one list of branches panics on a property or type clash between two sources, and only then. */
  lemma {:induction false} HoistPropertiesPanicsIff(bs: seq<Schema>, rules: Option<ObjectRules>, ty: Option<TypeSpec>)
    ensures HoistProperties(bs, rules, ty).Done? <==> Agrees(bs, rules, ty)
  {
    if bs != [] {
      if HoistBranch(bs[0], rules, ty).Done? {
        var (b, rules1, ty1) := HoistBranch(bs[0], rules, ty).value;
        HoistPropertiesPanicsIff(bs[1..], rules1, ty1);
        AgreesStep(bs, rules, ty, rules1, ty1);
      }
    }
  }

  ghost predicate NoPropertyClash(bs: seq<Schema>, rules: Option<ObjectRules>) {
    && (forall i | 0 <= i < |bs| && HasRules(bs[i]) ::
          Compatible(rules.GetOr(EMPTY_RULES).properties, Contribution(bs[i].obj)))
    && (forall i, j | 0 <= i < j < |bs| && HasRules(bs[i]) && HasRules(bs[j]) ::
          Compatible(Contribution(bs[i].obj), Contribution(bs[j].obj)))
  }

  ghost predicate NoTypeClash(bs: seq<Schema>, ty: Option<TypeSpec>) {
    && (forall i | 0 <= i < |bs| && HasRules(bs[i]) :: SameType(ty, bs[i].obj.instanceType))
    && (forall i, j | 0 <= i < j < |bs| && HasRules(bs[i]) && HasRules(bs[j]) ::
          SameType(bs[i].obj.instanceType, bs[j].obj.instanceType))
  }

  lemma NoPropertyClashStep(bs: seq<Schema>, rules: Option<ObjectRules>, rules1: Option<ObjectRules>)
    requires bs != []
    requires if HasRules(bs[0]) then
               && rules1.Some? && Compatible(rules.GetOr(EMPTY_RULES).properties, Contribution(bs[0].obj))
               && rules1.value.properties == rules.GetOr(EMPTY_RULES).properties + Contribution(bs[0].obj)
             else rules1 == rules
    ensures NoPropertyClash(bs, rules) <==> NoPropertyClash(bs[1..], rules1)
  {
    var tail := bs[1..];
    assert forall i | 0 < i < |bs| :: bs[i] == tail[i - 1];
    assert forall i | 0 <= i < |tail| :: tail[i] == bs[i + 1];
    if HasRules(bs[0]) {
      forall j | 0 <= j < |tail| && HasRules(tail[j])
        ensures Compatible(rules1.value.properties, Contribution(tail[j].obj)) <==>
                Compatible(rules.GetOr(EMPTY_RULES).properties, Contribution(bs[j + 1].obj)) &&
                Compatible(Contribution(bs[0].obj), Contribution(bs[j + 1].obj))
      {
        CompatibleUnion(rules.GetOr(EMPTY_RULES).properties, Contribution(bs[0].obj), Contribution(tail[j].obj));
      }
    }
  }

  lemma NoTypeClashStep(bs: seq<Schema>, ty: Option<TypeSpec>, ty1: Option<TypeSpec>)
    requires bs != []
    requires if HasRules(bs[0]) then SameType(ty, bs[0].obj.instanceType) && ty1 == (if ty.Some? then ty else bs[0].obj.instanceType)
             else ty1 == ty
    ensures NoTypeClash(bs, ty) <==> NoTypeClash(bs[1..], ty1)
  {
    var tail := bs[1..];
    assert forall i | 0 < i < |bs| :: bs[i] == tail[i - 1];
    assert forall i | 0 <= i < |tail| :: tail[i] == bs[i + 1];
  }

  lemma AgreesStep(bs: seq<Schema>, rules: Option<ObjectRules>, ty: Option<TypeSpec>,
                   rules1: Option<ObjectRules>, ty1: Option<TypeSpec>)
    requires bs != [] && HoistBranch(bs[0], rules, ty).Done?
    requires HoistBranch(bs[0], rules, ty).value.1 == rules1 && HoistBranch(bs[0], rules, ty).value.2 == ty1
    ensures Agrees(bs, rules, ty) <==> Agrees(bs[1..], rules1, ty1)
  {
    NoPropertyClashStep(bs, rules, rules1);
    NoTypeClashStep(bs, ty, ty1);
  }
}
