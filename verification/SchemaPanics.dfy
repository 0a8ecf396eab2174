/**
 When the pass panics.  A node comes through exactly when everything that meets on it agrees: one
 schema for each property and one instance type, over the node itself and all its branches.
 */
module SchemaPanics {
  import opened Common
  import opened Schemas
  import opened SchemaNormal

  // ------------------------------------------------------------------- types

  /** At most one type is named. */
  ghost predicate OneType(types: set<TypeSpec>) {
    forall a, b | a in types && b in types :: a == b
  }

  function Named(ty: Option<TypeSpec>): set<TypeSpec> {
    if ty.Some? then {ty.value} else {}
  }

  /** The types named by the branches that have object rules. */
  function RuleTypes(bs: seq<Schema>): set<TypeSpec> {
    set i | 0 <= i < |bs| && HasRules(bs[i]) && bs[i].obj.instanceType.Some? :: bs[i].obj.instanceType.value
  }

  /** The types named by the branches that list values. */
  function EnumTypes(bs: seq<Schema>): set<TypeSpec> {
    set i | 0 <= i < |bs| && HasEnum(bs[i]) && bs[i].obj.instanceType.Some? :: bs[i].obj.instanceType.value
  }

  lemma MergedNames(common: Option<TypeSpec>, variant: Option<TypeSpec>)
    ensures MergeTypes(common, variant).Done? <==> OneType(Named(common) + Named(variant))
    ensures MergeTypes(common, variant).Done? ==> Named(MergeTypes(common, variant).value) == Named(common) + Named(variant)
  {
  }

  lemma EnumTypesFirst(bs: seq<Schema>)
    requires bs != []
    ensures EnumTypes(bs) == (if HasEnum(bs[0]) then Named(bs[0].obj.instanceType) else {}) + EnumTypes(bs[1..])
  {
    var tail := bs[1..];
    assert forall i | 0 < i < |bs| :: bs[i] == tail[i - 1];
    assert forall i | 0 <= i < |tail| :: tail[i] == bs[i + 1];
    forall t ensures t in EnumTypes(bs) <==> t in (if HasEnum(bs[0]) then Named(bs[0].obj.instanceType) else {}) + EnumTypes(tail) {
      if i :| 0 <= i < |bs| && HasEnum(bs[i]) && bs[i].obj.instanceType == Some(t) {
        assert i == 0 || tail[i - 1] == bs[i];
      }
      if i :| 0 <= i < |tail| && HasEnum(tail[i]) && tail[i].obj.instanceType == Some(t) {
        assert bs[i + 1] == tail[i];
      }
    }
  }

  /** Enum hoisting panics exactly when the types of the listing branches and the node's own differ. */
  lemma {:induction false} HoistEnumsPanicsIff(bs: seq<Schema>, values: Option<seq<Json>>, ty: Option<TypeSpec>)
    ensures HoistEnums(bs, values, ty).Done? <==> OneType(Named(ty) + EnumTypes(bs))
    ensures HoistEnums(bs, values, ty).Done? ==>
      Named(HoistEnums(bs, values, ty).value.instanceType) == Named(ty) + EnumTypes(bs)
  {
    if bs != [] {
      EnumTypesFirst(bs);
      var own := if HasEnum(bs[0]) then bs[0].obj.instanceType else None;
      MergedNames(ty, own);
      assert Named(ty) + (Named(own) + EnumTypes(bs[1..])) == (Named(ty) + Named(own)) + EnumTypes(bs[1..]);
      if HasEnum(bs[0]) {
        if MergeTypes(ty, own).Done? {
          HoistEnumsPanicsIff(bs[1..], Some(values.GetOr([]) + bs[0].obj.enumValues.value), MergeTypes(ty, own).value);
        }
      } else {
        HoistEnumsPanicsIff(bs[1..], values, ty);
      }
    }
  }

  lemma RuleNames(bs: seq<Schema>, ty: Option<TypeSpec>)
    ensures NoTypeClash(bs, ty) <==> OneType(Named(ty) + RuleTypes(bs))
  {
    if OneType(Named(ty) + RuleTypes(bs)) {
      forall i | 0 <= i < |bs| && HasRules(bs[i])
        ensures bs[i].obj.instanceType.Some? ==> bs[i].obj.instanceType.value in RuleTypes(bs)
      {
      }
    }
    if NoTypeClash(bs, ty) {
      forall a, b | a in Named(ty) + RuleTypes(bs) && b in Named(ty) + RuleTypes(bs) ensures a == b {
        NoClashSame(bs, ty, a, b);
      }
    }
  }

  lemma NoClashSame(bs: seq<Schema>, ty: Option<TypeSpec>, a: TypeSpec, b: TypeSpec)
    requires NoTypeClash(bs, ty) && a in Named(ty) + RuleTypes(bs) && b in Named(ty) + RuleTypes(bs)
    ensures a == b
  {
    if a !in Named(ty) {
      var i :| 0 <= i < |bs| && HasRules(bs[i]) && bs[i].obj.instanceType == Some(a);
      assert SameType(ty, bs[i].obj.instanceType);
      if b !in Named(ty) {
        var j :| 0 <= j < |bs| && HasRules(bs[j]) && bs[j].obj.instanceType == Some(b);
        assert i < j ==> SameType(bs[i].obj.instanceType, bs[j].obj.instanceType);
        assert j < i ==> SameType(bs[j].obj.instanceType, bs[i].obj.instanceType);
      }
    }
  }

  /** After hoisting properties the node names exactly the types that were named before. */
  lemma HoistedNames(bs: seq<Schema>, ty: Option<TypeSpec>, result: Option<TypeSpec>)
    requires TypesAgree(bs, ty, result)
    ensures Named(result) == Named(ty) + RuleTypes(bs)
  {
    forall t | t in Named(ty) + RuleTypes(bs) ensures t in Named(result) {
      if t !in Named(ty) {
        var i :| 0 <= i < |bs| && HasRules(bs[i]) && bs[i].obj.instanceType == Some(t);
      }
    }
    if result.Some? && result != ty {
      var i :| 0 <= i < |bs| && HasRules(bs[i]) && bs[i].obj.instanceType == result;
      assert result.value in RuleTypes(bs);
    }
  }

  /** Hoisted branches that list values name the types of those that had no rules to hoist. */
  function PlainEnumTypes(bs: seq<Schema>): set<TypeSpec> {
    set i | 0 <= i < |bs| && HasEnum(bs[i]) && !HasRules(bs[i]) && bs[i].obj.instanceType.Some? :: bs[i].obj.instanceType.value
  }

  lemma HoistedEnumNames(bs: seq<Schema>, hs: seq<Schema>)
    requires |hs| == |bs|
    requires forall i | 0 <= i < |bs| :: hs[i] == if HasRules(bs[i]) then ObjectSchema(Emptied(bs[i].obj)) else bs[i]
    ensures EnumTypes(hs) == PlainEnumTypes(bs)
  {
    forall t ensures t in EnumTypes(hs) <==> t in PlainEnumTypes(bs) {
      if i :| 0 <= i < |hs| && HasEnum(hs[i]) && hs[i].obj.instanceType == Some(t) {
        assert HasEnum(bs[i]) && !HasRules(bs[i]);
      }
      if i :| 0 <= i < |bs| && HasEnum(bs[i]) && !HasRules(bs[i]) && bs[i].obj.instanceType == Some(t) {
        assert hs[i] == bs[i];
      }
    }
  }

  // -------------------------------------------------------------- properties

  lemma UnionCompatible(bs: seq<Schema>, rules: Option<ObjectRules>, result: Option<ObjectRules>, m: map<string, Schema>)
    requires HoldsUnion(bs, rules, result) && NoPropertyClash(bs, rules)
    ensures Compatible(result.GetOr(EMPTY_RULES).properties, m) <==>
            && Compatible(rules.GetOr(EMPTY_RULES).properties, m)
            && forall i | 0 <= i < |bs| && HasRules(bs[i]) :: Compatible(Contribution(bs[i].obj), m)
  {
    var union, had := result.GetOr(EMPTY_RULES).properties, rules.GetOr(EMPTY_RULES).properties;
    if result.Some? {
      if Compatible(union, m) {
        assert Submap(had, union);
        assert forall k | k in had && k in m :: union[k] == had[k];
        forall i | 0 <= i < |bs| && HasRules(bs[i]) ensures Compatible(Contribution(bs[i].obj), m) {
          SubmapCompatible(Contribution(bs[i].obj), union, m);
        }
      } else {
        var k :| k in union && k in m && union[k] != m[k];
        if k in had {
          assert union[k] == had[k];
        } else {
          var i :| 0 <= i < |bs| && HasRules(bs[i]) && k in Contribution(bs[i].obj);
          assert union[k] == Contribution(bs[i].obj)[k];
        }
      }
    }
  }

  lemma SubmapCompatible(part: map<string, Schema>, whole: map<string, Schema>, m: map<string, Schema>)
    requires Submap(part, whole) && Compatible(whole, m)
    ensures Compatible(part, m)
  {
    forall k | k in part && k in m ensures part[k] == m[k] {
      assert whole[k] == part[k];
    }
  }

  /** Hoisting one list after another clashes exactly when hoisting both at once does. */
  lemma ClashesAppend(xs: seq<Schema>, bs: seq<Schema>, rules: Option<ObjectRules>, result: Option<ObjectRules>)
    requires HoldsUnion(xs, rules, result) && NoPropertyClash(xs, rules)
    ensures NoPropertyClash(xs + bs, rules) <==> NoPropertyClash(bs, result)
  {
    var all := xs + bs;
    assert forall i | 0 <= i < |xs| :: all[i] == xs[i];
    assert forall j | 0 <= j < |bs| :: bs[j] == all[|xs| + j];
    forall j | 0 <= j < |bs| && HasRules(bs[j])
      ensures Compatible(result.GetOr(EMPTY_RULES).properties, Contribution(bs[j].obj)) <==>
              && Compatible(rules.GetOr(EMPTY_RULES).properties, Contribution(bs[j].obj))
              && forall i | 0 <= i < |xs| && HasRules(xs[i]) :: Compatible(Contribution(xs[i].obj), Contribution(bs[j].obj))
    {
      UnionCompatible(xs, rules, result, Contribution(bs[j].obj));
    }
    if NoPropertyClash(bs, result) {
      NoClashTogether(xs, bs, rules, result);
    }
    if NoPropertyClash(all, rules) {
      forall i, j | 0 <= i < |xs| && 0 <= j < |bs| && HasRules(xs[i]) && HasRules(bs[j])
        ensures Compatible(Contribution(xs[i].obj), Contribution(bs[j].obj))
      {
        assert all[i] == xs[i] && all[|xs| + j] == bs[j];
      }
      forall i, j | 0 <= i < j < |bs| && HasRules(bs[i]) && HasRules(bs[j])
        ensures Compatible(Contribution(bs[i].obj), Contribution(bs[j].obj))
      {
        assert all[|xs| + i] == bs[i] && all[|xs| + j] == bs[j];
      }
      forall j | 0 <= j < |bs| && HasRules(bs[j])
        ensures Compatible(rules.GetOr(EMPTY_RULES).properties, Contribution(bs[j].obj))
      {
        assert all[|xs| + j] == bs[j];
      }
    }
  }

  lemma NoClashTogether(xs: seq<Schema>, bs: seq<Schema>, rules: Option<ObjectRules>, result: Option<ObjectRules>)
    requires NoPropertyClash(xs, rules) && NoPropertyClash(bs, result)
    requires forall j | 0 <= j < |bs| && HasRules(bs[j]) ::
               && Compatible(rules.GetOr(EMPTY_RULES).properties, Contribution(bs[j].obj))
               && forall i | 0 <= i < |xs| && HasRules(xs[i]) :: Compatible(Contribution(xs[i].obj), Contribution(bs[j].obj))
    ensures NoPropertyClash(xs + bs, rules)
  {
    var all := xs + bs;
    forall i, j | 0 <= i < j < |all| && HasRules(all[i]) && HasRules(all[j])
      ensures Compatible(Contribution(all[i].obj), Contribution(all[j].obj))
    {
      assert all[i] == if i < |xs| then xs[i] else bs[i - |xs|];
      assert all[j] == if j < |xs| then xs[j] else bs[j - |xs|];
    }
    forall i | 0 <= i < |all| && HasRules(all[i])
      ensures Compatible(rules.GetOr(EMPTY_RULES).properties, Contribution(all[i].obj))
    {
      assert all[i] == if i < |xs| then xs[i] else bs[i - |xs|];
    }
  }

  // ---------------------------------------------------------------- one node

  function ListOf(l: SchemaList): seq<Schema> {
    if l.Present? then l.branches else []
  }

  function OneOfList(o: SchemaObject): seq<Schema> {
    if o.subschemas.Some? then ListOf(o.subschemas.value.oneOf) else []
  }

  function AnyOfList(o: SchemaObject): seq<Schema> {
    if o.subschemas.Some? then ListOf(o.subschemas.value.anyOf) else []
  }

  /** Every type named on a node or on a branch whose type moves to it. */
  function NodeTypes(o: SchemaObject): set<TypeSpec> {
    Named(o.instanceType) + RuleTypes(OneOfList(o)) + PlainEnumTypes(OneOfList(o)) + RuleTypes(AnyOfList(o))
  }

  /** Every property has one schema and there is one type, over the node and all its branches. */
  ghost predicate NodeAgrees(o: SchemaObject) {
    NoPropertyClash(OneOfList(o) + AnyOfList(o), o.rules) && OneType(NodeTypes(o))
  }

  lemma HoistPropertiesNames(bs: seq<Schema>, rules: Option<ObjectRules>, ty: Option<TypeSpec>)
    ensures HoistProperties(bs, rules, ty).Done? <==> NoPropertyClash(bs, rules) && OneType(Named(ty) + RuleTypes(bs))
    ensures HoistProperties(bs, rules, ty).Done? ==>
      var h := HoistProperties(bs, rules, ty).value;
      HoldsUnion(bs, rules, h.rules) && Named(h.instanceType) == Named(ty) + RuleTypes(bs) && EnumTypes(h.branches) == PlainEnumTypes(bs)
  {
    HoistPropertiesPanicsIff(bs, rules, ty);
    RuleNames(bs, ty);
    if HoistProperties(bs, rules, ty).Done? {
      HoistPropertiesUnion(bs, rules, ty);
      var h := HoistProperties(bs, rules, ty).value;
      HoistedNames(bs, ty, h.instanceType);
      HoistedEnumNames(bs, h.branches);
    }
  }

  lemma OneOfIff(o: SchemaObject)
    ensures HoistOneOf(o).Done? <==>
            && NoPropertyClash(OneOfList(o), o.rules)
            && OneType(Named(o.instanceType) + RuleTypes(OneOfList(o)) + PlainEnumTypes(OneOfList(o)))
    ensures HoistOneOf(o).Done? ==>
      && HoldsUnion(OneOfList(o), o.rules, HoistOneOf(o).value.rules)
      && Named(HoistOneOf(o).value.instanceType) == Named(o.instanceType) + RuleTypes(OneOfList(o)) + PlainEnumTypes(OneOfList(o))
      && AnyOfList(HoistOneOf(o).value) == AnyOfList(o)
  {
    var bs := OneOfList(o);
    HoistPropertiesNames(bs, o.rules, o.instanceType);
    if HoistProperties(bs, o.rules, o.instanceType).Done? {
      var h := HoistProperties(bs, o.rules, o.instanceType).value;
      HoistEnumsPanicsIff(h.branches, o.enumValues, h.instanceType);
    }
  }

  lemma AnyOfIff(o: SchemaObject)
    ensures HoistAnyOf(o).Done? <==>
            NoPropertyClash(AnyOfList(o), o.rules) && OneType(Named(o.instanceType) + RuleTypes(AnyOfList(o)))
  {
    HoistPropertiesNames(AnyOfList(o), o.rules, o.instanceType);
  }

  lemma ClashesPrefix(xs: seq<Schema>, bs: seq<Schema>, rules: Option<ObjectRules>)
    requires NoPropertyClash(xs + bs, rules)
    ensures NoPropertyClash(xs, rules)
  {
    var all := xs + bs;
    assert forall i | 0 <= i < |xs| :: xs[i] == all[i];
  }

  /** One node, its children rewritten already: hoisting panics exactly when something disagrees. */
  lemma HoistNodePanicsIff(o: SchemaObject)
    ensures HoistNode(o).Done? <==> NodeAgrees(o)
  {
    OneOfIff(o);
    if HoistOneOf(o).Done? {
      var o1 := HoistOneOf(o).value;
      AnyOfIff(o1);
      ClashesAppend(OneOfList(o), AnyOfList(o), o.rules, o1.rules);
    } else if NodeAgrees(o) {
      ClashesPrefix(OneOfList(o), AnyOfList(o), o.rules);
    }
  }

  // ---------------------------------------------------------------- the tree

  /** A node with its children as the pass leaves them, or as they are if the pass panics there. */
  function ChildrenOf(o: SchemaObject): SchemaObject {
    match RewriteChildren(o)
    case Done(c) => c
    case Panicked => o
  }

  ghost predicate NoClashList(l: SchemaList)
    decreases l
  {
    l.Present? ==> forall i | 0 <= i < |l.branches| :: NoClash(l.branches[i])
  }

  ghost predicate NoClashRules(r: ObjectRules)
    decreases r
  {
    && (r.additional.Some? ==> NoClash(r.additional.value))
    && (forall k | k in r.properties :: NoClash(r.properties[k]))
  }

  ghost predicate NoClashChildren(o: SchemaObject)
    decreases o
  {
    && (o.subschemas.Some? ==> NoClashList(o.subschemas.value.oneOf) && NoClashList(o.subschemas.value.anyOf))
    && (o.items.Some? ==> NoClash(o.items.value))
    && (o.rules.Some? ==> NoClashRules(o.rules.value))
  }

  /** No node of the tree brings together two schemas for one property or two types. */
  ghost predicate NoClash(s: Schema)
    decreases s
  {
    s.ObjectSchema? ==> NoClashChildren(s.obj) && NodeAgrees(ChildrenOf(s.obj))
  }

  lemma {:induction false} RewriteListPanicsIff(l: SchemaList)
    ensures RewriteList(l).Done? <==> NoClashList(l)
    decreases l
  {
    if l.Present? {
      forall i | 0 <= i < |l.branches| ensures Rewrite(l.branches[i]).Done? <==> NoClash(l.branches[i]) {
        RewritePanicsIff(l.branches[i]);
      }
    }
  }

  lemma {:induction false} RewriteRulesPanicsIff(r: ObjectRules)
    ensures RewriteRules(r).Done? <==> NoClashRules(r)
    decreases r
  {
    if r.additional.Some? {
      RewritePanicsIff(r.additional.value);
    }
    forall k | k in r.properties ensures Rewrite(r.properties[k]).Done? <==> NoClash(r.properties[k]) {
      RewritePanicsIff(r.properties[k]);
    }
  }

  /** Main result: the pass over any schema tree panics exactly when some node of it has a clash. */
  lemma {:induction false} RewritePanicsIff(s: Schema)
    ensures Rewrite(s).Done? <==> NoClash(s)
    decreases s
  {
    if s.ObjectSchema? {
      var o := s.obj;
      if o.subschemas.Some? {
        RewriteListPanicsIff(o.subschemas.value.oneOf);
        RewriteListPanicsIff(o.subschemas.value.anyOf);
      }
      if o.items.Some? {
        RewritePanicsIff(o.items.value);
      }
      if o.rules.Some? {
        RewriteRulesPanicsIff(o.rules.value);
      }
      assert RewriteChildren(o).Done? <==> NoClashChildren(o);
      HoistNodePanicsIff(ChildrenOf(o));
    }
  }
}
