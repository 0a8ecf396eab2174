/**
 Where everything on a node ends up: what the pass moves, in which order, and what it leaves alone.
 */
module SchemaFrame {
  import opened Common
  import opened Schemas
  import opened SchemaNormal

  // ---------------------------------------------------------------- branches

  function DescriptionOf(o: SchemaObject): Option<string> {
    if o.metadata.Some? then o.metadata.value.description else None
  }

  function TitleOf(o: SchemaObject): Option<string> {
    if o.metadata.Some? then o.metadata.value.title else None
  }

  /** A branch that gave its properties, type and description away, and kept everything else. */
  predicate GaveUp(b: SchemaObject, b1: SchemaObject) {
    && b1.instanceType.None? && DescriptionOf(b1).None?
    && b.rules.Some? && b1.rules.Some? && b1.rules.value.properties == map[] && b1.rules.value.additional.None?
    && b1.rules.value.required == b.rules.value.required
    && TitleOf(b1) == TitleOf(b) && b1.enumValues == b.enumValues && b1.subschemas == b.subschemas
    && b1.items == b.items && b1.extensions == b.extensions
  }

  /** Main result: after hoisting, a branch with object rules gave up what moved; any other is as it was. */
  lemma BranchesGiveUp(bs: seq<Schema>, rules: Option<ObjectRules>, ty: Option<TypeSpec>, i: nat)
    requires HoistProperties(bs, rules, ty).Done? && i < |bs|
    ensures
      var hs := HoistProperties(bs, rules, ty).value.branches;
      && |hs| == |bs|
      && if HasRules(bs[i]) then hs[i].ObjectSchema? && GaveUp(bs[i].obj, hs[i].obj) else hs[i] == bs[i]
  {
    HoistPropertiesUnion(bs, rules, ty);
  }

  /** The schema `p` with the description `d`, otherwise unchanged. */
  predicate Described(p: Schema, d: string, p1: Schema) {
    if p.BoolSchema? then p1 == p
    else
      && p1.ObjectSchema?
      && DescriptionOf(p1.obj) == Some(d) && TitleOf(p1.obj) == TitleOf(p.obj)
      && p1.obj.instanceType == p.obj.instanceType && p1.obj.enumValues == p.obj.enumValues
      && p1.obj.subschemas == p.obj.subschemas && p1.obj.rules == p.obj.rules
      && p1.obj.items == p.obj.items && p1.obj.extensions == p.obj.extensions
  }

  /** Main result: the description of a branch with one property becomes that property's; other properties move as they are. */
  lemma DescriptionMoves(bs: seq<Schema>, rules: Option<ObjectRules>, ty: Option<TypeSpec>, i: nat, k: string)
    requires HoistProperties(bs, rules, ty).Done? && i < |bs| && HasRules(bs[i]) && k in bs[i].obj.rules.value.properties
    ensures
      var b := bs[i].obj;
      var h := HoistProperties(bs, rules, ty).value;
      && h.rules.Some? && k in h.rules.value.properties
      && if DescriptionOf(b).Some? && b.rules.value.properties.Keys == {k}
         then Described(b.rules.value.properties[k], DescriptionOf(b).value, h.rules.value.properties[k])
         else h.rules.value.properties[k] == b.rules.value.properties[k]
  {
    HoistPropertiesUnion(bs, rules, ty);
    ContributionIs(bs[i].obj, k);
    InUnion(bs, rules, HoistProperties(bs, rules, ty).value.rules, i, k);
  }

  lemma InUnion(bs: seq<Schema>, rules: Option<ObjectRules>, result: Option<ObjectRules>, i: nat, k: string)
    requires HoldsUnion(bs, rules, result) && i < |bs| && HasRules(bs[i]) && k in Contribution(bs[i].obj)
    ensures result.Some? && k in result.value.properties && result.value.properties[k] == Contribution(bs[i].obj)[k]
  {
    assert Submap(Contribution(bs[i].obj), result.value.properties);
  }

  lemma ContributionIs(b: SchemaObject, k: string)
    requires b.rules.Some? && k in b.rules.value.properties
    ensures k in Contribution(b)
    ensures
      if DescriptionOf(b).Some? && b.rules.value.properties.Keys == {k}
      then Described(b.rules.value.properties[k], DescriptionOf(b).value, Contribution(b)[k])
      else Contribution(b)[k] == b.rules.value.properties[k]
  {
    OnlyProperty(b.rules.value.properties, k);
  }

  lemma OnlyProperty(m: map<string, Schema>, k: string)
    requires k in m
    ensures |m| == 1 <==> m.Keys == {k}
  {
    if |m| == 1 {
      assert |m.Keys - {k}| == 0;
    }
    assert |m| == |m.Keys|;
  }

  // ------------------------------------------------------------------- enums

  /** The values that branches list, in the order of the branches. */
  function Listed(bs: seq<Schema>): seq<Json> {
    if bs == [] then []
    else Listed(bs[..|bs| - 1]) + (if HasEnum(bs[|bs| - 1]) then bs[|bs| - 1].obj.enumValues.value else [])
  }

  /** The branches that list no values, in their order. */
  function Unlisted(bs: seq<Schema>): seq<Schema> {
    if bs == [] then []
    else Unlisted(bs[..|bs| - 1]) + (if HasEnum(bs[|bs| - 1]) then [] else [bs[|bs| - 1]])
  }

  lemma {:induction false} ListedFirst(bs: seq<Schema>)
    requires bs != []
    ensures Listed(bs) == (if HasEnum(bs[0]) then bs[0].obj.enumValues.value else []) + Listed(bs[1..])
    ensures Unlisted(bs) == (if HasEnum(bs[0]) then [] else [bs[0]]) + Unlisted(bs[1..])
  {
    if |bs| > 1 {
      ListedFirst(bs[..|bs| - 1]);
      assert bs[..|bs| - 1][1..] == bs[1..][..|bs[1..]| - 1];
    }
  }

  /** Main result: values are appended in the order of the branches, and the branches that list none stay in order. */
  lemma {:induction false} EnumsInOrder(bs: seq<Schema>, values: Option<seq<Json>>, ty: Option<TypeSpec>)
    requires HoistEnums(bs, values, ty).Done?
    ensures
      var h := HoistEnums(bs, values, ty).value;
      && h.branches == Unlisted(bs)
      && (h.enumValues.Some? <==> values.Some? || exists i | 0 <= i < |bs| :: HasEnum(bs[i]))
      && (h.enumValues.Some? ==> h.enumValues.value == values.GetOr([]) + Listed(bs))
  {
    if bs != [] {
      ListedFirst(bs);
      var tail := bs[1..];
      assert forall i | 0 < i < |bs| :: bs[i] == tail[i - 1];
      if HasEnum(bs[0]) {
        var own := bs[0].obj.enumValues.value;
        EnumsInOrder(tail, Some(values.GetOr([]) + own), MergeTypes(ty, bs[0].obj.instanceType).value);
        assert values.GetOr([]) + own + Listed(tail) == values.GetOr([]) + (own + Listed(tail));
      } else {
        EnumsInOrder(tail, values, ty);
        EnumsTail(bs);
      }
    }
  }

  lemma EnumsTail(bs: seq<Schema>)
    requires bs != [] && !HasEnum(bs[0])
    ensures (exists i | 0 <= i < |bs| :: HasEnum(bs[i])) <==> (exists i | 0 <= i < |bs[1..]| :: HasEnum(bs[1..][i]))
  {
    if i :| 0 <= i < |bs| && HasEnum(bs[i]) {
      assert bs[1..][i - 1] == bs[i];
    }
    if i :| 0 <= i < |bs[1..]| && HasEnum(bs[1..][i]) {
      assert bs[i + 1] == bs[1..][i];
    }
  }

  // ---------------------------------------------------------------- one node

  ghost predicate AnyProperties(o: SchemaObject) {
    || (o.rules.Some? && o.rules.value.properties.Keys != {})
    || (exists i | 0 <= i < |OneOf(o)| :: HasRules(OneOf(o)[i]) && OneOf(o)[i].obj.rules.value.properties.Keys != {})
    || (exists i | 0 <= i < |AnyOf(o)| :: HasRules(AnyOf(o)[i]) && AnyOf(o)[i].obj.rules.value.properties.Keys != {})
  }

  function OneOf(o: SchemaObject): seq<Schema> {
    if o.subschemas.Some? && o.subschemas.value.oneOf.Present? then o.subschemas.value.oneOf.branches else []
  }

  function AnyOf(o: SchemaObject): seq<Schema> {
    if o.subschemas.Some? && o.subschemas.value.anyOf.Present? then o.subschemas.value.anyOf.branches else []
  }

  /** A node that allows any fields beside the properties it will have, its own or its branches'. */
  ghost predicate Flattens(o: SchemaObject) {
    o.rules.Some? && o.rules.value.additional == Some(BoolSchema(true)) && AnyProperties(o)
  }

  lemma UnionEmpty(bs: seq<Schema>, rules: Option<ObjectRules>, result: Option<ObjectRules>)
    requires HoldsUnion(bs, rules, result) && result.Some?
    ensures result.value.properties.Keys != {} <==>
            || (rules.Some? && rules.value.properties.Keys != {})
            || exists i | 0 <= i < |bs| :: HasRules(bs[i]) && bs[i].obj.rules.value.properties.Keys != {}
  {
    if i :| 0 <= i < |bs| && HasRules(bs[i]) && bs[i].obj.rules.value.properties.Keys != {} {
      var k :| k in bs[i].obj.rules.value.properties;
      assert k in Contribution(bs[i].obj) && k in result.value.properties;
    }
    if rules.Some? && rules.value.properties.Keys != {} {
      var k :| k in rules.value.properties;
      assert k in result.value.properties;
    }
    if result.value.properties.Keys != {} {
      var k :| k in result.value.properties;
      if k !in rules.GetOr(EMPTY_RULES).properties {
        var i :| 0 <= i < |bs| && HasRules(bs[i]) && k in Contribution(bs[i].obj);
        assert k in bs[i].obj.rules.value.properties;
      }
    }
  }

  /** What hoisting from the branches never touches. */
  predicate SameAside(o: SchemaObject, t: SchemaObject) {
    t.metadata == o.metadata && t.items == o.items && t.extensions == o.extensions
  }

  lemma HoistedProperties(o: SchemaObject, o2: SchemaObject)
    requires HoistOneOf(o).Done? && HoistAnyOf(HoistOneOf(o).value) == Done(o2)
    ensures SameAside(o, o2)
    ensures o.rules.Some? ==> o2.rules.Some?
    ensures o2.rules.Some? ==>
      && (o2.rules.value.properties.Keys != {} <==> AnyProperties(o))
      && o2.rules.value.additional == o.rules.GetOr(EMPTY_RULES).additional
      && o2.rules.value.required == o.rules.GetOr(EMPTY_RULES).required
  {
    var o1 := HoistOneOf(o).value;
    assert AnyOf(o1) == AnyOf(o);
    HoistPropertiesUnion(OneOf(o), o.rules, o.instanceType);
    HoistPropertiesUnion(AnyOf(o1), o1.rules, o1.instanceType);
    if o1.rules.Some? {
      UnionEmpty(OneOf(o), o.rules, o1.rules);
    }
    if o2.rules.Some? {
      UnionEmpty(AnyOf(o), o1.rules, o2.rules);
    }
  }

  /**
   Main result: the pass over a node keeps its metadata, items, required fields and extensions; what
   it allows beside the properties stays too, except that "anything" beside some property becomes the
   preserve flag, and the flag is set in no other case.
   */
  lemma NodeKeeps(o: SchemaObject)
    requires HoistNode(o).Done?
    ensures
      var t := HoistNode(o).value;
      && t.metadata == o.metadata && t.items == o.items
      && t.extensions == (if Flattens(o) then o.extensions[PRESERVE := Bool(true)] else o.extensions)
      && (o.rules.Some? ==> t.rules.Some?)
      && (t.rules.Some? ==>
            && t.rules.value.required == o.rules.GetOr(EMPTY_RULES).required
            && t.rules.value.additional == if Flattens(o) then None else o.rules.GetOr(EMPTY_RULES).additional)
  {
    var o2 := HoistAnyOf(HoistOneOf(o).value).value;
    HoistedProperties(o, o2);
    if o2.rules.Some? {
      assert o2.rules.value.properties == map[] <==> o2.rules.value.properties.Keys == {};
    }
  }
}
