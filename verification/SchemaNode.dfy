/**
 The rewriting pass as it edits a schema node in place: `SchemaNode` holds the
 fields of one node, children are visited first, and every method is proved
 equal to the function of the same step in `Schemas`.
 */
module SchemaNodes {
  import opened Common
  import opened Schemas

  /** The branches already handled, followed by what is still to come. */
  function Resume(done: seq<Schema>, rest: Outcome<Hoisted>): Outcome<Hoisted> {
    match rest
    case Panicked => Panicked
    case Done(h) => Done(h.(branches := done + h.branches))
  }

  function ResumeEnums(kept: seq<Schema>, rest: Outcome<HoistedEnums>): Outcome<HoistedEnums> {
    match rest
    case Panicked => Panicked
    case Done(h) => Done(h.(branches := kept + h.branches))
  }

  /** Move one property after the other into the common ones, or clash with one that differs. */
  method MoveProperties(had: map<string, Schema>, variant: map<string, Schema>) returns (ok: bool, common: map<string, Schema>)
    ensures ok <==> MergeProperties(had, variant).Done?
    ensures ok ==> common == MergeProperties(had, variant).value
  {
    common := had;
    var remaining := variant.Keys;
    while remaining != {}
      invariant remaining <= variant.Keys
      invariant common.Keys == had.Keys + (variant.Keys - remaining)
      invariant forall k | k in had :: common[k] == had[k]
      invariant forall k | k in variant && k !in remaining :: common[k] == variant[k]
      decreases |remaining|
    {
      var name :| name in remaining;
      if name in common {
        if variant[name] != common[name] {
          assert name in had;
          return false, common;
        }
      } else {
        common := common[name := variant[name]];
      }
      remaining := remaining - {name};
    }
    assert Compatible(had, variant);
    assert common == had + variant;
    ok := true;
  }

  class SchemaNode {
    var metadata: Option<Metadata>
    var instanceType: Option<TypeSpec>
    var enumValues: Option<seq<Json>>
    var subschemas: Option<Subschemas>
    var rules: Option<ObjectRules>
    var items: Option<Schema>
    var extensions: map<string, Json>

    function Value(): SchemaObject
      reads this
    {
      SchemaObject(metadata, instanceType, enumValues, subschemas, rules, items, extensions)
    }

    constructor (o: SchemaObject)
      ensures Value() == o
    {
      metadata := o.metadata;
      instanceType := o.instanceType;
      enumValues := o.enumValues;
      subschemas := o.subschemas;
      rules := o.rules;
      items := o.items;
      extensions := o.extensions;
    }

    /** Set the common type, or clash with it. */
    method MergeMetadata(variantType: Option<TypeSpec>) returns (ok: bool)
      modifies this`instanceType
      ensures ok <==> MergeTypes(old(instanceType), variantType).Done?
      ensures ok ==> instanceType == MergeTypes(old(instanceType), variantType).value
    {
      if variantType.None? {
        return true;
      }
      if instanceType.None? {
        instanceType := variantType;
        return true;
      }
      ok := instanceType == variantType;
    }

    /** Hoist one branch; the emptied branch is returned. */
    method HoistVariant(variant: Schema) returns (ok: bool, emptied: Schema)
      modifies this`rules, this`instanceType
      ensures ok <==> HoistBranch(variant, old(rules), old(instanceType)).Done?
      ensures ok ==> (emptied, rules, instanceType) == HoistBranch(variant, old(rules), old(instanceType)).value
    {
      emptied := variant;
      if !HasRules(variant) {
        return true, variant;
      }
      if rules.None? {
        rules := Some(EMPTY_RULES);
      }
      var o := variant.obj;
      var properties := o.rules.value.properties;
      if HasDescription(o) {
        var description := o.metadata.value.description.value;
        if |properties| == 1 {
          var name :| name in properties;
          properties := properties[name := Describe(properties[name], description)];
          assert o.rules.value.properties.Keys == {name} by {
            assert |o.rules.value.properties.Keys - {name}| == 0;
          }
        }
        o := o.(metadata := Some(o.metadata.value.(description := None)));
      }
      assert properties == Contribution(variant.obj);
      var merged;
      ok, merged := MoveProperties(rules.value.properties, properties);
      if !ok {
        return false, variant;
      }
      rules := Some(rules.value.(properties := merged));
      ok := MergeMetadata(o.instanceType);
      emptied := ObjectSchema(o.(instanceType := None, rules := Some(ObjectRules(map[], o.rules.value.required, None))));
    }

    /** Bring the properties of all branches up to this node, editing the branches in place. */
    method HoistSubschemaProperties(branches: array<Schema>) returns (ok: bool)
      modifies this`rules, this`instanceType, branches
      ensures ok <==> HoistProperties(old(branches[..]), old(rules), old(instanceType)).Done?
      ensures ok ==>
        HoistProperties(old(branches[..]), old(rules), old(instanceType)) == Done(Hoisted(branches[..], rules, instanceType))
    {
      ghost var was := branches[..];
      ghost var goal := HoistProperties(was, rules, instanceType);
      var i := 0;
      assert was[0..] == was;
      if goal.Done? {
        assert branches[..0] + goal.value.branches == goal.value.branches;
      }
      while i < branches.Length
        invariant 0 <= i <= branches.Length == |was|
        invariant branches[i..] == was[i..]
        invariant goal == Resume(branches[..i], HoistProperties(was[i..], rules, instanceType))
      {
        ghost var done, rest := branches[..i], was[i..];
        ghost var rules0, type0 := rules, instanceType;
        assert rest[0] == branches[i] && rest[1..] == was[i + 1..];
        var emptied;
        ok, emptied := HoistVariant(branches[i]);
        if !ok {
          return false;
        }
        branches[i] := emptied;
        i := i + 1;
        assert branches[..i] == done + [emptied];
        if HoistProperties(was[i..], rules, instanceType).Done? {
          assert done + [emptied] + HoistProperties(was[i..], rules, instanceType).value.branches
              == done + ([emptied] + HoistProperties(was[i..], rules, instanceType).value.branches);
        }
      }
      assert branches[..i] + [] == branches[..];
      ok := true;
    }

    /** Bring plain enum values up to this node and keep only the other branches. */
    method HoistSubschemaEnumValues(branches: seq<Schema>) returns (ok: bool, kept: seq<Schema>)
      modifies this`enumValues, this`instanceType
      ensures ok <==> HoistEnums(branches, old(enumValues), old(instanceType)).Done?
      ensures ok ==>
        HoistEnums(branches, old(enumValues), old(instanceType)) == Done(HoistedEnums(kept, enumValues, instanceType))
    {
      ghost var goal := HoistEnums(branches, enumValues, instanceType);
      kept := [];
      var i := 0;
      assert branches[0..] == branches;
      if goal.Done? {
        assert kept + goal.value.branches == goal.value.branches;
      }
      while i < |branches|
        invariant 0 <= i <= |branches|
        invariant goal == ResumeEnums(kept, HoistEnums(branches[i..], enumValues, instanceType))
      {
        var variant := branches[i];
        ghost var rest := branches[i..];
        assert rest[0] == variant && rest[1..] == branches[i + 1..];
        if HasEnum(variant) {
          ok := MergeMetadata(variant.obj.instanceType);
          if !ok {
            return false, kept;
          }
          enumValues := Some(enumValues.GetOr([]) + variant.obj.enumValues.value);
        } else {
          ghost var after := HoistEnums(branches[i + 1..], enumValues, instanceType);
          if after.Done? {
            assert kept + [variant] + after.value.branches == kept + ([variant] + after.value.branches);
          }
          kept := kept + [variant];
        }
        i := i + 1;
      }
      assert kept + [] == kept;
      ok := true;
    }

    /** Visit the children, hoist, then let flattened maps persist unknown fields. */
    method VisitSchemaObject() returns (ok: bool)
      modifies this
      ensures ok <==> Rewrite(ObjectSchema(old(Value()))).Done?
      ensures ok ==> ObjectSchema(Value()) == Rewrite(ObjectSchema(old(Value()))).value
      decreases ObjectSchema(Value()), 0
    {
      ghost var was := Value();
      ok := VisitChildren();
      if !ok {
        return;
      }
      if subschemas.Some? {
        if subschemas.value.oneOf.Present? {
          ok := HoistOneOfBranches();
          if !ok {
            return;
          }
        }
        if subschemas.value.anyOf.Present? {
          ok := HoistAnyOfBranches();
          if !ok {
            return;
          }
        }
      }
      if rules.Some? {
        if rules.value.properties != map[] && rules.value.additional == Some(BoolSchema(true)) {
          rules := Some(rules.value.(additional := None));
          extensions := extensions[PRESERVE := Bool(true)];
        }
      }
    }

    method HoistOneOfBranches() returns (ok: bool)
      requires subschemas.Some? && subschemas.value.oneOf.Present?
      modifies this
      ensures ok <==> HoistOneOf(old(Value())).Done?
      ensures ok ==> Value() == HoistOneOf(old(Value())).value
    {
      var oneOf := ToArray(subschemas.value.oneOf.branches);
      ok := HoistSubschemaProperties(oneOf);
      if !ok {
        return;
      }
      var kept;
      ok, kept := HoistSubschemaEnumValues(oneOf[..]);
      subschemas := Some(subschemas.value.(oneOf := if kept == [] then Absent else Present(kept)));
    }

    method HoistAnyOfBranches() returns (ok: bool)
      requires subschemas.Some? && subschemas.value.anyOf.Present?
      modifies this
      ensures ok <==> HoistAnyOf(old(Value())).Done?
      ensures ok ==> Value() == HoistAnyOf(old(Value())).value
    {
      var anyOf := ToArray(subschemas.value.anyOf.branches);
      ok := HoistSubschemaProperties(anyOf);
      subschemas := Some(subschemas.value.(anyOf := Present(anyOf[..])));
    }

    method VisitChildren() returns (ok: bool)
      modifies this
      ensures ok <==> RewriteChildren(old(Value())).Done?
      ensures ok ==> Value() == RewriteChildren(old(Value())).value
      decreases Value()
    {
      ok := true;
      if subschemas.Some? {
        var anyOf, oneOf;
        ok, anyOf := VisitList(subschemas.value.anyOf);
        if !ok { return; }
        ok, oneOf := VisitList(subschemas.value.oneOf);
        if !ok { return; }
        subschemas := Some(Subschemas(oneOf, anyOf));
      }
      if items.Some? {
        var item;
        ok, item := VisitSchema(items.value);
        if !ok { return; }
        items := Some(item);
      }
      if rules.Some? {
        var visited;
        ok, visited := VisitRules(rules.value);
        if !ok { return; }
        rules := Some(visited);
      }
    }
  }

  method ToArray(s: seq<Schema>) returns (a: array<Schema>)
    ensures fresh(a) && a[..] == s
  {
    a := new Schema[|s|](i requires 0 <= i < |s| => s[i]);
  }

  method VisitSchema(s: Schema) returns (ok: bool, visited: Schema)
    ensures ok <==> Rewrite(s).Done?
    ensures ok ==> visited == Rewrite(s).value
    decreases s, 1
  {
    visited := s;
    if s.BoolSchema? {
      return true, s;
    }
    var node := new SchemaNode(s.obj);
    ok := node.VisitSchemaObject();
    visited := ObjectSchema(node.Value());
  }

  method VisitList(l: SchemaList) returns (ok: bool, visited: SchemaList)
    ensures ok <==> RewriteList(l).Done?
    ensures ok ==> visited == RewriteList(l).value
    decreases l
  {
    visited := l;
    if l.Absent? {
      return true, l;
    }
    var bs := l.branches;
    var i := 0;
    while i < |bs|
      invariant 0 <= i <= |bs| == |l.branches|
      invariant forall j | 0 <= j < i :: Rewrite(l.branches[j]) == Done(bs[j])
      invariant forall j | i <= j < |bs| :: bs[j] == l.branches[j]
    {
      var b;
      ok, b := VisitSchema(l.branches[i]);
      if !ok { return; }
      bs := bs[i := b];
      i := i + 1;
    }
    visited := Present(bs);
    ok := true;
    assert RewriteList(l).value.branches == bs;
  }

  method VisitRules(r: ObjectRules) returns (ok: bool, visited: ObjectRules)
    ensures ok <==> RewriteRules(r).Done?
    ensures ok ==> visited == RewriteRules(r).value
    decreases r
  {
    visited := r;
    var remaining := r.properties.Keys;
    while remaining != {}
      invariant remaining <= r.properties.Keys == visited.properties.Keys
      invariant visited == r.(properties := visited.properties)
      invariant forall k | k in r.properties && k !in remaining :: Rewrite(r.properties[k]) == Done(visited.properties[k])
      decreases |remaining|
    {
      var name :| name in remaining;
      var property;
      ok, property := VisitSchema(r.properties[name]);
      if !ok { return; }
      visited := visited.(properties := visited.properties[name := property]);
      remaining := remaining - {name};
    }
    ok := true;
    if r.additional.Some? {
      var additional;
      ok, additional := VisitSchema(r.additional.value);
      assert RewriteOption(r.additional).Done? <==> ok;
      if !ok { return; }
      visited := visited.(additional := Some(additional));
    }
    assert RewriteOption(r.additional) == Done(visited.additional);
    assert RewriteRules(r).value.properties == visited.properties;
  }
}
