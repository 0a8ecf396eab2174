/**
 What pruning under a rewritten schema removes: exactly the fields that no part of the original
 schema describes.  A struct with a flattened map loses nothing.
 */
module SchemaPruning {
  import opened Common
  import opened Schemas
  import opened SchemaNormal
  import opened SchemaMeaning

  // ------------------------------------------- what the original describes

  /** The schema the first of the branches gives for a field. */
  function InBranches(bs: seq<Schema>, k: string): Option<Schema> {
    if bs == [] then None
    else if HasRules(bs[0]) && k in bs[0].obj.rules.value.properties then Some(bs[0].obj.rules.value.properties[k])
    else InBranches(bs[1..], k)
  }

  /** The schema that a node, or a branch of its `oneOf`, gives for a field. */
  function Mentions(o: SchemaObject, k: string): Option<Schema> {
    if o.rules.Some? && k in o.rules.value.properties then Some(o.rules.value.properties[k])
    else if o.subschemas.Some? && o.subschemas.value.oneOf.Present? then InBranches(o.subschemas.value.oneOf.branches, k)
    else None
  }

  /** A struct with named fields beside a map of anything. */
  predicate HasFlattenedMap(o: SchemaObject) {
    o.rules.Some? && o.rules.value.properties.Keys != {} && o.rules.value.additional == Some(BoolSchema(true))
  }

  /** The value with the fields that the schema describes somewhere, and no others. */
  function Described(s: Schema, v: Json): Json
    decreases v
  {
    match (s, v)
    case (ObjectSchema(o), Obj(fields)) =>
      var rest := if o.rules.Some? then o.rules.value.additional else None;
      Obj(map k | k in fields && (Mentions(o, k).Some? || rest.Some? || Preserves(o)) ::
            if Mentions(o, k).Some? then Described(Mentions(o, k).value, fields[k])
            else if rest.Some? then Described(rest.value, fields[k])
            else fields[k])
    case (ObjectSchema(o), Arr(elems)) =>
      var item := if o.items.Some? then o.items.value
                  else if Preserves(o) || HasFlattenedMap(o) then BoolSchema(true)
                  else ObjectSchema(EMPTY_OBJECT);
      Arr(seq(|elems|, i requires 0 <= i < |elems| => Described(item, elems[i])))
    case _ => v
  }

  // ------------------------------------------------------- one node at a time

  lemma {:induction false} NoneInBranches(bs: seq<Schema>, k: string)
    requires forall i | 0 <= i < |bs| :: HasRules(bs[i]) ==> k !in bs[i].obj.rules.value.properties
    ensures InBranches(bs, k).None?
  {
    if bs != [] {
      NoneInBranches(bs[1..], k);
    }
  }

  lemma {:induction false} FoundInBranches(bs: seq<Schema>, k: string, i: nat)
    requires i < |bs| && HasRules(bs[i]) && k in bs[i].obj.rules.value.properties
    requires forall j | 0 <= j < i :: HasRules(bs[j]) ==> k !in bs[j].obj.rules.value.properties
    ensures InBranches(bs, k) == Some(bs[i].obj.rules.value.properties[k])
  {
    if i > 0 {
      FoundInBranches(bs[1..], k, i - 1);
    }
  }

  lemma PlainMentions(o: SchemaObject, k: string)
    requires NoBranches(o)
    ensures Mentions(o, k) ==
            if o.rules.Some? && k in o.rules.value.properties then Some(o.rules.value.properties[k]) else None
  {
  }

  lemma EnumMentions(o: SchemaObject, k: string)
    requires EnumNode(o)
    ensures Mentions(o, k).None?
  {
    NoneInBranches(Branches(o), k);
  }

  lemma TaggedMentions(o: SchemaObject, tags: seq<string>, k: string)
    requires TaggedBy(o, tags)
    ensures Mentions(o, k).Some? <==> k in tags
    ensures forall i | 0 <= i < |tags| && tags[i] == k :: Mentions(o, k) == Some(PropertyOf(Branches(o)[i], k))
  {
    var bs := Branches(o);
    if i :| 0 <= i < |tags| && tags[i] == k {
      forall j | 0 <= j < i ensures k !in bs[j].obj.rules.value.properties {
        assert tags[j] != tags[i];
      }
      FoundInBranches(bs, k, i);
    } else {
      NoneInBranches(bs, k);
    }
  }

  // ---------------------------------------------------------- plain nodes

  /** Every property rewritten in its place, and what is allowed beside them. */
  ghost predicate PlainRules(o: SchemaObject, r: ObjectRules, r1: ObjectRules) {
    && r1.properties.Keys == r.properties.Keys
    && (forall k | k in r.properties :: Rewrite(r.properties[k]) == Done(r1.properties[k]))
    && (r1.additional.Some? <==> r.additional.Some? && !HasFlattenedMap(o))
    && (r1.additional.Some? ==> Rewrite(r.additional.value) == Done(r1.additional.value))
  }

  /** A node without alternatives after the pass: which fields it keeps, and by which schema. */
  lemma PlainResult(o: SchemaObject) returns (t: SchemaObject)
    requires PlainNode(o) && Rewrite(ObjectSchema(o)).Done?
    ensures Rewrite(ObjectSchema(o)) == Done(ObjectSchema(t)) && RewriteChildren(o).Done?
    ensures t.items.Some? <==> o.items.Some?
    ensures o.items.Some? ==> Rewrite(o.items.value) == Done(t.items.value)
    ensures t.extensions == if HasFlattenedMap(o) then o.extensions[PRESERVE := Bool(true)] else o.extensions
    ensures t.rules.Some? <==> o.rules.Some?
    ensures o.rules.Some? ==> PlainRules(o, o.rules.value, t.rules.value)
  {
    PlainShape(o);
    var c := RewriteChildren(o).value;
    t := AllowUnknown(c);
    if o.rules.Some? {
      var r, r1 := o.rules.value, RewriteRules(o.rules.value).value;
      assert c.rules == Some(r1);
      assert r1.properties.Keys == r.properties.Keys;
      assert r1.properties == map[] <==> r1.properties.Keys == {};
      if r.additional.Some? {
        assert Rewrite(r.additional.value).Done? && r1.additional == Some(Rewrite(r.additional.value).value);
        if r1.additional == Some(BoolSchema(true)) {
          BecomesTrue(r.additional.value);
        }
      }
    }
  }

  /** The field `k` as pruning by `t` leaves it, if it keeps it. */
  function PrunedField(t: SchemaObject, k: string, f: Json): Json {
    var r := t.rules.GetOr(EMPTY_RULES);
    if k in r.properties then Prune(r.properties[k], f)
    else if r.additional.Some? then Prune(r.additional.value, f)
    else f
  }

  predicate Describes(o: SchemaObject, k: string) {
    Mentions(o, k).Some? || (o.rules.Some? && o.rules.value.additional.Some?) || Preserves(o)
  }

  function DescribedField(o: SchemaObject, k: string, f: Json): Json {
    if Mentions(o, k).Some? then Described(Mentions(o, k).value, f)
    else if o.rules.Some? && o.rules.value.additional.Some? then Described(o.rules.value.additional.value, f)
    else f
  }

  lemma PrunedAt(t: SchemaObject, fields: map<string, Json>)
    ensures Prune(ObjectSchema(t), Obj(fields)) == Obj(map k | k in fields && Keeps(t, k) :: PrunedField(t, k, fields[k]))
  {
    assert Prune(ObjectSchema(t), Obj(fields)).fields == map k | k in fields && Keeps(t, k) :: PrunedField(t, k, fields[k]);
  }

  lemma DescribedAt(o: SchemaObject, fields: map<string, Json>)
    ensures Described(ObjectSchema(o), Obj(fields)) == Obj(map k | k in fields && Describes(o, k) :: DescribedField(o, k, fields[k]))
  {
    assert Described(ObjectSchema(o), Obj(fields)).fields == map k | k in fields && Describes(o, k) :: DescribedField(o, k, fields[k]);
  }

  lemma FieldByField(o: SchemaObject, t: SchemaObject, fields: map<string, Json>)
    requires forall k | k in fields :: Keeps(t, k) <==> Describes(o, k)
    requires forall k | k in fields && Describes(o, k) :: PrunedField(t, k, fields[k]) == DescribedField(o, k, fields[k])
    ensures Prune(ObjectSchema(t), Obj(fields)) == Described(ObjectSchema(o), Obj(fields))
  {
    PrunedAt(t, fields);
    DescribedAt(o, fields);
    assert (map k | k in fields && Keeps(t, k) :: PrunedField(t, k, fields[k]))
        == (map k | k in fields && Describes(o, k) :: DescribedField(o, k, fields[k]));
  }

  lemma ItemByItem(o: SchemaObject, t: SchemaObject, elems: seq<Json>, x: Schema, y: Schema)
    requires x == if t.items.Some? then t.items.value else if Preserves(t) then BoolSchema(true) else ObjectSchema(EMPTY_OBJECT)
    requires y == if o.items.Some? then o.items.value
                  else if Preserves(o) || HasFlattenedMap(o) then BoolSchema(true) else ObjectSchema(EMPTY_OBJECT)
    requires forall i | 0 <= i < |elems| :: Prune(x, elems[i]) == Described(y, elems[i])
    ensures Prune(ObjectSchema(t), Arr(elems)) == Described(ObjectSchema(o), Arr(elems))
  {
    var a, b := Prune(ObjectSchema(t), Arr(elems)).elems, Described(ObjectSchema(o), Arr(elems)).elems;
    assert |a| == |b|;
    forall i | 0 <= i < |a| ensures a[i] == b[i] {
    }
    assert a == b;
  }

  /** A schema that says nothing describes no field. */
  lemma EmptyUnchanged()
    ensures Supported(ObjectSchema(EMPTY_OBJECT)) && Rewrite(ObjectSchema(EMPTY_OBJECT)) == Done(ObjectSchema(EMPTY_OBJECT))
  {
    PlainShape(EMPTY_OBJECT);
    assert PlainNode(EMPTY_OBJECT);
  }

  lemma {:induction false} PlainFields(o: SchemaObject, t: SchemaObject, fields: map<string, Json>)
    requires PlainNode(o) && (o.rules.Some? ==> SupportedRules(o.rules.value)) && (t.rules.Some? <==> o.rules.Some?)
    requires o.rules.Some? ==> PlainRules(o, o.rules.value, t.rules.value)
    requires t.extensions == if HasFlattenedMap(o) then o.extensions[PRESERVE := Bool(true)] else o.extensions
    ensures Prune(ObjectSchema(t), Obj(fields)) == Described(ObjectSchema(o), Obj(fields))
    decreases Obj(fields), 0
  {
    forall k | k in fields
      ensures Keeps(t, k) <==> Describes(o, k)
      ensures Describes(o, k) ==> PrunedField(t, k, fields[k]) == DescribedField(o, k, fields[k])
    {
      PlainMentions(o, k);
      if o.rules.Some? {
        var r := o.rules.value;
        if k in r.properties {
          PrunesUndescribed(r.properties[k], fields[k]);
        } else if r.additional.Some? {
          PrunesUndescribed(r.additional.value, fields[k]);
        }
      }
    }
    FieldByField(o, t, fields);
  }

  lemma {:induction false} Items(o: SchemaObject, t: SchemaObject, elems: seq<Json>)
    requires o.items.Some? ==> Supported(o.items.value)
    requires t.items.Some? <==> o.items.Some?
    requires o.items.Some? ==> Rewrite(o.items.value) == Done(t.items.value)
    requires Preserves(t) <==> Preserves(o) || HasFlattenedMap(o)
    ensures Prune(ObjectSchema(t), Arr(elems)) == Described(ObjectSchema(o), Arr(elems))
    decreases Arr(elems), 0
  {
    var x := if t.items.Some? then t.items.value else if Preserves(t) then BoolSchema(true) else ObjectSchema(EMPTY_OBJECT);
    var y := if o.items.Some? then o.items.value
             else if Preserves(o) || HasFlattenedMap(o) then BoolSchema(true) else ObjectSchema(EMPTY_OBJECT);
    EmptyUnchanged();
    assert Supported(y) && Rewrite(y) == Done(x);
    forall i | 0 <= i < |elems| ensures Prune(x, elems[i]) == Described(y, elems[i]) {
      PrunesUndescribed(y, elems[i]);
    }
    ItemByItem(o, t, elems, x, y);
  }

  lemma {:induction false} TaggedFields(o: SchemaObject, tags: seq<string>, cs: seq<Schema>, t: SchemaObject, fields: map<string, Json>)
    requires TaggedResult(o, tags, cs, t) && SupportedBranches(o.subschemas.value.oneOf)
    ensures Prune(ObjectSchema(t), Obj(fields)) == Described(ObjectSchema(o), Obj(fields))
    decreases Obj(fields), 0
  {
    forall k | k in fields
      ensures Keeps(t, k) <==> Describes(o, k)
      ensures Describes(o, k) ==> PrunedField(t, k, fields[k]) == DescribedField(o, k, fields[k])
    {
      TaggedMentions(o, tags, k);
      if i :| 0 <= i < |tags| && tags[i] == k {
        BranchSupported(o, tags, i);
        PrunesUndescribed(PropertyOf(Branches(o)[i], k), fields[k]);
        ContributionMeaning(cs[i].obj, k, fields[k]);
        assert t.rules.value.properties[k] == Contribution(cs[i].obj)[k];
      }
    }
    FieldByField(o, t, fields);
  }

  /**
   Main result: on every supported schema and every value, pruning under the rewritten schema leaves
   exactly what the original describes: nothing that it mentions is lost, at any depth.
   */
  lemma {:induction false} PrunesUndescribed(s: Schema, v: Json)
    requires Supported(s)
    ensures Rewrite(s).Done? && Prune(Rewrite(s).value, v) == Described(s, v)
    decreases v, 1
  {
    RewriteTotal(s);
    if s.ObjectSchema? && (v.Obj? || v.Arr?) {
      var o := s.obj;
      var t := Rewrite(s).value.obj;
      if PlainNode(o) && (o.rules.Some? ==> SupportedRules(o.rules.value)) && (o.items.Some? ==> Supported(o.items.value)) {
        var u := PlainResult(o);
        if v.Obj? { PlainFields(o, t, v.fields); } else { Items(o, t, v.elems); }
      } else if EnumNode(o) {
        EnumShape(o);
        if v.Obj? { EnumFields(o, t, v.fields); } else { Items(o, t, v.elems); }
      } else {
        var tags :| TaggedBy(o, tags);
        BranchesTotal(o.subschemas.value.oneOf);
        TaggedShape(o, tags);
        var cs := RewriteList(o.subschemas.value.oneOf).value.branches;
        if v.Obj? { TaggedFields(o, tags, cs, t, v.fields); } else { Items(o, t, v.elems); }
      }
    }
  }

  lemma EnumFields(o: SchemaObject, t: SchemaObject, fields: map<string, Json>)
    requires EnumResult(o, t)
    ensures Prune(ObjectSchema(t), Obj(fields)) == Described(ObjectSchema(o), Obj(fields))
  {
    forall k | k in fields
      ensures Keeps(t, k) <==> Describes(o, k)
      ensures Describes(o, k) ==> PrunedField(t, k, fields[k]) == DescribedField(o, k, fields[k])
    {
      EnumMentions(o, k);
    }
    FieldByField(o, t, fields);
  }

  /** A struct with a flattened map keeps every field it is given, and the unnamed ones unchanged. */
  lemma FlattenedMapKeepsAll(o: SchemaObject, fields: map<string, Json>)
    requires Supported(ObjectSchema(o)) && HasFlattenedMap(o)
    ensures Rewrite(ObjectSchema(o)).Done?
    ensures
      var p := Prune(Rewrite(ObjectSchema(o)).value, Obj(fields));
      && p.Obj? && p.fields.Keys == fields.Keys
      && forall k | k in fields && k !in o.rules.value.properties :: p.fields[k] == fields[k]
  {
    PrunesUndescribed(ObjectSchema(o), Obj(fields));
    assert NoBranches(o);
    forall k | k in fields && k !in o.rules.value.properties
      ensures Described(ObjectSchema(o), Obj(fields)).fields[k] == fields[k]
    {
      PlainMentions(o, k);
    }
  }
}
