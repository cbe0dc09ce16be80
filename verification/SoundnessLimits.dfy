/** Where the generated types stop being sound or exact: which selections are affected, and by how much. */
module SoundnessLimits {
  import opened GraphQLAst
  import opened FragmentClosure
  import opened Schemas
  import opened Execution
  import opened TsTypes
  import opened SelectionTypes
  import opened Coverage
  import opened TypeSoundness
  import opened OperationTypes
  import opened SelectionMeaning
  import opened SoundnessExact

  lemma EmptyResponse(x: Executor, runtime: string, f: Selection)
    requires Acyclic(x.fragments) && x.schema.IsObject(runtime) && f.Field? && !Included(x.variables, f.directives)
    ensures Response(x, runtime, [f], Obj(map[]))
  {
    assert CollectNode(x, runtime, f, {}) == ([], {});
    assert CollectFields(x, runtime, [f], {}).0 == [] + CollectFields(x, runtime, [], {}).0;
    assert Collected(x, runtime, [f]) == [];
  }

  lemma AliasedResponse(x: Executor, runtime: string, f: Selection)
    requires Acyclic(x.fragments) && x.schema.IsObject(runtime) && f.Field? && Included(x.variables, f.directives)
    requires f.name == "__typename"
    ensures Response(x, runtime, [f], Obj(map[ResponseKey(f) := Str(runtime)]))
  {
    assert CollectNode(x, runtime, f, {}) == ([f], {});
    assert CollectFields(x, runtime, [f], {}).0 == [f] + CollectFields(x, runtime, [], {}).0;
    var all := Collected(x, runtime, [f]);
    assert all == [f];
    var group := Grouped(all, ResponseKey(f));
    assert f in group && forall h | h in group :: h == f;
  }

  lemma HasProperty(env: TsEnvironment, properties: seq<Property>, p: Property, v: Value)
    requires p in properties && !p.optional && Inhabits(env, Intersection([ObjectLiteral(properties)]), v)
    ensures v.Obj? && p.key in v.fields
  {
    var ts := Intersection([ObjectLiteral(properties)]);
    assert ts.parts[0] == ObjectLiteral(properties);
    assert Inhabits(env, ObjectLiteral(properties), v);
    var i :| 0 <= i < |properties| && properties[i] == p;
    assert PropertyHolds(env, properties[i], v);
  }

  /** `__typename` is neither aliased nor droppable, and only a nullable field is droppable. */
  predicate LeafStays(schema: Schema, runtime: string, f: Selection)
    requires schema.IsObject(runtime) && f.Field?
  {
    if f.name == "__typename" then ResponseKey(f) == "__typename" && !MayDrop(f.directives)
    else f.name in schema.types[runtime].fields && MayDrop(f.directives) ==> !schema.types[runtime].fields[f.name].NonNull?
  }

  lemma LeafCovered(x: Executor, runtime: string, f: Selection)
    requires Acyclic(x.fragments) && x.schema.IsObject(runtime) && f.Field? && f.selections == []
    requires LeafStays(x.schema, runtime, f)
    ensures Covered(x, runtime, [f], [f])
  {
    MayDropExact(f.directives);
    OneCollected(x, runtime, f);
    assert CoveredNode(x, runtime, f, [f]);
    assert [f][1..] == [] && Covered(x, runtime, [], [f]);
  }

  /** Alone in its selection set, a field answers itself or nothing does. */
  lemma OneCollected(x: Executor, runtime: string, f: Selection)
    requires Acyclic(x.fragments) && f.Field?
    ensures Collected(x, runtime, [f]) == if Included(x.variables, f.directives) then [f] else []
    ensures Answers(x, runtime, [f], ResponseKey(f)) == Collected(x, runtime, [f])
  {
    assert CollectNode(x, runtime, f, {}) == (if Included(x.variables, f.directives) then ([f], {}) else ([], {}));
    assert CollectFields(x, runtime, [f], {}).0 == CollectNode(x, runtime, f, {}).0 + CollectFields(x, runtime, [], {}).0;
    GroupedAll(Collected(x, runtime, [f]), ResponseKey(f));
  }

  lemma GroupedAll(fields: seq<Selection>, key: string)
    requires forall f | f in fields :: f.Field? && ResponseKey(f) == key
    ensures Grouped(fields, key) == fields
  {
  }

  /** For a single leaf field this is exactly soundness, with no premise on the schema's values. */
  lemma LeafFieldSoundIff(g: Generator, x: Executor, env: TsEnvironment, runtime: string, f: Selection)
    requires Compiled(g, x, env) && g.fragments == map[] && g.schema.IsObject(runtime)
    requires f.Field? && f.selections == []
    requires GenerateSelectionSetForObject(g, [f], runtime, true).Ok?
    ensures AlwaysSound(g, x, env, runtime, [f]) <==> LeafStays(g.schema, runtime, f)
  {
    var ts := GenerateSelectionSetForObject(g, [f], runtime, true).value;
    LeafFieldType(g, runtime, f);
    if LeafStays(g.schema, runtime, f) {
      forall variables, v | Response(x.(variables := variables), runtime, [f], v) ensures Inhabits(env, ts, v) {
        var y := x.(variables := variables);
        LeafCovered(y, runtime, f);
        ForObjectSound(g, y, env, [f], [f], runtime, true, v);
      }
    } else {
      MayDropExact(f.directives);
      var p := ts.parts[0].properties[0];
      var v: Value, variables: map<string, bool>;
      if MayDrop(f.directives) {
        variables :| !Included(variables, f.directives);
        v := Obj(map[]);
        EmptyResponse(x.(variables := variables), runtime, f);
      } else {
        variables := map[];
        v := Obj(map[ResponseKey(f) := Str(runtime)]);
        AliasedResponse(x.(variables := variables), runtime, f);
      }
      assert Response(x.(variables := variables), runtime, [f], v) && p.key !in v.fields;
      assert ts.parts == [ts.parts[0]] && ts.parts[0].properties == [p];
      assert ts.parts[0] == ObjectLiteral([p]) && ts == Intersection([ObjectLiteral([p])]);
      if Inhabits(env, ts, v) {
        HasProperty(env, [p], p, v);
        assert false;
      }
    }
  }

  lemma LeafFieldType(g: Generator, runtime: string, f: Selection)
    requires g.Valid() && g.schema.IsObject(runtime) && f.Field? && f.selections == []
    requires GenerateSelectionSetForObject(g, [f], runtime, true).Ok?
    ensures var ts := GenerateSelectionSetForObject(g, [f], runtime, true).value;
            ts.Intersection? && |ts.parts| == 1 && ts.parts[0].ObjectLiteral? && |ts.parts[0].properties| == 1 &&
            if f.name == "__typename" then ts.parts[0].properties[0] == Property("__typename", false, TypeNameLiteral(runtime))
            else
              && f.name in g.schema.types[runtime].fields
              && !g.schema.IsComposite(NamedType(g.schema.types[runtime].fields[f.name]))
              && ts.parts[0].properties[0].key == ResponseKey(f)
              && ts.parts[0].properties[0].optional == !g.schema.types[runtime].fields[f.name].NonNull?
  {
    assert GenerateInlineFragments(g, [f][1..], runtime) == Ok([]);
    assert GenerateFragmentSpreads(g, [f][1..], runtime) == Ok([]);
    assert GenerateFields(g, [f][1..], runtime) == Ok([]);
    assert BringsTypeName(g, f, runtime) == Ok(f.name == "__typename");
    assert HasTypeNameField(g, [f][1..], runtime) == Ok(false);
    assert HasTypeNameField(g, [f], runtime) == Ok(f.name == "__typename");
    assert [f][0] == f && GenerateFields(g, [f], runtime).Ok?;
    if f.name != "__typename" {
      assert GenerateField(g, f, runtime).Ok?;
      assert GenerateFields(g, [f], runtime).value == [GenerateField(g, f, runtime).value] + [];
      LeafTypeRef(g, g.schema.types[runtime].fields[f.name], true);
    }
  }

  lemma LeafTypeRef(g: Generator, t: TypeRef, optional: bool)
    requires g.Valid() && GenerateFieldType(g, [], t, optional).Ok?
    ensures !g.schema.IsComposite(NamedType(t))
  {
    match t
    case Named(_) =>
    case ListOf(of) => LeafTypeRef(g, of, true);
    case NonNull(of) => LeafTypeRef(g, of, false);
  }

  /** `checkTypeCondition` never follows a condition on a union, so its `__typename` is not lifted. */
  lemma UnionConditionMissed(g: Generator, x: Executor, runtime: string, union: string)
    requires g.Valid() && x.schema == g.schema && x.fragments == g.fragments && g.schema.IsObject(runtime)
    requires g.schema.IsUnion(union) && runtime in g.schema.types[union].members
    ensures var selections := [InlineFragment(Some(union), [], [Field(None, "__typename", [], [])])];
            HasTypeNameField(g, selections, runtime) == Ok(false) && SelectsTypeName(x, runtime, selections)
  {
    var f := Field(None, "__typename", [], []);
    var s := InlineFragment(Some(union), [], [f]);
    BlindApplies(g.schema, runtime, union);
    assert BringsTypeName(g, s, runtime) == Ok(false);
    assert HasTypeNameField(g, [s][1..], runtime) == Ok(false);
    assert NodeCollects(x, runtime, f, f);
    assert Collects(x, runtime, [f], f);
    assert NodeCollects(x, runtime, s, f);
    assert Collects(x, runtime, [s], f);
  }

  // ----- two selections of one key -----

  /** `f`, and `h` in an inline fragment on the object's own type: two selections of one key that an executor merges. */
  function Pair(runtime: string, f: Selection, h: Selection): seq<Selection> {
    [f, InlineFragment(Some(runtime), [], [h])]
  }

  /** The answers to both, as the variables leave them. */
  function Left(x: Executor, f: Selection, h: Selection): seq<Selection> {
    (if Included(x.variables, f.directives) then [f] else []) + (if Included(x.variables, h.directives) then [h] else [])
  }

  lemma PairCollected(x: Executor, runtime: string, f: Selection, h: Selection)
    requires Acyclic(x.fragments) && x.schema.IsObject(runtime) && f.Field? && h.Field? && ResponseKey(f) == ResponseKey(h)
    ensures Collected(x, runtime, Pair(runtime, f, h)) == Left(x, f, h)
    ensures Answers(x, runtime, Pair(runtime, f, h), ResponseKey(f)) == Left(x, f, h)
  {
    var s := InlineFragment(Some(runtime), [], [h]);
    assert CollectFields(x, runtime, [h], {}).0 == CollectNode(x, runtime, h, {}).0 + CollectFields(x, runtime, [], {}).0;
    assert CollectNode(x, runtime, s, {}) == CollectFields(x, runtime, [h], {});
    assert [f, s][1..] == [s] && [s][1..] == [];
    assert CollectFields(x, runtime, [s], {}).0 == CollectNode(x, runtime, s, {}).0 + CollectFields(x, runtime, [], {}).0;
    assert CollectFields(x, runtime, [f, s], {}).0 == CollectNode(x, runtime, f, {}).0 + CollectFields(x, runtime, [s], {}).0;
    assert Collected(x, runtime, [f, s]) == Left(x, f, h);
    GroupedAll(Left(x, f, h), ResponseKey(f));
  }

  /** When a pair answers itself: what is left of it answers what both ask for. */
  ghost predicate PairAnswers(x: Executor, runtime: string, f: Selection, h: Selection)
    requires Acyclic(x.fragments) && x.schema.IsObject(runtime) && f.Field? && h.Field? && f.name in x.schema.types[runtime].fields
  {
    var t, fIn, hIn := x.schema.types[runtime].fields[f.name], Included(x.variables, f.directives), Included(x.variables, h.directives);
    if !fIn && !hIn then !t.NonNull?
    else
      var left := (if fIn then f.selections else []) + (if hIn then h.selections else []);
      forall r | r in x.schema.PossibleTypes(NamedType(t)) && x.schema.IsObject(r) ::
        Covered(x, r, f.selections, left) && Covered(x, r, h.selections, left)
  }

  lemma PairCovered(x: Executor, runtime: string, f: Selection, h: Selection)
    requires Acyclic(x.fragments) && x.schema.Valid() && x.schema.IsObject(runtime) && f.Field? && h.Field?
    requires ResponseKey(f) == ResponseKey(h) && f.name == h.name != "__typename" && f.name in x.schema.types[runtime].fields
    ensures Covered(x, runtime, Pair(runtime, f, h), Pair(runtime, f, h)) <==> PairAnswers(x, runtime, f, h)
  {
    var s, whole := InlineFragment(Some(runtime), [], [h]), Pair(runtime, f, h);
    PairCollected(x, runtime, f, h);
    assert [h][1..] == [] && [f, s][1..] == [s] && [s][1..] == [];
    var left := (if Included(x.variables, f.directives) then f.selections else [])
                + (if Included(x.variables, h.directives) then h.selections else []);
    MergedLeft(x, f, h);
    assert Covered(x, runtime, [h], whole) <==> CoveredNode(x, runtime, h, whole);
    assert CoveredNode(x, runtime, s, whole) <==> CoveredNode(x, runtime, h, whole);
    assert Covered(x, runtime, whole, whole) <==> CoveredNode(x, runtime, f, whole) && CoveredNode(x, runtime, h, whole);
  }

  lemma MergedLeft(x: Executor, f: Selection, h: Selection)
    requires f.Field? && h.Field?
    ensures Merged(Left(x, f, h)) == (if Included(x.variables, f.directives) then f.selections else [])
                                     + (if Included(x.variables, h.directives) then h.selections else [])
  {
    assert Merged([h]) == h.selections + Merged([h][1..]);
    assert Merged([f]) == f.selections + Merged([f][1..]);
    assert [f, h][1..] == [h] && Merged([f, h]) == f.selections + Merged([h]);
    assert [f] + [h] == [f, h] && [f] + [] == [f] && [] + [h] == [h];
  }

  /** Two selections of one key at one object: sound exactly when, for all variables, what is left of them answers both. */
  lemma PairSoundIff(g: Generator, x: Executor, env: TsEnvironment, runtime: string, f: Selection, h: Selection)
    requires Compiled(g, x, env) && Populated(x) && g.schema.IsObject(runtime) && f.Field? && h.Field?
    requires ResponseKey(f) == ResponseKey(h) && f.name == h.name != "__typename" && f.name in g.schema.types[runtime].fields
    requires GenerateSelectionSetForObject(g, Pair(runtime, f, h), runtime, true).Ok? && AlwaysComparable(g, x, runtime, Pair(runtime, f, h))
    ensures AlwaysSound(g, x, env, runtime, Pair(runtime, f, h)) <==>
            forall variables :: PairAnswers(x.(variables := variables), runtime, f, h)
  {
    SoundIffCovered(g, x, env, runtime, Pair(runtime, f, h));
    forall variables
      ensures Covered(x.(variables := variables), runtime, Pair(runtime, f, h), Pair(runtime, f, h)) <==>
              PairAnswers(x.(variables := variables), runtime, f, h)
    {
      PairCovered(x.(variables := variables), runtime, f, h);
    }
  }

  /**
    A field that variables can drop while its key stays selected is not sound if it asks for a non-null field that what
    stays does not select: some response is outside the type.
   */
  lemma ConditionalMergeUnsound(g: Generator, x: Executor, env: TsEnvironment, runtime: string, f: Selection, h: Selection,
                                r: string, k: Selection)
    returns (v: Value)
    requires Compiled(g, x, env) && Populated(x) && g.schema.IsObject(runtime) && f.Field? && h.Field?
    requires ResponseKey(f) == ResponseKey(h) && f.name == h.name != "__typename" && f.name in g.schema.types[runtime].fields
    requires GenerateSelectionSetForObject(g, Pair(runtime, f, h), runtime, true).Ok? && AlwaysComparable(g, x, runtime, Pair(runtime, f, h))
    requires !Included(x.variables, f.directives) && Included(x.variables, h.directives)
    requires r in g.schema.PossibleTypes(NamedType(g.schema.types[runtime].fields[f.name])) && g.schema.IsObject(r)
    requires k in f.selections && k.Field? && k.name != "__typename" && k.name in g.schema.types[r].fields
    requires g.schema.types[r].fields[k.name].NonNull? && Answers(x, r, h.selections, ResponseKey(k)) == []
    ensures Response(x, runtime, Pair(runtime, f, h), v)
    ensures !Inhabits(env, GenerateSelectionSetForObject(g, Pair(runtime, f, h), runtime, true).value, v)
  {
    var whole := Pair(runtime, f, h);
    NotCovered(x, r, f.selections, h.selections, k);
    PairCovered(x, runtime, f, h);
    assert [] + h.selections == h.selections;
    assert x.(variables := x.variables) == x;
    ForObjectParts(g, whole, runtime, true);
    v := Refuted(g, x, env, runtime, whole, whole);
    ObjectExact(g, env, whole, runtime, true, v);
  }

  lemma NotCovered(x: Executor, runtime: string, part: seq<Selection>, whole: seq<Selection>, k: Selection)
    requires Acyclic(x.fragments) && x.schema.IsObject(runtime) && k in part && !CoveredNode(x, runtime, k, whole)
    ensures !Covered(x, runtime, part, whole)
    decreases |part|
  {
    if part[0] != k {
      NotCovered(x, runtime, part[1..], whole, k);
    }
  }

  /** A droppable nullable field is no trouble where no other field of its object has its key. */
  lemma AloneCovered(x: Executor, runtime: string, f: Selection, whole: seq<Selection>)
    requires Acyclic(x.fragments) && x.schema.IsObject(runtime) && f.Field? && f.name in x.schema.types[runtime].fields
    requires f.name != "__typename" && !x.schema.types[runtime].fields[f.name].NonNull?
    requires Answers(x, runtime, whole, ResponseKey(f)) == [f] || Answers(x, runtime, whole, ResponseKey(f)) == []
    requires forall r | r in x.schema.PossibleTypes(NamedType(x.schema.types[runtime].fields[f.name])) && x.schema.IsObject(r) ::
               Covered(x, r, f.selections, f.selections)
    ensures CoveredNode(x, runtime, f, whole)
  {
    assert Merged([f]) == f.selections + Merged([f][1..]) == f.selections;
  }

  /** Why alternatives have to be told apart: one that asks for nothing holds every object, whatever another one lacks. */
  lemma EmptyAlternativeHoldsAll(g: Generator, env: TsEnvironment, selections: seq<Selection>, parent: string, other: string, v: Value)
    requires g.Valid() && GenerateSelectionSet(g, selections, parent).Ok? && v.Obj?
    requires other in g.schema.PossibleTypes(parent) && g.schema.IsObject(other) && !Lifts(g, selections, other)
    requires forall f :: !FieldWritten(g.schema, other, selections, f)
    requires forall name :: !SpreadWritten(g, other, selections, name)
    ensures Inhabits(env, GenerateSelectionSet(g, selections, parent).value, v)
  {
    SelectionSetExact(g, env, selections, parent, v);
    assert HasShape(g, env, selections, other, Lifts(g, selections, other), v);
  }
}
