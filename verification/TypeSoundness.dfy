/** Every response of an operation inhabits the type generated for it. */
module TypeSoundness {
  import opened GraphQLAst
  import opened FragmentClosure
  import opened Schemas
  import opened Execution
  import opened TsTypes
  import opened SelectionTypes
  import opened Coverage

  // ----- what soundness depends on -----

  /** The emitted fragment types are in scope, and user-mapped scalars hold what the server serialises. */
  ghost predicate Compiled(g: Generator, x: Executor, env: TsEnvironment) {
    && g.Valid() && x.schema == g.schema && x.fragments == g.fragments
    && FragmentTypesExported(g, env)
    && forall name, v | name in g.schema.types && !g.schema.IsComposite(name) && x.serializes(name, v) ::
         env.leaf(GenerateNamedOutputRef(g.typeMap, name), v)
  }

  ghost predicate FragmentTypesExported(g: Generator, env: TsEnvironment)
    requires g.Valid()
  {
    forall name | name in g.fragments ::
      && g.fragments[name].node.name == name
      && GenerateFragmentTypeName(name) in env.fragmentTypes
      && GenerateFragmentType(g, g.fragments[name].node) == Ok(env.fragmentTypes[GenerateFragmentTypeName(name)])
  }

  // ----- soundness, along the response -----

  lemma {:induction false} FieldTypeSound(g: Generator, x: Executor, env: TsEnvironment, part: seq<Selection>,
                                          whole: seq<Selection>, t: TypeRef, optional: bool, ts: Ts, v: Value)
    requires Compiled(g, x, env) && NamedType(t) in g.schema.types
    requires forall r | r in g.schema.PossibleTypes(NamedType(t)) && g.schema.IsObject(r) :: Covered(x, r, part, whole)
    requires GenerateFieldType(g, part, t, optional) == Ok(ts)
    requires Completes(x, t, whole, v) && (optional || v != Null)
    ensures Inhabits(env, ts, v)
    decreases v, 3, t
  {
    match t
    case NonNull(of) => FieldTypeSound(g, x, env, part, whole, of, false, ts, v);
    case ListOf(of) =>
      var item := GenerateFieldType(g, part, of, true).value;
      if v.Arr? {
        forall i | 0 <= i < |v.items| ensures Inhabits(env, item, v.items[i]) {
          FieldTypeSound(g, x, env, part, whole, of, true, item, v.items[i]);
        }
        assert Inhabits(env, Array(item), v);
      }
    case Named(name) =>
      if v != Null && g.schema.IsComposite(name) {
        var runtime :| runtime in x.schema.PossibleTypes(name) && Response(x, runtime, whole, v);
        SelectionSetSound(g, x, env, part, whole, name, runtime, v);
      }
  }

  lemma {:induction false} SelectionSetSound(g: Generator, x: Executor, env: TsEnvironment, part: seq<Selection>,
                                             whole: seq<Selection>, parent: string, runtime: string, v: Value)
    requires Compiled(g, x, env) && runtime in g.schema.PossibleTypes(parent) && g.schema.IsObject(runtime)
    requires Covered(x, runtime, part, whole) && GenerateSelectionSet(g, part, parent).Ok?
    requires Response(x, runtime, whole, v)
    ensures Inhabits(env, GenerateSelectionSet(g, part, parent).value, v)
    ensures forall i | 0 <= i < |g.schema.PossibleTypes(parent)| && g.schema.PossibleTypes(parent)[i] == runtime ::
              Inhabits(env, GenerateSelectionSet(g, part, parent).value.alternatives[i], v)
    decreases v, 2, RankOf(g.fragments, part), part, 3
  {
    var possible := g.schema.PossibleTypes(parent);
    var union := GenerateSelectionSet(g, part, parent).value;
    forall i | 0 <= i < |possible| && possible[i] == runtime ensures Inhabits(env, union.alternatives[i], v) {
      AlternativeAt(g, part, parent, possible, i);
      ForObjectSound(g, x, env, part, whole, runtime, true, v);
    }
    var i :| 0 <= i < |possible| && possible[i] == runtime;
    assert Inhabits(env, union.alternatives[i], v);
  }

  lemma AlternativeAt(g: Generator, selections: seq<Selection>, parent: string, possible: seq<string>, i: nat)
    requires g.Valid() && (forall t | t in possible :: t in g.schema.PossibleTypes(parent)) && i < |possible|
    requires GenerateAlternatives(g, selections, parent, possible).Ok?
    ensures g.schema.IsObject(possible[i])
    ensures GenerateSelectionSetForObject(g, selections, possible[i], true)
            == Ok(GenerateAlternatives(g, selections, parent, possible).value[i])
  {
    g.schema.PossibleAreObjects(parent, possible[i]);
    if i > 0 {
      AlternativeAt(g, selections, parent, possible[1..], i - 1);
    }
  }

  lemma {:induction false} ForObjectSound(g: Generator, x: Executor, env: TsEnvironment, part: seq<Selection>,
                                          whole: seq<Selection>, runtime: string, withTypeNameField: bool, v: Value)
    requires Compiled(g, x, env) && g.schema.IsObject(runtime) && Covered(x, runtime, part, whole)
    requires GenerateSelectionSetForObject(g, part, runtime, withTypeNameField).Ok?
    requires Response(x, runtime, whole, v)
    ensures Inhabits(env, GenerateSelectionSetForObject(g, part, runtime, withTypeNameField).value, v)
    decreases v, 2, RankOf(g.fragments, part), part, 2
  {
    ForObjectParts(g, part, runtime, withTypeNameField);
    var typeName := if withTypeNameField then HasTypeNameField(g, part, runtime).value else false;
    FieldsSound(g, x, env, part, whole, runtime, v);
    InlineFragmentsSound(g, x, env, part, whole, runtime, v);
    FragmentSpreadsSound(g, x, env, part, whole, runtime, v);
    if typeName {
      TypeNameSound(g, x, part, whole, runtime, v);
    }
    PartsTogether(env, GenerateFields(g, part, runtime).value, TypeNameProperty(typeName, runtime),
                  GenerateInlineFragments(g, part, runtime).value, GenerateFragmentSpreads(g, part, runtime).value, v);
  }

  lemma ForObjectParts(g: Generator, selections: seq<Selection>, runtime: string, withTypeNameField: bool)
    requires g.Valid() && g.schema.IsObject(runtime)
    requires GenerateSelectionSetForObject(g, selections, runtime, withTypeNameField).Ok?
    ensures withTypeNameField ==> HasTypeNameField(g, selections, runtime).Ok?
    ensures GenerateFields(g, selections, runtime).Ok? && GenerateInlineFragments(g, selections, runtime).Ok?
    ensures GenerateFragmentSpreads(g, selections, runtime).Ok?
    ensures var typeName := if withTypeNameField then HasTypeNameField(g, selections, runtime).value else false;
            GenerateSelectionSetForObject(g, selections, runtime, withTypeNameField).value ==
            Intersection([ObjectLiteral(GenerateFields(g, selections, runtime).value + TypeNameProperty(typeName, runtime))]
                         + Joined(GenerateInlineFragments(g, selections, runtime).value)
                         + Joined(GenerateFragmentSpreads(g, selections, runtime).value))
  {
  }

  lemma PartsTogether(env: TsEnvironment, fields: seq<Property>, typeName: seq<Property>, inlineFragments: seq<Ts>,
                      fragmentSpreads: seq<Ts>, v: Value)
    requires v.Obj? && forall i | 0 <= i < |fields| :: PropertyHolds(env, fields[i], v)
    requires forall i | 0 <= i < |typeName| :: PropertyHolds(env, typeName[i], v)
    requires forall i | 0 <= i < |inlineFragments| :: Inhabits(env, inlineFragments[i], v)
    requires forall i | 0 <= i < |fragmentSpreads| :: Inhabits(env, fragmentSpreads[i], v)
    ensures Inhabits(env, Intersection([ObjectLiteral(fields + typeName)] + Joined(inlineFragments) + Joined(fragmentSpreads)), v)
  {
    assert Inhabits(env, ObjectLiteral(fields + typeName), v);
    assert Inhabits(env, Intersection(inlineFragments), v);
    assert Inhabits(env, Intersection(fragmentSpreads), v);
  }

  lemma {:induction false} FieldsSound(g: Generator, x: Executor, env: TsEnvironment, part: seq<Selection>,
                                       whole: seq<Selection>, runtime: string, v: Value)
    requires Compiled(g, x, env) && g.schema.IsObject(runtime) && Covered(x, runtime, part, whole)
    requires GenerateFields(g, part, runtime).Ok? && Response(x, runtime, whole, v)
    ensures forall i | 0 <= i < |GenerateFields(g, part, runtime).value| ::
              PropertyHolds(env, GenerateFields(g, part, runtime).value[i], v)
    decreases v, 1, part
  {
    if part != [] {
      FieldsSound(g, x, env, part[1..], whole, runtime, v);
      if part[0].Field? && part[0].name != "__typename" {
        FieldSound(g, x, env, part[0], whole, runtime, v);
      }
    }
  }

  lemma {:induction false} FieldSound(g: Generator, x: Executor, env: TsEnvironment, f: Selection,
                                      whole: seq<Selection>, runtime: string, v: Value)
    requires Compiled(g, x, env) && g.schema.IsObject(runtime) && CoveredNode(x, runtime, f, whole)
    requires f.Field? && f.name != "__typename" && GenerateField(g, f, runtime).Ok?
    requires Response(x, runtime, whole, v)
    ensures PropertyHolds(env, GenerateField(g, f, runtime).value, v)
    decreases v, 0
  {
    var key, t := ResponseKey(f), g.schema.types[runtime].fields[f.name];
    var answers := Answers(x, runtime, whole, key);
    if key in v.fields {
      assert answers[0].name == f.name;
      FieldTypeSound(g, x, env, f.selections, Merged(answers), t, true, GenerateFieldType(g, f.selections, t, true).value, v.fields[key]);
    } else if answers != [] {
      var h := FirstAnswer(x, runtime, whole, key);
    }
  }

  lemma {:induction false} InlineFragmentsSound(g: Generator, x: Executor, env: TsEnvironment, part: seq<Selection>,
                                                whole: seq<Selection>, runtime: string, v: Value)
    requires Compiled(g, x, env) && g.schema.IsObject(runtime) && Covered(x, runtime, part, whole)
    requires GenerateInlineFragments(g, part, runtime).Ok? && Response(x, runtime, whole, v)
    ensures forall i | 0 <= i < |GenerateInlineFragments(g, part, runtime).value| ::
              Inhabits(env, GenerateInlineFragments(g, part, runtime).value[i], v)
    decreases v, 2, RankOf(g.fragments, part), part, 1
  {
    if part != [] {
      RanksBelow(g.fragments, part);
      InlineFragmentsSound(g, x, env, part[1..], whole, runtime, v);
      if Entered(g.schema, runtime, part[0]) {
        ForObjectSound(g, x, env, part[0].selections, whole, runtime, false, v);
      }
    }
  }

  lemma SpreadsSplit(g: Generator, selections: seq<Selection>, runtime: string)
    requires g.schema.IsObject(runtime) && selections != [] && GenerateFragmentSpreads(g, selections, runtime).Ok?
    ensures GenerateFragmentSpreads(g, selections[1..], runtime).Ok?
    ensures selections[0].FragmentSpread? ==> selections[0].name in g.fragments
    ensures GenerateFragmentSpreads(g, selections, runtime).value ==
            (if selections[0].FragmentSpread? && CheckTypeCondition(g.schema, g.fragments[selections[0].name].node.typeCondition, runtime)
             then [FragmentReference(GenerateFragmentTypeName(g.fragments[selections[0].name].node.name))] else [])
            + GenerateFragmentSpreads(g, selections[1..], runtime).value
  {
  }

  lemma {:induction false} FragmentSpreadsSound(g: Generator, x: Executor, env: TsEnvironment, part: seq<Selection>,
                                                whole: seq<Selection>, runtime: string, v: Value)
    requires Compiled(g, x, env) && g.schema.IsObject(runtime) && Covered(x, runtime, part, whole)
    requires GenerateFragmentSpreads(g, part, runtime).Ok? && Response(x, runtime, whole, v)
    ensures forall i | 0 <= i < |GenerateFragmentSpreads(g, part, runtime).value| ::
              Inhabits(env, GenerateFragmentSpreads(g, part, runtime).value[i], v)
    decreases v, 2, RankOf(g.fragments, part), part, 1
  {
    if part != [] {
      RanksBelow(g.fragments, part);
      SpreadsSplit(g, part, runtime);
      FragmentSpreadsSound(g, x, env, part[1..], whole, runtime, v);
      if Referenced(g.schema, g.fragments, runtime, part[0]) {
        FragmentSpreadSound(g, x, env, part, whole, runtime, v);
      }
    }
  }

  lemma {:induction false} FragmentSpreadSound(g: Generator, x: Executor, env: TsEnvironment, part: seq<Selection>,
                                               whole: seq<Selection>, runtime: string, v: Value)
    requires Compiled(g, x, env) && g.schema.IsObject(runtime) && part != []
    requires Referenced(g.schema, g.fragments, runtime, part[0]) && CoveredNode(x, runtime, part[0], whole)
    requires Response(x, runtime, whole, v)
    ensures Inhabits(env, FragmentReference(GenerateFragmentTypeName(g.fragments[part[0].name].node.name)), v)
    decreases v, 2, RankOf(g.fragments, part), part, 0
  {
    RanksBelow(g.fragments, part);
    var node := g.fragments[part[0].name].node;
    ConditionApplies(g.schema, node.typeCondition, runtime);
    SelectionSetSound(g, x, env, node.selections, whole, node.typeCondition, runtime, v);
  }

  // ----- __typename -----

  lemma {:induction false} TypeNameDemanded(g: Generator, x: Executor, part: seq<Selection>, whole: seq<Selection>, runtime: string)
    requires g.Valid() && x.schema == g.schema && x.fragments == g.fragments && g.schema.IsObject(runtime)
    requires Covered(x, runtime, part, whole) && HasTypeNameField(g, part, runtime) == Ok(true)
    ensures TypeNameAnswered(x, runtime, whole)
    decreases RankOf(g.fragments, part), part
  {
    RanksBelow(g.fragments, part);
    if BringsTypeName(g, part[0], runtime) == Ok(true) {
      match part[0]
      case Field(_, _, _, _) =>
      case InlineFragment(_, _, below) => TypeNameDemanded(g, x, below, whole, runtime);
      case FragmentSpread(name, _) => TypeNameDemanded(g, x, g.fragments[name].node.selections, whole, runtime);
    } else {
      TypeNameDemanded(g, x, part[1..], whole, runtime);
    }
  }

  lemma TypeNameSound(g: Generator, x: Executor, part: seq<Selection>, whole: seq<Selection>, runtime: string, v: Value)
    requires g.Valid() && x.schema == g.schema && x.fragments == g.fragments && g.schema.IsObject(runtime)
    requires Covered(x, runtime, part, whole) && HasTypeNameField(g, part, runtime) == Ok(true)
    requires Response(x, runtime, whole, v)
    ensures "__typename" in v.fields && v.fields["__typename"] == Str(runtime)
  {
    TypeNameDemanded(g, x, part, whole, runtime);
    var f :| f in Answers(x, runtime, whole, "__typename") && f.name == "__typename";
    assert f in Collected(x, runtime, whole);
  }
}
