/** What an emitted type means, told without the emitted type: which values inhabit it, no more and no fewer. */
module SelectionMeaning {
  import opened GraphQLAst
  import opened FragmentClosure
  import opened Schemas
  import opened Execution
  import opened TsTypes
  import opened SelectionTypes
  import opened Coverage
  import opened TypeSoundness

  /** Field `f` is written for `runtime`, directly or within inline fragments that apply. */
  predicate FieldWritten(schema: Schema, runtime: string, selections: seq<Selection>, f: Selection)
    requires schema.IsObject(runtime)
    decreases selections
  {
    selections != [] &&
    ((f == selections[0] && f.Field? && f.name != "__typename")
     || (Entered(schema, runtime, selections[0]) && FieldWritten(schema, runtime, selections[0].selections, f))
     || FieldWritten(schema, runtime, selections[1..], f))
  }

  /** The fragment is spread, directly or within inline fragments that apply, and its own condition holds of `runtime`. */
  predicate SpreadWritten(g: Generator, runtime: string, selections: seq<Selection>, name: string)
    requires g.schema.IsObject(runtime)
    decreases selections
  {
    selections != [] &&
    ((Referenced(g.schema, g.fragments, runtime, selections[0]) && selections[0].name == name)
     || (Entered(g.schema, runtime, selections[0]) && SpreadWritten(g, runtime, selections[0].selections, name))
     || SpreadWritten(g, runtime, selections[1..], name))
  }

  /** An object with every field written for `runtime`, of the fragments spread for it, and of that very `__typename` if lifted. */
  ghost predicate HasShape(g: Generator, env: TsEnvironment, selections: seq<Selection>, runtime: string, lifted: bool, v: Value)
    requires g.schema.IsObject(runtime)
    decreases v, 1
  {
    && v.Obj?
    && (forall f | FieldWritten(g.schema, runtime, selections, f) :: FieldHolds(g, env, runtime, f, v))
    && (forall name | SpreadWritten(g, runtime, selections, name) :: InhabitsFragment(g, env, name, v))
    && (lifted ==> "__typename" in v.fields && v.fields["__typename"] == Str(runtime))
  }

  ghost predicate InhabitsFragment(g: Generator, env: TsEnvironment, name: string, v: Value) {
    name in g.fragments && Inhabits(env, FragmentReference(GenerateFragmentTypeName(g.fragments[name].node.name)), v)
  }

  /** Only a nullable field may be missing. */
  ghost predicate FieldHolds(g: Generator, env: TsEnvironment, runtime: string, f: Selection, v: Value)
    requires g.schema.IsObject(runtime) && v.Obj?
    decreases v, 0
  {
    f.Field? && f.name in g.schema.types[runtime].fields &&
    var t := g.schema.types[runtime].fields[f.name];
    if ResponseKey(f) in v.fields then Means(g, env, f.selections, t, true, v.fields[ResponseKey(f)]) else !t.NonNull?
  }

  ghost predicate Means(g: Generator, env: TsEnvironment, selections: seq<Selection>, t: TypeRef, nullable: bool, v: Value)
    decreases v, 2, t
  {
    match t
    case NonNull(of) => Means(g, env, selections, of, false, v)
    case ListOf(of) =>
      (nullable && v == Null) || (v.Arr? && forall i | 0 <= i < |v.items| :: Means(g, env, selections, of, true, v.items[i]))
    case Named(name) =>
      (nullable && v == Null) ||
      if g.schema.IsComposite(name) then
        exists r | r in g.schema.PossibleTypes(name) && g.schema.IsObject(r) :: HasShape(g, env, selections, r, Lifts(g, selections, r), v)
      else env.leaf(GenerateNamedOutputRef(g.typeMap, name), v)
  }

  ghost predicate Lifts(g: Generator, selections: seq<Selection>, runtime: string)
    requires g.schema.IsObject(runtime)
  {
    g.Valid() && HasTypeNameField(g, selections, runtime) == Ok(true)
  }

  // ----- the parts of an intersection -----

  lemma PartsIff(env: TsEnvironment, literal: Ts, inlineFragments: seq<Ts>, fragmentSpreads: seq<Ts>, v: Value)
    ensures Inhabits(env, Intersection([literal] + Joined(inlineFragments) + Joined(fragmentSpreads)), v) <==>
            && Inhabits(env, literal, v)
            && (forall i | 0 <= i < |inlineFragments| :: Inhabits(env, inlineFragments[i], v))
            && (forall i | 0 <= i < |fragmentSpreads| :: Inhabits(env, fragmentSpreads[i], v))
  {
    var parts := [literal] + Joined(inlineFragments) + Joined(fragmentSpreads);
    JoinedIff(env, inlineFragments, v);
    JoinedIff(env, fragmentSpreads, v);
    if Inhabits(env, Intersection(parts), v) {
      assert parts[0] == literal;
      if inlineFragments != [] {
        assert parts[1] == Intersection(inlineFragments);
      }
      if fragmentSpreads != [] {
        assert parts[|parts| - 1] == Intersection(fragmentSpreads);
      }
    }
  }

  lemma JoinedIff(env: TsEnvironment, parts: seq<Ts>, v: Value)
    ensures Inhabits(env, Intersection(parts), v) <==> forall i | 0 <= i < |parts| :: Inhabits(env, parts[i], v)
  {
  }

  lemma LiteralIff(env: TsEnvironment, fields: seq<Property>, lifted: bool, runtime: string, v: Value)
    ensures Inhabits(env, ObjectLiteral(fields + TypeNameProperty(lifted, runtime)), v) <==>
            && v.Obj?
            && (forall i | 0 <= i < |fields| :: PropertyHolds(env, fields[i], v))
            && (lifted ==> "__typename" in v.fields && v.fields["__typename"] == Str(runtime))
  {
    var p := Property("__typename", false, TypeNameLiteral(runtime));
    var properties := fields + TypeNameProperty(lifted, runtime);
    if v.Obj? && lifted {
      assert properties[|fields|] == p;
      assert PropertyHolds(env, p, v) <==> "__typename" in v.fields && Inhabits(env, TypeNameLiteral(runtime), v.fields["__typename"]);
    }
    if Inhabits(env, ObjectLiteral(properties), v) {
      forall i | 0 <= i < |fields| ensures PropertyHolds(env, fields[i], v) {
        assert properties[i] == fields[i];
      }
    }
  }

  // ----- one selection more -----

  ghost predicate AllFields(g: Generator, env: TsEnvironment, selections: seq<Selection>, runtime: string, v: Value)
    requires g.schema.IsObject(runtime) && v.Obj?
  {
    forall f | FieldWritten(g.schema, runtime, selections, f) :: FieldHolds(g, env, runtime, f, v)
  }

  ghost predicate AllSpreads(g: Generator, env: TsEnvironment, selections: seq<Selection>, runtime: string, v: Value)
    requires g.schema.IsObject(runtime)
  {
    forall name | SpreadWritten(g, runtime, selections, name) :: InhabitsFragment(g, env, name, v)
  }

  ghost predicate AllInhabited(env: TsEnvironment, parts: seq<Ts>, v: Value) {
    forall i | 0 <= i < |parts| :: Inhabits(env, parts[i], v)
  }

  ghost predicate AllHold(env: TsEnvironment, properties: seq<Property>, v: Value) {
    forall i | 0 <= i < |properties| :: PropertyHolds(env, properties[i], v)
  }

  lemma WrittenSplit(g: Generator, env: TsEnvironment, selections: seq<Selection>, runtime: string, v: Value)
    requires g.schema.IsObject(runtime) && v.Obj? && selections != []
    ensures var s, rest := selections[0], selections[1..];
            AllFields(g, env, selections, runtime, v) <==>
            && (s.Field? && s.name != "__typename" ==> FieldHolds(g, env, runtime, s, v))
            && (Entered(g.schema, runtime, s) ==> AllFields(g, env, s.selections, runtime, v))
            && AllFields(g, env, rest, runtime, v)
  {
    var s, rest := selections[0], selections[1..];
    if AllFields(g, env, selections, runtime, v) {
      assert s.Field? && s.name != "__typename" ==> FieldWritten(g.schema, runtime, selections, s);
    }
  }

  lemma SpreadsWrittenSplit(g: Generator, env: TsEnvironment, selections: seq<Selection>, runtime: string, v: Value)
    requires g.schema.IsObject(runtime) && selections != []
    ensures var s, rest := selections[0], selections[1..];
            AllSpreads(g, env, selections, runtime, v) <==>
            && (Referenced(g.schema, g.fragments, runtime, s) ==> InhabitsFragment(g, env, s.name, v))
            && (Entered(g.schema, runtime, s) ==> AllSpreads(g, env, s.selections, runtime, v))
            && AllSpreads(g, env, rest, runtime, v)
  {
    var s := selections[0];
    if AllSpreads(g, env, selections, runtime, v) && Referenced(g.schema, g.fragments, runtime, s) {
      assert SpreadWritten(g, runtime, selections, s.name);
    }
  }

  lemma FieldsSplit(g: Generator, selections: seq<Selection>, runtime: string)
    requires g.Valid() && g.schema.IsObject(runtime) && selections != [] && GenerateFields(g, selections, runtime).Ok?
    ensures GenerateFields(g, selections[1..], runtime).Ok?
    ensures selections[0].Field? && selections[0].name != "__typename" ==> GenerateField(g, selections[0], runtime).Ok?
    ensures GenerateFields(g, selections, runtime).value ==
            (if selections[0].Field? && selections[0].name != "__typename" then [GenerateField(g, selections[0], runtime).value] else [])
            + GenerateFields(g, selections[1..], runtime).value
  {
    assert [] + GenerateFields(g, selections[1..], runtime).value == GenerateFields(g, selections[1..], runtime).value;
  }

  lemma InlineSplit(g: Generator, selections: seq<Selection>, runtime: string)
    requires g.Valid() && g.schema.IsObject(runtime) && selections != [] && GenerateInlineFragments(g, selections, runtime).Ok?
    ensures GenerateInlineFragments(g, selections[1..], runtime).Ok?
    ensures Entered(g.schema, runtime, selections[0]) ==> GenerateSelectionSetForObject(g, selections[0].selections, runtime, false).Ok?
    ensures GenerateInlineFragments(g, selections, runtime).value ==
            (if Entered(g.schema, runtime, selections[0])
             then [GenerateSelectionSetForObject(g, selections[0].selections, runtime, false).value] else [])
            + GenerateInlineFragments(g, selections[1..], runtime).value
  {
  }

  // ----- exactness -----

  /** All parts are generated from the selections of a list. */
  predicate Generates(g: Generator, selections: seq<Selection>, runtime: string)
    requires g.Valid() && g.schema.IsObject(runtime)
  {
    && GenerateFields(g, selections, runtime).Ok? && GenerateInlineFragments(g, selections, runtime).Ok?
    && GenerateFragmentSpreads(g, selections, runtime).Ok?
  }

  ghost predicate AllParts(g: Generator, env: TsEnvironment, selections: seq<Selection>, runtime: string, v: Value)
    requires g.Valid() && g.schema.IsObject(runtime) && Generates(g, selections, runtime)
  {
    && AllHold(env, GenerateFields(g, selections, runtime).value, v)
    && AllInhabited(env, GenerateInlineFragments(g, selections, runtime).value, v)
    && AllInhabited(env, GenerateFragmentSpreads(g, selections, runtime).value, v)
  }

  lemma FirstField(g: Generator, env: TsEnvironment, selections: seq<Selection>, runtime: string, v: Value)
    requires g.Valid() && g.schema.IsObject(runtime) && selections != [] && Generates(g, selections, runtime)
    requires selections[0].Field?
    ensures Generates(g, selections[1..], runtime)
    ensures selections[0].name != "__typename" ==> GenerateField(g, selections[0], runtime).Ok?
    ensures AllParts(g, env, selections, runtime, v) <==>
            (selections[0].name != "__typename" ==> PropertyHolds(env, GenerateField(g, selections[0], runtime).value, v))
            && AllParts(g, env, selections[1..], runtime, v)
  {
    FieldsSplit(g, selections, runtime);
    if selections[0].name != "__typename" {
      OneMoreHolds(env, GenerateField(g, selections[0], runtime).value, GenerateFields(g, selections[1..], runtime).value, v);
    }
    NoInline(g, selections, runtime);
    NoSpread(g, selections, runtime);
  }

  lemma NoInline(g: Generator, selections: seq<Selection>, runtime: string)
    requires g.Valid() && g.schema.IsObject(runtime) && selections != [] && GenerateInlineFragments(g, selections, runtime).Ok?
    requires !Entered(g.schema, runtime, selections[0])
    ensures GenerateInlineFragments(g, selections[1..], runtime) == GenerateInlineFragments(g, selections, runtime)
  {
    InlineSplit(g, selections, runtime);
    assert [] + GenerateInlineFragments(g, selections[1..], runtime).value == GenerateInlineFragments(g, selections[1..], runtime).value;
  }

  lemma NoSpread(g: Generator, selections: seq<Selection>, runtime: string)
    requires g.schema.IsObject(runtime) && selections != [] && GenerateFragmentSpreads(g, selections, runtime).Ok?
    requires !Referenced(g.schema, g.fragments, runtime, selections[0])
    ensures GenerateFragmentSpreads(g, selections[1..], runtime) == GenerateFragmentSpreads(g, selections, runtime)
  {
    SpreadsSplit(g, selections, runtime);
    assert [] + GenerateFragmentSpreads(g, selections[1..], runtime).value == GenerateFragmentSpreads(g, selections[1..], runtime).value;
  }

  lemma FirstInline(g: Generator, env: TsEnvironment, selections: seq<Selection>, runtime: string, v: Value)
    requires g.Valid() && g.schema.IsObject(runtime) && selections != [] && Generates(g, selections, runtime)
    requires selections[0].InlineFragment?
    ensures Generates(g, selections[1..], runtime)
    ensures Entered(g.schema, runtime, selections[0]) ==> GenerateSelectionSetForObject(g, selections[0].selections, runtime, false).Ok?
    ensures AllParts(g, env, selections, runtime, v) <==>
            && (Entered(g.schema, runtime, selections[0]) ==>
                  Inhabits(env, GenerateSelectionSetForObject(g, selections[0].selections, runtime, false).value, v))
            && AllParts(g, env, selections[1..], runtime, v)
  {
    InlineSplit(g, selections, runtime);
    if Entered(g.schema, runtime, selections[0]) {
      OneMoreInhabited(env, GenerateSelectionSetForObject(g, selections[0].selections, runtime, false).value,
                       GenerateInlineFragments(g, selections[1..], runtime).value, v);
    } else {
      NoInline(g, selections, runtime);
    }
    assert GenerateFields(g, selections[1..], runtime) == GenerateFields(g, selections, runtime);
    NoSpread(g, selections, runtime);
  }

  lemma FirstSpread(g: Generator, env: TsEnvironment, selections: seq<Selection>, runtime: string, v: Value)
    requires g.Valid() && g.schema.IsObject(runtime) && selections != [] && Generates(g, selections, runtime)
    requires selections[0].FragmentSpread?
    ensures Generates(g, selections[1..], runtime)
    ensures AllParts(g, env, selections, runtime, v) <==>
            && (Referenced(g.schema, g.fragments, runtime, selections[0]) ==> InhabitsFragment(g, env, selections[0].name, v))
            && AllParts(g, env, selections[1..], runtime, v)
  {
    SpreadsSplit(g, selections, runtime);
    if Referenced(g.schema, g.fragments, runtime, selections[0]) {
      OneMoreInhabited(env, FragmentReference(GenerateFragmentTypeName(g.fragments[selections[0].name].node.name)),
                       GenerateFragmentSpreads(g, selections[1..], runtime).value, v);
    } else {
      NoSpread(g, selections, runtime);
    }
    assert GenerateFields(g, selections[1..], runtime) == GenerateFields(g, selections, runtime);
    NoInline(g, selections, runtime);
  }

  /** The parts generated from a list of selections, and what the list writes. */
  lemma {:induction false} ListExact(g: Generator, env: TsEnvironment, selections: seq<Selection>, runtime: string, v: Value)
    requires g.Valid() && g.schema.IsObject(runtime) && v.Obj? && Generates(g, selections, runtime)
    ensures AllParts(g, env, selections, runtime, v) <==>
            AllFields(g, env, selections, runtime, v) && AllSpreads(g, env, selections, runtime, v)
    decreases v, 1, selections, 0
  {
    if selections != [] {
      WrittenSplit(g, env, selections, runtime, v);
      SpreadsWrittenSplit(g, env, selections, runtime, v);
      match selections[0] {
        case Field(_, name, _, _) =>
          FirstField(g, env, selections, runtime, v);
          if name != "__typename" {
            FieldExact(g, env, selections[0], runtime, v);
          }
        case InlineFragment(_, _, below) =>
          FirstInline(g, env, selections, runtime, v);
          if Entered(g.schema, runtime, selections[0]) {
            ObjectExact(g, env, below, runtime, false, v);
          }
        case FragmentSpread(_, _) =>
          FirstSpread(g, env, selections, runtime, v);
      }
      ListExact(g, env, selections[1..], runtime, v);
    }
  }

  lemma OneMoreHolds(env: TsEnvironment, p: Property, rest: seq<Property>, v: Value)
    ensures AllHold(env, [p] + rest, v) <==> PropertyHolds(env, p, v) && AllHold(env, rest, v)
  {
    assert ([p] + rest)[0] == p && ([p] + rest)[1..] == rest;
    if AllHold(env, [p] + rest, v) {
      forall i | 0 <= i < |rest| ensures PropertyHolds(env, rest[i], v) {
        assert ([p] + rest)[i + 1] == rest[i];
      }
    }
  }

  lemma OneMoreInhabited(env: TsEnvironment, ts: Ts, rest: seq<Ts>, v: Value)
    ensures AllInhabited(env, [ts] + rest, v) <==> Inhabits(env, ts, v) && AllInhabited(env, rest, v)
  {
    assert ([ts] + rest)[0] == ts;
    if AllInhabited(env, [ts] + rest, v) {
      forall i | 0 <= i < |rest| ensures Inhabits(env, rest[i], v) {
        assert ([ts] + rest)[i + 1] == rest[i];
      }
    }
  }

  lemma {:induction false} FieldExact(g: Generator, env: TsEnvironment, f: Selection, runtime: string, v: Value)
    requires g.Valid() && g.schema.IsObject(runtime) && v.Obj? && f.Field? && GenerateField(g, f, runtime).Ok?
    ensures PropertyHolds(env, GenerateField(g, f, runtime).value, v) <==> FieldHolds(g, env, runtime, f, v)
    decreases v, 0
  {
    var t := g.schema.types[runtime].fields[f.name];
    if ResponseKey(f) in v.fields {
      FieldTypeExact(g, env, f.selections, t, true, v.fields[ResponseKey(f)]);
    }
  }

  /** A field's type means what the schema says of the field, at any nesting of lists and non-null. */
  lemma {:induction false} FieldTypeExact(g: Generator, env: TsEnvironment, selections: seq<Selection>, t: TypeRef,
                                          optional: bool, v: Value)
    requires g.Valid() && GenerateFieldType(g, selections, t, optional).Ok?
    ensures Inhabits(env, GenerateFieldType(g, selections, t, optional).value, v) <==> Means(g, env, selections, t, optional, v)
    decreases v, 3, t
  {
    match t
    case NonNull(of) => FieldTypeExact(g, env, selections, of, false, v);
    case ListOf(of) =>
      var item := GenerateFieldType(g, selections, of, true).value;
      if v.Arr? {
        forall i | 0 <= i < |v.items| ensures Inhabits(env, item, v.items[i]) <==> Means(g, env, selections, of, true, v.items[i]) {
          FieldTypeExact(g, env, selections, of, true, v.items[i]);
        }
      }
      ArrayIff(env, item, optional, v);
    case Named(name) =>
      if g.schema.IsComposite(name) {
        SelectionSetExact(g, env, selections, name, v);
      }
  }

  lemma ArrayIff(env: TsEnvironment, item: Ts, optional: bool, v: Value)
    ensures Inhabits(env, GenerateMaybe(Array(item), optional), v) <==>
            (optional && v == Null) || (v.Arr? && forall i | 0 <= i < |v.items| :: Inhabits(env, item, v.items[i]))
  {
    assert Inhabits(env, Array(item), v) <==> v.Arr? && forall i | 0 <= i < |v.items| :: Inhabits(env, item, v.items[i]);
  }

  /** The union means the shapes of all possible types, and nothing else. */
  lemma {:induction false} SelectionSetExact(g: Generator, env: TsEnvironment, selections: seq<Selection>, parent: string, v: Value)
    requires g.Valid() && GenerateSelectionSet(g, selections, parent).Ok?
    ensures Inhabits(env, GenerateSelectionSet(g, selections, parent).value, v) <==>
            exists r | r in g.schema.PossibleTypes(parent) && g.schema.IsObject(r) ::
              HasShape(g, env, selections, r, Lifts(g, selections, r), v)
    decreases v, 2
  {
    var possible := g.schema.PossibleTypes(parent);
    var alternatives := GenerateSelectionSet(g, selections, parent).value.alternatives;
    forall i | 0 <= i < |possible|
      ensures g.schema.IsObject(possible[i])
      ensures Inhabits(env, alternatives[i], v) <==> HasShape(g, env, selections, possible[i], Lifts(g, selections, possible[i]), v)
    {
      AlternativeAt(g, selections, parent, possible, i);
      ObjectExact(g, env, selections, possible[i], true, v);
    }
    if exists r | r in possible && g.schema.IsObject(r) :: HasShape(g, env, selections, r, Lifts(g, selections, r), v) {
      var r :| r in possible && g.schema.IsObject(r) && HasShape(g, env, selections, r, Lifts(g, selections, r), v);
      var i :| 0 <= i < |possible| && possible[i] == r;
      assert Inhabits(env, alternatives[i], v);
    }
    UnionIff(env, alternatives, v);
  }

  lemma UnionIff(env: TsEnvironment, alternatives: seq<Ts>, v: Value)
    ensures Inhabits(env, Union(alternatives), v) <==> exists i | 0 <= i < |alternatives| :: Inhabits(env, alternatives[i], v)
  {
  }

  /** An intersection, however deeply inline fragments nest, means the flat list of what is written for its type. */
  lemma {:induction false} ObjectExact(g: Generator, env: TsEnvironment, selections: seq<Selection>, runtime: string,
                                       withTypeNameField: bool, v: Value)
    requires g.Valid() && g.schema.IsObject(runtime)
    requires GenerateSelectionSetForObject(g, selections, runtime, withTypeNameField).Ok?
    ensures Inhabits(env, GenerateSelectionSetForObject(g, selections, runtime, withTypeNameField).value, v) <==>
            HasShape(g, env, selections, runtime, withTypeNameField && Lifts(g, selections, runtime), v)
    decreases v, 1, selections, 2
  {
    ForObjectParts(g, selections, runtime, withTypeNameField);
    var lifted := withTypeNameField && Lifts(g, selections, runtime);
    var fields := GenerateFields(g, selections, runtime).value;
    var inlineFragments := GenerateInlineFragments(g, selections, runtime).value;
    var fragmentSpreads := GenerateFragmentSpreads(g, selections, runtime).value;
    PartsIff(env, ObjectLiteral(fields + TypeNameProperty(lifted, runtime)), inlineFragments, fragmentSpreads, v);
    LiteralIff(env, fields, lifted, runtime, v);
    if v.Obj? {
      ListExact(g, env, selections, runtime, v);
    }
  }

  /** A reference to a fragment type means the shapes of the fragment's own possible types. */
  lemma FragmentExact(g: Generator, env: TsEnvironment, name: string, v: Value)
    requires g.Valid() && FragmentTypesExported(g, env) && name in g.fragments
    ensures var node := g.fragments[name].node;
            InhabitsFragment(g, env, name, v) <==>
            exists r | r in g.schema.PossibleTypes(node.typeCondition) && g.schema.IsObject(r) ::
              HasShape(g, env, node.selections, r, Lifts(g, node.selections, r), v)
  {
    var node := g.fragments[name].node;
    SelectionSetExact(g, env, node.selections, node.typeCondition, v);
    assert GenerateFragmentType(g, node) == Ok(env.fragmentTypes[GenerateFragmentTypeName(name)]);
  }
}
