/** A generated type is sound exactly when what it asks for is answered, whatever the variables drop. */
module SoundnessExact {
  import opened GraphQLAst
  import opened FragmentClosure
  import opened Schemas
  import opened Execution
  import opened TsTypes
  import opened SelectionTypes
  import opened Coverage
  import opened TypeSoundness
  import opened SelectionMeaning

  /** Whatever the operation's variables, all responses to the selection set inhabit its type. */
  ghost predicate AlwaysSound(g: Generator, x: Executor, env: TsEnvironment, runtime: string, selections: seq<Selection>)
    requires g.Valid() && x.schema == g.schema && x.fragments == g.fragments && g.schema.IsObject(runtime)
    requires GenerateSelectionSetForObject(g, selections, runtime, true).Ok?
  {
    forall variables, v | Response(x.(variables := variables), runtime, selections, v) ::
      Inhabits(env, GenerateSelectionSetForObject(g, selections, runtime, true).value, v)
  }

  // ----- how deep fields nest once fragments are inlined -----

  ghost function FieldDepth(fragments: FragmentMap, selections: seq<Selection>): nat
    requires Acyclic(fragments)
    decreases RankOf(fragments, selections), selections
  {
    if selections == [] then 0 else Max(NodeDepth(fragments, selections[0]), FieldDepth(fragments, selections[1..]))
  }

  ghost function NodeDepth(fragments: FragmentMap, s: Selection): nat
    requires Acyclic(fragments)
    decreases NodeRank(Ranking(fragments), s), s
  {
    match s
    case Field(_, _, _, below) => 1 + FieldDepth(fragments, below)
    case InlineFragment(_, _, below) => FieldDepth(fragments, below)
    case FragmentSpread(name, _) => if name in fragments then FieldDepth(fragments, fragments[name].node.selections) else 0
  }

  lemma {:induction false} CollectedShallower(x: Executor, runtime: string, selections: seq<Selection>, f: Selection)
    requires Acyclic(x.fragments) && Collects(x, runtime, selections, f) && f.Field?
    ensures FieldDepth(x.fragments, f.selections) < FieldDepth(x.fragments, selections)
    decreases RankOf(x.fragments, selections), selections
  {
    RanksBelow(x.fragments, selections);
    if NodeCollects(x, runtime, selections[0], f) {
      match selections[0]
      case Field(_, _, _, _) =>
      case InlineFragment(_, _, below) => CollectedShallower(x, runtime, below, f);
      case FragmentSpread(name, _) => CollectedShallower(x, runtime, x.fragments[name].node.selections, f);
    } else {
      CollectedShallower(x, runtime, selections[1..], f);
    }
  }

  lemma DepthConcat(fragments: FragmentMap, a: seq<Selection>, b: seq<Selection>)
    requires Acyclic(fragments)
    ensures FieldDepth(fragments, a + b) == Max(FieldDepth(fragments, a), FieldDepth(fragments, b))
    decreases |a|
  {
    if a == [] {
      assert a + b == b;
    } else {
      assert (a + b)[1..] == a[1..] + b && (a + b)[0] == a[0];
      DepthConcat(fragments, a[1..], b);
    }
  }

  lemma {:induction false} MergedDepth(fragments: FragmentMap, fields: seq<Selection>, bound: nat)
    requires Acyclic(fragments) && bound > 0
    requires forall f | f in fields :: f.Field? && FieldDepth(fragments, f.selections) < bound
    ensures FieldDepth(fragments, Merged(fields)) < bound
  {
    if fields != [] {
      MergedDepth(fragments, fields[1..], bound);
      DepthConcat(fragments, fields[0].selections, Merged(fields[1..]));
    }
  }

  lemma AnswersShallower(x: Executor, runtime: string, whole: seq<Selection>, key: string)
    requires Acyclic(x.fragments) && Answers(x, runtime, whole, key) != []
    ensures FieldDepth(x.fragments, Merged(Answers(x, runtime, whole, key))) < FieldDepth(x.fragments, whole)
  {
    var answers := Answers(x, runtime, whole, key);
    forall f | f in answers ensures FieldDepth(x.fragments, f.selections) < FieldDepth(x.fragments, whole) {
      CollectFieldsExact(x, runtime, whole, f);
      CollectedShallower(x, runtime, whole, f);
    }
    assert answers[0] in answers;
    MergedDepth(x.fragments, answers, FieldDepth(x.fragments, whole));
  }

  // ----- what validation and a schema with values guarantee -----

  /** Every composite type has a possible type, and every leaf type a value. */
  ghost predicate Populated(x: Executor) {
    && (forall name | x.schema.IsComposite(name) :: exists r :: r in x.schema.PossibleTypes(name) && x.schema.IsObject(r))
    && (forall name | name in x.schema.types && !x.schema.IsComposite(name) :: exists v :: v != Null && x.serializes(name, v))
  }

  /** Sections 5.3.1 and 5.3.2 for what is executed; and no field but `__typename` answers under that name. */
  ghost predicate Validated(x: Executor, runtime: string, whole: seq<Selection>)
    requires Acyclic(x.fragments) && x.schema.IsObject(runtime)
    decreases FieldDepth(x.fragments, whole)
  {
    var collected, fields := Collected(x, runtime, whole), x.schema.types[runtime].fields;
    && (forall f | f in collected :: (f.name == "__typename" || f.name in fields) && (ResponseKey(f) == "__typename" ==> f.name == "__typename"))
    && (forall f, h | f in collected && h in collected && ResponseKey(f) == ResponseKey(h) :: f.name == h.name)
    && forall key | Answers(x, runtime, whole, key) != [] && Answers(x, runtime, whole, key)[0].name in fields ::
         forall r | r in x.schema.PossibleTypes(NamedType(fields[Answers(x, runtime, whole, key)[0].name])) && x.schema.IsObject(r) ::
           (AnswersShallower(x, runtime, whole, key); Validated(x, r, Merged(Answers(x, runtime, whole, key))))
  }

  ghost predicate IsAnswer(x: Executor, runtime: string, whole: seq<Selection>, key: string, v: Value)
    requires Acyclic(x.fragments) && x.schema.IsObject(runtime)
  {
    var answers := Answers(x, runtime, whole, key);
    && answers != []
    && if answers[0].name == "__typename" then v == Str(runtime)
       else answers[0].name in x.schema.types[runtime].fields &&
            Completes(x, x.schema.types[runtime].fields[answers[0].name], Merged(answers), v)
  }

  /** A response is one answer for every key. */
  lemma ResponseIff(x: Executor, runtime: string, whole: seq<Selection>, v: Value)
    requires Acyclic(x.fragments) && x.schema.IsObject(runtime) && Validated(x, runtime, whole) && v.Obj?
    ensures Response(x, runtime, whole, v) <==>
            && (forall f | f in Collected(x, runtime, whole) :: ResponseKey(f) in v.fields)
            && forall key | key in v.fields :: IsAnswer(x, runtime, whole, key, v.fields[key])
  {
    forall key | key in v.fields && Answers(x, runtime, whole, key) != []
      ensures forall f | f in Answers(x, runtime, whole, key) :: f.name == Answers(x, runtime, whole, key)[0].name
    {
      var first := FirstAnswer(x, runtime, whole, key);
    }
  }

  lemma {:induction false} SomeResponse(x: Executor, runtime: string, whole: seq<Selection>) returns (v: Value)
    requires Acyclic(x.fragments) && x.schema.Valid() && Populated(x) && x.schema.IsObject(runtime) && Validated(x, runtime, whole)
    ensures Response(x, runtime, whole, v)
    decreases FieldDepth(x.fragments, whole), 1
  {
    var keys := set f | f in Collected(x, runtime, whole) :: ResponseKey(f);
    forall key | key in keys ensures exists w :: IsAnswer(x, runtime, whole, key, w) {
      var w := SomeAnswer(x, runtime, whole, key);
    }
    v := Obj(map key | key in keys :: AnAnswer(x, runtime, whole, key));
    ResponseIff(x, runtime, whole, v);
  }

  ghost function AnAnswer(x: Executor, runtime: string, whole: seq<Selection>, key: string): (w: Value)
    requires Acyclic(x.fragments) && x.schema.IsObject(runtime) && exists w :: IsAnswer(x, runtime, whole, key, w)
    ensures IsAnswer(x, runtime, whole, key, w)
  {
    var w :| IsAnswer(x, runtime, whole, key, w);
    w
  }

  lemma {:induction false} SomeAnswer(x: Executor, runtime: string, whole: seq<Selection>, key: string) returns (w: Value)
    requires Acyclic(x.fragments) && x.schema.Valid() && Populated(x) && x.schema.IsObject(runtime) && Validated(x, runtime, whole)
    requires exists f | f in Collected(x, runtime, whole) :: ResponseKey(f) == key
    ensures IsAnswer(x, runtime, whole, key, w)
    decreases FieldDepth(x.fragments, whole), 0
  {
    var f :| f in Collected(x, runtime, whole) && ResponseKey(f) == key;
    assert f in Answers(x, runtime, whole, key);
    var answers, fields := Answers(x, runtime, whole, key), x.schema.types[runtime].fields;
    var first := FirstAnswer(x, runtime, whole, key);
    if first.name == "__typename" {
      w := Str(runtime);
    } else {
      var t := fields[first.name];
      AnswersShallower(x, runtime, whole, key);
      forall r | r in x.schema.PossibleTypes(NamedType(t)) && x.schema.IsObject(r) ensures Validated(x, r, Merged(answers)) {
      }
      assert x.schema.types[runtime].ObjectType?;
      w := SomeValue(x, t, Merged(answers), FieldDepth(x.fragments, whole));
    }
  }

  lemma {:induction false} SomeValue(x: Executor, t: TypeRef, whole: seq<Selection>, depth: nat) returns (w: Value)
    requires Acyclic(x.fragments) && x.schema.Valid() && Populated(x) && NamedType(t) in x.schema.types
    requires FieldDepth(x.fragments, whole) < depth
    requires forall r | r in x.schema.PossibleTypes(NamedType(t)) && x.schema.IsObject(r) :: Validated(x, r, whole)
    ensures Completes(x, t, whole, w) && w != Null
    decreases FieldDepth(x.fragments, whole), 2, t
  {
    match t
    case NonNull(of) => w := SomeValue(x, of, whole, depth);
    case ListOf(of) => w := Arr([]);
    case Named(name) =>
      if x.schema.IsComposite(name) {
        var r :| r in x.schema.PossibleTypes(name) && x.schema.IsObject(r);
        w := SomeResponse(x, r, whole);
      } else {
        w :| w != Null && x.serializes(name, w);
      }
  }

  // ----- when an object's own alternative is the only one it can inhabit -----

  /** One possible type, or a lifted `__typename` that tells them apart. */
  ghost predicate Told(g: Generator, selections: seq<Selection>, parent: string) {
    var possible := g.schema.PossibleTypes(parent);
    (forall q, r | q in possible && r in possible :: q == r) ||
    forall r | r in possible && g.schema.IsObject(r) :: Lifts(g, selections, r)
  }

  /**
    Wherever the type of `part` offers alternatives, they are told apart; and what answers a field is a field of the
    same name (section 5.3.2 for fields that are dropped, too).
   */
  ghost predicate Comparable(g: Generator, x: Executor, runtime: string, part: seq<Selection>, whole: seq<Selection>)
    requires Acyclic(x.fragments) && x.schema.IsObject(runtime) && x.schema == g.schema
    decreases RankOf(x.fragments, part), part
  {
    part == [] || (ComparableNode(g, x, runtime, part[0], whole) && Comparable(g, x, runtime, part[1..], whole))
  }

  ghost predicate ComparableNode(g: Generator, x: Executor, runtime: string, s: Selection, whole: seq<Selection>)
    requires Acyclic(x.fragments) && x.schema.IsObject(runtime) && x.schema == g.schema
    decreases NodeRank(Ranking(x.fragments), s), s
  {
    match s
    case Field(_, name, _, below) =>
      var answers, fields := Answers(x, runtime, whole, ResponseKey(s)), x.schema.types[runtime].fields;
      name != "__typename" && name in fields && answers != [] ==>
        && answers[0].name == name && Told(g, below, NamedType(fields[name]))
        && forall r | r in x.schema.PossibleTypes(NamedType(fields[name])) && x.schema.IsObject(r) ::
             Comparable(g, x, r, below, Merged(answers))
    case InlineFragment(_, _, below) => Entered(x.schema, runtime, s) ==> Comparable(g, x, runtime, below, whole)
    case FragmentSpread(name, _) =>
      Referenced(x.schema, x.fragments, runtime, s) ==>
        && Told(g, x.fragments[name].node.selections, x.fragments[name].node.typeCondition)
        && Comparable(g, x, runtime, x.fragments[name].node.selections, whole)
  }

  /** A response for `runtime` has no other shape that is told apart from its own. */
  lemma OwnShapeOnly(g: Generator, x: Executor, env: TsEnvironment, selections: seq<Selection>, parent: string,
                     runtime: string, whole: seq<Selection>, v: Value)
    requires g.Valid() && x.schema == g.schema && x.fragments == g.fragments && Told(g, selections, parent)
    requires runtime in g.schema.PossibleTypes(parent) && g.schema.IsObject(runtime)
    requires Validated(x, runtime, whole) && Response(x, runtime, whole, v)
    requires !HasShape(g, env, selections, runtime, Lifts(g, selections, runtime), v)
    ensures forall r | r in g.schema.PossibleTypes(parent) && g.schema.IsObject(r) ::
              !HasShape(g, env, selections, r, Lifts(g, selections, r), v)
  {
    if "__typename" in v.fields {
      var first := FirstAnswer(x, runtime, whole, "__typename");
      assert v.fields["__typename"] == Str(runtime);
    }
  }

  // ----- from an unanswered field to a response outside the type -----

  /** The values of a field's type do not stop at its lists. */
  function Wrapped(t: TypeRef, v: Value): Value {
    match t
    case NonNull(of) => Wrapped(of, v)
    case ListOf(of) => Arr([Wrapped(of, v)])
    case Named(_) => v
  }

  lemma {:induction false} WrappedFails(g: Generator, x: Executor, env: TsEnvironment, selections: seq<Selection>, t: TypeRef,
                                        nullable: bool, runtime: string, whole: seq<Selection>, v: Value)
    requires Acyclic(x.fragments) && x.schema == g.schema && x.schema.IsComposite(NamedType(t))
    requires runtime in x.schema.PossibleTypes(NamedType(t)) && Response(x, runtime, whole, v)
    requires forall r | r in g.schema.PossibleTypes(NamedType(t)) && g.schema.IsObject(r) ::
               !HasShape(g, env, selections, r, Lifts(g, selections, r), v)
    ensures Wrapped(t, v) != Null && Completes(x, t, whole, Wrapped(t, v))
    ensures !Means(g, env, selections, t, nullable, Wrapped(t, v))
    decreases t
  {
    match t
    case NonNull(of) => WrappedFails(g, x, env, selections, of, false, runtime, whole, v);
    case ListOf(of) =>
      WrappedFails(g, x, env, selections, of, true, runtime, whole, v);
      assert Wrapped(t, v).items[0] == Wrapped(of, v);
    case Named(_) =>
  }

  /** One answer is replaced by another. */
  lemma OtherAnswer(x: Executor, runtime: string, whole: seq<Selection>, v: Value, key: string, w: Value)
    requires Acyclic(x.fragments) && x.schema.IsObject(runtime) && Validated(x, runtime, whole)
    requires Response(x, runtime, whole, v) && IsAnswer(x, runtime, whole, key, w)
    ensures Response(x, runtime, whole, Obj(v.fields[key := w]))
  {
    var u := Obj(v.fields[key := w]);
    ResponseIff(x, runtime, whole, v);
    ResponseIff(x, runtime, whole, u);
    forall k | k in u.fields ensures IsAnswer(x, runtime, whole, k, u.fields[k]) {
    }
  }

  /** What the search for a counterexample relies on. */
  ghost predicate Comparing(g: Generator, x: Executor, env: TsEnvironment, runtime: string, part: seq<Selection>, whole: seq<Selection>) {
    && Compiled(g, x, env) && Populated(x) && g.schema.IsObject(runtime)
    && Validated(x, runtime, whole) && Comparable(g, x, runtime, part, whole)
    && Generates(g, part, runtime)
  }

  ghost predicate Shaped(g: Generator, env: TsEnvironment, part: seq<Selection>, runtime: string, v: Value)
    requires g.schema.IsObject(runtime)
  {
    HasShape(g, env, part, runtime, Lifts(g, part, runtime), v)
  }

  /** The shape of a selection set is that of its first selection and that of the rest. */
  lemma ShapeSplits(g: Generator, env: TsEnvironment, part: seq<Selection>, runtime: string, v: Value)
    requires g.Valid() && g.schema.IsObject(runtime) && part != []
    requires HasTypeNameField(g, part, runtime).Ok? && Shaped(g, env, part, runtime, v)
    ensures Shaped(g, env, part[1..], runtime, v)
    ensures Entered(g.schema, runtime, part[0]) ==> Shaped(g, env, part[0].selections, runtime, v)
    ensures part[0].Field? && part[0].name != "__typename" ==> FieldHolds(g, env, runtime, part[0], v)
    ensures part[0].Field? && part[0].name == "__typename" ==> "__typename" in v.fields
    ensures Referenced(g.schema, g.fragments, runtime, part[0]) ==> InhabitsFragment(g, env, part[0].name, v)
  {
    WrittenSplit(g, env, part, runtime, v);
    SpreadsWrittenSplit(g, env, part, runtime, v);
    assert AllFields(g, env, part, runtime, v) && AllSpreads(g, env, part, runtime, v);
    assert Lifts(g, part[1..], runtime) ==> Lifts(g, part, runtime) by {
      if Lifts(g, part[1..], runtime) {
        assert BringsTypeName(g, part[0], runtime).Ok?;
      }
    }
  }

  lemma GeneratesSplits(g: Generator, part: seq<Selection>, runtime: string)
    requires g.Valid() && g.schema.IsObject(runtime) && part != [] && Generates(g, part, runtime)
    ensures Generates(g, part[1..], runtime)
    ensures part[0].Field? && part[0].name != "__typename" ==> GenerateField(g, part[0], runtime).Ok?
    ensures Entered(g.schema, runtime, part[0]) ==> Generates(g, part[0].selections, runtime)
  {
    FieldsSplit(g, part, runtime);
    InlineSplit(g, part, runtime);
    SpreadsSplit(g, part, runtime);
    if Entered(g.schema, runtime, part[0]) {
      ForObjectParts(g, part[0].selections, runtime, false);
    }
  }

  /** Where fields and fragments are generated, looking for `__typename` does not throw. */
  lemma {:induction false} TypeNameLooksUp(g: Generator, env: TsEnvironment, part: seq<Selection>, runtime: string)
    requires g.Valid() && g.schema.IsObject(runtime) && FragmentTypesExported(g, env) && Generates(g, part, runtime)
    ensures HasTypeNameField(g, part, runtime).Ok?
    decreases RankOf(g.fragments, part), part
  {
    if part != [] {
      RanksBelow(g.fragments, part);
      GeneratesSplits(g, part, runtime);
      TypeNameLooksUp(g, env, part[1..], runtime);
      match part[0]
      case Field(_, _, _, _) =>
      case InlineFragment(_, _, below) =>
        if Entered(g.schema, runtime, part[0]) {
          TypeNameLooksUp(g, env, below, runtime);
        }
      case FragmentSpread(name, _) =>
        if Referenced(g.schema, g.fragments, runtime, part[0]) {
          FragmentGenerates(g, env, name, runtime);
        }
    }
  }

  lemma FragmentGenerates(g: Generator, env: TsEnvironment, name: string, runtime: string)
    requires g.Valid() && g.schema.IsObject(runtime) && FragmentTypesExported(g, env)
    requires name in g.fragments && CheckTypeCondition(g.schema, g.fragments[name].node.typeCondition, runtime)
    ensures runtime in g.schema.PossibleTypes(g.fragments[name].node.typeCondition)
    ensures HasTypeNameField(g, g.fragments[name].node.selections, runtime).Ok?
    ensures Generates(g, g.fragments[name].node.selections, runtime)
  {
    var node := g.fragments[name].node;
    ConditionApplies(g.schema, node.typeCondition, runtime);
    assert GenerateFragmentType(g, node).Ok?;
    SetGenerates(g, node.selections, node.typeCondition, runtime);
  }

  lemma SetGenerates(g: Generator, selections: seq<Selection>, parent: string, runtime: string)
    requires g.Valid() && runtime in g.schema.PossibleTypes(parent) && GenerateSelectionSet(g, selections, parent).Ok?
    ensures g.schema.IsObject(runtime) && GenerateSelectionSetForObject(g, selections, runtime, true).Ok?
    ensures HasTypeNameField(g, selections, runtime).Ok? && Generates(g, selections, runtime)
  {
    var possible := g.schema.PossibleTypes(parent);
    var i :| 0 <= i < |possible| && possible[i] == runtime;
    AlternativeAt(g, selections, parent, possible, i);
    ForObjectParts(g, selections, runtime, true);
  }

  lemma Unnamed(x: Executor, runtime: string, whole: seq<Selection>, v: Value)
    requires Acyclic(x.fragments) && x.schema.IsObject(runtime) && Validated(x, runtime, whole)
    requires Response(x, runtime, whole, v) && !TypeNameAnswered(x, runtime, whole)
    ensures "__typename" !in v.fields
  {
    if "__typename" in v.fields {
      var first := FirstAnswer(x, runtime, whole, "__typename");
    }
  }

  /** Where something asked for is not answered, some response does not have the shape. */
  lemma {:induction false} Refuted(g: Generator, x: Executor, env: TsEnvironment, runtime: string, part: seq<Selection>,
                                   whole: seq<Selection>) returns (v: Value)
    requires Comparing(g, x, env, runtime, part, whole) && !Covered(x, runtime, part, whole)
    ensures Response(x, runtime, whole, v) && !Shaped(g, env, part, runtime, v)
    decreases RankOf(x.fragments, part), part, 1
  {
    RanksBelow(x.fragments, part);
    GeneratesSplits(g, part, runtime);
    TypeNameLooksUp(g, env, part, runtime);
    if !Covered(x, runtime, part[1..], whole) {
      v := Refuted(g, x, env, runtime, part[1..], whole);
    } else {
      match part[0]
      case Field(_, name, _, _) =>
        if name == "__typename" {
          v := SomeResponse(x, runtime, whole);
          Unnamed(x, runtime, whole, v);
        } else {
          v := RefutedField(g, x, env, runtime, part, whole);
        }
      case InlineFragment(_, _, below) =>
        assert ComparableNode(g, x, runtime, part[0], whole) && Entered(g.schema, runtime, part[0]);
        v := Refuted(g, x, env, runtime, below, whole);
      case FragmentSpread(name, _) =>
        v := RefutedSpread(g, x, env, runtime, part, whole);
    }
    if Shaped(g, env, part, runtime, v) {
      ShapeSplits(g, env, part, runtime, v);
    }
  }

  lemma {:induction false} RefutedField(g: Generator, x: Executor, env: TsEnvironment, runtime: string, part: seq<Selection>,
                                        whole: seq<Selection>) returns (v: Value)
    requires Comparing(g, x, env, runtime, part, whole) && part != [] && !CoveredNode(x, runtime, part[0], whole)
    requires part[0].Field? && part[0].name != "__typename"
    ensures Response(x, runtime, whole, v) && !FieldHolds(g, env, runtime, part[0], v)
    decreases RankOf(x.fragments, part), part, 0
  {
    var f, key := part[0], ResponseKey(part[0]);
    var u := SomeResponse(x, runtime, whole);
    if Answers(x, runtime, whole, key) == [] {
      v := u;
      Missing(g, x, env, runtime, f, whole, v);
    } else {
      var r, w := UnansweredBelow(g, x, env, runtime, part, whole);
      v := Replaced(g, x, env, runtime, part, whole, u, r, w);
    }
  }

  lemma Missing(g: Generator, x: Executor, env: TsEnvironment, runtime: string, f: Selection, whole: seq<Selection>, v: Value)
    requires Compiled(g, x, env) && g.schema.IsObject(runtime) && Validated(x, runtime, whole) && Response(x, runtime, whole, v)
    requires f.Field? && f.name != "__typename" && !CoveredNode(x, runtime, f, whole) && Answers(x, runtime, whole, ResponseKey(f)) == []
    ensures !FieldHolds(g, env, runtime, f, v)
  {
    ResponseIff(x, runtime, whole, v);
    assert ResponseKey(f) !in v.fields;
  }

  /** The value that fits no shape of the field's type takes the field's place in a response. */
  lemma Replaced(g: Generator, x: Executor, env: TsEnvironment, runtime: string, part: seq<Selection>, whole: seq<Selection>,
                 u: Value, r: string, w: Value) returns (v: Value)
    requires Comparing(g, x, env, runtime, part, whole) && part != [] && part[0].Field? && part[0].name != "__typename"
    requires part[0].name in x.schema.types[runtime].fields && Answers(x, runtime, whole, ResponseKey(part[0])) != []
    requires Response(x, runtime, whole, u)
    requires var name := NamedType(x.schema.types[runtime].fields[part[0].name]);
             && x.schema.IsComposite(name) && r in x.schema.PossibleTypes(name)
             && Response(x, r, Merged(Answers(x, runtime, whole, ResponseKey(part[0]))), w)
             && forall q | q in x.schema.PossibleTypes(name) && x.schema.IsObject(q) :: !Shaped(g, env, part[0].selections, q, w)
    ensures Response(x, runtime, whole, v) && !FieldHolds(g, env, runtime, part[0], v)
  {
    var f, key := part[0], ResponseKey(part[0]);
    var t, answers := x.schema.types[runtime].fields[f.name], Answers(x, runtime, whole, key);
    assert ComparableNode(g, x, runtime, f, whole);
    WrappedFails(g, x, env, f.selections, t, true, r, Merged(answers), w);
    assert IsAnswer(x, runtime, whole, key, Wrapped(t, w));
    OtherAnswer(x, runtime, whole, u, key, Wrapped(t, w));
    v := Obj(u.fields[key := Wrapped(t, w)]);
  }

  /** The answers of a field do not answer its own selections: some value of the field has no shape of its type. */
  lemma {:induction false} UnansweredBelow(g: Generator, x: Executor, env: TsEnvironment, runtime: string, part: seq<Selection>,
                                           whole: seq<Selection>) returns (r: string, w: Value)
    requires Comparing(g, x, env, runtime, part, whole) && part != [] && !CoveredNode(x, runtime, part[0], whole)
    requires part[0].Field? && part[0].name != "__typename" && part[0].name in x.schema.types[runtime].fields
    requires Answers(x, runtime, whole, ResponseKey(part[0])) != []
    ensures var name := NamedType(x.schema.types[runtime].fields[part[0].name]);
            && x.schema.IsComposite(name) && r in x.schema.PossibleTypes(name)
            && Response(x, r, Merged(Answers(x, runtime, whole, ResponseKey(part[0]))), w)
            && forall q | q in x.schema.PossibleTypes(name) && x.schema.IsObject(q) :: !Shaped(g, env, part[0].selections, q, w)
    decreases RankOf(x.fragments, part), part, 0, 0
  {
    var f := part[0];
    var answers, t := Answers(x, runtime, whole, ResponseKey(f)), x.schema.types[runtime].fields[f.name];
    RanksBelow(x.fragments, part);
    assert ComparableNode(g, x, runtime, f, whole);
    r :| r in x.schema.PossibleTypes(NamedType(t)) && x.schema.IsObject(r) && !Covered(x, r, f.selections, Merged(answers));
    GeneratesSplits(g, part, runtime);
    FieldSetGenerates(g, f.selections, t, true, r);
    w := Refuted(g, x, env, r, f.selections, Merged(answers));
    OwnShapeOnly(g, x, env, f.selections, NamedType(t), r, Merged(answers), w);
  }

  lemma FieldSetGenerates(g: Generator, selections: seq<Selection>, t: TypeRef, optional: bool, runtime: string)
    requires g.Valid() && runtime in g.schema.PossibleTypes(NamedType(t)) && g.schema.IsComposite(NamedType(t))
    requires GenerateFieldType(g, selections, t, optional).Ok?
    ensures g.schema.IsObject(runtime) && Generates(g, selections, runtime)
    decreases t
  {
    match t
    case NonNull(of) => FieldSetGenerates(g, selections, of, false, runtime);
    case ListOf(of) => FieldSetGenerates(g, selections, of, true, runtime);
    case Named(name) => SetGenerates(g, selections, name, runtime);
  }

  lemma {:induction false} RefutedSpread(g: Generator, x: Executor, env: TsEnvironment, runtime: string, part: seq<Selection>,
                                         whole: seq<Selection>) returns (v: Value)
    requires Comparing(g, x, env, runtime, part, whole) && part != [] && !CoveredNode(x, runtime, part[0], whole)
    requires part[0].FragmentSpread?
    ensures Response(x, runtime, whole, v) && !InhabitsFragment(g, env, part[0].name, v)
    decreases RankOf(x.fragments, part), part, 0
  {
    RanksBelow(x.fragments, part);
    assert ComparableNode(g, x, runtime, part[0], whole);
    FragmentGenerates(g, env, part[0].name, runtime);
    v := Refuted(g, x, env, runtime, g.fragments[part[0].name].node.selections, whole);
    FragmentFails(g, x, env, runtime, part[0].name, whole, v);
  }

  lemma FragmentFails(g: Generator, x: Executor, env: TsEnvironment, runtime: string, name: string, whole: seq<Selection>, v: Value)
    requires Compiled(g, x, env) && g.schema.IsObject(runtime) && name in g.fragments && Validated(x, runtime, whole)
    requires Told(g, g.fragments[name].node.selections, g.fragments[name].node.typeCondition)
    requires runtime in g.schema.PossibleTypes(g.fragments[name].node.typeCondition)
    requires Response(x, runtime, whole, v) && !Shaped(g, env, g.fragments[name].node.selections, runtime, v)
    ensures !InhabitsFragment(g, env, name, v)
  {
    OwnShapeOnly(g, x, env, g.fragments[name].node.selections, g.fragments[name].node.typeCondition, runtime, whole, v);
    FragmentExact(g, env, name, v);
  }

  // ----- soundness -----

  /** What validation, and a lifted `__typename` where a type has alternatives, make of an operation, whatever its variables. */
  ghost predicate AlwaysComparable(g: Generator, x: Executor, runtime: string, selections: seq<Selection>)
    requires Acyclic(x.fragments) && x.schema.IsObject(runtime) && x.schema == g.schema
  {
    forall variables :: Validated(x.(variables := variables), runtime, selections)
                        && Comparable(g, x.(variables := variables), runtime, selections, selections)
  }

  /** The generated type is sound for all variables exactly when, for all variables, what it asks for is answered. */
  lemma SoundIffCovered(g: Generator, x: Executor, env: TsEnvironment, runtime: string, selections: seq<Selection>)
    requires Compiled(g, x, env) && Populated(x) && g.schema.IsObject(runtime) && AlwaysComparable(g, x, runtime, selections)
    requires GenerateSelectionSetForObject(g, selections, runtime, true).Ok?
    ensures AlwaysSound(g, x, env, runtime, selections) <==>
            forall variables :: Covered(x.(variables := variables), runtime, selections, selections)
  {
    ForObjectParts(g, selections, runtime, true);
    if variables :| !Covered(x.(variables := variables), runtime, selections, selections) {
      var y := x.(variables := variables);
      var v := Refuted(g, y, env, runtime, selections, selections);
      ObjectExact(g, env, selections, runtime, true, v);
    } else {
      forall variables, v | Response(x.(variables := variables), runtime, selections, v)
        ensures Inhabits(env, GenerateSelectionSetForObject(g, selections, runtime, true).value, v)
      {
        ForObjectSound(g, x.(variables := variables), env, selections, selections, runtime, true, v);
      }
    }
  }
}
