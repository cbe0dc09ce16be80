/** The compiler's main results, for whole operations and whole documents. */
module OperationTypes {
  import opened GraphQLAst
  import opened FragmentClosure
  import opened Schemas
  import opened Execution
  import opened TsTypes
  import opened SelectionTypes
  import opened Coverage
  import opened TypeSoundness

  // ----- soundness of an operation's data type -----

  /** What remains of an operation under these variables answers all that the operation's type asks for. */
  ghost predicate AnswersItself(x: Executor, selections: seq<Selection>, parent: string)
    requires Acyclic(x.fragments)
  {
    forall t | t in x.schema.PossibleTypes(parent) && x.schema.IsObject(t) :: Covered(x, t, selections, selections)
  }

  /** Every response inhabits the generated type, through the alternative of its runtime type. */
  lemma OperationSound(g: Generator, x: Executor, env: TsEnvironment, selections: seq<Selection>, parent: string,
                       runtime: string, v: Value)
    requires Compiled(g, x, env) && AnswersItself(x, selections, parent)
    requires GenerateSelectionSet(g, selections, parent).Ok?
    requires runtime in g.schema.PossibleTypes(parent) && Response(x, runtime, selections, v)
    ensures Inhabits(env, GenerateSelectionSet(g, selections, parent).value, v)
    ensures forall i | 0 <= i < |g.schema.PossibleTypes(parent)| && g.schema.PossibleTypes(parent)[i] == runtime ::
              Inhabits(env, GenerateSelectionSet(g, selections, parent).value.alternatives[i], v)
  {
    SelectionSetSound(g, x, env, selections, selections, parent, runtime, v);
  }

  /** Without `@skip` or `@include` that drops anything, and without an aliased `__typename`, an operation answers itself. */
  lemma KeptAnswersItself(x: Executor, selections: seq<Selection>, parent: string)
    requires Acyclic(x.fragments) && x.schema.Valid() && Kept(x, selections)
    ensures AnswersItself(x, selections, parent)
  {
    forall t | t in x.schema.PossibleTypes(parent) && x.schema.IsObject(t) ensures Covered(x, t, selections, selections) {
      KeptCovered(x, t, selections, selections);
    }
  }

  // ----- the exported fragment types -----

  type Declaration = (string, Ts)

  function GenerateFragmentTypes(g: Generator, definitions: seq<Definition>): Result<seq<Declaration>>
    requires g.Valid()
  {
    if definitions == [] then Ok([])
    else
      var first :- (
        if definitions[0].Fragment? then
          var ts :- GenerateFragmentType(g, definitions[0]);
          Ok([(GenerateFragmentTypeName(definitions[0].name), ts)])
        else Ok([]));
      var rest :- GenerateFragmentTypes(g, definitions[1..]);
      Ok(first + rest)
  }

  predicate Declares(types: map<string, Ts>, declarations: seq<Declaration>) {
    forall d | d in declarations :: d.0 in types && types[d.0] == d.1
  }

  lemma GeneratedIsDeclared(g: Generator, definitions: seq<Definition>, node: FragmentNode)
    requires g.Valid() && node in definitions && GenerateFragmentTypes(g, definitions).Ok?
    ensures GenerateFragmentType(g, node).Ok?
    ensures (GenerateFragmentTypeName(node.name), GenerateFragmentType(g, node).value) in GenerateFragmentTypes(g, definitions).value
  {
    if node != definitions[0] {
      GeneratedIsDeclared(g, definitions[1..], node);
    }
  }

  /** The emitted declarations make every reference to a fragment type mean that fragment's type. */
  lemma DeclarationsExportFragments(g: Generator, definitions: seq<Definition>, env: TsEnvironment)
    requires g.Valid() && MapsFragments(definitions, g.fragments)
    requires GenerateFragmentTypes(g, definitions).Ok?
    requires Declares(env.fragmentTypes, GenerateFragmentTypes(g, definitions).value)
    ensures FragmentTypesExported(g, env)
  {
    forall name | name in g.fragments
      ensures g.fragments[name].node.name == name
      ensures GenerateFragmentTypeName(name) in env.fragmentTypes
      ensures GenerateFragmentType(g, g.fragments[name].node) == Ok(env.fragmentTypes[GenerateFragmentTypeName(name)])
    {
      assert MapsTo(definitions, name, g.fragments[name]);
      GeneratedIsDeclared(g, definitions, g.fragments[name].node);
    }
  }

  ghost predicate Consistent(declarations: seq<Declaration>) {
    forall a, b | a in declarations && b in declarations && a.0 == b.0 :: a.1 == b.1
  }

  /** Such declarations exist exactly when fragments whose names differ only in the first letter's case agree. */
  lemma DeclarableIffConsistent(declarations: seq<Declaration>)
    ensures (exists types :: Declares(types, declarations)) <==> Consistent(declarations)
  {
    if Consistent(declarations) {
      var types := TypesOf(declarations);
      assert Declares(types, declarations);
    }
  }

  lemma TypesOf(declarations: seq<Declaration>) returns (types: map<string, Ts>)
    requires Consistent(declarations)
    ensures Declares(types, declarations) && forall name | name in types :: exists d | d in declarations :: d.0 == name
  {
    if declarations == [] {
      types := map[];
    } else {
      types := TypesOf(declarations[1..]);
      types := types[declarations[0].0 := declarations[0].1];
    }
  }

  // ----- which names collide -----

  /** One letter in both cases, or one character. */
  predicate SameLetter(a: char, b: char) {
    a == b || ('a' <= a <= 'z' && b as int == a as int - 32) || ('a' <= b <= 'z' && a as int == b as int - 32)
  }

  predicate SameButFirstCase(a: string, b: string) {
    a == b || (|a| == |b| && a != [] && a[1..] == b[1..] && SameLetter(a[0], b[0]))
  }

  /** Two fragments get one type name exactly when their names differ at most in the case of the first letter. */
  lemma TypeNamesCollideIff(a: string, b: string)
    ensures GenerateFragmentTypeName(a) == GenerateFragmentTypeName(b) <==> SameButFirstCase(a, b)
  {
    var x, y := GenerateFragmentTypeName(a), GenerateFragmentTypeName(b);
    assert |x| == |a| + 1 && |y| == |b| + 1;
    if a != [] && b != [] {
      assert x[2..] == a[1..] && y[2..] == b[1..] && x[1] == ToUpper(a[0]) && y[1] == ToUpper(b[0]);
      if |a| == |b| && a[1..] == b[1..] && SameLetter(a[0], b[0]) {
        assert x == "F" + [x[1]] + a[1..] && y == "F" + [y[1]] + b[1..];
      }
      if x == y {
        assert a == [a[0]] + a[1..] && b == [b[0]] + b[1..];
      }
    }
  }

  /** The name of a fragment after an `F`, its first letter in upper case. */
  lemma TypeNameIs(name: string)
    ensures var r := GenerateFragmentTypeName(name);
            && |r| == |name| + 1 && r[0] == 'F'
            && (name != [] ==> r[2..] == name[1..] && SameLetter(r[1], name[0]) && !('a' <= r[1] <= 'z'))
  {
    if name != [] {
      assert GenerateFragmentTypeName(name)[2..] == name[1..];
    }
  }

  lemma DeclaredByFragment(g: Generator, definitions: seq<Definition>, d: Declaration) returns (node: FragmentNode)
    requires g.Valid() && GenerateFragmentTypes(g, definitions).Ok? && d in GenerateFragmentTypes(g, definitions).value
    ensures node in definitions && d.0 == GenerateFragmentTypeName(node.name) && GenerateFragmentType(g, node) == Ok(d.1)
  {
    var rest := GenerateFragmentTypes(g, definitions[1..]).value;
    if d in rest {
      node := DeclaredByFragment(g, definitions[1..], d);
    } else {
      node := definitions[0];
    }
  }

  /** The declarations of a document are consistent exactly when fragments whose names collide have one type. */
  lemma ConsistentIff(g: Generator, definitions: seq<Definition>)
    requires g.Valid() && GenerateFragmentTypes(g, definitions).Ok?
    ensures Consistent(GenerateFragmentTypes(g, definitions).value) <==>
            forall a: FragmentNode, b: FragmentNode | a in definitions && b in definitions && SameButFirstCase(a.name, b.name) ::
              GenerateFragmentType(g, a) == GenerateFragmentType(g, b)
  {
    var declarations := GenerateFragmentTypes(g, definitions).value;
    if Consistent(declarations) {
      forall a: FragmentNode, b: FragmentNode | a in definitions && b in definitions && SameButFirstCase(a.name, b.name)
        ensures GenerateFragmentType(g, a) == GenerateFragmentType(g, b)
      {
        GeneratedIsDeclared(g, definitions, a);
        GeneratedIsDeclared(g, definitions, b);
        TypeNamesCollideIff(a.name, b.name);
      }
    }
    if forall a: FragmentNode, b: FragmentNode | a in definitions && b in definitions && SameButFirstCase(a.name, b.name) ::
         GenerateFragmentType(g, a) == GenerateFragmentType(g, b) {
      forall c, d | c in declarations && d in declarations && c.0 == d.0 ensures c.1 == d.1 {
        var a := DeclaredByFragment(g, definitions, c);
        var b := DeclaredByFragment(g, definitions, d);
        TypeNamesCollideIff(a.name, b.name);
      }
    }
  }

  /** So a document whose fragment names do not collide can be declared. */
  lemma ApartIsDeclarable(g: Generator, definitions: seq<Definition>)
    requires g.Valid() && GenerateFragmentTypes(g, definitions).Ok?
    requires forall a: FragmentNode, b: FragmentNode | a in definitions && b in definitions && SameButFirstCase(a.name, b.name) :: a == b
    ensures exists types :: Declares(types, GenerateFragmentTypes(g, definitions).value)
  {
    ConsistentIff(g, definitions);
    DeclarableIffConsistent(GenerateFragmentTypes(g, definitions).value);
  }

  // ----- leaf types -----

  /** `mapUnknownScalars` and `mapStandardScalars`, before any mapping of the user. */
  function StandardTypeMap(schema: Schema): map<string, string> {
    (map name | name in schema.types && schema.types[name].ScalarType? :: "unknown")
    + map["Int" := "number", "Float" := "number", "String" := "string", "Boolean" := "boolean", "ID" := "string"]
  }

  /** Section 3.5: what serialising a standard scalar or an enum gives. Other scalars may give anything. */
  predicate StandardSerialization(schema: Schema, name: string, v: Value) {
    match name
    case "Int" => v.Num?
    case "Float" => v.Num?
    case "String" => v.Str?
    case "ID" => v.Str?
    case "Boolean" => v.Bool?
    case _ => name in schema.types && schema.types[name].EnumType? ==> v.Str? && v.text in schema.types[name].values
  }

  /** The TypeScript meaning of the emitted names; `TName` is the emitted enum of `Name`. */
  predicate StandardLeaf(schema: Schema, reference: string, v: Value) {
    match reference
    case "unknown" => true
    case "number" => v.Num?
    case "string" => v.Str?
    case "boolean" => v.Bool?
    case _ =>
      reference != "" && reference[0] == 'T' && reference[1..] in schema.types && schema.types[reference[1..]].EnumType? &&
      v.Str? && v.text in schema.types[reference[1..]].values
  }

  /** The mapped type of a leaf holds what the server serialises for it, and nothing else. */
  lemma StandardLeavesExact(schema: Schema, name: string, v: Value)
    requires name in schema.types && !schema.IsComposite(name)
    requires name in {"Int", "Float", "String", "Boolean", "ID"} ==> schema.types[name].ScalarType?
    ensures StandardLeaf(schema, GenerateNamedOutputRef(StandardTypeMap(schema), name), v) <==> StandardSerialization(schema, name, v)
  {
    if schema.types[name].EnumType? {
      var reference := "T" + name;
      assert reference[0] == 'T' && reference[1..] == name;
    }
  }

  lemma StandardLeavesHold(schema: Schema, name: string, v: Value)
    requires name in schema.types && !schema.IsComposite(name) && StandardSerialization(schema, name, v)
    requires name in {"Int", "Float", "String", "Boolean", "ID"} ==> schema.types[name].ScalarType?
    ensures StandardLeaf(schema, GenerateNamedOutputRef(StandardTypeMap(schema), name), v)
  {
    StandardLeavesExact(schema, name, v);
  }

  /** With the standard type map alone, nothing has to be assumed of leaf types. */
  lemma StandardOperationSound(g: Generator, x: Executor, env: TsEnvironment, selections: seq<Selection>, parent: string,
                               runtime: string, v: Value)
    requires g.Valid() && x.schema == g.schema && x.fragments == g.fragments && FragmentTypesExported(g, env)
    requires g.typeMap == StandardTypeMap(g.schema)
    requires forall name | name in g.schema.types && name in {"Int", "Float", "String", "Boolean", "ID"} :: g.schema.types[name].ScalarType?
    requires forall name, w | x.serializes(name, w) :: StandardSerialization(g.schema, name, w)
    requires forall reference, w | StandardLeaf(g.schema, reference, w) :: env.leaf(reference, w)
    requires AnswersItself(x, selections, parent) && GenerateSelectionSet(g, selections, parent).Ok?
    requires runtime in g.schema.PossibleTypes(parent) && Response(x, runtime, selections, v)
    ensures Inhabits(env, GenerateSelectionSet(g, selections, parent).value, v)
  {
    forall name, w | name in g.schema.types && !g.schema.IsComposite(name) && x.serializes(name, w)
      ensures env.leaf(GenerateNamedOutputRef(g.typeMap, name), w)
    {
      StandardLeavesHold(g.schema, name, w);
    }
    OperationSound(g, x, env, selections, parent, runtime, v);
  }

  // ----- __typename -----

  /** The schema as `checkTypeCondition` sees it: no object is a member of a union. */
  function WithoutUnionMembers(schema: Schema): Schema {
    schema.(types := map name | name in schema.types ::
      if schema.types[name].UnionType? then UnionType([]) else schema.types[name])
  }

  function Blind(x: Executor): Executor {
    x.(schema := WithoutUnionMembers(x.schema))
  }

  ghost predicate SelectsTypeName(x: Executor, runtime: string, selections: seq<Selection>)
    requires Acyclic(x.fragments)
  {
    exists f :: Collects(x, runtime, selections, f) && f.Field? && f.name == "__typename"
  }

  lemma BlindApplies(schema: Schema, runtime: string, condition: string)
    requires schema.Valid() && schema.IsObject(runtime)
    ensures Applies(WithoutUnionMembers(schema), runtime, condition) <==> CheckTypeCondition(schema, condition, runtime)
  {
    if runtime != condition && condition in schema.types[runtime].interfaces {
      assert schema.types[runtime].ObjectType? && schema.IsInterface(condition);
    }
  }

  /** The selections without `@skip` and `@include`. */
  function Bare(selections: seq<Selection>): seq<Selection> {
    if selections == [] then [] else [BareNode(selections[0])] + Bare(selections[1..])
  }

  function BareNode(s: Selection): Selection {
    match s
    case Field(alias, name, _, below) => Field(alias, name, [], Bare(below))
    case InlineFragment(condition, _, below) => InlineFragment(condition, [], Bare(below))
    case FragmentSpread(name, _) => FragmentSpread(name, [])
  }

  function BareFragments(fragments: FragmentMap): FragmentMap {
    map name | name in fragments ::
      FragmentMapEntry(fragments[name].node.(selections := Bare(fragments[name].node.selections)), fragments[name].dependencies)
  }

  lemma {:induction false} BareRank(rank: map<string, nat>, selections: seq<Selection>)
    ensures SpreadRank(rank, Bare(selections)) == SpreadRank(rank, selections)
  {
    if selections != [] {
      var bare := Bare(selections);
      assert bare[0] == BareNode(selections[0]) && bare[1..] == Bare(selections[1..]);
      BareRank(rank, selections[1..]);
      match selections[0]
      case Field(_, _, _, below) => BareRank(rank, below);
      case InlineFragment(_, _, below) => BareRank(rank, below);
      case FragmentSpread(_, _) =>
    }
  }

  lemma BareAcyclic(fragments: FragmentMap)
    requires Acyclic(fragments)
    ensures Acyclic(BareFragments(fragments))
  {
    var rank := Ranking(fragments);
    forall name | name in fragments ensures SpreadRank(rank, BareFragments(fragments)[name].node.selections) <= rank[name] {
      BareRank(rank, fragments[name].node.selections);
    }
    assert IsRanking(BareFragments(fragments), rank);
  }

  /** An executor that drops nothing, and never follows a condition on a union. */
  function Undropping(x: Executor): Executor {
    Blind(x).(fragments := BareFragments(x.fragments))
  }

  lemma {:induction false} LiftedIfCollected(g: Generator, x: Executor, runtime: string, selections: seq<Selection>, f: Selection)
    requires g.Valid() && x.schema == g.schema && x.fragments == g.fragments && g.schema.IsObject(runtime)
    requires Acyclic(Undropping(x).fragments) && HasTypeNameField(g, selections, runtime).Ok?
    requires Collects(Undropping(x), runtime, Bare(selections), f) && f.Field? && f.name == "__typename"
    ensures HasTypeNameField(g, selections, runtime) == Ok(true)
    decreases RankOf(g.fragments, selections), selections
  {
    RanksBelow(g.fragments, selections);
    var bare := Bare(selections);
    assert bare[0] == BareNode(selections[0]) && bare[1..] == Bare(selections[1..]);
    if NodeCollects(Undropping(x), runtime, bare[0], f) {
      match selections[0]
      case Field(_, _, _, _) =>
      case InlineFragment(condition, _, below) =>
        BlindApplies(g.schema, runtime, condition.value);
        LiftedIfCollected(g, x, runtime, below, f);
      case FragmentSpread(name, _) =>
        BlindApplies(g.schema, runtime, g.fragments[name].node.typeCondition);
        LiftedIfCollected(g, x, runtime, g.fragments[name].node.selections, f);
    } else if BringsTypeName(g, selections[0], runtime) == Ok(false) {
      LiftedIfCollected(g, x, runtime, selections[1..], f);
    }
  }

  lemma {:induction false} CollectedIfLifted(g: Generator, x: Executor, runtime: string, selections: seq<Selection>) returns (f: Selection)
    requires g.Valid() && x.schema == g.schema && x.fragments == g.fragments && g.schema.IsObject(runtime)
    requires Acyclic(Undropping(x).fragments) && HasTypeNameField(g, selections, runtime) == Ok(true)
    ensures Collects(Undropping(x), runtime, Bare(selections), f) && f.Field? && f.name == "__typename"
    decreases RankOf(g.fragments, selections), selections
  {
    RanksBelow(g.fragments, selections);
    var bare := Bare(selections);
    assert bare[0] == BareNode(selections[0]) && bare[1..] == Bare(selections[1..]);
    if BringsTypeName(g, selections[0], runtime) == Ok(true) {
      match selections[0]
      case Field(_, _, _, _) =>
        f := bare[0];
      case InlineFragment(condition, _, below) =>
        BlindApplies(g.schema, runtime, condition.value);
        f := CollectedIfLifted(g, x, runtime, below);
      case FragmentSpread(name, _) =>
        BlindApplies(g.schema, runtime, g.fragments[name].node.typeCondition);
        f := CollectedIfLifted(g, x, runtime, g.fragments[name].node.selections);
      assert NodeCollects(Undropping(x), runtime, bare[0], f);
    } else {
      f := CollectedIfLifted(g, x, runtime, selections[1..]);
    }
  }

  /** Uplift finds `__typename` exactly when field collection does that drops nothing and never follows a condition on a union. */
  lemma UpliftExact(g: Generator, x: Executor, runtime: string, selections: seq<Selection>)
    requires g.Valid() && x.schema == g.schema && x.fragments == g.fragments && g.schema.IsObject(runtime)
    requires HasTypeNameField(g, selections, runtime).Ok?
    ensures Acyclic(Undropping(x).fragments)
    ensures HasTypeNameField(g, selections, runtime).value <==> SelectsTypeName(Undropping(x), runtime, Bare(selections))
  {
    BareAcyclic(x.fragments);
    if HasTypeNameField(g, selections, runtime).value {
      var f := CollectedIfLifted(g, x, runtime, selections);
    } else if SelectsTypeName(Undropping(x), runtime, Bare(selections)) {
      var f :| Collects(Undropping(x), runtime, Bare(selections), f) && f.Field? && f.name == "__typename";
      LiftedIfCollected(g, x, runtime, selections, f);
    }
  }

  // ----- under the operation's own variables -----

  lemma {:induction false} BlindTypeNameFound(g: Generator, x: Executor, runtime: string, selections: seq<Selection>, f: Selection)
    requires g.Valid() && x.schema == g.schema && x.fragments == g.fragments && g.schema.IsObject(runtime)
    requires HasTypeNameField(g, selections, runtime).Ok?
    requires Collects(Blind(x), runtime, selections, f) && f.Field? && f.name == "__typename"
    ensures HasTypeNameField(g, selections, runtime) == Ok(true)
    decreases RankOf(g.fragments, selections), selections
  {
    RanksBelow(g.fragments, selections);
    if NodeCollects(Blind(x), runtime, selections[0], f) {
      match selections[0]
      case Field(_, _, _, _) =>
      case InlineFragment(condition, _, below) =>
        BlindApplies(g.schema, runtime, condition.value);
        BlindTypeNameFound(g, x, runtime, below, f);
      case FragmentSpread(name, _) =>
        BlindApplies(g.schema, runtime, g.fragments[name].node.typeCondition);
        BlindTypeNameFound(g, x, runtime, g.fragments[name].node.selections, f);
    } else if BringsTypeName(g, selections[0], runtime) == Ok(false) {
      BlindTypeNameFound(g, x, runtime, selections[1..], f);
    }
  }

  /** Some `__typename` that the generator looks at stays under these variables, with all fragments on the way to it. */
  ghost predicate FoundStays(x: Executor, runtime: string, selections: seq<Selection>)
    requires Acyclic(x.fragments) && x.schema.IsObject(runtime)
    decreases RankOf(x.fragments, selections), selections
  {
    selections != [] && (NodeFoundStays(x, runtime, selections[0]) || FoundStays(x, runtime, selections[1..]))
  }

  ghost predicate NodeFoundStays(x: Executor, runtime: string, s: Selection)
    requires Acyclic(x.fragments) && x.schema.IsObject(runtime)
    decreases NodeRank(Ranking(x.fragments), s), s
  {
    Included(x.variables, s.directives) &&
    match s
    case Field(_, name, _, _) => name == "__typename"
    case InlineFragment(condition, _, below) =>
      (condition.Some? ==> CheckTypeCondition(x.schema, condition.value, runtime)) && FoundStays(x, runtime, below)
    case FragmentSpread(name, _) =>
      Referenced(x.schema, x.fragments, runtime, s) && FoundStays(x, runtime, x.fragments[name].node.selections)
  }

  lemma {:induction false} FoundIsCollected(x: Executor, runtime: string, selections: seq<Selection>)
    requires Acyclic(x.fragments) && x.schema.Valid() && x.schema.IsObject(runtime)
    ensures FoundStays(x, runtime, selections) <==> SelectsTypeName(Blind(x), runtime, selections)
    decreases RankOf(x.fragments, selections), selections
  {
    if selections != [] {
      RanksBelow(x.fragments, selections);
      FoundIsCollected(x, runtime, selections[1..]);
      var s := selections[0];
      assert SelectsTypeName(Blind(x), runtime, selections) <==>
             (exists f :: NodeCollects(Blind(x), runtime, s, f) && f.Field? && f.name == "__typename")
             || SelectsTypeName(Blind(x), runtime, selections[1..]);
      match s {
        case Field(_, _, _, _) =>
          assert NodeCollects(Blind(x), runtime, s, s) <==> Included(x.variables, s.directives);
        case InlineFragment(condition, _, below) =>
          FoundIsCollected(x, runtime, below);
          if condition.Some? {
            BlindApplies(x.schema, runtime, condition.value);
          }
          assert InlineApplies(Blind(x).schema, runtime, condition) <==>
                 (condition.Some? ==> CheckTypeCondition(x.schema, condition.value, runtime));
        case FragmentSpread(name, _) =>
          if name in x.fragments {
            BlindApplies(x.schema, runtime, x.fragments[name].node.typeCondition);
            FoundIsCollected(x, runtime, x.fragments[name].node.selections);
          }
      }
    }
  }

  /** No fragment below, inline or spread, has a condition on a union. */
  ghost predicate NoUnionCondition(x: Executor, selections: seq<Selection>)
    requires Acyclic(x.fragments)
    decreases RankOf(x.fragments, selections), selections
  {
    selections == [] || (NoUnionConditionIn(x, selections[0]) && NoUnionCondition(x, selections[1..]))
  }

  ghost predicate NoUnionConditionIn(x: Executor, s: Selection)
    requires Acyclic(x.fragments)
    decreases NodeRank(Ranking(x.fragments), s), s
  {
    match s
    case Field(_, _, _, _) => true
    case InlineFragment(condition, _, below) =>
      (condition.Some? ==> !x.schema.IsUnion(condition.value)) && NoUnionCondition(x, below)
    case FragmentSpread(name, _) =>
      name in x.fragments ==>
        !x.schema.IsUnion(x.fragments[name].node.typeCondition) && NoUnionCondition(x, x.fragments[name].node.selections)
  }

  lemma {:induction false} BlindAgrees(x: Executor, runtime: string, selections: seq<Selection>, f: Selection)
    requires Acyclic(x.fragments) && x.schema.IsObject(runtime) && NoUnionCondition(x, selections)
    ensures Collects(Blind(x), runtime, selections, f) <==> Collects(x, runtime, selections, f)
    decreases RankOf(x.fragments, selections), selections
  {
    if selections != [] {
      RanksBelow(x.fragments, selections);
      BlindAgrees(x, runtime, selections[1..], f);
      match selections[0]
      case Field(_, _, _, _) =>
      case InlineFragment(_, _, below) => BlindAgrees(x, runtime, below, f);
      case FragmentSpread(name, _) =>
        if name in x.fragments {
          BlindAgrees(x, runtime, x.fragments[name].node.selections, f);
        }
    }
  }

  /**
    Without conditions on unions, what field collection finds is lifted; and what is lifted is found exactly when some
    `__typename` that the generator looks at stays under the variables.
   */
  lemma UpliftIsCollection(g: Generator, x: Executor, runtime: string, selections: seq<Selection>)
    requires g.Valid() && x.schema == g.schema && x.fragments == g.fragments && g.schema.IsObject(runtime)
    requires NoUnionCondition(x, selections) && HasTypeNameField(g, selections, runtime).Ok?
    ensures SelectsTypeName(x, runtime, selections) ==> HasTypeNameField(g, selections, runtime).value
    ensures (HasTypeNameField(g, selections, runtime).value <==> SelectsTypeName(x, runtime, selections)) <==>
            (HasTypeNameField(g, selections, runtime).value ==> FoundStays(x, runtime, selections))
  {
    FoundIsCollected(x, runtime, selections);
    forall f ensures Collects(Blind(x), runtime, selections, f) <==> Collects(x, runtime, selections, f) {
      BlindAgrees(x, runtime, selections, f);
    }
    if SelectsTypeName(x, runtime, selections) {
      var f :| Collects(x, runtime, selections, f) && f.Field? && f.name == "__typename";
      BlindTypeNameFound(g, x, runtime, selections, f);
    }
  }

  // ----- discriminated unions -----

  /** An alternative with an uplifted `__typename` holds only values of its own object type. */
  lemma AlternativeDiscriminates(g: Generator, env: TsEnvironment, selections: seq<Selection>, runtime: string, v: Value)
    requires g.Valid() && g.schema.IsObject(runtime)
    requires HasTypeNameField(g, selections, runtime) == Ok(true)
    requires GenerateSelectionSetForObject(g, selections, runtime, true).Ok?
    requires Inhabits(env, GenerateSelectionSetForObject(g, selections, runtime, true).value, v)
    ensures v.Obj? && "__typename" in v.fields && v.fields["__typename"] == Str(runtime)
  {
    var ts := GenerateSelectionSetForObject(g, selections, runtime, true).value;
    var fields := GenerateFields(g, selections, runtime).value;
    var literal := ObjectLiteral(fields + TypeNameProperty(true, runtime));
    assert ts.parts[0] == literal;
    assert Inhabits(env, literal, v);
    var p := Property("__typename", false, TypeNameLiteral(runtime));
    assert literal.properties[|fields|] == p;
    assert PropertyHolds(env, p, v);
    assert Inhabits(env, p.ts, v.fields["__typename"]);
  }

  /** When every possible type uplifts, a response inhabits exactly the alternatives of its own runtime type. */
  lemma ExactlyItsAlternative(g: Generator, x: Executor, env: TsEnvironment, selections: seq<Selection>, parent: string,
                              runtime: string, v: Value, i: nat)
    requires Compiled(g, x, env) && AnswersItself(x, selections, parent)
    requires GenerateSelectionSet(g, selections, parent).Ok?
    requires runtime in g.schema.PossibleTypes(parent) && Response(x, runtime, selections, v)
    requires forall t | t in g.schema.PossibleTypes(parent) ::
               g.schema.IsObject(t) && HasTypeNameField(g, selections, t) == Ok(true)
    requires i < |g.schema.PossibleTypes(parent)|
    ensures Inhabits(env, GenerateSelectionSet(g, selections, parent).value.alternatives[i], v) <==>
            g.schema.PossibleTypes(parent)[i] == runtime
  {
    var possible := g.schema.PossibleTypes(parent);
    OperationSound(g, x, env, selections, parent, runtime, v);
    if Inhabits(env, GenerateSelectionSet(g, selections, parent).value.alternatives[i], v) {
      var j :| 0 <= j < |possible| && possible[j] == runtime;
      TypeNameOfAlternative(g, env, selections, parent, i, v);
      TypeNameOfAlternative(g, env, selections, parent, j, v);
    }
  }

  lemma TypeNameOfAlternative(g: Generator, env: TsEnvironment, selections: seq<Selection>, parent: string, i: nat, v: Value)
    requires g.Valid() && GenerateSelectionSet(g, selections, parent).Ok?
    requires i < |g.schema.PossibleTypes(parent)| && g.schema.IsObject(g.schema.PossibleTypes(parent)[i])
    requires HasTypeNameField(g, selections, g.schema.PossibleTypes(parent)[i]) == Ok(true)
    requires Inhabits(env, GenerateSelectionSet(g, selections, parent).value.alternatives[i], v)
    ensures v.Obj? && "__typename" in v.fields && v.fields["__typename"] == Str(g.schema.PossibleTypes(parent)[i])
  {
    AlternativeAt(g, selections, parent, g.schema.PossibleTypes(parent), i);
    AlternativeDiscriminates(g, env, selections, g.schema.PossibleTypes(parent)[i], v);
  }
}
