/** src/codegen/ClientCodeGenerator.ts: from selection sets to TypeScript types. */
module SelectionTypes {
  import opened GraphQLAst
  import opened FragmentClosure
  import opened Schemas
  import opened Execution
  import opened TsTypes

  /** Every failure is a thrown error of the source. */
  datatype GeneratorError =
    | MissingTypeCondition
    | UndefinedField(typeName: string, name: string)
    | NotInFragmentMap(name: string)
    | MissingSelectionSet

  datatype Result<+T> = Ok(value: T) | Err(error: GeneratorError) {
    predicate IsFailure() {
      Err?
    }

    function PropagateFailure<U>(): Result<U>
      requires Err?
    {
      Err(error)
    }

    function Extract(): T
      requires Ok?
    {
      value
    }
  }

  /** `typeMap`: scalar name to TypeScript type, as built by the common code generator. */
  datatype Generator = Generator(schema: Schema, fragments: FragmentMap, typeMap: map<string, string>) {
    ghost predicate Valid() {
      schema.Valid() && Acyclic(fragments)
    }
  }

  function GenerateMaybe(ts: Ts, optional: bool): Ts {
    if optional then Maybe(ts) else ts
  }

  function GenerateNamedOutputRef(typeMap: map<string, string>, name: string): string {
    if name in typeMap then typeMap[name] else "T" + name
  }

  /** Upper case of the characters a GraphQL name can start with. */
  function ToUpper(c: char): char {
    if 'a' <= c <= 'z' then 'A' + (c - 'a') else c
  }

  function GenerateFragmentTypeName(name: string): string {
    "F" + if name == "" then "" else [ToUpper(name[0])] + name[1..]
  }

  predicate CheckTypeCondition(schema: Schema, condition: string, runtime: string)
    requires schema.IsObject(runtime)
  {
    runtime == condition || condition in schema.types[runtime].interfaces
  }

  /** The loop of `hasTypeNameField`; it stops at the first selection that brings a `__typename`. */
  function HasTypeNameField(g: Generator, selections: seq<Selection>, runtime: string): Result<bool>
    requires g.Valid() && g.schema.IsObject(runtime)
    decreases RankOf(g.fragments, selections), selections
  {
    if selections == [] then Ok(false)
    else
      var found :- BringsTypeName(g, selections[0], runtime);
      if found then Ok(true) else HasTypeNameField(g, selections[1..], runtime)
  }

  function BringsTypeName(g: Generator, selection: Selection, runtime: string): Result<bool>
    requires g.Valid() && g.schema.IsObject(runtime)
    decreases NodeRank(Ranking(g.fragments), selection), selection
  {
    match selection
    case Field(_, name, _, _) => Ok(name == "__typename")
    case InlineFragment(None, _, _) => Err(MissingTypeCondition)
    case InlineFragment(Some(condition), _, below) =>
      if CheckTypeCondition(g.schema, condition, runtime) then HasTypeNameField(g, below, runtime) else Ok(false)
    case FragmentSpread(name, _) =>
      if name !in g.fragments then Err(NotInFragmentMap(name))
      else if CheckTypeCondition(g.schema, g.fragments[name].node.typeCondition, runtime) then
        HasTypeNameField(g, g.fragments[name].node.selections, runtime)
      else Ok(false)
  }

  function GenerateSelectionSet(g: Generator, selections: seq<Selection>, parent: string): Result<Ts>
    requires g.Valid()
    decreases selections, 4
  {
    var alternatives :- GenerateAlternatives(g, selections, parent, g.schema.PossibleTypes(parent));
    Ok(Union(alternatives))
  }

  function GenerateAlternatives(g: Generator, selections: seq<Selection>, parent: string, possible: seq<string>)
    : (r: Result<seq<Ts>>)
    requires g.Valid() && forall t | t in possible :: t in g.schema.PossibleTypes(parent)
    ensures r.Ok? ==> |r.value| == |possible|
    decreases selections, 3, possible
  {
    if possible == [] then Ok([])
    else
      g.schema.PossibleAreObjects(parent, possible[0]);
      var first :- GenerateSelectionSetForObject(g, selections, possible[0], true);
      var rest :- GenerateAlternatives(g, selections, parent, possible[1..]);
      Ok([first] + rest)
  }

  function GenerateSelectionSetForObject(g: Generator, selections: seq<Selection>, runtime: string, withTypeNameField: bool)
    : Result<Ts>
    requires g.Valid() && g.schema.IsObject(runtime)
    decreases selections, 2
  {
    var typeName :- if withTypeNameField then HasTypeNameField(g, selections, runtime) else Ok(false);
    var fields :- GenerateFields(g, selections, runtime);
    var inlineFragments :- GenerateInlineFragments(g, selections, runtime);
    var fragmentSpreads :- GenerateFragmentSpreads(g, selections, runtime);
    Ok(Intersection([ObjectLiteral(fields + TypeNameProperty(typeName, runtime))]
                    + Joined(inlineFragments) + Joined(fragmentSpreads)))
  }

  function TypeNameProperty(withTypeNameField: bool, runtime: string): seq<Property> {
    if withTypeNameField then [Property("__typename", false, TypeNameLiteral(runtime))] else []
  }

  /** `join` in braces; nothing at all for no parts. */
  function Joined(parts: seq<Ts>): seq<Ts> {
    if parts == [] then [] else [Intersection(parts)]
  }

  function GenerateFields(g: Generator, selections: seq<Selection>, runtime: string): Result<seq<Property>>
    requires g.Valid() && g.schema.IsObject(runtime)
    decreases selections, 1
  {
    if selections == [] then Ok([])
    else if selections[0].Field? && selections[0].name != "__typename" then
      var first :- GenerateField(g, selections[0], runtime);
      var rest :- GenerateFields(g, selections[1..], runtime);
      Ok([first] + rest)
    else
      GenerateFields(g, selections[1..], runtime)
  }

  function GenerateField(g: Generator, node: Selection, runtime: string): Result<Property>
    requires g.Valid() && g.schema.IsObject(runtime) && node.Field?
    decreases node, 6
  {
    var fields := g.schema.types[runtime].fields;
    if node.name !in fields then Err(UndefinedField(runtime, node.name))
    else
      var ts :- GenerateFieldType(g, node.selections, fields[node.name], true);
      Ok(Property(ResponseKey(node), !fields[node.name].NonNull?, ts))
  }

  function GenerateFieldType(g: Generator, selections: seq<Selection>, t: TypeRef, optional: bool): Result<Ts>
    requires g.Valid()
    decreases selections, 5, t
  {
    match t
    case NonNull(of) => GenerateFieldType(g, selections, of, false)
    case ListOf(of) =>
      var item :- GenerateFieldType(g, selections, of, true);
      Ok(GenerateMaybe(Array(item), optional))
    case Named(name) =>
      var ts :- (
        if !g.schema.IsComposite(name) then Ok(LeafReference(GenerateNamedOutputRef(g.typeMap, name)))
        else if selections == [] then Err(MissingSelectionSet)
        else GenerateSelectionSet(g, selections, name));
      Ok(GenerateMaybe(ts, optional))
  }

  function GenerateInlineFragments(g: Generator, selections: seq<Selection>, runtime: string): Result<seq<Ts>>
    requires g.Valid() && g.schema.IsObject(runtime)
    decreases selections, 1
  {
    if selections == [] then Ok([])
    else
      var first :- (
        match selections[0]
        case InlineFragment(None, _, _) => Err(MissingTypeCondition)
        case InlineFragment(Some(condition), _, below) =>
          if CheckTypeCondition(g.schema, condition, runtime) then
            var ts :- GenerateSelectionSetForObject(g, below, runtime, false);
            Ok([ts])
          else Ok([])
        case _ => Ok([]));
      var rest :- GenerateInlineFragments(g, selections[1..], runtime);
      Ok(first + rest)
  }

  function GenerateFragmentSpreads(g: Generator, selections: seq<Selection>, runtime: string): Result<seq<Ts>>
    requires g.schema.IsObject(runtime)
  {
    if selections == [] then Ok([])
    else
      var first :- (
        match selections[0]
        case FragmentSpread(name, _) =>
          if name !in g.fragments then Err(NotInFragmentMap(name))
          else if CheckTypeCondition(g.schema, g.fragments[name].node.typeCondition, runtime) then
            Ok([FragmentReference(GenerateFragmentTypeName(g.fragments[name].node.name))])
          else Ok([])
        case _ => Ok([]));
      var rest :- GenerateFragmentSpreads(g, selections[1..], runtime);
      Ok(first + rest)
  }

  function GenerateFragmentType(g: Generator, node: FragmentNode): Result<Ts>
    requires g.Valid()
  {
    GenerateSelectionSet(g, node.selections, node.typeCondition)
  }
}
