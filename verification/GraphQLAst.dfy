/** The part of a GraphQL document that the library's own logic walks over. */
module GraphQLAst {

  datatype Option<+T> = None | Some(value: T)

  /** The boolean argument `if` of `@skip` and `@include`. */
  datatype Condition = Literal(value: bool) | Variable(name: string)

  datatype Directive = Skip(condition: Condition) | Include(condition: Condition)

  /** A field without a selection set carries the empty sequence: the grammar has no empty braces. */
  datatype Selection =
    | Field(alias: Option<string>, name: string, directives: seq<Directive>, selections: seq<Selection>)
    | InlineFragment(typeCondition: Option<string>, directives: seq<Directive>, selections: seq<Selection>)
    | FragmentSpread(name: string, directives: seq<Directive>)

  datatype Definition =
    | Operation(selections: seq<Selection>)
    | Fragment(name: string, typeCondition: string, selections: seq<Selection>)
    | ScalarTypeDefinition
    | DirectiveDefinition
    | OtherDefinition

  type FragmentNode = d: Definition | d.Fragment? witness Fragment("", "", [])

  datatype Document = Document(definitions: seq<Definition>)

  predicate NoRepeat<T(==)>(s: seq<T>) {
    forall i, j | 0 <= i < j < |s| :: s[i] != s[j]
  }

  lemma SubsetSize<T>(a: set<T>, b: set<T>)
    requires a <= b
    ensures |a| <= |b|
  {
    if a != {} {
      var x :| x in a;
      SubsetSize(a - {x}, b - {x});
    }
  }

  /** Names that start with two underscores: meta fields, and the meta keys of resolvers. */
  predicate IsMeta(name: string) {
    |name| >= 2 && name[0] == '_' && name[1] == '_'
  }

  function Max(a: nat, b: nat): nat {
    if a < b then b else a
  }

  /** The names of all fragment spreads below a selection set, nested ones included, in document order. */
  function Spreads(selections: seq<Selection>): seq<string> {
    if selections == [] then []
    else
      (match selections[0]
       case Field(_, _, _, below) => Spreads(below)
       case InlineFragment(_, _, below) => Spreads(below)
       case FragmentSpread(name, _) => [name]) + Spreads(selections[1..])
  }
}
