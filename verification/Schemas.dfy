/** The schema as the code generator and the executor consult it. */
module Schemas {
  import opened GraphQLAst
  import opened FragmentClosure

  datatype TypeRef = Named(name: string) | ListOf(of: TypeRef) | NonNull(of: TypeRef)

  datatype TypeDef =
    | ObjectType(fields: map<string, TypeRef>, interfaces: seq<string>)
    | InterfaceType(fields: map<string, TypeRef>, interfaces: seq<string>)
    | UnionType(members: seq<string>)
    | EnumType(values: set<string>)
    | ScalarType

  function NamedType(t: TypeRef): string {
    match t
    case Named(name) => name
    case ListOf(of) => NamedType(of)
    case NonNull(of) => NamedType(of)
  }

  /** The types, and the order in which `getPossibleTypes` lists the objects. */
  datatype Schema = Schema(types: map<string, TypeDef>, order: seq<string>) {

    /** What building a GraphQL schema guarantees. */
    ghost predicate Valid() {
      && (forall name | name in order :: name in types)
      && (forall name | name in types && types[name].ObjectType? :: name in order)
      && (forall name, field | name in types && types[name].ObjectType? && field in types[name].fields ::
            NamedType(types[name].fields[field]) in types)
      && (forall name, i | name in types && types[name].ObjectType? && i in types[name].interfaces ::
            IsInterface(i))
      && (forall name, m | name in types && types[name].UnionType? && m in types[name].members :: IsObject(m))
    }

    predicate IsObject(name: string) {
      name in types && types[name].ObjectType?
    }

    predicate IsInterface(name: string) {
      name in types && types[name].InterfaceType?
    }

    predicate IsUnion(name: string) {
      name in types && types[name].UnionType?
    }

    predicate IsComposite(name: string) {
      IsObject(name) || IsInterface(name) || IsUnion(name)
    }

    function Implementing(candidates: seq<string>, interface: string): seq<string> {
      if candidates == [] then []
      else
        (if IsObject(candidates[0]) && interface in types[candidates[0]].interfaces then [candidates[0]] else [])
        + Implementing(candidates[1..], interface)
    }

    function PossibleTypes(name: string): seq<string> {
      if IsObject(name) then [name]
      else if IsUnion(name) then types[name].members
      else if IsInterface(name) then Implementing(order, name)
      else []
    }

    lemma ImplementingHolds(candidates: seq<string>, interface: string, runtime: string)
      ensures runtime in Implementing(candidates, interface) <==>
              runtime in candidates && IsObject(runtime) && interface in types[runtime].interfaces
    {
    }

    lemma PossibleAreObjects(name: string, runtime: string)
      requires Valid() && runtime in PossibleTypes(name)
      ensures IsObject(runtime)
    {
      ImplementingHolds(order, name, runtime);
    }
  }

  // ----- acyclic fragments (section 5.5.2.2 of the GraphQL specification) -----

  /** One more than the highest rank of a fragment spread below `selections`. */
  function SpreadRank(rank: map<string, nat>, selections: seq<Selection>): nat {
    if selections == [] then 0
    else Max(NodeRank(rank, selections[0]), SpreadRank(rank, selections[1..]))
  }

  function NodeRank(rank: map<string, nat>, s: Selection): nat {
    match s
    case Field(_, _, _, below) => SpreadRank(rank, below)
    case InlineFragment(_, _, below) => SpreadRank(rank, below)
    case FragmentSpread(name, _) => if name in rank then 1 + rank[name] else 0
  }

  ghost predicate IsRanking(fragments: FragmentMap, rank: map<string, nat>) {
    rank.Keys == fragments.Keys &&
    forall name | name in fragments :: SpreadRank(rank, fragments[name].node.selections) <= rank[name]
  }

  /** Fragments can be ranked so that each spreads only lower ones. */
  ghost predicate Acyclic(fragments: FragmentMap) {
    exists rank :: IsRanking(fragments, rank)
  }

  ghost function Ranking(fragments: FragmentMap): (rank: map<string, nat>)
    requires Acyclic(fragments)
    ensures IsRanking(fragments, rank)
  {
    var rank :| IsRanking(fragments, rank);
    rank
  }

  ghost function RankOf(fragments: FragmentMap, selections: seq<Selection>): nat
    requires Acyclic(fragments)
  {
    SpreadRank(Ranking(fragments), selections)
  }
}
