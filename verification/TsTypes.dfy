/** The emitted TypeScript types, and which decoded responses inhabit them. */
module TsTypes {
  import opened GraphQLAst
  import opened Execution

  datatype Ts =
    | ObjectLiteral(properties: seq<Property>)
    | Intersection(parts: seq<Ts>)
    | Union(alternatives: seq<Ts>)
    | Array(of: Ts)
    | Maybe(of: Ts)
    | TypeNameLiteral(typeName: string)
    | LeafReference(name: string)
    | FragmentReference(name: string)

  datatype Property = Property(key: string, optional: bool, ts: Ts)

  /** The exported fragment types by name, and the meaning of every referenced leaf type. */
  datatype TsEnvironment = TsEnvironment(fragmentTypes: map<string, Ts>, leaf: (string, Value) -> bool)

  /** Structural typing: an object may have more properties than its type lists. */
  least predicate Inhabits(env: TsEnvironment, ts: Ts, v: Value) {
    match ts
    case ObjectLiteral(properties) =>
      v.Obj? && forall i | 0 <= i < |properties| :: PropertyHolds(env, properties[i], v)
    case Intersection(parts) => forall i | 0 <= i < |parts| :: Inhabits(env, parts[i], v)
    case Union(alternatives) => exists i | 0 <= i < |alternatives| :: Inhabits(env, alternatives[i], v)
    case Array(of) => v.Arr? && forall i | 0 <= i < |v.items| :: Inhabits(env, of, v.items[i])
    case Maybe(of) => v == Null || Inhabits(env, of, v)
    case TypeNameLiteral(typeName) => v == Str(typeName)
    case LeafReference(name) => env.leaf(name, v)
    case FragmentReference(name) => name in env.fragmentTypes && Inhabits(env, env.fragmentTypes[name], v)
  }

  least predicate PropertyHolds(env: TsEnvironment, p: Property, v: Value) {
    v.Obj? && if p.key in v.fields then Inhabits(env, p.ts, v.fields[p.key]) else p.optional
  }
}
