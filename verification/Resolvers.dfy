/** src/util/mergeResolvers.ts and src/server/GraphQLSchemaManager.ts: installing resolvers into a schema. */
module Resolvers {
  import opened GraphQLAst

  /** A resolver map may hold a key with the value undefined; the key still counts as defined. */
  datatype Resolver = Undefined | Function(id: int)

  datatype TypeResolver = Record(fields: map<string, Resolver>) | ScalarInstance(id: int)

  type TypeResolvers = map<string, TypeResolver>

  datatype ResolversInput = Single(resolvers: TypeResolvers) | List(list: seq<TypeResolvers>)

  // ----- merging -----

  function Fields(resolvers: TypeResolvers, typeName: string): map<string, Resolver> {
    if typeName in resolvers && resolvers[typeName].Record? then resolvers[typeName].fields else map[]
  }

  function MergeOne(merged: TypeResolvers, resolvers: TypeResolvers, typeName: string): TypeResolver
    requires typeName in resolvers
  {
    match resolvers[typeName]
    case ScalarInstance(_) => resolvers[typeName]
    case Record(fields) => Record(Fields(merged, typeName) + fields)
  }

  function MergeInto(merged: TypeResolvers, resolvers: TypeResolvers): TypeResolvers {
    merged + map typeName | typeName in resolvers :: MergeOne(merged, resolvers, typeName)
  }

  function MergeList(list: seq<TypeResolvers>): TypeResolvers {
    if list == [] then map[] else MergeInto(MergeList(list[..|list| - 1]), list[|list| - 1])
  }

  function Merge(input: ResolversInput): TypeResolvers {
    match input
    case Single(resolvers) => resolvers
    case List(list) => MergeList(list)
  }

  /** The entries of one resolver map may come in any order: none reads what another writes. */
  method MergeResolvers(input: ResolversInput) returns (merged: TypeResolvers)
    ensures merged == Merge(input)
  {
    if input.Single? {
      return input.resolvers;
    }
    merged := map[];
    for i := 0 to |input.list|
      invariant merged == MergeList(input.list[..i])
    {
      merged := MergeEntries(merged, input.list[i]);
      assert input.list[..i + 1][..i] == input.list[..i];
    }
    assert input.list[..|input.list|] == input.list;
  }

  method MergeEntries(before: TypeResolvers, resolvers: TypeResolvers) returns (merged: TypeResolvers)
    ensures merged == MergeInto(before, resolvers)
  {
    merged := before;
    var todo := resolvers.Keys;
    NoneAndAllMerged(before, resolvers);
    while todo != {}
      invariant todo <= resolvers.Keys && merged == MergeSome(before, resolvers, todo)
      decreases |todo|
    {
      var typeName :| typeName in todo;
      OneMoreMerged(before, resolvers, todo, typeName);
      merged := merged[typeName := MergeOne(merged, resolvers, typeName)];
      todo := todo - {typeName};
    }
  }

  /** The entries of `resolvers` are merged, but for those still to do. */
  function MergeSome(merged: TypeResolvers, resolvers: TypeResolvers, todo: set<string>): TypeResolvers {
    merged + map typeName | typeName in resolvers && typeName !in todo :: MergeOne(merged, resolvers, typeName)
  }

  lemma NoneAndAllMerged(before: TypeResolvers, resolvers: TypeResolvers)
    ensures MergeSome(before, resolvers, resolvers.Keys) == before
    ensures MergeSome(before, resolvers, {}) == MergeInto(before, resolvers)
  {
  }

  /** No entry reads what another one writes. */
  lemma OneMoreMerged(before: TypeResolvers, resolvers: TypeResolvers, todo: set<string>, typeName: string)
    requires typeName in resolvers && typeName in todo
    ensures var merged := MergeSome(before, resolvers, todo);
            MergeSome(before, resolvers, todo - {typeName}) == merged[typeName := MergeOne(merged, resolvers, typeName)]
  {
    assert Fields(MergeSome(before, resolvers, todo), typeName) == Fields(before, typeName);
  }

  /** The last list element that defines a field, or -1. */
  function LastDefining(list: seq<TypeResolvers>, typeName: string, field: string): int {
    if list == [] then -1
    else if field in Fields(list[|list| - 1], typeName) then |list| - 1
    else LastDefining(list[..|list| - 1], typeName, field)
  }

  predicate OnlyRecords(list: seq<TypeResolvers>, typeName: string) {
    forall i | 0 <= i < |list| && typeName in list[i] :: list[i][typeName].Record?
  }

  /** Merged field by field: the last element that defines a field decides. */
  lemma {:induction false} LastElementWins(list: seq<TypeResolvers>, typeName: string, field: string)
    requires OnlyRecords(list, typeName)
    ensures typeName in MergeList(list) ==> MergeList(list)[typeName].Record?
    ensures typeName in MergeList(list) <==> exists i | 0 <= i < |list| :: typeName in list[i]
    ensures -1 <= LastDefining(list, typeName, field) < |list|
    ensures forall i | LastDefining(list, typeName, field) < i < |list| :: field !in Fields(list[i], typeName)
    ensures field in Fields(MergeList(list), typeName) <==> LastDefining(list, typeName, field) >= 0
    ensures LastDefining(list, typeName, field) >= 0 ==>
              var element := list[LastDefining(list, typeName, field)];
              field in Fields(element, typeName) &&
              Fields(MergeList(list), typeName)[field] == Fields(element, typeName)[field]
  {
    if list != [] {
      var init := list[..|list| - 1];
      assert OnlyRecords(init, typeName) by {
        assert forall i | 0 <= i < |init| :: init[i] == list[i];
      }
      LastElementWins(init, typeName, field);
      assert MergeList(list) == MergeInto(MergeList(init), list[|list| - 1]);
    }
  }

  // ----- the schema -----

  datatype SchemaType =
    | ObjectType(fields: set<string>, interfaces: seq<string>)
    | InterfaceType(fields: set<string>, interfaces: seq<string>)
    | UnionType
    | EnumType(values: set<string>)
    | ScalarType
    | InputObjectType

  /** The function-valued properties of the schema that resolvers are written to. */
  datatype Property =
    | Resolve(typeName: string, field: string)
    | Subscribe(typeName: string, field: string)
    | IsTypeOf(typeName: string)
    | ResolveType(typeName: string)

  datatype Outcome = Done | Threw

  predicate HasFields(t: SchemaType) {
    t.ObjectType? || t.InterfaceType?
  }

  datatype Schema = Schema(types: map<string, SchemaType>, subscriptionType: Option<string>) {

    function FieldProperty(typeName: string, field: string): Property {
      if subscriptionType == Some(typeName) then Subscribe(typeName, field) else Resolve(typeName, field)
    }

    /** The property that `__isTypeOf` or `__resolveType` sets, under its key. */
    function TypeKey(typeName: string): Option<(string, Property)>
      requires typeName in types
    {
      match types[typeName]
      case ObjectType(_, _) => Some(("__isTypeOf", IsTypeOf(typeName)))
      case InterfaceType(_, _) => Some(("__resolveType", ResolveType(typeName)))
      case UnionType => Some(("__resolveType", ResolveType(typeName)))
      case _ => None
    }

    function TypeWrites(typeName: string, resolver: map<string, Resolver>): map<Property, Resolver>
      requires typeName in types
    {
      match TypeKey(typeName)
      case Some((key, property)) => if key in resolver && resolver[key] != Undefined then map[property := resolver[key]] else map[]
      case None => map[]
    }

    function FieldWrites(typeName: string, resolver: map<string, Resolver>): map<Property, Resolver> {
      map field | field in resolver && !IsMeta(field) :: FieldProperty(typeName, field) := resolver[field]
    }

    predicate IsFieldOf(p: Property, typeName: string) {
      (p.Resolve? || p.Subscribe?) && p == FieldProperty(typeName, p.field)
    }

    lemma FieldWritesLookup(typeName: string, resolver: map<string, Resolver>)
      ensures forall p: Property ::
                Lookup(FieldWrites(typeName, resolver), p) ==
                if IsFieldOf(p, typeName) && p.field in resolver && !IsMeta(p.field) then Some(resolver[p.field]) else None
    {
    }

    lemma FieldWritesSet(before: map<Property, Resolver>, typeName: string, resolver: map<string, Resolver>)
      ensures FieldsSet(before, before + FieldWrites(typeName, resolver), subscriptionType == Some(typeName), typeName, resolver)
    {
    }

    /** All that `setResolversToType` writes when it does not throw. */
    function Writes(typeName: string, resolver: TypeResolver): map<Property, Resolver>
      requires typeName in types
    {
      match resolver
      case ScalarInstance(_) => map[]
      case Record(fields) =>
        TypeWrites(typeName, fields) + if HasFields(types[typeName]) then FieldWrites(typeName, fields) else map[]
    }

    predicate Accepts(typeName: string, resolver: TypeResolver)
      requires typeName in types
    {
      match types[typeName]
      case ObjectType(fields, _) => resolver.Record? && forall f | f in resolver.fields && !IsMeta(f) :: f in fields
      case InterfaceType(fields, _) => resolver.Record? && forall f | f in resolver.fields && !IsMeta(f) :: f in fields
      case UnionType => resolver.Record?
      case EnumType(values) => resolver.Record? && forall value | value in resolver.fields :: value in values
      case ScalarType => resolver.ScalarInstance?
      case InputObjectType => false
    }

    function Interfaces(typeName: string): seq<string>
      requires typeName in types
    {
      if HasFields(types[typeName]) then types[typeName].interfaces else []
    }

    predicate AcceptsInherited(typeName: string, interfaces: seq<string>, resolvers: TypeResolvers)
      requires typeName in types
    {
      forall i | i in interfaces && i in resolvers :: Accepts(typeName, resolvers[i])
    }

    predicate AcceptsAll(resolvers: TypeResolvers) {
      forall typeName | typeName in resolvers ::
        && typeName in types && Accepts(typeName, resolvers[typeName])
        && AcceptsInherited(typeName, Interfaces(typeName), resolvers)
    }

    /** The fields of a type that has fields. */
    function FieldsOf(typeName: string): set<string>
      requires typeName in types && HasFields(types[typeName])
    {
      types[typeName].fields
    }

    /**
      Acceptable: every named type exists and is no input type; a scalar instance goes to a scalar type and to nothing else;
      and of its own resolver and those of its interfaces, all field names are fields and all value names are values.
     */
    lemma AcceptsAllIff(resolvers: TypeResolvers)
      ensures AcceptsAll(resolvers) <==>
              forall t | t in resolvers ::
                && t in types && !types[t].InputObjectType?
                && forall name | name in resolvers && (name == t || name in Interfaces(t)) ::
                     && (resolvers[name].ScalarInstance? <==> types[t].ScalarType?)
                     && forall key | key in Fields(resolvers, name) ::
                          && (types[t].EnumType? ==> key in types[t].values)
                          && (HasFields(types[t]) && !IsMeta(key) ==> key in FieldsOf(t))
    {
      forall t | t in resolvers && t in types
        ensures (Accepts(t, resolvers[t]) && AcceptsInherited(t, Interfaces(t), resolvers)) <==>
                forall name | name in resolvers && (name == t || name in Interfaces(t)) :: Accepts(t, resolvers[name])
      {
      }
      forall t, name | t in types && name in resolvers
        ensures Accepts(t, resolvers[name]) <==>
                && !types[t].InputObjectType?
                && (resolvers[name].ScalarInstance? <==> types[t].ScalarType?)
                && forall key | key in Fields(resolvers, name) ::
                     && (types[t].EnumType? ==> key in types[t].values)
                     && (HasFields(types[t]) && !IsMeta(key) ==> key in FieldsOf(t))
      {
      }
    }

    /** What a property inherits: from the last declared interface whose resolver sets it, else the old value. */
    function Inherited(typeName: string, interfaces: seq<string>, resolvers: TypeResolvers, p: Property,
                       old': Option<Resolver>): Option<Resolver>
      requires typeName in types
    {
      if interfaces == [] then old'
      else
        var last := interfaces[|interfaces| - 1];
        if last in resolvers && p in Writes(typeName, resolvers[last]) then Some(Writes(typeName, resolvers[last])[p])
        else Inherited(typeName, interfaces[..|interfaces| - 1], resolvers, p, old')
    }

    /** The precedence rule. */
    function Final(resolvers: TypeResolvers, p: Property, old': Option<Resolver>): Option<Resolver> {
      if p.typeName !in resolvers || p.typeName !in types then old'
      else if p in Writes(p.typeName, resolvers[p.typeName]) then Some(Writes(p.typeName, resolvers[p.typeName])[p])
      else Inherited(p.typeName, Interfaces(p.typeName), resolvers, p, old')
    }

    ghost predicate AllInherited(typeName: string, interfaces: seq<string>, resolvers: TypeResolvers,
                                 start: map<Property, Resolver>, now: map<Property, Resolver>)
      requires typeName in types
    {
      forall p: Property | p.typeName == typeName :: Lookup(now, p) == Inherited(typeName, interfaces, resolvers, p, Lookup(start, p))
    }

    /** The next interface overrides the ones before it. */
    lemma OneMoreInterface(typeName: string, interfaces: seq<string>, i: nat, resolvers: TypeResolvers,
                           start: map<Property, Resolver>, before: map<Property, Resolver>, after: map<Property, Resolver>)
      requires typeName in types && i < |interfaces|
      requires AllInherited(typeName, interfaces[..i], resolvers, start, before)
      requires after == if interfaces[i] in resolvers then before + Writes(typeName, resolvers[interfaces[i]]) else before
      ensures AllInherited(typeName, interfaces[..i + 1], resolvers, start, after)
    {
      assert interfaces[..i + 1][..i] == interfaces[..i];
    }

    lemma WritesOwnType(typeName: string, resolver: TypeResolver)
      requires typeName in types
      ensures forall p | p in Writes(typeName, resolver) :: p.typeName == typeName
    {
    }

    /** For a field: its own resolver, else that of the last interface that defines it, else what was there. */
    function Precedence(resolvers: TypeResolvers, typeName: string, field: string, old': Option<Resolver>): Option<Resolver>
      requires typeName in types && HasFields(types[typeName])
    {
      if field in Fields(resolvers, typeName) then Some(Fields(resolvers, typeName)[field])
      else InheritedField(types[typeName].interfaces, resolvers, field, old')
    }

    /** It decides `subscribe` for the fields of the subscription type, and `resolve` for all others; the other property stays. */
    lemma FieldPrecedence(resolvers: TypeResolvers, typeName: string, field: string, old': Option<Resolver>)
      requires typeName in types && HasFields(types[typeName]) && typeName in resolvers && !IsMeta(field)
      ensures Final(resolvers, Resolve(typeName, field), old') ==
              if subscriptionType == Some(typeName) then old' else Precedence(resolvers, typeName, field, old')
      ensures Final(resolvers, Subscribe(typeName, field), old') ==
              if subscriptionType == Some(typeName) then Precedence(resolvers, typeName, field, old') else old'
    {
      FieldWritten(typeName, resolvers[typeName], field);
      InheritedFieldAgrees(typeName, types[typeName].interfaces, resolvers, field, old');
      var other := if subscriptionType == Some(typeName) then Resolve(typeName, field) else Subscribe(typeName, field);
      NeverWritten(typeName, types[typeName].interfaces, resolvers, other, old');
    }

    /** Of the two properties of a field, the other one. */
    lemma NeverWritten(typeName: string, interfaces: seq<string>, resolvers: TypeResolvers, p: Property, old': Option<Resolver>)
      requires typeName in types && (p.Resolve? || p.Subscribe?) && !IsFieldOf(p, typeName)
      ensures Inherited(typeName, interfaces, resolvers, p, old') == old'
      ensures forall resolver :: p !in Writes(typeName, resolver)
    {
    }

    /** The key of a resolver that sets `isTypeOf` or `resolveType`. */
    function KeyOf(t: SchemaType, p: Property): string
      requires p.IsTypeOf? || p.ResolveType?
    {
      if t.ObjectType? && p.IsTypeOf? then "__isTypeOf"
      else if (t.InterfaceType? || t.UnionType?) && p.ResolveType? then "__resolveType"
      else ""
    }

    predicate Sets(resolvers: TypeResolvers, name: string, key: string) {
      key != "" && key in Fields(resolvers, name) && Fields(resolvers, name)[key] != Undefined
    }

    /** `__isTypeOf` of an object type, `__resolveType` of an interface or a union: its own, else of the last interface that has one. */
    lemma TypePrecedence(resolvers: TypeResolvers, p: Property, old': Option<Resolver>)
      requires p.typeName in types && (p.IsTypeOf? || p.ResolveType?) && p.typeName in resolvers
      ensures var key := KeyOf(types[p.typeName], p);
              Final(resolvers, p, old') ==
              if Sets(resolvers, p.typeName, key) then Some(Fields(resolvers, p.typeName)[key])
              else InheritedKey(Interfaces(p.typeName), resolvers, key, old')
    {
      TypeWritten(resolvers[p.typeName], p);
      InheritedKeyAgrees(Interfaces(p.typeName), resolvers, p, old');
    }

    static function InheritedKey(interfaces: seq<string>, resolvers: TypeResolvers, key: string, old': Option<Resolver>): Option<Resolver> {
      if interfaces == [] then old'
      else
        var last := interfaces[|interfaces| - 1];
        if key != "" && key in Fields(resolvers, last) && Fields(resolvers, last)[key] != Undefined then Some(Fields(resolvers, last)[key])
        else InheritedKey(interfaces[..|interfaces| - 1], resolvers, key, old')
    }

    lemma TypeWritten(resolver: TypeResolver, p: Property)
      requires p.typeName in types && (p.IsTypeOf? || p.ResolveType?)
      ensures var key := KeyOf(types[p.typeName], p);
              (p in Writes(p.typeName, resolver) <==>
               key != "" && resolver.Record? && key in resolver.fields && resolver.fields[key] != Undefined) &&
              (p in Writes(p.typeName, resolver) ==> Writes(p.typeName, resolver)[p] == resolver.fields[key])
    {
    }

    lemma InheritedKeyAgrees(interfaces: seq<string>, resolvers: TypeResolvers, p: Property, old': Option<Resolver>)
      requires p.typeName in types && (p.IsTypeOf? || p.ResolveType?)
      ensures Inherited(p.typeName, interfaces, resolvers, p, old') ==
              InheritedKey(interfaces, resolvers, KeyOf(types[p.typeName], p), old')
    {
      if interfaces != [] {
        var last := interfaces[|interfaces| - 1];
        if last in resolvers {
          TypeWritten(resolvers[last], p);
        }
        InheritedKeyAgrees(interfaces[..|interfaces| - 1], resolvers, p, old');
      }
    }

    static function InheritedField(interfaces: seq<string>, resolvers: TypeResolvers, field: string,
                                   old': Option<Resolver>): Option<Resolver> {
      if interfaces == [] then old'
      else
        var last := interfaces[|interfaces| - 1];
        if field in Fields(resolvers, last) then Some(Fields(resolvers, last)[field])
        else InheritedField(interfaces[..|interfaces| - 1], resolvers, field, old')
    }

    lemma FieldWritten(typeName: string, resolver: TypeResolver, field: string)
      requires typeName in types && HasFields(types[typeName]) && !IsMeta(field)
      ensures var p := FieldProperty(typeName, field);
              (p in Writes(typeName, resolver) <==> resolver.Record? && field in resolver.fields) &&
              (p in Writes(typeName, resolver) ==> Writes(typeName, resolver)[p] == resolver.fields[field])
    {
    }

    lemma InheritedFieldAgrees(typeName: string, interfaces: seq<string>, resolvers: TypeResolvers, field: string,
                               old': Option<Resolver>)
      requires typeName in types && HasFields(types[typeName]) && !IsMeta(field)
      ensures Inherited(typeName, interfaces, resolvers, FieldProperty(typeName, field), old') ==
              InheritedField(interfaces, resolvers, field, old')
    {
      if interfaces != [] {
        var last := interfaces[|interfaces| - 1];
        if last in resolvers {
          FieldWritten(typeName, resolvers[last], field);
        }
        InheritedFieldAgrees(typeName, interfaces[..|interfaces| - 1], resolvers, field, old');
      }
    }
  }

  function Lookup(properties: map<Property, Resolver>, p: Property): Option<Resolver> {
    if p in properties then Some(properties[p]) else None
  }

  lemma SameLookups(a: map<Property, Resolver>, b: map<Property, Resolver>)
    requires forall p: Property :: Lookup(a, p) == Lookup(b, p)
    ensures a == b
  {
    assert forall p: Property :: p in a <==> Lookup(a, p).Some?;
    assert forall p: Property :: p in b <==> Lookup(b, p).Some?;
  }

  lemma PlusAssociates(a: map<Property, Resolver>, b: map<Property, Resolver>, c: map<Property, Resolver>)
    ensures (a + b) + c == a + (b + c) && a + b + map[] == a + b
  {
  }

  /** A resolver for a field of the subscription type is its `subscribe`, any other one its `resolve`; nothing else of the field changes. */
  ghost predicate FieldsSet(before: map<Property, Resolver>, after: map<Property, Resolver>, subscription: bool, typeName: string,
                            resolver: map<string, Resolver>) {
    && (forall field :: Lookup(after, Subscribe(typeName, field)) ==
                        if subscription && field in resolver && !IsMeta(field) then Some(resolver[field])
                        else Lookup(before, Subscribe(typeName, field)))
    && forall field :: Lookup(after, Resolve(typeName, field)) ==
                       if !subscription && field in resolver && !IsMeta(field) then Some(resolver[field])
                       else Lookup(before, Resolve(typeName, field))
  }

  class GraphQLSchemaManager {
    const schema: Schema
    var properties: map<Property, Resolver>

    constructor (schema: Schema)
      ensures this.schema == schema && properties == map[]
    {
      this.schema, this.properties := schema, map[];
    }

    method SetFieldResolvers(typeName: string, resolver: map<string, Resolver>) returns (r: Outcome)
      requires typeName in schema.types && HasFields(schema.types[typeName])
      modifies this
      ensures r == Done <==> forall f | f in resolver && !IsMeta(f) :: f in schema.types[typeName].fields
      ensures r == Done ==> properties == old(properties) + schema.FieldWrites(typeName, resolver)
      ensures r == Done ==> FieldsSet(old(properties), properties, schema.subscriptionType == Some(typeName), typeName, resolver)
      ensures forall p: Property | p.typeName != typeName :: Lookup(properties, p) == Lookup(old(properties), p)
    {
      var todo := resolver.Keys;
      while todo != {}
        invariant todo <= resolver.Keys
        invariant forall f | f in resolver && f !in todo && !IsMeta(f) :: f in schema.types[typeName].fields
        invariant forall p: Property ::
          Lookup(properties, p) ==
          if schema.IsFieldOf(p, typeName) && p.field in resolver && p.field !in todo && !IsMeta(p.field) then Some(resolver[p.field])
          else Lookup(old(properties), p)
        decreases |todo|
      {
        var fieldName :| fieldName in todo;
        todo := todo - {fieldName};
        if !IsMeta(fieldName) {
          if fieldName !in schema.types[typeName].fields {
            return Threw;
          }
          properties := properties[schema.FieldProperty(typeName, fieldName) := resolver[fieldName]];
        }
      }
      schema.FieldWritesLookup(typeName, resolver);
      SameLookups(properties, old(properties) + schema.FieldWrites(typeName, resolver));
      schema.FieldWritesSet(old(properties), typeName, resolver);
      r := Done;
    }

    method SetResolversToType(typeName: string, resolver: TypeResolver) returns (r: Outcome)
      requires typeName in schema.types
      modifies this
      ensures r == Done <==> schema.Accepts(typeName, resolver)
      ensures r == Done ==> properties == old(properties) + schema.Writes(typeName, resolver)
      ensures forall p: Property | p.typeName != typeName :: Lookup(properties, p) == Lookup(old(properties), p)
    {
      if schema.types[typeName].InputObjectType? || (schema.types[typeName].ScalarType? != resolver.ScalarInstance?) {
        return Threw;
      }
      r := Done;
      if resolver.Record? {
        ghost var typeWrites := schema.TypeWrites(typeName, resolver.fields);
        SetTypeProperty(typeName, resolver.fields);
        if HasFields(schema.types[typeName]) {
          PlusAssociates(old(properties), typeWrites, schema.FieldWrites(typeName, resolver.fields));
          r := SetFieldResolvers(typeName, resolver.fields);
        } else {
          PlusAssociates(old(properties), typeWrites, map[]);
          if schema.types[typeName].EnumType? {
            r := CheckEnumValues(schema.types[typeName].values, resolver.fields);
          }
        }
      }
    }

    /** The loop of `setResolversToEnumType`: the configuration has no entry for an unknown value, and writing to it throws. */
    method CheckEnumValues(values: set<string>, resolver: map<string, Resolver>) returns (r: Outcome)
      ensures r == Done <==> forall value | value in resolver :: value in values
    {
      var todo := resolver.Keys;
      while todo != {}
        invariant todo <= resolver.Keys && forall value | value in resolver && value !in todo :: value in values
        decreases |todo|
      {
        var value :| value in todo;
        if value !in values {
          return Threw;
        }
        todo := todo - {value};
      }
      r := Done;
    }

    method SetTypeProperty(typeName: string, resolver: map<string, Resolver>)
      requires typeName in schema.types
      modifies this
      ensures properties == old(properties) + schema.TypeWrites(typeName, resolver)
      ensures forall p: Property | p.typeName != typeName :: Lookup(properties, p) == Lookup(old(properties), p)
    {
      var key := schema.TypeKey(typeName);
      if key.Some? && key.value.0 in resolver && resolver[key.value.0] != Undefined {
        properties := properties[key.value.1 := resolver[key.value.0]];
      }
    }

    method SetInheritedResolversToType(typeName: string, resolvers: TypeResolvers) returns (r: Outcome)
      requires typeName in schema.types
      modifies this
      ensures r == Done <==> schema.AcceptsInherited(typeName, schema.Interfaces(typeName), resolvers)
      ensures r == Done ==> forall p: Property | p.typeName == typeName ::
                Lookup(properties, p) == schema.Inherited(typeName, schema.Interfaces(typeName), resolvers, p, Lookup(old(properties), p))
      ensures forall p: Property | p.typeName != typeName :: Lookup(properties, p) == Lookup(old(properties), p)
    {
      var interfaces := schema.Interfaces(typeName);
      for i := 0 to |interfaces|
        invariant schema.AcceptsInherited(typeName, interfaces[..i], resolvers)
        invariant schema.AllInherited(typeName, interfaces[..i], resolvers, old(properties), properties)
        invariant forall p: Property | p.typeName != typeName :: Lookup(properties, p) == Lookup(old(properties), p)
      {
        ghost var before := properties;
        if interfaces[i] in resolvers {
          r := SetResolversToType(typeName, resolvers[interfaces[i]]);
          if r == Threw {
            return;
          }
        }
        schema.OneMoreInterface(typeName, interfaces, i, resolvers, old(properties), before, properties);
        assert interfaces[..i + 1][..i] == interfaces[..i];
      }
      assert interfaces[..|interfaces|] == interfaces;
      r := Done;
    }

    method SetInheritedResolvers(resolvers: TypeResolvers) returns (r: Outcome)
      modifies this
      ensures r == Done <==> forall t | t in resolvers ::
                t in schema.types && schema.AcceptsInherited(t, schema.Interfaces(t), resolvers)
      ensures r == Done ==> forall p: Property ::
                Lookup(properties, p) ==
                if p.typeName in resolvers && p.typeName in schema.types then
                  schema.Inherited(p.typeName, schema.Interfaces(p.typeName), resolvers, p, Lookup(old(properties), p))
                else Lookup(old(properties), p)
      ensures forall p: Property | p.typeName !in resolvers :: Lookup(properties, p) == Lookup(old(properties), p)
    {
      var todo := resolvers.Keys;
      while todo != {}
        invariant todo <= resolvers.Keys
        invariant forall t | t in resolvers && t !in todo ::
          t in schema.types && schema.AcceptsInherited(t, schema.Interfaces(t), resolvers)
        invariant forall p: Property ::
          Lookup(properties, p) ==
          if p.typeName in resolvers && p.typeName !in todo && p.typeName in schema.types then
            schema.Inherited(p.typeName, schema.Interfaces(p.typeName), resolvers, p, Lookup(old(properties), p))
          else Lookup(old(properties), p)
        decreases |todo|
      {
        var typeName :| typeName in todo;
        if typeName !in schema.types {
          return Threw;
        }
        r := SetInheritedResolversToType(typeName, resolvers);
        if r == Threw {
          return;
        }
        todo := todo - {typeName};
      }
      r := Done;
    }

    method SetResolversWithoutInheritance(resolvers: TypeResolvers) returns (r: Outcome)
      modifies this
      ensures r == Done <==> forall t | t in resolvers :: t in schema.types && schema.Accepts(t, resolvers[t])
      ensures r == Done ==> forall p: Property ::
                Lookup(properties, p) ==
                if p.typeName in resolvers && p.typeName in schema.types && p in schema.Writes(p.typeName, resolvers[p.typeName]) then
                  Some(schema.Writes(p.typeName, resolvers[p.typeName])[p])
                else Lookup(old(properties), p)
      ensures forall p: Property | p.typeName !in resolvers :: Lookup(properties, p) == Lookup(old(properties), p)
    {
      var todo := resolvers.Keys;
      while todo != {}
        invariant todo <= resolvers.Keys
        invariant forall t | t in resolvers && t !in todo :: t in schema.types && schema.Accepts(t, resolvers[t])
        invariant forall p: Property ::
          Lookup(properties, p) ==
          if p.typeName in resolvers && p.typeName !in todo && p.typeName in schema.types &&
             p in schema.Writes(p.typeName, resolvers[p.typeName]) then
            Some(schema.Writes(p.typeName, resolvers[p.typeName])[p])
          else Lookup(old(properties), p)
        decreases |todo|
      {
        var typeName :| typeName in todo;
        if typeName !in schema.types {
          return Threw;
        }
        schema.WritesOwnType(typeName, resolvers[typeName]);
        r := SetResolversToType(typeName, resolvers[typeName]);
        if r == Threw {
          return;
        }
        todo := todo - {typeName};
      }
      r := Done;
    }

    /** Succeeds exactly on acceptable input, and then every property obeys the precedence rule. */
    method SetResolvers(input: ResolversInput) returns (r: Outcome)
      modifies this
      ensures r == Done <==> schema.AcceptsAll(Merge(input))
      ensures r == Done ==> forall p: Property :: Lookup(properties, p) == schema.Final(Merge(input), p, Lookup(old(properties), p))
      ensures r == Done ==> forall t, field | t in Merge(input) && t in schema.types && HasFields(schema.types[t]) && !IsMeta(field) ::
                FieldSet(old(properties), Merge(input), t, field)
      ensures forall p: Property | p.typeName !in Merge(input) :: Lookup(properties, p) == Lookup(old(properties), p)
    {
      var merged := MergeResolvers(input);
      r := SetInheritedResolvers(merged);
      if r == Done {
        r := SetResolversWithoutInheritance(merged);
      }
      if r == Done {
        forall t, field | t in merged && t in schema.types && HasFields(schema.types[t]) && !IsMeta(field)
          ensures FieldSet(old(properties), merged, t, field)
        {
          schema.FieldPrecedence(merged, t, field, Lookup(old(properties), Resolve(t, field)));
          schema.FieldPrecedence(merged, t, field, Lookup(old(properties), Subscribe(t, field)));
        }
      }
    }

    /** A field of the subscription type gets its resolver as `subscribe`, any other field as `resolve`. */
    ghost predicate FieldSet(before: map<Property, Resolver>, resolvers: TypeResolvers, t: string, field: string)
      requires t in schema.types && HasFields(schema.types[t])
      reads this
    {
      var resolve, subscribe := Resolve(t, field), Subscribe(t, field);
      if schema.subscriptionType == Some(t) then
        && Lookup(properties, subscribe) == schema.Precedence(resolvers, t, field, Lookup(before, subscribe))
        && Lookup(properties, resolve) == Lookup(before, resolve)
      else
        && Lookup(properties, resolve) == schema.Precedence(resolvers, t, field, Lookup(before, resolve))
        && Lookup(properties, subscribe) == Lookup(before, subscribe)
    }
  }
}
