/** Which responses an operation can have: sections 6.3.2 and 6.4.3 of the GraphQL specification (October 2021). */
module Execution {
  import opened GraphQLAst
  import opened FragmentClosure
  import opened Schemas

  /** A value of a response, as decoded from JSON. */
  datatype Value =
    | Null
    | Num(number: real)
    | Str(text: string)
    | Bool(flag: bool)
    | Arr(items: seq<Value>)
    | Obj(fields: map<string, Value>)

  /** `serializes(t, v)`: serialising a value of leaf type `t` can give `v`. */
  datatype Executor = Executor(
    schema: Schema, fragments: FragmentMap, variables: map<string, bool>, serializes: (string, Value) -> bool)

  function ResponseKey(s: Selection): string
    requires s.Field?
  {
    match s.alias
    case None => s.name
    case Some(alias) => alias
  }

  predicate Holds(variables: map<string, bool>, c: Condition) {
    match c
    case Literal(value) => value
    case Variable(name) => name in variables && variables[name]
  }

  predicate Included(variables: map<string, bool>, directives: seq<Directive>) {
    forall d | d in directives ::
      match d
      case Skip(c) => !Holds(variables, c)
      case Include(c) => Holds(variables, c)
  }

  /** DoesFragmentTypeApply. */
  predicate Applies(schema: Schema, runtime: string, condition: string) {
    schema.IsObject(runtime) &&
    if schema.IsUnion(condition) then runtime in schema.types[condition].members
    else runtime == condition || condition in schema.types[runtime].interfaces
  }

  predicate InlineApplies(schema: Schema, runtime: string, condition: Option<string>) {
    condition.None? || Applies(schema, runtime, condition.value)
  }

  // ----- CollectFields, with its set of visited fragments -----

  function CollectNode(x: Executor, runtime: string, s: Selection, visited: set<string>): (r: (seq<Selection>, set<string>))
    requires Acyclic(x.fragments)
    decreases NodeRank(Ranking(x.fragments), s), s
  {
    if !Included(x.variables, s.directives) then ([], visited)
    else
      match s
      case Field(_, _, _, _) => ([s], visited)
      case InlineFragment(condition, _, below) =>
        if InlineApplies(x.schema, runtime, condition) then CollectFields(x, runtime, below, visited) else ([], visited)
      case FragmentSpread(name, _) =>
        if name in visited then ([], visited)
        else if name in x.fragments && Applies(x.schema, runtime, x.fragments[name].node.typeCondition) then
          CollectFields(x, runtime, x.fragments[name].node.selections, visited + {name})
        else ([], visited + {name})
  }

  function CollectFields(x: Executor, runtime: string, selections: seq<Selection>, visited: set<string>)
    : (r: (seq<Selection>, set<string>))
    requires Acyclic(x.fragments)
    decreases RankOf(x.fragments, selections), selections
  {
    if selections == [] then ([], visited)
    else
      var (first, seen) := CollectNode(x, runtime, selections[0], visited);
      var (rest, all) := CollectFields(x, runtime, selections[1..], seen);
      (first + rest, all)
  }

  // ----- what is collected, without the visited set -----

  ghost predicate NodeCollects(x: Executor, runtime: string, s: Selection, f: Selection)
    requires Acyclic(x.fragments)
    decreases NodeRank(Ranking(x.fragments), s), s
  {
    Included(x.variables, s.directives) &&
    match s
    case Field(_, _, _, _) => f == s
    case InlineFragment(condition, _, below) =>
      InlineApplies(x.schema, runtime, condition) && Collects(x, runtime, below, f)
    case FragmentSpread(name, _) =>
      && name in x.fragments && Applies(x.schema, runtime, x.fragments[name].node.typeCondition)
      && Collects(x, runtime, x.fragments[name].node.selections, f)
  }

  /** Field `f` is selected for `runtime`, directly or through fragments that apply. */
  ghost predicate Collects(x: Executor, runtime: string, selections: seq<Selection>, f: Selection)
    requires Acyclic(x.fragments)
    decreases RankOf(x.fragments, selections), selections
  {
    selections != [] && (NodeCollects(x, runtime, selections[0], f) || Collects(x, runtime, selections[1..], f))
  }

  /** `f` is selected through a visited fragment ranked below `bound`. */
  ghost predicate Earlier(x: Executor, runtime: string, visited: set<string>, bound: nat, f: Selection)
    requires Acyclic(x.fragments)
  {
    exists n | n in visited && n in x.fragments ::
      && Ranking(x.fragments)[n] < bound && Applies(x.schema, runtime, x.fragments[n].node.typeCondition)
      && Collects(x, runtime, x.fragments[n].node.selections, f)
  }

  /** The state of a collection that started with `visited`: nothing visited since then is lost. */
  ghost predicate Covers(x: Executor, runtime: string, visited: set<string>, bound: nat,
                         fields: seq<Selection>, seen: set<string>)
    requires Acyclic(x.fragments)
  {
    && visited <= seen
    && forall n | n in seen && n !in visited && n in x.fragments ::
         && Ranking(x.fragments)[n] < bound
         && CoversFragment(x, runtime, visited, n, fields)
  }

  ghost predicate CoversFragment(x: Executor, runtime: string, visited: set<string>, n: string, fields: seq<Selection>)
    requires Acyclic(x.fragments) && n in x.fragments
  {
    Applies(x.schema, runtime, x.fragments[n].node.typeCondition) ==>
      forall f | Collects(x, runtime, x.fragments[n].node.selections, f) ::
        f in fields || Earlier(x, runtime, visited, Ranking(x.fragments)[n], f)
  }

  lemma {:induction false} CollectNodeComplete(x: Executor, runtime: string, s: Selection, visited: set<string>)
    requires Acyclic(x.fragments)
    ensures var (fields, seen) := CollectNode(x, runtime, s, visited);
            var bound := NodeRank(Ranking(x.fragments), s);
            && Covers(x, runtime, visited, bound, fields, seen)
            && forall f | NodeCollects(x, runtime, s, f) :: f in fields || Earlier(x, runtime, visited, bound, f)
    decreases NodeRank(Ranking(x.fragments), s), s
  {
    if Included(x.variables, s.directives) {
      match s
      case Field(_, _, _, _) =>
      case InlineFragment(condition, _, below) =>
        if InlineApplies(x.schema, runtime, condition) {
          CollectFieldsComplete(x, runtime, below, visited);
        }
      case FragmentSpread(name, _) =>
        if name !in visited && name in x.fragments && Applies(x.schema, runtime, x.fragments[name].node.typeCondition) {
          CollectFieldsComplete(x, runtime, x.fragments[name].node.selections, visited + {name});
          SpreadComplete(x, runtime, name, visited);
        }
    }
  }

  lemma EarlierWithout(x: Executor, runtime: string, visited: set<string>, name: string, bound: nat, f: Selection)
    requires Acyclic(x.fragments) && name in x.fragments && bound <= Ranking(x.fragments)[name]
    requires Earlier(x, runtime, visited + {name}, bound, f)
    ensures Earlier(x, runtime, visited, bound, f)
  {
  }

  lemma EarlierWeakens(x: Executor, runtime: string, visited: set<string>, bound: nat, larger: nat, f: Selection)
    requires Acyclic(x.fragments) && bound <= larger && Earlier(x, runtime, visited, bound, f)
    ensures Earlier(x, runtime, visited, larger, f)
  {
  }

  lemma SpreadComplete(x: Executor, runtime: string, name: string, visited: set<string>)
    requires Acyclic(x.fragments) && name !in visited && name in x.fragments
    requires Applies(x.schema, runtime, x.fragments[name].node.typeCondition)
    requires var below := x.fragments[name].node.selections;
             var (fields, seen) := CollectFields(x, runtime, below, visited + {name});
             && Covers(x, runtime, visited + {name}, RankOf(x.fragments, below), fields, seen)
             && forall f | Collects(x, runtime, below, f) ::
                  f in fields || Earlier(x, runtime, visited + {name}, RankOf(x.fragments, below), f)
    ensures var below := x.fragments[name].node.selections;
            var (fields, seen) := CollectFields(x, runtime, below, visited + {name});
            var rank := Ranking(x.fragments)[name];
            && Covers(x, runtime, visited, 1 + rank, fields, seen)
            && forall f | Collects(x, runtime, below, f) :: f in fields || Earlier(x, runtime, visited, 1 + rank, f)
  {
    var below := x.fragments[name].node.selections;
    var (fields, seen) := CollectFields(x, runtime, below, visited + {name});
    var rank := Ranking(x.fragments)[name];
    forall f | Collects(x, runtime, below, f) ensures f in fields || Earlier(x, runtime, visited, rank, f) {
      if f !in fields {
        EarlierWithout(x, runtime, visited, name, RankOf(x.fragments, below), f);
        EarlierWeakens(x, runtime, visited, RankOf(x.fragments, below), rank, f);
      }
    }
    forall f | Collects(x, runtime, below, f) && f !in fields ensures Earlier(x, runtime, visited, 1 + rank, f) {
      EarlierWeakens(x, runtime, visited, rank, 1 + rank, f);
    }
    forall n | n in seen && n !in visited && n in x.fragments
      ensures Ranking(x.fragments)[n] < 1 + rank && CoversFragment(x, runtime, visited, n, fields)
    {
      if n != name {
        assert CoversFragment(x, runtime, visited + {name}, n, fields);
        forall f | Earlier(x, runtime, visited + {name}, Ranking(x.fragments)[n], f)
          ensures Earlier(x, runtime, visited, Ranking(x.fragments)[n], f)
        {
          EarlierWithout(x, runtime, visited, name, Ranking(x.fragments)[n], f);
        }
      }
    }
  }

  lemma {:induction false} CollectFieldsComplete(x: Executor, runtime: string, selections: seq<Selection>, visited: set<string>)
    requires Acyclic(x.fragments)
    ensures var (fields, seen) := CollectFields(x, runtime, selections, visited);
            var bound := RankOf(x.fragments, selections);
            && Covers(x, runtime, visited, bound, fields, seen)
            && forall f | Collects(x, runtime, selections, f) :: f in fields || Earlier(x, runtime, visited, bound, f)
    decreases RankOf(x.fragments, selections), selections
  {
    if selections != [] {
      CollectNodeComplete(x, runtime, selections[0], visited);
      var (first, seen) := CollectNode(x, runtime, selections[0], visited);
      CollectFieldsComplete(x, runtime, selections[1..], seen);
      var (rest, all) := CollectFields(x, runtime, selections[1..], seen);
      var bound := RankOf(x.fragments, selections);
      var b0, b1 := NodeRank(Ranking(x.fragments), selections[0]), RankOf(x.fragments, selections[1..]);
      forall f, b: nat | Earlier(x, runtime, seen, b, f) && b <= bound
        ensures f in first || Earlier(x, runtime, visited, b, f)
      {
        EarlierSteps(x, runtime, visited, b0, first, seen, b, f);
      }
      forall f | Collects(x, runtime, selections, f) ensures f in first + rest || Earlier(x, runtime, visited, bound, f) {
        if NodeCollects(x, runtime, selections[0], f) {
          if f !in first {
            EarlierWeakens(x, runtime, visited, b0, bound, f);
          }
        } else if f !in rest {
          assert Earlier(x, runtime, seen, b1, f);
          if f !in first {
            EarlierWeakens(x, runtime, visited, b1, bound, f);
          }
        }
      }
      forall n | n in all && n !in visited && n in x.fragments
        ensures Ranking(x.fragments)[n] < bound && CoversFragment(x, runtime, visited, n, first + rest)
      {
        if n in seen {
          assert CoversFragment(x, runtime, visited, n, first);
        } else {
          assert CoversFragment(x, runtime, seen, n, rest);
        }
      }
    }
  }

  lemma EarlierSteps(x: Executor, runtime: string, visited: set<string>, b0: nat, first: seq<Selection>, seen: set<string>,
                     b: nat, f: Selection)
    requires Acyclic(x.fragments) && Covers(x, runtime, visited, b0, first, seen)
    requires Earlier(x, runtime, seen, b, f)
    ensures f in first || Earlier(x, runtime, visited, b, f)
  {
    var n :| n in seen && n in x.fragments && Ranking(x.fragments)[n] < b &&
             Applies(x.schema, runtime, x.fragments[n].node.typeCondition) &&
             Collects(x, runtime, x.fragments[n].node.selections, f);
    if n !in visited {
      assert CoversFragment(x, runtime, visited, n, first);
      if f !in first {
        EarlierWeakens(x, runtime, visited, Ranking(x.fragments)[n], b, f);
      }
    }
  }

  lemma {:induction false} CollectNodeSound(x: Executor, runtime: string, s: Selection, visited: set<string>)
    requires Acyclic(x.fragments)
    ensures forall f | f in CollectNode(x, runtime, s, visited).0 :: f.Field? && NodeCollects(x, runtime, s, f)
    decreases NodeRank(Ranking(x.fragments), s), s
  {
    if Included(x.variables, s.directives) {
      match s
      case Field(_, _, _, _) =>
      case InlineFragment(condition, _, below) => CollectFieldsSound(x, runtime, below, visited);
      case FragmentSpread(name, _) =>
        if name in x.fragments {
          CollectFieldsSound(x, runtime, x.fragments[name].node.selections, visited + {name});
        }
    }
  }

  lemma {:induction false} CollectFieldsSound(x: Executor, runtime: string, selections: seq<Selection>, visited: set<string>)
    requires Acyclic(x.fragments)
    ensures forall f | f in CollectFields(x, runtime, selections, visited).0 :: f.Field? && Collects(x, runtime, selections, f)
    decreases RankOf(x.fragments, selections), selections
  {
    if selections != [] {
      CollectNodeSound(x, runtime, selections[0], visited);
      CollectFieldsSound(x, runtime, selections[1..], CollectNode(x, runtime, selections[0], visited).1);
    }
  }

  /** Skipping visited fragments loses no field: the algorithm collects exactly what the fragments select. */
  lemma CollectFieldsExact(x: Executor, runtime: string, selections: seq<Selection>, f: Selection)
    requires Acyclic(x.fragments)
    ensures f in CollectFields(x, runtime, selections, {}).0 <==> Collects(x, runtime, selections, f)
  {
    CollectFieldsComplete(x, runtime, selections, {});
    CollectFieldsSound(x, runtime, selections, {});
  }

  // ----- responses -----

  function Grouped(fields: seq<Selection>, key: string): (r: seq<Selection>)
    requires forall f | f in fields :: f.Field?
    ensures forall f :: f in r <==> f in fields && ResponseKey(f) == key
  {
    if fields == [] then []
    else (if ResponseKey(fields[0]) == key then [fields[0]] else []) + Grouped(fields[1..], key)
  }

  /** MergeSelectionSets. */
  function Merged(fields: seq<Selection>): seq<Selection>
    requires forall f | f in fields :: f.Field?
  {
    if fields == [] then [] else fields[0].selections + Merged(fields[1..])
  }

  ghost function Collected(x: Executor, runtime: string, selections: seq<Selection>): (r: seq<Selection>)
    requires Acyclic(x.fragments)
    ensures forall f | f in r :: f.Field?
  {
    CollectFieldsSound(x, runtime, selections, {});
    CollectFields(x, runtime, selections, {}).0
  }

  /** `v` is a result of ExecuteSelectionSet on an object of type `runtime`. */
  ghost predicate Response(x: Executor, runtime: string, selections: seq<Selection>, v: Value)
    requires Acyclic(x.fragments)
    decreases v, 1
  {
    && v.Obj?
    && x.schema.IsObject(runtime)
    && (forall f | f in Collected(x, runtime, selections) :: ResponseKey(f) in v.fields)
    && forall key | key in v.fields ::
         var group := Grouped(Collected(x, runtime, selections), key);
         && group != []
         && (forall f | f in group :: f.name == group[0].name) // section 5.3.2: fields that share a key agree
         && if group[0].name == "__typename" then v.fields[key] == Str(runtime)
            else group[0].name in x.schema.types[runtime].fields &&
                 Completes(x, x.schema.types[runtime].fields[group[0].name], Merged(group), v.fields[key])
  }

  /** `v` is a result of CompleteValue for a field of type `t`. */
  ghost predicate Completes(x: Executor, t: TypeRef, selections: seq<Selection>, v: Value)
    requires Acyclic(x.fragments)
    decreases v, 2, t
  {
    match t
    case NonNull(of) => v != Null && Completes(x, of, selections, v)
    case ListOf(of) => v == Null || (v.Arr? && forall i | 0 <= i < |v.items| :: Completes(x, of, selections, v.items[i]))
    case Named(name) =>
      v == Null ||
      if x.schema.IsComposite(name) then exists runtime | runtime in x.schema.PossibleTypes(name) :: Response(x, runtime, selections, v)
      else x.serializes(name, v)
  }
}
