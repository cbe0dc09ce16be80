/** When a generated type may be relied on: what it asks for, and what is left of a selection set to answer it. */
module Coverage {
  import opened GraphQLAst
  import opened FragmentClosure
  import opened Schemas
  import opened Execution
  import opened SelectionTypes

  /** Inline fragments that the generator enters for `runtime`. */
  predicate Entered(schema: Schema, runtime: string, s: Selection)
    requires schema.IsObject(runtime)
  {
    s.InlineFragment? && s.typeCondition.Some? && CheckTypeCondition(schema, s.typeCondition.value, runtime)
  }

  /** Spreads that the generator turns into a reference for `runtime`. */
  predicate Referenced(schema: Schema, fragments: FragmentMap, runtime: string, s: Selection)
    requires schema.IsObject(runtime)
  {
    s.FragmentSpread? && s.name in fragments && CheckTypeCondition(schema, fragments[s.name].node.typeCondition, runtime)
  }

  /** The fields that answer a response key: those that the executor does not drop. */
  ghost function Answers(x: Executor, runtime: string, whole: seq<Selection>, key: string): (r: seq<Selection>)
    requires Acyclic(x.fragments)
    ensures forall f :: f in r <==> f in Collected(x, runtime, whole) && ResponseKey(f) == key
  {
    Grouped(Collected(x, runtime, whole), key)
  }

  lemma FirstAnswer(x: Executor, runtime: string, whole: seq<Selection>, key: string) returns (f: Selection)
    requires Acyclic(x.fragments) && Answers(x, runtime, whole, key) != []
    ensures f in Collected(x, runtime, whole) && ResponseKey(f) == key
    ensures f == Answers(x, runtime, whole, key)[0] && f in Answers(x, runtime, whole, key)
  {
    f := Answers(x, runtime, whole, key)[0];
    assert f in Answers(x, runtime, whole, key);
  }

  ghost predicate TypeNameAnswered(x: Executor, runtime: string, whole: seq<Selection>)
    requires Acyclic(x.fragments)
  {
    exists f | f in Answers(x, runtime, whole, "__typename") :: f.name == "__typename"
  }

  /**
    What the type of `part` asks of an object of type `runtime` is answered by `whole`: a field that nothing answers is
    nullable; what answers one is the same field of the schema, and its merged selections answer the field's own
    selections, for every type the field may have. Fields that are dropped, and fragments that are, ask all the same.
   */
  ghost predicate Covered(x: Executor, runtime: string, part: seq<Selection>, whole: seq<Selection>)
    requires Acyclic(x.fragments) && x.schema.IsObject(runtime)
    decreases RankOf(x.fragments, part), part
  {
    part == [] || (CoveredNode(x, runtime, part[0], whole) && Covered(x, runtime, part[1..], whole))
  }

  ghost predicate CoveredNode(x: Executor, runtime: string, s: Selection, whole: seq<Selection>)
    requires Acyclic(x.fragments) && x.schema.IsObject(runtime)
    decreases NodeRank(Ranking(x.fragments), s), s
  {
    match s
    case Field(_, name, _, below) =>
      if name == "__typename" then TypeNameAnswered(x, runtime, whole)
      else
        name in x.schema.types[runtime].fields ==>
          var t, answers := x.schema.types[runtime].fields[name], Answers(x, runtime, whole, ResponseKey(s));
          if answers == [] then !t.NonNull?
          else
            && (s in answers || answers[0].name == name)
            && forall r | r in x.schema.PossibleTypes(NamedType(t)) && x.schema.IsObject(r) :: Covered(x, r, below, Merged(answers))
    case InlineFragment(_, _, below) => Entered(x.schema, runtime, s) ==> Covered(x, runtime, below, whole)
    case FragmentSpread(name, _) =>
      Referenced(x.schema, x.fragments, runtime, s) ==> Covered(x, runtime, x.fragments[name].node.selections, whole)
  }

  /** Some assignment of the operation's variables drops what carries these directives. */
  predicate MayDrop(directives: seq<Directive>) {
    exists d | d in directives ::
      match d
      case Skip(Literal(value)) => value
      case Include(Literal(value)) => !value
      case _ => true
  }

  lemma MayDropExact(directives: seq<Directive>)
    ensures MayDrop(directives) <==> exists variables :: !Included(variables, directives)
  {
    if MayDrop(directives) {
      var d :| d in directives &&
               match d
               case Skip(Literal(value)) => value
               case Include(Literal(value)) => !value
               case _ => true;
      var variables: map<string, bool> := if d.Skip? && d.condition.Variable? then map[d.condition.name := true] else map[];
      assert !Included(variables, directives);
    }
  }

  lemma RanksBelow(fragments: FragmentMap, selections: seq<Selection>)
    requires Acyclic(fragments) && selections != []
    ensures var s, rank := selections[0], RankOf(fragments, selections);
            && RankOf(fragments, selections[1..]) <= rank
            && (!s.FragmentSpread? ==> RankOf(fragments, s.selections) <= rank)
            && (s.FragmentSpread? && s.name in fragments ==> RankOf(fragments, fragments[s.name].node.selections) < rank)
  {
    assert NodeRank(Ranking(fragments), selections[0]) <= RankOf(fragments, selections);
  }

  // ----- operations that drop nothing -----

  /** Under these variables nothing below is dropped, and `__typename` is not aliased. */
  ghost predicate Kept(x: Executor, selections: seq<Selection>)
    requires Acyclic(x.fragments)
    decreases RankOf(x.fragments, selections), selections
  {
    selections == [] || (KeptNode(x, selections[0]) && Kept(x, selections[1..]))
  }

  ghost predicate KeptNode(x: Executor, s: Selection)
    requires Acyclic(x.fragments)
    decreases NodeRank(Ranking(x.fragments), s), s
  {
    Included(x.variables, s.directives) &&
    match s
    case Field(_, name, _, below) => (name == "__typename" ==> ResponseKey(s) == "__typename") && Kept(x, below)
    case InlineFragment(_, _, below) => Kept(x, below)
    case FragmentSpread(name, _) => name in x.fragments ==> Kept(x, x.fragments[name].node.selections)
  }

  ghost predicate Within(x: Executor, runtime: string, part: seq<Selection>, whole: seq<Selection>)
    requires Acyclic(x.fragments)
  {
    forall f | Collects(x, runtime, part, f) :: Collects(x, runtime, whole, f)
  }

  lemma MemberCollects(x: Executor, runtime: string, selections: seq<Selection>, s: Selection, f: Selection)
    requires Acyclic(x.fragments) && s in selections && NodeCollects(x, runtime, s, f)
    ensures Collects(x, runtime, selections, f)
  {
    if s != selections[0] {
      MemberCollects(x, runtime, selections[1..], s, f);
    }
  }

  lemma SubsetWithin(x: Executor, runtime: string, part: seq<Selection>, whole: seq<Selection>)
    requires Acyclic(x.fragments) && forall s | s in part :: s in whole
    ensures Within(x, runtime, part, whole)
  {
    if part != [] {
      SubsetWithin(x, runtime, part[1..], whole);
      forall f | NodeCollects(x, runtime, part[0], f) ensures Collects(x, runtime, whole, f) {
        MemberCollects(x, runtime, whole, part[0], f);
      }
    }
  }

  lemma MergedHolds(fields: seq<Selection>, f: Selection, s: Selection)
    requires (forall h | h in fields :: h.Field?) && f in fields && s in f.selections
    ensures s in Merged(fields)
  {
    if f != fields[0] {
      MergedHolds(fields[1..], f, s);
    }
  }

  lemma ConditionApplies(schema: Schema, condition: string, runtime: string)
    requires schema.Valid() && schema.IsObject(runtime) && CheckTypeCondition(schema, condition, runtime)
    ensures Applies(schema, runtime, condition) && runtime in schema.PossibleTypes(condition)
  {
    if runtime != condition {
      assert schema.types[runtime].ObjectType? && schema.IsInterface(condition);
      schema.ImplementingHolds(schema.order, condition, runtime);
    }
  }

  /** What drops nothing answers itself, also when other selections are merged with it. */
  lemma {:induction false} KeptCovered(x: Executor, runtime: string, part: seq<Selection>, whole: seq<Selection>)
    requires Acyclic(x.fragments) && x.schema.Valid() && x.schema.IsObject(runtime)
    requires Kept(x, part) && Within(x, runtime, part, whole)
    ensures Covered(x, runtime, part, whole)
    decreases RankOf(x.fragments, part), part
  {
    if part != [] {
      RanksBelow(x.fragments, part);
      forall f | Collects(x, runtime, part[1..], f) ensures Collects(x, runtime, part, f) {
      }
      KeptCovered(x, runtime, part[1..], whole);
      forall f | NodeCollects(x, runtime, part[0], f) ensures Collects(x, runtime, whole, f) {
        assert Collects(x, runtime, part, f);
      }
      match part[0] {
        case Field(_, name, _, below) => KeptFieldCovered(x, runtime, part, whole);
        case InlineFragment(condition, _, below) =>
          if Entered(x.schema, runtime, part[0]) {
            ConditionApplies(x.schema, condition.value, runtime);
            assert Within(x, runtime, below, whole);
            KeptCovered(x, runtime, below, whole);
          }
        case FragmentSpread(name, _) =>
          if Referenced(x.schema, x.fragments, runtime, part[0]) {
            ConditionApplies(x.schema, x.fragments[name].node.typeCondition, runtime);
            assert Within(x, runtime, x.fragments[name].node.selections, whole);
            KeptCovered(x, runtime, x.fragments[name].node.selections, whole);
          }
      }
    }
  }

  lemma {:induction false} KeptFieldCovered(x: Executor, runtime: string, part: seq<Selection>, whole: seq<Selection>)
    requires Acyclic(x.fragments) && x.schema.Valid() && x.schema.IsObject(runtime)
    requires part != [] && part[0].Field? && KeptNode(x, part[0])
    requires forall f | NodeCollects(x, runtime, part[0], f) :: Collects(x, runtime, whole, f)
    ensures CoveredNode(x, runtime, part[0], whole)
    decreases RankOf(x.fragments, part), part, 0
  {
    var f := part[0];
    RanksBelow(x.fragments, part);
    assert NodeCollects(x, runtime, f, f);
    CollectFieldsExact(x, runtime, whole, f);
    var answers := Answers(x, runtime, whole, ResponseKey(f));
    assert f in answers;
    if f.name in x.schema.types[runtime].fields {
      var t := x.schema.types[runtime].fields[f.name];
      forall r | r in x.schema.PossibleTypes(NamedType(t)) && x.schema.IsObject(r) ensures Covered(x, r, f.selections, Merged(answers)) {
        forall s | s in f.selections ensures s in Merged(answers) {
          MergedHolds(answers, f, s);
        }
        SubsetWithin(x, r, f.selections, Merged(answers));
        KeptCovered(x, r, f.selections, Merged(answers));
      }
    }
  }
}
