/** src/codegen/ClientCodeGenerator.ts: the fragment map, and the fragments shipped with an operation. */
module FragmentClosure {
  import opened GraphQLAst

  datatype FragmentMapEntry = FragmentMapEntry(node: FragmentNode, dependencies: seq<string>)

  type FragmentMap = map<string, FragmentMapEntry>

  // ----- reachability through spreads -----

  /** Each name of the chain but the last is a known fragment that spreads the next one. */
  predicate IsChain(fragments: FragmentMap, chain: seq<string>) {
    |chain| > 1 ==>
      chain[0] in fragments && chain[1] in fragments[chain[0]].dependencies && IsChain(fragments, chain[1..])
  }

  ghost predicate Reachable(fragments: FragmentMap, roots: seq<string>, name: string) {
    exists chain :: IsChain(fragments, chain) && chain != [] && chain[0] in roots && chain[|chain| - 1] == name
  }

  lemma ReachRoot(fragments: FragmentMap, roots: seq<string>, name: string)
    requires name in roots
    ensures Reachable(fragments, roots, name)
  {
    assert IsChain(fragments, [name]);
  }

  lemma ReachThrough(fragments: FragmentMap, roots: seq<string>, first: string, name: string)
    requires first in roots && first in fragments && Reachable(fragments, fragments[first].dependencies, name)
    ensures Reachable(fragments, roots, name)
  {
    var chain :| IsChain(fragments, chain) && chain != [] && chain[0] in fragments[first].dependencies &&
                 chain[|chain| - 1] == name;
    assert ([first] + chain)[1..] == chain;
    assert IsChain(fragments, [first] + chain);
  }

  /** `names` holds every fragment that `name` spreads. */
  predicate Finished(fragments: FragmentMap, names: seq<string>, name: string) {
    name in fragments && forall d | d in fragments[name].dependencies :: d in names
  }

  predicate Closed(fragments: FragmentMap, names: seq<string>) {
    forall name | name in names :: Finished(fragments, names, name)
  }

  lemma {:induction false} ClosedHoldsReachable(fragments: FragmentMap, names: seq<string>, chain: seq<string>)
    requires Closed(fragments, names)
    requires IsChain(fragments, chain) && chain != [] && chain[0] in names
    ensures chain[|chain| - 1] in names
    decreases |chain|
  {
    if |chain| > 1 {
      assert Finished(fragments, names, chain[0]);
      ClosedHoldsReachable(fragments, names, chain[1..]);
    }
  }

  lemma ReachOneMore(fragments: FragmentMap, chain: seq<string>, next: string)
    requires IsChain(fragments, chain) && chain != []
    requires chain[|chain| - 1] in fragments && next in fragments[chain[|chain| - 1]].dependencies
    ensures IsChain(fragments, chain + [next])
  {
    if |chain| > 1 {
      ReachOneMore(fragments, chain[1..], next);
      assert (chain + [next])[1..] == chain[1..] + [next];
    }
  }

  lemma ReachNext(fragments: FragmentMap, roots: seq<string>, name: string, next: string)
    requires Reachable(fragments, roots, name) && name in fragments && next in fragments[name].dependencies
    ensures Reachable(fragments, roots, next)
  {
    var chain :| IsChain(fragments, chain) && chain != [] && chain[0] in roots && chain[|chain| - 1] == name;
    ReachOneMore(fragments, chain, next);
  }

  ghost predicate IsReachableSet(fragments: FragmentMap, roots: seq<string>, names: seq<string>) {
    forall name :: name in names <==> Reachable(fragments, roots, name)
  }

  /** What is shipped is self-contained: no spread, at any nesting, leads outside. */
  lemma ShippedIsClosed(fragments: FragmentMap, roots: seq<string>, names: seq<string>)
    requires IsReachableSet(fragments, roots, names) && forall name | name in names :: name in fragments
    ensures Closed(fragments, names) && forall name | name in roots :: name in names
  {
    forall name | name in roots ensures name in names {
      ReachRoot(fragments, roots, name);
    }
    forall name | name in names ensures Finished(fragments, names, name) {
      forall d | d in fragments[name].dependencies ensures d in names {
        ReachNext(fragments, roots, name, d);
      }
    }
  }

  /** What is shipped is minimal: every closed set with the operation's spreads contains it. */
  lemma ShippedIsLeast(fragments: FragmentMap, roots: seq<string>, names: seq<string>, others: seq<string>)
    requires IsReachableSet(fragments, roots, names)
    requires Closed(fragments, others) && forall name | name in roots :: name in others
    ensures forall name | name in names :: name in others
  {
    forall name | name in names ensures name in others {
      assert Reachable(fragments, roots, name);
      var chain :| IsChain(fragments, chain) && chain != [] && chain[0] in roots && chain[|chain| - 1] == name;
      ClosedHoldsReachable(fragments, others, chain);
    }
  }

  // ----- insertion-ordered sets -----

  function Insert(names: seq<string>, name: string): seq<string> {
    if name in names then names else names + [name]
  }

  method ToSet(names: seq<string>) returns (r: seq<string>)
    ensures NoRepeat(r) && forall name :: name in r <==> name in names
  {
    r := [];
    for i := 0 to |names|
      invariant NoRepeat(r) && forall name :: name in r <==> name in names[..i]
    {
      r := Insert(r, names[i]);
    }
  }

  // ----- the generator -----

  datatype Collection = Complete(names: seq<string>) | Missing(name: string)

  class ClientCodeGenerator {
    const operations: Document
    var fragmentMap: FragmentMap

    constructor (operations: Document)
      ensures this.operations == operations && MapsFragments(operations.definitions, fragmentMap)
    {
      this.operations := operations;
      this.fragmentMap := map[];
      new;
      InitFragmentMap();
    }

    /** The last definition of a name wins. */
    method InitFragmentMap()
      requires fragmentMap == map[]
      modifies this`fragmentMap
      ensures MapsFragments(operations.definitions, fragmentMap)
    {
      var definitions := operations.definitions;
      for i := 0 to |definitions|
        invariant MapsFragments(definitions[..i], fragmentMap)
      {
        var node := definitions[i];
        assert definitions[..i + 1] == definitions[..i] + [node];
        if node.Fragment? {
          var dependencies := ToSet(Spreads(node.selections));
          MapsFragmentsExtends(definitions[..i], node, fragmentMap, dependencies);
          fragmentMap := fragmentMap[node.name := FragmentMapEntry(node, dependencies)];
        } else {
          MapsFragmentsExtends(definitions[..i], node, fragmentMap, []);
        }
      }
      assert definitions == definitions[..|definitions|];
    }

    /** `collect`: adds a fragment and, depth first, everything it spreads that is not there yet. */
    method Collect(name: string, names: seq<string>) returns (r: Collection)
      requires NoRepeat(names)
      ensures r.Complete? ==> CollectedBy(fragmentMap, name, names, r.names)
      ensures r.Missing? ==> r.name !in fragmentMap && Reachable(fragmentMap, [name], r.name)
      decreases Uncollected(fragmentMap, name, names), if name in fragmentMap then 3 else 0
    {
      ReachRoot(fragmentMap, [name], name);
      if name !in fragmentMap {
        return Missing(name);
      }
      InsertCollects(fragmentMap, name, names);
      r := CollectDependencies(name, names, Insert(names, name));
    }

    /** The loop over the dependencies of one fragment. */
    method CollectDependencies(name: string, ghost names: seq<string>, inserted: seq<string>) returns (r: Collection)
      requires name in fragmentMap && Collecting(fragmentMap, name, names, inserted)
      ensures r.Complete? ==> CollectedBy(fragmentMap, name, names, r.names)
      ensures r.Missing? ==> r.name !in fragmentMap && Reachable(fragmentMap, [name], r.name)
      decreases Uncollected(fragmentMap, name, names), 2
    {
      var entry := fragmentMap[name];
      r := Complete(inserted);
      var i := 0;
      while i < |entry.dependencies| && r.Complete?
        invariant 0 <= i <= |entry.dependencies|
        invariant r.Complete? ==> Collecting(fragmentMap, name, names, r.names)
        invariant r.Complete? ==> forall d | d in entry.dependencies[..i] :: d in r.names
        invariant r.Missing? ==> r.name !in fragmentMap && Reachable(fragmentMap, [name], r.name)
      {
        if entry.dependencies[i] !in r.names {
          r := CollectDependency(name, entry.dependencies[i], names, r.names);
        }
        i := i + 1;
      }
    }

    method CollectDependency(ghost name: string, dependency: string, ghost before: seq<string>, current: seq<string>)
      returns (r: Collection)
      requires name in fragmentMap && dependency in fragmentMap[name].dependencies && dependency !in current
      requires Collecting(fragmentMap, name, before, current)
      ensures r.Complete? ==> Collecting(fragmentMap, name, before, r.names) && dependency in r.names
      ensures r.Complete? ==> forall n | n in current :: n in r.names
      ensures r.Missing? ==> r.name !in fragmentMap && Reachable(fragmentMap, [name], r.name)
      decreases Uncollected(fragmentMap, name, before), 1
    {
      Remaining(fragmentMap, name, before, current, dependency);
      r := Collect(dependency, current);
      if r.Complete? {
        CollectingStep(fragmentMap, name, dependency, before, current, r.names);
      } else {
        ReachLifts(fragmentMap, name, dependency, r.name);
      }
    }

    /** `generateOperationFragments`: throws exactly when a reachable fragment is unknown. */
    method GenerateOperationFragments(selections: seq<Selection>) returns (r: Collection)
      ensures r.Complete? <==> forall name | Reachable(fragmentMap, Spreads(selections), name) :: name in fragmentMap
      ensures r.Complete? ==> NoRepeat(r.names)
      ensures r.Complete? ==> IsReachableSet(fragmentMap, Spreads(selections), r.names)
    {
      var names, spreads := [], Spreads(selections);
      for i := 0 to |spreads|
        invariant NoRepeat(names) && Closed(fragmentMap, names)
        invariant forall n | n in names :: Reachable(fragmentMap, spreads, n)
        invariant forall n | n in spreads[..i] :: n in names
      {
        var collected := Collect(spreads[i], names);
        forall n | Reachable(fragmentMap, [spreads[i]], n) ensures Reachable(fragmentMap, spreads, n) {
          var chain :| IsChain(fragmentMap, chain) && chain != [] && chain[0] in [spreads[i]] && chain[|chain| - 1] == n;
          assert chain[0] in spreads;
        }
        if collected.Missing? {
          return collected;
        }
        names := collected.names;
      }
      forall n | Reachable(fragmentMap, spreads, n) ensures n in names {
        var chain :| IsChain(fragmentMap, chain) && chain != [] && chain[0] in spreads && chain[|chain| - 1] == n;
        ClosedHoldsReachable(fragmentMap, names, chain);
      }
      r := Complete(names);
    }
  }

  /** The entry of a name: its last definition, and the set of the names spread anywhere inside it. */
  ghost predicate MapsTo(definitions: seq<Definition>, name: string, entry: FragmentMapEntry) {
    && (exists i | 0 <= i < |definitions| :: definitions[i] == entry.node && IsLastDefinition(definitions, i, name))
    && NoRepeat(entry.dependencies)
    && forall d :: d in entry.dependencies <==> d in Spreads(entry.node.selections)
  }

  ghost predicate MapsFragments(definitions: seq<Definition>, fragments: FragmentMap) {
    && (forall name | name in fragments :: MapsTo(definitions, name, fragments[name]))
    && (forall i | 0 <= i < |definitions| && definitions[i].Fragment? :: definitions[i].name in fragments)
  }

  predicate IsLastDefinition(definitions: seq<Definition>, i: int, name: string)
    requires 0 <= i < |definitions|
  {
    && definitions[i].Fragment? && definitions[i].name == name
    && forall j | i < j < |definitions| && definitions[j].Fragment? :: definitions[j].name != name
  }

  lemma MapsToExtends(definitions: seq<Definition>, node: Definition, name: string, entry: FragmentMapEntry)
    requires MapsTo(definitions, name, entry)
    requires node.Fragment? ==> node.name != name
    ensures MapsTo(definitions + [node], name, entry)
  {
    var i :| 0 <= i < |definitions| && definitions[i] == entry.node && IsLastDefinition(definitions, i, name);
    assert IsLastDefinition(definitions + [node], i, name);
  }

  lemma MapsFragmentsExtends(definitions: seq<Definition>, node: Definition, fragments: FragmentMap, dependencies: seq<string>)
    requires MapsFragments(definitions, fragments)
    requires node.Fragment? ==> NoRepeat(dependencies) && forall d :: d in dependencies <==> d in Spreads(node.selections)
    ensures MapsFragments(definitions + [node], if node.Fragment? then fragments[node.name := FragmentMapEntry(node, dependencies)] else fragments)
  {
    if node.Fragment? {
      assert IsLastDefinition(definitions + [node], |definitions|, node.name);
      assert MapsTo(definitions + [node], node.name, FragmentMapEntry(node, dependencies));
    }
    forall name | name in fragments && (node.Fragment? ==> name != node.name)
      ensures MapsTo(definitions + [node], name, fragments[name])
    {
      MapsToExtends(definitions, node, name, fragments[name]);
    }
  }

  // ----- the invariant of one `collect` call -----

  /** Everything new is reachable from `name`, and everything new but `name` itself is finished. */
  ghost predicate Collecting(fragments: FragmentMap, name: string, before: seq<string>, current: seq<string>) {
    && NoRepeat(current) && name in current
    && (forall n | n in before :: n in current)
    && (forall n | n in current :: n in before || Reachable(fragments, [name], n))
    && (forall n | n in current && n !in before && n != name :: Finished(fragments, current, n))
  }

  lemma InsertCollects(fragments: FragmentMap, name: string, names: seq<string>)
    requires NoRepeat(names)
    ensures Collecting(fragments, name, names, Insert(names, name))
  {
    ReachRoot(fragments, [name], name);
  }

  ghost predicate CollectedBy(fragments: FragmentMap, name: string, before: seq<string>, after: seq<string>) {
    Collecting(fragments, name, before, after) && Finished(fragments, after, name)
  }

  lemma ReachLifts(fragments: FragmentMap, name: string, dependency: string, n: string)
    requires name in fragments && dependency in fragments[name].dependencies
    requires Reachable(fragments, [dependency], n)
    ensures Reachable(fragments, [name], n)
  {
    var chain :| IsChain(fragments, chain) && chain != [] && chain[0] in [dependency] && chain[|chain| - 1] == n;
    assert Reachable(fragments, fragments[name].dependencies, n);
    ReachThrough(fragments, [name], name, n);
  }

  lemma CollectingStep(fragments: FragmentMap, name: string, dependency: string, before: seq<string>,
                       current: seq<string>, after: seq<string>)
    requires Collecting(fragments, name, before, current)
    requires CollectedBy(fragments, dependency, current, after)
    requires name in fragments && dependency in fragments[name].dependencies
    ensures Collecting(fragments, name, before, after)
  {
    forall n | n in after && n !in before ensures Reachable(fragments, [name], n) {
      if n !in current {
        ReachLifts(fragments, name, dependency, n);
      }
    }
    forall n | n in after && n !in before && n != name ensures Finished(fragments, after, n) {
      if n in current {
        assert Finished(fragments, current, n);
      } else {
        assert n == dependency || Finished(fragments, after, n);
      }
    }
  }

  // ----- termination: the known fragments not collected yet -----

  function Uncollected(fragments: FragmentMap, name: string, names: seq<string>): nat {
    |fragments.Keys - (set n | n in names) - {name}|
  }

  lemma Remaining(fragments: FragmentMap, name: string, before: seq<string>, current: seq<string>, dependency: string)
    requires name in current && dependency !in current && forall n | n in before :: n in current
    ensures Uncollected(fragments, dependency, current) <= Uncollected(fragments, name, before)
    ensures dependency in fragments ==> Uncollected(fragments, dependency, current) < Uncollected(fragments, name, before)
  {
    var less := fragments.Keys - (set n | n in current) - {dependency};
    var more := fragments.Keys - (set n | n in before) - {name};
    assert less <= more - {dependency};
    SubsetSize(less, more - {dependency});
    if dependency in fragments {
      assert dependency in more;
    }
  }
}
