/** Ranked fragments are exactly those without a cycle of spreads (section 5.5.2.2 of the GraphQL specification). */
module AcyclicFragments {
  import opened GraphQLAst
  import opened FragmentClosure
  import opened Schemas

  /** The dependencies of every entry are the spreads of its fragment, as `initFragmentMap` records them. */
  ghost predicate Recorded(fragments: FragmentMap) {
    forall name, d | name in fragments ::
      d in fragments[name].dependencies <==> d in Spreads(fragments[name].node.selections)
  }

  ghost predicate Cyclic(fragments: FragmentMap, name: string)
    requires name in fragments
  {
    Reachable(fragments, fragments[name].dependencies, name)
  }

  lemma SpreadBelow(rank: map<string, nat>, selections: seq<Selection>, name: string)
    requires name in Spreads(selections) && name in rank
    ensures rank[name] < SpreadRank(rank, selections)
    decreases selections
  {
    if name in Spreads(selections[1..]) {
      SpreadBelow(rank, selections[1..], name);
    } else if !selections[0].FragmentSpread? {
      SpreadBelow(rank, selections[0].selections, name);
    }
    assert SpreadRank(rank, selections) == Max(NodeRank(rank, selections[0]), SpreadRank(rank, selections[1..]));
  }

  lemma SpreadRankAtMost(rank: map<string, nat>, selections: seq<Selection>, bound: nat)
    requires forall name | name in Spreads(selections) && name in rank :: rank[name] < bound
    ensures SpreadRank(rank, selections) <= bound
    decreases selections
  {
    if selections != [] {
      assert Spreads(selections) ==
             (match selections[0]
              case Field(_, _, _, below) => Spreads(below)
              case InlineFragment(_, _, below) => Spreads(below)
              case FragmentSpread(name, _) => [name]) + Spreads(selections[1..]);
      SpreadRankAtMost(rank, selections[1..], bound);
      match selections[0]
      case FragmentSpread(name, _) => assert name in Spreads(selections);
      case _ => SpreadRankAtMost(rank, selections[0].selections, bound);
    }
  }

  lemma {:induction false} RankFalls(fragments: FragmentMap, rank: map<string, nat>, name: string, chain: seq<string>)
    requires Recorded(fragments) && IsRanking(fragments, rank) && name in fragments
    requires IsChain(fragments, chain) && chain != [] && chain[0] in fragments[name].dependencies
    requires chain[|chain| - 1] in fragments
    ensures rank[chain[|chain| - 1]] < rank[name]
    decreases |chain|
  {
    if chain[0] in fragments {
      SpreadBelow(rank, fragments[name].node.selections, chain[0]);
      if |chain| > 1 {
        RankFalls(fragments, rank, chain[0], chain[1..]);
      }
    }
  }

  ghost function ReachSet(fragments: FragmentMap, name: string): set<string>
    requires name in fragments
  {
    set m | m in fragments && Reachable(fragments, fragments[name].dependencies, m)
  }

  lemma ReachSetShrinks(fragments: FragmentMap, name: string, d: string)
    requires name in fragments && d in fragments && d in fragments[name].dependencies && !Cyclic(fragments, d)
    ensures |ReachSet(fragments, d)| < |ReachSet(fragments, name)|
  {
    ReachRoot(fragments, fragments[name].dependencies, d);
    forall m | m in ReachSet(fragments, d) ensures m in ReachSet(fragments, name) {
      ReachThrough(fragments, fragments[name].dependencies, d, m);
    }
    SubsetSize(ReachSet(fragments, d), ReachSet(fragments, name) - {d});
  }

  /** Validation's rule on fragment cycles is what the generator's recursion needs. */
  lemma AcyclicIffNoCycle(fragments: FragmentMap)
    requires Recorded(fragments)
    ensures Acyclic(fragments) <==> forall name | name in fragments :: !Cyclic(fragments, name)
  {
    if Acyclic(fragments) {
      forall name | name in fragments ensures !Cyclic(fragments, name) {
        if Cyclic(fragments, name) {
          var chain :| IsChain(fragments, chain) && chain != [] && chain[0] in fragments[name].dependencies &&
                       chain[|chain| - 1] == name;
          RankFalls(fragments, Ranking(fragments), name, chain);
          assert false;
        }
      }
    } else if forall name | name in fragments :: !Cyclic(fragments, name) {
      var rank := map name | name in fragments :: |ReachSet(fragments, name)|;
      forall name | name in fragments ensures SpreadRank(rank, fragments[name].node.selections) <= rank[name] {
        forall d | d in Spreads(fragments[name].node.selections) && d in rank ensures rank[d] < rank[name] {
          ReachSetShrinks(fragments, name, d);
        }
        SpreadRankAtMost(rank, fragments[name].node.selections, rank[name]);
      }
      assert IsRanking(fragments, rank);
      assert false;
    }
  }
}
