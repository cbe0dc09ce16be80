/** src/util/limitDepth.ts: the query depth limiter, against the fully expanded document. */
module DepthLimit {
  import opened GraphQLAst

  // ----- the fully expanded document, as the set of its descents -----

  predicate Counts(s: Selection) {
    s.Field? && !IsMeta(s.name)
  }

  function LastOf(path: seq<string>): Option<string> {
    if path == [] then None else Some(path[|path| - 1])
  }

  predicate Entered(definition: Definition, spread: Option<string>) {
    match definition
    case Operation(_) => spread == None
    case Fragment(name, _, _) => spread == Some(name)
    case _ => false
  }

  /** What a spread stands for: the bodies of all definitions of that name (None: the operations). */
  function Bodies(definitions: seq<Definition>, spread: Option<string>): seq<Selection> {
    if definitions == [] then []
    else (if Entered(definitions[0], spread) then definitions[0].selections else []) + Bodies(definitions[1..], spread)
  }

  /** The children of a node of the expanded tree; subtrees of `__` fields are not part of it. */
  function Children(document: Document, s: Selection): seq<Selection> {
    match s
    case Field(_, name, _, below) => if IsMeta(name) then [] else below
    case InlineFragment(_, _, below) => below
    case FragmentSpread(name, _) => Bodies(document.definitions, Some(name))
  }

  /** A path downwards through the expanded tree, starting at one of `roots`. */
  predicate IsDescent(document: Document, roots: seq<Selection>, d: seq<Selection>)
    decreases |d|
  {
    d == [] || (d[0] in roots && IsDescent(document, Children(document, d[0]), d[1..]))
  }

  function FieldCount(d: seq<Selection>): nat {
    if d == [] then 0 else (if Counts(d[0]) then 1 else 0) + FieldCount(d[1..])
  }

  function SpreadNames(d: seq<Selection>): seq<string> {
    if d == [] then [] else (if d[0].FragmentSpread? then [d[0].name] else []) + SpreadNames(d[1..])
  }

  /** A descent from depth `depth` reaches a field deeper than allowed. */
  predicate Exceeds(maxDepth: int, depth: int, d: seq<Selection>) {
    FieldCount(d) > 0 && depth + FieldCount(d) > maxDepth
  }

  predicate Revisits(path: seq<string>, d: seq<Selection>) {
    !NoRepeat(path + SpreadNames(d))
  }

  ghost predicate Fits(document: Document, maxDepth: int, depth: int, path: seq<string>, roots: seq<Selection>) {
    forall d | IsDescent(document, roots, d) :: !Exceeds(maxDepth, depth, d) && !Revisits(path, d)
  }

  datatype Outcome = Accepted | CircularSpreads | TooDeep

  // ----- document order -----

  /** A descent by the indices of its nodes among their siblings. */
  predicate IsPosition(document: Document, roots: seq<Selection>, p: seq<nat>)
    decreases |p|
  {
    p == [] || (p[0] < |roots| && IsPosition(document, Children(document, roots[p[0]]), p[1..]))
  }

  function NodesAt(document: Document, roots: seq<Selection>, p: seq<nat>): seq<Selection>
    requires IsPosition(document, roots, p)
    decreases |p|
  {
    if p == [] then [] else [roots[p[0]]] + NodesAt(document, Children(document, roots[p[0]]), p[1..])
  }

  /** Document order: parents before children, and siblings from left to right. */
  predicate Before(p: seq<nat>, q: seq<nat>)
    decreases |p|
  {
    q != [] && (p == [] || p[0] < q[0] || (p[0] == q[0] && Before(p[1..], q[1..])))
  }

  predicate Fine(maxDepth: int, depth: int, path: seq<string>, d: seq<Selection>) {
    !Exceeds(maxDepth, depth, d) && !Revisits(path, d)
  }

  predicate Offends(r: Outcome, maxDepth: int, depth: int, path: seq<string>, d: seq<Selection>) {
    match r
    case Accepted => false
    case TooDeep => Exceeds(maxDepth, depth, d)
    case CircularSpreads => Revisits(path, d)
  }

  /** The descent at `p` offends for this reason, and none before it in document order offends at all. */
  ghost predicate First(r: Outcome, document: Document, maxDepth: int, depth: int, path: seq<string>,
                        roots: seq<Selection>, p: seq<nat>) {
    && IsPosition(document, roots, p) && Offends(r, maxDepth, depth, path, NodesAt(document, roots, p))
    && forall q | IsPosition(document, roots, q) && Before(q, p) :: Fine(maxDepth, depth, path, NodesAt(document, roots, q))
  }

  /** An outcome is justified: acceptance by every descent, a rejection by the first one that offends. */
  ghost predicate Explains(r: Outcome, document: Document, maxDepth: int, depth: int, path: seq<string>,
                           roots: seq<Selection>) {
    if r == Accepted then Fits(document, maxDepth, depth, path, roots)
    else exists p :: First(r, document, maxDepth, depth, path, roots, p)
  }

  lemma {:induction false} PositionDescends(document: Document, roots: seq<Selection>, p: seq<nat>)
    requires IsPosition(document, roots, p)
    ensures IsDescent(document, roots, NodesAt(document, roots, p))
    decreases |p|
  {
    if p != [] {
      PositionDescends(document, Children(document, roots[p[0]]), p[1..]);
      assert NodesAt(document, roots, p)[1..] == NodesAt(document, Children(document, roots[p[0]]), p[1..]);
    }
  }

  lemma {:induction false} DescentPosition(document: Document, roots: seq<Selection>, d: seq<Selection>) returns (p: seq<nat>)
    requires IsDescent(document, roots, d)
    ensures IsPosition(document, roots, p) && NodesAt(document, roots, p) == d
    decreases |d|
  {
    if d == [] {
      p := [];
    } else {
      var i :| 0 <= i < |roots| && roots[i] == d[0];
      var rest := DescentPosition(document, Children(document, d[0]), d[1..]);
      p := [i] + rest;
      assert p[1..] == rest;
    }
  }

  lemma ExplainsConcat(r: Outcome, document: Document, maxDepth: int, depth: int, path: seq<string>,
                       a: seq<Selection>, b: seq<Selection>)
    requires NoRepeat(path) && Explains(Accepted, document, maxDepth, depth, path, a)
    requires Explains(r, document, maxDepth, depth, path, b)
    ensures Explains(r, document, maxDepth, depth, path, a + b)
  {
    if r == Accepted {
      forall d | IsDescent(document, a + b, d)
        ensures !Exceeds(maxDepth, depth, d) && !Revisits(path, d)
      {
        assert IsDescent(document, a, d) || IsDescent(document, b, d);
      }
    } else {
      var p :| First(r, document, maxDepth, depth, path, b, p);
      assert path + [] == path;
      FirstAfter(r, document, maxDepth, depth, path, a, b, p);
    }
  }

  /** Positions among later siblings. */
  lemma Shifted(document: Document, a: seq<Selection>, b: seq<Selection>, p: seq<nat>)
    requires p != []
    ensures IsPosition(document, b, p) <==> IsPosition(document, a + b, p[0 := |a| + p[0]])
    ensures IsPosition(document, b, p) ==> NodesAt(document, a + b, p[0 := |a| + p[0]]) == NodesAt(document, b, p)
    ensures p[0] < |a| ==> (IsPosition(document, a, p) <==> IsPosition(document, a + b, p))
    ensures p[0] < |a| && IsPosition(document, a, p) ==> NodesAt(document, a + b, p) == NodesAt(document, a, p)
  {
    var q := p[0 := |a| + p[0]];
    assert q[1..] == p[1..] && q[0] == |a| + p[0];
    if p[0] < |b| {
      assert (a + b)[q[0]] == b[p[0]];
    }
    if p[0] < |a| {
      assert (a + b)[p[0]] == a[p[0]];
    }
  }

  lemma FirstAfter(r: Outcome, document: Document, maxDepth: int, depth: int, path: seq<string>,
                   a: seq<Selection>, b: seq<Selection>, p: seq<nat>)
    requires NoRepeat(path) && Fits(document, maxDepth, depth, path, a)
    requires p != [] && First(r, document, maxDepth, depth, path, b, p)
    ensures First(r, document, maxDepth, depth, path, a + b, p[0 := |a| + p[0]])
  {
    var shifted := p[0 := |a| + p[0]];
    Shifted(document, a, b, p);
    forall q | IsPosition(document, a + b, q) && Before(q, shifted) ensures Fine(maxDepth, depth, path, NodesAt(document, a + b, q)) {
      if q == [] {
        assert path + [] == path;
      } else if q[0] < |a| {
        Shifted(document, a, b, q);
        PositionDescends(document, a, q);
      } else {
        var back := q[0 := q[0] - |a|];
        assert back[0 := |a| + back[0]] == q && back[1..] == q[1..] && shifted[1..] == p[1..];
        Shifted(document, a, b, back);
        assert Before(back, p);
      }
    }
  }

  /** A rejection is not changed by what comes after it. */
  lemma RejectionStays(r: Outcome, document: Document, maxDepth: int, depth: int, path: seq<string>,
                       a: seq<Selection>, b: seq<Selection>)
    requires NoRepeat(path) && r != Accepted && Explains(r, document, maxDepth, depth, path, a)
    ensures Explains(r, document, maxDepth, depth, path, a + b)
  {
    var p :| First(r, document, maxDepth, depth, path, a, p);
    assert path + [] == path;
    Shifted(document, a, b, p);
    forall q | IsPosition(document, a + b, q) && Before(q, p) ensures Fine(maxDepth, depth, path, NodesAt(document, a + b, q)) {
      if q != [] {
        Shifted(document, a, b, q);
      }
    }
    assert First(r, document, maxDepth, depth, path, a + b, p);
  }

  /** One level down: a verdict about a node's children is a verdict about the node. */
  lemma ExplainsNode(r: Outcome, document: Document, maxDepth: int, depth: int, path: seq<string>, s: Selection)
    requires NoRepeat(path)
    requires Counts(s) ==> depth + 1 <= maxDepth
    requires Explains(r, document, maxDepth, depth + FieldCount([s]), path + SpreadNames([s]), Children(document, s))
    ensures Explains(r, document, maxDepth, depth, path, [s])
  {
    if r == Accepted {
      AcceptsNode(document, maxDepth, depth, path, s);
    } else {
      RejectsNode(r, document, maxDepth, depth, path, s);
    }
  }

  /** A descent through `s`, from the point of view of its children. */
  lemma Below(maxDepth: int, depth: int, path: seq<string>, s: Selection, e: seq<Selection>)
    requires Counts(s) ==> depth + 1 <= maxDepth
    ensures var d := [s] + e;
            && (Exceeds(maxDepth, depth, d) <==> Exceeds(maxDepth, depth + FieldCount([s]), e))
            && (Revisits(path, d) <==> Revisits(path + SpreadNames([s]), e))
  {
    var d := [s] + e;
    CountsOfOne(s);
    assert d[1..] == e && FieldCount(d) == FieldCount([s]) + FieldCount(e);
    assert path + SpreadNames(d) == (path + SpreadNames([s])) + SpreadNames(e);
  }

  lemma AcceptsNode(document: Document, maxDepth: int, depth: int, path: seq<string>, s: Selection)
    requires NoRepeat(path) && (Counts(s) ==> depth + 1 <= maxDepth)
    requires Fits(document, maxDepth, depth + FieldCount([s]), path + SpreadNames([s]), Children(document, s))
    ensures Fits(document, maxDepth, depth, path, [s])
  {
    forall d | IsDescent(document, [s], d) ensures !Exceeds(maxDepth, depth, d) && !Revisits(path, d) {
      if d == [] {
        assert path + SpreadNames(d) == path;
      } else {
        assert d == [s] + d[1..] && IsDescent(document, Children(document, s), d[1..]);
        Below(maxDepth, depth, path, s, d[1..]);
      }
    }
  }

  lemma RejectsNode(r: Outcome, document: Document, maxDepth: int, depth: int, path: seq<string>, s: Selection)
    requires NoRepeat(path) && r != Accepted && (Counts(s) ==> depth + 1 <= maxDepth)
    requires Explains(r, document, maxDepth, depth + FieldCount([s]), path + SpreadNames([s]), Children(document, s))
    ensures Explains(r, document, maxDepth, depth, path, [s])
  {
    var e :| First(r, document, maxDepth, depth + FieldCount([s]), path + SpreadNames([s]), Children(document, s), e);
    var p := [0] + e;
    assert p[1..] == e && NodesAt(document, [s], p) == [s] + NodesAt(document, Children(document, s), e);
    Below(maxDepth, depth, path, s, NodesAt(document, Children(document, s), e));
    forall q | IsPosition(document, [s], q) && Before(q, p) ensures Fine(maxDepth, depth, path, NodesAt(document, [s], q)) {
      if q == [] {
        assert path + [] == path;
      } else {
        assert Before(q[1..], e);
        Below(maxDepth, depth, path, s, NodesAt(document, Children(document, s), q[1..]));
      }
    }
    assert First(r, document, maxDepth, depth, path, [s], p);
  }

  // ----- the first offence is one -----

  lemma Trichotomy(p: seq<nat>, q: seq<nat>)
    ensures p == q || Before(p, q) || Before(q, p)
    decreases |p|
  {
    if p != [] && q != [] && p[0] == q[0] {
      Trichotomy(p[1..], q[1..]);
      assert p == [p[0]] + p[1..] && q == [q[0]] + q[1..];
    }
  }

  lemma {:induction false} Parent(document: Document, roots: seq<Selection>, p: seq<nat>)
    requires IsPosition(document, roots, p) && p != []
    ensures var parent := p[..|p| - 1];
            && IsPosition(document, roots, parent) && Before(parent, p)
            && exists s :: NodesAt(document, roots, p) == NodesAt(document, roots, parent) + [s]
    decreases |p|
  {
    var parent := p[..|p| - 1];
    if |p| == 1 {
      assert NodesAt(document, roots, p) == NodesAt(document, roots, parent) + [roots[p[0]]];
    } else {
      var below := Children(document, roots[p[0]]);
      Parent(document, below, p[1..]);
      assert p[1..][..|p| - 2] == parent[1..];
      var s :| NodesAt(document, below, p[1..]) == NodesAt(document, below, parent[1..]) + [s];
      assert NodesAt(document, roots, p) == NodesAt(document, roots, parent) + [s];
    }
  }

  lemma CountsConcat(d: seq<Selection>, e: seq<Selection>)
    ensures FieldCount(d + e) == FieldCount(d) + FieldCount(e) && SpreadNames(d + e) == SpreadNames(d) + SpreadNames(e)
  {
    if d == [] {
      assert d + e == e;
    } else {
      assert (d + e)[1..] == d[1..] + e;
      CountsConcat(d[1..], e);
    }
  }

  /** The last node of a first offence is a field, or a spread: it has one reason. */
  lemma OneReason(document: Document, maxDepth: int, depth: int, path: seq<string>, roots: seq<Selection>, p: seq<nat>, r: Outcome)
    requires NoRepeat(path) && First(r, document, maxDepth, depth, path, roots, p)
    ensures !(Exceeds(maxDepth, depth, NodesAt(document, roots, p)) && Revisits(path, NodesAt(document, roots, p)))
  {
    if p != [] {
      var parent := p[..|p| - 1];
      Parent(document, roots, p);
      var s :| NodesAt(document, roots, p) == NodesAt(document, roots, parent) + [s];
      CountsConcat(NodesAt(document, roots, parent), [s]);
      CountsOfOne(s);
      if !s.FragmentSpread? {
        assert path + SpreadNames(NodesAt(document, roots, p)) == path + SpreadNames(NodesAt(document, roots, parent));
      }
    }
  }

  /** What is accepted offends nowhere. */
  lemma NotBoth(document: Document, maxDepth: int, depth: int, path: seq<string>, roots: seq<Selection>, rejection: Outcome)
    requires Fits(document, maxDepth, depth, path, roots) && rejection != Accepted
    ensures !Explains(rejection, document, maxDepth, depth, path, roots)
  {
    forall p | IsPosition(document, roots, p) ensures !Offends(rejection, maxDepth, depth, path, NodesAt(document, roots, p)) {
      PositionDescends(document, roots, p);
    }
  }

  /** At most one outcome is justified. */
  lemma OneOutcome(document: Document, maxDepth: int, depth: int, path: seq<string>, roots: seq<Selection>, r: Outcome, other: Outcome)
    requires NoRepeat(path) && Explains(r, document, maxDepth, depth, path, roots) && Explains(other, document, maxDepth, depth, path, roots)
    ensures r == other
  {
    if r == Accepted || other == Accepted {
      if r != other {
        NotBoth(document, maxDepth, depth, path, roots, if r == Accepted then other else r);
      }
    } else {
      var p :| First(r, document, maxDepth, depth, path, roots, p);
      var q :| First(other, document, maxDepth, depth, path, roots, q);
      OnePlace(document, maxDepth, depth, path, roots, r, other, p, q);
      OneReason(document, maxDepth, depth, path, roots, p, r);
    }
  }

  lemma OnePlace(document: Document, maxDepth: int, depth: int, path: seq<string>, roots: seq<Selection>, r: Outcome, other: Outcome,
                 p: seq<nat>, q: seq<nat>)
    requires First(r, document, maxDepth, depth, path, roots, p) && First(other, document, maxDepth, depth, path, roots, q)
    ensures p == q
  {
    Trichotomy(p, q);
  }

  // ----- the limiter -----

  function FragmentNames(definitions: seq<Definition>): set<string> {
    set i | 0 <= i < |definitions| && definitions[i].Fragment? :: definitions[i].name
  }

  function Elements(path: seq<string>): set<string> {
    set name | name in path
  }

  function Unvisited(document: Document, path: seq<string>): nat {
    |FragmentNames(document.definitions) - Elements(path)|
  }

  lemma UnvisitedShrinks(document: Document, path: seq<string>)
    requires path != [] && NoRepeat(path) && path[|path| - 1] in FragmentNames(document.definitions)
    ensures Unvisited(document, path) < Unvisited(document, path[..|path| - 1])
  {
    var init := path[..|path| - 1];
    var last := path[|path| - 1];
    assert path == init + [last];
    var names := FragmentNames(document.definitions);
    assert names - Elements(path) == (names - Elements(init)) - {last};
  }

  // ----- which rejection comes first -----

  /** The verdict in document order: of several reasons to reject, the one that the walk meets first. */
  ghost function Walk(document: Document, maxDepth: int, depth: int, path: seq<string>, selections: seq<Selection>): Outcome
    requires NoRepeat(path)
    decreases Unvisited(document, path), 2, selections
  {
    if selections == [] then Accepted
    else
      var first := WalkNode(document, maxDepth, depth, path, selections[0]);
      if first != Accepted then first else Walk(document, maxDepth, depth, path, selections[1..])
  }

  ghost function WalkNode(document: Document, maxDepth: int, depth: int, path: seq<string>, s: Selection): Outcome
    requires NoRepeat(path)
    decreases Unvisited(document, path), 2, s
  {
    match s
    case Field(_, name, _, below) =>
      if IsMeta(name) then Accepted
      else if depth + 1 > maxDepth then TooDeep
      else Walk(document, maxDepth, depth + 1, path, below)
    case InlineFragment(_, _, below) => Walk(document, maxDepth, depth, path, below)
    case FragmentSpread(name, _) =>
      if !NoRepeat(path + [name]) then CircularSpreads
      else if name !in FragmentNames(document.definitions) then Accepted
      else
        (SpreadShrinks(document, path, name);
         Walk(document, maxDepth, depth, path + [name], Bodies(document.definitions, Some(name))))
  }

  lemma SpreadShrinks(document: Document, path: seq<string>, name: string)
    requires NoRepeat(path + [name]) && name in FragmentNames(document.definitions)
    ensures Unvisited(document, path + [name]) < Unvisited(document, path)
  {
    assert (path + [name])[..|path|] == path;
    UnvisitedShrinks(document, path + [name]);
  }

  lemma WalkConcat(document: Document, maxDepth: int, depth: int, path: seq<string>, a: seq<Selection>, b: seq<Selection>)
    requires NoRepeat(path)
    ensures var first := Walk(document, maxDepth, depth, path, a);
            Walk(document, maxDepth, depth, path, a + b) == if first != Accepted then first else Walk(document, maxDepth, depth, path, b)
    decreases |a|
  {
    if a == [] {
      assert a + b == b;
    } else {
      assert (a + b)[0] == a[0] && (a + b)[1..] == a[1..] + b;
      WalkConcat(document, maxDepth, depth, path, a[1..], b);
    }
  }

  /** The first rejection is justified by a descent, and acceptance by all of them. */
  lemma {:induction false} WalkExplains(document: Document, maxDepth: int, depth: int, path: seq<string>, selections: seq<Selection>)
    requires NoRepeat(path)
    ensures Explains(Walk(document, maxDepth, depth, path, selections), document, maxDepth, depth, path, selections)
    decreases Unvisited(document, path), 2, selections
  {
    if selections == [] {
      assert forall d | IsDescent(document, selections, d) :: d == [] && path + SpreadNames(d) == path;
    } else {
      WalkNodeExplains(document, maxDepth, depth, path, selections[0]);
      var r := WalkNode(document, maxDepth, depth, path, selections[0]);
      assert selections == [selections[0]] + selections[1..];
      if r != Accepted {
        RejectionStays(r, document, maxDepth, depth, path, [selections[0]], selections[1..]);
      } else {
        WalkExplains(document, maxDepth, depth, path, selections[1..]);
        ExplainsConcat(Walk(document, maxDepth, depth, path, selections[1..]), document, maxDepth, depth, path,
                       [selections[0]], selections[1..]);
      }
    }
  }

  lemma CountsOfOne(s: Selection)
    ensures FieldCount([s]) == if Counts(s) then 1 else 0
    ensures SpreadNames([s]) == if s.FragmentSpread? then [s.name] else []
  {
    assert [s][1..] == [] && FieldCount([]) == 0 && SpreadNames([]) == [];
  }

  /** A node that offends itself comes before all that is below it. */
  lemma OffendsAtOnce(r: Outcome, document: Document, maxDepth: int, depth: int, path: seq<string>, s: Selection)
    requires NoRepeat(path) && Offends(r, maxDepth, depth, path, [s])
    ensures Explains(r, document, maxDepth, depth, path, [s])
  {
    assert path + [] == path;
    assert [0][1..] == [] && NodesAt(document, [s], [0]) == [s];
    assert First(r, document, maxDepth, depth, path, [s], [0]);
  }

  lemma {:induction false} WalkNodeExplains(document: Document, maxDepth: int, depth: int, path: seq<string>, s: Selection)
    requires NoRepeat(path)
    ensures Explains(WalkNode(document, maxDepth, depth, path, s), document, maxDepth, depth, path, [s])
    decreases Unvisited(document, path), 2, s
  {
    var r := WalkNode(document, maxDepth, depth, path, s);
    CountsOfOne(s);
    match s
    case Field(_, name, _, below) =>
      assert path + SpreadNames([s]) == path;
      if IsMeta(name) {
        assert forall d | IsDescent(document, [], d) :: d == [] && path + SpreadNames([s]) + SpreadNames(d) == path;
        ExplainsNode(r, document, maxDepth, depth, path, s);
      } else if depth + 1 > maxDepth {
        OffendsAtOnce(r, document, maxDepth, depth, path, s);
      } else {
        WalkExplains(document, maxDepth, depth + 1, path, below);
        ExplainsNode(r, document, maxDepth, depth, path, s);
      }
    case InlineFragment(_, _, below) =>
      assert path + SpreadNames([s]) == path;
      WalkExplains(document, maxDepth, depth, path, below);
      ExplainsNode(r, document, maxDepth, depth, path, s);
    case FragmentSpread(name, _) =>
      SpreadExplains(document, maxDepth, depth, path, name);
      ExplainsNode(r, document, maxDepth, depth, path, s);
  }

  /** A path that repeats a spread offends before anything is entered. */
  lemma RevisitedAtOnce(document: Document, maxDepth: int, depth: int, path: seq<string>, roots: seq<Selection>)
    requires !NoRepeat(path)
    ensures Explains(CircularSpreads, document, maxDepth, depth, path, roots)
  {
    assert path + SpreadNames([]) == path;
    assert First(CircularSpreads, document, maxDepth, depth, path, roots, []);
  }

  lemma {:induction false} SpreadExplains(document: Document, maxDepth: int, depth: int, path: seq<string>, name: string)
    requires NoRepeat(path)
    ensures Explains(WalkNode(document, maxDepth, depth, path, FragmentSpread(name, [])), document, maxDepth, depth, path + [name],
                     Bodies(document.definitions, Some(name)))
    decreases Unvisited(document, path), 1
  {
    var longer, bodies := path + [name], Bodies(document.definitions, Some(name));
    if !NoRepeat(longer) {
      RevisitedAtOnce(document, maxDepth, depth, longer, bodies);
    } else if name in FragmentNames(document.definitions) {
      SpreadShrinks(document, path, name);
      WalkExplains(document, maxDepth, depth, longer, bodies);
    } else {
      BodiesOfUnknown(document.definitions, name);
      assert forall d | IsDescent(document, [], d) :: d == [] && longer + SpreadNames(d) == longer;
    }
  }

  lemma TraversedExplains(document: Document, maxDepth: int, depth: int, path: seq<string>)
    ensures Explains(Traversed(document, maxDepth, depth, path), document, maxDepth, depth, path, Bodies(document.definitions, LastOf(path)))
  {
    if NoRepeat(path) {
      WalkExplains(document, maxDepth, depth, path, Bodies(document.definitions, LastOf(path)));
    } else {
      RevisitedAtOnce(document, maxDepth, depth, path, Bodies(document.definitions, LastOf(path)));
    }
  }

  /** The outcome of `limitDepth`. */
  ghost function Limited(document: Document, maxDepth: int): Outcome {
    Walk(document, maxDepth, -1, [], Bodies(document.definitions, None))
  }

  /** The outcome of a call of `traverse`, which checks its path before it walks. */
  ghost function Traversed(document: Document, maxDepth: int, depth: int, path: seq<string>): Outcome {
    if !NoRepeat(path) then CircularSpreads
    else Walk(document, maxDepth, depth, path, Bodies(document.definitions, LastOf(path)))
  }

  /** One call of `traverse`: its own depth counter, shared by the callbacks of one `visit`. */
  class Traversal {
    const document: Document
    const maxDepth: int
    const fragmentSpreads: seq<string>
    var currentDepth: int

    constructor (document: Document, maxDepth: int, currentDepth: int, fragmentSpreads: seq<string>)
      ensures this.document == document && this.maxDepth == maxDepth
      ensures this.currentDepth == currentDepth && this.fragmentSpreads == fragmentSpreads
    {
      this.document, this.maxDepth := document, maxDepth;
      this.currentDepth, this.fragmentSpreads := currentDepth, fragmentSpreads;
    }

    method Visit(selections: seq<Selection>) returns (r: Outcome)
      requires NoRepeat(fragmentSpreads)
      modifies this
      ensures r == Walk(document, maxDepth, old(currentDepth), fragmentSpreads, selections)
      ensures Explains(r, document, maxDepth, old(currentDepth), fragmentSpreads, selections)
      ensures r == Accepted ==> currentDepth == old(currentDepth)
      decreases Unvisited(document, fragmentSpreads), 1, selections
    {
      WalkExplains(document, maxDepth, currentDepth, fragmentSpreads, selections);
      if selections == [] {
        return Accepted;
      }
      r := VisitNode(selections[0], selections);
      if r == Accepted {
        r := Visit(selections[1..]);
      }
    }

    method VisitNode(node: Selection, ghost siblings: seq<Selection>) returns (r: Outcome)
      requires NoRepeat(fragmentSpreads) && siblings != [] && siblings[0] == node
      modifies this
      ensures r == WalkNode(document, maxDepth, old(currentDepth), fragmentSpreads, node)
      ensures Explains(r, document, maxDepth, old(currentDepth), fragmentSpreads, [node])
      ensures r == Accepted ==> currentDepth == old(currentDepth)
      decreases Unvisited(document, fragmentSpreads), 1, siblings, 0
    {
      WalkNodeExplains(document, maxDepth, currentDepth, fragmentSpreads, node);
      match node
      case Field(_, name, _, below) =>
        if IsMeta(name) {
          return Accepted;
        }
        currentDepth := currentDepth + 1;
        if currentDepth > maxDepth {
          return TooDeep;
        }
        r := Visit(below);
        currentDepth := currentDepth - 1;
      case InlineFragment(_, _, below) =>
        r := Visit(below);
      case FragmentSpread(name, _) =>
        assert (fragmentSpreads + [name])[..|fragmentSpreads|] == fragmentSpreads;
        r := Traverse(document, maxDepth, currentDepth, fragmentSpreads + [name]);
        if name !in FragmentNames(document.definitions) {
          BodiesOfUnknown(document.definitions, name);
        }
    }
  }

  method Traverse(document: Document, maxDepth: int, currentDepth: int, fragmentSpreads: seq<string>) returns (r: Outcome)
    requires fragmentSpreads == [] || NoRepeat(fragmentSpreads[..|fragmentSpreads| - 1])
    ensures r == Traversed(document, maxDepth, currentDepth, fragmentSpreads)
    ensures Explains(r, document, maxDepth, currentDepth, fragmentSpreads, Bodies(document.definitions, LastOf(fragmentSpreads)))
    decreases if fragmentSpreads == [] then Unvisited(document, []) + 1
              else Unvisited(document, fragmentSpreads[..|fragmentSpreads| - 1]), 0
  {
    var last := LastOf(fragmentSpreads);
    TraversedExplains(document, maxDepth, currentDepth, fragmentSpreads);
    if !NoRepeat(fragmentSpreads) {
      return CircularSpreads;
    }
    var traversal := new Traversal(document, maxDepth, currentDepth, fragmentSpreads);
    var definitions := document.definitions;
    for i := 0 to |definitions|
      invariant traversal.currentDepth == currentDepth
      invariant Walk(document, maxDepth, currentDepth, fragmentSpreads, Bodies(definitions[..i], last)) == Accepted
    {
      BodiesExtend(definitions, i, last);
      if Entered(definitions[i], last) {
        if fragmentSpreads != [] {
          UnvisitedShrinks(document, fragmentSpreads);
        }
        r := traversal.Visit(definitions[i].selections);
        WalkConcat(document, maxDepth, currentDepth, fragmentSpreads, Bodies(definitions[..i], last), definitions[i].selections);
        if r != Accepted {
          WalkConcat(document, maxDepth, currentDepth, fragmentSpreads, Bodies(definitions[..i + 1], last),
                     Bodies(definitions[i + 1..], last));
          return;
        }
      }
    }
    assert definitions[..|definitions|] == definitions;
    r := Accepted;
  }

  lemma BodiesConcat(a: seq<Definition>, b: seq<Definition>, spread: Option<string>)
    ensures Bodies(a + b, spread) == Bodies(a, spread) + Bodies(b, spread)
  {
    if a == [] {
      assert a + b == b;
    } else {
      assert (a + b)[1..] == a[1..] + b;
    }
  }

  lemma BodiesExtend(definitions: seq<Definition>, i: nat, spread: Option<string>)
    requires i < |definitions|
    ensures Bodies(definitions[..i + 1], spread) ==
            if Entered(definitions[i], spread) then Bodies(definitions[..i], spread) + definitions[i].selections
            else Bodies(definitions[..i], spread)
    ensures Bodies(definitions, spread) == Bodies(definitions[..i + 1], spread) + Bodies(definitions[i + 1..], spread)
    ensures Entered(definitions[i], spread) ==> forall s | s in definitions[i].selections :: s in Bodies(definitions, spread)
  {
    BodiesConcat(definitions[..i], [definitions[i]], spread);
    assert definitions[..i + 1] == definitions[..i] + [definitions[i]];
    BodiesConcat(definitions[..i + 1], definitions[i + 1..], spread);
    assert definitions == definitions[..i + 1] + definitions[i + 1..];
  }

  predicate Admissible(maxDepth: int, d: seq<Selection>) {
    NoRepeat(SpreadNames(d)) && (FieldCount(d) > 0 ==> FieldCount(d) - 1 <= maxDepth)
  }

  lemma FromTheTop(document: Document, maxDepth: int, r: Outcome)
    requires Explains(r, document, maxDepth, -1, [], Bodies(document.definitions, None))
    ensures r == Accepted <==> forall d | IsDescent(document, Bodies(document.definitions, None), d) :: Admissible(maxDepth, d)
  {
    var roots := Bodies(document.definitions, None);
    forall d | IsDescent(document, roots, d)
      ensures Fine(maxDepth, -1, [], d) <==> Admissible(maxDepth, d)
    {
      assert [] + SpreadNames(d) == SpreadNames(d);
    }
    if r == Accepted {
      forall d | IsDescent(document, roots, d) ensures Admissible(maxDepth, d) {
        assert !Exceeds(maxDepth, -1, d) && !Revisits([], d);
      }
    } else {
      var p :| First(r, document, maxDepth, -1, [], roots, p);
      PositionDescends(document, roots, p);
      assert !Admissible(maxDepth, NodesAt(document, roots, p));
    }
  }

  /** The reason of the first inadmissible descent in document order: a spread that comes again, or a field too deep. */
  ghost predicate FirstReason(document: Document, maxDepth: int, r: Outcome) {
    exists p ::
      && IsPosition(document, Bodies(document.definitions, None), p)
      && (forall q | IsPosition(document, Bodies(document.definitions, None), q) && Before(q, p) ::
            Admissible(maxDepth, NodesAt(document, Bodies(document.definitions, None), q)))
      && var d := NodesAt(document, Bodies(document.definitions, None), p);
         match r
         case Accepted => false
         case CircularSpreads => !NoRepeat(SpreadNames(d)) && (FieldCount(d) > 0 ==> FieldCount(d) - 1 <= maxDepth)
         case TooDeep => FieldCount(d) > 0 && FieldCount(d) - 1 > maxDepth && NoRepeat(SpreadNames(d))
  }

  lemma ReasonFromTheTop(document: Document, maxDepth: int, r: Outcome)
    ensures r != Accepted && Explains(r, document, maxDepth, -1, [], Bodies(document.definitions, None)) <==> FirstReason(document, maxDepth, r)
  {
    var roots := Bodies(document.definitions, None);
    forall d ensures (Fine(maxDepth, -1, [], d) <==> Admissible(maxDepth, d)) && (Revisits([], d) <==> !NoRepeat(SpreadNames(d))) {
      assert [] + SpreadNames(d) == SpreadNames(d);
    }
    if r != Accepted && Explains(r, document, maxDepth, -1, [], roots) {
      var p :| First(r, document, maxDepth, -1, [], roots, p);
      OneReason(document, maxDepth, -1, [], roots, p, r);
      forall q | IsPosition(document, roots, q) && Before(q, p) ensures Admissible(maxDepth, NodesAt(document, roots, q)) {
        assert Fine(maxDepth, -1, [], NodesAt(document, roots, q));
      }
      assert FirstReason(document, maxDepth, r);
    } else if FirstReason(document, maxDepth, r) {
      var p :| IsPosition(document, roots, p)
               && (forall q | IsPosition(document, roots, q) && Before(q, p) :: Admissible(maxDepth, NodesAt(document, roots, q)))
               && Offends(r, maxDepth, -1, [], NodesAt(document, roots, p));
      assert First(r, document, maxDepth, -1, [], roots, p);
    }
  }

  /**
    The public function: accepted exactly when no descent of the expanded operations is circular or too deep; otherwise
    rejected for the reason of the first one, parents before children.
   */
  method LimitDepth(document: Document, maxDepth: int) returns (r: Outcome)
    ensures r == Limited(document, maxDepth)
    ensures r == Accepted <==>
            forall d | IsDescent(document, Bodies(document.definitions, None), d) :: Admissible(maxDepth, d)
    ensures r != Accepted ==> FirstReason(document, maxDepth, r)
  {
    r := Traverse(document, maxDepth, -1, []);
    FromTheTop(document, maxDepth, r);
    ReasonFromTheTop(document, maxDepth, r);
  }

  /** The outcome as a function of the document, without its walk. */
  lemma LimitedExact(document: Document, maxDepth: int)
    ensures Limited(document, maxDepth) == Accepted <==>
            forall d | IsDescent(document, Bodies(document.definitions, None), d) :: Admissible(maxDepth, d)
    ensures Limited(document, maxDepth) == CircularSpreads <==> FirstReason(document, maxDepth, CircularSpreads)
    ensures Limited(document, maxDepth) == TooDeep <==> FirstReason(document, maxDepth, TooDeep)
  {
    var r := Limited(document, maxDepth);
    TraversedExplains(document, maxDepth, -1, []);
    FromTheTop(document, maxDepth, r);
    ReasonFromTheTop(document, maxDepth, CircularSpreads);
    ReasonFromTheTop(document, maxDepth, TooDeep);
    forall other | Explains(other, document, maxDepth, -1, [], Bodies(document.definitions, None)) ensures other == r {
      OneOutcome(document, maxDepth, -1, [], Bodies(document.definitions, None), r, other);
    }
  }

  // ----- circular spreads are exactly what makes the expansion infinite -----

  lemma SplitDescent(document: Document, roots: seq<Selection>, a: seq<Selection>, s: Selection, b: seq<Selection>)
    ensures IsDescent(document, roots, a + [s] + b) <==>
            IsDescent(document, roots, a + [s]) && IsDescent(document, Children(document, s), b)
    decreases |a|
  {
    var d := a + [s] + b;
    if a == [] {
      assert d[1..] == b;
    } else {
      assert d[1..] == a[1..] + [s] + b && (a + [s])[1..] == a[1..] + [s];
      SplitDescent(document, Children(document, a[0]), a[1..], s, b);
    }
  }

  lemma NameOccurs(d: seq<Selection>, name: string) returns (q: nat)
    requires name in SpreadNames(d)
    ensures q < |d| && d[q].FragmentSpread? && d[q].name == name
  {
    if d[0].FragmentSpread? && d[0].name == name {
      q := 0;
    } else {
      q := NameOccurs(d[1..], name);
      q := q + 1;
    }
  }

  lemma RepeatOccurs(d: seq<Selection>) returns (p: nat, q: nat)
    requires !NoRepeat(SpreadNames(d))
    ensures p < q < |d| && d[p].FragmentSpread? && d[q].FragmentSpread? && d[p].name == d[q].name
  {
    if d[0].FragmentSpread? && d[0].name in SpreadNames(d[1..]) {
      p := 0;
      q := NameOccurs(d[1..], d[0].name);
      q := q + 1;
    } else {
      p, q := RepeatOccurs(d[1..]);
      p, q := p + 1, q + 1;
    }
  }

  lemma Pump(document: Document, roots: seq<Selection>, b: seq<Selection>, s: Selection, n: nat) returns (e: seq<Selection>)
    requires roots == Children(document, s) && IsDescent(document, roots, b + [s])
    ensures IsDescent(document, roots, e) && |e| >= n
  {
    if n == 0 {
      e := [];
    } else {
      var rest := Pump(document, roots, b, s, n - 1);
      e := b + [s] + rest;
      SplitDescent(document, roots, b, s, rest);
    }
  }

  lemma CircularIsUnbounded(document: Document, roots: seq<Selection>, d: seq<Selection>, n: nat) returns (e: seq<Selection>)
    requires IsDescent(document, roots, d) && !NoRepeat(SpreadNames(d))
    ensures IsDescent(document, roots, e) && |e| >= n
  {
    var p, q := RepeatOccurs(d);
    var a, s, b, t, c := d[..p], d[p], d[p + 1..q], d[q], d[q + 1..];
    assert d == a + [s] + (b + [t] + c);
    SplitDescent(document, roots, a, s, b + [t] + c);
    SplitDescent(document, Children(document, s), b, t, c);
    var loops := Pump(document, Children(document, s), b, t, n);
    e := a + [s] + loops;
    SplitDescent(document, roots, a, s, loops);
  }

  function Height(selections: seq<Selection>): nat {
    if selections == [] then 0
    else Max(1 + (if selections[0].FragmentSpread? then 0 else Height(selections[0].selections)), Height(selections[1..]))
  }

  function DocumentHeight(definitions: seq<Definition>): nat {
    if definitions == [] then 0
    else Max(if definitions[0].Operation? || definitions[0].Fragment? then Height(definitions[0].selections) else 0, DocumentHeight(definitions[1..]))
  }

  lemma HeightOfMember(selections: seq<Selection>, s: Selection)
    requires s in selections
    ensures Height(selections) >= 1 + (if s.FragmentSpread? then 0 else Height(s.selections))
  {
    if s != selections[0] {
      HeightOfMember(selections[1..], s);
    }
  }

  lemma {:induction false} HeightConcat(a: seq<Selection>, b: seq<Selection>)
    ensures Height(a + b) == Max(Height(a), Height(b))
  {
    if a == [] {
      assert a + b == b;
    } else {
      assert (a + b)[1..] == a[1..] + b && (a + b)[0] == a[0];
      HeightConcat(a[1..], b);
    }
  }

  lemma HeightOfBodies(definitions: seq<Definition>, spread: Option<string>)
    ensures Height(Bodies(definitions, spread)) <= DocumentHeight(definitions)
  {
    if definitions != [] {
      HeightOfBodies(definitions[1..], spread);
      HeightConcat(if Entered(definitions[0], spread) then definitions[0].selections else [], Bodies(definitions[1..], spread));
    }
  }

  /** Between two spreads a descent stays inside one definition. */
  lemma {:induction false} DescentBound(document: Document, roots: seq<Selection>, d: seq<Selection>)
    requires IsDescent(document, roots, d)
    ensures |d| <= Height(roots) + Times(|SpreadNames(d)|, DocumentHeight(document.definitions))
    decreases |d|
  {
    if d != [] {
      HeightOfMember(roots, d[0]);
      DescentBound(document, Children(document, d[0]), d[1..]);
      if d[0].FragmentSpread? {
        HeightOfBodies(document.definitions, Some(d[0].name));
        assert |SpreadNames(d)| == 1 + |SpreadNames(d[1..])|;
      }
    }
  }

  function Times(n: nat, height: nat): nat {
    if n == 0 then 0 else height + Times(n - 1, height)
  }

  lemma TimesMonotone(a: nat, b: nat, height: nat)
    requires a <= b
    ensures Times(a, height) <= Times(b, height)
  {
  }

  lemma BodiesOfUnknown(definitions: seq<Definition>, name: string)
    requires name !in FragmentNames(definitions)
    ensures Bodies(definitions, Some(name)) == []
  {
    if definitions != [] {
      assert forall i | 0 <= i < |definitions[1..]| :: definitions[1..][i] == definitions[i + 1];
      BodiesOfUnknown(definitions[1..], name);
    }
  }

  /** All spreads of a descent but the last lead somewhere. */
  lemma SpreadsAreDefined(document: Document, roots: seq<Selection>, d: seq<Selection>)
    requires IsDescent(document, roots, d)
    ensures forall i | 0 <= i < |SpreadNames(d)| - 1 :: SpreadNames(d)[i] in FragmentNames(document.definitions)
    decreases |d|
  {
    if d != [] {
      SpreadsAreDefined(document, Children(document, d[0]), d[1..]);
      if d[0].FragmentSpread? && d[0].name !in FragmentNames(document.definitions) {
        BodiesOfUnknown(document.definitions, d[0].name);
      }
    }
  }

  lemma DistinctBound(path: seq<string>, names: set<string>)
    requires NoRepeat(path) && forall i | 0 <= i < |path| - 1 :: path[i] in names
    ensures |path| <= |names| + 1
  {
    if path != [] {
      var init := path[..|path| - 1];
      if init != [] {
        var last := init[|init| - 1];
        assert last in names;
        assert NoRepeat(init);
        DistinctBound(init, names - {last});
      }
    }
  }

  ghost predicate FinitelyExpanded(document: Document, roots: seq<Selection>) {
    exists n: nat :: BoundedBy(document, roots, n)
  }

  ghost predicate SpreadsNeverRepeat(document: Document, roots: seq<Selection>) {
    forall d | IsDescent(document, roots, d) :: NoRepeat(SpreadNames(d))
  }

  ghost predicate BoundedBy(document: Document, roots: seq<Selection>, n: nat) {
    forall d | IsDescent(document, roots, d) :: |d| <= n
  }

  /** No descent repeats a spread exactly when full inlining ends, so `CircularSpreads` is not a false alarm. */
  lemma CircularIffInfinite(document: Document, roots: seq<Selection>)
    ensures SpreadsNeverRepeat(document, roots) <==> FinitelyExpanded(document, roots)
  {
    if SpreadsNeverRepeat(document, roots) {
      var height, names := DocumentHeight(document.definitions), FragmentNames(document.definitions);
      var n: nat := Height(roots) + Times(|names| + 1, height);
      forall d | IsDescent(document, roots, d) ensures |d| <= n {
        DescentBound(document, roots, d);
        SpreadsAreDefined(document, roots, d);
        DistinctBound(SpreadNames(d), names);
        TimesMonotone(|SpreadNames(d)|, |names| + 1, height);
      }
      assert BoundedBy(document, roots, n);
    } else {
      var d :| IsDescent(document, roots, d) && !NoRepeat(SpreadNames(d));
      if FinitelyExpanded(document, roots) {
        var n: nat :| BoundedBy(document, roots, n);
        var e := CircularIsUnbounded(document, roots, d, n + 1);
        assert false;
      }
    }
  }
}
