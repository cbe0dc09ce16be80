/** src/server/GraphQLExecutionArgsParser.ts: parsing and validation, memoised by query text. */
module ArgsParser {
  import opened GraphQLAst
  import opened LruCaches
  import DepthLimit

  datatype ParseError = NotAString | SyntaxError | Depth(outcome: DepthLimit.Outcome)

  datatype ParseResult = Parsed(document: Document) | Failed(error: ParseError)

  /** src/util/cleanOperations.ts */
  function CleanOperations(document: Document): Document {
    Document(Cleaned(document.definitions))
  }

  function Cleaned(definitions: seq<Definition>): seq<Definition> {
    if definitions == [] then []
    else
      (if definitions[0].ScalarTypeDefinition? || definitions[0].DirectiveDefinition? then [] else [definitions[0]])
      + Cleaned(definitions[1..])
  }

  predicate Dropped(d: Definition) {
    d.ScalarTypeDefinition? || d.DirectiveDefinition?
  }

  predicate IsSubsequence(part: seq<Definition>, whole: seq<Definition>) {
    part == [] || (whole != [] && ((part[0] == whole[0] && IsSubsequence(part[1..], whole[1..])) || IsSubsequence(part, whole[1..])))
  }

  /** What is left: all but scalar and directive definitions, as often as before and in the same order. */
  lemma {:induction false} CleaningKeepsTheRest(definitions: seq<Definition>)
    ensures forall d :: multiset(Cleaned(definitions))[d] == if Dropped(d) then 0 else multiset(definitions)[d]
    ensures IsSubsequence(Cleaned(definitions), definitions)
  {
    if definitions != [] {
      CleaningKeepsTheRest(definitions[1..]);
      assert definitions == [definitions[0]] + definitions[1..];
      if Dropped(definitions[0]) {
        assert Cleaned(definitions) == Cleaned(definitions[1..]);
      } else {
        assert Cleaned(definitions)[1..] == Cleaned(definitions[1..]);
      }
    }
  }

  /** Two fragments of one name are cleaned, or not, together: cleaning touches no executable definition. */
  lemma CleaningKeepsBodies(definitions: seq<Definition>, spread: Option<string>)
    ensures DepthLimit.Bodies(Cleaned(definitions), spread) == DepthLimit.Bodies(definitions, spread)
  {
    if definitions != [] {
      CleaningKeepsBodies(definitions[1..], spread);
      if definitions[0].ScalarTypeDefinition? || definitions[0].DirectiveDefinition? {
        assert Cleaned(definitions) == Cleaned(definitions[1..]);
        assert DepthLimit.Bodies(definitions, spread) == DepthLimit.Bodies(definitions[1..], spread);
      } else {
        assert Cleaned(definitions)[1..] == Cleaned(definitions[1..]);
      }
    }
  }

  lemma {:induction false} CleaningKeepsDescents(document: Document, roots: seq<Selection>, d: seq<Selection>)
    ensures DepthLimit.IsDescent(CleanOperations(document), roots, d) <==> DepthLimit.IsDescent(document, roots, d)
    decreases |d|
  {
    if d != [] {
      if d[0].FragmentSpread? {
        CleaningKeepsBodies(document.definitions, Some(d[0].name));
      }
      CleaningKeepsDescents(document, DepthLimit.Children(document, d[0]), d[1..]);
    }
  }

  /** The library functions that the memoisation wraps; both are pure. */
  datatype Library<!Schema, !Errors> = Library(parse: string -> Option<Document>, validate: (Schema, Document) -> Errors)

  /** What parsing gives without any cache, the failure that comes first included. */
  ghost function Uncached<Schema, Errors>(library: Library<Schema, Errors>, maxDepth: Option<int>, query: Option<string>): ParseResult {
    match query
    case None => Failed(NotAString)
    case Some(text) =>
      match library.parse(text)
      case None => Failed(SyntaxError)
      case Some(parsed) =>
        var document := CleanOperations(parsed);
        if maxDepth.Some? && maxDepth.value != 0 && DepthLimit.Limited(document, maxDepth.value) != DepthLimit.Accepted then
          Failed(Depth(DepthLimit.Limited(document, maxDepth.value)))
        else Parsed(document)
  }

  /** The document that was written decides, not the cleaned one. */
  lemma UncachedIsWithinDepth<Schema, Errors>(library: Library<Schema, Errors>, maxDepth: Option<int>, text: string)
    requires library.parse(text).Some?
    ensures var document := library.parse(text).value;
            Uncached(library, maxDepth, Some(text)) == Parsed(CleanOperations(document)) <==>
            (maxDepth.Some? && maxDepth.value != 0 ==>
               forall d | DepthLimit.IsDescent(document, DepthLimit.Bodies(document.definitions, None), d) ::
                 DepthLimit.Admissible(maxDepth.value, d))
  {
    var document := library.parse(text).value;
    CleaningKeepsBodies(document.definitions, None);
    if maxDepth.Some? {
      DepthLimit.LimitedExact(CleanOperations(document), maxDepth.value);
      forall d ensures DepthLimit.IsDescent(CleanOperations(document), DepthLimit.Bodies(document.definitions, None), d) <==>
                       DepthLimit.IsDescent(document, DepthLimit.Bodies(document.definitions, None), d)
      {
        CleaningKeepsDescents(document, DepthLimit.Bodies(document.definitions, None), d);
      }
    }
  }

  /** Why a query is refused: it is no string, it does not parse, or it has a first descent that is circular or too deep. */
  lemma RefusedIff<Schema, Errors>(library: Library<Schema, Errors>, maxDepth: Option<int>, query: Option<string>, error: ParseError)
    ensures Uncached(library, maxDepth, query) == Failed(error) <==>
            match error
            case NotAString => query.None?
            case SyntaxError => query.Some? && library.parse(query.value).None?
            case Depth(reason) =>
              && query.Some? && library.parse(query.value).Some? && maxDepth.Some? && maxDepth.value != 0 && reason != DepthLimit.Accepted
              && DepthLimit.FirstReason(CleanOperations(library.parse(query.value).value), maxDepth.value, reason)
  {
    if query.Some? && library.parse(query.value).Some? && maxDepth.Some? {
      DepthLimit.LimitedExact(CleanOperations(library.parse(query.value).value), maxDepth.value);
    }
  }

  class GraphQLExecutionArgsParser<Schema(==), Errors> {
    const library: Library<Schema, Errors>
    const maxDepth: Option<int>
    const parseQueryCache: LRUCache<string, Document>
    const validateCache: LRUCache<string, Errors>

    constructor (library: Library<Schema, Errors>, cacheSize: Option<nat>, maxDepth: Option<int>)
      ensures this.library == library && this.maxDepth == maxDepth
      ensures fresh(parseQueryCache) && fresh(validateCache)
      ensures Valid() && forall schema :: ValidFor(schema)
    {
      this.library, this.maxDepth := library, maxDepth;
      var size := if cacheSize.Some? then cacheSize.value else 50;
      this.parseQueryCache := new LRUCache(size);
      this.validateCache := new LRUCache(size);
    }

    /** Every cached document is the uncached result for its text. */
    ghost predicate Valid()
      reads this, parseQueryCache
    {
      forall text | text in parseQueryCache.cache ::
        Uncached(library, maxDepth, Some(text)) == Parsed(parseQueryCache.cache[text].value)
    }

    /** Every cached error list is the uncached result for its text and this schema. */
    ghost predicate ValidFor(schema: Schema)
      reads this, validateCache
    {
      forall text | text in validateCache.cache ::
        exists document :: Uncached(library, maxDepth, Some(text)) == Parsed(document) &&
                           validateCache.cache[text].value == library.validate(schema, document)
    }

    method ParseQuery(query: Option<string>) returns (r: ParseResult)
      requires Valid()
      modifies parseQueryCache
      ensures Valid() && r == Uncached(library, maxDepth, query)
    {
      if query.None? {
        return Failed(NotAString);
      }
      var cached := parseQueryCache.Get(query.value);
      if cached.Some? {
        return Parsed(cached.value);
      }
      var parsed := library.parse(query.value);
      if parsed.None? {
        return Failed(SyntaxError);
      }
      var document := CleanOperations(parsed.value);
      if maxDepth.Some? && maxDepth.value != 0 {
        var outcome := DepthLimit.LimitDepth(document, maxDepth.value);
        if outcome != DepthLimit.Accepted {
          return Failed(Depth(outcome));
        }
      }
      r := Parsed(document);
      parseQueryCache.Set(query.value, document);
    }

    /** The key is the text alone: with another schema than the one that filled the cache the errors are the old ones. */
    method Validate(schema: Schema, originalQuery: string, document: Document) returns (errors: Errors)
      modifies validateCache
      ensures originalQuery in old(validateCache.cache) ==> errors == old(validateCache.cache)[originalQuery].value
      ensures originalQuery !in old(validateCache.cache) ==> errors == library.validate(schema, document)
      ensures originalQuery !in old(validateCache.cache) ==>
              validateCache.Abstract() == AfterSet(old(validateCache.Abstract()), validateCache.maxSize, originalQuery, errors)
      ensures old(ValidFor(schema)) && Uncached(library, maxDepth, Some(originalQuery)) == Parsed(document) ==>
              ValidFor(schema) && errors == library.validate(schema, document)
    {
      var cached := validateCache.Get(originalQuery);
      if cached.Some? {
        return cached.value;
      }
      errors := library.validate(schema, document);
      validateCache.Set(originalQuery, errors);
    }
  }

  /** Why the schema must stay fixed: after one schema has filled the cache, another one gets its errors. */
  method ValidateWithBoth<Schema, Errors>(parser: GraphQLExecutionArgsParser<Schema, Errors>, one: Schema, other: Schema,
                                          text: string, document: Document)
    returns (first: Errors, second: Errors)
    requires parser.validateCache.maxSize >= 1 && text !in parser.validateCache.cache
    modifies parser.validateCache
    ensures first == parser.library.validate(one, document) && second == first
  {
    SetIsPresent(parser.validateCache.Abstract(), parser.validateCache.maxSize, text, parser.library.validate(one, document));
    first := parser.Validate(one, text, document);
    second := parser.Validate(other, text, document);
  }
}
