# Verified model of a GraphQL toolkit

Dafny models and proofs for the parts of the library whose behaviour is hardest to see from reading one function:

- **Query depth limiter** (`DepthLimit`): the visitor with its shared counter, against the fully inlined document.
- **Operation-to-type compiler** (`SelectionTypes`): from selection sets to TypeScript types, against the responses that
  sections 6.3.2 and 6.4.3 of the GraphQL specification (October 2021) allow (`Execution`) and the values that inhabit an
  emitted type (`TsTypes`). `Coverage` says when what is left of a selection set answers what its type asks for;
  `TypeSoundness` and `OperationTypes` prove that then no response falls outside its type, `SoundnessExact` that it is so
  only then, `SelectionMeaning` what the types mean, no weaker and no stronger, and `SoundnessLimits` which selections are
  affected. `FragmentClosure` is the fragment map and the set of fragments shipped with an operation.
- **Subscriptions over web sockets** ("GraphQL over WebSocket Protocol", `graphql-transport-ws`, and its legacy predecessor):
  the push iterator (`PushIterators`, `PushHistories`), the server socket (`ServerSockets`, `ServerHistories`,
  `ServerSocketClass`), the client socket
  (`ClientIterators`, `ClientSocketClass`), a pair of both over two reliable FIFO channels (`SocketPairs`,
  `SubscriptionViews`, `PairSafety`, `PairRuns`, `EarlyLingers`), and the reconnecting client (`Reconnections`,
  `InnerIterators`, `ReconnectionSafety`, `ReconnectionRuns`, `EventOrders`, `ReconnectionEnds`, `ReconnectionLeaks`,
  `ReconnectionClass`, `Connections`, `DelayWaits`, `ReconnectDelays`).
- **LRU cache and memoising parser** (`LruCaches`, `ArgsParser`).
- **Resolver installation** (`Resolvers`).

`dafny verify dfyconfig.toml` checks the whole project.

## How the models are built

Classes of the library are classes here: each method is one synchronous segment between two awaits, and its `ensures` says
that the new state is one step of a state machine (`Step`, `Handle`, `Receive`). What the library keeps in promises, closures
and running loops is ghost state of the class (`rest`). `Valid()` of the push iterator, the server socket and the two classes
of the reconnecting client is the invariant that the theorems about their runs are proved with, and the methods that start a
segment require and ensure it, so those theorems hold for a caller in any state it can reach.

The theorems about runs are inductions over all sequences of enabled events, so they cover every interleaving; the one order
assumed of continuations is that message handlers of the server which await the same promise resume first in, first out.
Timers are events that may fire at any time. Only the results about 4409 speak of patient linger timers (`Patient`), those that
fire after the peer's last message for their id was processed (`ServerHasAll`, `ClientHasAll`).

What the state machines record is tied to the events themselves (`PushHistories`, `ServerHistories`, `DelayWaits`): which values
were accepted or consumed, what ended an iterator or a stream, when a stream was returned, why a socket was closed, and for
which timer a call has waited.

What can still follow is a question of order as well. The results about `return()` and `close()` are about runs and
continuations in the order of a JavaScript engine (`InOrder`): a socket or a timer is heard only when nothing is queued to
continue, and the setup of a subscription ends before anything else does. The application may call in at any time. Likewise
(`DelayWaits`) the calls that await a delay continue as soon as it is over, before another call can begin to wait.

The compiler's soundness depends on what `@skip` and `@include` leave (`Covered`, `AnswersItself`). Along the selections that
the executor merges, per runtime type: a field that nothing answers is nullable, what answers a key is the same field of the
schema, its merged selections answer the field's own ones, and `__typename` is answered under its own name where it is asked
for. Only fields collected for the same object are compared, and only fragments that the operation reaches. An operation that
drops nothing and does not alias `__typename` always answers itself (`KeptAnswersItself`); a droppable nullable field does
where no other field of its object has its key (`AloneCovered`). Inline fragments have type conditions, and the meta fields
`__schema` and `__type` do not occur: on other documents the generator throws. Two fragments whose type names collide have no
declarations to be sound about (`DeclarableIffConsistent`).

The converse (`SoundIffCovered`) needs what validation and a usable schema give (`Validated`, `Populated`), and alternatives
that can be told apart at the nested selection sets (`Comparable`): by a lifted `__typename`, or because there is only one.
Without that a value that one alternative misses may still be held by another one (`EmptyAlternativeHoldsAll`).

## Findings

- `@skip` or `@include` on an object field whose response key another field of the same object has makes the emitted type
  too strict, exactly if what may be left does not answer what both ask for (`PairSoundIff`; `ConditionalMergeUnsound` gives
  the response).
- Conditions on unions are never matched by the generator, so a `__typename` below one is not lifted (`UnionConditionMissed`).
- Cached validation errors are keyed by the query text alone, so the schema has to stay fixed (`ValidateWithBoth`).
- `return()` on a reconnecting subscription does not stop it while its run awaits a connection, while a retry timer is
  pending, or while an error that is retried is on its way to the loop (`ReturnLeaks`; `ReturnStopsIff` is the exact condition).
- `close()` finishes the subscriptions and cancels no run. It stops what `return()` would stop if a call of the consumer, parked
  or queued, sees the end and so tears the loop down, as a `for await` loop's call does that waits for its next value
  (`CloseStopsAwaited`). Otherwise the loop stays, and another connection can follow the close of the socket (`CloseStopsIff`).
- The back-off rises for all draws exactly if (multiplier - 1) * minimum >= 1 (`RisesIffGrown`); otherwise rounding can keep it
  at the minimum for ever (`FractionalMultiplierStalls`).
- A linger timer that fires early makes the pair close with 4409 in some continuation, exactly if a message for its id is on the
  way or can still be sent (`ServerLingerIff`, `ClientLingerIff`). Delivery does not depend on it.
- A `return()` on a push iterator whose setup is still pending never calls the teardown function (`TornDownProperly`).

## Model

| member | source | states |
|---|---|---|
| DepthLimit.Traversal.VisitNode | src/util/limitDepth.ts:23-39 | the verdict on one node is the reason of the first descent in document order, parents before children, that offends in the expanded tree below it; on acceptance the shared counter is back where it was, whatever was entered |
| DepthLimit.Traversal.Visit | src/util/limitDepth.ts:9-40 | the same for a list of siblings: the first rejection is the verdict |
| DepthLimit.Traverse | src/util/limitDepth.ts:4-41 | terminates on every document, cyclic or not (spread names not yet on the path, then the syntax tree); its verdict is the reason of the first descent through the last spread of the path that offends |
| DepthLimit.LimitDepth | src/util/limitDepth.ts:3-44 | accepts if and only if no descent of the fully inlined operations, outside `__` fields, repeats a spread or nests fields deeper than the maximum (top level = 0); a rejection is for the reason of the first such descent in document order, prefixes before extensions |
| DepthLimit.LimitedExact | src/util/limitDepth.ts:3-44 | without the walk: accepted if and only if no descent offends; circular, or too deep, if and only if the first descent that offends in document order repeats a spread, or is too deep |
| DepthLimit.OneOutcome | src/util/limitDepth.ts:23-31 | at most one outcome is justified: the first offence is at one place and has one reason |
| DepthLimit.CircularIffInfinite | src/util/limitDepth.ts:5-7 | a repeated spread exists exactly when full inlining never ends, so "circular" is never a false alarm |
| DepthLimit.DescentBound | src/util/limitDepth.ts:4-41 | a descent is no longer than the written nesting allows for each spread on it |
| FragmentClosure.ClientCodeGenerator.InitFragmentMap | src/codegen/ClientCodeGenerator.ts:109-123 | every fragment name maps to its last definition and to the set of names spread anywhere inside it |
| FragmentClosure.ClientCodeGenerator.Collect | src/codegen/ClientCodeGenerator.ts:334-341 | terminates on cyclic fragment graphs; adds exactly what the fragment reaches, each name once, or names an unknown fragment that it reaches |
| FragmentClosure.ClientCodeGenerator.GenerateOperationFragments | src/codegen/ClientCodeGenerator.ts:332-354 | the set is exactly the fragments reachable from the operation's spreads, without duplicates; it throws if and only if one of those is unknown |
| FragmentClosure.ShippedIsClosed | src/codegen/ClientCodeGenerator.ts:343-353 | what is shipped is self-contained: no spread in it leads outside |
| FragmentClosure.ShippedIsLeast | src/codegen/ClientCodeGenerator.ts:343-353 | what is shipped is minimal: every self-contained set with the operation's spreads contains it |
| AcyclicFragments.AcyclicIffNoCycle | src/codegen/CodeGenerator.ts:326 | the ranking that the generator's recursion needs exists exactly when validation finds no fragment cycle |
| TypeSoundness.FieldTypeSound | src/codegen/ClientCodeGenerator.ts:487-517 | at any nesting of lists and non-null, every completed value inhabits the generated field type |
| TypeSoundness.FieldSound | src/codegen/ClientCodeGenerator.ts:476-485 | the property generated for a field holds of every response in which what is left answers that field: absent key, alias and merged selections included |
| TypeSoundness.InlineFragmentsSound | src/codegen/ClientCodeGenerator.ts:521-547 | a response inhabits the type of every inline fragment that is emitted for its runtime type |
| TypeSoundness.FragmentSpreadsSound | src/codegen/ClientCodeGenerator.ts:551-575 | a response inhabits every fragment type that is referenced for its runtime type |
| TypeSoundness.ForObjectSound | src/codegen/ClientCodeGenerator.ts:411-429 | a response for an object type inhabits the intersection generated for that type |
| TypeSoundness.SelectionSetSound | src/codegen/ClientCodeGenerator.ts:395-409 | a response inhabits the union through the alternative of its own runtime type |
| TypeSoundness.TypeNameSound | src/codegen/ClientCodeGenerator.ts:431-454 | where `__typename` is lifted and answered, the response carries it, with its runtime type |
| OperationTypes.OperationSound | src/codegen/ClientCodeGenerator.ts:384-409 | for every schema, acyclic fragment set and operation, if what its variables leave answers the operation, every response inhabits the operation's data type through the alternative of its runtime type |
| OperationTypes.KeptAnswersItself | src/codegen/ClientCodeGenerator.ts:384-409 | an operation of which nothing is dropped, with no aliased `__typename`, answers itself, whatever is merged |
| SoundnessExact.SoundIffCovered | src/codegen/ClientCodeGenerator.ts:411-485 | for a validated selection set in which a lifted `__typename` tells the alternatives of nested abstract types apart, the type is sound for all variables if and only if what each assignment of them leaves answers what the type asks for |
| SelectionMeaning.FieldTypeExact | src/codegen/ClientCodeGenerator.ts:487-517 | a value inhabits a field type if and only if it is what the schema says of the field: null only where nullable, an array only where a list, and at the leaves a mapped value or a value of the nested shape |
| SelectionMeaning.FieldExact | src/codegen/ClientCodeGenerator.ts:476-485 | a property holds if and only if the key is missing only for a nullable field, and what is there is of the field's type |
| SelectionMeaning.ObjectExact | src/codegen/ClientCodeGenerator.ts:411-429 | a value inhabits the intersection for an object type if and only if it has every field written for that type at any nesting of inline fragments, inhabits every fragment spread for it, and carries its `__typename` if lifted |
| SelectionMeaning.SelectionSetExact | src/codegen/ClientCodeGenerator.ts:395-409 | a value inhabits the union if and only if it has the shape of one of the possible types |
| SelectionMeaning.FragmentExact | src/codegen/ClientCodeGenerator.ts:591-603 | a reference to a fragment type is inhabited if and only if the value has the shape of one of the fragment's possible types |
| OperationTypes.DeclarationsExportFragments | src/codegen/ClientCodeGenerator.ts:579-599 | the emitted declarations make every reference to a fragment type mean the type generated for that fragment |
| OperationTypes.DeclarableIffConsistent | src/codegen/ClientCodeGenerator.ts:601-603 | such declarations exist if and only if fragments whose type names collide have the same type |
| OperationTypes.TypeNamesCollideIff | src/codegen/ClientCodeGenerator.ts:601-603 | two fragments get one type name if and only if their names differ at most in the case of the first letter |
| OperationTypes.TypeNameIs | src/codegen/ClientCodeGenerator.ts:601-603 | the type name is an `F` and the name with its first letter in upper case |
| OperationTypes.ConsistentIff | src/codegen/ClientCodeGenerator.ts:579-603 | the declarations of a document are consistent if and only if fragments whose names collide in that sense have one type |
| OperationTypes.ApartIsDeclarable | src/codegen/ClientCodeGenerator.ts:579-603 | a document whose fragment names do not collide has declarations |
| OperationTypes.StandardLeavesExact | src/codegen/CommonCodeGenerator.ts:200-206 | the type that a leaf is mapped to holds a value if and only if the server may serialise the leaf so |
| OperationTypes.StandardLeavesHold | src/codegen/CommonCodeGenerator.ts:200-206 | standard scalars, enums and unmapped scalars hold what the server serialises for them |
| OperationTypes.StandardOperationSound | src/codegen/CommonCodeGenerator.ts:200-206 | with the standard type mapping, a response whose leaves are serialised as the specification says inhabits the operation's type, with no premise on leaf types |
| OperationTypes.UpliftExact | src/codegen/ClientCodeGenerator.ts:431-454 | for every document that the generator accepts, `hasTypeNameField` holds exactly when field collection finds `__typename` that drops nothing for `@skip` or `@include` and never follows a condition on a union |
| OperationTypes.UpliftIsCollection | src/codegen/ClientCodeGenerator.ts:431-454 | without conditions on unions, it holds whenever field collection (section 6.3.2 of the GraphQL specification) finds `__typename`, and the converse holds if and only if some `__typename` it looks at stays under the variables |
| OperationTypes.AlternativeDiscriminates | src/codegen/ClientCodeGenerator.ts:458-474 | a value inhabits an alternative with a lifted `__typename` only if its `__typename` is that object type |
| OperationTypes.ExactlyItsAlternative | src/codegen/ClientCodeGenerator.ts:395-454 | when every possible type lifts `__typename`, a response inhabits alternative U if and only if U is its runtime type |
| SoundnessLimits.LeafFieldSoundIff | src/codegen/ClientCodeGenerator.ts:476-485 | for a single leaf field, the generated type is sound for all variables if and only if only a nullable field can be dropped and `__typename` is neither dropped nor aliased |
| SoundnessLimits.UnionConditionMissed | src/codegen/ClientCodeGenerator.ts:640-643 | a condition on a union is never matched: its `__typename` is collected but not lifted |
| SoundnessLimits.PairSoundIff | src/codegen/ClientCodeGenerator.ts:476-485 | for two selections of one key at one object (the second in an inline fragment on its type), with any schema, and sub-selections that lift `__typename` at abstract types: the type is sound for all variables if and only if each part that variables may leave answers what both ask for |
| SoundnessLimits.ConditionalMergeUnsound | src/codegen/ClientCodeGenerator.ts:476-485 | a finding, under the same premises: if one of the two is dropped and asks for a non-null field that the other does not select, some response is outside the type |
| SoundnessLimits.AloneCovered | src/codegen/ClientCodeGenerator.ts:476-485 | a droppable nullable field is answered wherever no other field collected for its object has its key |
| SoundnessLimits.EmptyAlternativeHoldsAll | src/codegen/ClientCodeGenerator.ts:395-409 | an alternative that asks for nothing makes the union hold every object, so soundness of the union does not show soundness of the others |
| LruCaches.LRUCache.Get | src/util/LRUCache.ts:14-23 | a hit returns the value and moves the entry to the current index; a miss changes nothing |
| LruCaches.LRUCache.Set | src/util/LRUCache.ts:25-35 | stores under the current index; on overflow the deletion loop leaves exactly the entries of the index window |
| LruCaches.RunDescribed | src/util/LRUCache.ts:14-35 | after any calls, the state is a function of the touch history: present keys, indices, values, and size at most maxSize |
| LruCaches.MostRecentStay | src/util/LRUCache.ts:28-34 | the present keys are a prefix of the most-recently-touched order |
| LruCaches.RecentlyTouchedIsPresent | src/util/LRUCache.ts:28-34 | a key touched within the last maxSize touches is present with its last set value |
| LruCaches.EvictionLeavesWindow | src/util/LRUCache.ts:28-34 | an overflowing `set` leaves exactly the keys of the last maxSize touches, so repeated hits can cost several entries at once |
| LruCaches.IndicesDistinct | src/util/LRUCache.ts:18-26 | stored indices are distinct and below the counter |
| LruCaches.SizeBounded | src/util/LRUCache.ts:28-34 | the size never exceeds maxSize |
| ArgsParser.GraphQLExecutionArgsParser.ParseQuery | src/server/GraphQLExecutionArgsParser.ts:55-70 | after any history of calls, the result is that of uncached parse, clean and depth check, the kind of failure included |
| ArgsParser.UncachedIsWithinDepth | src/server/GraphQLExecutionArgsParser.ts:55-70 | what the parser returns never repeats a spread nor nests deeper than the maximum |
| ArgsParser.RefusedIff | src/server/GraphQLExecutionArgsParser.ts:55-70 | the reason of a refusal: no string, no syntax, or the reason of the first descent that is circular or too deep, and only if a maximum is set |
| ArgsParser.GraphQLExecutionArgsParser.Validate | src/server/GraphQLExecutionArgsParser.ts:117-126 | for one fixed schema and arguments from `parse`, the errors are those of uncached validation |
| ArgsParser.ValidateWithBoth | src/server/GraphQLExecutionArgsParser.ts:117-126 | a finding: the key is the text alone, so after one schema has filled the cache another one gets its errors |
| ArgsParser.CleaningKeepsTheRest | src/util/cleanOperations.ts:3-12 | cleaning removes all scalar and directive definitions and nothing else, and keeps the order |
| ArgsParser.CleaningKeepsBodies | src/util/cleanOperations.ts:3-12 | cleaning changes nothing that the depth limiter walks over |
| Resolvers.MergeResolvers | src/util/mergeResolvers.ts:9-31 | the loop computes the merge of the list, whatever the order of the keys |
| Resolvers.LastElementWins | src/util/mergeResolvers.ts:14-30 | a merged field is that of the last list element that defines it, and nothing else is defined |
| Resolvers.Schema.AcceptsAllIff | src/server/GraphQLSchemaManager.ts:138-305 | acceptable input: named types exist and are no input types, scalar instances go to scalar types only, and of a type's own resolver and those of its interfaces all names are fields or enum values of it |
| Resolvers.GraphQLSchemaManager.SetFieldResolvers | src/server/GraphQLSchemaManager.ts:208-231 | succeeds if and only if every named field exists; then exactly those fields get their resolver, as `subscribe` if the type is the subscription type and as `resolve` otherwise, and the other property of a field stays |
| Resolvers.GraphQLSchemaManager.SetResolversToType | src/server/GraphQLSchemaManager.ts:156-206 | succeeds exactly on acceptable resolvers, whose fields exist and whose enum values are those of the enum, and writes nothing of another type |
| Resolvers.GraphQLSchemaManager.CheckEnumValues | src/server/GraphQLSchemaManager.ts:251-253 | an enum resolver throws if and only if it names a value that the enum does not have |
| Resolvers.GraphQLSchemaManager.SetInheritedResolversToType | src/server/GraphQLSchemaManager.ts:292-305 | each property ends with the last declared interface whose resolver sets it, else keeps its value |
| Resolvers.GraphQLSchemaManager.SetInheritedResolvers | src/server/GraphQLSchemaManager.ts:274-290 | the same for every named type, in any key order; other types are unchanged |
| Resolvers.GraphQLSchemaManager.SetResolversWithoutInheritance | src/server/GraphQLSchemaManager.ts:138-154 | own resolvers replace what was there; other types are unchanged |
| Resolvers.GraphQLSchemaManager.SetResolvers | src/server/GraphQLSchemaManager.ts:130-136 | succeeds exactly on acceptable input, and then every field of a named type has its resolver by the precedence rule (own, else last interface, else old value) as `subscribe` on the subscription type and as `resolve` elsewhere, the other property unchanged |
| Resolvers.Schema.FieldPrecedence | src/server/GraphQLSchemaManager.ts:130-154 | the precedence rule for the `resolve` and the `subscribe` of one field, by whether its type is the subscription type |
| Resolvers.Schema.TypePrecedence | src/server/GraphQLSchemaManager.ts:182-237 | the same rule for `__isTypeOf` of an object type and `__resolveType` of an interface or a union |
| PushIterators.AsyncPushIterator.Next | src/util/AsyncPushIterator.ts:29-49 | the first segment of `next`: setup, or value, end, error or wait; keeps the invariant of `RunGood` |
| PushIterators.AsyncPushIterator.SetupResolves | src/util/AsyncPushIterator.ts:30-33 | the segment after setup, with the teardown function it gave; keeps the invariant of `RunGood` |
| PushIterators.AsyncPushIterator.Resumes | src/util/AsyncPushIterator.ts:46-48 | a parked call that was woken runs the same checks again; keeps the invariant of `RunGood` |
| PushIterators.AsyncPushIterator.Return | src/util/AsyncPushIterator.ts:51-60 | ends the iteration once, and tells whether the teardown function is called; keeps the invariant of `RunGood` |
| PushIterators.AsyncPushIterator.Throw | src/util/AsyncPushIterator.ts:63-80 | fails the iteration once, and tells whether the teardown function is called; keeps the invariant of `RunGood` |
| PushIterators.AsyncPushIterator.Push | src/util/AsyncPushIterator.ts:93-98 | accepts a value unless finished, and wakes all parked calls; keeps the invariant of `RunGood` |
| PushIterators.AsyncPushIterator.Finish | src/util/AsyncPushIterator.ts:105-110 | accepts no more values, and wakes all parked calls; keeps the invariant of `RunGood` |
| PushIterators.AsyncPushIterator.TeardownEnds | src/util/AsyncPushIterator.ts:132-144 | the teardown function is forgotten, its failure becomes the error, and parked calls are woken; keeps the invariant of `RunGood` |
| PushIterators.RunGood | src/util/AsyncPushIterator.ts:29-144 | in every interleaving, re-entrant calls from teardown included: accepted pushes = values handed out ++ queue; a call is parked only on an empty, unfinished, live iterator; each value went to exactly one call; teardown was called at most once, and once exactly if the iterator ended after setup gave one |
| PushIterators.RunFrozenOnceDone | src/util/AsyncPushIterator.ts:35-60 | once done, no value is handed out and the cause of the end never changes |
| PushHistories.AcceptedIsPushed | src/util/AsyncPushIterator.ts:93-98 | in every interleaving, the accepted values are those pushed before the iterator was finished, in order |
| PushHistories.FinishedIff | src/util/AsyncPushIterator.ts:105-110 | finished if and only if `finish` was called, or `return` before the end; set up if and only if `next` was called |
| PushHistories.CauseIff | src/util/AsyncPushIterator.ts:29-80 | what ended the iterator is whatever came first: `return`, `throw` of that error, or a call that found it finished and empty |
| PushHistories.ErrorIs | src/util/AsyncPushIterator.ts:63-80 | the error is that of the `throw` that ended it, or of the teardown function that failed; falsy ones do not count |
| PushHistories.CallSees | src/util/AsyncPushIterator.ts:35-48 | a call that runs fails with the error, is done, takes the first value, ends the iterator, or waits, in this order |
| PushHistories.NoCallIsLost | src/util/AsyncPushIterator.ts:29-49 | every call of `next` is waiting, woken, in setup, or settled |
| ServerSocketClass.GraphQLServerWebSocket.HandleConnectionInitMessage | src/ws/GraphQLServerWebSocket.ts:171-186 | a second init closes with 4429; else `acknowledge` is called; keeps the invariant behind `MessageGrammar` and `AcknowledgementSafety` |
| ServerSocketClass.GraphQLServerWebSocket.AcknowledgeResolved | src/ws/GraphQLServerWebSocket.ts:186-189 | sends the ack, resolves the payload promise, then opens for subscriptions; keeps the invariant behind `MessageGrammar` and `AcknowledgementSafety` |
| ServerSocketClass.GraphQLServerWebSocket.AcknowledgeRejected | src/ws/GraphQLServerWebSocket.ts:190-198 | rejects the payload promise and closes with 4401; keeps the invariant behind `MessageGrammar` and `AcknowledgementSafety` |
| ServerSocketClass.GraphQLServerWebSocket.HandleInvalidMessage | src/ws/GraphQLServerWebSocket.ts:126-169 | a message of an unknown type or with fields of the wrong types closes with 4400; keeps the invariant behind `MessageGrammar` and `AcknowledgementSafety` |
| ServerSocketClass.GraphQLServerWebSocket.Subscribed | src/ws/GraphQLServerWebSocket.ts:212-248 | starts the loop over a stream, or sends the errors of a result at once; keeps the invariant behind `MessageGrammar` and `AcknowledgementSafety` |
| ServerSocketClass.GraphQLServerWebSocket.StreamYielded | src/ws/GraphQLServerWebSocket.ts:217-219 | the loop sends one `next`, if the socket is open; keeps the invariant behind `MessageGrammar` and `AcknowledgementSafety` |
| ServerSocketClass.GraphQLServerWebSocket.StreamEnded | src/ws/GraphQLServerWebSocket.ts:220-231 | the loop sends `complete` or `error`, and the linger timer starts; keeps the invariant behind `MessageGrammar` and `AcknowledgementSafety` |
| ServerSocketClass.GraphQLServerWebSocket.RequireAck | src/ws/GraphQLServerWebSocket.ts:320-326 | closes with 4401 before the ack on the new protocol, waits for it on the legacy one; keeps the invariant behind `MessageGrammar` and `AcknowledgementSafety` |
| ServerSocketClass.GraphQLServerWebSocket.HandleSubscribeMessage | src/ws/GraphQLServerWebSocket.ts:201-251 | a live id closes with 4409; else one stream is registered under the id; keeps the invariant behind `MessageGrammar` and `AcknowledgementSafety` |
| ServerSocketClass.GraphQLServerWebSocket.HandleCompleteMessage | src/ws/GraphQLServerWebSocket.ts:253-259 | an unknown id closes with 4409; else its stream is returned; keeps the invariant behind `MessageGrammar` and `AcknowledgementSafety` |
| ServerSocketClass.GraphQLServerWebSocket.LingerFired | src/ws/GraphQLServerWebSocket.ts:228-230 | deletes the id after the stream has ended; keeps the invariant behind `MessageGrammar` and `AcknowledgementSafety` |
| ServerSocketClass.GraphQLServerWebSocket.HandleCloseEvent | src/ws/GraphQLServerWebSocket.ts:105-121 | rejects the payload promise and returns every registered stream; keeps the invariant behind `MessageGrammar` and `AcknowledgementSafety` |
| ServerSockets.MessageGrammar | src/ws/GraphQLServerWebSocket.ts:201-251 | in every run, what was sent for an id is the concatenation of its streams' blocks `next* (complete or error)?`, a stream sending only after the terminal message of every earlier one of its id |
| ServerSockets.LiveIdsDistinct | src/ws/GraphQLServerWebSocket.ts:204-209 | two live streams never share an id |
| ServerSockets.LingerDeletesOwnEntry | src/ws/GraphQLServerWebSocket.ts:228-230 | a linger timer deletes the entry of its own stream and no other |
| ServerSockets.AcknowledgementSafety | src/ws/GraphQLServerWebSocket.ts:171-202 | over both sub-protocols: `acknowledge` is called and the ack sent at most once, subscribing happens only after success and with that payload, and data only after the ack |
| ServerHistories.ReturnedIff | src/ws/GraphQLServerWebSocket.ts:105-121 | in every run, a stream was returned if and only if its client's `complete` was handled, or the socket ended, while it was the entry of its id |
| ServerHistories.ConsumedIsYielded | src/ws/GraphQLServerWebSocket.ts:217-219 | what a stream consumed is what it yielded, in order |
| ServerHistories.TerminalIff | src/ws/GraphQLServerWebSocket.ts:220-246 | the terminal message is the one the loop ended with on an open socket, and an error for a result that is no stream |
| ServerHistories.AckSentIff | src/ws/GraphQLServerWebSocket.ts:186-187 | the ack is sent if and only if `acknowledge` succeeded while the socket was open |
| ServerHistories.PromiseIs | src/ws/GraphQLServerWebSocket.ts:186-198 | the payload promise is settled by whatever came first: success with the payload of the first init, failure, or the end of the socket |
| ServerHistories.HandledInOrder | src/ws/GraphQLServerWebSocket.ts:320-326 | subscribe and complete messages are let in before the ack on the legacy protocol only, handled in their order, and none is lost |
| ServerHistories.StreamsAreAccepted | src/ws/GraphQLServerWebSocket.ts:201-251 | there is one stream for each accepted `subscribe`, in order |
| ServerHistories.ClosedWithIff | src/ws/GraphQLServerWebSocket.ts:126-169 | the server closes with 4400, 4401, 4408, 4409, 4429 or the code of a rejected promise if and only if the event that asks for that code comes while the socket is open |
| ClientSocketClass.GraphQLClientWebSocket.Register | src/ws/GraphQLClientWebSocket.ts:69-81 | the next id is taken, registered and subscribed |
| ClientSocketClass.GraphQLClientWebSocket.HandleConnectionAckMessage | src/ws/GraphQLClientWebSocket.ts:155-162 | the first settlement of the ack promise wins |
| ClientSocketClass.GraphQLClientWebSocket.HandleNextMessage | src/ws/GraphQLClientWebSocket.ts:164-166 | pushes into the iterator of the id, or closes with 4409 |
| ClientSocketClass.GraphQLClientWebSocket.HandleErrorMessage | src/ws/GraphQLClientWebSocket.ts:168-176 | throws into the iterator of the id, whose teardown sends `complete`, or closes with 4409 |
| ClientSocketClass.GraphQLClientWebSocket.HandleCompleteMessage | src/ws/GraphQLClientWebSocket.ts:178-180 | finishes the iterator of the id, or closes with 4409 |
| ClientSocketClass.GraphQLClientWebSocket.ThrowIntoAll | src/ws/GraphQLClientWebSocket.ts:102-104 | every registered iterator is thrown into, and no other one |
| ClientSocketClass.GraphQLClientWebSocket.HandleCloseEvent | src/ws/GraphQLClientWebSocket.ts:93-105 | the ack promise is rejected, every registered iterator is thrown into, and no other one changes: the step of the pair |
| ClientSocketClass.GraphQLClientWebSocket.Close | src/ws/GraphQLClientWebSocket.ts:273-279 | closes an open socket, and only that |
| ClientIterators.TeardownOnlyOnce | src/ws/GraphQLClientWebSocket.ts:82-87 | a client sends `complete` at most once for an id, and never if `return()` came before setup was over |
| ClientIterators.DoneMeansDrained | src/ws/GraphQLClientWebSocket.ts:178-180 | a `done` that was not asked for means the server finished and all accepted values were handed out |
| PairRuns.StepFits | src/ws/GraphQLClientWebSocket.ts:69-248 | every step of a client/server pair keeps the invariant that ties, for each id, the two maps, the two channels, the stream and the iterator; a step that is no early linger timer also keeps that no message is left for a forgotten id |
| PairRuns.InOrderDelivery | src/ws/GraphQLClientWebSocket.ts:164-166 | in every run of a pair, early linger timers included, what an iterator accepted is a prefix, in order, of what the server's loop consumed for its id |
| PairRuns.CompleteDelivery | src/ws/GraphQLClientWebSocket.ts:178-180 | in every run, early linger timers included, a consumer that sees `done` without `return()` got the whole sequence the server consumed, which ended with `complete` |
| PairRuns.NeverCloses4409 | src/ws/GraphQLServerWebSocket.ts:204-209 | if linger timers wait for the peer's last message on the id, neither side ever closes with 4409 |
| EarlyLingers.ServerLingerIff | src/ws/GraphQLServerWebSocket.ts:228-230 | when a server linger timer fires in a run whose timers were patient, a patient continuation closes with 4409 if and only if a `complete` for its id is in the channel or waits for its handler, or the client is open and its iterator is not done |
| EarlyLingers.ClientLingerIff | src/ws/GraphQLClientWebSocket.ts:82-87 | when a client linger timer fires in such a run, a patient continuation closes with 4409 if and only if a message for its id is in the channel, or the server is open and its stream of that id is not over, or not there yet |
| PairRuns.InitArrives | src/ws/GraphQLClientWebSocket.ts:49-65 | in every run of a pair, the one `connection_init` that an open client has sent is on its way until the server is initialized with it, and nothing else initializes the server |
| PairRuns.SetupFailsCall | src/ws/GraphQLClientWebSocket.ts:69-71 | a subscription whose acknowledgement fails is not registered, and the call that set it up fails |
| PairRuns.ClosedIsShut | src/ws/GraphQLClientWebSocket.ts:273-279 | in every run of a pair, a client that has closed its socket, or whose socket has ended, is not open |
| PairRuns.AckIsFirst | src/ws/GraphQLClientWebSocket.ts:155-162 | in every run of a pair, the client's acknowledgement is settled by whatever came first, the server's message or the close event |
| PairRuns.CloseEndsAll | src/ws/GraphQLClientWebSocket.ts:93-105 | in every run of a pair, the close event ends every registered iterator, and fails those that had not ended |
| PairRuns.IdsNeverReused | src/ws/GraphQLClientWebSocket.ts:73-74 | in every run, no two server streams of one connection have the same id |
| ReconnectionClass.SubscriptionRuns.Consume | src/ws/GraphQLWebSocketClient.ts:201-226 | the first `next` registers the outer iterator and starts the first run; keeps the invariant behind `Concatenation` and `AtMostOneRun` |
| ReconnectionClass.SubscriptionRuns.ConnectionArrives | src/ws/GraphQLWebSocketClient.ts:207-210 | `innerIt` becomes a fresh iterator and the loop calls its `next`; keeps the invariant behind `Concatenation` and `AtMostOneRun` |
| ReconnectionClass.SubscriptionRuns.ConnectionFailed | src/ws/GraphQLWebSocketClient.ts:215-223 | retry or throw, then return `innerIt`; keeps the invariant behind `Concatenation` and `AtMostOneRun` |
| ReconnectionClass.SubscriptionRuns.Resume | src/ws/GraphQLWebSocketClient.ts:210-223 | push the value and call `next` again, or finish, or retry or throw; keeps the invariant behind `Concatenation` and `AtMostOneRun` |
| ReconnectionClass.SubscriptionRuns.InnerMoves | src/ws/GraphQLWebSocketClient.ts:210-212 | a segment of an inner iterator that its socket starts; keeps the invariant behind `Concatenation` and `AtMostOneRun` |
| ReconnectionClass.SubscriptionRuns.RetryTimerFires | src/ws/GraphQLWebSocketClient.ts:216-218 | the retry timer starts a run; keeps the invariant behind `Concatenation` and `AtMostOneRun` |
| ReconnectionClass.SubscriptionRuns.ClientClosed | src/ws/GraphQLWebSocketClient.ts:235-241 | finishes the outer iterator; keeps the invariant behind `Concatenation` and `AtMostOneRun` |
| ReconnectionClass.SubscriptionRuns.Drives | src/ws/GraphQLWebSocketClient.ts:228-231 | a teardown returns `innerIt` and deletes the subscription |
| InnerIterators.SocketFits | src/ws/GraphQLWebSocketClient.ts:210-212 | a `for await` loop has one call pending, and every value the inner iterator hands out is taken by it |
| ReconnectionRuns.AtMostOneRun | src/ws/GraphQLWebSocketClient.ts:205-226 | in every run, at most one `run` is active or about to be started by a timer |
| ReconnectionRuns.Concatenation | src/ws/GraphQLWebSocketClient.ts:210-212 | until the outer iterator ends, its accepted values are the in-order concatenation of the epochs' inner values; afterwards a prefix |
| ReconnectionRuns.FailsOnlyUnretryable | src/ws/GraphQLWebSocketClient.ts:215-220 | the outer iterator fails only with an error that is not retried, and then no run or timer is left |
| ReconnectionRuns.RetriesOrFails | src/ws/GraphQLWebSocketClient.ts:215-256 | in every run, a failure with one of the codes 1000, 1005, 1006, 1012, 1013, 1014 and -1 starts the retry timer and leaves the consumer alone, and any other one fails the consumer's iterator |
| ReconnectionRuns.RegisteredIff | src/ws/GraphQLWebSocketClient.ts:201-231 | the client knows a subscription from its first `next` until its teardown |
| ReconnectionRuns.FinishesOnlyAtNormalEnd | src/ws/GraphQLWebSocketClient.ts:214 | a run finishes it only after its inner iterator was finished by the producer and read to the end |
| ReconnectionRuns.DoneMeansEverything | src/ws/GraphQLWebSocketClient.ts:200-233 | a consumer that sees `done` without `return()` or `close()` got every value of every epoch |
| ReconnectionRuns.NeverAbandoned | src/ws/GraphQLWebSocketClient.ts:214-223 | whenever a subscription has neither a run nor a retry timer left, its outer iterator is finished or failed |
| ReconnectionEnds.StaysForEver | src/ws/GraphQLWebSocketClient.ts:205-226 | once nothing is ahead, no continuation in the order of the engine subscribes again, nor is an inner iterator that is done ever not done again |
| ReconnectionLeaks.EpochsEndIff | src/ws/GraphQLWebSocketClient.ts:205-226 | in every run in the order of the engine, some continuation in that order subscribes again if and only if it was not set up yet, a run awaits its connection, a retry timer is pending, or the loop is not bound to end without a retry by what is queued |
| ReconnectionLeaks.ReturnStopsIff | src/ws/GraphQLWebSocketClient.ts:228-231 | `return()` stops the subscription for good (no later epoch, every inner iterator done) if and only if a condition on the state before the call holds: set up, no connecting run, no timer, and no error that is retried ahead of the loop |
| ReconnectionLeaks.ReturnLeaks | src/ws/GraphQLWebSocketClient.ts:205-231 | a finding: `return()` during a connection attempt or a pending retry timer is followed by another subscription in some continuation |
| ReconnectionLeaks.CloseStopsIff | src/ws/GraphQLWebSocketClient.ts:228-241 | nothing follows `close()` if and only if nothing was ahead, or `return()` would stop the subscription and a call of the consumer, parked or queued, finds no value left for it |
| ReconnectionLeaks.CloseStopsAwaited | src/ws/GraphQLWebSocketClient.ts:228-241 | for a consumer that awaits its next value, `close()` stops exactly what `return()` would |
| Connections.GraphQLWebSocketClient.constructor | src/ws/GraphQLWebSocketClient.ts:126-129 | the settings, with a minimum delay of at least 10; the invariant behind `SingleConnection` and `DelayBounds` holds after it |
| Connections.GraphQLWebSocketClient.AwaitReconnectDelay | src/ws/GraphQLWebSocketClient.ts:280-294 | no delay when connected or after no failure; else one shared timer; the invariant behind `SingleConnection` and `DelayBounds` holds after it |
| Connections.GraphQLWebSocketClient.DelayElapsed | src/ws/GraphQLWebSocketClient.ts:290-293 | the delay promise is forgotten; the invariant behind `SingleConnection` and `DelayBounds` holds after it |
| Connections.GraphQLWebSocketClient.Connect | src/ws/GraphQLWebSocketClient.ts:261-269 | a socket is created only if the current one is neither open nor connecting; the invariant behind `SingleConnection` and `DelayBounds` holds after it |
| Connections.GraphQLWebSocketClient.AckArrived | src/ws/GraphQLWebSocketClient.ts:268-277 | success resets the delay, failure increases it; the invariant behind `SingleConnection` and `DelayBounds` holds after it |
| Connections.GraphQLWebSocketClient.SocketAdvances | src/ws/GraphQLWebSocketClient.ts:258-266 | a socket opens, closes or is closed by its peer; the invariant behind `SingleConnection` and `DelayBounds` holds after it |
| Connections.GraphQLWebSocketClient.ResetReconnectDelay | src/ws/GraphQLWebSocketClient.ts:296-298 | back to the minimum |
| Connections.GraphQLWebSocketClient.IncreaseReconnectDelay | src/ws/GraphQLWebSocketClient.ts:300-309 | multiplied up to the maximum, plus jitter, rounded down |
| Connections.GraphQLWebSocketClient.Close | src/ws/GraphQLWebSocketClient.ts:240 | closes the current socket if it is live; the invariant behind `SingleConnection` and `DelayBounds` holds after it |
| Connections.SingleConnection | src/ws/GraphQLWebSocketClient.ts:258-266 | over all interleavings of `requireConnection` calls, at most one socket ever created is open or connecting, and it is the current one |
| Connections.DelayBounds | src/ws/GraphQLWebSocketClient.ts:296-309 | in every run with failures since the last success, min(multiplier^k * min, max) <= delay < max + min |
| Connections.AwaitsLive | src/ws/GraphQLWebSocketClient.ts:261-268 | in every run, a call that goes on awaits the ack of a live socket, and a new one is created if and only if none is live |
| Connections.ReturnsIff | src/ws/GraphQLWebSocketClient.ts:268-277 | it returns the current socket if and only if the one it awaited was acknowledged |
| Connections.CloseLeavesNone | src/ws/GraphQLWebSocketClient.ts:235-241 | after `close()`, no socket ever created is open or connecting |
| DelayWaits.WaitsIff | src/ws/GraphQLWebSocketClient.ts:280-294 | a call waits for no delay if and only if a live socket is there or there was no failure; otherwise for the current delay, or for a new one as long as the failures so far demand |
| DelayWaits.DelayIsWaitedFor | src/ws/GraphQLWebSocketClient.ts:258-294 | over every run: between a call that has to wait and the moment it goes on, the timer that it waits for fires |
| DelayWaits.SharedDelay | src/ws/GraphQLWebSocketClient.ts:284-293 | all calls that wait at one time share one delay |
| ReconnectDelays.JitterReaches | src/ws/GraphQLWebSocketClient.ts:307 | each amount below the minimum is added by exactly one draw |
| ReconnectDelays.BackOffBound | src/ws/GraphQLWebSocketClient.ts:296-309 | the same for every sequence of random draws, with an integer multiplier of at least 1 |
| ReconnectDelays.Saturates | src/ws/GraphQLWebSocketClient.ts:296-309 | with a multiplier of at least 2, logarithmically many failures reach the maximum |
| ReconnectDelays.IncreasedBelow | src/ws/GraphQLWebSocketClient.ts:300-309 | the upper bound holds for every multiplier |
| ReconnectDelays.RisesIffGrown | src/ws/GraphQLWebSocketClient.ts:300-309 | over all settings with a maximum above the minimum: whatever the draws, the delay rises strictly until the maximum if and only if (multiplier - 1) * min >= 1 |
| ReconnectDelays.FractionalMultiplierStalls | src/ws/GraphQLWebSocketClient.ts:300-309 | a finding: for every other multiplier of at least 1, draws of zero keep the delay at the minimum for ever |

## Left out

- String layout of the emitted code, comments, imports, headers, input types and variables types: types are modelled as trees, and a union of no possible types as an empty union.
- Two properties of one key in an object literal (`{ a { x } a { y } }` in one selection set emits them): here both hold of the value, and TypeScript rejects the literal.
- Which of several errors the generator throws first: the model reports one of them.
- graphql-js itself: `parse` and `validate` are arbitrary pure functions, and `visit` is a walk that a `false` from `enter` prunes.
- Scalar mappings of the user: that a mapped type holds what the server serialises is a premise of soundness (`Compiled`).
- The resolver error wrapper, and what a successful replacement of an enum's values or a scalar's functions leaves behind: when it throws is modelled. A scalar instance given for a type of another kind counts as a throw, and an enum type instance as a resolver is not modelled.
- Schema objects: the function-valued properties that resolvers are written to are one map, so two names for one object are not modelled; after a throw, only the properties of unnamed types are described.
- A negative or fractional `maxSize` of the cache.
- `parseOperationName` and `parseVariables`: single-branch checks of one value each.
- A message to the server that is not JSON: it closes the socket like an invalid one, with 1011 for 4400.
- JSON, message payloads and sub-protocol names: messages are values, ids are numbers, payloads are compared only.
- On the server: a `subscribe` promise that rejects, a result that is neither a stream nor has errors, and an unsupported sub-protocol; on a close, the streams to return are recorded at once, where the source awaits them one after the other.
- On the client: the ack timer only as a close with some code, the error event as a close event, and a consumer that calls `throw()` itself.
- A teardown function of a client iterator that throws or calls back: the one of `subscribe` does neither. `PushIterators` itself allows both.
- PairRuns.NeverCloses4409: assumes patient linger timers; what an early one does is `ServerLingerIff` and `ClientLingerIff`, each for one early timer.
- SoundnessExact.SoundIffCovered: leaves out selection sets with a nested abstract type whose alternatives no lifted `__typename` tells apart, because there the type may be sound although some alternative is not.
- SoundnessLimits.PairSoundIff: leaves out the same sub-selections, for the same reason.
- SoundnessLimits.ConditionalMergeUnsound: leaves out the same sub-selections, for the same reason.
- The exact order of queued continuations among each other: any order is allowed but for the outer setup, which comes first.
- `requireConnection` inside a run of `Reconnections` is an event that succeeds or fails at any time; `Connections` models the sockets and the delays behind it. A connection error is taken to be truthy.
- `subscribeAsync`, the unused `autoReconnect` flag, and real time.
- ReconnectDelays.BackOffBound: is for integer delays and an integer multiplier; its lower bound is false for some fractional ones, its upper bound is proved for all.
- File system, command line, HTTP clients and servers, and the server-side code generator: no hard logic of their own.
