# Spike broker: a model of its protocols

Spike broker lets services talk through NATS subjects, HTTP and WebSockets. This project models
the parts of it whose correctness is not visible in one function body, and proves what they
guarantee, for all inputs and all runs. `dafny verify dfyconfig.toml` checks everything.

## The parts

**Endpoint patterns** (`GoStrings`, `Segments`, `Blocks`, `Endpoints`, `Instantiation`,
`ParamAssignment`, `ArgumentOrder`, `EndpointMatching`, `RoundTrip`, `PatternObjects`, `Routing`,
`MapOrder`, `V1Pattern`). A pattern is a service, a dotted path with `$name` segments, a method and
a parameter map. The Go code builds, prints, matches and subscribes to patterns with whole-string
`Split`, `Replace(…, 1)` and `ReplaceAll` loops. `GoStrings` defines those three functions on
characters; every other module proves that a loop on the whole text is a clean operation on
segments, and says under exactly which condition. `PatternObjects` holds the mutable `method` and
`pattern` objects with the loops themselves. `Basics` holds what several modules share.

**Search clause** (`SearchClause`). The replace-until-no-`?` loop of `CallRequest.Search`, on the
caller's own array of columns.

**Lease lock and migrations** (`LeaseLock`, `Migrations`, `MigrationCluster`). The lock row, the
clients around it as a state machine with a shared clock, the migration loop, and any number of
replicas interleaving lock, migrate and unlock, each free to stop anywhere. Transactions on one
lock name are taken one at a time: the row may not exist yet, so this is an assumption on the
database. Ownership is by key, and all services of a process have the same key (main.go:78-79).

**Request and reply** (`TimeoutText`, `RawData`, `RequestReply`, `ConnectionRing`). The decimal
text of a timeout extension, the base64 of section 4 of RFC 4648 inside `RawData`, the waiting loop
over timed arrivals, the whole request, and the `container/ring` of NATS connections as linked
heap nodes.

**Access** (`AccessPipeline`, `ValidationHandshake`). The gate and validator chain of
`handleRequest` with its mutable access error, the test double that has to agree with it, and the
two-service handshake before an event is published or monitored. A validator is the list of
decisions it takes on the request at hand, possibly ending in a panic.

**WebSocket session** (`WsSession`, `WsAnswers`). The message loop and the handlers, with every outside call in
a log. What the authenticator, authorizer, broker and socket answer, and whether one of them
panics, is arbitrary at every message; the theorems are about the log of every run.

## What the proofs found

Each entry names the lemma that shows the failure or, where there is one, the lemma that says for
all inputs exactly when the promise holds.

- `EndpointNameSpecific` prints the segment-wise substitution, for any endpoint and any values
  without dots, if and only if no set placeholder occurs in what an earlier segment is to become
  (`Instantiation.InstantiateIff`). It can occur in an earlier unset placeholder
  (`Endpoints.ShadowedPlaceholder`) and in an earlier value: with the path `$a.$b`, `a` = `$b` and
  `b` = `secret` the loop prints `secret.$b` (`Instantiation.ValueSpellsPlaceholder`). With dots in
  the values the condition is still enough (`Instantiation.InstantiateSafe`) and, if no value holds
  a `$`, still needed (`Endpoints.InstantiateExact`); a value with both can print the right text by
  coincidence (`Instantiation.DottedCoincidence`).
- Hence a client's endpoint is matched and printed again unchanged if and only if its placeholders
  are given something to print and none of them occurs in an earlier given segment
  (`EndpointMatching.MatchThenPrint`), and parameters that are printed are read back as they were
  under the same condition (`RoundTrip.PrintThenMatchIff`).
- `newMethod` hands out its arguments by position as long as those that meet a placeholder hold no
  `$` (`ParamAssignment.ArgumentsArePositional`). One that brings a name the endpoint does not have
  always spoils it (`ParamAssignment.ForeignSpoils`, `ParamAssignment.PositionalIff`). Arguments
  whose `$` parts are placeholders of the same endpoint (`ParamAssignment.OwnOrForeign`) can go
  either way (`ParamAssignment.LaterPlaceholderIsPositional`, `ParamAssignment.OwnPlaceholderIsNot`);
  for every call the result is that of a stack of names (`ParamAssignment.BuildIsStack`). If the
  arguments are neither empty nor alike, it is by position if and only if none of them brings a
  foreign name and each finds the placeholder of its own place on top of that stack
  (`ArgumentOrder.PositionalIffInTurn`).
- `NewPatternFromV1` hands out a map's values in Go's random order. For values without `$`, a call
  with a value for every placeholder keeps its parameters in every order if and only if all the
  values are equal (`V1Pattern.V1KeepsParamsIff`).
- The version-1 provider, `EndpointHTTP` and `httpSetup` substitute in Go's random map order. For
  values without the separator, `$` included, all orders give one text if and only if all names a
  segment starts with make the same of it and no other name occurs in what they make
  (`MapOrder.OrdersRaceIff`), and it is the meant text if and only if that is moreover the segment's
  own value (`MapOrder.OrderIndependentIff`). This is for segments that start with one name at most,
  or whose names feed no other; two names that feed each other can undo each other's work
  (`MapOrder.FeedersCanAgree`). For values without `$` the names alone decide, for any names
  (`MapOrder.PlainOrdersRaceIff`). With the path `$a.$b`, `a` = `$b` and `b` = `secret` one order
  prints `secret.secret` and the other `$b.secret` (`MapOrder.ValueRaces`). For values with the
  separator the "if" of both is shown (`MapOrder.CalmOrdersAgree`, `MapOrder.OrderIndependent`).
- A subscription with dot-free values printed in their place goes by these values, whatever is
  published, if and only if none of them is `*` or holds a `$` before its last character
  (`Routing.RoutingByValueIff`; `Routing.ReachesByTokens` for any dot-free values). A `*` or a
  leading `$` widens it: a client that monitors `service.$x.EVENT` where the path is `$a` receives
  every event (`Routing.WidenedReceivesAll`, `Routing.WidenedMonitor`). Any other such `$` loses the
  event asked for (`Routing.OwnEventIff`, `Routing.LostMonitor`).
- `Search` indexes past its parameters if and only if there is a column and a word or column
  contains `?` (`SearchClause.SearchExact`).
- A second client gets the lock if and only if the first one's lease is over
  (`LeaseLock.EntryIffLeaseOver`). The late holder then frees the other's lock without notice if
  the keys are equal and panics if they are not (`LeaseLock.LateUnlock`).
- `TryLock` ignores a failed read: unless the database then refuses the write, the lock is taken
  from its holder (`LeaseLock.BlindTryLockTakes`).
- A migration run records everything if and only if nothing at or below the highest recorded
  version was missing; a list that is not ascending can leave versions out for ever
  (`Migrations.CompleteIff`).
- `Migrate` ignores a failed read of the recorded version: with something recorded it then applies
  and records the whole list again (`Migrations.BlindRunRepeats`, `MigrationCluster.BlindReadRepeats`).
- A validation answer that comes too late refuses the event, and so does every other broken answer
  but one: an empty message in time, which is what the broker gets when nobody listens, lets it
  through (`ValidationHandshake.BrokenAnswerIff`, `ValidationHandshake.LateAnswerRefuses`).
- A handler's error comes back as it is if and only if its code is outside 101..299, its data does
  not look already marked, and it is one of the broker's own error types or cannot be told from one
  (`RequestReply.ErrorReturnedIff`). The broker's own `ErrorInformationAlreadyExists` has code 208.
  For the same reason a validator that denies with one of the broker's own errors and such a code,
  or 503, and readable data does not stop a publish or a monitor (`ValidationHandshake.GoesOnIff`,
  `ValidationHandshake.OwnCodeLetsThrough`); with any other implementation of `broker.Error` it does
  (`ValidationHandshake.OtherErrorRefuses`).
- While others call `requestConn` during a `SubscribeRaw` (the two use different mutexes), every
  connection gets its subscription if and only if no two of the subscriber's calls are numbered
  alike modulo the number of connections (`ConnectionRing.SubscribedOnceIff`). One foreign call in
  between always spoils it (`ConnectionRing.InterleavedCallSkips`), one in every gap may not
  (`ConnectionRing.OneInEveryGapIsHarmless`).
- The test double agrees with production if and only if no panic is involved and no validator
  denies and then grants before production stops (`AccessPipeline.TestAgreesIff`); on INTERNAL
  resources the token must pass besides (`AccessPipeline.InternalAgreesIff`).
- The broker accepts a WebSocket publish if and only if the pattern's version is at most 1
  (`WsSession.SocketPublishIsRefused`).
- The connected event is published exactly as often as a token accepted by a session without one
  is echoed (`WsSession.ConnectedPerOpening`): it is lost for good when the first echo cannot be
  written, and repeated by an authenticator that accepts with an empty token
  (`WsSession.EmptyTokensReconnect`).
- A panic in a handler closes the socket but not the context: a finished session's monitors are
  unsubscribed if and only if it ended on a close frame (`WsSession.MonitorsReleasedIffClosed`).
- A `?query` in a WebSocket endpoint swallows the method appended after it
  (`WsSession.QueryHidesMethod`); without a `?` the method decides (`WsSession.MethodDecides`).

Where comments and code disagree the model follows the code. `Publish` is commented to validate
"when there's a token" but tests only whether a token argument was passed, so a socket without a
token validates too.

## Model

| member | source | states |
|---|---|---|
| Endpoints.InstantiateExact | v2/pkg/rids/pattern.go:181-202 | for tidy endpoints and values without `$`, dots included: the printed text is the segment-wise substitution if and only if no set placeholder is a prefix of an earlier unset one |
| Endpoints.ShadowedPlaceholder | v2/pkg/rids/pattern.go:196 | the family of inputs on which the wrong placeholder is rewritten |
| Blocks.ReplaceOnBlocks | v2/pkg/rids/pattern.go:196 | `Replace(…, 1)` of a text without dots replaces it in the first dot-joined block that contains it, whatever the blocks hold |
| Instantiation.BlockLoopExact | v2/pkg/rids/pattern.go:192-199 | for any parts and any values, dots and `$` included: every block comes out as its value if and only if no set placeholder occurs in what an earlier segment is to become |
| Instantiation.InstantiateIff | v2/pkg/rids/pattern.go:181-202 | for any endpoint and any values without dots: the printed text is the segment-wise substitution if and only if that condition holds |
| Instantiation.InstantiateSafe | v2/pkg/rids/pattern.go:181-202 | under that condition the text is right for any endpoint and any values |
| Instantiation.ValueSpellsPlaceholder | v2/pkg/rids/pattern.go:196 | the input on which a value that spells a later placeholder is filled in with that one's value |
| Instantiation.DottedCoincidence | v2/pkg/rids/pattern.go:196 | a value with a dot and a `$` on which two wrong segments make the right text |
| Instantiation.UnsetStays | v2/pkg/rids/pattern.go:190-201 | with one placeholder unset a `$` stays in the printed text, for any endpoint and any values |
| Instantiation.MissesStay | v2/pkg/rids/pattern.go:192-199 | a segment that should change but has no value to change to is never made right, whatever else is replaced |
| ParamAssignment.ArgumentsArePositional | v2/pkg/rids/method.go:65-99 | the i-th argument goes to the i-th placeholder, the rest get the empty string, nothing else is recorded; arguments that meet no placeholder may hold anything |
| ParamAssignment.PartsAfterRound | v2/pkg/rids/method.go:69-76 | for any text and any argument, one round puts the argument's own segments where the first placeholder stood |
| ParamAssignment.ForeignSpoils | v2/pkg/rids/method.go:69-87 | one argument that meets a placeholder and brings a name the endpoint does not have spoils the assignment, whatever the others are |
| ParamAssignment.PositionalIff | v2/pkg/rids/method.go:65-99 | unless the arguments' only `$` spell placeholders of the endpoint itself, the assignment is positional if and only if no argument that meets a placeholder holds a `$` |
| ParamAssignment.OwnOrForeign | v2/pkg/rids/method.go:71-74 | a `$`-bearing argument brings a foreign name unless all its `$` parts are placeholders of the endpoint |
| ParamAssignment.BuildIsStack | v2/pkg/rids/method.go:65-99 | for any endpoint and any arguments: each argument goes to the name on top of a stack and leaves its own names in that one's place; names left over get the empty string |
| ParamAssignment.LaterPlaceholderIsPositional | v2/pkg/rids/method.go:69-78 | an argument that spells a later placeholder of the endpoint can end up by position |
| ParamAssignment.OwnPlaceholderIsNot | v2/pkg/rids/method.go:69-78 | an argument that spells its own placeholder never does |
| ArgumentOrder.PositionalIffInTurn | v2/pkg/rids/method.go:65-99 | for arguments that are neither empty nor alike, `$` included: positional if and only if none that meets a placeholder brings a foreign name and each is given to the placeholder of its place |
| ArgumentOrder.InTurnIsPositional | v2/pkg/rids/method.go:65-99 | the "if" for any arguments |
| V1Pattern.NewPatternFromV1 | v2/pkg/rids/pattern.go:48-61 | no pattern without a dot; otherwise the values, in some order of the map, assigned by position to the text after the first dot |
| V1Pattern.V1OrdersAgreeIff | v2/pkg/rids/pattern.go:55-59 | for values without `$`: every order builds the same parameters if and only if there is no placeholder or all values are equal |
| V1Pattern.V1KeepsParamsIff | v2/pkg/rids/pattern.go:55-59 | a call with a value, free of `$`, for each placeholder keeps its parameters in every order if and only if all values are equal |
| ParamAssignment.DollarArgumentIsReassigned | v2/pkg/rids/method.go:69-78 | an instance: a `$name` argument becomes a placeholder and takes the next argument |
| EndpointMatching.LookupIsFirst | v2/pkg/spike/socket/utils.go:12-51 | the lookup returns the first pattern that fits, or nothing when none does |
| EndpointMatching.PrintThenMatch | v2/pkg/spike/socket/utils.go:12-51 | printing a full assignment and matching the text gives back the same parameters, hence the same printed endpoint |
| RoundTrip.PrintThenMatchIff | v2/pkg/spike/socket/utils.go:12-51 | for every full assignment of values a segment can carry, `$` included: the printed endpoint matches its pattern and is read back as the same parameters if and only if no placeholder occurs in what an earlier segment is to become |
| RoundTrip.ReadBack | v2/pkg/spike/socket/utils.go:25-32 | each placeholder is read back as what is printed in its place |
| EndpointMatching.BuildPrintMatch | v2/pkg/rids/method.go:65-99 | building from one usable argument per placeholder, printing and matching gives back the parameters that were built |
| EndpointMatching.LookupRoundTrip | v2/pkg/spike/socket/utils.go:12-51 | the round trip through a whole list of patterns |
| EndpointMatching.MatchThenPrint | v2/pkg/spike/socket/utils.go:14-47 | matching any endpoint and printing the result gives the endpoint back if and only if every placeholder meets a segment that is neither empty nor `*`, and none that is given another segment occurs in an earlier given segment |
| EndpointMatching.QueryIsRead | v2/pkg/spike/socket/utils.go:15-45 | the query is what stands between the first `?` and the next; without one the pattern keeps its own |
| EndpointMatching.PartsOfName | v2/pkg/rids/pattern.go:171-179 | `EndpointName` cut at the dots is service, path and method, also for an empty path |
| PatternObjects.Method.constructor | v2/pkg/rids/method.go:65-99 | the assignment loops compute `BuildParams`; the new method is private and has no verb |
| PatternObjects.Method.Public | v2/pkg/rids/method.go:105-110 | public unless INTERNAL; an INTERNAL method is never public |
| PatternObjects.Method.WithVerb | v2/pkg/rids/method.go:112-135 | sets the verb of the shared method object and returns a pattern on that very object |
| PatternObjects.Method.Internal | v2/pkg/rids/method.go:137-141 | INTERNAL and no longer public |
| PatternObjects.Pattern.EndpointNameSpecific | v2/pkg/rids/pattern.go:181-202 | the loop over the segments computes the printed endpoint |
| PatternObjects.Pattern.Clone | v2/pkg/rids/pattern.go:109-114 | equal value on objects of its own |
| PatternObjects.Pattern.SetParams | v2/pkg/rids/pattern.go:204-208 | new parameters on a new method object; the old one is not written |
| PatternObjects.Pattern.Query | v2/pkg/rids/pattern.go:128-131 | changes the query and nothing else |
| PatternObjects.MatchParts | v2/pkg/spike/socket/utils.go:22-38 | the comparison loop decides `Fits` and collects the parameters |
| PatternObjects.TryPattern | v2/pkg/spike/socket/utils.go:13-48 | a fresh pattern with the matched value, or nothing |
| PatternObjects.PatternFromEndpoint | v2/pkg/spike/socket/utils.go:12-51 | the first matching pattern, on objects of its own, changing none that is registered |
| PatternObjects.HttpPattern | v2/pkg/spike/http-server.go:218-228 | a clone with the query and with exactly the pattern's names that the URL gives a non-empty value, each with that value |
| RoundTrip.HttpPrintedIff | v2/pkg/spike/http-server.go:218-228 | parameters read from a URL with a value for every placeholder are printed in their places if and only if no placeholder occurs in what an earlier segment becomes |
| PatternObjects.ServeAll | v2/pkg/spike/http-server.go:218-228 | no sequence of socket lookups and HTTP requests changes a registered pattern |
| Routing.StarOnSegments | v2/pkg/broker/providers/nats/provider.go:87-88 | on any text the regular expression works on each dot-free segment: from its first `$` with something after it on, it becomes `*` |
| Routing.ReachesByTokens | v2/pkg/broker/providers/nats/provider.go:86-93 | for any pattern and any values without dots: a publish reaches a subscription if and only if every segment the loop printed for it is accepted by the one printed for the subscription |
| Routing.RoutingIff | v2/pkg/broker/providers/nats/provider.go:86-93 | for values printed in their place: if and only if each subscribed value makes the token `*` or leaves a token that is the published value |
| Routing.RoutingByValueIff | v2/pkg/broker/providers/nats/provider.go:86-93 | a subscription receives exactly what agrees with it, whatever is published, if and only if no value it sets is `*` or holds a `$` before its last character |
| Routing.RoutingExact | v2/pkg/broker/providers/nats/provider.go:86-93 | under that condition a publish reaches a subscription of the same pattern if and only if they agree on every parameter the subscription sets |
| Routing.OwnEventIff | v2/pkg/broker/providers/nats/provider.go:86-93 | a subscription receives what is published with its own parameters if and only if each value widens its token or stays as it is |
| Routing.WidenedReceivesAll | v2/pkg/broker/providers/nats/provider.go:87-88 | with every value it sets a `*` or led by a `$`, a subscription receives whatever is published on the pattern |
| Routing.WidenedMonitor | v2/pkg/broker/providers/nats/provider.go:87-88 | an instance: `$x` for `$a` subscribes to every value |
| Routing.LostMonitor | v2/pkg/broker/providers/nats/provider.go:87-88 | an instance: `x$y` for `$a` never receives its own event |
| Routing.RequestRouting | v2/pkg/broker/specific-provider-base.go:75 | the request subject reaches a subscription if and only if every parameter that sets is a `*` or led by a `$` |
| Routing.EmptyIsUnset | v2/pkg/rids/pattern.go:192-199 | empty values print like missing ones |
| Routing.NoArgumentsPrintGeneric | v2/pkg/rids/method.go:65-99 | what `newMethod` makes without arguments prints its generic name |
| Routing.GenericIsUnset | v2/pkg/rids/pattern.go:171-202 | printing without parameters is the generic name `Request` sends to |
| Routing.RoutingAgreesWithLookup | v2/pkg/spike/socket/utils.go:12-51 | the broker delivers a subject to a parameterless subscription exactly when the WebSocket lookup matches it |
| MapOrder.SubstituteParams | pkg/service/providers/nats/nats-provider.go:382-385 | the `ReplaceAll` loop over the parameter map follows some order of its keys |
| MapOrder.InOrderIsFold | pkg/service/providers/nats/nats-provider.go:331-334 | for any segments and any values the loop works on each segment for itself |
| MapOrder.OrderIndependent | pkg/service/providers/nats/nats-provider.go:331-334 | whatever the values hold, every order gives segment-wise substitution when every name a segment starts with makes the segment's own value of it and no other name occurs in that |
| MapOrder.OrderIndependentIff | pkg/service/providers/nats/nats-provider.go:331-334 | for values without the separator, `$` included, and segments that start with one name at most or whose names feed no other: every order gives segment-wise substitution if and only if that condition holds |
| MapOrder.OrdersRaceIff | pkg/service/providers/nats/nats-provider.go:382-385 | for the same values and segments: all orders give one text if and only if all names a segment starts with make the same of it and no other name occurs in that |
| MapOrder.CalmOrdersAgree | pkg/service/providers/nats/nats-provider.go:382-385 | the "if" for any values |
| MapOrder.PlainOrdersRaceIff | pkg/rids/base.go:82-86 | for values without `$` and the separator and any segments: both are decided by what the names a segment starts with make of it |
| MapOrder.ValueRaces | pkg/service/providers/nats/nats-provider.go:382-385 | the input on which a value that spells another placeholder is replaced in one order and not in the other |
| MapOrder.FeedersCanAgree | pkg/service/providers/nats/nats-provider.go:382-385 | two names that feed each other make the same text in both orders though the condition fails |
| MapOrder.NoPrefixIsHarmless | pkg/rids/base.go:82-86 | the condition holds when no name is a proper prefix of a placeholder's |
| MapOrder.HttpRoutePattern | v2/pkg/spike/http-server.go:171-173 | every order turns each `$name` into chi's `{name}` |
| MapOrder.PrefixNamesRace | pkg/rids/base.go:82-86 | an instance: the two orders of two prefix names print `short + rest` and `long` |
| SearchClause.Search | pkg/service/request/request.go:381-414 | columns changed in place; the clause built directly, in words times columns replacements, or a panic exactly when `Panics` says so |
| SearchClause.FillMarks | pkg/service/request/request.go:406-409 | the loop computes `FillLoop`, one replacement per mark |
| SearchClause.FillLoopExact | pkg/service/request/request.go:406-409 | the loop succeeds if and only if marks and parameters are as many and no parameter brings a new mark; then it equals one pass |
| SearchClause.OneWordOneColumn | pkg/service/request/request.go:384-405 | the clause of one word and one column as text |
| SearchClause.MoreWordsAndColumns | pkg/service/request/request.go:384-405 | further columns join with OR, further words with AND |
| SearchClause.SearchExact | pkg/service/request/request.go:391-409 | each word against each column, OR inside, AND outside; panic exactly when there is a column and some word or column holds `?` |
| LeaseLock.LockTable.TryLock | pkg/service/base-service.go:99-147 | succeeds exactly when the row it sees is not held and the write goes through; a failed read sees the zero row; no other row changes |
| LeaseLock.LockTable.Unlock | pkg/service/base-service.go:160-200 | panics exactly on another's, an unlocked or an unread row or a failed write, then changing nothing |
| LeaseLock.Lock | pkg/service/base-service.go:150-157 | returns holding the lock within 601 attempts if nobody else acquires meanwhile, even after a crashed holder |
| LeaseLock.AcquisitionsAreSpaced | pkg/service/base-service.go:123-141 | in every run two acquisitions without a release between them are at least five minutes apart, if the second read the row |
| LeaseLock.ReleasesAlternate | pkg/service/base-service.go:186-198 | between two releases somebody has acquired the lock |
| LeaseLock.ReleaseIsHolders | pkg/service/base-service.go:188-190 | a release frees what the latest acquisition took, by a client of the same key |
| LeaseLock.BlindTryLockTakes | pkg/service/base-service.go:124-136 | without that read the lock is taken from anybody |
| LeaseLock.MutualExclusion | pkg/service/base-service.go:99-200 | if nobody stays for a whole lease, at most one client is inside at any time and no holder's `Unlock` panics, crashes included |
| LeaseLock.EntryIffLeaseOver | pkg/service/base-service.go:128-130 | a second client gets in if and only if the lease of the first is over |
| LeaseLock.LateUnlock | pkg/service/base-service.go:188-194 | after that, equal keys let the first release the second's lock and a third in; different keys panic |
| Migrations.SchemaTable.Migrate | pkg/models/migration/base.go:35-66 | appends exactly the rows of `RunNamed` and ends as it does, reading each number off the type's name; a failed read of the recorded version counts as 0 |
| Migrations.NamedRunIsRun | pkg/models/migration/base.go:40-45 | the run goes by the numbers up to the first name without one and panics there if it gets that far |
| Migrations.NameHasNumber | pkg/models/migration/base.go:40-45 | a name with one number in it stands for that number if it fits 64 bits |
| Migrations.NameWithoutNumber | pkg/models/migration/base.go:40-45 | a name without digits stands for none |
| Migrations.MigrateExtendsPrefix | pkg/models/migration/base.go:35-66 | on an ascending list a run whose read succeeds, or has nothing to miss, extends the recorded prefix, completes exactly when it is the whole list, and applies exactly the missing suffix |
| Migrations.BlindRunRepeats | pkg/models/migration/base.go:37 | after a failed read the whole list is recorded again: the result is a prefix of the list if and only if nothing was recorded before |
| Migrations.OtherServicesKept | pkg/models/migration/base.go:37-52 | other services' rows stay |
| Migrations.CompleteIff | pkg/models/migration/base.go:37-46 | on any list a run without failures records everything if and only if nothing at or below the highest recorded version was missing |
| Migrations.HighestIsTop | pkg/models/migration/base.go:37 | on an ascending prefix the version read is the last recorded one |
| MigrationCluster.ActionKeepsInv | pkg/service/base-service.go:255-263 | every step of every replica, but a failed read with something recorded, keeps exclusion, the prefix property and each replica's progress |
| MigrationCluster.MigrationsAreExact | pkg/service/base-service.go:255-263 | in every interleaving with holders inside their lease and no failed read once something is recorded: recorded versions are a prefix of the list, none twice, finished replicas have all, no `Unlock` panics |
| MigrationCluster.ReleaseFrees | pkg/service/base-service.go:188-199 | a replica that leaves gives the lock back at once: the row is unlocked, it is finished unless it failed, and whoever waits enters with the next attempt that reads and writes |
| MigrationCluster.StopKeepsLock | pkg/service/base-service.go:123-138 | a replica that just stops leaves the row locked, and nobody enters before its lease is over |
| MigrationCluster.LeftAlone | pkg/service/base-service.go:256-262 | a replica left alone with a free lock records what `Migrate` records and gives the lock back, unless a migration panics; if it finishes, which it does when nothing fails, its whole list is recorded |
| MigrationCluster.BlindReadRepeats | pkg/models/migration/base.go:37-54 | after such a read the replica's next steps record the first version again |
| MigrationCluster.LoopIsMigrate | pkg/models/migration/base.go:39-62 | the steps of one replica left alone record what `Migrate` records and end as it does |
| RawData.StandardAlphabet | v2/pkg/broker/rawdata.go:23-27 | the alphabet of RFC 4648 |
| RawData.StandardVectors | v2/pkg/broker/rawdata.go:13-28 | test vectors of RFC 4648 and the marked text on the wire |
| RawData.DecodeOfEncode | v2/pkg/broker/rawdata.go:21-25 | base64 decoding undoes encoding for every byte sequence |
| RawData.RoundTripIff | v2/pkg/broker/rawdata.go:11-48 | unmarshal after marshal is the identity if and only if the bytes are not empty and do not look already marked; empty becomes `null` |
| RawData.MarshalIdempotent | v2/pkg/broker/rawdata.go:11-27 | marshalling twice is marshalling once: forwarding never nests encodings |
| RawData.RawDataValue.Unmarshal | v2/pkg/broker/rawdata.go:30-48 | overwrites the receiver on success and leaves it on a decoding error |
| TimeoutText.ParseOfPrint | v2/pkg/broker/providers/nats/provider.go:335 | parsing a printed 64-bit number gives it back |
| TimeoutText.GetTimeoutInvertsTimeout | v2/pkg/broker/providers/nats/provider.go:322-345 | every duration sent is read back as itself, raised to 100 ms, without error or overflow |
| TimeoutText.NoNumber | v2/pkg/broker/providers/nats/provider.go:334-337 | behind a sign or the first character nothing but digits makes a number |
| TimeoutText.PrintedTexts | v2/pkg/broker/callbase.go:175-179 | the texts themselves |
| TimeoutText.ExtensionIff | v2/pkg/broker/providers/nats/provider.go:322-345 | exactly the messages `timeout:` plus a 64-bit decimal extend the wait; `timeout:` alone is an empty extension, and anything else behind it that is no such number a bad one |
| TimeoutText.JsonIsNoTimeout | v2/pkg/broker/providers/nats/provider.go:323 | no JSON object is taken for an extension |
| RequestReply.CallBase.Timeout | v2/pkg/broker/callbase.go:170-180 | sends one extension of at least 100 ms, or nothing without a reply subject |
| RequestReply.CallBase.OK | v2/pkg/broker/callbase.go:99-147 | sends one success record with the result's bytes, or panics on a value without an encoding |
| RequestReply.CallBase.Error | v2/pkg/broker/callbase.go:157-189 | sends one record of the traced error: the broker's own errors as they are, every other as an internal error with its text |
| RequestReply.RunHandler | v2/pkg/broker/callbase.go:99-189 | a handler's calls produce its script of extensions and one reply, or the extensions alone when its result panics |
| RequestReply.ProcessResponse | v2/pkg/broker/providers/nats/provider.go:277-319 | the waiting loop computes `Process` over the arrivals |
| RequestReply.ResponseIff | v2/pkg/broker/providers/nats/provider.go:277-344 | for any arrivals: after the extensions in time, nothing or a late message is a timeout at the last announced deadline, an empty message is unavailability, `timeout:` and a bad number are faults, anything else is the payload |
| RequestReply.LateReplyTimesOut | v2/pkg/broker/providers/nats/provider.go:310-316 | after any extensions in time, nothing or a late reply ends the request in a timeout |
| RequestReply.UnreadableReply | v2/pkg/broker/specific-provider-base.go:80-87 | an unreadable reply is an internal error that carries it; otherwise its code decides |
| RequestReply.WaitIsBounded | v2/pkg/broker/providers/nats/provider.go:284-318 | whatever arrives, the wait is at most the first timeout plus the extensions received |
| RequestReply.ScriptWaitIsBounded | v2/pkg/broker/providers/nats/provider.go:284-318 | the same bound by the extensions a handler announced |
| RequestReply.RequestReturnsReply | v2/pkg/broker/specific-provider-base.go:68-115 | extensions followed by one reply, each in time, return exactly that reply if and only if its data does not look already marked |
| RequestReply.ErrorReturnedIff | v2/pkg/broker/specific-provider-base.go:80-87 | an error comes back with its code, message and data if and only if its code is outside 101..299, its data does not look marked, and it is one of the broker's own types (or an empty internal error of another) |
| RequestReply.AnyErrorReturned | v2/pkg/broker/traceable.go:37-64 | any other error comes back as an internal error with its text |
| RequestReply.OkResultReturned | v2/pkg/broker/callbase.go:99-147 | what a handler passes to `OK` comes back as it is, or as its JSON; nothing passed comes back as `null` |
| RequestReply.OkReturnedIff | v2/pkg/broker/specific-provider-base.go:89-96 | a result comes back unchanged if and only if it is not empty and does not look marked |
| ConnectionRing.Ring.Next | v2/pkg/broker/providers/nats/provider.go:241 | the successor in the cycle, initialising a fresh node |
| ConnectionRing.Ring.Link | v2/pkg/broker/providers/nats/provider.go:68 | inserts a fresh node after this one and returns the old successor |
| ConnectionRing.Pool.LinkAndAdvance | v2/pkg/broker/providers/nats/provider.go:68 | link and advance keep one doubly linked cycle and give the order of `Insert` |
| ConnectionRing.Pool.Add | v2/pkg/broker/providers/nats/provider.go:60-71 | one round of the build loop |
| ConnectionRing.NewPool | v2/pkg/broker/providers/nats/provider.go:59-72 | for any positive number of connections one cycle in the order of `BuildOrder` |
| ConnectionRing.BuildOrderIsPermutation | v2/pkg/broker/providers/nats/provider.go:59-72 | the ring holds every created connection exactly once |
| ConnectionRing.Pool.RequestConn | v2/pkg/broker/providers/nats/provider.go:238-244 | the next connection; the ring only turns |
| ConnectionRing.RequestMany | v2/pkg/broker/providers/nats/provider.go:238-244 | k calls return the k connections after the cursor, round and round |
| ConnectionRing.FullRound | v2/pkg/broker/providers/nats/provider.go:238-244 | as many calls as connections return each exactly once |
| ConnectionRing.UsageIsFair | v2/pkg/broker/providers/nats/provider.go:238-244 | after any number of calls usage counts differ by at most one |
| ConnectionRing.SubscribeOnAll | v2/pkg/broker/providers/nats/provider.go:91-99 | without interleaved calls one subscription per connection |
| ConnectionRing.SubscribeAmong | v2/pkg/broker/providers/nats/provider.go:91-99 | with any number of foreign calls before each own one, the i-th subscription is on the connection numbered by all calls before it |
| ConnectionRing.SubscribedOnceIff | v2/pkg/broker/providers/nats/provider.go:91-99 | every connection gets exactly one subscription if and only if no two own calls are numbered alike modulo the number of connections |
| ConnectionRing.InterleavedCallSkips | v2/pkg/broker/providers/nats/provider.go:91-99 | one interleaved call always leaves a connection without subscription and another with two |
| ConnectionRing.OneInEveryGapIsHarmless | v2/pkg/broker/providers/nats/provider.go:91-99 | one foreign call in every gap of three connections still reaches all three |
| AccessPipeline.Access.AccessDenied | v2/pkg/broker/access.go:54-65 | the error left by each form of denial |
| AccessPipeline.Access.AccessGranted | v2/pkg/broker/providers/testProvider/access.go:30-34 | production forgets the error, the test double keeps it |
| AccessPipeline.Access.Run | v2/pkg/broker/access.go:54-69 | a validator's decisions in order, then its panic |
| AccessPipeline.RunChain | v2/pkg/spike/request-handler.go:49-57 | validators run up to the first error or panic, whose error stays in the access object |
| AccessPipeline.ChainStopsAtFirst | v2/pkg/spike/request-handler.go:49-57 | the chain passes if and only if every validator leaves no error, and stops exactly at the first that does |
| AccessPipeline.HandleRequest | v2/pkg/spike/request-handler.go:11-60 | one error replied per refusal or panic, of authenticator, authorizer, validator or handler; the handler called only on acceptance; the token carried on |
| AccessPipeline.HandledIff | v2/pkg/spike/request-handler.go:30-59 | called if and only if INTERNAL, public or authenticated and permitted, and every validator leaves no error |
| AccessPipeline.GateRefusedIff | v2/pkg/spike/request-handler.go:30-47 | the gate refuses exactly with 401 for a rejected token, 403 for a missing permission, 500 for a panic |
| AccessPipeline.HandlerSeesToken | v2/pkg/spike/request-handler.go:31-39 | the handler of an accepted call sees the token the authenticator returned and the authorizer permitted |
| AccessPipeline.ValidatorRefusedIff | v2/pkg/spike/request-handler.go:49-57 | the first validator that leaves an error refuses with it: its panic's, or its last denial's |
| AccessPipeline.ReportedAt | v2/pkg/spike/test-request-handler.go:26-70 | the gate's refusals are reported at -1 and -2, a validator's at its own index |
| AccessPipeline.HandleAccessForTest | v2/pkg/spike/test-request-handler.go:11-71 | the report of the test double; a missing handler or panic shows in the access error alone |
| AccessPipeline.ChainsAgreeIff | v2/pkg/broker/providers/testProvider/access.go:14-34 | the two chains agree if and only if no earlier validator denies and takes it back |
| AccessPipeline.TestAgreesIff | v2/pkg/spike/test-request-handler.go:26-70 | for declared non-INTERNAL resources both accept, or report the same error at the same index, if and only if the gate refuses, or is open and no validator panics where production stops or takes a denial back before |
| AccessPipeline.OneDecisionAgrees | v2/pkg/spike/test-request-handler.go:26-70 | with one decision per validator both accept the same calls, and agree unless something panics |
| AccessPipeline.InternalAgreesIff | v2/pkg/spike/test-request-handler.go:42-58 | on INTERNAL resources they agree if and only if besides the token passes the gate that production does not apply |
| ValidationHandshake.ValidateEvent | v2/pkg/spike/api-service-impl.go:173-241 | an unreadable pattern and a service without events are denied; otherwise the first event of the pattern's name decides; the decision is what the access object holds |
| ValidationHandshake.FirstDeclarationDecides | v2/pkg/spike/api-service-impl.go:221-240 | no declaration is a denial; otherwise the first declaration's validators decide, later ones never |
| ValidationHandshake.GrantedIff | v2/pkg/spike/api-service-impl.go:208-241 | granted if and only if declared and no validator of the first declaration leaves an error |
| ValidationHandshake.PublishGrantedIff | v2/pkg/spike/api-service-impl.go:221-240 | a publish is granted if and only if its event is declared and no publish validator of the first declaration leaves an error |
| ValidationHandshake.MonitorGrantedIff | v2/pkg/spike/api-service-impl.go:186-205 | a monitor likewise by the monitor validators |
| ValidationHandshake.DeniedIff | v2/pkg/spike/api-service-impl.go:227-236 | a declared event is denied with exactly the error of the first validator that leaves one |
| ValidationHandshake.ReceivedIsSent | v2/pkg/broker/specific-provider-base.go:134-142 | the pattern survives JSON inside `RawData` |
| ValidationHandshake.ValidationSubjectAgrees | v2/pkg/rids/pattern.go:63-89 | the validation request goes to the subject the service subscribed to, however many dots its name holds |
| ValidationHandshake.SpecificProvider.Publish | v2/pkg/broker/specific-provider-base.go:117-152 | publishes exactly when there is no refusal, and then returns what `PublishRaw` does |
| ValidationHandshake.SpecificProvider.Monitor | v2/pkg/broker/specific-provider-base.go:35-62 | subscribes exactly when there is no refusal, and then returns what `SubscribeRaw` does |
| ValidationHandshake.GoesOnIff | v2/pkg/broker/specific-provider-base.go:124-151 | over the whole wire (encoded pattern, validators, tracing, extensions, reply): goes on if and only if granted, or denied with readable data and an error sent with a code in 101..299 or 503 |
| ValidationHandshake.OwnCodeLetsThrough | v2/pkg/broker/traceable.go:37-64 | one of the broker's own errors lets the event through if and only if its code is in 101..299 or 503 and its data is not marked without a readable base64 string |
| ValidationHandshake.OtherErrorRefuses | v2/pkg/broker/traceable.go:37-64 | any other implementation of `broker.Error` refuses, whatever its code |
| ValidationHandshake.ReachedIffDeclaredAndValid | v2/pkg/broker/specific-provider-base.go:117-152 | for validator errors sent with other codes: reached if and only if declared and valid |
| ValidationHandshake.PublishReachedIff | v2/pkg/broker/specific-provider-base.go:117-152 | over the whole wire a publish is reached exactly as the publish validators decide |
| ValidationHandshake.MonitorReachedIff | v2/pkg/broker/specific-provider-base.go:35-62 | a monitor exactly as the monitor validators decide |
| ValidationHandshake.UndeclaredIsRefused | v2/pkg/spike/api-service-impl.go:240 | over the whole wire an undeclared event is refused with that error, whatever the validators of others are |
| ValidationHandshake.NoEventsIsRefused | v2/pkg/spike/api-service-impl.go:215-219 | a service without events refuses every event |
| ValidationHandshake.BrokenAnswerIff | v2/pkg/broker/specific-provider-base.go:143-147 | without a proper answer the broker goes on exactly if the next message is in time and empty |
| ValidationHandshake.LateAnswerRefuses | v2/pkg/broker/specific-provider-base.go:143-147 | a late or missing answer after any extensions refuses with the timeout |
| ValidationHandshake.NotAskedIff | v2/pkg/broker/specific-provider-base.go:124-136 | the service is not asked for version-1 patterns and without a token, which go on, nor for other methods, which are refused |
| ValidationHandshake.Unanswered | v2/pkg/broker/specific-provider-base.go:143-147 | a timeout refuses; an empty answer (nobody listens) lets through |
| WsSession.Connection.GetPatterns | v2/pkg/spike/socket/connection.go:88-107 | the filter loops of `GetHandlers` and `GetEvents` |
| WsSession.Connection.RevalidateToken | v2/pkg/spike/socket/messagerequest.go:14-20 | a session with a token renews it first or answers Unauthorized |
| WsSession.Connection.HandleToken | v2/pkg/spike/socket/messagetoken.go:12-33 | the token step of the session |
| WsSession.Connection.HandleAddressed | v2/pkg/spike/socket/messagerequest.go:13-46 | the request, publish and monitor steps: renew, look up, ask permission, call |
| WsSession.Connection.CallBroker | v2/pkg/spike/socket/messagemonitor.go:51-74 | one broker call, its response frame, and a waiting goroutine per successful monitor |
| WsSession.Connection.HandleMessage | v2/pkg/spike/socket/message.go:49-67 | dispatch; other message types do nothing |
| WsSession.Connection.HandleFrame | v2/pkg/spike/socket/ws.go:76-105 | one frame, and the error frame left to be written |
| WsSession.Connection.WsHandler | v2/pkg/spike/socket/ws.go:46-107 | the loop follows the state machine over every sequence of frames, ending only on a close frame or a panic |
| WsSession.Connection.RunWaiter | v2/pkg/spike/socket/messagemonitor.go:63-66 | a woken goroutine unsubscribes its monitor |
| WsSession.StepKeeps | v2/pkg/spike/socket/ws.go:67-106 | every step of loop, handlers and goroutines keeps the invariants behind the theorems below |
| WsSession.RunKeeps | v2/pkg/spike/socket/ws.go:67-106 | they hold in every reachable state |
| WsSession.TokenIsLatestAccepted | v2/pkg/spike/socket/messagetoken.go:17-23 | the session token is the latest accepted one; it is set if and only if one was accepted |
| WsSession.TokenStaysSet | v2/pkg/spike/socket/messagetoken.go:17-23 | once set it is never empty again |
| WsSession.ConnectedPerOpening | v2/pkg/spike/socket/messagetoken.go:22-32 | the connected event is published exactly as often as a token accepted by a session without one is echoed, and carries that token |
| WsSession.ConnectedAtMostOnce | v2/pkg/spike/socket/messagetoken.go:22-32 | with non-empty tokens that is at most once, exactly when the first accepted token's echo was written |
| WsSession.AnsweredOnce | v2/pkg/spike/socket/ws.go:91-105 | every message is answered by exactly one frame with its own id, response or error; only accepted publishes and unhandled types get none |
| WsAnswers.CallsCarryTheirMessage | v2/pkg/spike/socket/messagerequest.go:22-36 | in every run each request, publish and monitor comes from a message of that kind, goes to the pattern it addresses, and carries the data the permission was asked for, which is the message's own |
| WsAnswers.ResponseAnswer | v2/pkg/spike/socket/messagerequest.go:40-46 | a request is answered with the broker's response and a monitor with none, after one call; if it cannot be written an error follows |
| WsAnswers.BrokerErrorAnswer | v2/pkg/spike/socket/messagerequest.go:36-38 | the broker's error comes back as it is; a publish's as an internal error with its text |
| WsAnswers.PublishAnswer | v2/pkg/spike/socket/messagepublish.go:33-37 | an accepted publish is called and not answered |
| WsAnswers.ForbiddenAnswer | v2/pkg/spike/socket/messagerequest.go:26-32 | without permission 403, and no call |
| WsAnswers.UnknownAnswer | v2/pkg/spike/socket/messagerequest.go:22-25 | without a pattern 503, and nothing is asked |
| WsAnswers.UnauthorizedAnswer | v2/pkg/spike/socket/messagerequest.go:14-20 | with a token no longer accepted 401, and nothing is looked up |
| WsAnswers.TokenAnswer | v2/pkg/spike/socket/messagetoken.go:12-33 | a token message is validated, echoed with the accepted token, which is kept, and announced if it is the first |
| WsAnswers.OtherAnswers | v2/pkg/spike/socket/messagekeepalive.go:11-17 | a keep-alive comes back as it is, an unhandled message causes nothing, an unreadable one an error frame |
| WsAnswers.IdFollows | v2/pkg/spike/socket/messagetoken.go:22-24 | only an accepted token message changes the session's id, to its own |
| WsAnswers.ClosedSession | v2/pkg/spike/socket/ws.go:78-84 | a close frame cancels the context and then publishes the session's own id and token |
| WsAnswers.PanicEndsLoop | v2/pkg/spike/socket/ws.go:46-58 | a message ends the loop exactly when a call it gets to panics |
| WsSession.EmptyTokensReconnect | v2/pkg/spike/socket/messagetoken.go:22-32 | with empty tokens it is published again |
| WsSession.CallsArePermitted | v2/pkg/spike/socket/messagepublish.go:11-37 | every broker call follows at once a granted permission on its pattern and token, and that token was accepted just before |
| WsSession.MonitorsReleasedIffClosed | v2/pkg/spike/socket/ws.go:78-84 | in a finished session each monitor was unsubscribed exactly once if and only if a close frame ended it, never after a panic |
| WsSession.UnsubscribesAreJustified | v2/pkg/spike/socket/messagemonitor.go:63-66 | never twice, never before the close, never without a monitor |
| WsSession.WaitersCanFinish | v2/pkg/spike/socket/messagemonitor.go:63-66 | a closed session can always release all its monitors |
| WsSession.SocketPublishIsRefused | v2/pkg/spike/socket/messagepublish.go:20-35 | the broker lets a socket's publish through if and only if its pattern's version is at most 1 |
| WsSession.SocketMonitorIsAsked | v2/pkg/spike/socket/messagemonitor.go:23-61 | a monitor is never refused for its method, only by the validating service |
| WsSession.QueryHidesMethod | v2/pkg/spike/socket/message.go:37-39 | with a `?` in the endpoint the method plays no part in the lookup |
| WsSession.MethodDecides | v2/pkg/spike/socket/message.go:37-39 | without a `?` what matches has exactly the message's method |

## Left out

- NATS, sockets, HTTP serving, chi and GORM: only subject matching with `*`, timed arrivals, the documented `container/ring`, and one atomic step per database transaction are modelled. Subjects with `>` and queue-group balancing are not.
- General JSON: encoders and decoders of reply and pattern records are parameters that must read back what they wrote and begin with `{` on the record at hand; escapes inside JSON strings are not decoded.
- RawData.RawDataValue.Unmarshal: does not model reuse of the receiver's backing array by `append`, so aliasing between two slices on one array is not captured.
- RawData.MarshalIdempotent: bytes that look marked but are not valid JSON make `encoding/json` report an error afterwards (and `OK` panic); that is outside `MarshalJSON` itself.
- RequestReply.OkReturnedIff: covers a `*RawData` target; decoding into other targets is general JSON.
- LeaseLock.MutualExclusion: assumes a database that keeps no transaction in which a read has failed; `LeaseLock.BlindTryLockTakes` shows why.
- LeaseLock.Lock: termination assumes transactions succeed and no other client acquires meanwhile; other clients may release.
- EndpointMatching.PrintThenMatch: is about values without `.`, `$` and `?` that are neither empty nor `*`; `RoundTrip.PrintThenMatchIff` covers those with `$`, and a value with `.` or `?` does not stay within its segment.
- EndpointMatching.MatchThenPrint: like the other lemmas about patterns, asks for `$`-led placeholder segments without a second `$`, as the repository writes them; `Instantiation.InstantiateIff` does not.
- Instantiation.InstantiateIff: is about values without dots; for others only the "if" is shown, and `Instantiation.DottedCoincidence` shows that the condition is not needed there.
- ParamAssignment.PositionalIff: arguments whose `$` parts are all placeholders of the same endpoint are decided by `ArgumentOrder.PositionalIffInTurn`, if they are neither empty nor alike, and otherwise only through `ParamAssignment.BuildIsStack`.
- V1Pattern.V1OrdersAgreeIff: is about values without `$`; for others only that equal values agree is shown (`V1Pattern.EqualValuesBuildSame`).
- MapOrder.OrderIndependentIff: does not decide values that hold the separator, where different segments can join to the same text, nor a segment that starts with two names of which one's value holds another name; `MapOrder.FeedersCanAgree` shows that the condition is not needed there.
- MapOrder.OrdersRaceIff: the same two cases.
- Routing.RoutingIff: is about values without dots that are printed in their place (`Instantiation.InstantiateIff`); `Routing.ReachesByTokens` covers the others without dots. A method named `>`, which NATS would read as a wildcard, is left out.
- ValidationHandshake.ValidateEvent: a validator that panics there takes the service's process down, since that handler has no recovery; the model stops at `Down` and no reply is sent.
- WsSession.Connection.WsHandler: the goroutines of one session interleave with the loop only after the close frame, where they have an effect; frames written by monitor handlers when events arrive are not in the log. The server's shutdown signal only closes the socket: to the loop that is a socket whose reads fail or panic, which the model allows at any time.
- WsSession.CallsArePermitted: is about the order of calls, not about what the authorizer decides.
- Reflection, URL query encoding, `EndpointREST`, labels and HTTP prefixes, `Method.UnmarshalJSON`, logging and tracing, the Postman export, hashing, Redis settings and service bootstrap: no property beyond their own bodies.
- The commented-out Kafka and Spike providers, and pkg/service/request/rawdata.go, which repeats v2/pkg/broker/rawdata.go.
