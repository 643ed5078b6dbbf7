# Verified model of the server core

A Dafny model of four parts of the server and its router, with proofs over all inputs, runs and interleavings.

1. **Router** (`Text`, `Path`, `Matcher`, `Selectors`, `Dispatch`, `Handling`, `Merging`, `Serving`, `Registration`).
   Paths are normalised and matched against selectors with wildcards and named parameters. Registration fuses neighbouring
   handlers of one method and path into a merged handler. Dispatch runs a synchronous loop that hands over to an
   asynchronous one at the first promise. A handler is a function from a context to a `Step`: the new context, whether it
   returned a promise, and the Response it returned or resolved to. Two dispatch loops, and the two loops inside a merged
   handler, are proved equal to one specification loop, `Dispatch.Serve`, over the table; everything else about dispatch
   is proved of that loop.
2. **Rate limiter** (`RateLimit`, `Windows`). A store with lazy cleanup, as a class whose methods refine a step function,
   and runs of that step function over clock readings that never decrease.
3. **Server state** (`PubSub`, `Teardown`, `Publishing`, `Pending`, `Waiting`, `Requests`, `Frame`). The concurrent maps,
   channels and callback slot, as state machines in which every map or channel operation is one atomic step and the steps
   of all threads interleave. Invariants are proved of each step, then of every run. Beside them stand classes with the
   methods as written; an uninterrupted call is shown to be the sequence of its atomic steps. `Frame` is the binary
   response decoder.
4. **Schemas** (`Schema`, `SchemaMeaning`, `Validator`, `Query`, `Documents`, `FloatParser`, `Numbers`, `Compiler`,
   `Builders`, `FrontEnds`). Two front ends compile to one form, two validators interpret it, and both are related to one
   declarative meaning: a constraint is violated at a place below a value. The validators push errors into a mutable
   buffer; builders are run by arbitrary sequences of calls.

Reading order: a module's specification functions come first, its code as methods or a class under `The code`, lemmas
around them. `Selectors`, `Handling`, `Windows`, `Documents` and `Numbers` spell out, in literal terms, what the
definitions that the other results share come to: which handler is called, which request refused, which value is an error.
`dafny verify dfyconfig.toml` checks everything.

## Where the code differs from what its documentation or its shape suggests

The model follows the code; each difference has its exact condition, or a concrete run, as a lemma.

- Not every Response a handler resolves to is sent. Both asynchronous loops drop the Response of a later promise
  (`adapter/router/router/handler.ts:252-253`, `adapter/router/middleware.ts:61-63`). A handler's Response is lost exactly
  when two of three things hold: a promise was awaited before its merged group, one was returned earlier in the group, the
  Response comes from a promise itself. `Serving.ResponsesKept` and `Registration.RegistrationsAnswered` compare dispatch
  with a loop over the registrations that keeps every Response. Two asynchronous handlers of one route are enough for a 404
  in place of a Response: `Registration.SecondPromiseIsDropped`.
- For the same reason a merged handler is not always the same as its members registered one by one.
  `Merging.MergingIsInvisible` gives the condition, both ways; `Registration.DivergenceExists` an instance.
- Handlers that answer through the response builder only, or never return a promise, are safe from both:
  `Registration.BuilderHandlersNeverDrop`, `Registration.BuilderHandlersNeverDiverge`.
- The matcher answers `{}` for a root route and a root request, but `true` once both are below a prefix, and dispatch
  leaves the previous parameters in place on `true`. `Serving.MountedRootServesAlike` says exactly when this shows.
- Mounting concatenates segments without looking at them again, so a prefix that ends in `**` yields selectors that
  registration itself rejects: `Path.MergeLegal`. The matcher then looks no further than the first `**`, but for a test of
  the length: `Matcher.MatchMeaningOfAll`. A selector that starts with `**` is spared that test, until it is mounted under
  another prefix: from then on it no longer answers requests longer than itself. `Matcher.MountTransparent` and
  `Serving.MountedServesAlike` give the exact answer, and when the difference shows.
- The rate limiter's cleanup reads the clock anew. When it reads a later time than its caller did, it can delete the entry
  that the caller still counts on. `RateLimit.CleanupIsInvisible` shows that this race is the only way for cleanup to be
  seen; without it at most `2 * max - 1` requests pass in a closed window-long interval, with it `2 * max`, and
  `RateLimit.RaceReachesTwiceTheMaximum` reaches that.
- A topic can keep a connection that is torn down. `Teardown.MembersByTrace` says, by the order of steps, when a topic holds
  a connection at all: a connection that JS subscribes after its teardown stays, with its subscription. An entry without a
  subscription stays exactly when the last subscribe call for the pair began before the disconnect task took the
  subscriptions, and made its second write after the disconnect task had left the topic (`Teardown.StaleExactly`). Nothing but a new
  call for the pair changes either (`Teardown.EntryStays`); an unsubscribe call removes the entry
  (`Teardown.UnsubscribeClears`). An entry without a subscription is mute: the connection has no sender
  (`Teardown.StaleEntriesAreMute`).
- The index also disagrees the other way: a connection that JS subscribes between the disconnect task's taking the
  subscriptions and leaving that topic keeps the subscription and loses the entry, and nothing else does that
  (`Teardown.LostExactly`).
- The user documentation says that all subscribers receive a publish. The code excludes the publishing connection, and in
  every interleaving misses exactly those of its snapshot that have no sender at their turn, or no room in their queue when
  the message is to be queued (`Publishing.PublishMissesExactly`); the count it returns is of those that accepted
  (`PubSub.PublishReachesSubscribers`).
- Builders and JSON do not describe the same schemas. Builders cannot say that a number must be whole other than by making
  it an integer, nor leave the properties of an object open; they keep the name of an unregistered custom pattern, which
  then matches nothing, where JSON drops the pattern, which then demands nothing. `FrontEnds.FrontEndsAgree` says when calls
  that spell out a definition compile to what JSON makes of it, `FrontEnds.ExpressedExactly` when any calls at all do, and
  `FrontEnds.RoutesAgree` extends the first to whole routes, where an empty section is absent for builders and present for
  JSON. What builders cannot say, they can say otherwise, with the same meaning: `FrontEnds.EveryMeaningIsExpressed`.
- Builders can list any key twice, in a section as in an object. Some value then gets the same error twice, which happens
  with no other schema: `SchemaMeaning.EachOnce`, `SchemaMeaning.SectionEachOnce`. In a query section the key can be a text
  and a number. The query validator then reads one parameter in both ways, and can accept what no document meets
  (`Query.TwiceListedKeyDoesNotCommute`); `Query.QueryCommutes` and `Query.QueryAlwaysCommutes` give the exact conditions,
  for every schema either front end can compile.
- The number parser stops at the first character it does not know and accepts what it has read so far, so `12abc` is the
  number 12: `FloatParser.Parses` speaks of the longest literal prefix.

## Model

| member | source | states |
|---|---|---|
| Text.SplitJoin | adapter/router/path.ts:81-82 | splitting on a separator undoes joining, for every non-empty list of separator-free parts |
| Text.JoinSplit | adapter/router/path.ts:81-82 | joining undoes splitting, for every text |
| Text.JoinInjective | adapter/router/middleware.ts:112-117 | two non-empty lists of slash-free segments are equal exactly when their joined texts are |
| Text.CountSplit | src/schema.rs:680-701 | a text splits into one part more than it has separators |
| Path.SplitPathOf | adapter/router/path.ts:58-110 | the trimming loops before and after the split change nothing: the result is split on slash, trim each part, drop empties; the root for undefined |
| Path.TrimPart | adapter/router/path.ts:83-103 | the inner loops strip exactly the spaces at both ends of a slash-free part |
| Path.SegmentsDropHead | adapter/router/path.ts:63-68 | removing a leading slash or space never changes the normalised path |
| Path.SegmentsDropLast | adapter/router/path.ts:74-79 | nor does removing a trailing one |
| Path.SegmentsNormal | adapter/router/path.ts:81-109 | every segment of a normalised path is non-empty, slash-free and trimmed |
| Path.SegmentsIdempotent | adapter/router/path.ts:58-110 | normalising the slash-joined segments gives the same segments |
| Path.SplitRoutePath | adapter/router/path.ts:112-126 | a selector is rejected exactly when a double wildcard stands before its last segment |
| Path.MergeIsTextual | adapter/router/router.ts:668-682 | merging two normalised paths is normalising the two texts joined by a slash |
| Path.MergeLegal | adapter/router/router.ts:654-666 | a mounted selector is legal exactly when both parts are and the prefix has no double wildcard in front of a segment |
| Matcher.RequestPathMatchesRouteDefinition | adapter/router/path.ts:136-217 | the loop answers, for every selector, legal or not, what the matching function says |
| Matcher.NameIdentifies | adapter/router/path.ts:15-21 | named segments have the same name exactly when they are the same segment |
| Matcher.MatchMeaning | adapter/router/path.ts:136-217 | for every legal selector the answer is the declarative one: false iff some segment does not fit, else the captures, or the record of named parameters when there is one and no final double wildcard |
| Matcher.MatchMeaningOfAll | adapter/router/path.ts:136-217 | for every selector, legal or not: longer requests fail unless it starts or ends with a double wildcard, and otherwise the answer is the declarative one for the selector cut at its first double wildcard |
| Matcher.CapturesRebuildRequest | adapter/router/path.ts:172-216 | without named parameters, a list is the answer exactly when it has one entry per wildcard and filling it into the selector gives the request |
| Matcher.ParamsRebuildRequest | adapter/router/path.ts:173-214 | with literals and distinct names only, a record is the answer exactly when it gives every name a value and filling it in gives the request |
| Matcher.MountTransparent | adapter/router/router.ts:654-682 | under a literal prefix every selector answers every request as before, except that root on root turns from `{}` into `true`, and a selector that starts but does not end with a double wildcard stops answering requests longer than itself |
| Matcher.MountBelow | adapter/router/router.ts:654-682 | under any prefix without double wildcards: the request must fit the prefix segment by segment and the rest the selector, captures concatenate and parameter records merge, a record ousting captures |
| Matcher.MountBehindDoubleWildcard | adapter/router/router.ts:654-682 | under a prefix with a double wildcard the mounted selector counts by its length and its end only |
| Selectors.PartsAreSegments | adapter/router/path.ts:81-109 | whatever stands between two slashes is a segment of its own, without the spaces at its ends, unless it is blank |
| Selectors.TrimExactly | adapter/router/path.ts:83-103 | trimming takes spaces off both ends and nothing else |
| Selectors.Between | adapter/router/path.ts:136-217 | words before and behind one piece of selector and request match each other and add nothing to the answer |
| Selectors.WordsMatchThemselves | adapter/router/path.ts:175-207 | a selector of plain words matches the same words and no others, with nothing captured |
| Selectors.StarTakesOne | adapter/router/path.ts:187-195 | `*` between words takes one segment, whatever it is |
| Selectors.NameTakesOne | adapter/router/path.ts:177-184 | `:name` between words takes one segment under the name behind the colon |
| Selectors.DoubleStarTakesRest | adapter/router/path.ts:196-203 | `**` behind words takes all that is left, even nothing |
| Selectors.NamesOustCaptures | adapter/router/path.ts:212-216 | a `*` before a named segment: the capture is lost, the name stays |
| Selectors.NamedThenDouble | adapter/router/path.ts:196-203 | a named segment before a final `**`: the name is lost, what `**` captured stays |
| Selectors.LastValueCounts | adapter/router/path.ts:177-184 | of two segments of one name the last value counts |
| Selectors.RootOnRoot | adapter/router/path.ts:140-155 | the root selector answers the root with an empty record; the only other selector to answer it is `**`, with `true` |
| Dispatch.Route | adapter/router/router/handler.ts:164-207 | the synchronous loop with its hand-over leaves the context, call trace, promise flag and Response of the specification loop from the start of the table |
| Dispatch.RouteAsync | adapter/router/router/handler.ts:209-266 | after the first promise the asynchronous loop continues the specification loop at the next route, none skipped or repeated |
| Dispatch.BaseMerged | adapter/router/middleware.ts:71-89 | the loop of a merged handler runs its members in order until one answers, and hands over at the first promise |
| Dispatch.MergedAsync | adapter/router/middleware.ts:36-69 | the asynchronous rest of a merged handler continues with the next member and drops later resolved Responses |
| Dispatch.Call | adapter/router/router/handler.ts:189-195 | calling a plain or merged handler, nested to any depth, yields its specified outcome |
| Dispatch.Enter | adapter/router/router/handler.ts:171-187 | a route is entered iff method and path match; parameters are set unless the match is a bare `true` |
| Dispatch.RunAllStaysAsync | adapter/router/middleware.ts:80-82 | once a member has returned a promise, the merged handler returns one |
| Dispatch.ServeStaysAsync | adapter/router/router/handler.ts:193-195 | once a handler has returned a promise, so does the dispatcher |
| Handling.OneMoreRoute | adapter/router/router/handler.ts:170-207 | for every selector, plain handler and further table: a route in front is entered iff it is for all methods or the request's and its selector admits the path; the handler sees the captures or parameters; a Response ends the run, unless a promise resolves to it when one was awaited before; so do a submitted response and an upgrade |
| Handling.NoMoreRoutes | adapter/router/router/handler.ts:202-206 | at the end of the table the answer is a 404 with the body `Not found`, unless the request was upgraded |
| Handling.OneMoreGroup | adapter/router/router/handler.ts:189-200 | a merged handler counts as one handler, with the promise and Response of its group |
| Handling.OneMoreMember | adapter/router/middleware.ts:71-89 | so much for the group itself, member by member |
| Handling.CalledExactly | adapter/router/router/handler.ts:171-187 | a handler alone in its table is called exactly when its selector admits the path and it is registered for all methods or the request's |
| Handling.MethodDoesNotMatter | adapter/router/router/handler.ts:171-176 | two requests that differ in their method get the same outcome from a table registered for all methods |
| Handling.OtherMethodsAreAbsent | adapter/router/router/handler.ts:230-235 | routes for other methods are as good as absent |
| Handling.MethodNames | adapter/router/method.ts:17-42 | every method name is read as its method, any other text as unknown |
| Serving.OnlyCandidatesMatter | adapter/router/router/handler.ts:170-187 | routes that do not accept the request have no influence |
| Serving.ServeAfter | adapter/router/router/handler.ts:170-200 | while no candidate answers, each has run exactly once, in table order, from the context the previous one left |
| Serving.FirstAnswerWins | adapter/router/router/handler.ts:164-266 | if the first n candidates do not answer, they ran once each in order; the next one answers and nothing follows, or there is none and the builder says 404 unless upgraded |
| Serving.ResponsesKept | adapter/router/router/handler.ts:209-266 | dispatch on a merged table answers as a loop over its registrations that keeps every Response returned or resolved to, exactly when the run reaches no handler whose Response is dropped: one for which two of these hold, a promise awaited before its group, one returned earlier in it, the Response resolved by a promise |
| Serving.GroupKeeps | adapter/router/middleware.ts:36-89 | a group that drops nothing gives what its members give when all is kept |
| Serving.GroupLoses | adapter/router/middleware.ts:61-63 | a group that drops a Response differs from that whatever follows |
| Serving.MountAssociative | adapter/router/router.ts:654-682 | nested mounting is mounting once under the concatenated prefix |
| Serving.MountFlattens | adapter/router/router.ts:655-664 | the flat list of a mounted table is the mounted flat list |
| Serving.MountedServesAlike | adapter/router/router.ts:647-666 | below a literal prefix a mounted table, whatever its selectors, gives every request the outcome of the sub-router, for any handlers, when the run enters no route whose selector is outgrown, and, with registrations told apart, only then; root requests on root routes aside |
| Serving.MountedRootServesAlike | adapter/router/router.ts:647-666 | in that remaining case, for handlers that leave the parameters alone, the outcomes are equal exactly when no root route is entered or the parameters already were `{}` |
| Merging.MergingIsInvisible | adapter/router/middleware.ts:25-94 | a merged table serves a request with the calls, context, promise flag and Response of the flat list of registrations when no merged group that the run reaches diverges, and, with registrations told apart by their numbers, only then |
| Merging.GroupAgrees | adapter/router/middleware.ts:36-89 | a group that does not diverge runs as its members registered one by one, followed by the rest of the table |
| Merging.GroupDiffers | adapter/router/middleware.ts:36-89 | a group that diverges differs from its members in every continuation |
| Registration.MergeableIffSamePath | adapter/router/middleware.ts:102-121 | two routes with normalised paths are mergeable exactly when method and path are equal |
| Registration.UnmergeRequestMiddleware | adapter/router/middleware.ts:9-23 | the recursion lists the plain handlers inside nested merged ones, in order |
| Registration.MergeRequestMiddlewares | adapter/router/middleware.ts:25-34 | none is an error, one stays itself, several become one merged handler over their unmerged members |
| Registration.MergeUnmerged | adapter/router/router/registration.ts:54-58 | merging what was unmerged gives the one handler that stands for all the members |
| Registration.RegisteredFlattens | adapter/router/router/registration.ts:38-60 | a registration, merging or not, appends exactly the new handlers in order to the flat list the table stands for, and keeps the table well made |
| Registration.TakesAPlace | adapter/router/router/registration.ts:38-60 | a registration takes a new place at the end of the table, unless merging is on and the last route has its method and path |
| Registration.PlainRegistration | adapter/router/router/registration.ts:15-62 | plain handlers stand in the flat list one by one, in the order given |
| Registration.Router.constructor | adapter/router/router.ts:88-89 | a fresh router has no routes and its merge setting |
| Registration.Router.Use | adapter/router/router/registration.ts:15-62 | the pop, compare, unshift, merge and push leave the registered table, still well made, or the old one where the source throws |
| Registration.Router.Mount | adapter/router/router.ts:654-666 | the mounted table is appended; an illegal prefix throws before anything is pushed, unless there is nothing to mount |
| Registration.TableFlattens | adapter/router/router/registration.ts:15-62 | after any sequence of registrations and mounts, of routers built the same way to any depth, the table is well made and flattens to the registrations in the order they were made |
| Registration.RegistrationsServed | adapter/router/router.ts:629-666 | after any such sequence a request is served as the registrations in order when no reached group diverges, and, with registrations told apart, only then |
| Registration.RegistrationsAnswered | adapter/router/router/registration.ts:15-62 | after any such sequence a request is answered as by the registrations with every Response kept exactly when the run reaches no handler whose Response is dropped |
| Registration.BuilderHandlersNeverDiverge | adapter/router/middleware.ts:36-89 | handlers that answer through the builder only, or that never return a promise, make merging invisible |
| Registration.BuilderHandlersNeverDrop | adapter/router/middleware.ts:36-89 | nor do such handlers lose a Response |
| Registration.DivergenceExists | adapter/router/router/handler.ts:252-254 | a table, handlers and request for which merging shows |
| Registration.SecondPromiseIsDropped | adapter/router/middleware.ts:55-68 | two asynchronous handlers registered for one route, the second resolving to a Response: both run and the client gets a 404 |
| RateLimit.RateLimiter.constructor | adapter/router/router/rateLimit.ts:48-60 | a fresh limiter is empty and counts its cleanup interval from now |
| RateLimit.RateLimiter.Cleanup | adapter/router/router/rateLimit.ts:50-57 | the deletion loop removes exactly the entries expired at its own clock reading, in whatever order |
| RateLimit.RateLimiter.Handle | adapter/router/router/rateLimit.ts:62-94 | new state and verdict of one request are those of the step function |
| RateLimit.StepAlike | adapter/router/router/rateLimit.ts:62-80 | two stores that differ in expired entries only answer alike and stay so, unless the cleanup races its request |
| RateLimit.CleanupIsInvisible | adapter/router/router/rateLimit.ts:50-78 | over any run the counts, reset times and decisions are those of a limiter that never deletes, exactly when no cleanup races its own request |
| RateLimit.FreshCleanupIsInvisible | adapter/router/router/rateLimit.ts:48-78 | the same from a fresh limiter |
| RateLimit.StoreStaysSmall | adapter/router/router/rateLimit.ts:59-70 | after each call no stored entry expired more than a cleanup interval ago, up to a negative window |
| RateLimit.NothingLater | adapter/router/router/rateLimit.ts:75-93 | nothing is accepted in an interval the clock has left |
| RateLimit.InsideBound | adapter/router/router/rateLimit.ts:75-93 | from a state inside the interval on, no more is accepted than its window and one further window leave, plus one for a race |
| RateLimit.SlidingBound | adapter/router/router/rateLimit.ts:62-94 | any closed interval of window length accepts at most `2 * max` requests of a key, and at most `2 * max - 1` without a race |
| RateLimit.RaceReachesTwiceTheMaximum | adapter/router/router/rateLimit.ts:50-70 | a run with a race that accepts `2 * max` |
| Windows.ClockedMeans | adapter/router/router/rateLimit.ts:50-70 | the runs these speak of are those whose clock never goes back, between requests or during a cleanup, and may stand still |
| Windows.VerdictByVerdict | adapter/router/router/rateLimit.ts:72-93 | without races: a key's first request opens a window; every other one counts in the window of the one before it, whose reset time stays, refused or not, until the clock has passed it, and then opens a window of its own; it is refused exactly above the maximum |
| Windows.ResetIsAWindowAfterARequest | adapter/router/router/rateLimit.ts:75-78 | in every run, the reset time of a verdict is a window after a request of its key |
| Windows.RefusedOnlyWhenFull | adapter/router/router/rateLimit.ts:75-93 | in every run, a request is refused only if `max` requests of its key were accepted within the window up to it |
| Windows.EntriesAreBacked | adapter/router/router/rateLimit.ts:75-80 | in every run, an entry was opened by a request of its key, and since then as many were accepted as it counts, up to the maximum |
| Windows.CleanupRuns | adapter/router/router/rateLimit.ts:59-70 | cleanup runs when more than the window and more than a minute have passed since it last ran, and leaves other keys' entries alone unless they had expired |
| PubSub.Hub.WsSubscribe | src/server.rs:443-454 | both maps gain the pair, nothing else changes |
| PubSub.Hub.WsUnsubscribe | src/server.rs:457-464 | both maps lose the pair, where they have an entry |
| PubSub.Hub.Cleanup | src/server.rs:926-935 | the subscriptions of the connection go, and it leaves exactly the topics it was subscribed to |
| PubSub.Hub.PublishInternal | src/server.rs:485-507 | exactly the members with a sender and fewer than 256 messages queued, the excluded one aside, get the message; the result is their number |
| PubSub.StepKeepsInv | src/server.rs:443-507 | every atomic step of the JS thread and of every connection task keeps the invariant of index, queues and publications |
| PubSub.Reachable | src/server.rs:443-507 | so it holds after every interleaving |
| PubSub.IndexAgrees | src/server.rs:443-464 | whenever no subscribe or unsubscribe is half done, both directions of the index agree on every connection whose subscriptions have not been taken by its teardown |
| Teardown.MembersByTrace | src/server.rs:443-464 | in every run a topic holds a connection exactly when a subscribe call for the pair has made its second write, and no unsubscribe call and no teardown has written to the topic after it |
| Teardown.StaleExactly | src/server.rs:926-935 | with no call for the pair half done and no removal due, and so for every connection torn down: a topic entry without its subscription is there exactly when the pair's last call is a subscribe that began before the teardown took the subscriptions and ended after it left the topic |
| Teardown.StuckMeansLeftBehind | src/server.rs:443-454 | following a run step by step decides whether those positions exist in it |
| Teardown.SubsByTrace | src/server.rs:443-464 | in every run a connection is subscribed exactly when a subscribe call for the pair has made its first write, and no unsubscribe call and no teardown has taken it back |
| Teardown.LostExactly | src/server.rs:926-935 | with no call for the pair half done: a subscription without its topic entry is there exactly when the pair's last call is a subscribe that began after the teardown took the subscriptions and ended before it left the topic |
| Teardown.StaleEntriesAreMute | src/websocket.rs:162-167 | a topic entry without its subscription belongs to a connection without a sender, and is about to be removed or was left behind |
| Teardown.EntryStays | src/server.rs:443-464 | an entry past its teardown stays in every continuation in which no call for the pair begins |
| Teardown.UnsubscribeClears | src/server.rs:457-464 | an unsubscribe call for the pair removes it |
| Teardown.LateSubscribeLeavesEntry | src/server.rs:443-454 | for every connection and topic there is a run that leaves an entry behind |
| PubSub.PublishReachesSubscribers | src/server.rs:485-507 | in every interleaving, who accepts the message was subscribed when the call began, is not the excluded one and gets the published text; the count is the number of those who accepted |
| Publishing.PublishMissesExactly | src/server.rs:485-507 | in every interleaving, when a publish is about to end, each member of the topic at its beginning, the excluded one aside, has had its turn, and has accepted the message unless it had no sender at its turn or no room when the message was to be queued; nobody else has accepted it |
| Publishing.Turns | src/server.rs:498-505 | at any point of the call each connection of the snapshot is still to come, being served, or done with, and then missed or not |
| PubSub.OrdersStay | src/server.rs:485-496 | what a publish was asked, and the snapshot it took, never change afterwards |
| PubSub.QueuesAreFaithful | src/websocket.rs:67-77 | in every run a channel's accepted messages are those delivered followed by those queued, in order, never more than 256 queued; a closed one delivered a prefix |
| PubSub.SubscribeAlone | src/server.rs:443-464 | run uninterrupted, the two writes of subscribe and unsubscribe do what the methods do |
| PubSub.LeavingAlone | src/server.rs:929-933 | run uninterrupted, the loop over the topics empties them of the connection |
| PubSub.CleanupAlone | src/server.rs:926-935 | run uninterrupted, teardown does what the cleanup method does |
| PubSub.DeliveredOne | src/server.rs:500-504 | one iteration of a publish queues at one connection and counts it iff it has a sender with room |
| PubSub.DeliveringAlone | src/server.rs:498-506 | run uninterrupted, the loop of a publish reaches every remaining id that has a sender with room |
| PubSub.PublishAlone | src/server.rs:485-507 | a publish that nothing interleaves with queues its message at exactly the members of the topic, the excluded one aside, that have a sender and fewer than 256 messages queued, and counts them |
| PubSub.SnapshotTaken | src/server.rs:485-496 | a publish begins with a snapshot of exactly the members of the topic that are not the excluded connection |
| PubSub.SendAlone | src/server.rs:379-395 | a direct send queues its message exactly if the connection has a sender and fewer than 256 messages queued, and changes nothing else |
| PubSub.QueueSteps | src/websocket.rs:67-77 | the send task delivers the first message of a queue that is not empty; closing drops what is left in it |
| Requests.Table.constructor | src/server.rs:185-188 | a fresh table is empty and has no callback |
| Requests.Table.SendResponse | src/server.rs:192-197 | the id leaves both tables; its request, if there is one, gets the response |
| Requests.Table.Register | src/server.rs:793-825 | a request enters both tables and waits, or, without a callback, leaves both |
| Requests.Table.Close | src/server.rs:185-188 | no callback, empty tables |
| Pending.StepKeepsInv | src/server.rs:185-197 | every atomic step of requests, of JS, which takes a sender out and then sends on it, and of any number of overlapping closes, clearing shard by shard, keeps the invariant |
| Pending.Reachable | src/server.rs:185-197 | so it holds after every interleaving |
| Waiting.NobodyIsForgotten | src/server.rs:807-836 | in every run an unfinished request has a step of its own to take, or waits with its sender in the table under its id, or JS holds that sender and sends on it next |
| Waiting.CloseReleasesEveryone | src/server.rs:185-188 | once a close is through and no callback came since, every unfinished request has a step of its own to take, or JS is about to send to it |
| Waiting.StepsRunOut | src/server.rs:807-836 | own steps make progress towards the end, and no other step undoes it |
| Waiting.CloseEmptiesTables | src/server.rs:185-188 | once such a close is through and all requests have finished, both tables are empty |
| Waiting.SettledStep | src/server.rs:192-197 | a channel that was answered or dropped stays so |
| Waiting.AtMostOneResponse | src/server.rs:191-282 | whatever ids JS answers and how often, each request is sent at most one response, and finishes with the one that was sent |
| Waiting.EvictionIsIdReuse | src/server.rs:809-810 | storing a sender evicts another request exactly when that one holds the same 32-bit id |
| Waiting.NoEvictionWithinIdSpace | src/server.rs:955-958 | none is evicted while all in the table were issued within the last 2^32 requests |
| Waiting.WakesWithItsReply | src/server.rs:827-836 | a waiting request wakes once its channel is answered or dropped: it finishes with the reply that was sent, or fails and takes its address out |
| Waiting.AnswerArrives | src/server.rs:192-197 | an answer under the id of a waiting request, uninterrupted, makes it finish with that reply |
| Requests.RegisterAlone | src/server.rs:807-825 | run uninterrupted, the atomic steps of a registration do to the tables what the method does |
| Requests.AnswerAlone | src/server.rs:192-197 | so do those of an answer, and the request found gets the reply |
| Requests.CloseAlone | src/server.rs:185-188 | and those of a close: both tables end up empty, and exactly the requests with a sender in the table are cancelled |
| Requests.ClearAlone | src/server.rs:187-188 | clearing the remaining shards, from any point of a close |
| Frame.LayoutDecodes | src/server.rs:284-343 | every status, string list and body laid out as documented decodes to itself, an empty body to an absent one, whatever bytes follow the strings in the header section |
| Frame.DecodedIsLayout | src/server.rs:287-343 | whatever decodes is the layout of what it decodes to |
| Frame.PackedRead | src/server.rs:307-334 | strings laid out behind their lengths are read back |
| Frame.ReadPacked | src/server.rs:307-334 | strings that were read had been laid out so |
| Frame.Inverse16 | src/server.rs:292 | little-endian 16-bit reading and writing are inverse both ways |
| Frame.Inverse32 | src/server.rs:293-306 | so are the 32-bit ones |
| Frame.LittleEndian | src/server.rs:292-306 | the first byte counts least, every further one 256 times as much as the one before it |
| Frame.BareFrame | src/server.rs:287-343 | ten bytes of status, section length and string count, spelled out, followed by any body, decode to that status, no header and that body |
| Frame.ReadStrings | src/server.rs:307-337 | the loop reads the strings, every access in bounds, or rejects |
| Frame.DecodeFrame | src/server.rs:288-343 | the whole parser, every access in bounds, decodes or rejects |
| Frame.SendResponseRaw | src/server.rs:287-354 | a rejected frame leaves both tables as they were; an accepted one answers its request like the other calls |
| FloatParser.ReadDigits | src/schema.rs:738-761 | a digit loop stops behind the run of digits with its value and scale |
| FloatParser.FastFloatParse | src/schema.rs:718-774 | the result is the exact value of the longest literal prefix, an error iff no prefix is a literal, and the standard parser's answer iff an exponent follows that prefix |
| FloatParser.ParsesNumber | src/schema.rs:718-774 | that determines the result |
| FloatParser.NoLiteral | src/schema.rs:734-749 | without a digit behind the sign no prefix is a literal |
| FloatParser.LongestEnds | src/schema.rs:741-763 | where the loops stop is the end of the one longest literal prefix |
| FloatParser.LiteralParts | src/schema.rs:751-773 | what the loops have summed up is the value of that prefix |
| FloatParser.PrintParses | src/schema.rs:718-774 | a printed integer is its own longest literal and stands for the integer |
| FloatParser.AccumulatorsExact | src/schema.rs:738-745 | while a printed integer below 2^53 is parsed, every accumulator and product is an integer below 2^53 |
| Numbers.WholeNumber | src/schema.rs:718-749 | a sign and digits, and anything behind them that is no digit, point or exponent, parse to what the digits are worth, signed; an exponent hands over to the standard parser |
| Numbers.PointNumber | src/schema.rs:751-773 | with a point, the result times ten for each digit behind it is what all the digits are worth as one number, signed |
| Numbers.LiteralWithPoint | src/schema.rs:751-763 | the same for the value of the literal itself |
| Numbers.ValueConcat | src/schema.rs:738-745 | digits behind others make them worth ten times as much each |
| Numbers.NotANumber | src/schema.rs:723-749 | without a digit at the start, or behind a sign there, nothing is parsed |
| SchemaMeaning.ViolationsMean | src/schema.rs:438-543 | a violation is listed exactly when following its place down value and schema at once leads to the broken constraint, or to a missing required key |
| SchemaMeaning.EmptyMeansConforms | src/schema.rs:438-543 | nothing is listed exactly when the value conforms |
| SchemaMeaning.EachOnce | src/schema.rs:438-543 | no value gets a violation listed twice exactly when no object in the schema lists a key twice |
| SchemaMeaning.SectionEachOnce | src/schema.rs:558-581 | the same for the properties of a whole section |
| SchemaMeaning.CodesMean | src/schema.rs:352-436 | the codes of a value itself are exactly the constraints it breaks |
| SchemaMeaning.KeysMean | src/schema.rs:492-507 | null and missing keys alike break only being required; no property hides another |
| SchemaMeaning.ItemsMean | src/schema.rs:532-537 | every item, null included, is checked against the item schema |
| Validator.ErrorBuffer.Push | src/schema.rs:327-333 | one error more, at the end |
| Validator.ValidateStringFast | src/schema.rs:353-400 | pushes the length, pattern and enum codes that apply, in this order, without short-circuit |
| Validator.ValidateNumberFast | src/schema.rs:403-436 | pushes the integer, minimum and maximum codes that apply, in this order |
| Validator.ValidateLength | src/schema.rs:513-531 | pushes the item-count codes that apply |
| Validator.ValidateItems | src/schema.rs:532-537 | pushes the violations of all items under indexed paths |
| Validator.ValidateKeys | src/schema.rs:492-507 | pushes the violations of all properties under dotted paths |
| Validator.ValidateCompiledField | src/schema.rs:438-543 | pushes exactly the list of violations, in schema order, behind what was there |
| Validator.ValidateJsonCompiled | src/schema.rs:558-581 | a document's errors are the violations of every property; a non-object reads every key as missing |
| Validator.DocumentVerdict | src/schema.rs:558-581 | there is no error exactly when every property conforms, or is absent and not required |
| Documents.NullIsMissing | src/schema.rs:492-507 | for every schema and document, a key that is null gives the errors of the document without the key |
| Documents.OneProperty | src/schema.rs:558-581 | a section of one property: a key that is missing or null is an error exactly if required, any other value gives its violations under the key's path |
| Documents.PropertyByProperty | src/schema.rs:558-581 | a section is validated property by property, no property hiding another |
| Documents.OtherDocuments | src/schema.rs:558-581 | what is no object has no key; an object in a document is a document further down the path |
| Documents.NullItem | src/schema.rs:532-537 | a null item of an array is checked as a value, and is a type error under its index |
| Documents.OneItemArray | src/schema.rs:532-537 | an item's errors are those of the item under `[0]` |
| Documents.TextErrors | src/schema.rs:352-400 | length below, length above, pattern and enum, in this order, are the errors of a text |
| Documents.NumberErrors | src/schema.rs:402-436 | not whole, below and above, in this order, are the errors of a number |
| Documents.ArrayErrors | src/schema.rs:513-531 | too few and too many items are the errors of an array itself |
| Documents.WrongTypes | src/schema.rs:438-543 | a value of another type has this one error only |
| Documents.LengthInBytes | src/schema.rs:353-366 | lengths are counted in bytes of UTF-8, one to four for each character |
| Documents.LetterPatterns | src/schema.rs:150-152 | the alphabetic, numeric and alphanumeric patterns, letter by letter |
| Documents.PrefixPatterns | src/schema.rs:130-137 | a URL starts with one of two schemes; an email has five bytes, an at sign and a dot |
| Documents.UuidMeans | src/schema.rs:138-149 | a UUID is 36 hexadecimal digits, of which four may be dashes |
| Query.CountCommas | src/schema.rs:680-681 | the counting loop counts the commas |
| Query.ValidateStringAsFieldFast | src/schema.rs:613-714 | a query text gets exactly the errors of the JSON value it is coerced to, nested arrays included |
| Query.ValidateParts | src/schema.rs:700-711 | the parts of a list get the errors of the items they are coerced to |
| Query.ValidateQueryCompiled | src/schema.rs:584-610 | for every schema a front end can compile, a query gets the errors of the JSON object it is coerced to, under `query`, exactly when each parameter is read alike under all properties of its key, or is no number |
| Query.QueryCommutes | src/schema.rs:584-610 | for every such schema and every query, the violations are those of the coerced object exactly under that condition |
| Query.QueryAlwaysCommutes | src/schema.rs:584-610 | they are so for all queries exactly when no key is listed both as a text and as a number |
| Query.ErrorsCommute | src/schema.rs:591-606 | the same for the errors with their paths |
| Query.TwiceListedKeyDoesNotCommute | src/builders.rs:407-415 | with a key listed as a text and as a number, a query passes that corresponds to no document at all |
| Documents.OneParameter | src/schema.rs:584-610 | a query section of one property: a missing parameter is an error exactly if required, any other gives the violations of its coerced value under the key's path |
| Documents.BooleanParameter | src/schema.rs:776-783 | eight texts are booleans, and no other |
| Documents.ObjectParameter | src/schema.rs:584-714 | no text is an object |
| Documents.ListParameter | src/schema.rs:664-714 | the parts between commas are the items, trimmed where an item schema reads them |
| Documents.TrimExactly | src/schema.rs:700-711 | trimming takes white space off both ends and nothing else |
| Compiler.CompileField | src/schema.rs:181-254 | compiles a definition, whatever the iteration order of its hash maps |
| Compiler.CompileMap | src/schema.rs:226-233 | the loop over a hash map in any order, and the unstable sort behind it, give the one ascending list |
| Compiler.CompileRouteSchema | src/schema.rs:284-304 | each section of a route is compiled so, and a missing one stays missing |
| Compiler.CompileKeepsMeaning | src/schema.rs:161-254 | compiled and raw schema are violated at the same places with the same codes by every value; a custom pattern counts iff it was registered at compile time, and is looked up at validation time |
| Compiler.CompiledIsWellKeyed | src/schema.rs:226-233 | a schema compiled from JSON lists no key twice |
| Compiler.OrderDoesNotMatter | src/schema.rs:227-232 | in whatever order the fields come, any sorted permutation of them is the same list |
| Compiler.AscendingUnique | src/schema.rs:231 | there is one ascending list of given properties |
| Compiler.LessMeans | src/schema.rs:231 | a word comes before another if it begins it, or has the smaller one of the first letters to differ |
| Compiler.PatternNames | src/schema.rs:161-179 | six names are built-in patterns; any other name counts iff it is registered |
| Compiler.ListedKey | src/schema.rs:227-232 | the list holds every key with its own field, and no other |
| Compiler.ListingInjective | src/schema.rs:227-232 | the list determines the fields |
| Builders.RunScript | src/builders.rs:40-337 | any sequence of calls on any builder, nested to any depth, compiles to what the calls spell out: last settings win, unknown pattern names are kept, properties are sorted with equal keys in some order |
| Builders.RunRoute | src/builders.rs:364-454 | any sequence of calls on a schema builder compiles section by section, in sorted order, empty sections absent |
| Builders.CompileSection | src/builders.rs:436-446 | an empty section is absent, any other is sorted by key |
| Builders.OneMoreStringCall | src/builders.rs:43-95 | one more call on a string builder changes its own part of what it compiles to |
| Builders.OneMoreNumberCall | src/builders.rs:125-160 | one more call on a number builder does so; an integer stays one |
| Builders.OneMoreArrayCall | src/builders.rs:289-336 | one more call on an array builder does so |
| FrontEnds.SpelledMakes | src/builders.rs:40-337 | calls that spell out a definition, in any order, compile in one way only |
| FrontEnds.SpelledEntries | src/builders.rs:222-246 | properties added once each, in any order, are those of the definition |
| FrontEnds.ExpressibleIsSpelled | src/builders.rs:40-337 | every definition whose objects list their properties and whose numbers are not asked to be whole is spelled out by some calls |
| FrontEnds.BuiltIsCompiled | src/builders.rs:10-20 | for such a definition, builders and JSON compile alike exactly when every pattern it names, at any depth, is built in or registered |
| FrontEnds.FrontEndsAgree | src/builders.rs:84-95 | some calls spell out a definition and compile to what JSON makes of it exactly when it is of that kind and every pattern is known |
| FrontEnds.ExpressedExactly | src/builders.rs:145-160 | any calls at all compile to what JSON makes of a definition exactly when it is of that kind |
| FrontEnds.MadeIsMakeable | src/builders.rs:248-259 | nothing that builders compile has an object without a list of properties or a number that must be whole |
| FrontEnds.RespelledMeans | src/schema.rs:181-254 | a whole number means an integer, an open object one that lists nothing, an unknown pattern none: no value and no query tells them apart |
| FrontEnds.EveryMeaningIsExpressed | src/schema.rs:181-254 | every definition has calls whose compiled schema no value and no query tells from the one JSON compiles |
| FrontEnds.SectionAgrees | src/builders.rs:436-446 | calls that spell out a section compile to what JSON makes of it exactly when it is absent, or filled with such definitions |
| FrontEnds.RoutesAgree | src/builders.rs:432-453 | some calls spell out a route and compile to what JSON makes of it exactly when every section is absent or filled with such definitions, and query and path parameters are texts and numbers |
| FrontEnds.OneMoreRouteCall | src/builders.rs:376-429 | each call on a schema builder adds its property to its own section, behind what was there, and to no other |
| FrontEnds.QuerySectionsAreListable | src/builders.rs:405-415 | whatever either front end compiles, its query section lists each key once or holds texts and numbers only |

## Left out

- Query.QueryCommutes: speaks of schemas that a front end can compile into a query section, with distinct keys or with texts and numbers only (FrontEnds.QuerySectionsAreListable).
- Merging.MergingIsInvisible: handlers leave the matched parameters alone; that a divergence shows is stated for registrations with numbers of their own, without which an equal outcome could be a coincidence.
- Registration.Router.Mount: does not cover mounting a router with routes on itself, which the source never finishes.
- Serving.MountedServesAlike: excludes root requests on tables with root routes, which Serving.MountedRootServesAlike covers for handlers that leave the parameters alone.
- Dispatch.Route: a handler call and the settling of its promise are one step, so two requests served at once do not see each other's half-done work; rejections and exceptions are not modelled.
- FloatParser.FastFloatParse: computes with real numbers; 64-bit rounding, NaN and infinities appear only as the exactness range of FloatParser.AccumulatorsExact, and the standard parser behind an exponent is any function.
- Waiting.NoEvictionWithinIdSpace: the 64-bit counter itself does not wrap.
- Waiting.StepsRunOut: says that own steps run out, not that the scheduler takes them.
- PubSub.IndexAgrees: connection ids are not reused, as the counter behind them makes sure; ids supplied by JS in a response are not modelled.
- Compiler.SortByKey: stands in for the library's unstable sort; lemmas use only that its result is a sorted permutation.
- `group` of the router: the body of `mount` on a fresh router that a callback fills, which the sequences of Registration.TableFlattens include.
- Empty arrays as split paths, for which the matcher throws: their type excludes them, and the empty list stands for the root.
- A parameter named `__proto__`, which a JavaScript object treats specially.
- Header values of the rate limiter (limit, remaining, reset, retry-after) and its key generator: one expression each.
- Error message texts of the validators; their paths and codes are modelled.
- Regular expressions and UTF-8 validity: arbitrary predicates.
- Default values of field definitions and JSON text parsing: not used by validation.
- Connection abort handles, the accept loop and `upgraded_requests`; failing calls into JS, after which the request waits as after a successful one.
- Return values of direct sends and `ws_close`, which queue like any other message.
- Clearing a concurrent map is modelled as one atomic step for each of 16 shards; the spread of ids over shards is arbitrary.
- Allocation limits: a frame that announces many strings reserves space for them before it is rejected.
- Sockets, HTTP and WebSocket parsing, TLS, the handshake of section 4.2.2 of RFC 6455, and scheduling.
- Request and response conversion in `adapter/serve.ts`, before-sent hooks, static files, bodies, streams, CORS, cookies and the per-verb registration functions.
- URL decoding and the splitting of query strings into parameters.
