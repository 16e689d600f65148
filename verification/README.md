# single-auth, modelled and proved in Dafny

A model of the parts of single-auth (an authentication server in Go) where state, concurrency or
arithmetic make it hard to see that the code is right, with proofs about every input, every run or
every interleaving. `dafny verify dfyconfig.toml` checks everything.

| files | what they model |
|---|---|
| `SessionStates`, `SessionStore`, `SessionCoherence`, `SessionRevocation`, `SessionRefresh`, `SessionLaws`, `SessionRaces` | sessions in a key-value store with TTLs and an optional database: what every history keeps, what revocation guarantees, the sliding expiry, what one operation means to the next, and what overlapping operations can undo |
| `RoutePatterns`, `RouteShapes`, `RouteRegistry`, `RouteMatching` | route patterns, building a registry, and choosing the endpoint of a request |
| `MapConcurrent` | the bounded concurrent map as a step system |
| `FallbackJoin`, `Queries`, `ConsumeOne` | joins without driver support, and consuming a row without isolation |
| `Transactions` | nested transactions and the hooks that wait for them |
| `Traces`, `VerificationIdentifiers`, `VerificationConsume`, `VerificationSecondary`, `VerificationReserve` | single-use verification values and reservations |
| `Headers`, `Pipeline`, `PipelineHeaders` | response headers through hooks, endpoint and hooks |
| `Values`, `Schemas`, `FieldCodecs`, `Records`, `RecordLaws` | schema validation, name resolution, and records to columns and back |
| `Globs`, `Identifiers`, `Words` | the two wildcard compilers, the two identifier generators, word splitting |

Code that changes state is a class or a method with loops, proved to do what a function says; the
lemmas are about those functions, so they hold of the code. Concurrent code is a set of steps that
any participant may take next, and the lemmas range over all schedules.

Where a property one would expect turns out not to hold, there is a concrete input or history, and a
theorem that says exactly when it holds: revocation amid overlapping operations (`RevokedComesBack`,
`RevocationIsFinalIff`), the life of a cached session (`NewSessionLasts`, `ProfileChangeCosts`), the
batched join (`OneToOneStarves`, `AgreeIff`, `OneToOneAgreeIff`), the rank of a wildcard
(`SubsetOutranks`), a parameter that shares its name with the wildcard (`ParameterGets`), one success per create (`BothSucceed`, `OneSuccessIff`), a cookie removed by a
matcher (`MatcherRemoval`), `_id` as a field (`ColumnsAreDistinct`), the empty field name
(`FieldIsUnique`), a string in a JSON column (`JsonRoundTrips`), backslash and double star in a host
pattern (`CompilersAgree`), capitals without a lower case (`BareCapital`, `IdempotentIff`), the last
second of a session (`SecondIsTight`, `MissedIff`), and NUL in a static segment (`NulCollides`,
`IdentifiedIff`). The conditions of `DeleteUserRevokes` on time and of `ShapeKeyIsMeaning` on a pair
of patterns are sufficient ones. The
comment on `ResolveModel` (storage/schema.go:302-303) says that a configured name is accepted; the
code does not accept one ending in s under plurals, and the model follows the code
(`ConfiguredNameResolves`).

## Model

| member | source | states |
|---|---|---|
| SessionCoherence.CopyLasts | core/secondary_storage.go:297-305 | A copy written with a TTL reads back until the TTL is over and no longer; no other token and no list notices. |
| SessionCoherence.ListLasts | core/secondary_storage.go:287-296 | The same for a list. |
| SessionStore.Store.FilterList | core/secondary_storage.go:277-282 | Keeps exactly the running lines of other tokens, in order. |
| SessionStore.Store.StoreSecondarySessionPayload | core/secondary_storage.go:254-305 | The filtered, extended and sorted list and the payload are written as one state change; nothing happens for an empty token or user or under a second to go. |
| SessionStore.Store.CreateSession | core/core_routes.go:578-663 | Row and cached copy are created together; a duplicate token in the database fails and changes nothing. |
| SessionStore.Store.FindStoredSession | core/secondary_storage.go:342-370 | Cached copy first, database only where the configuration reads it, nothing without the user. |
| SessionStore.Store.ListSecondarySessions | core/secondary_storage.go:436-471 | The sessions behind the running lines, each token once, in list order. |
| SessionStore.Store.UpdateStoredSession | core/secondary_storage.go:473-515 | Cached copy and row get the same change; the returned record is the one the configuration prescribes. |
| SessionStore.Store.DeleteStoredSession | core/secondary_storage.go:517-567 | Unlists the token, drops the copy, and drops the row unless sessions are preserved. |
| SessionStore.Store.DeleteStoredSessions | core/secondary_storage.go:569-597 | Drops the copies that are present and the rows, without touching the lists. |
| SessionStore.Store.DeleteSecondaryUserSessions | core/secondary_storage.go:599-617 | Drops exactly the copies on the user's live list and the list itself, and nothing without a secondary store. |
| SessionStore.Store.DeleteStoredUserSessions | core/secondary_storage.go:619-630 | The same, and the user's rows unless they are preserved and not forced. |
| SessionStore.Store.UpdateUserRecord | core/secondary_storage.go:632-673 | The user record changes, and the cached user of every running session on the live list with it. |
| SessionCoherence.KeepMembers | core/secondary_storage.go:277-282 | Filtering keeps exactly the running lines of other tokens. |
| SessionCoherence.StableSortSorts | core/secondary_storage.go:254-305 | The sorted list is ordered by expiry and is a permutation of what was given. |
| SessionCoherence.RewriteMembers | core/secondary_storage.go:254-305 | A rewritten list is sorted, free of duplicates, and holds exactly the kept lines and the new one. |
| SessionCoherence.PutListIndexes | core/secondary_storage.go:254-305 | Despite the floored TTL, a written list outlives each of its lines up to its last second, on every backend. |
| SessionCoherence.StoreCoherent | core/secondary_storage.go:254-305 | Storing a session keeps coherence. |
| SessionCoherence.DeleteCoherent | core/secondary_storage.go:517-567 | Deleting one session keeps coherence. |
| SessionCoherence.DeleteUserCoherent | core/secondary_storage.go:599-630 | Revoking a user keeps coherence. |
| SessionCoherence.RefreshCoherent | core/secondary_storage.go:632-673 | Rewriting the cached users keeps coherence and touches no list. |
| SessionCoherence.StepCoherent | core/secondary_storage.go:254-673 | Every operation keeps coherence. |
| SessionCoherence.RunCoherent | core/secondary_storage.go:254-673 | In every reachable state lists are sorted and free of duplicate tokens, and every cached session with a second or more to go is on its user's live list. |
| SessionRevocation.DeleteRevokes | core/secondary_storage.go:517-567 | A deleted token is not found, in every configuration and state. |
| SessionRevocation.DeleteManyRevokes | core/secondary_storage.go:569-597 | None of several deleted tokens is found. |
| SessionRevocation.DeleteUserRevokes | core/secondary_storage.go:599-630 | After any history, revoking a user leaves no findable session of that user with a second or more to go. |
| SessionRevocation.ListIsComplete | core/secondary_storage.go:436-471 | After any history, every cached session with a second or more to go is in its user's session list. |
| SessionRevocation.RevocationIsFinal | core/secondary_storage.go:342-370 | A deleted token is never found again, whatever operations follow one another, short of creating it anew. |
| SessionRevocation.SecondIsTight | core/secondary_storage.go:254-305 | The second is exact: a history on every backend where a session with 999 ms left is found but neither listed nor revoked. |
| SessionRevocation.MissedByRevocation | core/secondary_storage.go:599-617 | A session whose user's list is gone escapes revocation of the user. |
| SessionRevocation.MissedIff | core/secondary_storage.go:599-630 | In any state, revoking a user misses exactly the cached sessions of that user that are not on the live list. |
| SessionRaces.StepSafe | core/secondary_storage.go:473-673 | No step of overlapping operations makes an unseen token visible while no flight that could has it in hand. |
| SessionRaces.FinalIff | core/secondary_storage.go:473-673 | A token that no lookup sees stays unseen in every schedule of overlapping operations if and only if no update and no change of a user record has it in hand that could still write it. |
| SessionRaces.RevocationIsFinalIff | core/secondary_storage.go:517-567 | After any overlapping history, deleting a token is final exactly under that condition. |
| SessionRaces.RevokedComesBack | core/secondary_storage.go:473-515 | The schedule load, delete, store brings a deleted token back. |
| SessionRefresh.GetSession | core/core_routes.go:423-544 | One request's outcome and its effect on the store, for every combination of options and flags; the rows of `SessionLaws` say what both are. |
| SessionRefresh.CreateHeld | core/core_routes.go:588-611 | A session created with the full lifetime is held until that lifetime, slack deducted. |
| SessionRefresh.StepHeld | core/core_routes.go:486-543 | Any operation on other tokens, the revocation of other users and changes of user records leave the session held. |
| SessionRefresh.AccessHeld | core/core_routes.go:486-543 | A timely read finds the session and leaves it at least lifetime minus update age to go. |
| SessionRefresh.ShortGapsKeep | core/core_routes.go:486-543 | Over any run of reads with gaps of at most lifetime minus update age (less the slack without a database) every read finds the session. |
| SessionRefresh.LongGapLoses | core/core_routes.go:486-497 | A gap longer than the lifetime always loses it. |
| SessionRefresh.WritesAreApart | core/core_routes.go:486-543 | Over any run of reads two refresh writes are at least the update age apart. |
| SessionRefresh.NewSessionLasts | core/core_routes.go:588-611 | Exactly how long an untouched session is found: its lifetime, or its whole seconds where no database is read. |
| SessionRefresh.ProfileChangeCosts | core/secondary_storage.go:632-673 | A change of the user record can cost a cached session 999 ms, so the slack with such changes is needed. |
| SessionLaws.QuietRead | core/core_routes.go:500-515 | A request that must not refresh (not remembered, disabled, skipped), or whose session is too young, gets the session and changes nothing. |
| SessionLaws.DeferredRead | core/core_routes.go:514-523 | Where the refresh is deferred a request that is no POST changes nothing and reports exactly whether a refresh is wanted. |
| SessionLaws.RefreshingRead | core/core_routes.go:524-543 | A wanted refresh returns a session that expires a lifetime from now, or refuses exactly if the database should hold the session and does not. |
| SessionLaws.ExpiryAfterRead | core/core_routes.go:486-543 | What the next lookup finds: the same user and session, expiring a lifetime from now exactly if a refresh was wanted and not deferred, else when it did. |
| SessionLaws.FruitlessRead | core/core_routes.go:486-497 | A session that is not there or over is not returned; one that is over is then gone, except after a deferred request that is no POST. |
| SessionLaws.RefusedRead | core/core_routes.go:423-440 | A POST is refused, and changes nothing, exactly where the refresh is not deferred. |
| SessionLaws.CreatedIsFound | core/core_routes.go:578-663 | A created session is found at once, with the user on record. |
| SessionLaws.UpdatedIsFound | core/secondary_storage.go:473-515 | An updated session is found with the changed columns, every other column and the user as before; the caller gets that record or, where the database stores sessions, its row changed alike, and nothing exactly if it lacks the row. |
| SessionLaws.OthersUnchanged | core/secondary_storage.go:254-597 | Creating, updating or deleting other tokens does not change what a lookup finds. |
| SessionLaws.OtherUsersUnchanged | core/secondary_storage.go:599-630 | Revoking a user is not felt by a session that is neither a row of that user nor on that user's list. |
| SessionLaws.UserChangeGives | core/secondary_storage.go:632-673 | A cached session keeps its record, and its user becomes the new one exactly if it is a running line of the user's live list. |
| SessionLaws.UserChangeReachesAll | core/secondary_storage.go:632-673 | After any history a change of a user record reaches every lookup of that user's sessions with a second or more to go. |
| SessionLaws.ListedShows | core/secondary_storage.go:436-471 | A listing shows every running token whose session is there, exactly once, in the order of the lines, and nothing else. |
| SessionLaws.DeletedIsUnlisted | core/secondary_storage.go:517-567 | Deleting a token leaves exactly the running lines of other tokens on its user's list, and every other list as it was. |
| SessionLaws.CacheDecides | core/secondary_storage.go:342-370 | What is cached is found whatever the database holds, and a database that is not read never matters. |
| RoutePatterns.CompileSegment | core/engine/pattern.go:43-85 | One piece of a path compiles exactly under the rules for its place and its name, into the segment it stands for. |
| RoutePatterns.CompileRoutePattern | core/engine/pattern.go:30-93 | Compiling succeeds on exactly the compilable paths and yields their segments, ranks and shape. |
| RoutePatterns.CompiledIsWellFormed | core/engine/pattern.go:30-93 | Compiled segments have a wildcard or an empty segment only at the end. |
| RoutePatterns.MatchRequest | core/engine/pattern.go:143-188 | A request matches, with or without trailing slashes, exactly if the segments accept it; the parameters have exactly the pattern's names, each with the text of the last segment of that name. |
| RoutePatterns.MatchSegments | core/engine/pattern.go:155-188 | The index loop decides acceptance, and binds every name to the text its last segment stands for and nothing else. |
| RoutePatterns.BindIsBound | core/engine/pattern.go:155-188 | The left-to-right binding gives every name the text of its last segment, for a wildcard all that is left, joined by slashes. |
| RoutePatterns.BoundIsUnique | core/engine/pattern.go:155-188 | Only one set of parameters does. |
| RoutePatterns.ParameterGets | core/engine/pattern.go:155-188 | A parameter of a compiled pattern gets the segment at its place, exactly unless a final wildcard of the same name stands for something else. |
| RoutePatterns.UnescapeOfEscaped | core/engine/pattern.go:120-137 | Decoding takes percent-encoding back, whichever bytes are encoded. |
| RoutePatterns.UnescapesIff | core/engine/pattern.go:120-137 | Text decodes exactly if two hexadecimal digits follow every percent sign. |
| RoutePatterns.SegmentRoundTrips | core/engine/pattern.go:43-85 | Every static segment, parameter and wildcard can be written in a path and compiles to itself. |
| RoutePatterns.JoinOfSplit | core/engine/pattern.go:113-118 | Joining takes splitting at slashes back, on every text. |
| RoutePatterns.SplitOfJoin | core/engine/pattern.go:113-118 | Splitting takes joining back exactly where no part has a slash in it. |
| RoutePatterns.ComparePatternSpecificity | core/engine/pattern.go:190-210 | The comparison is the lexicographic order of ranks in which a longer list beats its prefix. |
| RouteShapes.WithinIsBelow | core/engine/pattern.go:143-188 | One pattern's requests are among another's exactly when its segments are, place by place. |
| RouteShapes.Refuted | core/engine/pattern.go:143-188 | Otherwise a concrete request tells the two apart. |
| RouteShapes.BelowBothWays | core/engine/pattern.go:30-93 | Two patterns accept the same requests exactly when they differ in parameter names only. |
| RouteShapes.ShapeKeyIsShape | core/engine/pattern.go:30-93 | Equal shape keys mean equal shapes, unless a NUL in a static segment is followed by text that reads like the next part. |
| RouteShapes.ShapeKeyIsMeaning | core/engine/pattern.go:30-93 | Under the same condition, equal shape keys hold exactly when two patterns accept the same requests. |
| RouteShapes.NulCollides | core/engine/pattern.go:30-93 | A decoded NUL in a static segment can make two patterns without a common request share a key. |
| RouteShapes.LongerIsMarked | core/engine/pattern.go:87-92 | Where two patterns share a key but not their first part, the longer part has such a NUL. |
| RouteShapes.IdentifiedIff | core/engine/pattern.go:30-93 | Exactly the patterns of parameters with a last segment that cannot be read as two have a key that no other shape has. |
| RouteShapes.SubsetOutranks | core/engine/pattern.go:190-210 | A pattern with a proper subset of another's requests outranks it, except exactly when the other is it plus a final wildcard. |
| RouteRegistry.NormalizeMethods | core/engine/registry.go:274-297 | Method lists are accepted exactly when valid, and canonical afterwards. |
| RouteRegistry.TrimSpaceIs | core/engine/registry.go:280-282 | Trimming takes spaces off both ends and nothing else, and all of them. |
| RouteRegistry.UpperIs | core/engine/registry.go:280-282 | Upper-casing tells two methods apart by anything but the case of their letters. |
| RouteRegistry.IntersectIsOverlap | core/engine/registry.go:301-329 | Two method lists intersect exactly when some request method is served by both. |
| RouteRegistry.ValidateEndpoint | core/engine/registry.go:191-272 | A declaration is prepared exactly when it is valid. |
| RouteRegistry.ValidateAll | core/engine/registry.go:105-156 | All declarations are prepared exactly when all are valid and their names differ. |
| RouteRegistry.CountConflicts | core/engine/registry.go:128-148 | A declaration conflicts exactly when some earlier route has its shape and a common method. |
| RouteRegistry.BuildRoutes | core/engine/registry.go:105-156 | The routes are the declarations in order, and there is no conflict exactly when no two clash. |
| RouteRegistry.NewRegistry | core/engine/registry.go:105-156 | A registry builds from exactly the buildable declarations; conflicts are reported exactly when everything else is in order. |
| RouteRegistry.ConflictFreeIsNoClash | core/engine/registry.go:105-156 | Checking each declaration against those before it finds every clashing pair. |
| RouteRegistry.RouteOrigin | core/engine/registry.go:105-156 | Every route comes from one declaration and is numbered by its place. |
| RouteRegistry.RouteExists | core/engine/registry.go:105-156 | Every declaration that is not server-only has a route. |
| RouteMatching.DecodeRequestPath | core/engine/pattern.go:120-137 | The decoded segments of the path before the query, or nothing if one does not decode. |
| RouteMatching.PathRoundTrips | core/engine/pattern.go:120-137 | Any segments a request can have, encoded and written as a path with or without a query, decode to themselves. |
| RouteMatching.TrailingSlash | core/engine/pattern.go:143-153 | Where trailing slashes are skipped, one at the end of the request or of the pattern changes neither the match nor the parameters. |
| RouteMatching.StableSortLeads | core/engine/registry.go:435-445 | Sorting puts a most specific candidate first and loses none. |
| RouteMatching.HeadIsBest | core/engine/registry.go:373-450 | The chosen candidate is a most specific declaration serving the request, with its parameters. |
| RouteMatching.EqualRankSameShape | core/engine/pattern.go:190-210 | Two patterns of equal rank that match one request have one shape, with or without trailing slashes. |
| RouteMatching.TieIsClash | core/engine/registry.go:105-156 | Two declarations that tie on a request are a conflict at build time. |
| RouteMatching.NoTies | core/engine/registry.go:435-445 | In a registry without conflicts no two candidates compare equal. |
| RouteMatching.BestIsUnique | core/engine/registry.go:373-450 | So the best declaration is unique. |
| RouteMatching.NoCandidate | core/engine/registry.go:399-433 | Without a candidate the allowed methods are exactly those of the routes whose path matches, each once. |
| RouteMatching.MatchRoute | core/engine/registry.go:373-450 | The answer to any request: invalid path, the best match with each parameter bound to its text, the allowed methods, or nothing. |
| RouteMatching.BuildableInAnyOrder | core/engine/registry.go:105-156 | Whether a registry builds does not depend on the order of its declarations. |
| RouteMatching.AnswersAgree | core/engine/registry.go:373-450 | Registries with the same declarations give the same answers. |
| RouteMatching.OrderNeverDecides | core/engine/registry.go:373-450 | Every permutation of the declarations selects the same endpoint and parameters for every request. |
| MapConcurrent.WorkerCount | internal/asyncutil/map.go:148-161 | At least one worker, never more than items, and otherwise the whole part of the setting. |
| MapConcurrent.StepInv | internal/asyncutil/map.go:63-136 | Every atomic step of any worker, the caller or the context keeps the invariant. |
| MapConcurrent.ExecInv | internal/asyncutil/map.go:40-136 | So every schedule does. |
| MapConcurrent.ResultIsRight | internal/asyncutil/map.go:117-136 | On every schedule a result without error is the mapper's on every item in order, and an error is the first recorded, from the mapper or the cancellation. |
| MapConcurrent.ClaimedOnce | internal/asyncutil/map.go:84-111 | Every index handed out was claimed once and is worked on by at most one worker. |
| MapConcurrent.NothingAfterStop | internal/asyncutil/map.go:73-92 | After a stop nothing is claimed and the first error stays. |
| MapConcurrent.SendsNeverBlock | internal/asyncutil/map.go:70-111 | No channel send of a worker ever blocks. |
| MapConcurrent.RunsAreFinite | internal/asyncutil/map.go:84-136 | Every schedule is bounded by three steps per item and worker and two more. |
| MapConcurrent.NeverStuck | internal/asyncutil/map.go:84-136 | Until the caller has returned and all workers are gone, some worker or the caller can step. |
| MapConcurrent.MapConcurrent | internal/asyncutil/map.go:40-136 | The whole call under any scheduler: no items, no mapper, cancelled before, every result right, or an error that the mapper or the cancellation gave. |
| FallbackJoin.QueryFallbackJoin | storage/factory.go:1108-1147 | One base row gets the first rows of its key up to the limit, decoded in order, or the first decoding error. |
| FallbackJoin.PerRowGives | storage/factory.go:1108-1147 | A null key joins nothing, a one-to-one plan the first row of the key, a one-to-many plan exactly its first rows up to the limit, each decoded. |
| FallbackJoin.DecodedIs | storage/factory.go:1108-1147 | Rows decode one by one in order, and the error is that of the first that fails. |
| FallbackJoin.Group | storage/factory.go:1196-1204 | Decoded rows grouped by key, each group in row order. |
| FallbackJoin.GroupedIsMatching | storage/factory.go:1196-1204 | The group of a key is what decoding that key's rows gives. |
| FallbackJoin.AttachFallbackJoinsMany | storage/factory.go:1149-1221 | Every base row gets its group in place, or an error leaves all rows as they were. |
| FallbackJoin.MatchingCount | storage/factory.go:1180-1195 | A query for several keys finds as many rows as the queries for each together. |
| FallbackJoin.FetchesAll | storage/factory.go:1186-1195 | Within the limit the one query fetches every row it asks for. |
| FallbackJoin.BatchIsPerRow | storage/factory.go:1108-1221 | Within the limit the batch joins exactly what single queries would, and fails exactly when one of them would. |
| FallbackJoin.UniqueIsWithinLimit | storage/factory.go:1009-1018 | Over a unique key a one-to-one plan stays within its limit by itself. |
| FallbackJoin.AgreeIff | storage/factory.go:1149-1221 | Where the batch succeeds, it agrees with the single queries of a one-to-many plan on every key if and only if no key exceeds the limit or every key fills it exactly within the rows fetched. |
| FallbackJoin.OneToOneAgreeIff | storage/factory.go:1149-1221 | Where the batch succeeds, it agrees with the single queries of a one-to-one plan on every key if and only if it fetches a row for every key that has one. |
| FallbackJoin.OneToOneStarves | storage/factory.go:1149-1221 | With two rows for one key a one-to-one batch leaves the next key without its row. |
| Queries.GroupWhere | storage/query.go:90-105 | Clauses group into and and or, in order, exactly when all are well formed. |
| Queries.GroupsPartition | storage/query.go:90-105 | Grouping loses no clause and doubles none, and each is in the group of its connector. |
| Queries.GroupedIs | storage/query.go:90-105 | A grouping driver selects a row exactly if every clause not joined by OR holds and, if there are any, some clause that is. |
| Queries.LeftToRightIs | storage/memory/query.go:14-37 | A left-to-right driver selects a row exactly if the first clause and every clause not joined by OR hold, or one joined by OR and every such clause behind it. |
| Queries.GateSelects | storage/memory/query.go:14-39 | Appending `AND id = x` selects exactly the matching rows with that id, for grouping and left-to-right drivers alike. |
| ConsumeOne.GateDeletes | storage/factory.go:532-575 | The gated delete takes the row found and nothing else, if it is still there and still matches. |
| ConsumeOne.StepInv | storage/factory.go:532-575 | Every step of any caller and any outside change of the table keeps the invariant. |
| ConsumeOne.ExecInv | storage/factory.go:532-575 | So every interleaving does. |
| ConsumeOne.SingleUse | storage/factory.go:532-575 | In every interleaving each row goes to at most one caller, was deleted for it, and there are as many winners as rows deleted. |
| ConsumeOne.WinnerMatches | storage/factory.go:532-575 | In every interleaving a row that is returned is one its caller asked for. |
| ConsumeOne.ConsumesAlone | storage/factory.go:532-575 | In any reachable state an undisturbed caller gets a row if there is one to get, and just that row is gone. |
| Transactions.Scope.CloseAndRunHooks | internal/txscope/scope.go:70-85 | The scope closes and its hooks run, the first ones up to the first failure (`RanIsPrefix`). |
| Transactions.RunAfterHooks | core/database_hooks.go:514-559 | Database after-hooks run, the first ones up to the first failure (`RanIsPrefix`). |
| Transactions.RanIsPrefix | internal/txscope/scope.go:70-85 | What runs is a prefix of the hooks; all but its last succeed, that one fails if any are left, and the error is its error. |
| Transactions.StopIsUnique | core/database_hooks.go:236-282 | There is only one such prefix. |
| Transactions.HooksRunInOrder | core/database_hooks.go:236-282 | The log and the error of any tree of nested calls, hook by hook: the after-hooks of all depths behind the commit in order up to the first that fails, none behind a rollback, the scope's hooks last and likewise. |
| Transactions.BoundHooksRun | core/transaction_context.go:36-54 | Hooks queued under a bound adapter run when its callback is over, up to the first failure, which the caller gets; the surrounding queues are not touched. |
| Transactions.WriteRunsHooks | core/database_hooks.go:514-559 | A write outside a transaction runs its after-hooks at once up to the first failure; inside one it leaves them for the commit. |
| Transactions.Run | core/transaction_context.go:104-144 | A callback's log, queues and error are what the program says, at any nesting. |
| Transactions.RunOne | core/transaction_context.go:36-144 | The same for one action: a write, a hook, a nested call or a rebound adapter. |
| Transactions.RunTransaction | core/database_hooks.go:236-282 | A base transaction with its own queue and scope, to commit or rollback and the hooks after it. |
| Transactions.ExecIsFlat | core/transaction_context.go:104-144 | Inside a transaction any tree of nested calls only writes and queues, like the same actions without nesting. |
| Transactions.OneTransaction | core/transaction_context.go:104-144 | The tree opens one base transaction; its writes come first, then commit and the after-hooks of all depths in order up to a failure, or rollback and none of them. |
| Transactions.HooksWaitForCommit | core/database_hooks.go:236-282 | Event by event: one opening, after-hooks only behind the commit, none if the outermost transaction fails. |
| Transactions.RebindingOpensAgain | core/transaction_context.go:36-57 | Rebinding the root adapter inside a transaction hides it, and a nested call opens a second one. |
| VerificationIdentifiers.ProcessVerificationIdentifier | core/verification_identifier.go:54-76 | The stored form under the rule of the first fitting override, and whether it is plain. |
| VerificationIdentifiers.RuleIsFirst | core/verification_identifier.go:54-63 | The first override whose prefix the identifier has decides, and the default where none has. |
| VerificationIdentifiers.FormsAre | core/verification_identifier.go:78-87 | The forms looked for are the stored form first and the identifier itself, each once, and no other. |
| VerificationConsume.ReturnedOnce | core/password_routes.go:386-454 | Over all runs a stored row is returned by at most one consume and is gone. |
| VerificationConsume.OneSuccessIff | core/password_routes.go:386-454 | In every interleaving there is a create between two successes under a form, if and only if all identifiers that look under it share one lock. |
| VerificationConsume.OneSuccessPerCreate | core/password_routes.go:386-454 | Under plain identifiers that is so for every form. |
| VerificationConsume.ConsumesAlone | core/password_routes.go:386-454 | An undisturbed consume takes the latest row of the first form that has any, leaves exactly the rows of other forms, and returns the row exactly if it has not expired. |
| VerificationConsume.FindsNothingAlone | core/password_routes.go:386-454 | An undisturbed consume that finds no row under any form returns nothing and leaves all rows. |
| VerificationConsume.ReturnedIsLive | core/password_routes.go:386-454 | In every interleaving what a consume returns was created under a form it looked for and had not expired when the consume ended. |
| VerificationConsume.OtherFormSurvives | core/password_routes.go:399-436 | With a row under each form of an identifier two consumes in a row succeed, the second with the other form. |
| VerificationConsume.StepAlternates | core/password_routes.go:386-454 | Every step keeps that rows of an identifier are newer than its last success, unless that success still sweeps. |
| VerificationSecondary.Store.ConsumeSecondaryVerification | core/secondary_storage.go:724-759 | One form is got and deleted; an expired value is deleted but not returned. |
| VerificationSecondary.Store.ConsumeSecondaryVerifications | core/verification_identifier.go:89-112 | The first live form is returned and no form of the identifier is left. |
| VerificationSecondary.StepInv | core/secondary_storage.go:724-759 | Every step keeps that a value somebody got is about to be deleted by just that consumer. |
| VerificationSecondary.ReturnedOnce | core/secondary_storage.go:724-759 | Over all runs a stored value is returned by at most one consume, with an atomic backend as with in-process locks. |
| VerificationSecondary.FirstLiveIs | core/verification_identifier.go:89-112 | What is returned is the live value of the first form that has one, and nothing exactly if none has. |
| VerificationSecondary.ReturnedIsLive | core/secondary_storage.go:724-759 | In every interleaving what a consume returns was put under a form it looked for and had not expired when it was judged. |
| VerificationReserve.StepInv | core/internal_adapter.go:405-479 | While a win stands the reservation is there and nobody is about to set it. |
| VerificationReserve.FirstWriterWins | core/internal_adapter.go:405-479 | In every interleaving at most one call wins between two removals, by primary key as under the lock. |
| VerificationReserve.WinnersAreWins | core/internal_adapter.go:405-479 | Exactly as many calls return true as there are wins. |
| VerificationReserve.ReservesAlone | core/internal_adapter.go:405-479 | An undisturbed call wins exactly if nothing is reserved, and leaves it reserved if the backend keeps it. |
| VerificationReserve.RefusedForCause | core/internal_adapter.go:405-479 | In every interleaving nobody is refused before somebody has won or the value was placed otherwise. |
| Headers.Collection.Delete | core/contract/headers.go:99-109 | Exactly the lines of that name go, whatever their case. |
| Headers.Collection.Set | core/contract/headers.go:90-97 | The lines of that name are replaced by one at the end. |
| Headers.Collection.MergeResponse | core/contract/headers.go:115-140 | The loop equals dropping the overlaid names from the left and appending the right. |
| Headers.MergeAssociative | core/contract/headers.go:115-140 | Merging is associative. |
| Headers.MergeIdentity | core/contract/headers.go:115-140 | Nothing is neutral on both sides. |
| Headers.CookiesMerge | core/contract/headers.go:115-140 | The cookies of a merge are those of the left and then those of the right. |
| Headers.ValuesMerge | core/contract/headers.go:115-140 | Any other header has all values of the right if it has any, else those of the left. |
| Pipeline.Context.RemoveResponseHeaderValues | core/engine/types.go:434-464 | The named values go from what is pending and from the response hooks see. |
| Pipeline.Context.Filter | core/engine/types.go:434-464 | Exactly the lines with that name and one of the values go. |
| Pipeline.RunBeforeHooks | core/engine/dispatcher.go:536-568 | Before hooks in order up to the first that stops, its response over what was pending. |
| Pipeline.RunAfterHooks | core/engine/dispatcher.go:600-684 | After hooks in order, each response preserving the headers before it (`PreservedValues`), up to an error that escapes. |
| Pipeline.RunEndpointPipeline | core/engine/dispatcher.go:530-684 | The whole pipeline's headers and the context it leaves; which cookies and values those are is `CookiesAreConcatenated` and `LastStageDecides`. |
| Pipeline.CookiesAreConcatenated | core/engine/dispatcher.go:530-684 | Over any hooks that take no cookie back, the Set-Cookie lines are exactly what every stage contributed, in order. |
| PipelineHeaders.PreservedValues | core/engine/dispatcher.go:803-818 | A response that replaces another keeps its ordinary headers, but for those that are pending or that it brings itself. |
| PipelineHeaders.LastStageDecides | core/engine/dispatcher.go:530-684 | Over any hooks that remove nothing of that name, an ordinary header has exactly the values of the last stage to bring it; setting replaces what is pending, adding adds to it, a response or an error replaces both. |
| Pipeline.ScrubCookies | core/engine/types.go:434-464 | Removing cookie values takes exactly those lines and leaves the others in order. |
| Pipeline.ScrubbedIsGone | core/engine/dispatcher.go:600-684 | A cookie an after hook removes is gone from the final response and from what stays pending, whoever set it, whatever the hook returns and whichever hooks follow, unless one brings it back. |
| Pipeline.RemovalHeeded | core/engine/dispatcher.go:600-684 | A cookie removed from the context but still in the local response leaves the final response exactly if the pipeline gets to a hook that matches. |
| Pipeline.MatcherRemoval | core/engine/dispatcher.go:602-629 | So a removal by a matcher is lost exactly if neither that hook nor a later one the pipeline gets to matches. |
| Schemas.ResolveModel | storage/schema.go:304-323 | A model the name can resolve to under the map's order, or none if there is none. |
| Schemas.ResolveField | storage/schema.go:327-344 | The same for fields, with the two names of the identifier. |
| Schemas.ValidateFields | storage/schema.go:265-281 | A model's fields have a fault exactly when they are not valid, and the fault reported is theirs. |
| Schemas.ValidateModels | storage/schema.go:248-282 | The same for all models and their tables. |
| Schemas.ValidateReferences | storage/schema.go:283-298 | The same for the references of one model. |
| Schemas.Validate | storage/schema.go:247-300 | Validation accepts exactly the valid schemas in every map order, and reports a fault that is there. |
| Schemas.ModelIsUnique | storage/schema.go:304-323 | In a valid schema no map order changes which model a name resolves to. |
| Schemas.FieldIsUnique | storage/schema.go:327-344 | The same for fields, exactly for every name but the empty one, or if at most one field keeps its own name. |
| Schemas.ColumnsAreDistinct | storage/schema.go:247-300 | No two fields of a valid model share a column, exactly when none is declared as `_id`. |
| Schemas.TableResolvesBack | storage/schema.go:304-323 | The table of a model resolves to it alone, unless another model has that name. |
| Schemas.ConfiguredNameResolves | storage/schema.go:302-323 | The configured name resolves to its model exactly when it is not one in s under plurals. |
| Schemas.ColumnResolvesBack | storage/schema.go:325-344 | The column of a field resolves to it exactly when it has no other field's name. |
| FieldCodecs.FieldRoundTrips | storage/factory.go:1303-1444 | A well-typed value that formats and parses back comes through a plain field unchanged, for all capabilities. |
| FieldCodecs.JsonRoundTrips | storage/factory.go:1335-1400 | A JSON field returns every JSON value exactly unless it is a string and the backend lacks JSON. |
| FieldCodecs.NullRoundTrips | storage/factory.go:1303-1322 | Null is stored and read as null. |
| FieldCodecs.StoredIsSupported | storage/factory.go:1335-1400 | A backend is never given a kind of value it cannot hold, and what it can hold it is given unchanged. |
| FieldCodecs.BooleansAreBits | storage/factory.go:1335-1444 | Without booleans true is one and false zero, and every other number reads as false. |
| FieldCodecs.TextualDate | storage/factory.go:1303-1310 | A date given as text that parses is stored as that date. |
| FieldCodecs.SomeCodecKeeps | storage/factory.go:1303-1444 | What is asked of a codec can be met: for any values there is one that keeps them all. |
| Records.FieldNames | storage/factory.go:772-778 | The identifier and every declared field, sorted. |
| Records.TransformRecordInput | storage/factory.go:763-838 | The record written, field by field in order: supplied value, default or fresh value, encoding, column; or the first error. |
| Records.TransformRecordOutput | storage/factory.go:840-906 | The record read, field by field in order, restricted to the selection; or the first error. |
| Records.ColumnHolds | storage/factory.go:763-838 | Every column holds what its own field wrote and nothing else writes it. |
| Records.WrittenIsRead | storage/factory.go:763-906 | Every supplied well-typed plain field is read back under its own name, for all capabilities; references to identifiers as text. |
| Records.UnwrittenIsNull | storage/factory.go:763-906 | A plain field that nothing supplies reads as null. |
| Records.OmittedTextIsNull | storage/factory.go:1592-1602 | A text field left out reads as null exactly when the name of its column is not supplied either. |
| Records.IdIsKept | storage/factory.go:785-794 | An update or an allowed create keeps the given identifier, any other create writes none. |
| Records.WriteThenReadSucceeds | storage/factory.go:763-906 | A record whose values are of their kinds and format and parse back is written and read without an error. |
| RecordLaws.ReadIsDecoded | storage/factory.go:763-906 | What is read of any field is the decoding of what was written for it. |
| RecordLaws.DefaultIsRead | storage/factory.go:763-838 | A field that is wanting reads as its default after a create and as its fresh value after an update. |
| RecordLaws.NullIsRead | storage/factory.go:763-838 | A supplied null stays null where no value is required, whatever the default. |
| RecordLaws.FailingDefault | storage/factory.go:763-838 | A default or fresh value that fails, fails the record. |
| RecordLaws.GeneratedIdIsRead | storage/factory.go:785-794 | A create that may not set the identifier reads back the generated one, whatever it was given. |
| RecordLaws.TransformSeesNull | storage/factory.go:1303-1322 | A transform of a field that is left out sees null; what it makes null is not written, and its error is the record's. |
| RecordLaws.ReferencesAreText | storage/factory.go:880-890 | A reference to an identifier reads as text, any other value as itself. |
| RecordLaws.InputErrsIff | storage/factory.go:763-838 | Writing fails exactly if some field fails. |
| RecordLaws.FirstError | storage/factory.go:763-838 | The error is that of the first field that fails. |
| RecordLaws.SelectionRestricts | storage/factory.go:840-906 | A selection reads, of the fields selected, what reading everything does, no other field, and fails only where that fails. |
| Globs.WildcardMatch | core/security.go:337-358 | A sample matches exactly when the direct glob matcher accepts it up to separators at its end. |
| Globs.WildcardExpression | internal/coreurl/url.go:476-497 | The host compiler's loop yields the expression of the pattern, escapes included. |
| Globs.MatchIsGlob | core/security.go:337-358 | The language of the expression is that of the direct matcher and separators behind it. |
| Globs.HostMatchIsGlob | internal/coreurl/url.go:476-497 | The host expression matches exactly what a direct matcher of host patterns does, up to separators at the end. |
| Globs.BackslashDiffers | internal/coreurl/url.go:476-497 | With a backslash in the pattern the two compilers disagree on a sample. |
| Globs.DoubleDiffers | internal/coreurl/url.go:476-497 | With a double star in the pattern they disagree on a sample. |
| Globs.CompilersAgree | internal/coreurl/url.go:476-497 | The two compilers match the same samples exactly for patterns without a backslash and without a double star. |
| Identifiers.RandomStringFromAlphabet | core/id.go:25-53 | The symbols of the first accepted bytes, if whole blocks hold enough of them; else the error of the case. |
| Identifiers.GenerateDefaultID | storage/id_field.go:212-232 | The same with blocks one byte shorter. |
| Identifiers.PrefixDecides | core/id.go:25-53 | Once enough bytes are accepted the rest of the stream changes nothing. |
| Identifiers.AfterIsIdentifier | core/id.go:36-51 | Byte by byte, the loop has the symbols of what it accepted, up to the size. |
| Identifiers.AcceptedIs | core/id.go:36-51 | Wherever it is in the stream, a byte is accepted exactly if it is below the ceiling. |
| Identifiers.SymbolAt | core/id.go:36-51 | Each accepted byte stands for the symbol at its remainder. |
| Identifiers.GeneratorsAgree | storage/id_field.go:212-232 | On one stream both generators give the same identifier despite their blocks. |
| Identifiers.Unbiased | core/id.go:35-45 | For every alphabet of 2 to 256 symbols each has exactly the same number of accepted bytes. |
| Words.SplitWords | internal/stringutil/string.go:67-120 | The nested loops end on every input and yield its words. |
| Words.WordsAreKept | internal/stringutil/string.go:67-120 | The words put together are exactly the letters and digits of the input in order, and none is empty. |
| Words.SplitIsChopped | internal/stringutil/string.go:67-120 | Where a word ends is decided by the two characters at the place and the one behind, nothing else. |
| Words.ToSnakeCase | internal/stringutil/string.go:22-29 | The lower-case words joined with underscores. |
| Words.SplitOfJoin | internal/stringutil/string.go:67-120 | Splitting takes joining back on every list of words that splitting gives. |
| Words.CasingIsIdempotent | internal/stringutil/string.go:22-38 | Casing twice is casing once where all capitals have a lower case, or none has. |
| Words.IdempotentIff | internal/stringutil/string.go:22-38 | On all strings, exactly there. |
| Words.BareCapital | internal/stringutil/string.go:22-29 | A capital without a lower case behind one that has it breaks this. |
| Words.SnakeCaseIsIdempotent | internal/stringutil/string.go:22-29 | Over ASCII snake case is idempotent. |

## Left out

- Clocks tick in whole milliseconds; time stands still during one operation and never goes back.
- Failures of the key-value store or the database, and the JSON form of what is cached: every call succeeds and every stored record decodes, except a payload without its user.
- Except in `SessionRaces`, the theorems on sessions are about operations that follow one another. There, updates, changes of user records and deletions overlap with everything; what overlapping does to the lists is not stated.
- Tokens and users name cells of two maps; that the two families of keys never collide in one store is taken for granted.
- SessionStore.Store.CreateSession: the token and the user are those of the stored record; a create hook that changes them, and so parts the index from the record, is not modelled.
- SessionRefresh.GetSession: the branch that answers from the cookie cache is not modelled; the deferred and the disabled refresh are, but not in the theorems on runs.
- SessionRefresh.ShortGapsKeep: between two reads the session's own token and the revocation of its own user are left alone; changes of user records are allowed at the price of a slack of 999 ms.
- RoutePatterns.CompileRoutePattern: percent-decoding works on bytes written as characters, and letters and digits of the Unicode tables are parameters; the texts of errors are not modelled.
- RouteShapes.ShapeKeyIsMeaning: for two patterns with a NUL that reads like the end of a segment nothing is stated; for one of them against all others `IdentifiedIff` is exact.
- RouteRegistry.NormalizeMethods: only the space character is trimmed, and only ASCII letters are upper-cased.
- RouteRegistry.ValidateEndpoint: nil handlers, nil middleware and the metadata flag are not modelled.
- RouteRegistry.NewRegistry: endpoint overrides, plugins and error codes are left out; declarations are those after overrides.
- RouteMatching.MatchRoute: the request method is upper-cased in ASCII only; the registry is given by its declarations, which compile, as building ensures.
- MapConcurrent: the goroutine scheduler is arbitrary, but memory is sequentially consistent, as the mutex makes it; `mapper` is a function of the index. That no more mapper calls run than there are workers holds by construction.
- FallbackJoin.Group: rows are grouped by their key; the source groups by the text of the decoded field, which is taken to be the same.
- FallbackJoin.AttachFallbackJoinsMany: one plan at a time, so rows that an earlier plan has joined before a later one fails are not covered; native joins and the column added to the selection are left out.
- FallbackJoin.AgreeIff: a batch that fails attaches nothing, and when single queries fail alike is stated within the limit only (`BatchIsPerRow`).
- ConsumeOne, Queries: operators other than equality of ids are whatever the driver makes of them; the native consumeOne and the transactional path are left out, and so is incrementOne.
- Transactions.Run: an adapter without transactions, on which the callback runs again, contexts bound by hand and the database's own isolation are left out; a callback is a finite program of writes, hooks and nested calls.
- Transactions.RunOne: the same.
- Transactions.RunTransaction: a callback error that looks like an adapter without transactions is not told apart.
- VerificationConsume, VerificationReserve: expiry is checked when a value is found, and the update of a stored value is left out; a hash is any function.
- Headers.Collection.Delete: names fold in ASCII only; the slices are values, so that a clone never aliases is not stated.
- Headers.Collection.Set: the same.
- Headers.Collection.MergeResponse: the same.
- Pipeline: status, body, tracing and the plugins' response hooks behind the pipeline are left out; a hook is a list of header actions and an outcome.
- Schemas: merging and cloning schemas, migrations and the built-in schema are left out.
- FieldCodecs: JSON and time formatting are functions, of which it is asked only that they keep the values at hand; they are not the code of their packages.
- Records.TransformRecordInput: mapped keys and the adapter's own transforms are not configured, the transforms of single fields are; the value of a default is given, not computed.
- Records.TransformRecordOutput: mapped keys and the adapter's own transforms are not configured; the selection is given in canonical names, and resolving those is `Schemas.ResolveField`.
- Globs: matching itself is the language of the expression; the regexp engine, lower-casing and the trimming of host patterns are left out.
- Identifiers: the source of bytes is a finite stream; other generators, UUIDs and serial identifiers are left out.
- Words: classes and lower case are functions under the law of `CaseLaw`; `SnakeCaseIsIdempotent` takes letters beyond ASCII to be in no word. Camel and Pascal case are left out.
- HTTP transports, cookie signing and chunking, JWT, password hashing, OAuth providers, rate limits, origin checks, endpoint bodies and the typed API are not modelled.
