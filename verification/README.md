# Verified models of howl-go's core

howl-go keeps documents in three interchangeable stores, morphs server markup into a live page,
runs a small reactive graph in the browser, and limits, caches and streams on the way. This
project models the parts of it whose correctness spans several functions or several processes,
and proves what their comments promise. `dafny verify dfyconfig.toml` checks everything.

| component | files |
|---|---|
| One filter grammar, an evaluator and two SQL compilers | `MemFilter`, `Operators`, `Sql`, `Clause`, `Grammar`, `Compiler`, `FilterMeaning`, `FilterTheorems` |
| Document diff, and three engines that apply it | `DeepSet`, `Diff`, `DiffPaths`, `DiffDots`, `DiffLoops`, `Update`, `Merge`, `SqlUpdate`, `LiteTheorems`, `UpdateTheorems` |
| The document service as a concurrent protocol | `Envelope`, `PatchProtocol`, `PatchTheorems`, `PatchOutcomes`, `CacheProtocol`, `CacheTheorems`, `CacheAnswers`, `CacheFreshness`, `Flight` |
| Keyed DOM reconciliation | `Morph`, `MorphTheorems`, `MorphLoop` |
| The signal graph | `SignalGraph`, `SignalTheorems`, `SignalHandlers`, `SignalRuns`, `SignalLoop` |
| The LRU and the token bucket | `Lru`, `LruStore`, `Recency`, `TokenBucket`, `Limiter` |
| Codecs | `PackBits`, `EventStream`, `Sse`, `Uuid`, `UuidClock` |
| Shared values and laws | `Wrappers`, `Sequences`, `Strings`, `JsonValue` |

**How the models are built.** Code that computes is a function. Code that works step by step is a
method with its loops, or a class with the source's fields, and its contract ties the new state to
a function whose properties are then proved as lemmas. Code that several goroutines or processes
run is a transition system: one atomic step for each section under a mutex, each backend statement,
each counter access and each channel operation, in any interleaving.

- A document is `Json`, with object members as a map, so equality is semantic. A dotted path is
  split as `strings.Split` does it.
- A compiled filter is a syntax tree with parameter references. Its evaluator is Kleene's
  three-valued logic over rows that keep a stored JSON null and an absent key apart. In SQLite an
  object or array is the text the row keeps for it, key order included; that text, and the text of
  an encoded operand, are arbitrary functions, so nothing is assumed of the order. What jsonb,
  SQLite's affinities, `json_patch` (RFC 7386, section 2), `json_set`, `json_remove` and
  `jsonb_set` do is written out as functions.
- In the write protocol one document is edited by any number of patches with retries, soft deletes,
  restores, bulk writes and a hard delete; a backend may refuse a write. A write that lands applies
  deep-sets, which is what memdb and Postgres store; `SqliteExact` says when SQLite stores the same. In the cache protocol any number of processes use any
  number of stores, and a key is the pair of counters and the question; a read hits, leads or joins
  a flight, goes uncached, or, for each id of a batch, loads and stores late without a flight.
- A DOM node is a value with an identity; a node on its way out is one that carries `data-leaving`.
- An effect is any deterministic program of reads, peeks and writes. A handler, the body of a Batch
  and a scope's cleanup are such programs outside any effect, with batches nested inside.

**Where the code and its documentation part.** Each of these is a lemma below.

- `db/sqlite/backend.go:396-440` says merging gives the deep-set of the paths. `diff` also emits
  whole objects (a new object, or one that lost a member), and on those RFC 7386 keeps the dropped
  member and drops null members. `SqliteExact` and `DiffThroughEngines` say exactly when SQLite is
  right; `MergeKeepsDroppedMember` and `MergeDropsNullMember` show it wrong for every diff of those
  two shapes that it accepts. A null set below a stored scalar is lost too, unless a value is merged beside it, and
  a row without a version gets a null one.
- `setExpr` of both SQL backends refuses a path with a segment that is no identifier, so a patch that
  changes a key such as a hyphenated name or a UUID is stored by memdb and fails in SQL
  (`HyphenIsRefused`). Postgres also fails on a segment spelled `null` in any case, which is NULL
  inside the array literal, and on a removal through a stored array by a name that is no index.
  `PostgresApplies`, `SqliteExact` and `DiffThroughEngines` have these refusals in their conditions.
- `diff` joins keys with dots and the backends split at dots. `DiffExact` says what that costs: the
  patch is right, in every order of the loops, if and only if no changed path and no dropped name
  has a dot inside a key.
- `db/cache.go:56-59` and `db/service.go:1056-1061` say a failed bump still retires the writing
  process's own keys. When two processes share an adapter and both fall back, their local counters
  meet and the second one reads the first one's stale entry (`FallbackCountersMeet`). The promise
  holds in every run if and only if no two processes share a store (`OwnFallbackExact`).
- A soft delete that commits under a patch is kept by the patch if and only if the stored meta has
  `deleted_at` and no foreign member (`DeleteSurvivesExact`).
- The filter backends agree on well-typed filters (`SelectionsAgree`). They differ on `$exists` of
  `id` (`ExistsOnId`), on whole-object comparison (`CompositeEquality`), where SQLite also looks at
  key order (`CompositeKeyOrder`), on null and mixed types under an ordering operator
  (`OrderingExact`, `NullBelowNumber`) and, in SQLite, on booleans against numbers and objects
  against strings (`EqualityExact`, `TrueIsOne`, `ObjectAboveText`).
- A keyed match in `morph` does not compare tags, so the page shows the markup if and only if every
  pair matched by key has one tag (`WalkShows`).
- A frame carries its event if and only if its data has no carriage return, its name and id are
  single lines, and its id has no NUL (`StreamRoundTrip`).

## Model

| member | source | states |
|---|---|---|
| MemFilter.Evaluate | db/memdb/filter.go:12-46 | the evaluator's loops, with their early returns and the `$or` hit flag, decide exactly the meaning of the filter: every key holds, `$and` of all branches, `$or` of some branch and never of none, an unknown `$` key never |
| MemFilter.EvaluateField | db/memdb/filter.go:88-100 | a condition holds when every operator holds, or when the value equals it whole |
| MemFilter.Find | db/memdb/filter.go:176-189 | the moving node finds the value at the dotted path, or reports it absent |
| Operators.NumbersCompare | db/memdb/filter.go:191-224 | between numbers the six comparison operators are those of the real line |
| Operators.StringsCompare | db/memdb/filter.go:191-224 | between strings they follow byte order, of whose three cases exactly one holds |
| Operators.BooleansCompare | db/memdb/filter.go:191-224 | false is below true |
| Operators.KindsApart | db/memdb/filter.go:191-224 | values of two kinds, and stored objects and arrays, are never equal and never ordered |
| Operators.NullRule | db/filter.go:38-41 | null equals a stored null and an absent key alike, and orders with nothing |
| Operators.AbsentRule | db/filter.go:43-45 | an absent key differs from every other value and is never ordered |
| Operators.ListRule | db/memdb/filter.go:108-121 | `$in` is some `$eq` and `$nin` is none of them, a value that is no list included |
| Operators.ExistsRule | db/memdb/filter.go:140-142 | `$exists` true asks for the key, a stored null included; anything else asks for its absence |
| Operators.FieldRule | db/memdb/filter.go:88-100 | a path holding a value is `$eq` at the path split at dots, and one operator is that operator |
| Operators.BranchRule | db/memdb/filter.go:12-46 | `$and` is every branch and `$or` some branch |
| Operators.KeysRule | db/memdb/filter.go:12-46 | the keys of a filter are and-ed |
| Sql.AllTrue | db/pg/compile.go:312 | an AND of clauses is true in three-valued logic exactly when each is |
| Sql.AnyTrue | db/pg/compile.go:292-300 | an OR of clauses is true in three-valued logic exactly when some one is |
| Sql.InMeaning | db/pg/compile.go:236-268 | IN over a value list is true, false or unknown as its comparisons say |
| Clause.BindNumber | db/sqlite/compile.go:100-106 | reading the placeholders back recovers the operand each was pushed for: `$k` by number from any start, the k-th `?` left to right, through any nesting and any list, inside any longer parameter list |
| Grammar.CompilesExact | db/filter.go:25-37 | at every depth, in both dialects and whatever is promoted: a filter compiles if and only if it is in the grammar (the eleven operators, identifier segments or id, a list for `$in` and `$nin`, in SQLite of scalars, lists of filters under `$and` and `$or`, no other `$` key), and an error names what is not in it |
| Grammar.OperatorExact | db/pg/compile.go:168-210 | one operator compiles if and only if it is one of the nine with an operand it takes |
| Compiler.Compiler.Push | db/pg/compile.go:81-84 | pushing appends one parameter and returns the reference that names it, counted from the start offset |
| Compiler.Compiler.PushValue | db/pg/compile.go:115-124 | a value is bound raw for a column and encoded for a document path |
| Compiler.Compiler.CompileEquality | db/sqlite/compile.go:152-171 | equality with null, with a composite and with a scalar emits the specified clause and parameters |
| Compiler.Compiler.BindMembers | db/sqlite/compile.go:210-234 | membership binds the non-null operands in order, notes whether null was among them, and refuses a composite in SQLite |
| Compiler.Compiler.CompileMembership | db/pg/compile.go:217-268 | `$in` and `$nin` with empty, null-bearing and plain lists emit the specified clause |
| Compiler.Compiler.CompileOperator | db/pg/compile.go:168-210 | every operator emits the specified clause and parameters, and is refused if and only if it is not in the grammar or its operand is none it takes |
| Compiler.Compiler.CompileField | db/pg/compile.go:137-166 | a field's operators, in key order, or its equality |
| Compiler.Compiler.CompileBranches | db/pg/compile.go:278-300 | the branches of `$and` and `$or` compile left to right into one parameter list, and the first error wins |
| Compiler.Compiler.CompileKeys | db/pg/compile.go:274-312 | the keys of a filter compile in sorted order into one conjunction |
| Compiler.Compiler.Compile | db/pg/compile.go:270-313 | a whole filter, at any nesting, emits its specified clause with parameters in order of emission, and is refused if and only if it is not in the grammar |
| Compiler.CompileWhere | db/pg/compile.go:318-325 | the statement's clause and its parameters, numbered from any start offset, for exactly the filters of the grammar |
| FilterMeaning.CompiledAgrees | db/memdb/filter.go:12-161 | compiler correctness: for every filter that compiles and every document it fits, the clause is TRUE under three-valued logic if and only if the evaluator accepts the document, in either dialect, on promoted and unpromoted paths |
| FilterMeaning.MembershipAgrees | db/memdb/filter.go:108-121 | the same for `$in` and `$nin`, with absent keys, stored nulls and null operands |
| FilterMeaning.OperatorAgrees | db/memdb/filter.go:102-145 | the same for one operator |
| FilterTheorems.StatementSelects | db/pg/backend.go:352-370 | for every filter of the grammar: after the SET clause's parameters and before any later ones, the bound statement selects exactly the documents the evaluator accepts |
| FilterTheorems.TypedFits | db/memdb/filter.go:191-224 | one typing condition, the same for both dialects, is enough for every operator at every depth |
| FilterTheorems.SameKindIsTyped | db/memdb/filter.go:191-224 | any comparison on an absent key or on a value of the operand's kind is well typed |
| FilterTheorems.SelectionsAgree | db/memdb/filter.go:9-11 | every well-typed filter of the grammar compiles in both dialects, and Postgres, SQLite and memdb select the same set of documents |
| FilterTheorems.OrderingExact | db/memdb/filter.go:122-141 | on a document path an ordering operator agrees with the evaluator if and only if the stored value is absent, compares with the operand, meets a null on either side in SQLite, or is put by the dialect on the side the operator refuses: by type in jsonb; in SQLite numbers below text, booleans as 0 and 1, an object or array as its text |
| FilterTheorems.EqualityExact | db/sqlite/compile.go:152-171 | on a document path equality with a scalar agrees if and only if the dialect tells the two values apart; for a stored object or array in SQLite, if and only if its text is not the operand |
| FilterTheorems.ExistsOnId | db/pg/compile.go:196-206 | `$exists` on id always disagrees, because storage strips the id from the document |
| FilterTheorems.CompositeEquality | db/memdb/filter.go:191-224 | a composite operand never matches in the evaluator; Postgres compares the documents, SQLite the stored text with the operand's encoding |
| FilterTheorems.CompositeKeyOrder | db/sqlite/compile.go:155-167 | for texts that can be read back, SQLite finds the operand if and only if the row keeps that document in the encoder's own key order |
| FilterTheorems.NullBelowNumber | db/memdb/filter.go:191-224 | a stored null below 5: jsonb selects it, the evaluator does not |
| FilterTheorems.TrueIsOne | db/sqlite/compile.go:152-171 | a stored true against 1: SQLite selects it, the evaluator does not |
| FilterTheorems.ObjectAboveText | db/sqlite/compile.go:189-190 | a stored object above a string: SQLite selects it, the evaluator does not |
| DeepSet.SetsCommute | db/memdb/memdb.go:211-221 | deep-sets at paths that are not prefixes of one another commute, missing and non-object parents included |
| DeepSet.OrderIrrelevant | db/memdb/memdb.go:199-201 | with prefix-free paths every order of application leaves one document |
| DeepSet.LookupUnset | db/memdb/memdb.go:223-232 | after a removal nothing is found at its path or below |
| Diff.ChangesApply | db/json.go:92-115 | the sets emitted for an object, applied to any node that agrees on those keys, leave the new values at every nesting level |
| Diff.ChangesFree | db/json.go:92-115 | the emitted paths are pairwise prefix-free |
| Diff.ExpectedMeans | db/json.go:50-90 | key by key: every key of the new document but id and version, no declared key it has not, and every orphan as it was |
| DiffPaths.DiffApplies | db/json.go:50-90 | when no changed path and no dropped name has a dot inside a key, applying diff in any order yields the new document for every key but id and version, removes exactly the declared top-level keys that are gone, and leaves every undeclared key |
| DiffPaths.DiffSetFree | db/json.go:63-90 | as dotted strings too the set paths are distinct and prefix-free |
| DiffPaths.RemovalsApart | db/json.go:84-88 | no removal overlaps a set |
| DiffDots.DiffExact | db/json.go:50-115 | for every two documents, every map the loops may fill and every order of application: the stored document becomes the expected one if and only if no emitted path and no removed name has a dot inside a key |
| DiffDots.SpotMissed | db/json.go:99-114 | no write lands at, above or below the dotted key nearest the root |
| DiffDots.LostSpot | db/json.go:50-115 | whenever a changed or dropped key has a dot there is a place beside every path set and removed where the stored document is not the expected one |
| DiffDots.WritesOnlyChanges | db/json.go:92-115 | every set carries the new value to a place that had another, a whole object only where there was none or one that lost a key, and a patch that changed nothing sets nothing |
| DiffDots.DottedKeyIsLost | db/json.go:99-114 | the smallest loss: one changed key with a dot is written under another key |
| DiffLoops.DiffTop | db/json.go:63-82 | the top-level loop, over the map in any order, fills its map with every emitted path and one of its values; without dots in the changed keys, exactly the specified map |
| DiffLoops.DiffObject | db/json.go:92-115 | the recursive loop adds exactly the specified entries, or rewrites the object whole when it lost a key |
| DiffLoops.DiffRemovals | db/json.go:84-88 | the removals are each declared key that is gone, once |
| DiffLoops.ComputeDiff | db/json.go:50-90 | diff as a whole, for any keys, with its error for what is not an object |
| Update.MemBackend.Insert | db/memdb/memdb.go:39-49 | stores the document under its id, or refuses what is not an object |
| Update.MemBackend.ApplyTo | db/memdb/memdb.go:198-209 | the sets in the map's own order, then the removals, then the bump |
| Update.MemBackend.UpdatePaths | db/memdb/memdb.go:108-122 | succeeds exactly when the document is there and the lock holds, changes that document alone, and changes nothing otherwise |
| Update.MemBackend.UpdatePathsWhere | db/memdb/memdb.go:124-136 | every match changes, nothing else does, and the count is the number of matches |
| Update.ApplyOrder | db/memdb/memdb.go:199-201 | the random order of the range does not show |
| Update.LockIsVersion | db/memdb/memdb.go:108-122 | the lock on a whole version holds if and only if none is asked for or it is the very one |
| Merge.JsonSetExact | db/sqlite/backend.go:420-426 | `json_set` is the deep-set if and only if no parent on the path is a stored non-object |
| Merge.AbsorbsExact | db/sqlite/backend.go:386-391 | an RFC 7386 merge stores a value as it is if and only if the value is not an object, or drops no stored member and holds no null |
| Merge.MergeLookup | db/sqlite/backend.go:399-418 | what a merge leaves at a path is the merge of what was there with the value set |
| Merge.MergeBlocked | db/sqlite/backend.go:386-391 | a stored non-object on a path still blocks it after a merge if and only if the patch does not reach into that parent |
| Merge.MergeMisses | db/sqlite/backend.go:399-418 | a merge leaves every stored value beside the paths its document holds |
| SqlUpdate.HowlDeepSetIsSet | db/pg/backend.go:51-70 | the recursive plpgsql deep-set is memdb's |
| SqlUpdate.PgSetExpr | db/pg/backend.go:375-405 | it succeeds if and only if every segment is an identifier; the expression chains one deep-set a path in key order, each `$k` naming the parameter pushed for its path after those already bound |
| SqlUpdate.PgExprMeans | db/pg/backend.go:375-405 | evaluated with its parameters inside a longer list, the expression is the sets, the removals and the bump of the old version, or it fails: a segment that is NULL in an array literal, a removal through an array, a version that is not whole |
| SqlUpdate.PostgresApplies | db/pg/backend.go:375-405 | for every row and every prefix-free update that spares the version, Postgres stores exactly what memdb's loop leaves in any order, bump included, when every segment is an identifier and the statement runs, and fails otherwise |
| SqlUpdate.NestPaths | db/sqlite/backend.go:443-461 | nesting the sorted paths one by one builds the merge document, a path below an encoded value taking its place |
| SqlUpdate.NestedIsSets | db/sqlite/backend.go:399-418 | for pairwise incomparable paths that document is the paths set into an empty one |
| SqlUpdate.LiteSetExpr | db/sqlite/backend.go:396-440 | it succeeds if and only if every segment is an identifier; one merge parameter for the non-null paths, then a null set for each null path, the removals and the bump |
| SqlUpdate.LiteExprMeans | db/sqlite/backend.go:396-440 | evaluated, that expression is the merge, the null sets, the removals and the bump of the old version, whenever its segments are accepted |
| SqlUpdate.MergeExact | db/sqlite/backend.go:399-418 | the merge is the chain of deep-sets if and only if every value is absorbed |
| LiteTheorems.SqliteExact | db/sqlite/backend.go:396-440 | SQLite stores memdb's document if and only if every segment is an identifier, every value written is absorbed by what was stored at its path, every null path below a stored non-object has a value merged into that parent, and a version is stored to count from |
| LiteTheorems.SqliteScalars | db/sqlite/backend.go:386-391 | whenever no set value is an object and no null path is blocked, it stores memdb's document if every segment is an identifier and fails otherwise |
| UpdateTheorems.DiffWellFormed | db/json.go:50-90 | what a dot-free diff emits is prefix-free, spares the version, and has object parents in the stored document |
| UpdateTheorems.DiffThroughEngines | db/json.go:50-90 | for every two documents, every map diff may fill and every order: memdb leaves the patched document if and only if no emitted segment has a dot; Postgres if and only if every one is an identifier other than NULL and the stored version is whole; SQLite if and only if every one is an identifier and every value written is absorbed |
| UpdateTheorems.HyphenIsRefused | db/sqlite/backend.go:443-461 | the smallest refusal: diff sets the key `x-y`, memdb writes it, and both SQL backends store nothing |
| UpdateTheorems.MergeKeepsDroppedMember | db/json.go:93-97 | for every patch that drops a member of a nested object, diff writes the object whole, and SQLite, which takes the patch if and only if its segments are identifiers, stores the member still |
| UpdateTheorems.MergeDropsNullMember | db/sqlite/backend.go:386-391 | for every patch that adds an object with a null member, SQLite stores the object without it, or refuses a segment |
| Envelope.PatchKeepsMarks | db/service.go:529-555 | with the six envelope keys in meta, whatever the caller's keys, as long as no dotted one splits into the envelope: patching a document soft-deleted since its read gives the patched snapshot under the delete's marks |
| Envelope.DotFreeIsSafe | db/json.go:50-90 | a patch that touches no dotted key never splits into the envelope |
| Envelope.DeleteSurvivesExact | db/service.go:613-618 | for every document, with a version or without: a soft delete between a patch's read and write survives a dot-free patch if and only if meta stores deleted_at and no foreign member |
| PatchTheorems.LockMeansUnchanged | db/memdb/memdb.go:115-119 | when the version check passes, the row is the snapshot, soft deletes aside |
| PatchTheorems.PatchLands | db/service.go:547-555 | what a landed patch leaves is its diff on the snapshot under the marks the row had gained, one version on; that is the stamped edit if and only if no changed or dropped key has a dot |
| PatchTheorems.RunInv | db/service.go:507-573 | the invariant of every run: a serial log, the version, what each thread holds and has committed |
| PatchTheorems.PatchesSerialize | db/service.go:507-573 | over every interleaving the committed writes form one serial history from the created document, version is 1 plus the bumping writes, a returned patch committed once with the document it returned, and a conflict, a refusal, a failed write or a not-found wrote nothing |
| PatchTheorems.PatchesKeepDeletes | db/service.go:529-555 | no patch in any run changes the soft-delete marks it finds |
| PatchOutcomes.PatchCarriesEdit | db/service.go:520-533 | in every run a committed dot-free patch leaves in the row every key of its edit, no declared key it dropped, every undeclared key as it was read, id, created_at and created_by as they were, updated_at and updated_by its own, and the version one on |
| PatchOutcomes.LockExact | db/service.go:544-566 | in every run a patch that read at one moment commits at another if and only if the row is there and no bumping write came between |
| PatchOutcomes.ConflictIsThree | db/service.go:507-573 | a conflict is exactly three tries, none of which committed, and a patch under way has made fewer |
| PatchOutcomes.ReadFinds | db/service.go:502-515 | a read finds the row if and only if it is there and not marked, or the patch asked for deleted ones |
| PatchOutcomes.DeletedIsNotFound | db/service.go:576-578 | from a soft delete until a restore or a bulk write, whatever patches commit, a patch finds no document |
| PatchOutcomes.MarkedMeans | db/service.go:613-618 | a soft delete writes deleted_at and deleted_by and nothing else |
| CacheTheorems.ReadNowIsFresh | db/service.go:990-1008 | a backend read after both counters were read is no older than any write either counter had passed, although the counters are read one after the other |
| CacheTheorems.MissMoves | db/service.go:174-181 | every step of a miss (lead, join, load, late store, publish, follow, give up) keeps entries, flights and results fresh for their key |
| CacheTheorems.LoneMoves | db/service.go:211-262 | so does every step of a batched read's miss, which loads and stores late without a flight, beside whatever flight runs on the same key |
| CacheTheorems.WriteMoves | db/service.go:1047-1062 | commit, bump, failed bump and fallback keep them too |
| CacheTheorems.RunInv | db/service.go:137-262 | in every run each entry, flight and pending answer comes from a backend state no older than its key's floor |
| CacheAnswers.LoadedIsAnswered | db/service.go:174-185 | in every run a read that loaded, leading a flight, alone in a batch or past the cache, answers what the backend said at that moment |
| CacheAnswers.FollowedIsAnswered | db/flight.go:46-53 | and a follower answers what its leader loaded |
| CacheAnswers.NoneHasAReason | db/service.go:160-187 | in every run a read that ends without a value had its own load, fetch or uncached read fail, gave up waiting, or followed a leader whose load had failed |
| CacheAnswers.KeptUntilDropped | db/service.go:174-181 | an entry a read stored stays under its key until the cache drops it |
| CacheFreshness.RunSince | db/service.go:990-1008 | a read that starts at a moment never uses a key older than that moment |
| CacheFreshness.ReadsSeeBumpedWrites | db/cache.go:43-46 | a read, single or batched, that starts after a write's bump succeeded answers from a state that includes the write, in any process on the store, whatever hits, joined flights, late stores and evictions come between |
| CacheFreshness.ReadsSeeOwnFallback | db/cache.go:56-59 | a read in the process that fell back includes the write when no other process on the store has fallen back |
| CacheFreshness.FallbackCountersMeet | db/cache.go:56-59 | in every configuration with two processes on one store there is a run where both fall back and the second reads behind its own write |
| CacheFreshness.OwnFallbackExact | db/cache.go:56-59 | configuration by configuration: in every run a read that starts after its own process fell back sees the write if and only if no two processes share a store |
| Flight.OneLeaderPerKey | db/flight.go:38-64 | at most one registered leader per key in every reachable state |
| Flight.FollowersAgree | db/flight.go:46-53 | every answered follower has the value or error its leader returned |
| Flight.AnswerWasLoaded | db/flight.go:66-76 | what any caller gets, leading or following, is what the load of its call's leader returned |
| Flight.CallsItsKey | db/flight.go:38-64 | from the moment it entered, a caller is on a call for the key it asked for |
| Flight.NothingLeftBehind | db/flight.go:66-71 | when no call is in progress the map is empty |
| Flight.NobodyIsStuck | db/flight.go:46-50 | whatever an open call waits for can take its next step now |
| Flight.RunsAreShort | db/flight.go:35-77 | every run ends within five steps a caller, so no follower waits on a channel that is never closed |
| Morph.WalkShows | core/runtime/app.js:1061-1121 | whatever the old children, the visible children end as the incoming ones in order, attributes and text at every depth, and in tag too if and only if every pair matched by key has one tag |
| Morph.KeysNameTagsAgree | core/runtime/app.js:1078-1093 | equal keys with equal tags among paired siblings are enough for that |
| MorphTheorems.MorphShowsMarkup | core/runtime/app.js:1026-1030 | under that condition the page shows the markup |
| MorphTheorems.KeyedKeepsIdentity | core/runtime/app.js:1023-1093 | over attributes: the first incoming element with a data-key, or with an id where data-key is absent or empty, takes over the first old element with that name that is not leaving, the same object, wherever it stood |
| MorphTheorems.UnnamedReused | core/runtime/app.js:1083-1085 | nodes without data-key and id are reused in place, by tag |
| MorphTheorems.NewRowsEnter | core/runtime/app.js:1086-1089 | a row whose name no old row has comes in as the markup's own node, marked as entering when rows animate |
| MorphTheorems.WalkIds | core/runtime/app.js:1061-1121 | no node is duplicated, counting every depth together |
| MorphTheorems.LeaversUntouched | core/runtime/app.js:1036-1038 | without row animation the nodes on their way out stay untouched and in order, and none is added |
| MorphTheorems.AnimatedElementsStay | core/runtime/app.js:1032-1036 | with row animation no old element vanishes at once |
| MorphLoop.CollectKeys | core/runtime/app.js:1063-1068 | the map holds, for every data-key or id, the first element with it that is not on its way out, and no other key |
| MorphLoop.FindMatch | core/runtime/app.js:1076-1085 | the match by key, or at the cursor by kind, and the key leaves the map |
| MorphLoop.SyncAttributes | core/runtime/app.js:1113-1118 | the two attribute loops leave exactly the markup's attributes |
| MorphLoop.MorphNode | core/runtime/app.js:1108-1121 | one node takes the markup's attributes, text and children and keeps its identity and tag |
| MorphLoop.SweepRest | core/runtime/app.js:1095-1105 | what is left is removed, or marked as leaving, or already leaving |
| MorphLoop.MorphChildren | core/runtime/app.js:1061-1106 | the cursor loop leaves exactly the specified list; unmatched keyed nodes are always at or after the cursor |
| SignalTheorems.ExecKeeps | core/signal/signal.go:191-212 | a run ends with its reads current and its edges two-way, and wakes only effects created later |
| SignalTheorems.FlushSettles | core/signal/signal.go:150-177 | one flush pops effects in strictly increasing id order, hence each at most once, ends, and leaves every live effect up to date |
| SignalTheorems.IncreasingApart | core/signal/signal.go:150-156 | so no effect runs twice in a flush |
| SignalTheorems.ComputedIsCurrent | core/signal/signal.go:322-346 | at quiescence a live computed value equals its function of the current signals, though its dependencies may change from run to run |
| SignalTheorems.PoppedSeesCurrent | core/signal/signal.go:150-153 | when an effect is popped every computed value created before it is already current |
| SignalTheorems.FlushLeaves | core/signal/signal.go:150-153 | nothing that runs later in the flush writes what the effect may read |
| SignalRuns.RunSees | core/signal/signal.go:84-102 | in a run of an effect each read and each peek sees the value the signal has at that moment, its own writes counted, and the signals are left as its writes say |
| SignalRuns.AssignQueues | core/signal/signal.go:108-121 | a write queues exactly the live effects that depend on the signal, and none when nothing changed |
| SignalRuns.FlushCauses | core/signal/signal.go:150-177 | nothing runs without a cause: what a flush pops was queued, or may read what an effect popped before it may write |
| SignalRuns.LooksSee | core/signal/signal.go:84-95 | a handler that looks at a signal is told its value at that moment; inside a batch, or when no effect writes the signal, that is its value at the start changed by the handler's own puts so far |
| SignalRuns.HoldsItsPuts | core/signal/signal.go:105-148 | and at every moment the signal holds that value |
| SignalRuns.LastPutStands | core/signal/signal.go:108-121 | which is the last value put that changed it |
| SignalHandlers.BatchDefers | core/signal/signal.go:133-148 | inside a batch no effect runs: only values change and the queue grows, whatever the body reads, writes or batches |
| SignalHandlers.DisposedIsGone | core/signal/signal.go:271-304 | everything a scope owned is stopped and no signal holds any of it, whatever registered functions ran between and whatever they woke |
| SignalHandlers.LastGoesFirst | core/signal/signal.go:290-304 | the cleanup registered last goes first |
| SignalLoop.Signals.Get | core/signal/signal.go:84-95 | a read subscribes the running computation once, both ways |
| SignalLoop.Signals.Store | core/signal/signal.go:108-121 | a write stores and queues each live reader once, and does nothing when the test says the value is the same |
| SignalLoop.Signals.RunEffect | core/signal/signal.go:191-212 | detach, run as the current computation, restore; nothing for a stopped effect |
| SignalLoop.Signals.Flush | core/signal/signal.go:157-177 | drains the queue to exactly the specified state and order, and does nothing while a batch is open |
| SignalLoop.Signals.Set | core/signal/signal.go:108-123 | a set outside a batch drains; inside one it only queues; an equal one changes nothing |
| SignalLoop.Signals.Perform | core/signal/signal.go:105-148 | a program outside any effect leaves exactly the specified graph, and gets there deed by deed: each look is told the signal's value, each put stores it, and the queue drains whenever no batch is open |
| SignalLoop.Signals.Batch | core/signal/signal.go:137-148 | the body goes deed by deed with nothing drained, whatever it reads, writes or batches inside, and one drain follows at the end of the outermost batch |
| SignalLoop.Signals.Effect | core/signal/signal.go:222-227 | a new id, a first run, and a sound graph |
| SignalLoop.Signals.Stop | core/signal/signal.go:230-240 | a stopped effect has no edges and is never queued again |
| SignalLoop.Signals.Dispose | core/signal/signal.go:290-304 | cleanups, stops and registered functions alike, run from the last to the first |
| Lru.AlwaysWithin | core/cache/cache.go:75-89 | after any history no key is held twice and at most max entries are held |
| Lru.HistoryTells | core/cache/cache.go:59-107 | a held key has the last value set; a key neither deleted nor found expired is missing only after at least max distinct other keys were used since its own last use |
| Lru.RecencyStack | core/cache/cache.go:75-89 | in a history without deletes and expiry a key is held if and only if it was set and fewer than max other keys were used since |
| LruStore.Store.constructor | core/cache/cache.go:39-44 | starts empty, with 1000 for a size that is not positive |
| LruStore.Store.Get | core/cache/cache.go:59-73 | returns the value unless it is missing or expired; a hit moves to the front, an expired entry goes |
| LruStore.Store.Set | core/cache/cache.go:75-89 | the entry is at the front with its new value, and the back gives way |
| LruStore.Store.Shrink | core/cache/cache.go:86-88 | the loop leaves the max most recent entries |
| LruStore.Store.Del | core/cache/cache.go:91-99 | the named keys go and the rest stay in order |
| TokenBucket.Conserved | core/mw/ratelimit.go:217-242 | tokens less what time has earned never grow, and every grant takes one |
| TokenBucket.WindowBound | core/mw/ratelimit.go:205-247 | between two grants at s and t at most burst + rate·(t−s) requests are granted, even when stamps reach the lock out of order |
| TokenBucket.RetryIsExact | core/mw/ratelimit.go:242-244 | a refused caller that waits d, with nobody else taking, is granted if and only if d is at least Retry |
| TokenBucket.RemainingIsExact | core/mw/ratelimit.go:238-241 | exactly Remaining further takes succeed at the same instant |
| TokenBucket.ResetIsExact | core/mw/ratelimit.go:245 | the bucket is full again at Reset and no sooner |
| TokenBucket.OkIsGranted | core/mw/ratelimit.go:238-246 | a take says OK exactly when there is a token, and then pays one, and otherwise none |
| TokenBucket.NewKeyIsGrantedBurst | core/mw/ratelimit.go:205-234 | a key first seen is granted exactly its burst at one instant, or its requests when no burst is set |
| TokenBucket.WindowEarnsRequests | core/mw/ratelimit.go:210 | a window earns exactly the requests of the rate |
| TokenBucket.RateBound | core/mw/ratelimit.go:74-78 | between two grants, those beyond the burst keep to requests per window |
| Limiter.Buckets.FindVictim | core/mw/ratelimit.go:259-266 | the victim is the oldest of the last eight that is not refusing, or the oldest when all of them are |
| Limiter.VictimIsNotRefused | core/mw/ratelimit.go:249-273 | a caller being refused is evicted only when the eight oldest all are, and then the oldest goes |
| Limiter.Buckets.Evict | core/mw/ratelimit.go:256-273 | exactly one victim leaves the list and the index |
| Limiter.Buckets.Take | core/mw/ratelimit.go:205-247 | the key's bucket is charged and moved to the front, a new key starts full after room was made, nothing else changes, and the limiter never holds more than max keys |
| PackBits.DecodeThenTail | core/cmd/howl/package.go:488-492 | the coding delimits itself, whatever follows it |
| PackBits.RunAt | core/cmd/howl/package.go:496-499 | the run's length: it ends at 130 bytes, another byte or the data's end, and is at least three exactly when a run of three starts here |
| PackBits.LiteralEnd | core/cmd/howl/package.go:505-513 | a literal is never empty, at most 128 bytes, and stops short only before a run of three or at the end |
| PackBits.Pack | core/cmd/howl/package.go:493-518 | for every input the code decodes to it, every header is a byte, the length is at most n + ceil(n/128), and one byte repeated takes two bytes for every 130 |
| PackBits.EncodeARGB | core/cmd/howl/package.go:468-486 | behind the ARGB magic the four planes read back as alpha, red, green and blue |
| EventStream.InterpretDeliverable | core/sse/event.go:48-53 | no stream delivers data with a carriage return, or a type or id with a line break |
| Sse.Frame | core/sse/event.go:37-56 | id, event, retry, one data line for each line of data, and the blank line |
| Sse.FrameDelivers | core/sse/event.go:37-56 | field by field, a frame gives a client the data, the name or "message", the id or the last one, and the reconnection time in whole milliseconds |
| Sse.FrameFeeds | core/sse/event.go:37-56 | one frame delivers its event and nothing else, and leaves the parser between frames |
| Sse.StreamRoundTrip | core/sse/event.go:37-56 | reading any concatenation of frames delivers exactly the events written if and only if each can be sent |
| Uuid.LaterTickLaterId | db/uuid.go:23-47 | a later tick gives a later 36-character string, whatever the random bits |
| Uuid.IdsAscend | db/uuid.go:54-72 | for any readings of the clock, ids issued in tick order are strictly increasing as strings while milliseconds stay below 2^48 |
| Uuid.VersionAndVariant | db/uuid.go:32-46 | the version 7 and variant bits of RFC 9562, section 5.7, and the dashes |
| Uuid.LayoutReads | db/uuid.go:23-34 | the fields read back: 48 bits of milliseconds, version, counter, variant, and the random rest |
| Uuid.TickFollowsClock | db/uuid.go:59-72 | a later reading becomes the timestamp with the counter at zero; any other takes the next of 4096 places a millisecond |
| Uuid.StampKeepsUp | db/uuid.go:54-72 | no id is stamped before its reading, nor ahead of every reading by more than the ids issued need |
| UuidClock.Clock.Advance | db/uuid.go:59-72 | a later clock starts a new millisecond, otherwise the counter moves, and past 4095 it borrows the next millisecond |
| UuidClock.Clock.NewID | db/uuid.go:23-47 | the arrays are filled with exactly that layout and form |

## Left out

- SQL text, drivers, DDL, generated columns and schema introspection: a statement is a syntax tree
  with parameters, and each SQL function used is a Dafny function.
- Collation and the order jsonb gives to strings: both are the byte order Go uses. Column names that
  collide after normalisation are not modelled.
- Nested maps changed in place (`set`, `unset`, `nest`) are values here, so aliasing between a stored
  document and a caller's is not captured. The same holds for DOM nodes: a list of nodes with
  identities stands for the child list.
- LiteTheorems.SqliteExact: the stored version is a number, null or absent; SQLite would cast a text
  or a boolean before adding one.
- SqlUpdate.PostgresApplies: the same of the version. Integer overflow of the bump, and values jsonb
  cannot store, such as a NUL character in a string, are not modelled.
- FilterTheorems.OrderingExact: for document paths. On a promoted column agreement is proved from
  `ColumnFits`, one way: what a value of another type does depends on column casts and affinities.
- FilterTheorems.EqualityExact: for document paths, as above.
- PatchTheorems.PatchesSerialize: no dotted key an edit touches splits into id, version or meta, and
  stored meta has the six envelope keys; without them a delete can be undone, as
  `DeleteSurvivesExact` says.
- CacheTheorems.LoneMoves: each id of a batch has its own steps; that one batch reads its counters
  once and its rows in one query is the case where those steps coincide.
- FindMany's sort, skip, limit and projection, `applySet`, `prune`, DropField, UnsetField and reports.
- Sessions and transactions, which never touch the cache, and writes that return an error, which may
  have committed without retiring any key.
- Reflection and struct tags: the declared names are a given set, and encoding and decoding are
  inverse. Defaults and validators are part of the edit, which may refuse.
- `queryDigest` and the formatting of a key are injective. A cache keeps an entry or drops it at any
  time, so time-to-live is covered as a drop.
- A panic in a flight's load, which leaves its followers waiting, and waking order among followers.
- Effects created, stopped or disposed from inside a run, a batch or a cleanup function (an effect
  stopped in its own run can subscribe again), `Untrack` and `Watch`: an untracked read is a peek. `sort.Slice` followed by
  taking the head is taking the lowest.
- `syncProps`, timers, animation frames and the router of the page runtime.
- Rounding of floating-point tokens and of durations to nanoseconds, and the limiter's HTTP headers.
- PNG encoding, icon resizing and the icns container around the coded planes.
- A byte order mark at the start of a stream, and the transport under it.
- Randomness: the random bytes of an id are a parameter.
