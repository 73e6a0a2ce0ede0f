# Verified models of the fastchaindb core

A Dafny model of the parts of the repository whose correctness is hard to see, with proofs of what they
guarantee. `dafny verify dfyconfig.toml` checks everything.

Each file is one module:

- `Options`, `Lists`: an option type, and facts about sequences that several modules use.
- `OptimisticLock`, `VersionGuard`, `LockProtocol`, `LockCalls`: optimistic locking. The interceptor as methods over an
  entity, a parameter map with the wrapper object, and a row; when the condition it appends guards the statement; any
  number of clients as a state machine of reads, updates prepared, statements run and results returned; and the
  interceptor's code as those steps.
- `Bits`, `Sequence` (module `Snowflake`): ids of three shifts and three ors on 64-bit words; the generator object; and
  the monitor sections of its threads, which `wait` splits in the middle of a call.
- `Sql`, `Conditions`, `ConditionParsing`, `ConditionText`: the condition builder with its aliased list and its printing
  loop, a parser for what it prints, the round trip between them, and the same round trip on plain characters.
- `Placeholders`, `Wrapper` (module `FluentWrapper`): sequential placeholder replacement, parameter names, the segment of a wrapper.
- `Templates`, `Injector`, `LogicDelete`, `SoftDelete`: the generated dynamic SQL, an interpreter for its tags, insert
  and set clauses, and soft deletion compared with deletion on tables of rows.
- `Segments`, `Isolation`, `PlainQuery`, `WrapperHistory`, `SegmentText`: generated conditions around a wrapper's segment,
  and the histories of wrapper calls whose queries keep clear of deleted rows, on tokens and on characters.
- `TreeTable`, `TreeView`: flattening a tree into rows, and opening and closing directories by clicks that click in turn.
- `OptionLevels`, `Linkage` (module `LinkageSelect`), `FlatSelect`, `FlatReverse`: the multi-select
  with and without levels.
- `ToFixed`, `Tokenizer`, `Html`: decimal rounding on text, the template tokenizer, escaping.
- `BatchKeys`: keys for batch inserts, drawn from the shared id generator.

Code that changes state is a class or a method with loops, tied by its contract to a function of the old state; the
properties are lemmas about that function and about runs of it. The clock, random numbers, other threads, hardware
addresses, callbacks and the matches of regular expressions are parameters, with no assumption beyond the ones written out.

Some guarantees that the code or its comments suggest hold only under a condition. In each case the model follows the
code and the condition is proved to be exact:

- A failed `update(entity, wrapper)` has already moved the entity version, so a retry can overwrite a foreign commit
  (`RetryOverwritesIff`, `WrapperRetryLosesAnUpdate`); `updateById` does not have this (`UpdateByIdLosesNothing`).
- The version condition goes behind what the caller's wrapper holds, so a plain OR in the last group, an OR_NEW or a
  leading OR bypasses it: such an update overwrites any row that meets the other conditions (`HistoryGuardIff`,
  `OpenWrapperOverwrites`, `OrLosesAnUpdate`).
- A batched `updateById` moves the entity version whether or not the row matches (`BatchedUpdateById`).
- int and long versions wrap around, and a version of another type never changes (`ExecuteSucceedsIff`).
- Ids stop increasing outside 2^41 ms around the epoch (`PastTheRange`, `BeforeTheRange`).
- A connective before the first WHERE is lost, and neighbouring or dangling connectives print what no parser reads (`RoundTrip`).
- A parameter alias that contains a later placeholder breaks substitution (`UnsafeAliasRewrites`).
- A wrapper query on a soft-delete table can match deleted rows after a leading OR or an OR_NEW (`DeletedRowsSafeIff`,
  and `HistorySafeIff` on the calls made).
- A soft delete counts rows that were deleted before (`DeleteCounts`), and an update that sets a logic column to
  another value hides rows (`UpdateRefinesIff`, and `UpdateRefinesIffUnmarked` on the assignments).
- The indentation stops short at an ancestor whose id counts as false, such as 0 (`IndentIsDepthIff`).
- Clicking a hidden directory would show rows below a closed one (`ClickKeepsIff`); the user interface offers no such click.
- In radio mode a refused click on a leaf clears the marks but not the selection (`LinkageSelect.ClickKeepsIff`,
  `RefusedClickLosesMarks`).
- Reversing a flat selection twice below a maximum or in radio mode can change it (`ReverseTwiceIff`, `ReverseTwiceRadioIff`).
- A key that is a blank text counts as missing and is replaced (`PopulateKeys`).
- Decoding gives back only texts without entities, since existing entities are not escaped (`RoundTripIff`).


## Model

| member | source | states |
|---|---|---|
| `OptimisticLock.InterceptUpdateById` | fastchaindb/fastchaindb-cert/src/main/java/com/baomidou/mybatisplus/plugins/OptimisticLockerInterceptor.java:124-171 | updateById through the interceptor, in full: with a version, the row changes exactly when it still carries it; only then does the entity get the stored version; without one, the row is overwritten unchecked; on a batch executor the entity moves on when the statement is queued, because the constant returned is not 0 |
| `OptimisticLock.BatchedUpdateById` | fastchaindb/fastchaindb-cert/src/main/java/com/baomidou/mybatisplus/service/impl/ServiceImpl.java:358-376 | a batched updateById and its flush: the row changes exactly when it has the version, the entity has moved on either way |
| `OptimisticLock.InterceptUpdate` | fastchaindb/fastchaindb-cert/src/main/java/com/baomidou/mybatisplus/plugins/OptimisticLockerInterceptor.java:108-123 | update(entity, wrapper): the version condition goes behind whatever the EntityWrapper holds (made up if there is none), the entity version moves before the statement runs and stays moved; the row changes as the parsed condition says, and a row that changes had the version if the wrapper keeps it |
| `VersionGuard.GuardIff` | fastchaindb/fastchaindb-cert/src/main/java/com/baomidou/mybatisplus/MybatisAbstractSQL.java:199-229 | a condition appended to groups is implied by the whole, whatever the other conditions are worth, exactly when the segment starts with AND or nothing stands before it, there is no OR_NEW, and no plain OR stands in the last group |
| `VersionGuard.GuardedMeans` | fastchaindb/fastchaindb-cert/src/main/java/com/baomidou/mybatisplus/MybatisAbstractSQL.java:74-95 | what a caller checks of the connectives: no OR_NEW, and an AND_NEW somewhere after every plain OR |
| `VersionGuard.QueryGuardIff` | fastchaindb/fastchaindb-cert/src/main/java/com/baomidou/mybatisplus/plugins/OptimisticLockerInterceptor.java:116-119 | the condition that the interceptor appends to a wrapper guards the statement exactly then; a text that describes no groups is refused |
| `VersionGuard.HistoryGuardIff` | fastchaindb/fastchaindb-cert/src/main/java/com/baomidou/mybatisplus/plugins/OptimisticLockerInterceptor.java:116-119 | the same over every history of calls on the wrapper: no or and no orNew with a condition on a wrapper that rendered to nothing, unless nothing stands before the segment; no OR_NEW after the first WHERE; and no plain OR after it since the last AND_NEW |
| `VersionGuard.OrOpensTheGuard` | fastchaindb/fastchaindb-cert/src/main/java/com/baomidou/mybatisplus/mapper/Wrapper.java:276-281 | eq(a), or(), eq(b) and then the version: everything that a holds of is matched, at any version |
| `OptimisticLock.KeptVersionIsMatched` | fastchaindb/fastchaindb-cert/src/main/java/com/baomidou/mybatisplus/plugins/OptimisticLockerInterceptor.java:108-123 | a statement prepared from a wrapper that guards, or from a made-up one, matches no row of another version |
| `OptimisticLock.MadeUpSelects` | fastchaindb/fastchaindb-cert/src/main/java/com/baomidou/mybatisplus/plugins/OptimisticLockerInterceptor.java:111-115 | with a made-up wrapper it matches exactly the rows with the version |
| `OptimisticLock.OpenSelectsAny` | fastchaindb/fastchaindb-cert/src/main/java/com/baomidou/mybatisplus/plugins/OptimisticLockerInterceptor.java:116-119 | with a wrapper that does not guard, it matches every row that meets the conditions before the last connective, whatever its version |
| `OptimisticLock.ReusedWrapperSelects` | fastchaindb/fastchaindb-cert/src/main/java/com/baomidou/mybatisplus/plugins/OptimisticLockerInterceptor.java:116-121 | a wrapper that has been given two different versions, among any number of earlier ones, selects no row if it guards, and every row that meets the conditions before its last connective if it does not |
| `OptimisticLock.UpdateTwice` | fastchaindb/fastchaindb-cert/src/main/java/com/baomidou/mybatisplus/plugins/OptimisticLockerInterceptor.java:108-123 | two intercepted updates of one entity with one wrapper: the second one matches nothing if the wrapper guards its conditions, and overwrites what meets the conditions before the last connective if not |
| `PlainQuery.SqlWhereEntityWrapper` | fastchaindb/fastchaindb-cert/src/main/java/com/baomidou/mybatisplus/mapper/AutoSqlInjector.java:546-569 | the loop builds the template of the wrapper condition of a table without logic columns |
| `PlainQuery.PlainStatement` | fastchaindb/fastchaindb-cert/src/main/java/com/baomidou/mybatisplus/mapper/AutoSqlInjector.java:546-569 | that template evaluates to the condition the interceptor is modelled with: the comparisons of the wrapper entity, the segment inside or behind WHERE, one connective in front dropped |
| `PlainQuery.LogicStatement` | fastchaindb/fastchaindb-cert/src/main/java/com/baomidou/mybatisplus/mapper/LogicSqlInjector.java:252-282 | so does the one of a table with logic columns, whose comparisons stand before the segment as well |
| `OptimisticLock.SameVersionIff` | fastchaindb/fastchaindb-cert/src/main/java/com/baomidou/mybatisplus/plugins/OptimisticLockerInterceptor.java:180-200 | two commits leave the same int or long version exactly when they are a whole number of wrap-arounds apart |
| `LockProtocol.VersionCountsCommits` | fastchaindb/fastchaindb-cert/src/main/java/com/baomidou/mybatisplus/plugins/OptimisticLockerInterceptor.java:108-171 | over every run of any number of clients whose wrappers keep the version: the stored version is the initial one moved on once per successful update, and two successful updates match the same version exactly when they are a multiple of a wrap-around apart |
| `LockProtocol.ExecuteSucceedsIff` | fastchaindb/fastchaindb-cert/src/main/java/com/baomidou/mybatisplus/mapper/AutoSqlInjector.java:356-368 | the compare-and-set of an honest client succeeds exactly when the commits since its read are a multiple of the wrap-around and its wrapper selects the row at the version demanded; by updateById, and with a made-up wrapper, exactly the former |
| `LockProtocol.TimelySucceedsIff` | fastchaindb/fastchaindb-cert/src/main/java/com/baomidou/mybatisplus/mapper/AutoSqlInjector.java:356-368 | within a wrap-around, it succeeds only when nobody has committed since the read; by updateById, and with a made-up wrapper, exactly then |
| `LockProtocol.NoLostUpdate` | fastchaindb/fastchaindb-cert/src/main/java/com/baomidou/mybatisplus/plugins/OptimisticLockerInterceptor.java:66-139 | over every interleaving of clients that read again after a failed wrapper update, use wrappers that keep the version and do not sit on a read for a wrap-around, the stored data is the edits of all successful updates applied in commit order |
| `LockProtocol.UpdateByIdLosesNothing` | fastchaindb/fastchaindb-cert/src/main/java/com/baomidou/mybatisplus/plugins/OptimisticLockerInterceptor.java:124-171 | clients that only use updateById need no discipline but the wrap-around one |
| `LockProtocol.WrapperUpdateStaysHonestIff` | fastchaindb/fastchaindb-cert/src/main/java/com/baomidou/mybatisplus/plugins/OptimisticLockerInterceptor.java:108-123 | after update(entity, wrapper) the entity version still belongs to its data exactly when the statement matched, and that only when the row was current; the version has moved either way |
| `LockProtocol.RetryOverwritesIff` | fastchaindb/fastchaindb-cert/src/main/java/com/baomidou/mybatisplus/plugins/OptimisticLockerInterceptor.java:108-123 | retrying such a failed update without reading again overwrites a foreign commit exactly when the row is one commit further than first assumed and the retry selects it |
| `LockProtocol.WrapperRetryLosesAnUpdate` | fastchaindb/fastchaindb-cert/src/main/java/com/baomidou/mybatisplus/plugins/OptimisticLockerInterceptor.java:108-123 | a concrete run in which an update is lost that way |
| `LockProtocol.OpenWrapperOverwrites` | fastchaindb/fastchaindb-cert/src/main/java/com/baomidou/mybatisplus/plugins/OptimisticLockerInterceptor.java:116-119 | an update through a wrapper that does not keep the version commits over every row that meets its conditions before the last connective, however old the read, and sets the version back |
| `LockProtocol.OrLosesAnUpdate` | fastchaindb/fastchaindb-cert/src/main/java/com/baomidou/mybatisplus/plugins/OptimisticLockerInterceptor.java:116-119 | a concrete run in which eq, or and eq lose an update at the first attempt, and the version no longer counts the updates |
| `LockProtocol.WholeCall` | fastchaindb/fastchaindb-cert/src/main/java/com/baomidou/mybatisplus/plugins/OptimisticLockerInterceptor.java:66-171 | a whole call by either route as three steps of the protocol: what it does to the row, the log, its client and nobody else |
| `LockCalls.Prepare` | fastchaindb/fastchaindb-cert/src/main/java/com/baomidou/mybatisplus/plugins/OptimisticLockerInterceptor.java:108-171 | what the interceptor does on objects before the statement is the protocol step Begin |
| `LockCalls.Proceed` | fastchaindb/fastchaindb-cert/src/main/java/com/baomidou/mybatisplus/plugins/OptimisticLockerInterceptor.java:126 | running the statement is the step Execute |
| `LockCalls.Return` | fastchaindb/fastchaindb-cert/src/main/java/com/baomidou/mybatisplus/plugins/OptimisticLockerInterceptor.java:127-133 | what it does after the statement is the step Finish; other clients may step between the three |
| `LockCalls.InterceptedCall` | fastchaindb/fastchaindb-cert/src/main/java/com/baomidou/mybatisplus/plugins/OptimisticLockerInterceptor.java:66-171 | an uninterrupted call leaves the objects exactly as the three steps leave client and row |
| `Snowflake.Sequence.Create` | fastchaindb/fastchaindb-cert/src/main/java/com/baomidou/mybatisplus/toolkit/Sequence.java:70-80 | the public constructor succeeds exactly for ids 0..31 |
| `Snowflake.DeriveWorkerId` | fastchaindb/fastchaindb-cert/src/main/java/com/baomidou/mybatisplus/toolkit/Sequence.java:87-101 | the derived worker id lies in 0..31 for every hash |
| `Snowflake.DerivedWorkerIdIsLowBits` | fastchaindb/fastchaindb-cert/src/main/java/com/baomidou/mybatisplus/toolkit/Sequence.java:100 | it is the hash modulo 32, for negative hashes too: the 16-bit mask changes nothing |
| `Snowflake.DeriveDatacenterId` | fastchaindb/fastchaindb-cert/src/main/java/com/baomidou/mybatisplus/toolkit/Sequence.java:108-126 | the derived datacenter id lies in 0..31 for every hardware address, missing, short or signed |
| `Snowflake.Unpack` | fastchaindb/fastchaindb-cert/src/main/java/com/baomidou/mybatisplus/toolkit/Sequence.java:166-169 | packing is invertible for every timestamp: sequence, worker and datacenter come back exactly, the timestamp modulo 2^42 ms |
| `Snowflake.GeneratorsNeverCollide` | fastchaindb/fastchaindb-cert/src/main/java/com/baomidou/mybatisplus/toolkit/Sequence.java:166-169 | generators with different (datacenter, worker) pairs never issue the same id, whatever their clocks |
| `Snowflake.PackIsMonotone` | fastchaindb/fastchaindb-cert/src/main/java/com/baomidou/mybatisplus/toolkit/Sequence.java:166-169 | within 2^41 ms around the epoch, ids order exactly as (timestamp, sequence) pairs |
| `Snowflake.PastTheRange` | fastchaindb/fastchaindb-cert/src/main/java/com/baomidou/mybatisplus/toolkit/Sequence.java:166-169 | one millisecond past the end of that range every id is smaller than every id before |
| `Snowflake.BeforeTheRange` | fastchaindb/fastchaindb-cert/src/main/java/com/baomidou/mybatisplus/toolkit/Sequence.java:166-169 | one millisecond before its beginning every id is larger than every id up to the last millisecond of the range, whose ids repeat it: with PastTheRange, the range cannot be widened at either end |
| `Snowflake.Sequence.NextId` | fastchaindb/fastchaindb-cert/src/main/java/com/baomidou/mybatisplus/toolkit/Sequence.java:133-170 | one call without interference: the id is packed from the new fields, which are later than the old ones; a call that throws leaves them as they were |
| `Snowflake.SectionKeeps` | fastchaindb/fastchaindb-cert/src/main/java/com/baomidou/mybatisplus/toolkit/Sequence.java:152-169 | a section past the clock check issues the id of the state it leaves, later than the state it found, the busy loop and the mask included |
| `Snowflake.StepKeepsOrder` | fastchaindb/fastchaindb-cert/src/main/java/com/baomidou/mybatisplus/toolkit/Sequence.java:133-170 | each monitor section of each thread keeps the issued ids strictly increasing; a section that issues nothing writes nothing |
| `Snowflake.FreshGeneratorIsOrdered` | fastchaindb/fastchaindb-cert/src/main/java/com/baomidou/mybatisplus/toolkit/Sequence.java:54-59 | a new generator satisfies what those runs start from |
| `Snowflake.IdsStrictlyIncrease` | fastchaindb/fastchaindb-cert/src/main/java/com/baomidou/mybatisplus/toolkit/Sequence.java:133-178 | over every interleaving of threads, although wait releases the monitor in mid-call, and every clock within the range, backwards included, ids are strictly increasing in issue order |
| `Conditions.SqlBuilder.Call` | fastchaindb/fastchaindb-cert/src/main/java/com/baomidou/mybatisplus/MybatisAbstractSQL.java:57-116 | each builder call changes exactly the list it names or the list that lastList is an alias of at that moment |
| `Conditions.SqlBuilder.SqlClause` | fastchaindb/fastchaindb-cert/src/main/java/com/baomidou/mybatisplus/MybatisAbstractSQL.java:199-229 | the printing loop appends exactly the chunks of the clause, its variable last and the skipped nests included |
| `Conditions.SqlBuilder.BuildSql` | fastchaindb/fastchaindb-cert/src/main/java/com/baomidou/mybatisplus/MybatisAbstractSQL.java:254-264 | the clauses are printed in order, a newline only between printed ones |
| `ConditionParsing.ReplayCollects` | fastchaindb/fastchaindb-cert/src/main/java/com/baomidou/mybatisplus/MybatisAbstractSQL.java:57-95 | over every history, the where list is what was asked for, less the connectives before the first WHERE: they go to a list nobody prints |
| `ConditionParsing.BodyLex` | fastchaindb/fastchaindb-cert/src/main/java/com/baomidou/mybatisplus/MybatisAbstractSQL.java:210-226 | the loop variable last never causes a missing or a doubled connective on lists without nests |
| `ConditionParsing.WellFormedIffMeaning` | fastchaindb/fastchaindb-cert/src/main/java/com/baomidou/mybatisplus/MybatisAbstractSQL.java:199-229 | a caller can check beforehand, on neighbouring parts, whether a list of parts describes groups at all |
| `ConditionParsing.ClauseParse` | fastchaindb/fastchaindb-cert/src/main/java/com/baomidou/mybatisplus/MybatisAbstractSQL.java:199-229 | reading the printed groups back with a recursive-descent parser gives exactly the described groups and connectives, or fails when there are none |
| `ConditionParsing.RoundTrip` | fastchaindb/fastchaindb-cert/src/main/java/com/baomidou/mybatisplus/MybatisAbstractSQL.java:57-95 | printer and parser over every history of WHERE and connective calls: the clause parses exactly when the request is well formed, and then to exactly the requested groups, with AND where nothing was said |
| `ConditionText.ClauseText` | fastchaindb/fastchaindb-cert/src/main/java/com/baomidou/mybatisplus/MybatisAbstractSQL.java:199-229 | the characters of a printed clause alone tell its tokens, for conditions that are units of SQL: closed parentheses and quotes, no connective outside them but the AND of a BETWEEN |
| `ConditionText.TextRoundTrip` | fastchaindb/fastchaindb-cert/src/main/java/com/baomidou/mybatisplus/MybatisAbstractSQL.java:57-229 | the round trip on characters: over every history with such conditions, the text of the clause, read character by character and parsed, gives the requested groups back exactly when the request is well formed |
| `ConditionText.InTextIsUnit` | fastchaindb/fastchaindb-cert/src/main/java/com/baomidou/mybatisplus/mapper/Wrapper.java:1379-1399 | the IN conditions that the wrapper makes are such units |
| `ConditionText.BetweenTextIsUnit` | fastchaindb/fastchaindb-cert/src/main/java/com/baomidou/mybatisplus/mapper/Wrapper.java:1412-1417 | and so are its BETWEEN conditions |
| `ConditionParsing.TopLevelOr` | fastchaindb/fastchaindb-cert/src/main/java/com/baomidou/mybatisplus/MybatisAbstractSQL.java:199-229 | an OR stands between two groups exactly when there was an OR_NEW; a plain OR stays inside its parentheses |
| `Placeholders.SequentialIsSimultaneous` | fastchaindb/fastchaindb-cert/src/main/java/com/baomidou/mybatisplus/mapper/Wrapper.java:1536-1541 | replacing {0}, {1}, ... one after the other is substituting all at once, for every fragment and all tokens in which no placeholder starts |
| `Placeholders.TokenInertIff` | fastchaindb/fastchaindb-cert/src/main/java/com/baomidou/mybatisplus/mapper/Wrapper.java:1538-1539 | a generated token can hide a placeholder only in its brace and alias |
| `Placeholders.SafeAliasSubstitutes` | fastchaindb/fastchaindb-cert/src/main/java/com/baomidou/mybatisplus/mapper/Wrapper.java:1530-1544 | under an alias without a placeholder, every fragment is substituted as if at once, {1} and {10} included |
| `Placeholders.UnsafeAliasRewrites` | fastchaindb/fastchaindb-cert/src/main/java/com/baomidou/mybatisplus/mapper/Wrapper.java:1582-1584 | under any other alias the fragment {0} is not: a later round rewrites the first token |
| `Placeholders.InNamesEveryParameter` | fastchaindb/fastchaindb-cert/src/main/java/com/baomidou/mybatisplus/mapper/Wrapper.java:1379-1399 | an IN list over n values comes out of formatting as n tokens, each parameter once and in order |
| `FluentWrapper.Wrapper.FormatSqlIfNeed` | fastchaindb/fastchaindb-cert/src/main/java/com/baomidou/mybatisplus/mapper/Wrapper.java:1530-1544 | the text, the counter and the map after formatting, for blank and for other texts |
| `FluentWrapper.Wrapper.InExpression` | fastchaindb/fastchaindb-cert/src/main/java/com/baomidou/mybatisplus/mapper/Wrapper.java:1379-1399 | the text of an IN condition, or nothing for a blank column or no values |
| `FluentWrapper.BindIsFresh` | fastchaindb/fastchaindb-cert/src/main/java/com/baomidou/mybatisplus/mapper/Wrapper.java:1537-1540 | the i-th parameter of a call gets a name that no earlier call has used, and every earlier name keeps its value |
| `FluentWrapper.BindKeeps` | fastchaindb/fastchaindb-cert/src/main/java/com/baomidou/mybatisplus/mapper/Wrapper.java:1537-1540 | what the counter has passed bounds the names in the map over the wrapper's life |
| `FluentWrapper.Wrapper.JoinCondition` | fastchaindb/fastchaindb-cert/src/main/java/com/baomidou/mybatisplus/mapper/Wrapper.java:496-580 | a connective with a condition is that and then one WHERE call with the formatted text, its parameters bound to new names |
| `FluentWrapper.Wrapper.Join` | fastchaindb/fastchaindb-cert/src/main/java/com/baomidou/mybatisplus/mapper/Wrapper.java:659-735 | a connective is one builder call; the leading AND turns into OR only for an or or orNew that comes with a condition, on a wrapper that renders to nothing |
| `FluentWrapper.Wrapper.GetSqlSegment` | fastchaindb/fastchaindb-cert/src/main/java/com/baomidou/mybatisplus/mapper/EntityWrapper.java:62-75 | the segment is nothing for an empty text, else the text with its first WHERE replaced unless isWhere is true |
| `FluentWrapper.SegmentReplacesKeyword` | fastchaindb/fastchaindb-cert/src/main/java/com/baomidou/mybatisplus/mapper/EntityWrapper.java:62-75 | the first WHERE of the rendered text is the clause keyword: replacing it changes that keyword and nothing else, whatever the conditions contain |
| `Templates.RunsToElement` | fastchaindb/fastchaindb-cert/src/main/java/com/baomidou/mybatisplus/mapper/AutoSqlInjector.java:221-287 | an element around well-nested pieces is well nested and evaluates to what the tag makes of its content |
| `Templates.TrimSolid` | fastchaindb/fastchaindb-cert/src/main/java/com/baomidou/mybatisplus/mapper/AutoSqlInjector.java:233-234 | trim, white space aside: nothing for blank content, else prefix, content without one trailing override, suffix |
| `Templates.WhereSolid` | fastchaindb/fastchaindb-cert/src/main/java/com/baomidou/mybatisplus/mapper/LogicSqlInjector.java:255-277 | where, white space aside: nothing for blank content, else WHERE and the content without one leading connective |
| `Injector.IfTagPaired` | fastchaindb/fastchaindb-cert/src/main/java/com/baomidou/mybatisplus/mapper/AutoSqlInjector.java:821-867 | the opening and the closing call agree on whether there is an if tag, so the text between is well nested, and shows exactly when the test lets it through |
| `Injector.InjectInsertOne` | fastchaindb/fastchaindb-cert/src/main/java/com/baomidou/mybatisplus/mapper/AutoSqlInjector.java:221-287 | the loop builds the two templates, key handling and fill rules included |
| `Injector.InsertAligned` | fastchaindb/fastchaindb-cert/src/main/java/com/baomidou/mybatisplus/mapper/AutoSqlInjector.java:221-287 | for every table, strategy and entity the evaluated INSERT has as many values as columns, the i-th value from the i-th column's property, commas only between; with none, both lists are absent |
| `Injector.SqlSet` | fastchaindb/fastchaindb-cert/src/main/java/com/baomidou/mybatisplus/mapper/AutoSqlInjector.java:581-616 | the loop builds the SET template |
| `Injector.SetClause` | fastchaindb/fastchaindb-cert/src/main/java/com/baomidou/mybatisplus/mapper/AutoSqlInjector.java:581-616 | for every table and entity it evaluates to exactly the assignments of the fields that take part, in order, or to no SET at all |
| `LogicDelete.GetLogicDeleteSql` | fastchaindb/fastchaindb-cert/src/main/java/com/baomidou/mybatisplus/mapper/LogicSqlInjector.java:177-191 | one comparison with the not-deleted value per logic column |
| `LogicDelete.SqlLogicSet` | fastchaindb/fastchaindb-cert/src/main/java/com/baomidou/mybatisplus/mapper/LogicSqlInjector.java:201-219 | one assignment of the deleted value per logic column, commas between by the counter |
| `LogicDelete.KeyedCondition` | fastchaindb/fastchaindb-cert/src/main/java/com/baomidou/mybatisplus/mapper/AutoSqlInjector.java:412-428 | every by-id condition parses as the key comparison and the further comparisons, all conjoined; an empty batch is an SQL error |
| `SoftDelete.DeletedIsHidden` | fastchaindb/fastchaindb-cert/src/main/java/com/baomidou/mybatisplus/mapper/LogicSqlInjector.java:201-219 | the deleted values hide a row exactly when some logic column has different values for deleted and not deleted |
| `SoftDelete.SelectRefines` | fastchaindb/fastchaindb-cert/src/main/java/com/baomidou/mybatisplus/mapper/LogicSqlInjector.java:116-137 | the logic query returns, of all rows, what the plain query returns of the undeleted ones |
| `SoftDelete.DeleteRefines` | fastchaindb/fastchaindb-cert/src/main/java/com/baomidou/mybatisplus/mapper/LogicSqlInjector.java:45-67 | after a soft delete the visible rows are those left by a real delete of the visible rows |
| `SoftDelete.DeleteCounts` | fastchaindb/fastchaindb-cert/src/main/java/com/baomidou/mybatisplus/mapper/LogicSqlInjector.java:45-67 | the affected counts differ by exactly the matching rows that were deleted before |
| `SoftDelete.UpdateRefinesIff` | fastchaindb/fastchaindb-cert/src/main/java/com/baomidou/mybatisplus/mapper/LogicSqlInjector.java:149-167 | the logic update gives the same result as the plain one, and the same visible rows exactly when it hides none of the rows it touches, custom expressions included |
| `SoftDelete.UpdateRefinesIffUnmarked` | fastchaindb/fastchaindb-cert/src/main/java/com/baomidou/mybatisplus/mapper/AutoSqlInjector.java:581-616 | seen from the assignments: exactly when it touches no row or the last value written to each logic column is the not-deleted one |
| `SoftDelete.LoadedEntityIsHarmless` | fastchaindb/fastchaindb-cert/src/main/java/com/baomidou/mybatisplus/mapper/AutoSqlInjector.java:581-616 | an entity whose logic properties are as loaded from a visible row is written back without hiding a row, in either mode |
| `SoftDelete.StepRefines` | fastchaindb/fastchaindb-cert/src/main/java/com/baomidou/mybatisplus/mapper/LogicSqlInjector.java:45-67 | each single operation refines its plain counterpart on the undeleted rows, an update that leaves the logic columns alone or writes the not-deleted values back included |
| `SoftDelete.SoftDeleteRefinesDelete` | fastchaindb/fastchaindb-cert/src/main/java/com/baomidou/mybatisplus/mapper/LogicSqlInjector.java:116-219 | every run of deletes, selects and updates by id that write no other value to a logic column gives, on the soft-delete table, the results and visible rows of the plain statements on a table of the undeleted rows |
| `Isolation.SqlWhereEntityWrapper` | fastchaindb/fastchaindb-cert/src/main/java/com/baomidou/mybatisplus/mapper/LogicSqlInjector.java:252-282 | the loop builds the template of the wrapper condition |
| `Isolation.WhereReads` | fastchaindb/fastchaindb-cert/src/main/java/com/baomidou/mybatisplus/mapper/LogicSqlInjector.java:252-282 | it evaluates to WHERE and one conjunction of comparisons followed by the wrapper's segment, whichever tags apply |
| `Isolation.NoSegmentIsSafe` | fastchaindb/fastchaindb-cert/src/main/java/com/baomidou/mybatisplus/mapper/LogicSqlInjector.java:252-282 | without conditions in the wrapper no deleted row is matched |
| `Isolation.DeletedRowsSafeIff` | fastchaindb/fastchaindb-cert/src/main/java/com/baomidou/mybatisplus/mapper/LogicSqlInjector.java:252-282 | with conditions, a query parses exactly when its parts are well formed, and then never matches a deleted row, under AND before OR, exactly when the segment starts with AND and holds no OR_NEW between groups |
| `Isolation.OtherClausesAreSafe` | fastchaindb/fastchaindb-cert/src/main/java/com/baomidou/mybatisplus/mapper/LogicSqlInjector.java:252-282 | with other clauses only, the query parses and no deleted row is matched |
| `WrapperHistory.Perform` | fastchaindb/fastchaindb-cert/src/main/java/com/baomidou/mybatisplus/mapper/Wrapper.java:496-735 | a call on a wrapper object is one step of the history: clauses, leading word and parameter counter |
| `WrapperHistory.AndOrTells` | fastchaindb/fastchaindb-cert/src/main/java/com/baomidou/mybatisplus/mapper/Wrapper.java:659-735 | over every history the leading word is OR exactly when an or or orNew came with a condition on a wrapper that rendered to nothing |
| `WrapperHistory.OrNewTells` | fastchaindb/fastchaindb-cert/src/main/java/com/baomidou/mybatisplus/MybatisAbstractSQL.java:57-95 | over every history of builder calls an OR_NEW stands in the list exactly when one came after the first WHERE |
| `WrapperHistory.HistorySafeIff` | fastchaindb/fastchaindb-cert/src/main/java/com/baomidou/mybatisplus/mapper/LogicSqlInjector.java:252-282 | over every history of wrapper calls the query parses exactly when well-formed groups or none are asked for, and then never matches a deleted row exactly when there are none, or no or and no orNew came with a condition on a wrapper that rendered to nothing and no OR_NEW came after the first WHERE |
| `SegmentText.SegmentScan` | fastchaindb/fastchaindb-cert/src/main/java/com/baomidou/mybatisplus/mapper/EntityWrapper.java:62-75 | the characters of the segment, behind the line break of the template, are read as the tokens of the model |
| `SegmentText.TextSafeIff` | fastchaindb/fastchaindb-cert/src/main/java/com/baomidou/mybatisplus/mapper/LogicSqlInjector.java:252-282 | the safety of deleted rows on characters, over every history of conditions that are units and connectives |
| `TreeTable.PathUnique` | fastchaindb/fastchaindb-cert/src/main/resources/static/module/treetable-lay/treetable.js:38-50 | with distinct ids and acyclic parents there is one path from the root to a node |
| `TreeTable.ScanListsEachNodeOnce` | fastchaindb/fastchaindb-cert/src/main/resources/static/module/treetable-lay/treetable.js:38-50 | the rows are exactly the nodes reachable from the root, each once, whatever else is in the data |
| `TreeTable.ScanIsPreorder` | fastchaindb/fastchaindb-cert/src/main/resources/static/module/treetable-lay/treetable.js:38-50 | one row is before another exactly when its path is: a path comes before those it leads on to and those that turn off at a later sibling |
| `TreeTable.Flattener.Sort` | fastchaindb/fastchaindb-cert/src/main/resources/static/module/treetable-lay/treetable.js:38-50 | the recursive sort terminates and appends those rows, marking as parent exactly the nodes with children |
| `TreeTable.GetEmptyNum` | fastchaindb/fastchaindb-cert/src/main/resources/static/module/treetable-lay/treetable.js:100-115 | the recursion terminates and counts the ancestors it finds |
| `TreeTable.IndentIsDepthIff` | fastchaindb/fastchaindb-cert/src/main/resources/static/module/treetable-lay/treetable.js:100-115 | counted over the flattened rows, as line 63 does, the indentation is the depth exactly when no ancestor on the way from the root has an id that counts as false, and never more; the root may be any id, also one with a node of its own |
| `TreeView.View.ToggleRows` | fastchaindb/fastchaindb-cert/src/main/resources/static/module/treetable-lay/treetable.js:116-147 | a click with all the clicks it triggers: closing closes and hides everything below; opening shows the children, or with linkage opens and shows everything below |
| `TreeView.ClickKeepsIff` | fastchaindb/fastchaindb-cert/src/main/resources/static/module/treetable-lay/treetable.js:116-147 | a click keeps "shown exactly when all ancestors are open" and "closed above means closed below" exactly when the row is shown or no directory |
| `TreeView.SweptAll` | fastchaindb/fastchaindb-cert/src/main/resources/static/module/treetable-lay/treetable.js:162-183 | expandAll opens every directory and shows every row, foldAll closes every directory and shows the rows without a parent, though rows are clicked while others change |
| `TreeView.View.Sweep` | fastchaindb/fastchaindb-cert/src/main/resources/static/module/treetable-lay/treetable.js:162-183 | the sweep over the rows has that effect, clicking only shown rows |
| `TreeView.RunKeeps` | fastchaindb/fastchaindb-cert/src/main/resources/static/module/treetable-lay/treetable.js:116-195 | both properties hold after every run of clicks on shown rows, expandings and foldings, with linkage on or off |
| `TreeView.OpenThenClose` | fastchaindb/fastchaindb-cert/src/main/resources/static/module/treetable-lay/treetable.js:116-147 | opening a closed directory and closing it restores the view |
| `TreeView.FlattenedIsWellFormed` | fastchaindb/fastchaindb-cert/src/main/resources/static/module/treetable-lay/treetable.js:38-50 | the flattened rows have what the view relies on: one row an id, parents first, directories exactly where there are children |
| `OptionLevels.Render` | fastchaindb/fastchaindb-cert/src/main/resources/static/module/formSelects/formSelects-v4.js:396-424 | the level loop terminates and renders the levels, in whatever order the object's keys are visited |
| `OptionLevels.PathsAreOptions` | fastchaindb/fastchaindb-cert/src/main/resources/static/module/formSelects/formSelects-v4.js:402-420 | with values distinct per level, the paths through the rendered levels are exactly the paths in the nested options |
| `OptionLevels.LeafPathsAreOptions` | fastchaindb/fastchaindb-cert/src/main/resources/static/module/formSelects/formSelects-v4.js:684-700 | the leaves that can be selected are exactly the options without children |
| `LinkageSelect.Select.PathTo` | fastchaindb/fastchaindb-cert/src/main/resources/static/module/formSelects/formSelects-v4.js:691-701 | going up by parent values and reversing gives the path to the clicked option |
| `LinkageSelect.Select.LinkageDel` | fastchaindb/fastchaindb-cert/src/main/resources/static/module/formSelects/formSelects-v4.js:768-782 | the upward loop unmarks what the counting-free test finds without marked children |
| `LinkageSelect.MarkedChildMeans` | fastchaindb/fastchaindb-cert/src/main/resources/static/module/formSelects/formSelects-v4.js:777 | the test "no marked child" holds exactly when no other selected path passes through the option |
| `LinkageSelect.DelKeepsFaithful` | fastchaindb/fastchaindb-cert/src/main/resources/static/module/formSelects/formSelects-v4.js:768-782 | after a removal the marks are exactly the options on the remaining paths |
| `LinkageSelect.AddKeepsFaithful` | fastchaindb/fastchaindb-cert/src/main/resources/static/module/formSelects/formSelects-v4.js:747-766 | after an addition the marks are exactly the options on the old paths and the new one |
| `LinkageSelect.ClickKeepsIff` | fastchaindb/fastchaindb-cert/src/main/resources/static/module/formSelects/formSelects-v4.js:684-711 | a click keeps marks and selection in step except exactly when, in radio mode with a selection, it is refused: the marks are gone by then |
| `LinkageSelect.Select.ClickLeaf` | fastchaindb/fastchaindb-cert/src/main/resources/static/module/formSelects/formSelects-v4.js:684-711 | a click on a leaf of the rendered levels finds the path to it and does what the click lemmas speak of |
| `LinkageSelect.RefusedClickLosesMarks` | fastchaindb/fastchaindb-cert/src/main/resources/static/module/formSelects/formSelects-v4.js:684-711 | that happens: with a maximum of 1 in radio mode, clicking one leaf and then another leaves the first selected and no option marked |
| `LinkageSelect.RunKeeps` | fastchaindb/fastchaindb-cert/src/main/resources/static/module/formSelects/formSelects-v4.js:668-782 | after every other run of clicks and label removals the marks are the union of the selected root-to-leaf paths, none selected twice, at most one in radio mode, no more than the maximum |
| `LinkageSelect.ClickTwice` | fastchaindb/fastchaindb-cert/src/main/resources/static/module/formSelects/formSelects-v4.js:684-711 | selecting a leaf and clicking it again restores values and marks |
| `FlatSelect.Select.HandlerLabel` | fastchaindb/fastchaindb-cert/src/main/resources/static/module/formSelects/formSelects-v4.js:840-905 | one option added or removed: list and marks, the veto at the maximum and the clearing in radio mode |
| `FlatSelect.SelectAllMarks` | fastchaindb/fastchaindb-cert/src/main/resources/static/module/formSelects/formSelects-v4.js:1041-1056 | selecting all marks what was marked and every option looked at, when there is room |
| `FlatSelect.AddEachAppends` | fastchaindb/fastchaindb-cert/src/main/resources/static/module/formSelects/formSelects-v4.js:1041-1056 | otherwise exactly as many as fit are appended, in the order of the list |
| `FlatSelect.AddEachRadio` | fastchaindb/fastchaindb-cert/src/main/resources/static/module/formSelects/formSelects-v4.js:1041-1056 | in radio mode the last option wins; with a maximum of 1 what is selected stays, or the first option wins |
| `FlatSelect.RemoveAllUnmarks` | fastchaindb/fastchaindb-cert/src/main/resources/static/module/formSelects/formSelects-v4.js:1058-1082 | removing all leaves exactly the marked options that are disabled and to be skipped |
| `FlatSelect.ReverseFlips` | fastchaindb/fastchaindb-cert/src/main/resources/static/module/formSelects/formSelects-v4.js:1084-1099 | reversing flips exactly the options looked at, when there is room for all |
| `FlatSelect.ReverseTwice` | fastchaindb/fastchaindb-cert/src/main/resources/static/module/formSelects/formSelects-v4.js:1084-1099 | reversing twice restores the selection when the maximum is none or covers the options: the plain case of ReverseTwiceIff |
| `FlatSelect.ReverseTwiceNeedsRoom` | fastchaindb/fastchaindb-cert/src/main/resources/static/module/formSelects/formSelects-v4.js:1084-1099 | a concrete selection with a smaller maximum that it changes |
| `FlatReverse.ToggleIsPass` | fastchaindb/fastchaindb-cert/src/main/resources/static/module/formSelects/formSelects-v4.js:1084-1099 | the handler called on one option after the other flips each mark, except that none is set at the maximum |
| `FlatReverse.TwoPasses` | fastchaindb/fastchaindb-cert/src/main/resources/static/module/formSelects/formSelects-v4.js:1084-1099 | two such passes restore the marks exactly when what is marked elsewhere fills the maximum, or each unset mark finds room the first time and each set one the second time |
| `FlatReverse.ReverseTwiceIff` | fastchaindb/fastchaindb-cert/src/main/resources/static/module/formSelects/formSelects-v4.js:1084-1099 | for every maximum and selection within it: reversing twice restores the marks exactly when there is no maximum, or the options not looked at fill it, or each unmarked option finds room the first time and each marked one the second time |
| `FlatReverse.ReverseTwiceRadioIff` | fastchaindb/fastchaindb-cert/src/main/resources/static/module/formSelects/formSelects-v4.js:1084-1099 | in radio mode, exactly when no option is looked at, or something else is selected and the maximum is 1, or nothing else is selected and there is a single option or the last one is selected under a maximum other than 1 |
| `FlatSelect.RunKeeps` | fastchaindb/fastchaindb-cert/src/main/resources/static/module/formSelects/formSelects-v4.js:840-1099 | along every run the values are the marked options, each once, at most one in radio mode, never above the maximum |
| `ToFixed.Carry` | fastchaindb/fastchaindb-cert/src/main/resources/static/module/global/global-public.js:688-694 | the carry loop adds one in place, and its flag says whether the guard digit stays 0 |
| `ToFixed.ToFixed2` | fastchaindb/fastchaindb-cert/src/main/resources/static/module/global/global-public.js:677-701 | the text returned is sign, digits and places of the rounded number, the point dropped when no place follows |
| `ToFixed.CutBounds` | fastchaindb/fastchaindb-cert/src/main/resources/static/module/global/global-public.js:682 | cutting after d + 1 places keeps the number within one unit of the last kept place |
| `ToFixed.RoundsHalfAway` | fastchaindb/fastchaindb-cert/src/main/resources/static/module/global/global-public.js:677-701 | for every number and d, the digits stand for the number rounded half away from zero to d places |
| `ToFixed.GuardSurvivesIff` | fastchaindb/fastchaindb-cert/src/main/resources/static/module/global/global-public.js:691-697 | the guard digit survives exactly when the rounded number needs one digit more |
| `ToFixed.ResultIsCanonical` | fastchaindb/fastchaindb-cert/src/main/resources/static/module/global/global-public.js:697 | no leading zero is added |
| `ToFixed.TextIsDetermined` | fastchaindb/fastchaindb-cert/src/main/resources/static/module/global/global-public.js:677-701 | any digits of the right length that stand for the rounded number are the result |
| `ToFixed.ExactIsKept` | fastchaindb/fastchaindb-cert/src/main/resources/static/module/global/global-public.js:677-701 | a number with at most d places only gets zeros |
| `Tokenizer.StandingLeads` | fastchaindb/fastchaindb-cert/src/main/resources/static/assets/libs/template-web.js:2 | a token made after another gets the line and column where that one's text ends |
| `Tokenizer.Tokenize` | fastchaindb/fastchaindb-cert/src/main/resources/static/assets/libs/template-web.js:2 | for every source and rules: the token values make up the source, every token stands at its position, and the pieces are those of the passes |
| `Tokenizer.PlacedAt` | fastchaindb/fastchaindb-cert/src/main/resources/static/assets/libs/template-web.js:2 | a token's line is the number of newlines before it, its start the number of characters since the last one |
| `Tokenizer.SpliceKeeps` | fastchaindb/fastchaindb-cert/src/main/resources/static/assets/libs/template-web.js:2 | splicing tokens with the same text in keeps every other position |
| `Tokenizer.PassesKeepText` | fastchaindb/fastchaindb-cert/src/main/resources/static/assets/libs/template-web.js:2 | after every rule the pieces make up the source |
| `Tokenizer.MatchesSurvive` | fastchaindb/fastchaindb-cert/src/main/resources/static/assets/libs/template-web.js:2 | what a rule has matched is still matched, at the same place, after every later rule |
| `Tokenizer.NoneIsEmpty` | fastchaindb/fastchaindb-cert/src/main/resources/static/assets/libs/template-web.js:2 | after the first rule no token is empty |
| `Html.HtmlUndoesUnhtml` | fastchaindb/fastchaindb-cert/src/main/resources/static/module/global/common.js:517-551 | escaping first makes no difference to decoding |
| `Html.RoundTripIff` | fastchaindb/fastchaindb-cert/src/main/resources/static/module/global/common.js:517-551 | decoding gives an escaped text back exactly when it held none of the five entities |
| `Html.UnhtmlIsInjective` | fastchaindb/fastchaindb-cert/src/main/resources/static/module/global/common.js:517-535 | texts without entities are never escaped to the same text |
| `Html.UnhtmlTwice` | fastchaindb/fastchaindb-cert/src/main/resources/static/module/global/common.js:517-535 | escaping twice is escaping once |
| `BatchKeys.NextIdIsLatest` | fastchaindb/fastchaindb-cert/src/main/java/com/baomidou/mybatisplus/MybatisDefaultParameterHandler.java:214-220 | a generated id is larger than every id issued before the call by any thread |
| `BatchKeys.PopulateKeys` | fastchaindb/fastchaindb-cert/src/main/java/com/baomidou/mybatisplus/MybatisDefaultParameterHandler.java:204-234 | one object: a key that is there is kept; a missing one, which includes a blank text, is made as the id type says; what is filled, and what a failing generator leaves |
| `BatchKeys.KeysStep` | fastchaindb/fastchaindb-cert/src/main/java/com/baomidou/mybatisplus/MybatisDefaultParameterHandler.java:123-134 | each object of a batch keeps its key or gets a new id, also when it was met before |
| `BatchKeys.DistinctStep` | fastchaindb/fastchaindb-cert/src/main/java/com/baomidou/mybatisplus/MybatisDefaultParameterHandler.java:123-134 | no two objects of a batch get the same generated id |
| `BatchKeys.PopulateAll` | fastchaindb/fastchaindb-cert/src/main/java/com/baomidou/mybatisplus/MybatisDefaultParameterHandler.java:122-135 | the batch loop keeps length, order and identity of the objects |
| `BatchKeys.ProcessBatch` | fastchaindb/fastchaindb-cert/src/main/java/com/baomidou/mybatisplus/MybatisDefaultParameterHandler.java:105-160 | the whole call: collections, maps with their three names, single objects, statements that are not filled |

## Left out

- The clauses behind the condition of an update are read past: that MySQL knows ORDER BY and LIMIT there, and no GROUP BY, is not modelled.
- A wrapper without conditions whose other clauses contain the letters WHERE: the original would replace them too.
- Batched statements are modelled for one call and its flush, not in runs of several clients; the result of a batch of several entities is not modelled.
- Date and Timestamp versions, whose new stamp may equal the old one; a missing version is modelled for one call, not in runs.
- Rows that are deleted and inserted again while clients hold their version, and lookups of version fields in class hierarchies and caches.
- The parameter counter of a wrapper is unbounded; after 2^31 parameters the original would wrap and repeat names.
- Nests through SUPP and connectives after HAVING: the builder functions model them, the parsing results exclude them.
- `setSqlSelect`, `orderBy`, `exists` and the other texts a wrapper makes before it hands them to the builder are opaque conditions.
- Conditions are opaque units to the parser: they hold no connective text of their own at the top level, as the builder assumes.
- Conditions that are no units of SQL (a parenthesis, a quote or a BETWEEN left open, a parenthesis in front, a connective outside parentheses) are told apart on the clause's chunks (`RoundTrip`), not on its characters (`TextRoundTrip`).
- Unicode: strings are sequences of code units, and white space is the set the original's test covers.
- `removeIsPrefixIfBoolean`: the name a tag tests is a field of the model, whatever makes it.
- The foreach tag is folded into an IN list over the batch; a custom update expression is an arbitrary function of the row.
- SQL types: column values are texts or NULL, compared for equality; NULL makes a comparison false.
- sqlWhereByMap, select columns and the by-map statements.
- SystemClock, process and hardware lookups, logging: inputs.
- JavaScript's loose equality: ids and option values are compared as they are; values hold no '/', and a path is a list of values.
- Cyclic parent ids, on which the original's recursions do not end, values repeated on a level of the select, and rules that match the empty text, on which the original's loop does not end: excluded by preconditions.
- DOM nodes, styles, search, paging, ajax and the form reset; removing all selections of a multi-level select by repeated clicks.
- toFixed2 for texts with an exponent, which are returned unchanged; the reading of the digits by the regular expression.
- Scripts compiled for expression tokens; a token's `end` after a token with newlines is kept but not used.
- `unhtml` with an expression of the caller's own.
- Null elements in a batch, an array entry that holds null, and two-level parameter names in fill handlers; UUID texts are inputs.
