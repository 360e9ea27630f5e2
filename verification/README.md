# Keeping a graph in step with mutable records: a verified model

The graphinator service projects Discogs records into a property graph, keeps that graph in step as
records change, derives stored statistics from it, and does all this under crashes, redeliveries,
restarts and four concurrent consumers. This project models that behaviour in Dafny and proves what
it promises. `dafny verify dfyconfig.toml` checks everything.

## What is modelled

**Projection** (`Graph`, `Records`, `Rows`, `Projection`, `Transactions`, `BatchEquivalence`,
`GatedBatch`, `ProjectionStore`, `Runs`, `RecordEdges`, `RecordNodes`, `RecordPairs`, `Entities`). A
graph is a map of nodes to properties and a map of relationships, by merge key, to a number of copies
and a property. A Cypher statement is a list of rows with a match part, merges and sets, or a delete by
predicate. The single-record transaction and the batched one are scripts of statements in the order the
service runs them, behind the content-hash gate. `ProjectionStore` holds the writers as loops over lists and statements over a stored graph.
`Runs` interleaves release writes on either path with artist, label and master writes, stub cleanup,
sentinel cleanup and other writers, next to the simple thing it must agree with: a map from each
release to its latest record. `RecordEdges`, `RecordNodes`, `RecordPairs` and `Entities` then say, in
the fields of the records alone, which relationships, properties and names every reachable graph holds.

**Statistics** (`Aggregates`, `RecordStats`, `CreditStats`, `Sweeps`, `SweepLogs`, `SecondPass`, `Passes`,
`EndToEnd`). The statistics statements as written (counts without DISTINCT, shared expansions,
sort-then-head, grouped credits, guarded writes) against numbers computed straight from the latest records. `Passes` takes the
attempts of a maintenance pass, in any interleaving of its steps, over the keys the graph holds, and
logs what each applied; `EndToEnd` joins the runs, the passes and the statements into one theorem.

**Paged sweeps** (`Paging`, `PagingCalls`, `PagingProgress`, `PagingTheorems`). The page loop with
halving, a failure budget and a durable cursor per step and run key, under any pattern of stops, failing pages, hard errors and
checkpoint writes that are lost or land unseen.

**Completion latch and maintenance** (`Latch`, `LatchTheorems`, `LatchProgress`, `LatchResume`, `LatchRace`,
`LatchStore`). One state machine over durable completion nodes, the broker's markers, the process-local cache behind its lock, any number of
handlers, the maintenance and refresh tasks, crashes and restarts; and the latch and retry loop as
methods, proved against that machine's steps.

**The rest** (`Consumers`, `ConsumerTruth`, `ConsumerRecovery`, `Backfill`, `PersonNames`, `Common`).
Consumer cancels, teardown and recovery interleaved at their awaits; the stub-name backfill with its line checkpoint;
UTF-8 bounding of person names.

## Assumptions

- Records are normalised: a content hash is present, genres and styles have names, no master is
  called "0" (`usable_master_id` guarantees the last), and two versions of a release with one hash
  are one version. Each lemma that needs this says so (`Normalised`, `NamedTaxonomy`).
- Messages with equal ids in one batch carry equal records (`Consistent`); `BatchKeepsEveryVersion`
  says what happens otherwise.
- A credit's category is computed from its role (`Categorising`); `BuiltCreditsAreByRole` shows rows
  built by the service satisfy it.
- Page keys are non-empty texts and the smallest page size is at least one (`Ascending`, `Ready`).
- The graph is not written by importers while the attempts of one run key proceed.
- One task registers consumers; a CancelOk arrives over an open connection and in channel order; a
  consume that raises has left no subscription; cancelling a task ends it at its next await.

## Findings

Each is a lemma with the exact condition under which the promise holds.

- A batch that repeats a release between two others can leave a company's name or a medium's label
  other than handling the messages one by one does: `RepeatCanRevertAName`. The paths agree if and
  only if repeats do not change who names each company and medium last: `BatchEqualsOneByOneIff`.
- The single-record path merges a Genre or Style with an empty name, the batched one drops it. The two
  paths agree exactly on records whose genres and styles all have names: `PathsAgreeIffNamed`.
- The primary-genre guard reads an absent value as the empty text, so it skips a write exactly when one
  side is absent and the other empty: `GuardedGenreIsSetIff`.
- The consumers are subscribed before the startup reads of a new process. A redelivered last marker of
  an older version can start that version's maintenance between the reads, and the newest version's
  pending pass is then dropped by single-flight although every read succeeded:
  `LateTriggerTakesTheSlot`. The last read starts the pass if and only if the slot is free, and the
  version stays pending for the next restart: `RestartStartsPendingPass`.

## Model

| member | source | states |
|---|---|---|
| EndToEnd.DoneSweepAgreesWithRecords | graphinator/graphinator.py:1612-1668 | over any run of writes and then any interleaving of attempts of the steps of a pass, once a step is marked done every node of its label in the graph has each count, first year, primary genre and HAS_STYLE edge that the fields of the latest record of each release give |
| EndToEnd.FinishedPassAgreesWithRecords | graphinator/graphinator.py:1574-1755 | when every step is done, so do all Genre, Style, Label, Artist and Person nodes at once |
| Passes.DoneStepCompletesEveryNode | graphinator/maintenance_paging.py:207-266 | a done mark means every node of the step's label was completed by some item of the log that the attempts themselves produced |
| Passes.PassLogsItsWork | graphinator/maintenance_paging.py:285-309 | every key the page processors finished is a whole item of that log: full pages ran every statement of every key, failing ones a prefix |
| Passes.KeyOrderExists | graphinator/graphinator.py:1624-1630 | the keys of a label can be listed in strictly ascending order, so a sweep's key space is the graph's own nodes |
| EndToEnd.LoggedNodeAgrees | graphinator/graphinator.py:1425-1571 | a node completed anywhere in a log of processed keys agrees with the records, whatever the order, the repeats and the partial pages |
| EndToEnd.LiveTaxonomyIsDirect | graphinator/graphinator.py:1441-1451 | on a Genre or Style the statements compute the number of releases naming it, the distinct artists, labels and other taxonomy those releases also name, and the least positive year among them, or none |
| EndToEnd.LiveLabelIsDirect | graphinator/graphinator.py:1498-1513 | the Label counts equal the distinct releases, artists and genres of the latest records |
| EndToEnd.LiveArtistIsDirect | graphinator/graphinator.py:1551-1567 | the Artist counts equal the distinct releases and labels of the latest records |
| EndToEnd.LiveGenreIsDirect | graphinator/graphinator.py:1557-1568 | the Artist's genre is the one most of the artist's latest records name, among ties the one whose text comes first at the first differing character, and absent iff they name none |
| EndToEnd.LivePersonIsDirect | graphinator/person_credits.py:177-193 | the Person total and category counts equal the distinct releases whose latest record credits the person |
| EndToEnd.StyleGroupsAreDirect | graphinator/graphinator.py:1503-1525 | a label's grouped style counts are the releases naming both label and style |
| SweepLogs.CompletedNodeIsLive | graphinator/maintenance_paging.py:285-309 | over any log of whole and partial keys, a completed node keeps the live values of the unchanged graph and a completed label its live HAS_STYLE edges |
| SweepLogs.TaxonomyToward | graphinator/graphinator.py:1455-1470 | after any prefix of a node's statements each statistic is untouched or live, and the first k statements settle theirs |
| SweepLogs.SamePrimaryGenre | graphinator/graphinator.py:1530-1571 | the derived HAS_STYLE edges never change an artist's primary genre |
| Sweeps.LabelStylesAreExact | graphinator/graphinator.py:1513-1524 | one label leaves its HAS_STYLE edges equal to the live per-style counts, the stale ones gone, every other edge as it was |
| SecondPass.SecondPassWritesNothing | graphinator/graphinator.py:1473-1571 | after a pass that completed them, a second pass over any Labels, Artists and Persons counts no write at all: no guarded SET fires, no edge is deleted or created, and nothing differs afterwards |
| SecondPass.EveryChangeIsCounted | graphinator/graphinator.py:1473-1571 | the write counts miss nothing: on any graph and any log, a count of zero means no statistic and no relationship changed |
| Aggregates.CopiesSumIsSize | graphinator/graphinator.py:1432-1439 | count(r) without DISTINCT is the number of relationships when MERGE kept one copy each |
| Aggregates.PairSumIsSize | graphinator/graphinator.py:1492-1494 | the grouped count(r) of a two-step pattern is the number of distinct pairs |
| Aggregates.SecondCopyIsCountedTwice | graphinator/graphinator.py:1432-1439 | with a second copy the fast count is wrong, so the uniqueness is needed |
| Aggregates.GuardedSetIsSet | graphinator/graphinator.py:1510-1512 | the guarded writes leave what unconditional ones would |
| Aggregates.GuardedGenreIsSetIff | graphinator/graphinator.py:1568-1568 | the primary-genre guard equals an unconditional SET iff it does not confuse an absent genre with the empty text |
| Aggregates.SortedRowsExist | graphinator/graphinator.py:1560-1563 | the sort order is a total preorder, so a sorted sequence of an artist's groups exists |
| Aggregates.HeadOfSortIsPrimary | graphinator/graphinator.py:1557-1565 | sort-then-head picks a genre of maximal count, among ties the one whose text comes first at the first differing character, with label rows anywhere in the sort, and none iff there is no genre |
| Aggregates.PrimaryIsUnique | graphinator/graphinator.py:1537-1544 | the answer does not depend on storage order |
| Common.LessIsAlphabetical | graphinator/graphinator.py:1560-1563 | one text sorts before another iff at some position the first characters agree and there either it ends and the other goes on or its character is smaller |
| Aggregates.LabelRowsAreLabels | graphinator/graphinator.py:1559-1563 | counting label rows of the shared sort counts distinct labels |
| Years.LeastYearIsLeast | graphinator/graphinator.py:1451-1451 | the first year is the least positive one, absent iff there is none |
| Aggregates.CategoryCountsDistinctReleases | graphinator/person_credits.py:168-188 | grouping by release and summing counts distinct releases of the category |
| Aggregates.TotalIsUnionOfCategories | graphinator/person_credits.py:18-26 | the total is the size of the union of the categories, at least each and at most their sum, and zero everywhere for a person with no credits left |
| RecordStats.ExactIsFaithful | graphinator/batch_projection.py:591-927 | in every exact world the release relationships of the graph are one copy each of those the latest records name |
| RecordStats.RowCountIsReleaseCount | graphinator/graphinator.py:1441-1442 | the row count over a reachable graph is the number of releases naming the node |
| RecordStats.ReachedIsAlsoNamed | graphinator/graphinator.py:1443-1450 | the shared expansion reaches exactly what the same latest records also name |
| RecordStats.GroupCountIsBoth | graphinator/graphinator.py:1503-1509 | a grouped count is the number of latest records naming both nodes |
| RecordStats.YearsAgree | graphinator/graphinator.py:1451-1451 | the years seen through the graph are those of the latest records |
| CreditStats.CreditCountIsDirect | graphinator/person_credits.py:181-184 | distinct credited releases in the graph are the releases whose latest record credits the name |
| CreditStats.CategoryCountIsDirect | graphinator/person_credits.py:168-184 | the same per category |
| CreditStats.BuiltCreditsAreByRole | graphinator/person_credits.py:89-123 | rows built from credits carry one category per role |
| Runs.ReachableIsExact | graphinator/batch_projection.py:591-927 | every graph reachable from empty through any run of writes and cleanups holds, for each release, exactly the managed cells its last record asserts |
| Runs.GraphStatesLatestRecords | graphinator/batch_projection.py:68-97 | a release's BY, ON, DERIVED_FROM, IS, CREDITED_ON and discogs ISSUED_ON edges are exactly those of its latest record, one copy each |
| Runs.CompanyCreditsFollowLastBlock | graphinator/company_projection.py:90-107 | discogs CREDITED_TO edges follow the last record that carried a companies block: silence changes nothing, an empty block removes all |
| RecordEdges.ByIsTheRecords | graphinator/batch_projection.py:701-725 | over every run a release has a BY edge to an artist iff its latest record references that non-empty id |
| RecordEdges.OnIsTheRecords | graphinator/batch_projection.py:727-751 | the same for ON and the labels |
| RecordEdges.DerivedFromIsTheRecords | graphinator/batch_projection.py:753-773 | the same for DERIVED_FROM and the resolved master |
| RecordEdges.GenresAreTheRecords | graphinator/batch_projection.py:775-799 | the same for IS and the non-empty genres |
| RecordEdges.StylesAreTheRecords | graphinator/batch_projection.py:800-825 | the same for IS and the non-empty styles |
| RecordEdges.IssuedOnIsTheRecords | graphinator/media_projection.py:46-73 | over every run a discogs ISSUED_ON edge exists iff the release's latest record has a row of the medium, one copy, carrying that row's quantity |
| RecordEdges.CreditedToIsTheRecords | graphinator/company_projection.py:64-87 | a discogs CREDITED_TO edge exists iff the last record with a block has a row of the company and role, one copy, carrying that row's role category |
| RecordEdges.CreditedOnIsTheRecords | graphinator/person_credits.py:133-151 | a CREDITED_ON edge exists iff the latest record has a row of the person and role, one copy, carrying that row's category |
| RecordNodes.MediumIsItsLastRow | graphinator/media_projection.py:63-73 | a medium exists iff some record written had a row of it, and its name and family are the label and family of the last such row over the whole run |
| RecordNodes.CompanyIsItsLastRow | graphinator/company_projection.py:80-87 | a company exists iff some record written credited it, and its name is that of the last such row over the whole run |
| RecordNodes.ReferenceKeepsItsFirstName | graphinator/reference_name.py:14-20 | while its own record is not written and no cleanup picks it, an artist or label keeps its name, and a nameless one gets the trimmed name of the first written reference that carries one |
| RecordNodes.ReleaseIsItsLastMessage | graphinator/entity_projection.py:230-243 | a release node holds the hash, year, country and media families of the last message about it, gate included, and exists only if there was one |
| RecordNodes.EdgesStandOnNodes | graphinator/batch_projection.py:701-926 | in every reachable graph both ends of every relationship the service wrote are nodes of the graph |
| RecordPairs.PairsAccumulate | graphinator/batch_projection.py:827-856 | a style is PART_OF a genre, and a medium IN_FAMILY of a family, iff some record really written said so; nothing takes it back |
| Runs.OtherSourcesUntouched | graphinator/media_projection.py:46-73 | over every run, with any records, entity writes and cleanups, an ISSUED_ON or CREDITED_TO edge of another source is created, altered or deleted by nobody but its own writer |
| Runs.SkippingIsRewriting | graphinator/entity_projection.py:223-229 | what the hash gate skips would have changed no managed edge and no release node |
| Runs.SingleKeepsExact | graphinator/entity_projection.py:221-394 | a single-record write keeps the graph exact, gate included |
| Runs.BatchKeepsExact | graphinator/batch_projection.py:614-927 | a batch keeps the graph exact |
| Runs.EntityKeepsOwnedCells | graphinator/entity_projection.py:28-218 | artist, label and master writes leave every release's edges and node alone |
| Entities.EntityWriteIsItsRecord | graphinator/entity_projection.py:28-218 | an artist, label or master write that is not skipped leaves exactly the relationships its record says and the earlier ones it does not retract, each with its cell |
| Entities.EntityNodeIsItsRecord | graphinator/entity_projection.py:28-218 | and the entity's node takes the record's name and hash, even when the record references itself |
| Runs.StubCleanupKeepsExact | graphinator/graphinator.py:1937-1945 | stub cleanup, in any chunks, removes no managed edge and no written release |
| Entities.CleanupIsExact | graphinator/graphinator.py:1937-1945 | a chunk of the stub cleanup deletes exactly the picked hash-less nodes of a record label with only HAS_STYLE edges, with those edges, and nothing else |
| Entities.CleanupLeavesNoStub | graphinator/graphinator.py:1937-1945 | one complete cleanup leaves no stub: removing a stub makes no other node one |
| Runs.SentinelCleanupKeepsExact | graphinator/graphinator.py:2000-2010 | both sentinel-master statements keep every release exact |
| Entities.SentinelGoes | graphinator/graphinator.py:2000-2010 | the two statements remove exactly the master called 0 and its relationships |
| Runs.SilentRecordKeepsCredits | graphinator/company_projection.py:100-107 | a record without a companies block leaves the company credits of its release alone |
| GatedBatch.BatchEqualsOneByOneIff | graphinator/batch_projection.py:614-926 | a batch leaves the graph of handling its messages one by one iff repeats do not change who names each company and medium last |
| GatedBatch.UnrepeatedBatchIsOneByOne | graphinator/batch_projection.py:614-926 | a batch in which no out-of-date id occurs twice leaves the very graph of handling its messages one by one |
| GatedBatch.RepeatCanRevertAName | graphinator/company_projection.py:80-87 | a concrete batch whose repeat reverts a company's name |
| GatedBatch.PathsAgreeIffNamed | graphinator/entity_projection.py:350-372 | the two paths write the same graph from a record iff all its genres and styles have names |
| GatedBatch.EmptyNameParts | graphinator/batch_projection.py:775-812 | an empty name gives the single path an edge the batch path lacks |
| GatedBatch.ProcessAllWritesFresh | graphinator/entity_projection.py:223-229 | one by one, the gate lets through exactly the out-of-date messages, each once |
| GatedBatch.BatchKeepsEveryVersion | graphinator/batch_projection.py:614-699 | a release's edge survives a batch iff some record of the batch asserts it, or it was there and none drops it, so two versions leave their union |
| BatchEquivalence.BatchIsSequence | graphinator/batch_projection.py:660-926 | a batch write of consistent named records equals the single-record transactions in order, nodes and edges |
| BatchEquivalence.PruneAllMergeAll | graphinator/batch_projection.py:690-926 | prune-all-then-merge-all gives every edge what prune-then-merge release by release gives it |
| Transactions.FusedPruneIsUnionOfFive | graphinator/batch_projection.py:68-97 | the fused prune deletes exactly the union of the five separate prunes |
| Transactions.SeparatePrune | graphinator/entity_projection.py:119-134 | one separate prune deletes exactly its own stale edges |
| Transactions.WriteReleaseCells | graphinator/entity_projection.py:230-392 | the single transaction as one effect per node and edge |
| Transactions.WriteBatchCells | graphinator/batch_projection.py:660-926 | the batch transaction as one effect per node and edge |
| Projection.OwnedMentionedIff | graphinator/batch_projection.py:701-926 | of the edges a release owns, its statements merge exactly those its record asserts |
| Projection.MentionedMeansOwner | graphinator/batch_projection.py:701-926 | no release's statements merge an edge another release owns |
| Graph.UnwindPointwise | graphinator/batch_projection.py:701-725 | a statement whose rows all match has an independent effect on each node and edge |
| Graph.MergedEdge | graphinator/company_projection.py:72-87 | MERGE never makes a second copy, and the edge exists iff it did or a row asserts it |
| Graph.FilledNode | graphinator/batch_projection.py:714-724 | coalesce keeps an existing reference name and otherwise takes the first one offered |
| Graph.RepeatedEdge | graphinator/media_projection.py:63-73 | repeating a statement changes no edge |
| ProjectionStore.GraphStore.ProcessMessages | graphinator/batch_projection.py:591-927 | the batch handler rejects exactly the messages without an id and leaves the specified batch result of the others |
| ProjectionStore.AcceptedHaveIds | graphinator/batch_projection.py:591-613 | the accepted messages are those with an id, as often and in the order they came |
| ProjectionStore.GraphStore.ProcessOne | graphinator/entity_projection.py:221-394 | the single-record handler leaves the specified result and reports a change iff the hash differed |
| ProjectionStore.GraphStore.BatchWrite | graphinator/batch_projection.py:660-926 | the statements with their looped row lists are the batch transaction |
| ProjectionStore.GraphStore.ExistingHashes | graphinator/batch_projection.py:616-626 | the hashes read once say exactly which records are current |
| ProjectionStore.GraphStore.WriteTaxonomy | graphinator/batch_projection.py:775-825 | merging distinct names once and matching per row is the per-row merge |
| ProjectionStore.GraphStore.WritePairs | graphinator/batch_projection.py:827-856 | merging distinct genre-style pairs once is merging every repeat |
| ProjectionStore.TwoStatementsAreOne | graphinator/batch_projection.py:787-799 | the two-statement taxonomy merge equals the one-statement form on every graph that holds the batch's releases |
| ProjectionStore.SameMentionsSameGraph | graphinator/batch_projection.py:845-856 | pure merges that mention the same nodes and edges leave the same graph |
| ProjectionStore.FirstSeenIsDistinct | graphinator/batch_projection.py:58-65 | the distinct helpers keep the same values, none twice, in first-seen order |
| ProjectionStore.ArtistData | graphinator/batch_projection.py:702-713 | the artist loop gathers one row per reference with an id, in order |
| ProjectionStore.TaxonomyData | graphinator/batch_projection.py:775-815 | the genre and style loops gather the named entries only |
| ProjectionStore.GenreStyleData | graphinator/batch_projection.py:831-844 | the pairs come only from records with a single named genre |
| Rows.IssuedOnRows | graphinator/media_projection.py:124-152 | the dictionary loop yields the rows of the specification |
| Rows.MediaRowsAreDistinct | graphinator/media_projection.py:125-132 | one row per medium, holding the sum of its units, at least one |
| Rows.UnitsAreCounted | graphinator/media_projection.py:175-180 | a row's sum counts every unit any of its entries states, one for an entry that states none |
| Rows.MediaRowsFollowFirstEntries | graphinator/media_projection.py:130-152 | each row has the family of its medium's first entry and the label of its id, and the rows stand in source order |
| Rows.MediaRowsCover | graphinator/media_projection.py:133-152 | a medium has a row iff a usable entry names it |
| Rows.CreditedToRows | graphinator/company_projection.py:110-136 | the dictionary loop yields the rows of the specification |
| Rows.CompanyRowsAreDistinct | graphinator/company_projection.py:111-118 | one row per distinct company and role, and a row for it iff a usable entry gives it |
| Rows.CompanyRowsFollowFirstEntries | graphinator/company_projection.py:113-136 | each row is the first entry of its company and role, in source order: the decimal text of a positive numeric id, else the trimmed text id, else name: and the folded name; the trimmed name or else the id; the trimmed role; the category or else the unmapped one |
| Rows.RowOfCredited | graphinator/company_projection.py:110-136 | every credited entry has a row with its own id and role |
| Rows.DifferentCompaniesKeepTheirRows | graphinator/company_projection.py:139-188 | entries with different positive numeric ids have different rows, each with the decimal text of its number |
| Rows.NumberAndTextAreOneId | graphinator/company_projection.py:142-146 | a Discogs id given as number or text is one company |
| Rows.DerivedIdsAreApart | graphinator/company_projection.py:147-159 | a derived id never meets a Discogs id, and two derived ids meet iff the folded names do |
| Rows.PersonCreditRows | graphinator/person_credits.py:89-130 | the loop yields the usable credits in order and counts the bounded and the padding-only ones |
| Rows.CreditRowsFollowCredits | graphinator/person_credits.py:89-130 | every credit with a name, a role and more than padding has a row of its own, in order, and only those: the bounded name, the role, its category and the artist |
| Rows.CreditRowsAreUsable | graphinator/person_credits.py:92-99 | every row has a name the index accepts, a role, and its role's category |
| Records.MasterIdOfNumber | graphinator/master_reference.py:24-38 | a number and its text name the same master, and only zero names none |
| Records.MasterIdIs | graphinator/master_reference.py:24-38 | the decimal text of a number other than zero or a trimmed text that is neither blank nor 0; anything else names no master |
| Records.StripIsTheMiddle | graphinator/reference_name.py:14-20 | trimming removes spaces at the ends and nothing else |
| PersonNames.BoundNameFits | graphinator/person_credits.py:60-74 | at most 8000 UTF-8 bytes, the identity exactly within the limit, idempotent |
| PersonNames.LongNameKeepsLongestPrefix | graphinator/person_credits.py:60-74 | a longer name keeps exactly the longest run of whole characters that leaves room for the digest |
| PersonNames.CutDecodesToWholeCharacters | graphinator/person_credits.py:74-74 | decoding a cut encoding with errors ignored splits no character, wherever the cut falls |
| PersonNames.LongNamesAreToldApart | graphinator/person_credits.py:66-69 | two long names share a form only if their digests agree |
| Paging.PageIsLeastKeysAfterCursor | graphinator/graphinator.py:1496-1497 | a page is the alphabetically least keys above the cursor, in order, and empty iff none is left |
| Paging.CheckpointStore.ReadCheckpoint | graphinator/maintenance_paging.py:130-146 | only a checkpoint of the same run key is honoured |
| Paging.CheckpointStore.WriteCheckpoint | graphinator/maintenance_paging.py:149-164 | a write lands, is lost, or lands unseen, and touches one step only |
| Paging.CheckpointStore.TakeTurn | graphinator/maintenance_paging.py:221-266 | one turn of the loop is the turn of the specification, other steps' checkpoints untouched |
| Paging.CheckpointStore.RunCheckpointedStep | graphinator/maintenance_paging.py:175-266 | the loop terminates and leaves the checkpoint, outcome and total of the specification |
| PagingProgress.RetryableFailureIsRetried | graphinator/maintenance_paging.py:230-239 | after a page call that fails retryably the next call has the same cursor and half the size, not below the floor, unless it was the third such failure in a row at the floor |
| PagingProgress.GivesUpIffThreeInARow | graphinator/maintenance_paging.py:230-239 | an attempt gives up iff its last three calls in a row failed retryably at the smallest page size |
| PagingProgress.BearableAttemptFinishes | graphinator/maintenance_paging.py:207-266 | an attempt with no stop, no hard error, every write landed and never three such failures in a row finishes and marks the step done |
| PagingProgress.AttemptStoresLastMark | graphinator/maintenance_paging.py:149-266 | call by call: a page that went through marks its last key and its size, an empty one the done mark, a failure nothing, and the checkpoint left is the last mark |
| PagingTheorems.DoneMeansEveryKeyProcessed | graphinator/maintenance_paging.py:207-266 | over every history of attempts, a done mark means every key of its run was processed in full |
| PagingTheorems.NoKeyBelowTheCursorIsRedone | graphinator/maintenance_paging.py:207-266 | every page call of an attempt reaches only keys above the cursor stored at its start and above every cursor an earlier call committed; after a done mark there is no call; the calls reach exactly the keys the attempt reports |
| PagingTheorems.InterruptionsRedoAtMostOnePage | graphinator/maintenance_paging.py:255-266 | over a history each interruption costs at most one page of repeated work |
| PagingTheorems.ForeignCheckpointIsIgnored | graphinator/maintenance_paging.py:130-146 | with another run's checkpoint an attempt does exactly what it does with none |
| PagingTheorems.AttemptResumesExactly | graphinator/maintenance_paging.py:207-266 | the pages of an attempt are contiguous from the stored cursor, the checkpoint left is at most one page behind, and from call to call the page size stays or is halved, never growing and never below the floor |
| PagingTheorems.AttemptCallBound | graphinator/maintenance_paging.py:216-252 | at most 3(K+1) + floor(log2 s) page calls |
| PagingTheorems.HalvingsAtMostLog2 | graphinator/maintenance_paging.py:230-231 | a page size is halved at most log2 times before it rests on the floor |
| PagingTheorems.LaterAttemptsFinish | graphinator/maintenance_paging.py:207-266 | after any history an undisturbed attempt finishes and marks the step done |
| LatchTheorems.AckedSignalStaysDurable | graphinator/graphinator.py:1124-1139 | in every run an acknowledged marker is among its version's durable signals from then on |
| LatchTheorems.CacheMatchesDurableSignals | graphinator/graphinator.py:749-774 | in every state, the lock free or held, the cache is a subset of the durable signals of its own version and holds every signal committed by a handler of it |
| LatchTheorems.MarkersAreConserved | graphinator/graphinator.py:1046-1058 | every published marker is queued, in a handler, acknowledged or dead-lettered |
| LatchTheorems.CompletionIsNeverMissed | graphinator/graphinator.py:1146-1216 | once all four markers of a version were acknowledged, a handler acknowledged with a trigger for it or it was stamped |
| LatchTheorems.MaintenanceRunsOnlyWhenComplete | graphinator/graphinator.py:1164-1242 | a running pass, every pending trigger and every triggered version has each of the four data types among its own durable signals |
| LatchTheorems.StampedVersionIsNotSweptAgain | graphinator/graphinator.py:780-794 | once a stamped version is at rest, whatever is redelivered, published, crashes or restarts, no pass for it is triggered or started |
| LatchTheorems.RestartLeavesStampedAtRest | graphinator/graphinator.py:869-894 | a crash leaves every stamped version at rest |
| LatchProgress.MarkerIsRecorded | graphinator/graphinator.py:749-774 | from any state with the lock free, a delivered marker that meets no failure adds its type to its version's stored signals and changes nothing else stored, read from the cache or from the database |
| LatchProgress.HandlerConcludes | graphinator/graphinator.py:1146-1216 | a handler that knows all four types of an unstamped version acknowledges and starts the pass iff the slot is free; any other only acknowledges |
| LatchProgress.UndisturbedAttemptStamps | graphinator/graphinator.py:1293-1367 | a drain, five successful steps and a landed write stamp the version, keep its signals and any earlier stamp, clear its error and free the slot |
| LatchProgress.ThreeFailuresAreRecorded | graphinator/graphinator.py:1293-1389 | three attempts that each have some failing step end the pass with status failed and at most 500 characters of the error, unless the version is stamped, and without a stamp |
| LatchProgress.RefreshLeads | graphinator/graphinator.py:1007-1043 | a refresh runs the label and artist sweeps, comes to its stamp iff both succeed, and is otherwise tried three times and then dropped with nothing written |
| LatchProgress.RefreshStamps | graphinator/graphinator.py:986-1004 | its stamp sets stats_version to the current one and nothing else |
| LatchProgress.StartupRefreshesIff | graphinator/graphinator.py:897-959 | with the reads succeeding and both slots free, startup begins a refresh iff the newest version has all four signals, a stamp and statistics of another version |
| LatchResume.RestartStartsPendingPass | graphinator/graphinator.py:869-894 | with all four acknowledged and no stamp, after any crash and with any steps of the subscribed consumers between three startup reads that succeed and find the version, the last read starts its pass iff the single-flight slot is free; otherwise the pass in the slot, triggered by a marker this process acknowledged, goes on, and the version stays complete, acknowledged and unstamped |
| LatchResume.QuietRestartStartsPendingPass | graphinator/graphinator.py:2508-2531 | if no handler starts maintenance between the startup reads, the pending pass starts, whatever became of its trigger |
| LatchRace.LateTriggerTakesTheSlot | graphinator/graphinator.py:1219-1232 | a concrete run in which an older version's redelivered last marker takes the slot between the reads and the newest version is left pending |
| LatchTheorems.StampIsWriteOnce | graphinator/graphinator.py:815-842 | maintained_at never moves or disappears |
| LatchTheorems.StampMeansOneFullSuccess | graphinator/graphinator.py:1293-1360 | a stamp means each of the four data types is durable and one attempt whose drain and all five named steps succeeded; a stamped node is never failed; an error has at most 500 characters; stats_version implies a stamp |
| LatchTheorems.NoSweepWithoutDrain | graphinator/graphinator.py:1315-1327 | no sweep step runs in an attempt whose drain failed |
| LatchStore.CompletionLatch.RecordSignal | graphinator/graphinator.py:749-774 | the locked section is the state machine's, publishes the cache only after the commit, and returns a set the durable signals contain |
| LatchStore.CompletionLatch.LoadSignals | graphinator/graphinator.py:691-717 | the read returns the version's durable signals or fails |
| LatchStore.CompletionLatch.PersistSignals | graphinator/graphinator.py:720-746 | the write unions into the stored signals and may land unseen |
| LatchStore.CompletionLatch.StampSuccess | graphinator/graphinator.py:815-842 | the stamp keeps an earlier one and is confirmed only on an existing node |
| LatchStore.CompletionLatch.RecordFailure | graphinator/graphinator.py:845-866 | a failure never touches a stamped node |
| LatchStore.CompletionLatch.RunAttempt | graphinator/graphinator.py:1302-1367 | an attempt succeeds iff it drained, every step completed and the stamp was confirmed, and then the version is stamped |
| LatchStore.CompletionLatch.RunMaintenance | graphinator/graphinator.py:1293-1389 | the retry loop finishes iff an attempt passes before any shutdown request, and an exhausted one leaves a stamp or a recorded failure |
| LatchStore.FinishedIff | graphinator/graphinator.py:1293-1389 | the verdict is success iff some attempt passes with none before it passing and no shutdown request up to it |
| LatchStore.ExhaustedIff | graphinator/graphinator.py:1293-1389 | the pass is exhausted iff none of its three attempts passes and no shutdown is requested before any of them |
| Consumers.GaugeIsTableSize | graphinator/graphinator.py:269-296 | in every interleaving the active-consumer gauge equals the number of tags |
| Consumers.TagsLeaveOnConfirmationOnly | graphinator/graphinator.py:362-392 | a tag leaves the table exactly on a CancelOk for its type or on the end, in time, of a teardown that had a transport and leaves no handle |
| Consumers.RequestStandsUntilReconnect | graphinator/graphinator.py:269-296 | over every run, from an unconfirmed cancel (a missing queue included), a failed teardown or a failed recovery on, the recovery request stands until a reconnect |
| Consumers.TagStaysUntilConfirmation | graphinator/graphinator.py:362-392 | over every run a tag stays until a CancelOk for its type or a confirmed teardown |
| Consumers.RecoveryClearedOnlyWithoutHandles | graphinator/graphinator.py:557-566 | the request is withdrawn only once both transport handles are gone |
| ConsumerTruth.LiveSubscriptionsAreTabled | graphinator/graphinator.py:548-683 | in every interleaving a subscription that still delivers is the table's entry for its type, on the connection the process holds |
| ConsumerTruth.TeardownsAimAtTheHeldConnection | graphinator/graphinator.py:557-566 | no teardown outlives a reconnect: one in flight closes the connection that is held |
| ConsumerRecovery.ConfirmedCancelEnds | graphinator/graphinator.py:269-296 | a confirmed cancel takes its own tag and registration away and leaves every other |
| ConsumerRecovery.TeardownLeavesNothing | graphinator/graphinator.py:362-392 | from any reachable state, a teardown whose channel and connection close leaves no tag, no handle and no subscription |
| ConsumerRecovery.RecoveryRestores | graphinator/graphinator.py:548-683 | from any reachable state without handles, a recovery in which nothing fails withdraws the request and leaves every type it consumes on the table and delivering on the new connection |
| Backfill.FinishedHistoryIsExact | graphinator/stub_name_backfill.py:75-124 | after any crashes and resumes, once a session finishes each listed nameless node holds its line's name and every other node is as it was |
| Backfill.HistoryKeepsPromises | graphinator/stub_name_backfill.py:75-124 | no name is ever changed and no checkpoint passes a line that is neither skipped nor applied |
| Backfill.UndisturbedSessionFinishes | graphinator/stub_name_backfill.py:105-124 | a session nothing disturbs finishes, whatever the batch size |
| Backfill.BatchHoldsItsLines | graphinator/stub_name_backfill.py:107-121 | a flush holds exactly the named lines since the last one up to the one that fills the batch, checkpoints behind that line, and the session goes on only if it succeeded |
| Backfill.RestIsFlushedAtTheEnd | graphinator/stub_name_backfill.py:122-124 | the lines short of a batch are flushed at the end of the file, and a session that reads no line writes nothing |
| Backfill.SessionStartsAtTheMark | graphinator/stub_name_backfill.py:107-111 | a session begins at the checkpoint, and does nothing on a file shorter than it |
| Backfill.NameStore.Run | graphinator/stub_name_backfill.py:75-124 | the loop is the session of the specification and reads exactly the lines after the checkpoint |
| Backfill.NameStore.FlushBatch | graphinator/stub_name_backfill.py:89-103 | a flush is two fill-only transactions and then the checkpoint |

## Left out

- SAME_AS edges: the batch matches an Artist a later release of the batch may create, so only inclusion holds.
- MEMBER_OF, ALIAS_OF, SUBLABEL_OF and a master's own edges over whole runs: stated for one write by `EntityWriteIsItsRecord`; over runs the model claims only that they disturb no release.
- Title, formats and catalog_number of a release: the paths differ in the default title and the metadata bag, and no other code reads them.
- The batched artist, label and master writers: modelled once, as the entity writes of a run; single-record masters are modelled with empty names dropped.
- The mapping libraries behind the media block, credit categories, name stripping and descriptions: parameters of the row builders.
- Unicode tables: case folding and the whole-number test of company ids are parameters; lone surrogates, on which UTF-8 encoding fails, are not representable.
- RunMaintenance: runs without interleaving; its interleavings with handlers, crashes and refreshes are those of the state machine in Latch.
- Duplicate ExtractionCompletion nodes left by older code: the model has one node per version.
- Stats refresh: stopping for a newer dump is a free choice at any page; the throttled version read is not modelled.
- Requeue budgets: whether a marker is requeued or dead-lettered is a free choice.
- file_complete markers, health reports, telemetry, progress, connection and queue setup: I/O and observability.
- Waits and backoff: nondeterministic steps; no durations.
- parse_line: reading JSON text; a line is either unusable or a kind, an id and a name.
- Automatic reconnection inside the broker client: a lost connection stays lost until the service recovers.
- A consume interrupted by shutdown: the run of the consumer table goes on after the checker stops, but a subscription such a consume may have left is not followed.
