# Verified models of the agent-surface tooling

Dafny models of seven parts of the repository, each with the properties it is
there to guarantee. Run `dafny verify dfyconfig.toml` to check all of them.

| part | modules |
|---|---|
| Card placement on the review dashboard (`solveRail`) | `RailFit`, `RailOptimality`, `Rail` |
| JSON pointers, structural diff and the two JSON Patch interpreters (sections 3 and 4 of RFC 6901, section 4 of RFC 6902) | `Text`, `JsonPointer`, `JsonDiff`, `JsonPatch`, `JsonPlaces`, `Redline` |
| Publication: link rebasing, anchors, compact source maps and their validator | `Paths`, `Anchors`, `SourceMap`, `Provenance`, `Assembly` |
| Publication and action graphs | `Graphs`, `Kahn`, `DependencyGraph`, `Ordering`, `Companions`, `Recovery` |
| Conformance verdicts and their independent verification | `Applicability`, `Observations`, `Verdict` |
| The authoritative journal, as a concurrent protocol and as one process uses it | `JournalProtocol`, `JournalStore` |
| The mock participants: transitions, roles, runs, and execute and observe over the journal | `MockNames`, `MockState`, `MockRoles`, `MockLedger`, `MockWarrants`, `MockAnswers`, `Participant` |

`Wrappers` holds the option and result types, `Collections` what several parts need.

## How the models are made

- Exceptions are `None`, `Err` or `Raise`. Loops that update variables are
  methods, proved against functions or predicates about which the lemmas speak.
  Cards, the companion closure with its cache, the mock's transition and the
  journal store are classes with the source's fields.
- Python compares `True`, `1` and `1.0` as equal where the source uses `==` on
  parsed JSON; `Observations.PyEqual` models that. Where the source compares
  types first, integers, floats and Booleans stay different.
- Digests, canonical serialisation, Unicode slugs, percent-decoding and the long
  field-by-field validators are functions of their inputs about which nothing,
  or only what is stated in a `requires`, is known.
- The journal protocol has any number of initializers and readers. Each takes
  one filesystem step at a time, any step may fail, and a process that takes no
  more steps has crashed. Serialisation is assumed to read back what it wrote.
- A role's plan lists what it increments and what it sets. The updates of one
  call touch different names, so their order does not matter
  (`MockState.Transition.BumpAll` and `SetAll` take any). How a token is spelled
  is a parameter, about which `Participant` assumes that different tokens have
  different, non-empty names.
- A run of the mock threads each call's new state into the next call. A call
  that raises leaves no new state, and the old one is kept.

## Where code and expectation part

- `initialize` can raise after the rename, when flushing the directory fails;
  the journal is then readable all the same
  (`JournalStore.ReadableExactlyIfRenamed` says exactly when).
- The mock's diff reports array growth element by element, the suite's reports
  the array: the mock lets through edits that the suite forbids
  (`JsonDiff.MockEditIsWeaker`), never the other way round. The suite allows
  exactly those of them in which every array that changes its length is editable
  (`JsonDiff.EditChecksAgree`).
- The suite's patch interpreter takes operations that the mock refuses: unused
  members, stray tildes (`Redline.RedlineIsStrictPatch` says exactly which).
- The pointer decoder accepts a tilde that escapes nothing
  (`JsonPointer.EncodeDecode` says exactly when it loses information), so a patch
  can change a place other than the one its path spells
  (`JsonPatch.StrayTildeMovesThePlace`; `JsonPatch.OperationRootIsPathOrArray`
  says exactly when).
- Heading anchors avoid other heading anchors only
  (`Anchors.ExplicitAnchorsCanCollide`); they meet no explicit one exactly when
  the single-file allocator gives none (`Anchors.HeadingsAvoidExplicit`; in
  terms of the slugs, `Anchors.AllAnchorsDiffer`).
- `relpath` starts from the working directory: run outside the repository root,
  with an output path that leaves the repository, the tool can name another file
  (`Paths.WorkingDirectoryMatters`; `Paths.RebaseNamesTheFileWhen` says exactly
  when). `_repo_path` refuses such outputs, so the build never meets this.
- A source without lines is always rejected by the source-map validator, so an
  assembly that succeeds has none (`Assembly.Assemble` is an equivalence).
- A rejected call may still count (`MockLedger.QueueingIsRejectedAndCounts`): it
  leaves the state alone exactly when it has looked up no purpose, denied
  nothing by policy and queued no event (`MockLedger.RejectedChangesNothing`).
  `MockLedger.RejectedSpares` lists what stays untouched even then.

## Model

| member | source | states |
|---|---|---|
| `RailFit.MergePooled` | review/dashboard-ui.js:430-438 | Merging two blocks whose means are in the wrong order keeps the prefix property of pooled blocks and puts the new mean strictly between the old ones |
| `RailFit.PoolBlocks` | review/dashboard-ui.js:426-440 | The block stack ends as a partition of the indexes into pooled blocks with rising means; merges and remaining blocks add up to the number of cards |
| `RailOptimality.Variational` | review/dashboard-ui.js:426-443 | The variational inequality of the clamped fit: no admissible direction decreases the squared distance |
| `RailOptimality.FitIsLeastSquares` | review/dashboard-ui.js:426-443 | The clamped block means beat every rising sequence within the bounds by at least the squared distance to it, so they are its unique minimiser |
| `Rail.SortCardsOrders` | review/dashboard-ui.js:418-419 | The sorted cards are the same cards, by rising preferred top and, where these are equal, by rising id |
| `Rail.SortCardsStable` | review/dashboard-ui.js:418-419 | Cards with the same preferred top and id keep their order |
| `Rail.AssignOffsets` | review/dashboard-ui.js:420-424 | The first pass writes every offset and returns the packed height |
| `Rail.FeasibleIsAdmissible` | review/dashboard-ui.js:420-443 | Placements that keep the order, the gap and the stage are exactly the bounded rising displacements of the packed stack |
| `Rail.FitIsBest` | review/dashboard-ui.js:426-443 | The exact positions are the best feasible placement: clamping after merging loses nothing |
| `Rail.BestIsUnique` | review/dashboard-ui.js:426-443 | No other feasible placement is as close to the preferred positions |
| `Rail.PreferredIsKept` | review/dashboard-ui.js:426-443 | When all cards fit where they want to be, in their order, the best placement puts each of them there |
| `Rail.FeasibleWhenHighEnough` | review/dashboard-ui.js:420-425 | Cards can be placed on a stage exactly when it holds the packed stack and the padding, so the height returned is the least that will do |
| `Rail.RoundingKeepsFeasible` | review/dashboard-ui.js:444-446 | Rounding half up keeps order, full gap and stage bounds, and moves each card by at most one half |
| `Rail.WriteTops` | review/dashboard-ui.js:441-447 | The last loops write exactly the rounded best positions into the cards |
| `Rail.PlaceCards` | review/dashboard-ui.js:420-449 | Packing, pooling, clamping and rounding after the sort: the written tops are the rounding of the best placement |
| `Rail.SolveRail` | review/dashboard-ui.js:418-449 | The whole routine on an array of cards sorts it in place by preferred top and id, returns the stage height, leaves tops inside the stage and a gap apart that round the unique best placement, and the preferred tops themselves, rounded, whenever these fit |
| `JsonPointer.UnescapeEscape` | conformance/check.py:2491-2499 | A reference token survives escaping and decoding |
| `JsonPointer.EscapeUnescape` | conformance/check.py:2491-2499 | Decoding and escaping gives a token back exactly when it was well escaped |
| `JsonPointer.DecodeEncode` | conformance/check.py:2491-2499 | Decoding the pointer of a token list gives the list back |
| `JsonPointer.EncodeDecode` | conformance/check.py:2491-2499 | Encoding a decoded pointer gives it back exactly when the pointer is grammatical; the decoder also takes a stray tilde |
| `JsonPointer.AtOrBelowIsPrefix` | conformance/check.py:2868-2874 | A place lies at or below another exactly when its tokens start with the other's |
| `JsonDiff.EmptyDiff` | conformance/check.py:2589-2611 | The diff is empty exactly when the two documents are identical, scalar types included |
| `JsonDiff.Triangle` | conformance/check.py:2589-2611 | Whatever differs across two steps lies at or below something one of the steps changed |
| `JsonDiff.ElementwiseCovered` | mocks/behavior.py:1900-1926 | Every pointer of the mock's element-wise diff lies at or below one of the suite's |
| `JsonDiff.SuiteEditImpliesMockEdit` | conformance/check.py:2868-2874 | An edit in which the suite finds no forbidden path passes the mock's check too |
| `JsonPlaces.ChangedIsWherePart` | conformance/check.py:2589-2611 | The suite's diff reports exactly the outermost places where two documents part: only one has a value, types or scalars differ, or arrays differ in length |
| `JsonPlaces.ElementwiseIsWherePart` | mocks/behavior.py:1900-1926 | The mock's diff reports exactly these places when lengths do not count |
| `JsonPlaces.SuiteEditMeans` | conformance/check.py:2868-2874 | The suite allows an edit exactly when every such place starts with the tokens of an editable path |
| `JsonPlaces.MockEditMeans` | mocks/behavior.py:1879-1926 | And the mock exactly when every place of its own diff does |
| `JsonDiff.EditChecksAgree` | conformance/check.py:2868-2874 | The suite allows an edit exactly when the mock allows it and every outermost array whose length changes is itself editable |
| `JsonDiff.MockEditIsWeaker` | mocks/behavior.py:1879-1926 | The mock's check alone is not enough, with its input: an array that grows at an editable index |
| `JsonPatch.ArrayIndexIsNumeral` | conformance/check.py:2502-2514 | An accepted array index is the decimal numeral of a position, or the dash for an add |
| `JsonPatch.ApplyJsonPatch` | conformance/check.py:2517-2585 | The loop over the operations computes the sequential meaning of the patch and stops at the first error |
| `JsonPatch.PatchChangesOnlyItsPaths` | conformance/check.py:2517-2611 | Every pointer that differs after an accepted patch lies at or below the place of one of its operations, read in the document the earlier ones left: the operation's path, or, only where an add or a remove hits an array, that array's path |
| `JsonPatch.OperationRootIsPathOrArray` | conformance/check.py:2517-2585 | That place, spelled out, is the path as written, or its array's exactly when an array is edited, exactly for grammatical paths |
| `JsonPatch.StrayTildeMovesThePlace` | conformance/check.py:2491-2585 | An ungrammatical path can be accepted, with its input: an add at `/~2` acts at `/~02` |
| `JsonPatch.PathIsReadAsWritten` | conformance/check.py:2491-2499 | The path that the decoder reads is the one written exactly when it is grammatical |
| `JsonPatch.OperationAchieves` | conformance/check.py:2517-2585 | After an accepted add or replace its value is at its path, or last in the array it appends to; after a remove a member is gone, and adding the removed value at the path gives the document back |
| `JsonPatch.AddThenRemove` | conformance/check.py:2517-2585 | Removing what was added gives the document back exactly if nothing was overwritten and the add did not append |
| `JsonPatch.ReplaceBack` | conformance/check.py:2517-2585 | Replacing by the old value undoes a replace |
| `Redline.ApplyRedline` | mocks/behavior.py:1927-2000 | The mock's loop computes the meaning of a non-empty operation list, and nothing else is accepted |
| `Redline.RedlineIsStrictPatch` | mocks/behavior.py:1868-2000 | The mock accepts a list exactly when every operation is closed and grammatical and the suite accepts it, and then with the same result |
| `Redline.SuiteIsMoreLenient` | conformance/check.py:2517-2585 | The suite is strictly more lenient, with its input: a remove with an unused value |
| `Paths.RebaseNamesTheFile` | publication/aggregate_links.py:125-151 | Run at the repository root, the tool rebases a link to the very file that the source's link named, for every source, output and link path, also outside the repository |
| `Paths.RebaseNamesTheFileWhen` | publication/aggregate_links.py:125-151 | Run anywhere, it does so exactly when the directories that the output path climbs out of are called the same at the root and where it runs: always for an output inside the repository |
| `Paths.WorkingDirectoryMatters` | publication/aggregate_links.py:147-150 | That condition can fail, with its input: an output outside the repository, the tool run elsewhere |
| `Paths.RebaseKeepsPath` | publication/aggregate_links.py:125-151 | For an output inside the repository the two links also normalize to the same path |
| `Paths.ParentHoldsFile` | publication/aggregate_links.py:124-126 | The parent from which links are read is the directory the file is in, for every file whose last component is a name |
| `Paths.DestinationKeepsMeaning` | publication/aggregate_links.py:92-151 | Whatever is written is the anchor the aggregate assigned to the linked document, or names the same file exactly on that condition, for every output path; the query is kept |
| `Paths.DestinationCases` | publication/aggregate_links.py:92-151 | Exactly when a destination is left as it is, refused, and with which error, or turned into an anchor |
| `Anchors.FreeAnchor` | publication/aggregate_links.py:302-306 | The suffix search terminates for every set of used names, with the first free candidate |
| `Anchors.RepeatedSlugsAreNumbered` | publication/aggregate_links.py:295-308 | Headings with the same slug get it as it is, then with -1, -2 and so on |
| `Anchors.AllocateDistinct` | publication/aggregate_links.py:295-308 | Headings of one file get pairwise different anchors, none of them already in use |
| `Anchors.AllocateConcat` | publication/aggregate_links.py:295-308 | Allocating in two goes equals allocating once over the concatenated headings |
| `Anchors.HeadingAnchors` | publication/aggregate_links.py:288-309 | The single-file allocator computes that allocation |
| `Anchors.AllocateHeadings` | publication/aggregate_links.py:390-413 | The heading loop of one source maps its local anchors to the aggregate's and carries the used names on |
| `Anchors.ClaimExplicit` | publication/aggregate_links.py:380-388 | Explicit anchors are claimed exactly when no source owns one of them already |
| `Anchors.AggregateFragmentTargets` | publication/aggregate_links.py:362-415 | The map is built exactly when all explicit anchors differ, and then sends each source's anchors to the assigned ones |
| `Anchors.AggregateIsConcatenation` | publication/aggregate_links.py:362-415 | The anchors of the aggregate are those of the single-file allocator over the concatenated headings, source by source |
| `Anchors.AggregateDistinct` | publication/aggregate_links.py:362-415 | Heading anchors differ across all sources of the aggregate |
| `Anchors.FirstSourceUnchanged` | publication/aggregate_links.py:362-415 | In the first source every anchor is kept |
| `Anchors.HeadingsAvoidExplicit` | publication/aggregate_links.py:362-415 | No heading of the aggregate is given an explicit anchor exactly when the single-file allocator over all headings gives none |
| `Anchors.AllAnchorsDiffer` | publication/aggregate_links.py:362-415 | All anchors of the aggregate, explicit and generated, differ exactly then; for different slugs that is exactly when no slug is an explicit anchor, for any slugs this is needed, and it is enough that no explicit anchor is a slug with a number up to the heading's position |
| `Anchors.ExplicitAnchorsCanCollide` | publication/aggregate_links.py:380-413 | That condition can fail: a heading is given another source's explicit anchor |
| `SourceMap.AbsorbMapping` | publication/modular.py:250-296 | The loop body extends the last range in place or starts a new one |
| `SourceMap.CompactSourceMap` | publication/modular.py:241-303 | Compaction fails exactly on an unsupported mapping; otherwise the result is canonical and expands to the raw map |
| `SourceMap.CompactLossless` | publication/modular.py:241-303 | Compacting loses no entry and no two neighbouring ranges could still merge |
| `SourceMap.CanonicalIsCompact` | publication/modular.py:241-303 | Compacting what a canonical map expands to gives that map back, so the compact form is unique |
| `Provenance.ValidateCompactSourceMap` | publication/modular.py:308-450 | A map is accepted exactly when its header names versions and digest, the given sources are the selected ones, every mapping is well shaped and the map is proven: every line numbered, separators blank, every source line used once in catalog order, the output without separators equal to the rewritten sources, no source empty |
| `Provenance.ValidateMappings` | publication/modular.py:359-450 | The loop over the mappings accepts exactly the well-shaped proven maps |
| `Provenance.BlankMeans` | publication/modular.py:381-391 | A separator line is blank exactly when it has whitespace only |
| `Provenance.ProvenIsAccepted` | publication/modular.py:359-435 | In a proven map every range passes the loop's tests |
| `Provenance.AcceptedStep` | publication/modular.py:359-435 | A range that passes extends what the loop has established |
| `Provenance.Finished` | publication/modular.py:433-450 | The final tests hold exactly when the map is proven; a source without lines is never passed |
| `Assembly.ExpectedMappedSourceLines` | publication/aggregate_links.py:486-546 | The expected lines are the shifted and rewritten source lines, and exist exactly when every line can be rewritten |
| `Assembly.ExpectedLine` | publication/aggregate_links.py:486-546 | Each expected line: the first source's headings stay, later ones are demoted by one, what is inside fences is not rebased and all else is |
| `Assembly.RebaseAggregateLinks` | publication/aggregate_links.py:549-602 | The pass over the raw map rewrites each mapped line outside fences and nothing else |
| `Assembly.PassesFailTogether` | publication/aggregate_links.py:486-602 | On a faithful raw output the two rewriting passes succeed or fail together |
| `Assembly.AssemblyIsProven` | publication/modular.py:241-450 | Rebasing and compacting a faithful raw output gives a proven map exactly when there is a line and every source has one |
| `Assembly.Assemble` | publication/aggregate_links.py:486-602 | Running the passes, the compaction and the validator on a faithful output ends in acceptance exactly when the sources can be rewritten, there is a line and no source is empty |
| `Graphs.RankedIsAcyclic` | publication/check.py:1082-1088 | A relation along which a rank falls has no cycle |
| `Graphs.StuckHasCycle` | publication/check.py:1096-1107 | A finite set in which everything depends on something inside contains a cycle |
| `Kahn.Visit` | publication/check.py:1099-1104 | One visit decrements the dependents' counts and queues those that reach zero |
| `Kahn.VisitAll` | publication/check.py:1096-1107 | The loop visits every document exactly when the dependency relation is acyclic |
| `DependencyGraph.IndexDocuments` | publication/check.py:1005-1041 | The index is built exactly when documents come in publication order, ids and source paths are all different and every role fits its kind |
| `DependencyGraph.OrderedIsAcyclic` | publication/check.py:1082-1088 | Publication order on every edge excludes cycles |
| `DependencyGraph.RolesAreAcyclic` | publication/check.py:1076-1088 | The permitted roles of dependencies exclude cycles by themselves |
| `DependencyGraph.RecordEdges` | publication/check.py:1053-1094 | The edge loop of one document fails exactly when one of its tests does, and otherwise records counts and dependents |
| `DependencyGraph.ValidateDependencyGraph` | publication/check.py:1044-1107 | The check passes exactly when every document passes the edge tests; the cycle error is never reported |
| `Companions.ClosureIndex.CompanionClosure` | conformance/check.py:1639-1654 | Terminates on cyclic graphs and returns, with its cache, the sorted actions reachable by companion edges other than the action itself |
| `Companions.ClosureUnique` | conformance/check.py:1639-1654 | There is only one such list |
| `Ordering.LessMeans` | conformance/check.py:1639-1654 | The order of such lists is by code point: the first difference decides and a proper prefix comes first |
| `Companions.ClosedByDirectCompanions` | conformance/check.py:1914-1925 | A request contains every closure exactly when it contains every direct companion |
| `Recovery.CheckRelationships` | conformance/check.py:1560-1594 | The inner loops accept exactly matching relationships and collect exactly the covered effects |
| `Recovery.CheckDeclaration` | conformance/check.py:1544-1635 | The loop body accepts exactly what its tests demand of one declaration, its companions included |
| `Recovery.CheckRecovery` | conformance/check.py:1544-1635 | The loop accepts exactly the consistent declaration sets: companions resolve within the operation, relationships and targets match |
| `Recovery.ChecksMeanConsistent` | conformance/check.py:1544-1635 | All local tests together say that outbound relationships and inbound targets are exact converses and effects are exactly covered |
| `Recovery.RelationshipHasOneTarget` | conformance/check.py:1560-1578 | Every relationship has exactly one counterpart, equal in mode, effects and window |
| `Recovery.TargetHasOneRelationship` | conformance/check.py:1613-1635 | Every recovery target has exactly one counterpart |
| `Recovery.RecoveryNeverChains` | conformance/check.py:1371-1385 | Recovery goes from commit actions to compensate or revert actions, which are not recovered themselves |
| `Recovery.ReversibleIsInternal` | conformance/check.py:1579-1612 | No accepted commit action has a reversible external effect |
| `Applicability.ApplicableVectors` | conformance/check.py:6930-6982 | The loop computes the unique derivation, or reports exactly an overlap |
| `Applicability.DerivationUnique` | conformance/check.py:6930-6982 | Two derivations for the same selection are equal |
| `Applicability.SplitContents` | conformance/check.py:6938-6968 | A vector is listed exactly when a requirement of the profile mentions it with that answer |
| `Applicability.SplitDividesProfile` | conformance/check.py:5989-6125 | On a checked matrix the two lists divide the profile's vectors exactly by applicability |
| `Applicability.ReasonMeans` | conformance/check.py:6938-6968 | A vector is left out for a feature exactly when its role fits and its requirements ask for a feature, otherwise for its role |
| `Applicability.NoOverlap` | conformance/check.py:6969-6974 | On a checked matrix the overlap error is unreachable |
| `Applicability.ApplicableDistinct` | conformance/check.py:6957-6968 | No vector is listed twice |
| `Applicability.FeaturesDistribute` | conformance/check.py:6914-6982 | The applicable vectors of a union of feature sets are the union of those of each |
| `Observations.DeltasAgree` | conformance/check.py:6985-7012 | Comparing sorted delta lists compares them as multisets, under Python's numeric equality, when no state is named twice |
| `Observations.NormalIsEquality` | conformance/check.py:7004-7011 | Two values have the same normal form exactly when Python compares them as equal: numbers and Booleans by value, strings by identity, arrays pointwise, objects key by key |
| `Observations.DeltasShow` | conformance/check.py:7004-7011 | The delta lists agree exactly when every expected change is observed, once, with equal values before and after, and nothing else is |
| `Observations.PassingMeets` | conformance/check.py:6985-7012 | A comparison passes exactly when tokens, errors and reasons are the required ones and the changes shown are exactly the required ones; the forbidden-token branch is never reached |
| `Observations.RequiredCounterpartDigests` | conformance/check.py:7128-7148 | The loop computes the digests of the matched counterparts, or none |
| `Observations.MatchedAreIndependent` | conformance/check.py:7128-7148 | Matched counterparts are pairwise different, fit their needs and share neither boundary nor artifact with the subject |
| `Observations.MatchedWereOnlyChoice` | conformance/check.py:7128-7148 | Each matched counterpart was the only independent one left when its need came up |
| `Verdict.CountsAddUp` | conformance/check.py:7313-7342 | Passed, failed and error counts add up to the total |
| `Verdict.SummaryMeans` | conformance/check.py:7313-7342 | One failure makes the verdict a failure; without one, an error, an uncovered feature or a fixture makes it incomplete; reasons and counts say which and how many |
| `Verdict.VectorRecomputes` | conformance/check.py:7474-7797 | Whatever the adapter and the probe did in one pass of the runner, on every error path the verifier recomputes exactly the result that was reported |
| `Verdict.ResultMeans` | conformance/check.py:7474-7589 | A vector's result is an error exactly if nothing of the run, subject and counterparts asked for was observed, and otherwise a pass exactly if the observation shows what the vector requires; each failure has its token |
| `Verdict.RecomputeMeans` | conformance/check.py:7735-7797 | The verifier takes a result exactly if it is of a known vector as the catalog has it and says what follows from the observation it refers to; only the token of an error is taken on trust |
| `Verdict.RunVectors` | conformance/check.py:7473-7589 | The loop gives each vector its result, in order, and keeps the valid observations |
| `Verdict.RecomputeAll` | conformance/check.py:7735-7797 | The verifier's loop accepts exactly the results that equal their recomputation and notes what they refer to |
| `Verdict.VerifyReport` | conformance/check.py:7726-7827 | A report is accepted exactly when everything the verifier derives itself agrees with it |
| `Verdict.RunIsVerified` | conformance/check.py:7473-7827 | Whatever adapters and probes do, the report of a run verifies exactly when its observation ids differ and its clock readings fit |
| `Verdict.RunSuite` | conformance/check.py:7473-7589 | Running and verifying ends in acceptance exactly under that condition |
| `Verdict.ReferencesAreInjective` | conformance/check.py:7772-7800 | Different non-error results refer to different observations, one each |
| `Verdict.ReferencesAreSurjective` | conformance/check.py:7772-7800 | Every observation is referred to by a non-error result |
| `Verdict.PassVerdictCounts` | conformance/check.py:7313-7342 | A pass summary means that every result passed, nothing is uncovered and the subject is no fixture |
| `Verdict.PassVerdictMeans` | conformance/check.py:7726-7827 | A verified pass: every applicable vector passed on an observation of its own that shows exactly what it requires |
| `Verdict.PassCoversProfile` | conformance/check.py:6914-7827 | In terms of the matrix: every vector of the profile that applies has passed, in exactly one place |
| `JournalProtocol.WriterKeepsInv` | mocks/state.py:91-140 | Every filesystem step of an initializer, failing ones included, keeps the invariant that ties each directory to the owner's progress |
| `JournalProtocol.ReaderKeepsInv` | mocks/state.py:142-182 | Every step of a reader keeps it, the non-atomic listing and reading in pieces included |
| `JournalProtocol.AtMostOneInitializer` | mocks/state.py:115-119 | In every interleaving at most one initializer of a storage key gets past mkdir, so at most one succeeds |
| `JournalProtocol.ReadIsTheWinners` | mocks/state.py:91-182 | A successful read returns the whole journal of the initializer that won the mkdir, whose scope is the reader's own, also under a shared key |
| `JournalProtocol.ReadsAgree` | mocks/state.py:142-182 | Any two successful reads of a scope agree, whenever they happen |
| `JournalProtocol.LateReadersSucceed` | mocks/state.py:91-182 | A reader that starts once its scope's journal stands under its final name ends with that journal unless its own I/O fails, also when the initializer then raised |
| `JournalProtocol.CompleteOnceRenamed` | mocks/state.py:115-140 | The journal stands at every moment from the rename on, whatever becomes of the initializer: success, a failed last flush or a crash |
| `JournalProtocol.CorruptIsForeign` | mocks/state.py:142-182 | No reader, whenever it starts, meets a torn journal of its own scope: what does not parse is the whole journal of another scope that shares the key |
| `JournalProtocol.CompleteOnceRead` | mocks/state.py:142-182 | It stands once any reader of the scope has read it, so later readers read it too |
| `JournalProtocol.NeverTwice` | mocks/state.py:115-119 | A key whose directory exists is never initialized again, whatever became of the first attempt |
| `JournalProtocol.EndsAreHonest` | mocks/state.py:91-119 | An initializer is rejected only for its journal and refused only because the key's directory exists |
| `JournalProtocol.NeverStuck` | mocks/state.py:91-140 | In every run, until it has ended, an initializer has a step besides failing that it can take |
| `JournalProtocol.ValidMeansStorable` | mocks/state.py:53-83 | A journal may hold a document exactly if no value anywhere in it is a floating-point number or an integer out of the safe range |
| `JournalStore.Store.Initialize` | mocks/state.py:91-140 | With any one system call failing, the new disk and the result are exactly those of the specification |
| `JournalStore.Store.Write` | mocks/state.py:122-139 | The body of the try block, up to the first failing call |
| `JournalStore.InitializeFollowsTheProtocol` | mocks/state.py:91-140 | The sequential initializer is a path of the protocol, for every fault: same final directory, same outcome |
| `JournalStore.InitializeMeans` | mocks/state.py:91-140 | What initializing reports and leaves, exactly: nothing changes unless the journal is admitted and the key new, and only a walk that ends in success is reported as one |
| `JournalStore.ReadFollowsTheProtocol` | mocks/state.py:142-182 | The sequential read of a directory is a path of the protocol: it ends with the journal, absent where it is incomplete, corrupt where it is unreadable or another's |
| `JournalStore.ReadableMeans` | mocks/state.py:142-182 | Exactly when a read gives a journal, and which error it gives otherwise |
| `JournalStore.ReadableExactlyIfRenamed` | mocks/state.py:115-140 | After an attempt on a fresh scope the journal reads back exactly when the rename happened, also when initialize then raised |
| `JournalStore.ReadNamesItsScope` | mocks/state.py:175-182 | A read never returns a journal of another scope that shares the key |
| `MockState.Transition.Set` | mocks/behavior.py:744-747 | Assigns an existing state value, and raises for a missing one |
| `MockState.Transition.Bump` | mocks/behavior.py:749-755 | Increments an existing integer that is not a Boolean, and raises otherwise |
| `MockState.Transition.BumpAll` | mocks/behavior.py:749-755 | Increments in any order: all succeed exactly when every name is an existing integer, and each of them then grows by one |
| `MockState.Transition.SetAll` | mocks/behavior.py:744-747 | Assignments in any order: all succeed exactly when every name exists, and nothing else changes |
| `MockState.Transition.Run` | mocks/behavior.py:757-775 | A plan gives its outcome exactly when every update is possible and the tokens are some and all different |
| `MockState.CollectMeans` | mocks/behavior.py:720-736 | An initial state is read exactly when names are present, different and values are no floats, and holds exactly the items |
| `MockState.ReadInitialState` | mocks/behavior.py:720-736 | The loop computes it |
| `MockRoles.Evaluate` | mocks/behavior.py:5379-5413 | Evaluating a call on an initial state runs what the role plans for it, behind the guard against embedded impact simulations |
| `MockRoles.Surface` | mocks/behavior.py:3940-4043 | Surface Publisher: every plan of the role reports different tokens, increments the counters of a group together, reports receipts, fences and issued grants exactly when it counts them, and, rejecting, changes nothing |
| `MockRoles.Grant` | mocks/behavior.py:4046-4197 | Grant Issuer: the same; a rejection counts at most look-ups |
| `MockRoles.Action` | mocks/behavior.py:4200-4619 | Action Executor: the same, a rejection being harmless; an action is reported accepted exactly when it is dispatched and takes effect, a policy denial counts one receipt alone and a retransmission one transmission alone |
| `MockRoles.Receipt` | mocks/behavior.py:4622-4661 | Receipt Producer: as the Surface Publisher |
| `MockRoles.Mediate` | mocks/behavior.py:4664-5186 | Runtime Mediator: as the Grant Issuer |
| `MockRoles.Adapt` | mocks/behavior.py:5264-5376 | Agent Adapter: as the Surface Publisher |
| `MockRoles.PlanFor` | mocks/behavior.py:5379-5413 | The same for every call of every role, behind the guard against embedded impact simulations, which rejects without any change |
| `MockRoles.CallRejects` | mocks/behavior.py:5379-5413 | A rejected call of any role counts something exactly on a condition on the document and the incoming state: a purpose look-up that could be counted, a denial by policy, or an event to queue |
| `MockLedger.RejectedSpares` | mocks/behavior.py:5379-5413 | A rejected call of any role leaves dispatch, effect, idempotency, charge, issue and forward counters as they were, also when it revokes or fences |
| `MockLedger.PlanKeepsNames` | mocks/behavior.py:739-775 | No call adds or removes a state name, and its before is the state it was given |
| `MockLedger.StepExactlyWhen` | mocks/behavior.py:757-775 | A call has an outcome exactly when it is planned and the state has what it counts and sets: no role ever trips over its own tokens |
| `MockLedger.RejectedChangesNothing` | mocks/behavior.py:5379-5413 | A rejected call leaves the whole state as it was exactly when it counts no look-up, no denial and no queued event |
| `MockLedger.QueueingIsRejectedAndCounts` | mocks/behavior.py:4313-4346 | That condition can fail: queueing an event is a rejection that changes the state |
| `MockLedger.RunKeepsNames` | mocks/behavior.py:739-776 | Nor does any run |
| `MockLedger.GroupsGrowTogether` | mocks/behavior.py:4046-5376 | Over every run of calls of any roles effects, records and charges grow in lockstep; so do grants and credentials, manifests and versions, the marks of a revocation and those of a delivery |
| `MockLedger.CountersOnlyGrow` | mocks/behavior.py:749-755 | Over every run no state value that is only counted goes down, look-up counters included, and none grows faster than the calls |
| `MockLedger.CountersAreReported` | mocks/behavior.py:4046-5376 | Over every run of calls of any roles the application receipts counted are the results that report one; so are session fences and issued grants |
| `MockLedger.ExecutorLedger` | mocks/behavior.py:4200-4619 | Over every run of the Action Executor dispatches are effects and accepting results, receipts exceed effects by exactly the policy denials, and transmissions exceed first deliveries by exactly the retransmissions |
| `MockLedger.RevocationIsTotal` | mocks/behavior.py:791-808 | A revocation, whichever call makes it, leaves the grant revoked, nothing active and the confirmation flag set |
| `MockLedger.RetriesWait` | mocks/behavior.py:4914-5018 | Whichever call schedules a retry leaves it waiting and the local windows at zero |
| `MockLedger.RevokingRevokesOrReplays` | mocks/behavior.py:4182-4197 | A call that revokes a grant either revokes it totally or leaves the state as it was |
| `MockWarrants.CurrentPurposeMeans` | mocks/behavior.py:626-663 | A purpose resolves exactly when the records are the Grant's, is in the gravest condition of purpose and task, and allows exactly when both are active and allow |
| `MockWarrants.IssuedWithinMeans` | mocks/behavior.py:4046-4181 | The issued actions are within the request exactly when both are lists of scalars and each issued one equals a requested one |
| `MockWarrants.EmbeddingMeans` | mocks/behavior.py:34-146 | The guard sees an embedded impact simulation exactly in the sections from which the operation takes authority |
| `MockWarrants.OnlyTheWarranted` | mocks/behavior.py:3940-5413 | Whatever the role, a call executes or dispatches an action, issues, stores or revokes a Grant, forwards a request, fences a session, publishes a manifest, delivers an event, revises a proposal or schedules a retry, once, exactly when its document and the state show everything that this takes: the counters of the new state grow by one exactly then |
| `MockWarrants.TheWarrantedIsDone` | mocks/behavior.py:3940-5413 | A call that is warranted to do anything raises only if the state lacks what it counts or sets |
| `MockWarrants.RunsDoTheWarranted` | mocks/behavior.py:3940-5413 | Over every run of calls of any roles each of these deeds is done exactly as often as calls were warranted to do it in the state they met |
| `MockWarrants.InvocationTakesEffect` | mocks/behavior.py:4438-4619 | After an invocation the effect count has grown, by one, exactly when no impact simulation is embedded and proof, audience, grant, runtime, purpose, policy and capacity all hold, in whatever order they are tested |
| `MockAnswers.InvocationIsAnswered` | mocks/behavior.py:4438-4619 | An invocation is accepted exactly if nothing is wrong and otherwise rejected for the first thing that is: input, proof, issuer, Grant, runtime, session, records, the gravest condition of the purpose, policy, goal, risk, capacity |
| `MockAnswers.ReplayIsAnswered` | mocks/behavior.py:4347-4437 | A replay gives the original result exactly if what is replayed is what was recorded and the purpose still admits, otherwise the first thing that is not so |
| `MockAnswers.ReceiptIsAnswered` | mocks/behavior.py:4622-4661 | A receipt is produced, and counted for its role, exactly if it claims no authority, says what its role observed, is whole and observed; it is verified exactly if it is whole |
| `MockAnswers.BindAnswers` | mocks/behavior.py:879-906 | A capacity error is bound to HTTP exactly if its Retry-After, when given, goes with it |
| `MockWarrants.IssuanceIssues` | mocks/behavior.py:4087-4181 | After a request for a Grant the grant count has grown, by one, exactly when none is embedded and surface, purpose, attenuation, request, closure and passport all hold |
| `MockAnswers.IssuanceIsAnswered` | mocks/behavior.py:4087-4181 | A request for a Grant is accepted exactly if everything is shown and otherwise rejected for the first thing that is not |
| `MockLedger.ChainNeverWidens` | mocks/behavior.py:665-679 | Along any chain of bindings of which none is wider than the one before, the purpose stays, a bound task stays, and the last is not wider than the first |
| `Participant.Execute` | mocks/participant.py:159-221 | A refused request leaves the store alone; otherwise the store is what initializing it with the journal makes it |
| `Participant.ExecutedMeans` | mocks/participant.py:159-194 | A request is executed exactly if it is asked of this family by the adapter's protocol, its case is the subject's, the behaviour does not fail, its names fit and no counterparts are given; else which error it gets |
| `Participant.JournalIsFaithful` | mocks/participant.py:196-214 | The journal has the closed shape and says what was asked and what came of it |
| `Participant.MockIsSound` | mocks/behavior.py:5379-5413 | Every outcome of the mock starts from the given state, keeps its names and reports different tokens, as the round trip below asks |
| `Participant.FaithfulIsObserved` | mocks/participant.py:236-323 | A probe on such a journal is answered exactly when it asks for all the states in order |
| `Participant.ExecutedIsObserved` | mocks/participant.py:159-323 | After an execute whose journal reached its final name, a matching probe is answered with the call's tokens and each state's value before and after |
| `Participant.ObservedMeans` | mocks/participant.py:236-323 | A journal is read as a report exactly if it has the closed shape, is of the subject, harness, family, profile and role asked for, and its states are asked for in order and completely; else the first of these that fails is the error |
| `Participant.ReportMeans` | mocks/participant.py:300-323 | A report says who and what was asked for, the journal's tokens, counterparts and codes, and each requested state before and after |
| `Participant.ObservedOnMeans` | mocks/participant.py:223-260 | Before that a request of another protocol or family is bad, and a journal that cannot be read is reported as such |
| `Participant.ObservedBeforeIsInitial` | mocks/participant.py:313-316 | The values before are those the case started from |

## Left out

- Git, subprocesses, the Hyperprompt compiler, temporary directories and file digests: foreign calls.
- JSON Schema and Markdown parsing, fenced-line detection and the regular expressions that find links in a line: heading slugs, explicit anchors, line lists and the line rewriter are inputs.
- `validate_mcp_binding_projection`, `_validate_mcp_binding`, `_validate_ahp_binding`, `_validate_human_elicitation`, the impact and risk validators and the shape check `_purpose_projection`: long flat conjunctions, taken as functions of the document that return what the caller uses.
- Timestamps, HTTP dates and language tags: calendar and pattern work; clock readings are integers and the HTTP-date test is a parameter.
- The DOM code around `solveRail`, dashboard state and table of contents: easy members.
- `publication/migration/materialize.py` and the historical source-map check in `publication/check.py`: the second is a near copy of the modular validator with a weaker order rule.
- Catalog checks of recovery declarations other than companions, relationships and targets.
- Schema checks of reports and observations, and catalog checks that neither the applicability nor the verdict argument needs.
- Rail.SolveRail: exact rational positions instead of binary floating point, and the sort as a stable insertion sort.
- JsonPatch.ApplyJsonPatch: documents are values, so in-place editing and aliasing between a patch value and the document are not modelled; a path that is not a string or an unhashable operation name counts as an error.
- Provenance.ValidateCompactSourceMap: a header number that only equals 2 or 1, such as `2.0` or `true`, which Python accepts, is not in the model.
- Paths.DestinationKeepsMeaning: the split URL is a record, so a rebased first segment with a colon, which a later parse would read as a scheme, is not modelled; source and output are relative paths, as the callers enforce.
- Verdict.VerifyReport: the comparison of sorted reference lists is a comparison of multisets; report fields outside derivation, results, observations, summary and times are not modelled.
- JournalProtocol.LateReadersSucceed: power loss is not modelled, so nothing is said about which renames survive it; symbolic links and the parent directory's own flush are not modelled either.
- JournalStore.Store.Initialize: one fault per attempt, since a failing call ends the attempt; a failing mkdir for another reason than an existing directory leaves nothing and is not listed.
- MockRoles.Evaluate: an unhashable value where the source tests membership in a set raises there and is an ordinary mismatch here; an issued-action field that is a string or object, which Python would iterate, raises here.
- MockLedger.ExecutorLedger: receipts that the Receipt Producer counts on its own are outside the statement about Action Executor runs; `MockLedger.CountersAreReported` covers runs of all roles.
- MockRoles.Surface: which tokens, decision and error each branch reports is the plan itself, except where `MockAnswers` says so; the contract states what all branches keep, and `MockWarrants.OnlyTheWarranted` what makes a call do what it does.
- MockRoles.Grant: as `MockRoles.Surface`.
- MockRoles.Action: as `MockRoles.Surface`.
- MockRoles.Receipt: as `MockRoles.Surface`.
- MockRoles.Mediate: as `MockRoles.Surface`.
- MockRoles.Adapt: as `MockRoles.Surface`.
- MockRoles.PlanFor: as `MockRoles.Surface`.
- Participant.FaithfulIsObserved: token names are not listed, so that they are legible is assumed, not shown.
- Participant.Execute: requests are records of the right types, so the checks for missing members and wrong types are not modelled; the capture time of a report is not modelled.
