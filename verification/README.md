# Datum's guarantees, as a Dafny model

Datum compares a *declared* plane (documents in Git) with a *discovered* plane (what providers report) and
keeps, per tenant, the matches between them and the discrepancies found. This project models the parts of
Datum whose correctness depends on loops, recursion or whole histories, and proves what those parts promise.
`dafny verify dfyconfig.toml` checks all of it.

| files | what they model |
|---|---|
| `texts`, `values`, `canonical`, `identity`, `planes`, `storability` | value identity: the canonical text of a value, why it is injective, and the breadth-first walk that admits a value |
| `divergence`, `dedup`, `lists`, `fields`, `modes`, `policies` | the configured comparison of one field: recursive objects, the three list modes, keyed objects, timestamps, what a configuration may say and what each mode of it means |
| `snapshots`, `indexing`, `sorting`, `matching`, `anchoring`, `diffing`, `relisting` | pairing the planes under human decisions, and turning pairs into differences |
| `tables`, `reconciliation`, `runs`, `outcomes`, `reruns`, `findings` | one reconciliation run over the stored match and discrepancy tables, and histories of runs |
| `locks`, `exclusion` | sessions with savepoint stacks and advisory locks, in every interleaving, and reconciliation runs under them |
| `absence`, `collection`, `conclusions`, `handover` | collector runs, when a discovered resource counts as gone, and what a clean read gives the next reconciliation |
| `nodes`, `effort`, `construction`, `keylines`, `documents`, `locating`, `documentset` | reading YAML node graphs that may be shared or cyclic, what the walks cost, where a rejection is located, and whole revisions of documents |
| `ingest` | writers racing to project commits, under READ COMMITTED and two unique indexes |
| `audit` | sampling of the comparison log |

Code that Datum writes as updates to objects is a class here (`Estate`, `Cluster`, `Discovery`, `Builder`,
`LineWalk`, `Ingester`, `AuditLogWriter`), each method proved against a function of the state before it; the
theorems are then about those functions. Interleavings are modelled as logs of atomic steps, and theorems
about them hold for every log. Text is a sequence of code points, lone surrogates included. Integers are
unbounded, as Python's are.

Where an obvious statement is false of the code, the model keeps the code and states exactly when it holds:

* The set mode of lists compares sets of canonical forms on exactly the lists whose deduplication merges only
  equal values (`Lists.SetModeIsExactlyFaithful`); `[1, true]` against `[true, 1]`
  (`Lists.BooleansAndIntegersCollide`), a mapping against its pairs (`Lists.MappingCollidesWithPairs`) and a
  mapping holding a list or mapping (`Lists.UnhashableExactly`) fall outside.
* A comparison need not reach a verdict: the set mode raises on an item without a hash, and a tolerance on a
  number past every float (`Fields.RaisesExactly`). Swapping the planes changes the outcome exactly when one
  side is not a number and the other overflows (`Fields.SymmetricExactlyUnlessLopsided`). What a policy
  reports is stated for the pairs on which nothing raises, and `Policies.PairRaisesExactly` says which those are.
* Every mode but tolerance is transitive; tolerance is for zero only (`Fields.OnlyZeroToleranceIsTransitive`).
* A run completes if and only if present resources have distinct provider ids, no confirmation joins two
  kinds and no comparison raises (`Runs.RunCompletesExactly`). No constraint ensures the first: a partial read
  of a renamed resource breaks it (`Conclusions.RenameInPartialReadLeavesBoth`).
* Re-ingesting an old commit returns its revision as it is: active only if it was so already
  (`Ingestion.Ingester.Ingest`), and one commit, then another, then the first again ends with a returned
  revision that is not active (`Ingestion.FormerCommitReturnsInactive`).
* A rejection may name no line for a key the document does write, but only where the mapping that states the
  key is shared (`DocumentSets.RejectionsFindTheirLine`).
* Canonical text is injective on storable text only (`Identity.LoneSurrogatesCollide`).
* A session-scoped lock around a nested block loses updates, from any state in which such a block is left
  (`Locks.SessionLockLosesAnUpdate`), which is why the transaction-scoped one exists.

Two comments in the repository disagree with its code, and the model follows the code:
`datum/reconcile/comparison.py:320-323` says `exact_value` finds 3 and 3.0 equal, but their canonical texts
differ (`Fields.ExactValueSeparatesIntFromFloat`); `datum/reconcile/matcher.py:23-26` says a bound rename
yields a discrepancy on `name`, but only attributes are compared (`Diffing.RenameAloneIsSilent`).

## Model

| member | source | states |
|---|---|---|
| Identity.CanonicalIsIdentity | datum/reconcile/domain.py:15-41 | two storable values have the same canonical text if and only if they are the same value: scalar types kept apart, mapping order ignored, tuples read as lists |
| Identity.DecimalIsNotFloat | datum/reconcile/domain.py:23-27 | no int is spelt like any float, so 1 and 1.0 are two values |
| Identity.LoneSurrogatesCollide | datum/reconcile/domain.py:263-281 | a lone surrogate pair prints like one astral character, so identity by text needs the storable-text rule |
| Planes.EqualityMeansSameStatement | datum/reconcile/domain.py:295-355 | two statements are equal exactly when both are absent or both state the same value; absent never equals an explicit null |
| Planes.SameIsEquivalence | datum/reconcile/domain.py:344-350 | being the same value is reflexive, symmetric and transitive on storable values |
| Storability.UnstorableAttribute | datum/reconcile/domain.py:98-130 | the queue-driven walk refuses an unusable attribute name first, else names the shallowest offending node, ties broken by insertion order, else accepts |
| Storability.AcceptanceIsStorability | datum/reconcile/domain.py:208-292 | the walk accepts exactly when every value and key at every depth is storable, and then every mapping has only string keys |
| Storability.VerdictIsUnique | datum/reconcile/domain.py:98-130 | only one verdict meets that description, address included |
| Storability.TextFaultIsTrue | datum/reconcile/domain.py:263-281 | a text is faulted for a NUL exactly when it holds one, and for a surrogate exactly when it holds one and no NUL |
| Storability.InspectIsTrue | datum/reconcile/domain.py:208-292 | what is said of the node named is true of it: a text or a key with the fault named, a key that is no string, a number that is not finite, a value JSON does not have; and nothing is said only of a node without any |
| Storability.PathSpells | datum/reconcile/domain.py:240-292 | the place named is the attribute's name, then `.key` for each step into a mapping and `[index]` for each into a list |
| Divergence.DivergenceDecidesSameness | datum/reconcile/comparison.py:1338-1370 | at every depth from -1 up, drilling finds no difference exactly when the two values are the same |
| Divergence.RecurseIsOpaque | datum/reconcile/comparison.py:1306-1335 | the depth changes what is named, never the verdict: every depth agrees with whole-value canonical equality |
| Divergence.FirstDivergenceIsFirst | datum/reconcile/comparison.py:1338-1399 | the path named is a real difference within the depth, and everything earlier in sorted depth-first key order agrees |
| Divergence.DivergesExactly | datum/reconcile/comparison.py:1338-1399 | a drill of some depth calls a place different exactly when it lies no deeper and either one object alone has its last key, or the two values there differ and the drill looks no deeper |
| Divergence.ReportIsDotted | datum/reconcile/comparison.py:1388-1399 | a place is named by its keys joined with dots, the objects themselves as the root |
| Lists.CompareOrdered | datum/reconcile/comparison.py:747-777 | the loop agrees exactly when the canonical forms agree position by position |
| Lists.CompareMultiset | datum/reconcile/comparison.py:780-815 | sorting and comparing pairwise agrees exactly when the multisets of canonical forms are equal |
| Lists.CompareSet | datum/reconcile/comparison.py:818-853 | an unhashable item raises; otherwise the verdict is that of the lists left by dictionary deduplication |
| Lists.DedupeLoop | datum/reconcile/comparison.py:697-705 | filling a dictionary keeps one item for each class of items Python finds equal, the last one met |
| Lists.SortedAgreeIffMultisetsEqual | datum/reconcile/comparison.py:675-694 | the sort key lines up equal canonical forms, so sorted lists match exactly when the multisets do |
| Lists.FaithfulSetModeComparesSets | datum/reconcile/comparison.py:818-853 | where equal hash keys come only from equal values, the set mode compares sets of canonical forms |
| Lists.SetModeIsExactlyFaithful | datum/reconcile/comparison.py:730-853 | the set mode compares a list as a set, against every hashable list that is itself faithful, exactly when deduplicating it merges only equal values |
| Lists.OrderedMultisetSet | datum/reconcile/comparison.py:639-853 | ordered agreement implies multiset agreement, which implies set agreement on such lists |
| Lists.BooleansAndIntegersCollide | datum/reconcile/comparison.py:730-744 | 1 and true share a hash key, so a list and its reversal disagree under the set mode |
| Lists.ScalarsAlikeExactly | datum/reconcile/comparison.py:697-705 | the set mode cannot tell two scalars apart exactly when they are one value or two numbers of one worth, true being 1 and false 0 |
| Lists.MappingCollidesWithPairs | datum/reconcile/comparison.py:730-744 | a mapping and the list of its pairs share a hash key and are not the same value |
| Lists.UnhashableExactly | datum/reconcile/comparison.py:730-744 | a value has no hash key exactly when, at any depth of lists, it has a mapping that holds a list or a mapping |
| Fields.AcceptedModesAreDispatched | datum/reconcile/schema.py:225-363 | a configuration is accepted exactly when it is completely stated and its mode reaches neither the unknown-mode nor the unusable-parameter path; accepted tolerances and depths are in range |
| Fields.CoarserStillAgrees | datum/reconcile/comparison.py:856-910 | instants that agree at a precision agree at every coarser one, from second through minute and hour to day |
| Fields.RaisesExactly | datum/reconcile/comparison.py:730-744 | a comparison raises exactly where the set mode meets, on either side and at any depth of lists, a mapping that holds a list or a mapping, or a tolerance a number that overflows after any earlier conversion succeeded |
| Fields.AgreementIsPartialEquivalence | datum/reconcile/comparison.py:1410-1416 | agreement is symmetric in every mode, and transitive in every mode but tolerance, absence and null included; a comparison that raises agrees with nothing |
| Fields.SymmetricExactlyUnlessLopsided | datum/reconcile/comparison.py:399-404 | the outcome, raising included, is the same with the planes swapped exactly unless a tolerance meets a non-number on one side and an overflow on the other |
| Fields.ZeroToleranceIsTransitive | datum/reconcile/comparison.py:379-420 | the tolerance mode with tolerance zero is transitive |
| Fields.OnlyZeroToleranceIsTransitive | datum/reconcile/comparison.py:379-420 | at values converting to 0, t and 2t the tolerance mode agrees on both neighbours, and on the outer two exactly when t is zero |
| Fields.OnlyLikeStatementsAgree | datum/reconcile/comparison.py:192-241 | agreement needs both planes present or both absent, null only with null, and otherwise values the mode can compare |
| Fields.ObjectVerdictIgnoresKeyOrder | datum/reconcile/comparison.py:1066-1303 | reordering the keys of either object, at any depth, changes no object mode's verdict |
| Fields.SameStatement | datum/reconcile/comparison.py:1228-1283 | the same object states the same thing about a key, whatever order it lists its keys in |
| Fields.ExactValueIsStricter | datum/reconcile/comparison.py:315-376 | scalars that agree under `exact_value` are identical and agree under `exact_string` |
| Fields.ExactValueSeparatesIntFromFloat | datum/reconcile/comparison.py:315-345 | no int agrees with any float under `exact_value` |
| Modes.AcceptedModesMean | datum/reconcile/comparison.py:244-1432 | under every accepted configuration, a comparison that does not raise finds agreement exactly when its mode says so of the two values: the same value, Python's spelling after lower-casing, trimming or normalising, within the tolerance written, item by item, as multisets or sets, in the same unit of time, or stating the same under one key |
| Modes.RefusedModesNeverAgree | datum/reconcile/comparison.py:45-53 | a mode that validation refuses finds no two stated values equal |
| Snapshots.KeyOrder | datum/reconcile/domain.py:367-369 | natural keys are totally ordered as tuples of text, which every deterministic pass relies on |
| Snapshots.KeyOrderIs | datum/reconcile/domain.py:367-369 | natural keys are ordered by the first part in which they differ: kind, then tenant, then scope, then name |
| Texts.TextOrderIs | datum/reconcile/domain.py:367-369 | one text comes before another exactly when it begins it or has the smaller code where they first differ |
| Matching.BoundPairsLoop | datum/reconcile/matcher.py:124-143 | the loop pairs each confirmed decision whose two sides resolve, in decision order |
| Matching.NaturalKeyPairsLoop | datum/reconcile/matcher.py:146-169 | the loop pairs each shared key unless a side is claimed or the pairing was rejected |
| Matching.ByProviderLoop | datum/reconcile/matcher.py:90-106 | the loop indexes the identified resources and counts them |
| Matching.MatchResources | datum/reconcile/matcher.py:13-73 | the five assertions in order, then bound pairs, natural-key pairs and both orphan lists |
| Matching.RefusedExactlyWhenAmbiguous | datum/reconcile/matcher.py:76-121 | the matcher refuses exactly the inputs in which a natural key, a provider id or a side of a confirmed decision repeats |
| Matching.RefusalNamesTheFirst | datum/reconcile/matcher.py:76-121 | which assertion fails: the first of declared keys, discovered keys, provider ids, confirmed declared sides and confirmed provider ids in which one repeats |
| Matching.PairsCharacterized | datum/reconcile/matcher.py:124-169 | a pair is made exactly when a confirmed decision names it, or both planes state one key that no binding claims and nobody rejected |
| Matching.PairsAreOneToOne | datum/reconcile/matcher.py:20-22 | no resource of either plane is in two pairs |
| Matching.PlanesArePartitioned | datum/reconcile/matcher.py:61-73 | each plane's resources are its paired ones and its orphans, each exactly once |
| Matching.PairsAreInOrder | datum/reconcile/matcher.py:124-169 | the pairs are those made by binding and then those made by natural key, each in the order of declared keys |
| Matching.MatchingForgetsOrder | datum/reconcile/matcher.py:41-42 | permuting either plane or the decisions gives the identical result, sequences included |
| Anchoring.OnlyAnchoredDecisionsMatter | datum/reconcile/matcher.py:36-39 | matching with all decisions equals matching with only those whose two sides are present |
| Diffing.FieldDifferencesLoop | datum/reconcile/diff.py:49-72 | the loop reports each field of the sorted union that does not agree, in order, unless a comparison raises |
| Diffing.AllDifferencesLoop | datum/reconcile/diff.py:38-40 | all pairs' differences in order, unless a pair is of two kinds or a comparison raises |
| Diffing.PlaneValueSays | datum/reconcile/domain.py:371-375 | a plane's statement of a field is present exactly when its attributes have the field, with the value they have, and is absent, never null, otherwise |
| Diffing.Reconcile | datum/reconcile/diff.py:17-46 | gives nothing for a pair of two kinds or a comparison that raises; otherwise pairs in key order, orphans in key order by direction |
| Diffing.ReconcilesExactly | datum/reconcile/diff.py:17-72 | the differ completes exactly when every pair is of one kind and no comparison of a stated field raises |
| Diffing.DifferencesCharacterized | datum/reconcile/diff.py:17-93 | read off the attributes alone: a difference is reported exactly when some pair has that field on a side, with what each side says of it, and its comparison does not find agreement |
| Diffing.RenameAloneIsSilent | datum/reconcile/matcher.py:23-26 | a bound pair whose attributes agree reports nothing, whatever the two names |
| Diffing.FieldDifferencesForgetOrder | datum/reconcile/diff.py:29-30 | listing either side's attributes in another order changes neither what is reported nor its order |
| Relisting.ReportForgetsOrder | datum/reconcile/diff.py:29-30 | permuting either plane, the decisions, and the attributes of any resource leaves the whole report identical, sequences included, and whether there is one |
| Relisting.RelistingsShareAnOrder | datum/reconcile/diff.py:29-30 | a resource and any relisting of its attributes are the same resource once attributes are in name order |
| Policies.PairRaisesExactly | datum/reconcile/diff.py:75-93 | a pair is compared to the end exactly when no configured comparison of a stated field raises |
| Policies.ReportsAreWhatPolicyCannotSettle | datum/reconcile/diff.py:75-93 | on a pair where nothing raises, a field either side has is reported as drift exactly when its configured comparison of what the two attribute mappings say disagrees, and as undecidable exactly when it has none |
| Policies.OneSidedFieldDrifts | datum/reconcile/diff.py:59-60 | a field one side alone states, null included, drifts under every configured mode but `ignore`, and no comparison of it raises |
| Policies.DriftIsSymmetric | datum/reconcile/diff.py:75-93 | swapping the planes of a pair with no lopsided tolerance changes neither whether it raises nor any field's drift |
| Policies.PlainPolicyNeverRaises | datum/reconcile/diff.py:75-93 | a policy without the set mode and without tolerances raises on nothing |
| Tables.RefusalProtectsIndexes | datum/reconcile/models.py:60-98 | an insert is refused exactly when accepting it would break a constraint of the match table |
| Reconciliation.DeclaredIsTheActiveRevision | datum/reconcile/service.py:148-152 | the declared plane is the tenant's rows of its active revision, and none without one |
| Reconciliation.DiscoveredIsWhatIsPresent | datum/reconcile/service.py:137-145 | the discovered plane is the tenant's rows not marked absent |
| Reconciliation.DecisionsAreHumanRows | datum/reconcile/service.py:166-181 | a decision is read exactly when a confirmed or a rejected row of the tenant says it |
| Reconciliation.Estate.ReadDecisions | datum/reconcile/service.py:166-181 | the standing human decisions of the tenant, and no terminal row |
| Reconciliation.Estate.Reset | datum/reconcile/service.py:189-197 | a row stays exactly unless it is this tenant's proposal or open discrepancy, and what stays keeps its order and number |
| Reconciliation.Estate.InvalidateUnanchored | datum/reconcile/service.py:200-223 | closes each human row of the tenant one of whose sides is not present; every other row is as it was |
| Reconciliation.Estate.CreateMatch | datum/reconcile/service.py:257-267 | inserts the proposal, or is refused by an active-match index and changes nothing |
| Reconciliation.Estate.WriteMatches | datum/reconcile/service.py:226-267 | a proposal for each pair whose declared side has no live row, unless an insert is refused |
| Reconciliation.Estate.WriteDiscrepancies | datum/reconcile/service.py:284-313 | one open row for each field difference, then one for each orphan |
| Reconciliation.Estate.Compute | datum/reconcile/service.py:82-90 | matches the planes under the stored decisions and compares what was paired, changing nothing |
| Reconciliation.Estate.Apply | datum/reconcile/service.py:92-98 | clears, invalidates and writes, or leaves everything as it was if an insert is refused |
| Reconciliation.Estate.ReconcileOnce | datum/reconcile/service.py:72-98 | the whole run: completes with exactly the specified state, or is rolled back to the state it found |
| Runs.OnlyProvidersAreAmbiguous | datum/reconcile/matcher.py:76-121 | given the database's constraints, a repeated provider id among present rows is the only input the matcher can refuse |
| Runs.BindingsAreConfirmations | datum/reconcile/matcher.py:124-143 | a pair is made by binding exactly when a stored confirmation names both its sides |
| Runs.KindsAgreeExactly | datum/reconcile/diff.py:54 | the differ's kind assertion holds exactly when no standing confirmation joins present resources of two kinds |
| Runs.DecidedExactlyBound | datum/reconcile/service.py:270-281 | the anchors still holding a live row after clearing are exactly those of the bound pairs |
| Runs.NoCollision | datum/reconcile/models.py:65-74 | the next proposal shares no side with any row still live or just written |
| Runs.RunCompletesExactly | datum/reconcile/service.py:72-98 | from any state meeting the constraints a run completes if and only if present provider ids are distinct, no confirmation joins two kinds and no comparison raises; it leaves the planes as they were and the constraints met |
| Outcomes.LiveRowsAreThePairs | datum/reconcile/service.py:226-281 | after a run the tenant's live rows are the matcher's pairs, each once: a confirmed row for every bound pair, a proposal for every natural one |
| Outcomes.EveryRowMeetsItsFate | datum/reconcile/service.py:189-223 | invalidated rows and other tenants' rows are untouched, proposals go, and a human row moves only to invalidated, exactly when a side is gone |
| Outcomes.NewMatchesAreProposals | datum/reconcile/service.py:226-267 | each row a run adds is a live proposal of a natural pair, with its two sides and its strategy, under a new primary key |
| Outcomes.PlanesMoveExactly | datum/intent/models.py:10-20 | between runs the planes become any that keep the constraints, and nothing else moves with them |
| Outcomes.InvalidatedIsForever | datum/reconcile/service.py:207-211 | through any history of runs and plane changes, an invalidated row never changes |
| Outcomes.DecisionStandsWhileAnchored | datum/reconcile/service.py:200-223 | a human decision survives a history exactly when every completed run of its tenant found both sides; otherwise it ends invalidated, even if the sides return |
| Reruns.StandingDecisions | datum/reconcile/service.py:166-223 | the decisions a run leaves standing are those that were anchored when it ran |
| Reruns.RerunReproduces | datum/reconcile/service.py:72-98 | a second run on unchanged planes and policy completes, reproduces the same proposals and open discrepancies, and leaves decisions, resolved rows and other tenants alone |
| Findings.OpenFieldsAreTheDifferences | datum/reconcile/service.py:284-303 | after a run the tenant's open field discrepancies are exactly the disagreeing fields of its pairs, with what the attributes of each side say of them |
| Findings.OpenOrphansAreTheUnpaired | datum/reconcile/service.py:304-313 | and its open orphans are exactly the declared and the present resources no pair claims, each on its own side |
| Findings.EveryDiscrepancyMeetsItsFate | datum/reconcile/service.py:189-197 | a run removes the tenant's open discrepancies, and leaves every resolved one and every other tenant's as it was, alone under its primary key |
| Findings.NewDiscrepanciesAreOpen | datum/reconcile/service.py:284-313 | what a run adds is open, of the tenant, and under new primary keys |
| Locks.StepKeeps | datum/locks.py:164-195 | every step of every session keeps mutual exclusion, the truth of what each block read, and serial commits |
| Locks.ReadTakesEffect | datum/locks.py:164-195 | reading in a run recalls what is visible there and changes nothing anyone sees |
| Locks.WriteTakesEffect | datum/locks.py:164-195 | in every state kept by the steps, writing in a run that has read the cell makes what is visible there what the write makes of it, leaves every other cell alone, and is logged last and uncommitted |
| Locks.LockedRunCommits | datum/reconcile/service.py:61-68 | from any state, a session with no block open, nobody else holding the lock, commits by a whole run what its write makes of the committed cell, and nothing else |
| Locks.DisconnectLosesEverything | datum/locks.py:164-195 | a session that goes away commits nothing, keeps no lock from anyone and disturbs no other |
| Locks.WritesStayLocked | datum/locks.py:164-195 | in every interleaving, an uncommitted write made in a locked run is covered by its session's lock, however deep in a caller's transaction, and no other session holds that lock or has such a write |
| Locks.CommittedRunsAreSerial | datum/reconcile/service.py:48-69 | what is committed is what the committed transactions make when run whole, one after another, in commit order |
| Exclusion.CommittedRunsAreAHistory | datum/reconcile/service.py:48-69 | however sessions interleave, nest, roll back and crash, a tenant's committed state is what its committed reconciliation runs make, each of them once, in commit order, one whole run after another |
| Exclusion.OneRunCommits | datum/reconcile/service.py:61-68 | a run nobody else excludes commits what that run makes of the committed state, and is the next committed run |
| Exclusion.OnlyTheTenantIsExcluded | datum/reconcile/service.py:61-68 | a run shuts out the other runs of its tenant while it lasts, and no run of another tenant |
| Locks.SessionLockLosesAnUpdate | datum/locks.py:30-38 | with a session-scoped lock around the block instead: from any state in which a session leaves such a block inside its caller's transaction, another session can run and commit any update, and the caller's commit then overwrites it, though it comes later in commit order |
| Locks.RunLockBalances | datum/locks.py:137-161 | entering and leaving restores exactly the session's locks, acquired, re-acquired or denied |
| Locks.Cluster.EnterRunLock | datum/locks.py:137-161 | acquired exactly when no other session holds the lock, and then no other can take it; denied, nothing has changed |
| Locks.Cluster.ExitRunLock | datum/locks.py:155-161 | only the holder releases, and another session can take the lock afterwards exactly when this hold was the last |
| Locks.Cluster.EnterLockedRun | datum/locks.py:188-195 | running, the block is open and holds the lock; denied, everything is as before |
| Locks.Cluster.ExitLockedRun | datum/locks.py:164-195 | raised: the block is gone with its writes and locks, and nothing else changed; closed inside a transaction: the session sees, holds, has logged and has uncommitted just what it did, one block down; closed outermost: all it logged is committed, what it saw is what is committed, and its locks are free |
| Absence.AlwaysConsistent | datum/discovery/absence.py:46-84 | one live run per collector and tenant, and what a live run has seen is never marked absent |
| Absence.StartsExactly | datum/discovery/collector.py:84-103 | in any history, a run may start exactly when no live run has its collector and tenant |
| Absence.CollectorsRunTogether | datum/discovery/collector.py:84-103 | two collectors can be reading at the same time, and one of them finish, conclude and end meanwhile |
| Absence.EachRunInOrder | datum/discovery/collector.py:131-203 | in every history a run observes, then finishes once, then concludes once, then ends, and nothing follows its end |
| Absence.AliveExactly | datum/discovery/collector.py:84-103 | a run holds its lock exactly from its start to its end |
| Absence.NeverObservedIsNoRow | datum/discovery/collector.py:369-402 | a resource has a row exactly when some run observed it |
| Absence.AbsentExactlyWhenConcluded | datum/discovery/absence.py:30-84 | over every interleaving, crashes and partial runs included, a row is absent exactly when a gap-free successful run of the collector that last saw it concluded after that observation, and `absent_since` is the time of the first such run |
| Absence.ConclusionsComeFromLaterReads | datum/discovery/collector.py:99-103 | the run that concludes a resource is gone began after the resource was last seen |
| Absence.CompleteReadIsThePlane | datum/discovery/absence.py:69-84 | when a complete run concludes, its collector shows exactly the resources that run was the last to see |
| Collection.ReadPages | datum/discovery/kubernetes.py:103-133 | pages are requested with the token of the page before; the read is whole only if the last page was usable and named no next one, partial if records preceded a failed page, unavailable otherwise |
| Collection.OneStop | datum/discovery/kubernetes.py:116-133 | a conversation stops at one page only, so the outcome is determined |
| Collection.RecordsExactly | datum/discovery/kubernetes.py:103-133 | a page has records exactly when it is a mapping whose `items` is a list, and they are that list |
| Collection.TokenExactly | datum/discovery/kubernetes.py:103-133 | a page names a next one exactly when its metadata's `continue` is text that is not empty |
| Collection.ReadIs | datum/discovery/kubernetes.py:103-133 | a read is whole exactly when the page it stops at is usable, with every page's records in order; otherwise it has those of the pages before, and is unavailable exactly when they had none |
| Collection.AllStored | datum/discovery/collector.py:163-189 | every record was written exactly when none was rejected at any stage |
| Collection.JudgedExactly | datum/discovery/collector.py:223-367 | a record is stored exactly when it normalises to a storable snapshot of the adapter's own kind that the database knows and accepts, and stops the run exactly when it normalises to one of another kind |
| Collection.StoredIsWhatWasObserved | datum/discovery/collector.py:369-402 | what is stored comes from the records to store, each once and in order, with the attributes, provider id, kind, scope and name the adapter observed, under the run's tenant |
| Collection.Discovery.RunCollector | datum/discovery/collector.py:84-103 | a tick does nothing exactly when a live run has its collector and tenant; otherwise the run is exactly the one the pages determine, with read = written + errors |
| Collection.Discovery.ReadOnce | datum/discovery/collector.py:131-203 | the events and the report of one held-lock run, as a function of what the pages and records were |
| Collection.Discovery.Process | datum/discovery/collector.py:136-203 | an unavailable provider fails the run, an adapter bug ends it unfinished, anything else stores, finishes and concludes |
| Collection.Discovery.Store | datum/discovery/collector.py:163-189 | the loop stores what it can and counts every record once, stopping only at an adapter bug |
| Conclusions.ReportIs | datum/discovery/collector.py:131-203 | what a run reports: failure alone if nothing was fetched; no report exactly if a record was of another kind; else every record counted as written or as an error, a gap exactly for a read cut short, and success exactly without errors or gap |
| Conclusions.SuccessExactlyWhenWhole | datum/discovery/collector.py:441-455 | a run succeeds exactly when paging came to its end and every record was normalised and stored |
| Conclusions.LoneRun | datum/discovery/collector.py:131-203 | what the methods add to the log is a legal run of that adapter and fetch, from start to end |
| Conclusions.CleanReadBecomesThePlane | datum/discovery/absence.py:46-84 | when such a run concludes, whatever other runs interleaved, its collector shows exactly what it stored, less what another run has observed since it did |
| Conclusions.ShownIsWhatWasRead | datum/discovery/collector.py:369-402 | when a clean read concludes, each row its collector shows is what the adapter made of a record the provider gave, attributes included |
| Conclusions.OthersTakeOver | datum/discovery/absence.py:46-84 | only a run of another collector or tenant can have observed it in between |
| Conclusions.UncleanReadConcludesNothing | datum/discovery/absence.py:30-43 | any other run, whatever it stored and whatever interleaved, makes nothing absent at any of its steps |
| Conclusions.CleanReadSeparatesProviders | datum/discovery/absence.py:46-84 | if its records had distinct provider ids, so do the rows its collector shows when it concludes, whatever interleaved |
| Conclusions.RenameInPartialReadLeavesBoth | datum/reconcile/matcher.py:90-106 | a partial read of a renamed resource leaves both names present with one provider id |
| Handover.CleanReadLetsRunComplete | datum/reconcile/matcher.py:90-106 | when such a read by the tenant's one collector concludes, the next reconciliation can fail only over a confirmation that joins two kinds or a comparison that raises |
| Nodes.EntriesLoop | datum/intent/documents.py:434-449 | the loop refuses at the first broken rule, tag before keys, or lists every entry |
| Nodes.RulesAreExact | datum/intent/documents.py:406-505 | the rules hold exactly when every key is a plain scalar, none is a merge and no two are spelt alike |
| Nodes.FaultlessExactly | datum/intent/documents.py:406-606 | a collection has no fault exactly when it is tagged as the sequence or mapping it is and, if a mapping, its keys keep the rules |
| Nodes.CollectionFaultIsTrue | datum/intent/documents.py:406-505 | a collection's fault is true of it and the first there is: its tag is another's, or the first key to break a rule is a structure, a merge or spelt like an earlier one, looked at in that order |
| Construction.Builder.Construct | datum/intent/documents.py:508-583 | on any graph, cyclic or shared, the memoised walk ends, returns what the unmemoised tree unfolding gives, refusals and their paths included, expands no node twice, and makes one call per step out of each expanded node and one more |
| Construction.BuildsExactlyWhenSane | datum/intent/documents.py:551-557 | a node has a value exactly when no route from it meets a broken rule or comes back on itself |
| Construction.RememberedIsUnfolded | datum/intent/documents.py:518-550 | a remembered value is the right one wherever, and under whatever ancestors, the node is met again |
| Construction.UnfoldDenotes | datum/intent/documents.py:508-583 | the value built says what the node says: a scalar as YAML reads it, items in order, entries in order each under its own key |
| Construction.DenotesOnce | datum/intent/documents.py:508-583 | and a node says one value only |
| Effort.WorkIsLinear | datum/intent/documents.py:526-548 | nodes expanded once each cost no more calls than the document has steps |
| KeyLines.LineWalk.Collect | datum/intent/documents.py:279-330 | the walk ends on any graph, expands each collection it meets exactly once, makes at most one call per step out of what it expanded and one more, and records only lines on which that path's key is written |
| KeyLines.LinesOf | datum/intent/documents.py:264-276 | every line is a true one, every visited mapping has all its scalar keys recorded under the path that first led to it, and the calls number at most the document's steps and one |
| KeyLines.ReachedIsVisited | datum/intent/documents.py:284-289 | no reachable collection is missed, shared or not |
| KeyLines.UnsharedLinesAreComplete | datum/intent/documents.py:301-313 | every scalar key of a mapping to which one path only leads has a line under that path |
| KeyLines.RecordedLineIsTheLine | datum/intent/documents.py:291-299 | where no mapping repeats a key, a path is written on one line only, list positions included |
| Documents.DocumentView | datum/intent/documents.py:377-403 | the envelope is built with one memory, in no more calls than the document has steps, and the attributes stay nodes |
| Documents.ReadOne | datum/intent/documents.py:144-207 | the four layers in order, each first refusal as specified |
| Documents.AcceptedIsWellStated | datum/intent/documents.py:745-816 | an accepted document's identifiers are within bounds, it has no provider id, its attributes are exactly its kind's, and all are storable |
| Documents.AcceptedIsWhatIsWritten | datum/intent/documents.py:144-207 | an accepted document's kind, name and scope are those its kind, metadata name and metadata scope say, under the tenant given, and each attribute is what its node declares: null for an unquoted `null`, otherwise its text read by the type its kind gives it |
| Documents.ReadsExactlyWhenReadable | datum/intent/documents.py:144-207 | a document reads exactly when it meets every rule, each stated apart from the order they are tried in |
| Documents.EnvelopeRejectionIsFirst | datum/intent/documents.py:190-198 | no envelope rule tried earlier than the one reported has anything to complain of |
| Documents.AttributesRejectionIsFirst | datum/intent/documents.py:745-816 | nor has any of the attributes' rules, shape before structure before kind before names before values |
| Locating.RefusalIsPlaced | datum/intent/documents.py:508-583 | a real refusal that names a path names a place the line walk goes to |
| Locating.RefusalIsReal | datum/intent/documents.py:508-583 | every refusal of the value walk is of a node the document leads to by the path named, which lies on its own path, breaks the rule named or cannot be read |
| Locating.RefusalIsFirst | datum/intent/documents.py:508-583 | the node refused is the first in document order: whatever comes before it, in each collection on its path, has a value |
| Locating.RejectionIsPlaced | datum/intent/documents.py:144-207 | a structural rejection with a path is of the whole document, of a key it writes or of a position in one of its lists; one about the kind named, the attributes named or an attribute's value is of a key it writes |
| Locating.RejectionIsTrue | datum/intent/documents.py:144-207 | whatever reason, path and line a document is rejected with, what they say is true of it |
| DocumentSets.Locate | datum/intent/documents.py:215-225 | the rejection's own line, else the one its path is written on, and none only if the document writes no such key or shares the mapping that does |
| DocumentSets.RejectionsFindTheirLine | datum/intent/documents.py:215-313 | unless the mapping is shared, a rejection with a path names a line exactly when that key is written, the one line there is where no key repeats; a structural one without a line is of the whole document or a list position, and one about the kind, the attributes or an attribute's value always has its line |
| DocumentSets.EveryRejectionIsListed | datum/intent/documents.py:129-133 | no document that fails to read is missing from the errors |
| DocumentSets.DuplicateIdentityErrors | datum/intent/documents.py:867-896 | sources gathered by key, reported in key order under the first source |
| DocumentSets.ContestedExactlyOnce | datum/intent/documents.py:867-896 | one error for each natural key that two or more parsed documents claim, in key order, and no other |
| DocumentSets.ContestedNamesClaimants | datum/intent/documents.py:867-896 | a contested key's error names every claimant once, sorted, and is filed under the first |
| DocumentSets.ClaimsSayWhoReadsWhat | datum/intent/documents.py:116-141 | a key is claimed under a source's name exactly when a source of that name reads as it |
| DocumentSets.ParseDocumentSet | datum/intent/documents.py:116-141 | all or nothing: accepted exactly when nothing was rejected or contested; else one error per rejected document, then one per contested key |
| DocumentSets.AcceptedRevisionIsUsable | datum/reconcile/matcher.py:76-87 | an accepted revision has one snapshot per source in order, distinct natural keys, storable attributes matching each kind's schema: what the projection and the matcher assume |
| Ingestion.AlwaysSound | datum/intent/models.py:10-20 | every interleaving of checks, updates, inserts, commits, lost races and crashes keeps both unique indexes and every writer's hold |
| Ingestion.InsertExactly | datum/intent/models.py:10-20 | an insert waits exactly while another transaction has the tenant's active slot in hand, is refused exactly when the commit is recorded or another revision active, and is otherwise made under a new number |
| Ingestion.CrashLosesEverything | datum/intent/ingest.py:156-190 | a call that crashes anywhere short of its end holds nothing and leaves what is committed and every other call as they were |
| Ingestion.EveryCallCanFinish | datum/intent/ingest.py:27-76 | from any sound state with no other call under way, a call anywhere in its course returns or raises by its own next steps |
| Ingestion.RacesAreSafe | datum/intent/ingest.py:27-76 | a commit has at most one revision, a tenant with any revision has exactly one active one, and a call that returns does so with a revision of its own commit |
| Ingestion.LostRaceReturnsExactly | datum/intent/ingest.py:111-137 | a call that has lost a race returns exactly when a revision of its commit is recorded by then, with that revision, and raises otherwise |
| Ingestion.WinnerIsReturned | datum/intent/ingest.py:111-137 | once its commit is recorded by another, a call returns that revision from its check, from a refused insert and from a transaction the database ends alike |
| Ingestion.RaceReturnsOneRevision | datum/intent/ingest.py:35-57 | a history of two writers that both find a commit unrecorded and both return its one revision |
| Ingestion.RevisionsAreWhole | datum/intent/ingest.py:156-190 | every committed revision has the complete row set of the call that committed it |
| Ingestion.RaisedLeavesNothing | datum/intent/ingest.py:56-76 | in every history, a call that ends raised has changed neither revisions nor rows at any of its steps |
| Ingestion.CommittedNeverChanges | datum/intent/ingest.py:156-190 | in every history, what is committed keeps its tenant, its commit and its rows ever after |
| Ingestion.ReingestingDoesNotReactivate | datum/intent/ingest.py:40-43 | an already recorded commit's revision is returned as it is and nothing is written |
| Ingestion.FormerCommitReturnsInactive | datum/intent/ingest.py:40-43 | a history of one commit, another, and the first again ends with the first's revision returned and not active |
| Ingestion.Ingester.Ingest | datum/intent/ingest.py:27-57 | undisturbed, a new commit becomes the one active revision with its rows, and a known one changes nothing; what is returned is active exactly when the commit was new or its revision was active before |
| Ingestion.Ingester.StandDownActive | datum/intent/ingest.py:99-108 | the update stands down exactly the tenant's active rows |
| Ingestion.Ingester.Project | datum/intent/ingest.py:156-190 | the insert, the rows and the commit make one active revision with exactly the call's rows |
| Audit.AuditLogWriter.Create | datum/reconcile/audit.py:91-112 | a rate below one is refused |
| Audit.AuditLogWriter.Record | datum/reconcile/audit.py:120-133 | an entry is emitted exactly when its level calls for it, given the run's writes so far |
| Audit.AuditLogWriter.SampleIsDue | datum/reconcile/audit.py:135-149 | the entry's own stream advances by one, no other changes, and the entry is due on a multiple of the rate |
| Audit.EmissionsExactly | datum/reconcile/audit.py:120-149 | what is emitted is, in order, every entry at `debug`, every disagreement at `discrepancy`, and at `sampled_audit` every Nth of its kind and field |
| Audit.StreamsAreIndependent | datum/reconcile/audit.py:72-77 | what a stream emits depends on its own writes alone, however others interleave and at whatever levels |
| Audit.SampledEmitsEveryNth | datum/reconcile/audit.py:143-149 | a sampled stream of k writes emits exactly those numbered by multiples of N, floor(k / N) of them |

## Left out

- Float spelling and arithmetic: a float is its printed text, no two of which print alike; numeric conversions (`float()`, `int()` of a mode parameter, the worth of a float under Python equality) are parameters over the reals, so rounding is not modelled; that a conversion fails or overflows is.
- Fields.AgreementIsPartialEquivalence: is over JSON-native values, with `str`, case folding, whitespace rules and timestamp parsing as total or partial functions given from outside; parsing that depends on the day it runs is fixed at one moment.
- Lists.SetModeIsExactlyFaithful: lists may not hold tuples, which no stored JSON does.
- Divergence.DivergenceDecidesSameness: mappings have distinct string keys, as every admitted attribute has; `json.dumps` of other keys is not modelled.
- Storability.UnstorableAttribute: the trial encoding that precedes the walk, and its recursion limit, are not modelled.
- Policies.ReportsAreWhatPolicyCannotSettle: a policy is given; loading it from the database and discarding unusable fields one by one is not modelled. A pair on which some comparison raises reports nothing, as the run it belongs to is abandoned.
- Reconciliation.Estate.ReconcileOnce: the convenience foreign keys, confidence, `created_at` and authoritative plane of the rows are not modelled; time is a parameter.
- Outcomes.DecisionStandsWhileAnchored: the review actions that confirm and reject are not modelled; a history changes planes and runs reconciliations.
- Locks.CommittedRunsAreSerial: a run's effect is its writes to the one cell its key guards, each computed from what it read there, and the planes stand still while runs interleave; the hash that turns a key into a number is taken to be collision-free.
- Absence.AbsentExactlyWhenConcluded: the counting of skipped ticks, which may land on no run or on a crashed one, is not modelled.
- Collection.ReadPages: a provider that names a next page for ever is not modelled, nor are retries, credentials and the recorded and OCI sources.
- Construction.Builder.Construct: composing text into nodes, YAML's scalar conversion and the interpreter's stack limit are not modelled; conversion is a partial function given from outside.
- KeyLines.UnsharedLinesAreComplete: where a collection is shared only the first path to it is recorded, as the code says of itself.
- Documents.ReadOne: messages are reduced to reasons, paths and lines; the attribute types are a table given from outside.
- Ingestion.RacesAreSafe: the locks are those the two unique indexes and the update imply; a deadlock is the database ending any one transaction, at any point in it.
- Audit.AuditLogWriter.Record: the wording of an entry is not modelled.
- The web interface, migrations, settings, task scheduling and Git access would add only easy members.
