# Console verification

A Dafny model of the read-only fleet console: how its index resolves what many sources say about one
thing, and the caches, classifiers, calendar arithmetic and schedulers its pages rest on. The model
keeps the shape of the code. Where the source updates fields, a class does; where it loops, a method
loops and is proved equal to a specification function; what the source promises is then proved of
that function, over every input and every run.

`dafny verify dfyconfig.toml` checks everything.

| files | what they model |
|---|---|
| `Prelude`, `Model` | string order, Python's stable sort; kinds, states, entities, claims |
| `Merge`, `MergeOrder`, `RowMeaning`, `RowOrder`, `StateOrder`, `BlindSources` | one identifier's claims resolved to one row, what that row says, when arrival order can be seen in it, and what a source that was not read can still contest |
| `RowPass`, `DutyWindow`, `Passes`, `DutyMeaning`, `CadenceMeaning`, `PassMeaning`, `AliasOrder`, `AliasExact` | the passes over the resolved rows: off duty, cadence, reconcile, aliases, armed, triage; when the map's order can be seen in an alias |
| `Graph`, `IndexClass` | what an index accumulates, one build of it, and the lazily resolved `Index` class |
| `CoverageMeaning`, `BuildMeaning`, `LifecycleMeaning`, `Looks`, `OrderFree`, `LandingMeaning` | laws of a whole build: absence, declared lifecycles, aliases, adapter ordering, the kept landing model |
| `ExecutionCaching`, `ExecutionProtocol`, `ExecutionForgetting`, `ExecutionSaving`, `StoreCodec` | the execution cache, its runs over a changing world, what a listing forgets, what is served and saved, its stored form |
| `BodyCaching`, `BodyProtocol` | the listed body cache and its runs |
| `Pipeline`, `PipelineCells`, `PipelineFetch`, `PipelineMeaning` | classifying a window of cycles, and reading only some histories first |
| `Calendar` | freshness ceilings over an arbitrary trading calendar |
| `Email`, `ComponentIds`, `Archive` | three compact algorithms against their plain counterparts |
| `Supervision` | the rebuild loop and what the served index says of itself |

## How to read it

*Claims and rows.* A `Claim` carries an `Entity` with a provenance whose `identity` stands for the
object itself, because the merge compares provenances by identity; the laws of arrival order take
the claims on an identifier to have provenance objects of their own. `facets` and `detail` are one map
over `Key = Facet | Detail`. Values are kept by the readings the index takes of them: as text, as a
number, as a truth value, and the field names they declare. Instants are reals in seconds and ISO
parsing is a function parameter, so nothing depends on a particular text format.

*The index.* `Graph.Build` is one build from scratch as a function of everything a build reads: the
claims per identifier, the coverage accumulators, the staleness factor, the triage marks and the
clock. It is `None` exactly when the code raises. The class `IndexClass.Index` carries the lazy
cache, and each of its answers is stated against `Build`.

*Protocols.* The two caches are state machines. The world is a function from name and instant to what
is there. An event is one critical section, or something that happens outside the lock, and a record
or a fetch may be as old as one likes when it is used. So every interleaving of any number of threads
is a run. The class methods are the critical sections, proved to be the very steps the runs take.

*Meanings.* The functions the methods are proved against share their vocabulary with them. So what each
step comes to is also stated in plain terms, over the fields of the claims, records and rows it was
given: `RowMeaning`, `DutyMeaning`, `CadenceMeaning`, `PassMeaning`, `PipelineCells`, `ExecutionSaving`
and the verdicts at the end of `Calendar` name none of those functions on their right-hand sides.

## Where the code is narrower than its comments

The code is modelled as it is. Each of these is a lemma, with the exact condition where there is one.

- *"The result does not depend on ingest order"* (`console/index/merge.py:118-120`,
  `console/index/graph.py:61-64`). The merged fields ignore arrival order if and only if the row
  lists no field conflict (`FieldsIgnoreOrderUnlessConflicted`): the first to arrive of two equals
  that differ is the one shown. The whole row, credit included, ignores it if and only if nothing in
  it was chosen among equals (`RowIgnoresOrderIff`). The as-of ignores it if and only if no order of
  the registries takes all who carry the latest stamp for namesakes (`AsOfIgnoresOrderIff`), which
  two registries that disagree on a scope facet can bring about (`AsOfDependsOnOrder`). With no
  contested field, settled states, tied observers that poll alike and aliases that do not compete, a
  whole build shows the same in any order (`BuildIgnoresAdapterOrder`).
- *"An equal-rank disagreement is a conflict, rendered as DEGRADED, never resolved by arrival
  order"* (`console/index/merge.py:19-20`). Arrival order is invisible in the state if and only if
  all who may win it would have it rendered the same (`StateIgnoresOrderIff`). Those are the
  foremost leaders (`NobodyStepsIn`) and, where registries disagree on a scope facet so that some
  order of them takes every leader for a namesake, the first registry of such an order. For
  components and runs, whose states are the fifteen, it comes to agreeing on the declared lifecycle
  (`StateIsOrderFreeIff`). The kinds whose states are raw values have no DEGRADED: two sources that
  report an artifact in two states list the conflict and render whichever came first
  (`RawStatesShowOrder`).
- *Aliases* (`console/index/graph.py:566-594`). The map's order is invisible if and only if the pass
  raises in every order, or no two aliases compete: those who write one row read alike, and what is
  written reads as before (`AliasPassIgnoresOrderIff`). An alias of an alias renders what its parent
  was, or what that has become, as the map lists them (`ChainShowsOrder`).
- *"Declared and never inferred"* (`console/index/merge.py:266-282`). A lone claim is returned before
  the lifecycle guard looks at it (`GuardHoldsIff`). In a whole build the reconciler catches that for
  components once a declaration pass has succeeded, but an alias of a run that a single source reports
  DISABLED is rendered DISABLED with no declaration anywhere (`LoneRunLendsItsLifecycle`). Nothing
  else gets round the guard (`LifecycleHasDeclaration`): every rendered lifecycle was declared, there
  or on an alias-linked identifier, if and only if every lone one was (`LifecyclesDeclaredIff`).
- *An unreachable source is no peer in a contest* (`console/index/merge.py:309-313`). True of states
  only. A field is in conflict exactly when two foremost holders that were read differ, or one that
  was not read differs from another (`ConflictOfTheBlindIff`). The row is then DEGRADED, everybody who
  was read agreeing, short of a declared lifecycle (`BlindSourcesDegrade`); a HEALTHY component and
  one source that is out are enough (`OutageDegrades`). The other way round, a contest among those who
  were read is no conflict exactly when sources that were not outrank them and agree
  (`BlindSourcesHideIff`).
- A silent parent with several reported aliases renders whichever comes last in the map, and shows
  the order exactly when they do not agree (`SilentParentRendersLastAlias`).
- `set_triage` leaves the landing model in place (`console/index/graph.py:430-435`), so it keeps the
  marks it was computed with and nothing else about it is old (`Index.LandingModel`). It is out of
  date if and only if some row shows a difference between the two sets of marks (`MarksShowIff`,
  `ReadAcrossNewMarks`); any row marked with an issue it does not show yet does (`NewIssueShows`).
- *An execution gone from the listing is gone from the cache* (`console/sf_execution_cache.py:41-47`).
  It is gone from memory and from every document that was not there before, until an event brings it
  back: a final describe or history stored, or a load of a document that holds it
  (`StaysForgotten`, `ComesBackIff`). So it does come back from a document taken before the listing
  and written after it (`OldDocumentBringsBack`), and from an answer stored after the listing
  (`LaterStoreBringsBack`), which the body cache refuses.
- Selecting histories beforehand is invisible except with a declared gate, no declared degraded state
  and a recovery-role run the gate turned away, whose history is never read (`SelectionIsEnoughIff`).
- A cycle reads recovered although no attempt at it succeeded exactly when its first run neither
  succeeded nor degraded, no attempt came out clean and a run of another role did
  (`RecoveredWithoutAnAttempt`, `RescuedDayHasNoAttempt`). It takes its stop from the earliest later
  success, and that is another run than the one that recovered it exactly when it is degraded
  (`RecoveryIsAlwaysFound`, `DegradedRunGivesTheStop`).
- The freshness floor of a session-bound producer that needs a day or longer moves back over a
  midnight exactly when the new day is off and lengthens a gap within reach, which any ordinary week
  has (`FloorNeverMovesBackIff`, `WeekendGrowsTheGap`).
- The rebuild loop skips missed periods after every build but the one it is anchored on: if that one
  overran, the second build starts at once (`Supervisor.Loop`).
- *"The most recently closed actions"* (`console/index/actions.py:591`). A read gives the newest of
  what ten pages of every label hold, however early it stops (`ReadArchive`). They are the newest of
  all if and only if no closure past the tenth page of its labels is later than the last of thirty
  (`NewestBeyondLimitIff`); it is enough that every label fits, or holds thirty closures within ten
  pages later than the last update there (`SettledLabelsAreEnough`). A late closure beyond is missed,
  and nothing marks the archive as short (`LateClosureIsMissed`, `LateLabelIsMissed`).
- `truncated` is set by a label that fills every page exactly, when nothing was left behind
  (`ReadActions`).
- A stored value comes back unchanged if and only if no part of it is a dict that looks like a store
  tag (`StoreCodec.RoundTrip`).

## Model

| member | source | states |
|---|---|---|
| Text.AtMostTotal | console/index/merge.py:334-353 | any two as-of stamps compare, so there is a freshest |
| Sorting.SortIsStable | console/index/merge.py:136-140 | equal ranks keep arrival order under the sort the merge uses |
| Sorting.SortByMeaning | console/index/merge.py:136-140 | the sort is an ordered rearrangement of what it is given |
| Merge.CollectDeclaredFacets | console/index/merge.py:84-90 | the loop that lets the first reachable declaration supply a facet |
| Merge.PeersNeverEmpty | console/index/merge.py:138-141 | a merge always has a claim to listen to: they cannot all be namesakes |
| Merge.MergeState | console/index/merge.py:266-318 | the lifecycle guard and the state precedence: winner, losers, contested or not |
| Merge.MergeFields | console/index/merge.py:165-182 | filling facets and detail in rank order: values, sources, losers, conflicts |
| Merge.PutClaimAt | console/index/merge.py:165-182 | what one claim's turn does to any one key: taken, kept, or put in conflict |
| Merge.Merge | console/index/merge.py:115-217 | the whole merge, collisions and the lone claim included |
| MergeOrder.DeclaredFacetsMeaning | console/index/merge.py:84-90 | a facet is declared exactly when a reachable declaration holds it, and holds one of the declared values |
| MergeOrder.PutClaimsMeaning | console/index/merge.py:165-182 | each key ends with its first holder's value, credited to it, in conflict exactly when a later claim of that rank differs |
| MergeOrder.MergeMeaning | console/index/merge.py:115-217 | conflicts, verdict and as-of equal an order-free reference over the set of claims listened to |
| MergeOrder.ConflictsAndAsOfAreOrderFree | console/index/merge.py:115-217 | every permutation gives the same conflict set and as-of when registries agree on scope facets |
| MergeOrder.FirstLifecycleWins | console/index/merge.py:266-318 | a declared lifecycle that arrives first is the state, whatever else is claimed |
| MergeOrder.LifecycleIsDeclared | console/index/merge.py:266-318 | of two or more claims, only a declaration can have proposed a rendered lifecycle |
| MergeOrder.GuardHoldsIff | console/index/merge.py:134-135 | the guard's promise fails exactly for a lone claim that would not pass it |
| RowMeaning.RenderedMeaning | console/index/merge.py:115-217 | the winner's state is rendered, or DEGRADED when anything is contested, but for raw states and lifecycles; whom state, as-of and fields are credited to |
| RowMeaning.PrecedenceMeaning | console/index/merge.py:220-264 | a declared lifecycle wins, else an observation, else a discovery, else a declaration, and only then a source that was not read |
| RowMeaning.SupersededFieldIff | console/index/merge.py:143-182 | a superseded field names its key, value and source, and is kept exactly when a namesake proposed it or somebody heard proposed another value than the one shown |
| RowMeaning.SupersededStateIff | console/index/merge.py:143-162 | a superseded state likewise: a namesake's, one its claim may not propose, or another than the winner's |
| RowMeaning.SupersededIsWellShaped | console/index/merge.py:143-182 | nothing else is kept |
| RowOrder.HolderIsFirst | console/index/merge.py:165-182 | a key's value and credit go to the first in line of those that hold it |
| RowOrder.WinnerIsFirst | console/index/merge.py:296-318 | the state and its credit go to the first leader in line |
| RowOrder.FreshestIsFirst | console/index/merge.py:334-353 | the as-of goes to the first in line of those that carry the latest stamp |
| RowOrder.FieldLosersMeaning | console/index/merge.py:165-182 | a superseded field is exactly a held value that differs from the one shown |
| RowOrder.StateLosersMeaning | console/index/merge.py:266-318 | a superseded state is exactly one not admissible or other than the one rendered |
| RowOrder.FieldsIgnoreOrderIff | console/index/merge.py:115-217 | every permutation gives the same fields if and only if no two foremost claims disagree on one |
| RowOrder.FieldsIgnoreOrderUnlessConflicted | console/index/merge.py:115-217 | and that is what the row says of itself: no field among its conflicts |
| RowOrder.RowIgnoresOrderIff | console/index/merge.py:115-217 | every permutation gives the same row, credit included, if and only if nothing was chosen among equals |
| StateOrder.StateIgnoresOrderIff | console/index/merge.py:190-212 | for claims of any kind, the state ignores arrival order if and only if all who may win it would have it rendered the same |
| StateOrder.NobodyStepsIn | console/index/merge.py:296-318 | where registries agree on scope facets, those who may win are the foremost leaders |
| StateOrder.RawStatesShowOrder | console/index/merge.py:190-212 | two read reports of one artifact in two raw states: a listed conflict, and the first to arrive is shown |
| StateOrder.AsOfIgnoresOrderIff | console/index/merge.py:115-217 | the as-of ignores arrival order if and only if no order of the registries silences all who carry the latest stamp |
| BlindSources.ConflictOfTheBlindIff | console/index/merge.py:165-182 | a field is in conflict exactly when two foremost holders that were read differ, or one that was not differs from another |
| BlindSources.BlindSourcesHideIff | console/index/merge.py:165-182 | a contest among read holders is no conflict exactly when holders that were not read outrank them and agree |
| BlindSources.BlindSourcesDegrade | console/index/merge.py:190-217 | what that renders: DEGRADED, or the declared lifecycle |
| BlindSources.OutageDegrades | console/index/merge.py:165-182 | the failing family: HEALTHY alone, DEGRADED beside one source that is out |
| MergeOrder.AsOfDependsOnOrder | console/index/merge.py:84-90 | registries that disagree on a scope facet: two orders, two as-of stamps |
| RowPass.Replace | console/index/duty_window.py:74-80 | a pass judges every row against the map as it stood and loses none |
| DutyWindow.AnchorChainCycles | console/index/duty_window.py:134-146 | the walk along duty anchors ends, with the answer of the recursive definition |
| DutyWindow.CyclesMeaning | console/index/duty_window.py:134-146 | that answer is true exactly when the chain returns to an identifier already passed |
| DutyWindow.ResolveDutyWindow | console/index/duty_window.py:67-91 | the pass is one function of the rows, whatever order the map lists them in |
| DutyMeaning.DutyRowMeaning | console/index/duty_window.py:67-131 | what the pass makes of every row: an explained miss folded with its anchor and since when, its stale envelope marked, any other untouched |
| DutyWindow.OffDutyKeepsAMissedRow | console/index/duty_window.py:94-131 | every row folded to OFF_DUTY leaves a row still MISSED along its own chain |
| DutyWindow.ResolveIsIdempotent | console/index/duty_window.py:67-91 | a second run of the pass changes nothing |
| DutyWindow.OnDutyMissStaysLoud | console/index/duty_window.py:94-131 | a miss folds exactly when its anchor is missed, its chain does not loop and it was in its own window at the last beat |
| CadenceMeaning.SilentRowIsPlaced | console/index/cadence_state.py:45-140 | a silent row is MISSED past its declared minutes times the factor plus the observer's lag, HEALTHY within, and left alone without a cadence, a run seen or a window read |
| CadenceMeaning.ReportedRowStands | console/index/graph.py:466-526 | any other state stands, but for a component no registry declares |
| CadenceMeaning.BuildPlacesSilence | console/index/graph.py:383-414 | and so it shows in a whole build: HEALTHY exactly within bounds, past them MISSED or folded, else UNREPORTED or armed |
| Passes.CollectAliases | console/index/graph.py:566-570 | the alias pairs, in the map's order, before any row is rewritten |
| Passes.ApplyAliasInheritance | console/index/graph.py:531-594 | the pairs applied one after another to the map they rewrite |
| PassMeaning.PairIsDeclared | console/index/graph.py:566-570 | the pairs are the aliases the rows declare |
| PassMeaning.PairMeaning | console/index/graph.py:571-594 | who follows whom, what the follower shows, and when that raises |
| Passes.ResolveEventTriggers | console/index/event_trigger.py:80-120 | arming every row at once against the rows before the pass |
| PassMeaning.ArmedRowMeaning | console/index/event_trigger.py:96-120 | what arming makes of every row |
| Passes.ApplyTriage | console/index/graph.py:444-464 | stamping every marked row, an exact mark before a check's own |
| PassMeaning.MarkForMeaning | console/index/graph.py:450-459 | an exact entry, else that of the check the row is a run of, else none |
| PassMeaning.FiledIff | console/index/graph.py:356-379 | the claims under an identifier are those some pass made of what it read under that name, with its own cadence filled in and the state taken back when it was not read |
| PassMeaning.ReportedIff | console/index/graph.py:596-620 | who has a report of its own, told from the passes |
| Graph.LedgerIsSound | console/index/graph.py:366-379 | each identifier is listed once and holds only claims about itself |
| Graph.AdjacencyMeaning | console/index/graph.py:870-876 | each edge is stored once forward and once reversed, in order, and nothing else is |
| Graph.PartsMeaning | console/index/graph.py:411-412 | the lists by kind partition the rows |
| PassMeaning.OfKindPlaces | console/index/graph.py:905-906 | the rows of a kind are all of them, at their places in the map |
| Graph.TouchingIff | console/index/graph.py:870-937 | what touches an identifier: the edges that leave it, and the converse of each that comes in |
| Graph.KnownUpTo | console/index/graph.py:380-381 | an unknown relation stops ingest, keeping the edges before it |
| IndexClass.MergeAll | console/index/graph.py:394-397 | every identifier merged and placed, or a collision reported |
| IndexClass.Index.constructor | console/index/graph.py:66-142 | an empty, unresolved index |
| IndexClass.Index.SetStalenessFactor | console/index/graph.py:144-154 | a new factor discards the resolution and the landing model |
| IndexClass.Index.SetTriage | console/index/graph.py:430-435 | new marks discard the resolution, and keep the landing model |
| IndexClass.Index.NoteDiscoveryHorizon | console/index/graph.py:622-637 | the shortest horizon per scope pair, enumerations kept apart |
| IndexClass.Index.NoteCoverage | console/index/graph.py:356-365 | what a successful pass adds to the coverage |
| IndexClass.Index.RecordClaims | console/index/graph.py:366-379 | every entity filed as a claim under its identifier, in order |
| IndexClass.Index.AddEdge | console/index/graph.py:870-876 | one edge, with its reverse derived once |
| IndexClass.Index.AddEdges | console/index/graph.py:380-381 | the edges up to the first unknown relation |
| IndexClass.Index.AddResult | console/index/graph.py:328-381 | one more result in the history; nothing resolved survives it |
| IndexClass.Index.ReportedIds | console/index/graph.py:596-620 | the identifiers with a report of their own |
| IndexClass.Index.PartitionByKind | console/index/graph.py:411-412 | the loop that appends each row to its kind |
| IndexClass.Index.Rebuild | console/index/graph.py:392-410 | the passes in their order equal one build from scratch |
| IndexClass.Index.Finalize | console/index/graph.py:383-414 | afterwards the rows are the build from scratch at the resolving clock, or it raises exactly when that does |
| IndexClass.Index.EntityOf | console/index/graph.py:902-903 | a query answers what a build from scratch at the resolving clock would |
| IndexClass.Index.RowsOfKind | console/index/graph.py:905-906 | all rows of the kind that build holds, in ingest order |
| IndexClass.Index.LandingModel | console/index/graph.py:204-224 | computed once; whatever happened since, it is current in everything but the triage marks |
| LandingMeaning.StampMeaning | console/index/triage.py:119-129 | a mark changes three facets to its own word and nothing else |
| LandingMeaning.MarksOnlyStamp | console/index/graph.py:444-464 | marks are stamped on the build made without them and decide nothing else of it |
| LandingMeaning.MarksShowIff | console/index/graph.py:430-464 | two sets of marks give one build if and only if it raises or no row shows a difference |
| LandingMeaning.NewIssueShows | console/index/graph.py:430-464 | marking any row with an issue it does not show makes them differ |
| LandingMeaning.ReadAcrossNewMarks | console/index/graph.py:204-224 | read before and after new marks the landing model is the same, and current exactly when no row shows a difference |
| IndexClass.Index.Related | console/index/graph.py:930-937 | what an identifier points at, then what points at it |
| CoverageMeaning.CoverageMeaning | console/index/graph.py:356-365 | scopes, enumerations and horizon minima equal a set, a flag and a least over the whole history |
| CoverageMeaning.CoverageIsOrderFree | console/index/graph.py:622-637 | the order and number of results leave no trace in the coverage |
| CoverageMeaning.AbsentExactlyWhenSomebodyLooked | console/index/graph.py:505-522 | a row of any kind is ABSENT if and only if it is a component, declared, not found, otherwise silent, and somebody who would have seen it looked |
| CoverageMeaning.UnregisteredExactlyWhenARegistryWasRead | console/index/graph.py:505-517 | UNREGISTERED if and only if undeclared and some declaration pass succeeded; the reported state is kept |
| BuildMeaning.LedgerMeaning | console/index/graph.py:366-379 | the claims under an identifier are exactly those the results made about it, in order |
| BuildMeaning.OneRowPerClaimedId | console/index/graph.py:392-414 | the rows of a build are keyed by exactly the identifiers claimed, each under its own name |
| BuildMeaning.LifecycleHasDeclaration | console/index/graph.py:383-414 | through every pass, a rendered lifecycle traces to a declaration of it on an alias-linked identifier, or to one lone claim, no declaration, that proposes it; of no component once a registry was read |
| LifecycleMeaning.LoneLifecycleRenders | console/index/graph.py:383-414 | and such a lone claim is always rendered in that state |
| LifecycleMeaning.LifecyclesDeclaredIff | console/index/graph.py:383-414 | every rendered lifecycle was declared on an alias-linked identifier if and only if every lone one was |
| LifecycleMeaning.LifecycleIsAlwaysDeclared | console/index/graph.py:383-414 | so where no such lone claim is made, all are |
| BuildMeaning.LoneRunLendsItsLifecycle | console/index/graph.py:571-594 | two results that render a component DISABLED with no declaration of it |
| BuildMeaning.ReportedRowsStand | console/index/graph.py:571-594 | a row with a report of its own is never rewritten by an alias |
| BuildMeaning.SilentAliasRendersParent | console/index/graph.py:585-594 | a silent alias shows its reported parent's state and as-of |
| BuildMeaning.LastWriterWins | console/index/graph.py:566-594 | the last pair that writes a row from a reported one decides it |
| BuildMeaning.SilentParentRendersLastAlias | console/index/graph.py:571-584 | two reported aliases of one silent parent: the last decides it, and order is invisible if and only if they agree |
| BuildMeaning.ArmedHasIntactAnchor | console/index/event_trigger.py:96-120 | ARMED exactly for a silent event-driven row whose anchor reads intact once the pass is over |
| BuildMeaning.ArmAllIsIdempotent | console/index/event_trigger.py:80-93 | arming never enables more arming |
| BuildMeaning.TriageKeeps | console/index/graph.py:430-435 | triage never changes a state, a kind, a name or an alias |
| BuildMeaning.MissedStaysMissed | console/index/cadence_state.py:61-93 | silence that has outlasted a cadence still has at any later instant |
| AliasOrder.AliasPassIgnoresOrder | console/index/graph.py:531-594 | aliases that do not compete, chained or not: the pass ignores the map's order |
| AliasExact.AliasPassIgnoresOrderIff | console/index/graph.py:531-594 | and exactly then, chains and aliases of themselves included, unless every order raises |
| AliasExact.KnownAliasesIgnoreOrderIff | console/index/graph.py:531-594 | where every row an alias reads is in one of the fifteen states nothing raises, and it is exactly then |
| AliasExact.ChainlessAliasesIgnoreOrderIff | console/index/graph.py:531-594 | without chains, exactly when a pair raises or all who write one row would have it render the same |
| AliasExact.ChainShowsOrder | console/index/graph.py:566-594 | an alias of an alias: two listings of the map, two states |
| Looks.DutyShown | console/index/duty_window.py:67-91 | the duty pass never looks at who is credited with what |
| Looks.InheritAllShown | console/index/graph.py:531-594 | nor does the alias pass |
| Looks.ArmShown | console/index/event_trigger.py:80-120 | nor does arming |
| Looks.TriageShown | console/index/graph.py:444-464 | nor does triage |
| OrderFree.AgreedLifecyclesSettle | console/index/merge.py:296-318 | for ingested components and runs, agreeing on the declared lifecycle settles the state |
| OrderFree.SteadyRowsShowAlike | console/index/merge.py:115-217 | uncontested fields, settled states, tied observers that poll alike: any order shows the same row |
| OrderFree.BuildIgnoresAdapterOrder | console/index/graph.py:58-64 | then, aliases not competing, the same results in any order show the same index, or raise alike |
| OrderFree.UntiedBuildsAreIdentical | console/index/graph.py:58-64 | and with nothing chosen among equals the very same index, credit included |
| ExecutionCaching.DropOmitted | console/sf_execution_cache.py:279-284 | the loop that forgets what a complete listing of a machine omits |
| ExecutionCaching.ExecutionCache.constructor | console/sf_execution_cache.py:159-170 | a process start: nothing in memory, the store unread |
| ExecutionCaching.ExecutionCache.UseStore | console/sf_execution_cache.py:172-178 | a store to be read on next use |
| ExecutionCaching.ExecutionCache.LoadLocked | console/sf_execution_cache.py:180-217 | the store read once, entries in memory winning, anything unreadable a cold start |
| ExecutionCaching.ExecutionCache.ObserveListing | console/sf_execution_cache.py:272-284 | a complete listing forgets what it omits, in both stores |
| ExecutionCaching.ExecutionCache.DescribeLookup | console/sf_execution_cache.py:286-297 | an answer only under the tag the caller's summary carries |
| ExecutionCaching.ExecutionCache.DescribeStore | console/sf_execution_cache.py:298-309 | a response kept under its own tag, or forgotten when it is not final |
| ExecutionCaching.ExecutionCache.EnteredLookup | console/sf_execution_cache.py:311-322 | an answer only under the tag the caller's record carries |
| ExecutionCaching.ExecutionCache.EnteredStore | console/sf_execution_cache.py:323-332 | a history kept under the asking record's tag, an unreadable one never |
| ExecutionCaching.ExecutionCache.PersistSnapshot | console/sf_execution_cache.py:224-242 | the document to write, taken whole, when there is something to write |
| ExecutionCaching.ExecutionCache.Clear | console/sf_execution_cache.py:339-344 | memory dropped, the store left alone |
| ExecutionProtocol.RunKeepsTruth | console/sf_execution_cache.py:180-332 | in every run, every entry in memory, in the file and on its way there was true when taken |
| ExecutionProtocol.ServedDetailIsTrue | console/sf_execution_cache.py:286-297 | a served describe answer is what the execution was when the caller's record was read, and it was over |
| ExecutionProtocol.ServedNamesAreTrue | console/sf_execution_cache.py:311-322 | served entered states were true at an instant no earlier than the caller's record, which was of a finished execution |
| ExecutionProtocol.RunningIsNeverServed | console/sf_execution_cache.py:105-118 | in every run, a reading of an execution that is not over is answered from neither store, and memory holds none |
| ExecutionProtocol.RestartRestores | console/sf_execution_cache.py:198-217 | a restart that finds what was persisted holds the same tags and answers |
| ExecutionForgetting.ComesBackIff | console/sf_execution_cache.py:180-332 | the exact events that bring an execution back into memory |
| ExecutionForgetting.StaysForgotten | console/sf_execution_cache.py:272-284 | until one of them, what a listing omitted is in neither memory nor any document but those already there |
| ExecutionForgetting.ForgottenIsNotServed | console/sf_execution_cache.py:272-322 | and is not answered, whatever record it is asked for with |
| ExecutionForgetting.OldDocumentBringsBack | console/sf_execution_cache.py:224-270 | a document taken before the listing and written after it brings it back over a restart |
| ExecutionForgetting.LaterStoreBringsBack | console/sf_execution_cache.py:298-309 | a store after the listing does not ask whether the execution is still listed |
| ExecutionProtocol.TagsMatchIff | console/sf_execution_cache.py:105-118 | two records match exactly when both are of a finished execution, say when it stopped, and say the same |
| ExecutionSaving.DescribedIsServedIff | console/sf_execution_cache.py:286-309 | what one store leaves to be answered, and that it touches nothing else |
| ExecutionSaving.EnteredIsServedIff | console/sf_execution_cache.py:311-332 | the same of entered states |
| ExecutionSaving.LoadPrefersMemory | console/sf_execution_cache.py:180-217 | what a load leaves under every name |
| ExecutionSaving.LoadIsOnce | console/sf_execution_cache.py:180-197 | a store is read once, and an unreadable one changes nothing |
| ExecutionSaving.ChangesAreSaved | console/sf_execution_cache.py:224-332 | in every run, after a store, an evicting listing or a failed write a persist has something to write until a document is taken |
| ExecutionSaving.TakenWhole | console/sf_execution_cache.py:228-242 | a document holds all of memory |
| StoreCodec.RoundTrip | console/sf_execution_cache.py:137-152 | a stored value decodes to itself if and only if it holds no dict that looks like a tag |
| BodyCaching.DropOmitted | console/s3_body_cache.py:84-88 | the loop that forgets every name under the prefix the listing does not carry |
| BodyCaching.ListedBodyCache.ObserveListing | console/s3_body_cache.py:80-90 | a listing forgets what it omits and records every tag it carries |
| BodyCaching.ListedBodyCache.ReadLookup | console/s3_body_cache.py:92-99 | bytes only when the latest listed tag matches theirs |
| BodyCaching.ListedBodyCache.ReadStore | console/s3_body_cache.py:100-106 | fetched bytes filed under the tag that came with them, if the name is listed |
| BodyCaching.ListedBodyCache.Clear | console/s3_body_cache.py:108-112 | everything dropped |
| BodyProtocol.RunKeepsTruth | console/s3_body_cache.py:80-106 | in every run what is kept is listed, and was true when fetched |
| BodyProtocol.ServedBodyWasCurrent | console/s3_body_cache.py:92-99 | on a store whose headers tell contents apart, a served body was the object's at the very instant of a listing that carried its tag |
| BodyProtocol.TagsMatchIff | console/s3_body_cache.py:36-67 | two headers match exactly when they carry one ETag, or none and one write stamp and size |
| BodyProtocol.ListingMeaning | console/s3_body_cache.py:80-90 | what a listing leaves under every name, in its bucket and prefix and elsewhere |
| BodyProtocol.FetchedIsServedIff | console/s3_body_cache.py:92-106 | fetched bytes are served exactly while the listing that stands says the content they came with |
| BodyProtocol.UnlistedIsNeverServed | console/s3_body_cache.py:92-106 | a name no listing has named is never answered from memory |
| BodyProtocol.OmittedIsNeverServed | console/s3_body_cache.py:80-106 | a read after a listing omits its key is never answered from memory, whatever fetches are under way |
| Pipeline.StageReached | console/adapters/pipeline_reliability.py:650-671 | the loop over the declared stages |
| Pipeline.AttemptsToSuccess | console/adapters/pipeline_reliability.py:740-743 | the place of the first clean attempt |
| Pipeline.Next | console/adapters/pipeline_reliability.py:792-796 | the recovery search finds its record |
| Pipeline.ClassifyFirst | console/adapters/pipeline_reliability.py:753-802 | what the first run of a day makes of it |
| Pipeline.ClassifyDay | console/adapters/pipeline_reliability.py:688-818 | one cycle's cell |
| Pipeline.ClassifyWindow | console/adapters/pipeline_reliability.py:674-822 | every cycle of the window, with the fired days, the buffer points and the attempt points |
| Pipeline.WindowCycleDays | console/adapters/pipeline_reliability.py:518-563 | every expected day back to where the window is full, the floor or the bound is reached, and no other |
| Pipeline.AddWhere | console/adapters/pipeline_reliability.py:444-451 | `add`: each unread record once |
| Pipeline.RecordsNeedingHistory | console/adapters/pipeline_reliability.py:409-484 | exactly the needed unread keys, each once |
| PipelineCells.CellReadsItsRecords | console/adapters/pipeline_reliability.py:590-818 | the whole of a day's cell, read off the records' own fields: counts, place, state, first run, stop, stage |
| PipelineCells.DegradedIff | console/adapters/pipeline_reliability.py:599-618 | DEGRADED exactly by a declared error or a declared state in the history read |
| PipelineCells.HistoryShows | console/adapters/pipeline_reliability.py:763-776 | two histories of the first run that differ on a declared state give two cells |
| PipelineCells.NeededIff | console/adapters/pipeline_reliability.py:409-484 | the histories read beforehand are exactly the wanted ones, told from the records |
| PipelineCells.FiredMeaning | console/adapters/pipeline_reliability.py:745-784 | the days that fired, each once and in order |
| PipelineCells.SeriesMeaning | console/adapters/pipeline_reliability.py:784-818 | the three series hold one point for each day that fired, in order |
| PipelineFetch.FirstMovesLater | console/adapters/pipeline_reliability.py:459-477 | reading histories can only move a day's first run later, and not at all without a gate |
| PipelineFetch.DayAgrees | console/adapters/pipeline_reliability.py:409-484 | a day read selectively gives the cell reading everything gives |
| PipelineFetch.SelectionIsEnoughIff | console/adapters/pipeline_reliability.py:409-484 | the classifier cannot tell the difference if and only if the window is not blind |
| PipelineMeaning.DeepestMeaning | console/adapters/pipeline_reliability.py:650-671 | the stage reached is the deepest one entered |
| PipelineMeaning.CleanPlaceMeaning | console/adapters/pipeline_reliability.py:711-743 | a place is named exactly when some attempt came out clean |
| PipelineMeaning.RecoveredWithoutAnAttempt | console/adapters/pipeline_reliability.py:711-782 | recovered with no attempt that succeeded, if and only if the first run failed outright, no attempt was clean and an outsider was |
| PipelineMeaning.RescuedDayHasNoAttempt | console/adapters/pipeline_reliability.py:711-782 | one day's records that do it |
| PipelineMeaning.CellMeaning | console/adapters/pipeline_reliability.py:745-788 | a first run counts as clean exactly when its cell reads SUCCEEDED; recovered means a clean later success |
| PipelineMeaning.RecoveryIsAlwaysFound | console/adapters/pipeline_reliability.py:788-797 | the recovery search never comes up empty and takes the earliest success, which is the one that recovered the day if and only if it is not degraded |
| PipelineMeaning.DegradedRunGivesTheStop | console/adapters/pipeline_reliability.py:788-797 | one day's records where it is not |
| Calendar.SearchBack | console/calendar_cadence.py:344-365 | the bounded backward walk |
| Calendar.LastDayMeaning | console/calendar_cadence.py:344-365 | it finds the most recent such day within the bound, or there is none |
| Calendar.NonSessionDaysOwed | console/calendar_cadence.py:320-336 | the counting loop |
| Calendar.ContinuousIdleMinutes | console/calendar_cadence.py:244-317 | the minutes an idle producer is owed, in every calendar and window |
| Calendar.EffectiveCadenceMinutes | console/calendar_cadence.py:89-147 | the ceiling of every cadence symbol, or none |
| Calendar.WindowFloorNeverMovesBack | console/calendar_cadence.py:301-317 | a producer that settles within a day: a stale row stays stale until rewritten |
| Calendar.FloorNeverMovesBackIff | console/calendar_cadence.py:296-317 | and exactly when the floor of any producer never moves back, told from the calendar alone |
| Calendar.OwedMoreIffGapGrows | console/calendar_cadence.py:320-336 | a day is owed more than the one before exactly when it is off and lengthens a gap within reach |
| Calendar.WeekendGrowsTheGap | console/calendar_cadence.py:299-300 | any ordinary weekend moves a day-or-longer producer's floor back |
| Calendar.BoundaryFloorNeverMovesBack | console/calendar_cadence.py:129-147 | the boundary symbols never move back while audited |
| Calendar.SaturdayIsAlwaysFound | console/calendar_cadence.py:344-351 | the Saturday search always succeeds |
| Calendar.WindowVerdict | console/calendar_cadence.py:301-317 | fresh exactly when written within one interval of the last instant a write was expected: now in a settled window, else the last close |
| Calendar.BoundaryVerdict | console/calendar_cadence.py:129-147 | a row tied to a boundary day is fresh exactly when written no earlier than a day and the allowance before it began |
| Calendar.NotAuditedIff | console/calendar_cadence.py:89-147 | which symbols are not audited, and when |
| Calendar.FlatVerdict | console/calendar_cadence.py:244-296 | around the clock: fresh for one interval and its allowance |
| Calendar.BoundVerdict | console/calendar_cadence.py:244-317 | bound to a window, through the ceiling itself |
| Calendar.LongVerdict | console/calendar_cadence.py:296-300 | a day or longer: the gap on top |
| Calendar.OwedIsTheGap | console/calendar_cadence.py:320-336 | what is owed is exactly the gap between sessions |
| Calendar.WrittenOnASessionDay | console/calendar_cadence.py:276-300 | a write is fresh for the rest of its day and over the whole gap, and turns stale at one exact minute of the next session day |
| Calendar.WeeklyDeadlineCeilingMinutes | console/calendar_cadence.py:202-218 | between one week and two, and it reaches back one week beyond the latest deadline at or before now |
| Calendar.WeeklyVerdict | console/calendar_cadence.py:206-211 | fresh exactly when written at or after the deadline before the latest |
| Calendar.WeeklyVerdictFlipsAtADeadline | console/calendar_cadence.py:206-211 | an unwritten row's verdict only ever turns stale, and only at a deadline |
| Email.WalkLeft | console/demo.py:92-94 | the start of the run left of an `@` |
| Email.ScanReplaces | console/demo.py:60-102 | the scan replaces every address, leftmost first, and nothing else |
| Email.Sub | console/demo.py:87-102 | the `@`-driven substitution is the leftmost greedy scan, and walks left no further than the text is long |
| ComponentIds.PlaceVerbatim | console/adapters/cloudwatch_metrics.py:375-380 | the displacement chain ends and keeps the naming right |
| ComponentIds.NameAll | console/adapters/cloudwatch_metrics.py:354-392 | a one-to-one naming of all the values, each by its captured name unless that is taken |
| ComponentIds.EveryValueHasOneId | console/adapters/cloudwatch_metrics.py:354-392 | no value vanishes and none has two names |
| Archive.ArchiveLabel | console/index/actions.py:594-617 | pages until one is short, the limit is reached, or enough is held, and not one more |
| Archive.UnreadIsOutdone | console/index/actions.py:614-617 | nothing left unread closed after the thirtieth newest held |
| Archive.ReadArchive | console/index/actions.py:589-621 | the early-stopped read returns the newest closures of what ten pages of every label hold, and of all there are when every label fits or settles within them |
| Archive.NewestBeyondLimitIff | console/index/actions.py:600-621 | those are the newest of all if and only if nothing past the limit closed after the last of thirty |
| Archive.SettledLabelsAreEnough | console/index/actions.py:612-617 | a condition label by label: it fits, or thirty closures within the limit are later than its last update there |
| Archive.LateClosureIsMissed | console/index/actions.py:600-621 | a closure past the limit later than all before it is missed |
| Archive.LateLabelIsMissed | console/index/actions.py:600-621 | one such label, of 1001 issues |
| Archive.NewestTimesAreUnique | console/index/actions.py:620-621 | any two choices of the newest close at the same times |
| Archive.SameAsReadingAll | console/index/actions.py:589-621 | and those are the times reading the same labels whole would give |
| Archive.ReadActions | console/index/actions.py:550-566 | the open list: each action within the page limit held, and once; truncated exactly when a label fills every page, and otherwise nothing is left behind |
| Supervision.NextBoundaryMeaning | console/index/build.py:406-410 | the next start stays on the grid, moves on, and is the first one ahead |
| Supervision.ShortBuildsKeepTheCadence | console/index/build.py:385-410 | builds that fit the period start exactly one period apart |
| Supervision.Supervisor.Deferred | console/index/build.py:221-246 | the surface comes up at once, marked as not built yet, on the last good index if there is one |
| Supervision.Supervisor.Built | console/index/build.py:247-266 | the first build, or an empty surface that says why |
| Supervision.Supervisor.RefreshOnce | console/index/build.py:330-361 | swap and clear the marks, or keep serving what was served with its stamps and say why; either way the bootstrap window is over |
| Supervision.Supervisor.Loop | console/index/build.py:375-410 | every start on the grid, in order, no burst after the first boundary; what is shown is the last build that succeeded, or what it came up with, and says so when the last one failed |

## Left out

- Merge.Merge: `superseded` is a set, so the order its entries are listed in and how often one repeats are not modelled.
- Merge.Merge: the evidence link of a provenance is not modelled; it travels with the provenance that won.
- MergeOrder.ConflictsAndAsOfAreOrderFree: goes one way for the conflict set, because which facets a disagreement touches depends on which discoveries one order hears together; `StateOrder.AsOfIgnoresOrderIff` is exact for the as-of and `RowOrder.RowIgnoresOrderIff` for the row.
- MergeOrder.StateIsOrderFreeIff: is about components and runs as the index ingests them; `StateOrder.StateIgnoresOrderIff` is the law for every kind.
- OrderFree.BuildIgnoresAdapterOrder: goes one way, because a later pass can overwrite the very row order shows in; the exact conditions are `RowOrder.RowIgnoresOrderIff` for a row and `AliasExact.AliasPassIgnoresOrderIff` for the aliases.
- IndexClass.Index.Finalize: when a pass raises, the rows the source had already placed are not described; the index is unresolved and the next query starts over.
- IndexClass.Index.LandingModel: stands for the resolved rows it is computed from; the page facts derived from them are not modelled, nor is `set_landing_model`.
- Passes.ApplyTriage: the text of the stamped facets is kept by value, not by its wording.
- ExecutionCaching.ExecutionCache.LoadLocked: a file that cannot be read, parsed or is of another version is one case, "no document".
- ExecutionCaching.ExecutionCache.PersistSnapshot: the write is a document that replaces the file at some later instant, or fails; temporary files and the time between writes are not modelled, and nothing is claimed of `dirty` across concurrent persists.
- ExecutionProtocol.ServedDetailIsTrue: a listing, a description and a record merged from both are taken to read one execution at one instant.
- PipelineFetch.SelectionIsEnoughIff: execution keys are taken to be distinct and a day's records to be in order of start, as `_group_by_date` leaves them.
- Pipeline.ClassifyWindow: labels, evidence texts and the signals computed from a window are not modelled.
- Calendar.EffectiveCadenceMinutes: time is whole minutes, and the clock is always given.
- ComponentIds.PlaceVerbatim: the dictionary is passed and returned as a value, where the source updates one in place.
- Archive.ReadActions: the order in which the page shows the open list is not modelled.
- Archive.ReadArchive: the listing does not change between two pages of one read, and a failed read is not modelled.
- Supervision.Supervisor.Loop: takes the builds and waits of a run as a list; threads and the stop event are the end of that list.
- Parsing of ISO stamps, regular expressions and the trading calendar are function parameters.
- Float rounding: seconds are reals, minutes and ticks are integers.
- Adapters, drivers, configuration, rendering, routing and the pages are field mapping or presentation.
- The numbers of `console/index/numbers.py`, the streak and rate signals, milestones and the planner are not part of this model.
