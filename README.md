# Alarm analysis and preventive-maintenance reports, modelled in Dafny

The program talks to an eG Innovations manager and produces two kinds of reports.

- **Alarm analysis.** The current alarm feed is grouped by a
  `componentName-test-measure-info` key. Every group becomes one JSON bundle in a
  ZIP archive (`AlarmProcessingService.analyzeGroupedAlarms`). A bundle holds a
  representative alarm stamped with the group size, the request metadata, and
  three enrichments fetched independently: historical data, detailed diagnosis
  and a measure graph. `AlarmAnalysisReportService` reads such an archive back.
  It turns each entry into an `AlarmReportData` card, looks up the measure's
  interpretation in the bundled eG help files, asks a language model for an
  analysis, sorts the cards by priority and renders the HTML page.
- **Preventive maintenance.** `preparePreventiveMaintenance` selects the eG Manager
  and eG Agent components. It walks their enabled tests through the test and
  measure display-name mappings, and writes one JSON entry per
  (component, test, measure) visit into a ZIP archive.
  `PreventiveMaintenanceService` reads the entries named by the file-category
  mapping and looks up each measure's help. It asks the language model for a
  compliance analysis and classifies the reply as COMPLIANT, NON-COMPLIANT or
  NEEDS REVIEW. `KPIComplianceReportService` turns the results into the report
  model: counters, one card per check, CSS classes and anchor ids.

The model has one Dafny module per core Java file:

| module | file |
|---|---|
| `AlarmProcessing` | alarm grouping and bundles |
| `MaintenanceSweep` | the sweep half of `AlarmProcessingService` |
| `ReportModel` | `AlarmReportData` |
| `AlarmReport` | `AlarmAnalysisReportService` |
| `PreventiveMaintenance` | `PreventiveMaintenanceService` |
| `KpiReport` | `KPIComplianceReportService` |

Five support modules are shared:

- `Wrappers`: `Option`, and the `Outcome` of a remote call, split by the exception classes the callers catch.
- `Text`: the `java.lang.String` operations used.
- `Json`: Jackson's tree.
- `Archive`: a ZIP archive as a sequence of named entries.
- `Seqs`: splitting and joining sequences, and the first index whose element passes a test (the shape of every "first match" loop).

The modelling choices are as follows:

- Remote calls, help files, the clock, UUIDs, the language model, JSON rendering and Markdown rendering are function parameters.
- The iteration order of every `HashMap` is an explicit input sequence.
- Classes whose fields are updated in place keep that form:
  - `AlarmReportData`;
  - the loops that build lists, archives and prompts.

## Model

| member | source | states |
|---|---|---|
| `AlarmProcessing.Groups` | src/main/java/com/eginnovations/support/pmr/AlarmProcessingService.java:239-256 | a null feed gives the empty map; otherwise the grouping of the feed by `KeyOf` |
| `AlarmProcessing.GroupAlarms` | src/main/java/com/eginnovations/support/pmr/AlarmProcessingService.java:239-256 | the `computeIfAbsent(...).add` loop builds exactly `Groups(history)` (empty for a null feed) |
| `AlarmProcessing.GroupingSnoc` | src/main/java/com/eginnovations/support/pmr/AlarmProcessingService.java:253 | one more record is appended to the list of its key (a new list when the key is new); every other list is unchanged |
| `AlarmProcessing.MembersCarryKey` | src/main/java/com/eginnovations/support/pmr/AlarmProcessingService.java:245-253 | a key's list is no longer than the feed and holds only feed records with that key |
| `AlarmProcessing.MembersSnocKey` | src/main/java/com/eginnovations/support/pmr/AlarmProcessingService.java:253 | one more record extends only its own key's list: the list it had, or an empty one for a new key |
| `AlarmProcessing.GroupingPartitions` | src/main/java/com/eginnovations/support/pmr/AlarmProcessingService.java:244-255 | every record lies in the list of its own key; every listed record comes from the feed and carries that list's key |
| `AlarmProcessing.GroupsNonEmpty` | src/main/java/com/eginnovations/support/pmr/AlarmProcessingService.java:253 | no group list is empty |
| `AlarmProcessing.GroupSizesSum` | src/main/java/com/eginnovations/support/pmr/AlarmProcessingService.java:244-255 | the group sizes sum to the feed length |
| `AlarmProcessing.RepresentativeKey` | src/main/java/com/eginnovations/support/pmr/AlarmProcessingService.java:111-116 | every group has a first record, and that record carries the group's key |
| `AlarmProcessing.KeyCollision` | src/main/java/com/eginnovations/support/pmr/AlarmProcessingService.java:247-251 | two different records whose fields contain `-` can share a key, so they land in one group |
| `AlarmProcessing.KeyOfParts` | src/main/java/com/eginnovations/support/pmr/AlarmProcessingService.java:247-251 | the key is the component name, `-`, the test, `-`, the measure, `-` and the descriptor, null fields printed as `null`; its length is the parts' lengths plus 3 |
| `AlarmProcessing.FetchWindow` | src/main/java/com/eginnovations/support/pmr/AlarmProcessingService.java:127-139 | the window is in [1, 24]: 1 for a null or empty start time or a failed parse, otherwise the elapsed hours clamped to [1, 24] |
| `AlarmProcessing.CanonicalType` | src/main/java/com/eginnovations/support/pmr/AlarmProcessingService.java:143-146 | without a comma the type is kept; otherwise the trimmed text before the first comma, which has no comma and no blank at either end |
| `AlarmProcessing.RequestsFor` | src/main/java/com/eginnovations/support/pmr/AlarmProcessingService.java:140-191 | the three requests share one `"<h> hours"` timeline, component name, component type, test and measure; only the diagnosis request carries the info; display names are off |
| `AlarmProcessing.HistorySlot` | src/main/java/com/eginnovations/support/pmr/AlarmProcessingService.java:156-164 | a payload exactly on success; no key at all for `ComponentNotAssociatedException`; an error slot with the exception message otherwise |
| `AlarmProcessing.DiagnosisSlot` | src/main/java/com/eginnovations/support/pmr/AlarmProcessingService.java:176-183 | a payload on success, an error slot with the message on any failure, never absent |
| `AlarmProcessing.GraphSlot` | src/main/java/com/eginnovations/support/pmr/AlarmProcessingService.java:194-203 | no key for null bytes, the encoded graph for bytes, an error slot for any failure |
| `AlarmProcessing.Normalize` | src/main/java/com/eginnovations/support/pmr/AlarmProcessingService.java:224-231 | same length; space, `:`, `/`, `\` and `#` become `_`; every other character is kept; none of the five is left |
| `AlarmProcessing.NormalizeIdempotent` | src/main/java/com/eginnovations/support/pmr/AlarmProcessingService.java:224-231 | normalising twice is normalising once |
| `AlarmProcessing.NormalizeAppend` | src/main/java/com/eginnovations/support/pmr/AlarmProcessingService.java:224-231 | a clean suffix passes through normalisation unchanged |
| `AlarmProcessing.ZipName` | src/main/java/com/eginnovations/support/pmr/AlarmProcessingService.java:97-99 | the archive name is clean and ends in `.zip` |
| `AlarmProcessing.EntryName` | src/main/java/com/eginnovations/support/pmr/AlarmProcessingService.java:207-209 | the entry name is clean |
| `AlarmProcessing.EntryNameEnds` | src/main/java/com/eginnovations/support/pmr/AlarmProcessingService.java:207-209 | for a clean group id, the entry name ends in `.<groupId>.json` |
| `AlarmProcessing.GroupEntry` | src/main/java/com/eginnovations/support/pmr/AlarmProcessingService.java:111-217 | a group gives an entry exactly when it is non-empty and its first record has a component type (a null type throws and the group is dropped); the entry is named `EntryName(key, groupId)` |
| `AlarmProcessing.GroupEntries` | src/main/java/com/eginnovations/support/pmr/AlarmProcessingService.java:107-217 | one slot per group of the iteration order |
| `AlarmProcessing.GroupBundle` | src/main/java/com/eginnovations/support/pmr/AlarmProcessingService.java:114-203 | the bundle holds the group id, the key, the first record with its repeat count set to the group size, the request metadata and the three slots |
| `AlarmProcessing.SlotsIndependent` | src/main/java/com/eginnovations/support/pmr/AlarmProcessingService.java:156-203 | changing one remote call's outcome changes only that call's slot |
| `AlarmProcessing.DistinctIdsDistinctNames` | src/main/java/com/eginnovations/support/pmr/AlarmProcessingService.java:207-209 | distinct clean group ids of one length give distinct entry names |
| `AlarmProcessing.AllGroupsArchived` | src/main/java/com/eginnovations/support/pmr/AlarmProcessingService.java:107-218 | with distinct UUIDs, every group that yields an entry is in the archive, in processing order |
| `AlarmProcessing.WriteGroups` | src/main/java/com/eginnovations/support/pmr/AlarmProcessingService.java:107-218 | the group loop writes exactly the entries of the groups, in the given order |
| `AlarmProcessing.AnalyzeGroupedAlarms` | src/main/java/com/eginnovations/support/pmr/AlarmProcessingService.java:91-222 | the archive name is `ZipName`; no archive when it cannot be opened; otherwise the group entries with distinct names, and none for a null feed |
| `MaintenanceSweep.Servers` | src/main/java/com/eginnovations/support/pmr/AlarmProcessingService.java:284-293 | exactly the components whose type contains `eG Manager` or `eG Agent` |
| `MaintenanceSweep.SelectServers` | src/main/java/com/eginnovations/support/pmr/AlarmProcessingService.java:284-293 | the servers are appended after the entries already selected |
| `MaintenanceSweep.FlatMapMember` | src/main/java/com/eginnovations/support/pmr/AlarmProcessingService.java:341-352 | an item of the nested for-each comes from one of the outer items |
| `MaintenanceSweep.FlatMapAppend` | src/main/java/com/eginnovations/support/pmr/AlarmProcessingService.java:341-352 | the nested for-each distributes over concatenation |
| `MaintenanceSweep.MeasuresOfMember` | src/main/java/com/eginnovations/support/pmr/AlarmProcessingService.java:351-355 | a measure is visited for an internal test iff some measure key starts with `internalTest:` and maps to it |
| `MaintenanceSweep.TestMeasuresMember` | src/main/java/com/eginnovations/support/pmr/AlarmProcessingService.java:347-355 | a measure is visited for an enabled test iff an internal test displays as that test and one of its measure keys maps to the measure |
| `MaintenanceSweep.VisitCharacterized` | src/main/java/com/eginnovations/support/pmr/AlarmProcessingService.java:341-355 | a (component, test, measure) visit happens iff the test is enabled and the two mappings connect it to the measure |
| `MaintenanceSweep.VisitsOfTest` | src/main/java/com/eginnovations/support/pmr/AlarmProcessingService.java:347-355 | one visit per measure of the test; a visit occurs iff it has this component and test and one of the test's measures |
| `MaintenanceSweep.EnabledTests` | src/main/java/com/eginnovations/support/pmr/AlarmProcessingService.java:305-336 | the tests returned by showTests; after a `RuntimeException`, those of `showTests.<type>.json` when it loads and is not null; skipped otherwise |
| `MaintenanceSweep.ResolveLeaf` | src/main/java/com/eginnovations/support/pmr/AlarmProcessingService.java:411-419 | a reference to the shared request becomes the request's final value; every other leaf is kept |
| `MaintenanceSweep.Resolve` | src/main/java/com/eginnovations/support/pmr/AlarmProcessingService.java:460-463 | serialising keeps every key and resolves every leaf against the final request |
| `MaintenanceSweep.WithError` | src/main/java/com/eginnovations/support/pmr/AlarmProcessingService.java:450-459 | a failure adds `error`, `metaData` and `diagnosisDataMetaData` to the output map |
| `MaintenanceSweep.DescriptorPass` | src/main/java/com/eginnovations/support/pmr/AlarmProcessingService.java:408-420 | the per-descriptor loop makes at most one call per descriptor |
| `MaintenanceSweep.DescriptorPassSticky` | src/main/java/com/eginnovations/support/pmr/AlarmProcessingService.java:411-420 | after a failing call the loop does nothing more |
| `MaintenanceSweep.DescriptorPassCalls` | src/main/java/com/eginnovations/support/pmr/AlarmProcessingService.java:411-415 | without failure, call i carries descriptor i, and the shared request ends on the last descriptor |
| `MaintenanceSweep.DescriptorPassSlots` | src/main/java/com/eginnovations/support/pmr/AlarmProcessingService.java:416-419 | every descriptor gets its `historicalDetailedDiagnosisData-<info>` entry holding a reference to the shared request; other keys are kept |
| `MaintenanceSweep.ProcessTuple` | src/main/java/com/eginnovations/support/pmr/AlarmProcessingService.java:356-471 | the per-visit code (history fetch, descriptor loop or single call, error handling) computes the document and calls of `TupleDocument` |
| `MaintenanceSweep.SharedRequestShowsLast` | src/main/java/com/eginnovations/support/pmr/AlarmProcessingService.java:408-420 | with several descriptors, one call per descriptor, and every `diagnosisDataMetaData-<info>` slot shows the last descriptor |
| `MaintenanceSweep.NoFailure` | src/main/java/com/eginnovations/support/pmr/AlarmProcessingService.java:411-415 | when every call succeeds the loop ends without error, on the last descriptor |
| `MaintenanceSweep.SingleDiagnosisCall` | src/main/java/com/eginnovations/support/pmr/AlarmProcessingService.java:421-449 | with at most one descriptor, exactly one call with a null info: the `message` retries never fire |
| `MaintenanceSweep.HistoryFailureDocument` | src/main/java/com/eginnovations/support/pmr/AlarmProcessingService.java:450-459 | a failed history fetch writes only `error`, `metaData` and `diagnosisDataMetaData` and makes no diagnosis call |
| `MaintenanceSweep.FetchedHistory` | src/main/java/com/eginnovations/support/pmr/AlarmProcessingService.java:390-396 | `TestNotAssociatedException` gives an empty history; the call's map on success; nothing (the outer catch) iff the call threw another exception |
| `MaintenanceSweep.SweepEntryName` | src/main/java/com/eginnovations/support/pmr/AlarmProcessingService.java:375-384 | the name is `type_name_test_measure.json` with each space, `:` and `/` replaced by `-` and every other character kept; none of the three is left |
| `MaintenanceSweep.ArchiveOfAppend` | src/main/java/com/eginnovations/support/pmr/AlarmProcessingService.java:460-471 | writing two runs of visits is writing their concatenation |
| `MaintenanceSweep.ArchiveOf` | src/main/java/com/eginnovations/support/pmr/AlarmProcessingService.java:460-471 | each visit adds at most one entry |
| `MaintenanceSweep.PutKeepsNames` | src/main/java/com/eginnovations/support/pmr/AlarmProcessingService.java:464 | writing an entry never loses one already written |
| `MaintenanceSweep.EveryVisitWritten` | src/main/java/com/eginnovations/support/pmr/AlarmProcessingService.java:460-471 | every visited tuple has an entry in the archive, because the write is in `finally` |
| `MaintenanceSweep.SweepVisitsSnoc` | src/main/java/com/eginnovations/support/pmr/AlarmProcessingService.java:296-481 | the visits of one more server are appended after those before it |
| `MaintenanceSweep.WriteVisits` | src/main/java/com/eginnovations/support/pmr/AlarmProcessingService.java:341-477 | the visit loop writes exactly `ArchiveOf(zip, visits)` |
| `MaintenanceSweep.PreparePreventiveMaintenance` | src/main/java/com/eginnovations/support/pmr/AlarmProcessingService.java:271-486 | nothing happens when the archive cannot be opened; otherwise the servers are appended to the selection and the archive holds the documents of every visit |
| `ReportModel.Badge` | src/main/java/com/eginnovations/support/pmr/model/AlarmReportData.java:184-194 | always one of danger, warning, eg-minor, secondary; critical gives danger, major or warning gives warning, minor gives eg-minor (after lower-casing); null and anything else give secondary |
| `ReportModel.BadgeIgnoresCase` | src/main/java/com/eginnovations/support/pmr/model/AlarmReportData.java:184-194 | priorities equal ignoring case get the same badge |
| `ReportModel.AlarmReportData.constructor` | src/main/java/com/eginnovations/support/pmr/model/AlarmReportData.java:35 | a new card has every reference field null and `repeatCount` 0, and satisfies the colour invariant |
| `ReportModel.AlarmReportData.SetPriority` | src/main/java/com/eginnovations/support/pmr/model/AlarmReportData.java:75-82 | sets the priority and its badge colour together, changes nothing else, and establishes the invariant |
| `ReportModel.AlarmReportData.SetComponentName` | src/main/java/com/eginnovations/support/pmr/model/AlarmReportData.java:43-49 | changes only its own field and keeps the invariant |
| `ReportModel.AlarmReportData.SetComponentType` | src/main/java/com/eginnovations/support/pmr/model/AlarmReportData.java:51-57 | changes only its own field and keeps the invariant |
| `ReportModel.AlarmReportData.SetTest` | src/main/java/com/eginnovations/support/pmr/model/AlarmReportData.java:59-65 | changes only its own field and keeps the invariant |
| `ReportModel.AlarmReportData.SetMeasure` | src/main/java/com/eginnovations/support/pmr/model/AlarmReportData.java:67-73 | changes only its own field and keeps the invariant |
| `ReportModel.AlarmReportData.SetLayer` | src/main/java/com/eginnovations/support/pmr/model/AlarmReportData.java:88-94 | changes only its own field and keeps the invariant |
| `ReportModel.AlarmReportData.SetDescription` | src/main/java/com/eginnovations/support/pmr/model/AlarmReportData.java:96-102 | changes only its own field and keeps the invariant |
| `ReportModel.AlarmReportData.SetStartTime` | src/main/java/com/eginnovations/support/pmr/model/AlarmReportData.java:104-110 | changes only its own field and keeps the invariant |
| `ReportModel.AlarmReportData.SetDuration` | src/main/java/com/eginnovations/support/pmr/model/AlarmReportData.java:112-118 | changes only its own field and keeps the invariant |
| `ReportModel.AlarmReportData.SetInfo` | src/main/java/com/eginnovations/support/pmr/model/AlarmReportData.java:120-126 | changes only its own field and keeps the invariant |
| `ReportModel.AlarmReportData.SetRepeatCount` | src/main/java/com/eginnovations/support/pmr/model/AlarmReportData.java:128-134 | changes only the repeat count; priority and colour are untouched |
| `ReportModel.AlarmReportData.SetMeasureGraphBase64` | src/main/java/com/eginnovations/support/pmr/model/AlarmReportData.java:136-142 | changes only its own field and keeps the invariant |
| `ReportModel.AlarmReportData.SetInterpretation` | src/main/java/com/eginnovations/support/pmr/model/AlarmReportData.java:144-150 | changes only its own field and keeps the invariant |
| `ReportModel.AlarmReportData.SetInterpretationDescription` | src/main/java/com/eginnovations/support/pmr/model/AlarmReportData.java:152-158 | changes only its own field and keeps the invariant |
| `ReportModel.AlarmReportData.SetInterpretationUnit` | src/main/java/com/eginnovations/support/pmr/model/AlarmReportData.java:160-166 | changes only its own field and keeps the invariant |
| `ReportModel.AlarmReportData.SetInterpretationText` | src/main/java/com/eginnovations/support/pmr/model/AlarmReportData.java:168-174 | changes only its own field and keeps the invariant |
| `ReportModel.AlarmReportData.SetAiAnalysis` | src/main/java/com/eginnovations/support/pmr/model/AlarmReportData.java:176-178 | changes only its own field and keeps the invariant |
| `AlarmReport.ExtractedJsonNode` | src/main/java/com/eginnovations/support/pmr/AlarmAnalysisReportService.java:313 | the exception names the missing key and the rendered entry |
| `AlarmReport.ExtractedJsonNodeSpec` | src/main/java/com/eginnovations/support/pmr/AlarmAnalysisReportService.java:303-315 | the first of key, lower case, upper case that is present; when none is: null for troubleshootingSteps (any case), otherwise an exception |
| `AlarmReport.ReportUnit` | src/main/java/com/eginnovations/support/pmr/AlarmAnalysisReportService.java:277-286 | never null; a failure is the failure for `measurementUnit`, the last fallback |
| `AlarmReport.PromptUnit` | src/main/java/com/eginnovations/support/pmr/AlarmAnalysisReportService.java:337-346 | never null; a failure is the failure for `Unit`, the last fallback |
| `AlarmReport.UnitFallbackOrders` | src/main/java/com/eginnovations/support/pmr/AlarmAnalysisReportService.java:279-286 | an entry with both `unit` and `measurementUnit`: the card takes `unit`, the prompt takes `measurementUnit` |
| `AlarmReport.FirstStopSpec` | src/main/java/com/eginnovations/support/pmr/AlarmAnalysisReportService.java:267-292 | the scan passes over entries that have a non-matching Measurement and stops at the first other one |
| `AlarmReport.ScanHelp` | src/main/java/com/eginnovations/support/pmr/AlarmAnalysisReportService.java:267-292 | a match is the first entry whose Measurement matches; no match iff every entry has a non-matching Measurement; an error iff an entry without Measurement comes first |
| `AlarmReport.HelpFileName` | src/main/java/com/eginnovations/support/pmr/AlarmAnalysisReportService.java:253 | no `/` in the result; a name without `/` is kept as it is |
| `AlarmReport.HelpFileNameAppend` | src/main/java/com/eginnovations/support/pmr/AlarmAnalysisReportService.java:253 | the removal works piece by piece and a lone `/` vanishes, so every `/` is removed and every other character kept in order |
| `AlarmReport.InterpretationOutcomes` | src/main/java/com/eginnovations/support/pmr/AlarmAnalysisReportService.java:251-301 | only the four interpretation fields change; the interpretation is "found", the not-found text or an error text; "found" comes with description, unit and text; a missing help file gives the error text naming the file |
| `AlarmReport.PopulateInterpretation` | src/main/java/com/eginnovations/support/pmr/AlarmAnalysisReportService.java:251-301 | the scan with its early return sets the card to `Interpreted(old card, test, measure)` |
| `AlarmReport.FirstStopAt` | src/main/java/com/eginnovations/support/pmr/AlarmAnalysisReportService.java:267-274 | the loop's exit index is the first stop |
| `AlarmReport.ScanEntries` | src/main/java/com/eginnovations/support/pmr/AlarmAnalysisReportService.java:267-274 | the for-loop over the help entries exits at the first stop |
| `AlarmReport.ApplyFound` | src/main/java/com/eginnovations/support/pmr/AlarmAnalysisReportService.java:275-290 | the matched entry's description, unit and text are set in order; a missing field ends with the error text |
| `AlarmReport.StepTexts` | src/main/java/com/eginnovations/support/pmr/AlarmAnalysisReportService.java:351-354 | one text per troubleshooting step, in order |
| `AlarmReport.PromptStepsDefault` | src/main/java/com/eginnovations/support/pmr/AlarmAnalysisReportService.java:348-364 | a matched entry without steps ends with "Not enough information available." |
| `AlarmReport.PromptTextReadsAll` | src/main/java/com/eginnovations/support/pmr/AlarmAnalysisReportService.java:333-361 | the text starts with `Description: ` iff description, interpretation and unit are all readable and the steps are absent or a list; otherwise it is the read-error text |
| `AlarmReport.InterpretationForPromptFinds` | src/main/java/com/eginnovations/support/pmr/AlarmAnalysisReportService.java:319-334 | the prompt text comes from the file named after the test as given, at the first entry whose Measurement equals the measure exactly, when every earlier entry has a different Measurement |
| `AlarmReport.Rank` | src/main/java/com/eginnovations/support/pmr/AlarmAnalysisReportService.java:46-53 | critical 1, major 2, minor 3, warning 4 after lower-casing, and 999 for anything else or null |
| `AlarmReport.RankMatchesBadge` | src/main/java/com/eginnovations/support/pmr/AlarmAnalysisReportService.java:203-215 | the sort rank and the badge colour agree on every priority |
| `AlarmReport.InsertBy` | src/main/java/com/eginnovations/support/pmr/AlarmAnalysisReportService.java:204-215 | inserting adds exactly the new card |
| `AlarmReport.InsertSorted` | src/main/java/com/eginnovations/support/pmr/AlarmAnalysisReportService.java:204-215 | inserting into a sorted list keeps it sorted |
| `AlarmReport.SortBy` | src/main/java/com/eginnovations/support/pmr/AlarmAnalysisReportService.java:204-215 | the sort is a permutation |
| `AlarmReport.SortBySorted` | src/main/java/com/eginnovations/support/pmr/AlarmAnalysisReportService.java:204-215 | the sorted ranks never decrease |
| `AlarmReport.SortByStable` | src/main/java/com/eginnovations/support/pmr/AlarmAnalysisReportService.java:204-215 | cards of equal rank keep their order (`List.sort` is stable) |
| `AlarmReport.SortByPriority` | src/main/java/com/eginnovations/support/pmr/AlarmAnalysisReportService.java:203-215 | sorted by rank, a permutation, and stable within each rank |
| `AlarmReport.EscapeHtml` | src/main/java/com/eginnovations/support/pmr/AlarmAnalysisReportService.java:553-561 | null gives ""; otherwise the five chained replacements equal one pass turning each of `& < > " '` into its entity |
| `AlarmReport.EscapeHtmlSafe` | src/main/java/com/eginnovations/support/pmr/AlarmAnalysisReportService.java:553-561 | none of `< > " '` is left in the output |
| `AlarmReport.EscapeChain` | src/main/java/com/eginnovations/support/pmr/AlarmAnalysisReportService.java:557-560 | the five replace passes, `&` first, equal one character-by-character escape |
| `AlarmReport.UnescapeEscapeHtml` | src/main/java/com/eginnovations/support/pmr/AlarmAnalysisReportService.java:553-561 | unescaping the output gives the input back, so every `&` starts an entity |
| `AlarmReport.AlarmEntries` | src/main/java/com/eginnovations/support/pmr/AlarmAnalysisReportService.java:123-129 | no more alarm entries than archive entries |
| `AlarmReport.AlarmEntriesSpec` | src/main/java/com/eginnovations/support/pmr/AlarmAnalysisReportService.java:123-129 | an entry is kept iff it is in the archive, is not a directory and its name ends in `.json` |
| `AlarmReport.AlarmEntriesAppend` | src/main/java/com/eginnovations/support/pmr/AlarmAnalysisReportService.java:123-129 | the filter keeps archive order: the alarm entries of two runs of entries concatenate |
| `AlarmReport.ErrorCardFacts` | src/main/java/com/eginnovations/support/pmr/AlarmAnalysisReportService.java:380-395 | an error card has priority Critical (rank 1, red badge) and repeat count 1 |
| `AlarmReport.CreateErrorAlarm` | src/main/java/com/eginnovations/support/pmr/AlarmAnalysisReportService.java:380-395 | a fresh card holding `ErrorCard(fileName, message)` |
| `AlarmReport.EntryCardFacts` | src/main/java/com/eginnovations/support/pmr/AlarmAnalysisReportService.java:133-195 | no card iff the JSON parses but has no representativeAlert; unparseable JSON gives the error card; a complete alert gives its priority, its repeat count (1 when absent) and the AI analysis; every card keeps its colour in step |
| `AlarmReport.Cards` | src/main/java/com/eginnovations/support/pmr/AlarmAnalysisReportService.java:123-196 | at most one card per alarm entry |
| `AlarmReport.BuildCard` | src/main/java/com/eginnovations/support/pmr/AlarmAnalysisReportService.java:133-195 | the setter sequence yields a fresh card holding `EntryCard`, or nothing when the entry has no representativeAlert |
| `AlarmReport.GenerateHtmlReport` | src/main/java/com/eginnovations/support/pmr/AlarmAnalysisReportService.java:116-215 | the alarm count is the number of `.json` files; the list is the cards sorted by priority |
| `AlarmReport.LogBaseName` | src/main/java/com/eginnovations/support/pmr/AlarmAnalysisReportService.java:410 | every `.json` removed, then each character outside `[a-zA-Z0-9._-]` replaced by `_`, the rest kept |
| `AlarmReport.SampleLines` | src/main/java/com/eginnovations/support/pmr/AlarmAnalysisReportService.java:449-454 | min(5, n) lines, one per leading data point |
| `AlarmReport.HistoricalSectionShape` | src/main/java/com/eginnovations/support/pmr/AlarmAnalysisReportService.java:446-457 | more than five points: the block starts with the full count and ends with "... and n-5 more data points" |
| `AlarmReport.AppendHistoricalSection` | src/main/java/com/eginnovations/support/pmr/AlarmAnalysisReportService.java:446-462 | the StringBuilder loop appends exactly `HistoricalSection` |
| `PreventiveMaintenance.CheckName` | src/main/java/com/eginnovations/support/pmr/model/KPIComplianceResult.java:138-140 | the name is the component name, `" - "`, the test, `" - "` and the measure (null printed as `null`), each part at its own position and the length their sum plus 6 |
| `PreventiveMaintenance.KeyChars` | src/main/java/com/eginnovations/support/pmr/PreventiveMaintenanceService.java:372-383 | the kept characters are lower case and never a space, `_` or `-` |
| `PreventiveMaintenance.NormalizeKey` | src/main/java/com/eginnovations/support/pmr/PreventiveMaintenanceService.java:372-383 | null gives ""; the result holds no upper-case letter, space, `_` or `-` |
| `PreventiveMaintenance.KeyCharsAppend` | src/main/java/com/eginnovations/support/pmr/PreventiveMaintenanceService.java:376-381 | the character loop distributes over concatenation |
| `PreventiveMaintenance.KeyCharsFixed` | src/main/java/com/eginnovations/support/pmr/PreventiveMaintenanceService.java:376-381 | an already normal key is unchanged |
| `PreventiveMaintenance.NormalizeKeyIdempotent` | src/main/java/com/eginnovations/support/pmr/PreventiveMaintenanceService.java:372-383 | normalising twice is normalising once |
| `PreventiveMaintenance.NormalizeKeyIgnoresCase` | src/main/java/com/eginnovations/support/pmr/PreventiveMaintenanceService.java:372-383 | keys equal ignoring case normalise alike |
| `PreventiveMaintenance.NormalizeKeyDropsSeparator` | src/main/java/com/eginnovations/support/pmr/PreventiveMaintenanceService.java:376-381 | a space, `_` or `-` anywhere makes no difference |
| `PreventiveMaintenance.FirstKeyMatch` | src/main/java/com/eginnovations/support/pmr/PreventiveMaintenanceService.java:324-335 | the first member whose normalised name equals the normalised key, or the end when none does |
| `PreventiveMaintenance.GetStringFromMapSpec` | src/main/java/com/eginnovations/support/pmr/PreventiveMaintenanceService.java:318-336 | a value iff map and key are non-null and the first matching member holds a non-null value; that value's `String.valueOf` |
| `PreventiveMaintenance.GetStringFromMap` | src/main/java/com/eginnovations/support/pmr/PreventiveMaintenanceService.java:318-320 | a null map or a null key gives null |
| `PreventiveMaintenance.ListStrings` | src/main/java/com/eginnovations/support/pmr/PreventiveMaintenanceService.java:355-362 | one element per item; nulls kept; others stringified |
| `PreventiveMaintenance.GetStringListFromMap` | src/main/java/com/eginnovations/support/pmr/PreventiveMaintenanceService.java:342-367 | a list iff some matching member holds a list; the first such, stringified |
| `PreventiveMaintenance.ListLookupPassesOverScalars` | src/main/java/com/eginnovations/support/pmr/PreventiveMaintenanceService.java:318-367 | when a scalar matches first and a list later, the string lookup returns the scalar and the list lookup the later list |
| `PreventiveMaintenance.FirstHelpMatchSpec` | src/main/java/com/eginnovations/support/pmr/PreventiveMaintenanceService.java:291-307 | the first entry whose trimmed measurement equals the trimmed measure ignoring case |
| `PreventiveMaintenance.GetMeasureHelp` | src/main/java/com/eginnovations/support/pmr/PreventiveMaintenanceService.java:267-313 | null for a null test or measure, a missing or unreadable file; otherwise the first matching entry; with no match, the `MeasureHelpNotFoundException` message |
| `PreventiveMaintenance.AnyKeyEnds` | src/main/java/com/eginnovations/support/pmr/PreventiveMaintenanceService.java:177-184 | true iff the name ends with some mapping key |
| `PreventiveMaintenance.StripJson` | src/main/java/com/eginnovations/support/pmr/PreventiveMaintenanceService.java:536-538 | exactly one trailing `.json` removed, if present |
| `PreventiveMaintenance.GetLogFileName` | src/main/java/com/eginnovations/support/pmr/PreventiveMaintenanceService.java:530-544 | the sanitised stem of the basename followed by the suffix; allowed characters kept, the others `_` |
| `PreventiveMaintenance.LogFileNameOfCleanName` | src/main/java/com/eginnovations/support/pmr/PreventiveMaintenanceService.java:530-544 | a clean basename without `.json` only gets the suffix |
| `PreventiveMaintenance.Truncate` | src/main/java/com/eginnovations/support/pmr/PreventiveMaintenanceService.java:420-423 | fails iff the limit is below -1 (`substring` throws); unchanged for -1 or short text; otherwise the first `limit` characters then the marker |
| `PreventiveMaintenance.DataSection` | src/main/java/com/eginnovations/support/pmr/PreventiveMaintenanceService.java:415-427 | the error line for a missing or malformed limit or one below -1; the whole data for -1; otherwise the data truncated by `Truncate`, then a blank line: at most `limit` characters of the data plus the marker |
| `PreventiveMaintenance.DiagnosisSection` | src/main/java/com/eginnovations/support/pmr/PreventiveMaintenanceService.java:429-437 | empty without diagnosis data; fails iff there is diagnosis data and the limit is missing or below -1; otherwise `DIAGNOSIS DATA:`, the diagnosis truncated by `Truncate`, and a blank line |
| `PreventiveMaintenance.ReplyText` | src/main/java/com/eginnovations/support/pmr/PreventiveMaintenanceService.java:466-478 | a reply is returned as it is; an I/O failure yields the "AI analysis unavailable" text |
| `PreventiveMaintenance.GenerateAiAnalysis` | src/main/java/com/eginnovations/support/pmr/PreventiveMaintenanceService.java:388-479 | fails exactly as the diagnosis section does; otherwise the model's reply to the prompt built from the result and the data |
| `PreventiveMaintenance.PromptTextFrame` | src/main/java/com/eginnovations/support/pmr/PreventiveMaintenanceService.java:390-459 | the prompt starts with the introduction and the KPI information, and ends with the historical data, the diagnosis section and the analysis request, in that order |
| `PreventiveMaintenance.ComplianceOf` | src/main/java/com/eginnovations/support/pmr/PreventiveMaintenanceService.java:549-584 | compliant iff COMPLIANT; UNKNOWN iff the text is null; always one of the four statuses |
| `PreventiveMaintenance.ExplicitStatusFirst` | src/main/java/com/eginnovations/support/pmr/PreventiveMaintenanceService.java:559-566 | an explicit `STATUS: NON-COMPLIANT` wins, then an explicit `STATUS: COMPLIANT` |
| `PreventiveMaintenance.KeywordTiers` | src/main/java/com/eginnovations/support/pmr/PreventiveMaintenanceService.java:567-576 | without an explicit status line a non-compliant keyword gives NON-COMPLIANT even when a compliant one is present; only without both does a compliant keyword give COMPLIANT |
| `PreventiveMaintenance.ExplicitStatusWords` | src/main/java/com/eginnovations/support/pmr/PreventiveMaintenanceService.java:559-574 | an explicit status line also contains the bare keyword |
| `PreventiveMaintenance.VerdictHasEvidence` | src/main/java/com/eginnovations/support/pmr/PreventiveMaintenanceService.java:556-576 | COMPLIANT needs a compliant keyword, NON-COMPLIANT a non-compliant one |
| `PreventiveMaintenance.NeedsReviewIffNoKeyword` | src/main/java/com/eginnovations/support/pmr/PreventiveMaintenanceService.java:567-580 | NEEDS REVIEW iff none of the keywords occurs |
| `PreventiveMaintenance.ProcessZipEntryOutcomes` | src/main/java/com/eginnovations/support/pmr/PreventiveMaintenanceService.java:190-249 | no result iff unparseable or without historicalData/metaData; a missing help entry throws; a result carries the entry name and metadata, no help fields when there is no help, and a status from the four |
| `PreventiveMaintenance.BaseResult` | src/main/java/com/eginnovations/support/pmr/PreventiveMaintenanceService.java:218-239 | entry name and metadata copied; the three help fields looked up in the help entry, none without one; no analysis or status yet; the raw data rendered; the diagnosis data rendered iff the archive's is non-null |
| `PreventiveMaintenance.ProcessZipFile` | src/main/java/com/eginnovations/support/pmr/PreventiveMaintenanceService.java:117-164 | the results are `ZipResults`, the processed count is their number, the skipped count counts filtered-out files |
| `PreventiveMaintenance.ZipFileStep` | src/main/java/com/eginnovations/support/pmr/PreventiveMaintenanceService.java:128-157 | one loop iteration adds that entry's contribution |
| `PreventiveMaintenance.ZipResultsAppend` | src/main/java/com/eginnovations/support/pmr/PreventiveMaintenanceService.java:128-157 | the results of two runs of entries concatenate |
| `PreventiveMaintenance.ZipResults` | src/main/java/com/eginnovations/support/pmr/PreventiveMaintenanceService.java:128-157 | at most one result per entry |
| `PreventiveMaintenance.ZipResultsFromEntries` | src/main/java/com/eginnovations/support/pmr/PreventiveMaintenanceService.java:128-157 | every result comes from a non-directory entry whose basename ends with a mapping key |
| `PreventiveMaintenance.ZipResultsWellJudged` | src/main/java/com/eginnovations/support/pmr/PreventiveMaintenanceService.java:242-246 | every result has one of COMPLIANT, NON-COMPLIANT, NEEDS REVIEW, with `compliant` in step |
| `PreventiveMaintenance.CountsWithinFiles` | src/main/java/com/eginnovations/support/pmr/PreventiveMaintenanceService.java:125-157 | processed plus skipped never exceed the number of files |
| `KpiReport.CountStatus` | src/main/java/com/eginnovations/support/pmr/KPIComplianceReportService.java:79-87 | a counter never exceeds the number of results |
| `KpiReport.CountsPartition` | src/main/java/com/eginnovations/support/pmr/KPIComplianceReportService.java:78-87 | the three counters and the uncounted results add up to the total |
| `KpiReport.NoneUncounted` | src/main/java/com/eginnovations/support/pmr/KPIComplianceReportService.java:78-87 | nothing is uncounted iff every status is one of the three |
| `KpiReport.CountsWithinTotal` | src/main/java/com/eginnovations/support/pmr/KPIComplianceReportService.java:78-87 | the counters sum to at most the total, and to the total iff every status is one of the three |
| `KpiReport.ArchiveCountsComplete` | src/main/java/com/eginnovations/support/pmr/KPIComplianceReportService.java:78-87 | for the results of one archive the counters sum to the total |
| `KpiReport.StatusSuffix` | src/main/java/com/eginnovations/support/pmr/KPIComplianceReportService.java:110-121 | compliant exactly for COMPLIANT, non-compliant exactly for NON-COMPLIANT, needs-review otherwise |
| `KpiReport.GenerateKpiId` | src/main/java/com/eginnovations/support/pmr/KPIComplianceReportService.java:151-157 | `name_test_measure` with each character outside `[a-zA-Z0-9_-]` replaced by `_`, the rest kept |
| `KpiReport.SanitizeIdempotent` | src/main/java/com/eginnovations/support/pmr/KPIComplianceReportService.java:155 | sanitising twice is sanitising once |
| `KpiReport.KpiIdStable` | src/main/java/com/eginnovations/support/pmr/KPIComplianceReportService.java:151-157 | an id is already a valid anchor id |
| `KpiReport.FormatAiAnalysis` | src/main/java/com/eginnovations/support/pmr/KPIComplianceReportService.java:162-165 | null or empty analysis gives "" |
| `KpiReport.ConvertToViewModel` | src/main/java/com/eginnovations/support/pmr/KPIComplianceReportService.java:102-146 | the id, check name and descriptive fields are copied; the HTML analysis is set iff the analysis is non-empty, and is its Markdown rendering |
| `KpiReport.CardClassesAgree` | src/main/java/com/eginnovations/support/pmr/KPIComplianceReportService.java:109-124 | each of the three CSS classes is compliant, non-compliant or needs-review exactly when the status is COMPLIANT, NON-COMPLIANT or anything else |
| `KpiReport.BuildReportModel` | src/main/java/com/eginnovations/support/pmr/KPIComplianceReportService.java:70-97 | the total is the number of results, the counters count exact statuses, and there is one view per result in order |

## Left out

- Text: case mapping covers ASCII letters only; `String.length` is taken in characters, not UTF-16 units.
- I/O is not modelled: ZIP reading and writing, classpath resources, log files, console output and logging. Archives are sequences of entries; help files and resources are lookups passed in as parameters.
- The clock, date parsing, UUIDs, Base64 encoding, Jackson rendering, Markdown rendering, Thymeleaf, the HTTP calls to the eG manager and the language model are parameters. `OllamaService.java` is not part of this model.
- `HashMap` iteration orders (group keys, mapping keys, descriptors of historical data) are explicit input sequences. Member names of a JSON object are taken to be distinct.
- `Json`: numbers are integers only. `asInt` does not model Java `int` overflow or text-to-number coercion.
- `MaintenanceSweep.PreparePreventiveMaintenance`: the component type is taken to be non-null. The nested `forEach` calls are flattened into one visit sequence.
- `AlarmReport.GenerateHtmlReport`: the cards are collected as value snapshots; `List.sort` in place is modelled as a sort function on that list. The HTML file name and the rendered page are left out.
- `getOllamaInterpretationWithLogging` is modelled only in its interpretation text, log base name and historical-data block. The rest of that prompt, the call and its log files are left out.
- `PreventiveMaintenance.ComplianceOf`: `determineComplianceStatus` sets two fields of the result object. It is modelled as a function returning both fields, because `KPIComplianceResult` is a plain data holder, modelled as a datatype.
- `KpiReport.ConvertToViewModel`: the view model is built by setters on a fresh object. It is modelled as a value.
- `PreventiveMaintenance.GenerateAiAnalysis`: a null prompt or null response from the language model client is not modelled, since the client returns text or throws. The messages of JVM exceptions are an input.
- The three help lookups compare measures differently, and each is modelled as its code reads:
  - `AlarmReport.ScanHelp` on the card side uses `equalsIgnoreCase` without trimming (AlarmAnalysisReportService.java:274);
  - `AlarmReport.InterpretationForPrompt` uses `equals` (AlarmAnalysisReportService.java:332) and opens the help file under the test name with any `/` left in (line 322);
  - `PreventiveMaintenance.GetMeasureHelp` trims both sides and ignores case (PreventiveMaintenanceService.java:299). It throws when no entry matches (line 306), so the archive entry is dropped and not shown as "no interpretation".
- `AlarmProcessing.HistorySlot`, `AlarmProcessing.DiagnosisSlot`, `AlarmProcessing.GraphSlot`, `MaintenanceSweep.WithError` and `MaintenanceSweep.ProcessTuple`: an exception message is taken to be text. A `getMessage()` that returns null (AlarmProcessingService.java:163, 181, 200, 460-463) would be written as a JSON null; that case is not modelled.
- `AlarmProcessing.KeyOf` and `AlarmProcessing.GroupAlarms`: the feed is a sequence of record values, so a null element of `problemDetails` is not modelled. In the source the key is then built from a null reference, which throws (AlarmProcessingService.java:246-251).
- `MaintenanceSweep.FetchedHistory` and `MaintenanceSweep.TupleDocument`: the historical-data call returns a map or throws. A null return is not modelled: the source then dereferences null at AlarmProcessingService.java:396, and the exception ends in the error document.
- `generateReport`, `saveReport` and `findPreventiveMaintenanceZips` are not modelled. They read templates, write files and list directories.
- `getStringListFromMap` has no caller in the service. It is modelled for its own contract.
