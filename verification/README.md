# Prepeet: contract gates, worker protocol and session pinning in Dafny

This project models the parts of the platform whose correctness nobody can see by
reading one function, and proves what they promise for every input and every run:

- **The contract gates** (`tools/apicompat`, `tools/eventgen`): the OpenAPI gate and the
  event gate, as loops proved against a multiset of breaks, and that multiset proved
  against a separate meaning - which request bodies a schema accepts, what a response
  gives a client, what a chain of event releases keeps for a consumer.
- **The generators' text functions** (`tools/eventgen`, `tools/authzgen`): comment
  wrapping, proved optimal, and name mangling with its partial inverse.
- **The role model** (`tools/authzgen`): acceptance, blame, and the isolation every
  accepted model has.
- **The vulnerability gate** (`tools/vulncheck`): a two-pass fold over a report stream,
  proved against a set-level decision, with what the order of the stream has to do with it.
- **The worker's event routes** (`services/platform/cmd/worker`): a protocol of atomic
  steps under at-least-once delivery, overlapping deliveries and cuts between any two
  steps; and the handlers themselves, shown to take exactly those steps.
- **Pinning** (`composer.go`, `composer.py`, `rubric_source.go`, `Brief`, campaign opening,
  the content registry): what a session is judged by, over any run of drafts, publications,
  rollbacks, openings and compositions.
- **Screening starts** (`screening_adapter.go`): claim, acceptance, creation and
  transition with a cut possible after any of them.

Each loop of the source is a method with its invariants. A method is tied to a function
or predicate of its inputs, and the theorems are about that. The `Readings` and `Reports`
modules then say what those functions mean without them: in terms of the raw document, the
reports, the catalogue or the literal text. Fields an object updates in
place are fields of a class (`Handlers.Worker`, `ScreeningAdapter.Adapter`); the `calls`
field counts the calls to a store or the workflow engine that are still answered, so
every place where a handler can fail half-way is a run of the same method.

## What the proofs found

- The HTTP gate is silent about changes that do break a client: a `type` that is narrowed
  in a request, or widened in a response, where one side is a list of names or missing; a
  list of values gained, or left empty, in a request; a body schema that means nothing any
  more; and a `responses` table that disappears. `HttpBlindSpots` shows each on two
  documents between which the gate reports nothing (`NarrowedListGoesUnseen`,
  `GainedTypeGoesUnseen`, `RetypedListGoesUnseen`, `LostTypeGoesUnseen`,
  `GainedListGoesUnseen`, `EmptiedListGoesUnseen`, `DroppedBodyPasses`,
  `DroppedResponsesPass`), and `RequestsKeptExactlyWhenNothingGained` and
  `ServedExactlyWhenTypesKept` say exactly when silence is enough. The repository's own
  document uses lists of types, one of them in a request body
  (`packages/contracts/api/openapi.yaml:5549`).
- It also reports a type changed from integer to number, which refuses nothing
  (`IntegerToNumberIsReported`); `TypeBreakHasWitnessExactlyWhen` says which of these
  reports are real.
- Silence does not chain by itself: dropping a type in one release and adding another in
  the next passes twice (`DroppedTypeBreaksTheChain`). The event gate has the same gap
  when a schema version is reused (`ReusedVersionBreaksTheChain`). For both gates the
  exact condition is proved.
- The event gate takes a field without a list of values as one with an empty list, so a
  field that comes to permit only some values passes (`GainedListPasses`).
- `comment` compares a length that counts a space before the first word too, so its first
  line is blank when the first word has 68 bytes or more; it is otherwise the same folding.
- Two entries for one capability name leave the last in force, and a model whose entries
  disagree can be accepted (`DisagreeingEntriesAreAccepted`). Isolation reaches every entry
  exactly when the entries of a name agree.
- The vulnerability gate decides an advisory by the first of its called reports, so a
  stream's order can decide the build: with one advisory called in the standard library and
  in a dependency, one order passes and the other fails (`OrderDecidesTheBuild`).
  `ClassesIgnoreOrderExactlyWhen`, `VerdictIgnoresOrderExactlyWhen` and
  `FixIgnoresOrderExactlyWhen` say exactly when the classes, the verdict and the reported
  fix do not depend on it. Several calls in one module never change the classes.
- "The same pins in any order are the same bundle" holds exactly when no two different pins
  share a kind and a reference (`OneBundleExactlyWhenNoneTie`).
- Grace timer identities collide for a negative attempt, and only then.
- Opening a campaign does not check that an artifact is of the kind it is pinned as, the
  composer sends the artifact's own kind, and the bundle sorts its pins by kind and
  reference. So the rubric of the least reference judges, whatever it was pinned as. The
  registry's schema lists no kind called calibration, which every campaign must pin; the
  campaign's own rubric judges exactly unless the calibration is a rubric that sorts before
  it (`TheCalibrationMisjudgesExactlyWhen`).
- A frozen digest is answered by any visible version that bears it, a draft included. A
  draft made after the opening can change what a campaign's sessions are judged by
  (`ALaterDraftMisjudges`). `ScreeningKeepsWhatTheCampaignFroze` says exactly when they are
  judged by what the campaign froze, at any one moment, and `OpeningDecidesWhatJudges` which
  later steps leave that standing.
- Rolling a reference back from a version and forward to it again leaves that version
  current but deprecated. Compositions go on using it, and no campaign can open with it
  (`RollingForwardAgainOpensNothing`; `RolledBackMayBePinnedExactlyWhen` is the exact
  condition).
- A screening session asks for a plan named "campaign/" and the campaign's identity. Its
  composition is refused unless a plan of that very reference may answer for one of the
  campaign's pins (`ScreeningComposesExactlyWhen`).
- The interviewer's brief is read under no tenant, which every mode but practice refuses.
  A screening session asked for in its own mode is never briefed
  (`AScreeningRoomIsNeverBriefed`).
- A screening start claims its re-invitation before it checks the disclosure, so a
  malformed digest uses the authorization up (`ClaimIsSpentInVainExactlyWhen`).

## Main results

- HTTP gate: `SilentExactlyWhenItHolds`, `RequestsKeptExactlyWhenNothingGained`,
  `ServedExactlyWhenTypesKept`, `RequestBreakHasWitness`, `SilenceChainsExactlyWhen`,
  `ReflexiveExactlyWhenDeclared`, `ReportIsDeterministic`, `ResolvesAlongNames`,
  `DroppedGuaranteeIsReported`.
- Event gate: `EveryEventSurvivesOrIsSucceeded`, `PayloadsOnlyGrow`,
  `PayloadComparisonChainsExactlyWhen`, `SucceedsExactlyWhen`, `ReplacedExactlyWhenLater`.
- Text and roles: `GreedyIsOptimal`, `SharedExactlyWhenSegmentsEqual`,
  `RoleModel.CheckRoles`, `RoleReadings.AcceptableExactlyWhen`, `TheFirstFaultIsBlamed`.
- Vulnerability gate: `GateIgnoresOrder`, `ClassesIgnoreOrderExactlyWhen`,
  `VerdictIgnoresOrderExactlyWhen`, `FixIgnoresOrderExactlyWhen`, `BlocksExactlyWhen`,
  `ReportedFixReachesEach`, `LowerExactlyWhen`.
- Worker: `AcknowledgedCompletionStartsEachOnce`, `FirstOutcomeStands`,
  `AcknowledgedReportLeavesItDecided`, `AcknowledgedResultIsProjectedOnce`,
  `FailureCodeWasReported`, `VersionsCountMoves`, `RetryConverges`, `ADeliveryAloneSettles`.
- Pinning: `OneBundleExactlyWhenNoneTie`, `SessionKeepsItsPins`,
  `PracticeIsJudgedExactlyWhen`, `ScreeningKeepsWhatTheCampaignFroze`,
  `OpeningDecidesWhatJudges`, `BriefKeepsThePlanExactlyWhen`, `RefusesInOrder`.
- Screening starts: `AllButOneAreAuthorized`, `SessionsAreBounded`,
  `EverySessionWasConsentedTo`, `EverySessionWasAskedFor`, `StartComesTo`,
  `AStartAloneComesToItsOutcome`.

## What is assumed

The workflow engine refuses a second start under an identity it has seen. A session
transition applies only from the state and version that were read. An evaluation result
is stored once and never changes. A digest is of one body, and a
body sent with it matches it. A bundle is written once. An identity drawn for a session is new.
Database transactions and the reads one query makes are single steps.

## Model

| member | source | states |
|---|---|---|
| Documents.Resolve | tools/apicompat/document.go:51-79 | the counted loop computes the bounded chase, for malformed documents and absent schemas too |
| HttpReadings.ResolvesAlongNames | tools/apicompat/document.go:51-79 | in the raw document: a schema resolves to another exactly when at most seven references, each "#/components/schemas/" and the name of a schema declared there, lead to it and it is no reference |
| HttpReadings.ReferenceResolves | tools/apicompat/document.go:60-77 | so a reference to a declared component resolves to that component |
| Documents.ResolveIsChaseWithinSevenHops | tools/apicompat/document.go:51-79 | resolving gives a schema exactly when unbounded reference chasing reaches it in at most seven hops |
| Documents.LongChainsAreGivenUp | tools/apicompat/document.go:46-52 | a chain that would end after more than seven hops resolves to nothing |
| Documents.ResolveIsIdempotent | tools/apicompat/document.go:51-79 | the result is never a reference, and resolving it again changes nothing |
| Documents.ResolveFailsOnlyOnBadChains | tools/apicompat/document.go:44-79 | with at most seven component schemas, nothing is found exactly for a cyclic, dangling, remote or missing reference |
| Documents.ReadPaths | tools/apicompat/document.go:30-42 | whatever order the map is walked in, the paths read are those whose item is a table |
| Documents.ReadProperties | tools/apicompat/document.go:105-121 | whatever order the map is walked in, a property is found exactly when it is a table that resolves |
| Documents.ReadRequiredNames | tools/apicompat/document.go:123-135 | the set of the texts in the required list, other values ignored |
| Documents.ReadRemovedValues | tools/apicompat/document.go:137-165 | the printed values of the old enum that the new one lacks, with repetitions, sorted; none where the new enum is empty or absent |
| HttpGate.CompareRequest | tools/apicompat/compatibility.go:84-128 | the breaks collected are, as a multiset and for every map order, those the request rules name |
| HttpGate.CompareResponses | tools/apicompat/compatibility.go:131-203 | the same for the success responses: removed statuses, lost guarantees, changed types |
| HttpGate.Compare | tools/apicompat/compatibility.go:38-80 | the report is a sorted arrangement of exactly the breaks of the pair of documents |
| HttpReports.ReportedExactlyWhenTold | tools/apicompat/compatibility.go:38-203 | a break is listed exactly when the two documents tell it: by path, verb, status, property, value and type, under the operation named in capitals |
| HttpReports.DroppedGuaranteeIsReported | tools/apicompat/compatibility.go:167-186 | a property that was required of an answer behind a component reference, and is gone from the component now, is reported, whatever else changed |
| HttpGate.ReasonFixesRemedy | tools/apicompat/compatibility.go:44-198 | two breaks printed with the same reason have the same remedy, through the quoting of names and values |
| HttpGate.ReportIsDeterministic | tools/apicompat/compatibility.go:73-79 | any two sorted arrangements of the breaks print the same report, so map order never shows |
| Quoting.QuoteSelfDelimiting | tools/apicompat/compatibility.go:98 | a quoted name can be read off the front of a message in one way only |
| Quoting.PlainTextIsQuotedAsItIs | tools/apicompat/compatibility.go:98 | text that prints as it is stands between the quotes unchanged |
| Quoting.NumbersAreWritten | tools/apicompat/compatibility.go:98 | what does not print is written by its number, in two, four or eight hexadecimal digits that read back as it |
| Reports.PrintsOneWay | tools/apicompat/compatibility.go:73-78 | sorting by place and reason prints one sequence when those two fix the remedy |
| Reports.SortedExactlyWhen | tools/apicompat/compatibility.go:73-78 | sorted means by place, and among breaks of one place by reason |
| HttpVerdict.SilentExactlyWhenItHolds | tools/apicompat/compatibility.go:38-203 | the gate reports nothing exactly when a declarative compatibility relation holds between the documents |
| HttpVerdict.ReflexiveExactlyWhenDeclared | tools/apicompat/compatibility.go:162-178 | a document passes against itself exactly when every name a resolving success body requires is a declared property that resolves |
| HttpChains.SilenceChainsExactlyWhen | tools/apicompat/compatibility.go:84-203 | after two silent comparisons the one across both is silent exactly when the ends agree on whatever the middle document does not state: a property's type, its values or its whole declaration, a body schema, an operation's responses |
| HttpChains.SilenceChains | tools/apicompat/compatibility.go:84-203 | so passing twice means passing end to end, if the middle document drops no body schema, property, type or enum that both ends declare |
| HttpChains.DroppedTypeBreaksTheChain | tools/apicompat/document.go:167-173 | three documents, for any two different types, where both steps pass and the comparison across both does not |
| HttpMeaning.SmallDocumentsAreWithinReach | tools/apicompat/document.go:44-79 | with at most seven component schemas, every reference that means anything is one the gate resolves |
| HttpRequests.SilenceKeepsRequests | tools/apicompat/compatibility.go:84-128 | soundness, whatever values the type names cover: after a silent comparison the new operation accepts every body of declared properties that the old one accepted, if no property had its types narrowed where the gate does not compare them, gained a list of values or was left an empty one |
| HttpRequests.RequestsKeptExactlyWhenNothingGained | tools/apicompat/compatibility.go:84-128 | and that is exact for the whole operation: after a silent comparison all such bodies stay accepted if and only if the new body schema still means something, so do the properties both declare, and none of them gained anything |
| HttpRequests.RequestBreakHasWitness | tools/apicompat/compatibility.go:93-126 | no false alarms: each request break comes with a body the old schema accepts and the new one refuses, showing the very value or type named; a changed type does so if the old property admits a value outside the new type |
| HttpRequests.TypeBreakHasWitnessExactlyWhen | tools/apicompat/compatibility.go:119-125 | and only then: a reported change of type refuses a body on that account if and only if the old property admits a value outside the new type |
| HttpResponses.SilenceKeepsResponses | tools/apicompat/compatibility.go:162-200 | a conforming new body still carries every property that was guaranteed, of one of its old types, if no property widened its types where the gate does not compare them |
| HttpResponses.SilentGateKeepsResponses | tools/apicompat/compatibility.go:131-203 | the same from the gate's silence, whatever values the type names cover: the success status is kept where the responses are, and under it the guarantees |
| HttpResponses.ResponsesKeptExactlyWhenTypesKept | tools/apicompat/compatibility.go:188-200 | with two schemas compared silently, what clients relied on is delivered if and only if no shared property widened |
| HttpResponses.ServedExactlyWhenTypesKept | tools/apicompat/compatibility.go:131-203 | for the whole operation: after a silent comparison an old client is served under a success status if and only if the responses and a meaningful body schema for it are still there and no shared property widened |
| HttpBlindSpots.NarrowedListGoesUnseen | tools/apicompat/document.go:167-173 | two documents the gate passes, the second refusing one of two types the first listed |
| HttpBlindSpots.GainedTypeGoesUnseen | tools/apicompat/document.go:167-173 | the same where the first names no type |
| HttpBlindSpots.GainedListGoesUnseen | tools/apicompat/document.go:137-146 | two documents the gate passes, the second taking only listed values of a property that took any |
| HttpBlindSpots.EmptiedListGoesUnseen | tools/apicompat/document.go:152-155 | two documents the gate passes, the second listing no value at all, so that nothing satisfies it |
| HttpBlindSpots.RetypedListGoesUnseen | tools/apicompat/document.go:167-173 | two documents the gate passes, the second answering with another type than the one the first listed |
| HttpBlindSpots.LostTypeGoesUnseen | tools/apicompat/document.go:167-173 | the same where the second names no type |
| HttpBlindSpots.IntegerToNumberIsReported | tools/apicompat/compatibility.go:119-125 | where every integer is a number, a change from the one to the other is reported and every old body is still accepted |
| HttpBlindSpots.LostBodySchemaGoesUnseen | tools/apicompat/compatibility.go:85-89 | a request whose body schema means nothing any more is not reported and accepts no body |
| HttpBlindSpots.DroppedBodyPasses | tools/apicompat/compatibility.go:85-89 | two documents that show it |
| HttpBlindSpots.LostResponsesGoUnseen | tools/apicompat/compatibility.go:132-139 | an operation that drops its responses is not reported on any status |
| HttpBlindSpots.DroppedResponsesPass | tools/apicompat/compatibility.go:132-139 | two documents that show it, the second serving nobody |
| EventGate.SplitIsTheMatch | tools/eventgen/compatibility.go:28 | the version pattern matches an event type in one way only, and splitting finds it |
| EventGate.HasSuccessor | tools/eventgen/compatibility.go:78-99 | finds a later version of the same base exactly when there is one, whatever the map order; EventVersions says which is later |
| EventVersions.VersionExactlyWhen | tools/eventgen/compatibility.go:28 | an event type has the version its trailing digits amount to, place by place, if it is a base without line breaks, ".v" and digits, and an int holds them |
| EventVersions.VersionsReadBack | tools/eventgen/compatibility.go:84-88 | a number printed behind ".v" reads back as that number, with a zero in front of it too |
| EventVersions.SucceedsExactlyWhen | tools/eventgen/compatibility.go:84-95 | one event type takes over from another exactly when both are versions of one base and its number is the larger |
| EventVersions.ReplacedExactlyWhenLater | tools/eventgen/compatibility.go:43-62 | with one other version of a base left, a retired one is replaced if and only if that one is later, and its removal is reported if and only if it is earlier |
| Numerals.ReadsItsPlaceValue | tools/eventgen/compatibility.go:85 | digits read from the left give each its worth times its power of ten |
| Numerals.NumbersReadBack | tools/eventgen/compatibility.go:85 | every number reads back from the digits it is printed with, which start with a zero only for zero |
| EventGate.ComparePayloads | tools/eventgen/compatibility.go:103-155 | the breaks collected are those of the payload rules, whatever the map order |
| EventGate.AddedFields | tools/eventgen/compatibility.go:158-167 | the new names in their one sorted order, none exactly when nothing was added |
| EventGate.Compare | tools/eventgen/compatibility.go:40-70 | a sorted arrangement of exactly the breaks of the two catalogues |
| EventReports.ReportedExactlyWhenTold | tools/eventgen/compatibility.go:40-155 | a break is listed exactly when the two catalogues tell it: an event gone without a successor, a field lost or retyped, a value withdrawn, or the sorted names gained under a version that stayed |
| EventGate.ReasonFixesRemedy | tools/eventgen/compatibility.go:50-151 | event breaks that print the same reason have the same remedy |
| EventGate.ReportIsDeterministic | tools/eventgen/compatibility.go:63-69 | the report is one fixed sequence for every map order |
| EventHistory.SilentExactlyWhenItHolds | tools/eventgen/compatibility.go:40-155 | silence means every event is kept or succeeded, no field is lost or retyped, no listed value is withdrawn, and additions are announced; and conversely |
| EventHistory.SelfComparisonIsSilent | tools/eventgen/compatibility.go:103-155 | a catalogue always passes against itself |
| EventHistory.EveryEventSurvivesOrIsSucceeded | tools/eventgen/compatibility.go:43-99 | along any chain of passing releases each first event is in the last release, or a strictly later version of its base is |
| EventHistory.PayloadsOnlyGrow | tools/eventgen/compatibility.go:109-140 | for an event present throughout, no field is lost or retyped and no listed value is withdrawn, end to end; a list gained where there was none counts as growth |
| EventHistory.GainedListPasses | tools/eventgen/compatibility.go:131-139 | as it does for the gate: a field that permitted anything comes to permit one value, silently |
| EventHistory.PayloadComparisonChainsExactlyWhen | tools/eventgen/compatibility.go:103-155 | its first and last payloads compare silently if and only if equal schema versions go with equal field names |
| EventHistory.PayloadComparisonChains | tools/eventgen/compatibility.go:142-152 | which holds when no schema version is returned to after being left |
| EventHistory.ReusedVersionBreaksTheChain | tools/eventgen/compatibility.go:145-152 | without that condition it fails |
| Wrapping.WrapComment | tools/eventgen/generate.go:162-183 | the loop folds the text's words greedily at 72 bytes |
| Wrapping.GreedyIsLegalAndFull | tools/eventgen/generate.go:166-181 | the lines hold exactly the words in order, each within the width or a single word, and no line could take the next word |
| Wrapping.GreedyIsOptimal | tools/eventgen/generate.go:166-181 | no legal breaking of the words uses fewer lines |
| Wrapping.FullBreakingIsGreedy | tools/eventgen/generate.go:166-181 | and it is the only legal breaking that fills each line |
| Wrapping.FoldedLinesReadBack | tools/eventgen/generate.go:162-183 | splitting the written lines gives the text's words again |
| Wrapping.Comment | tools/authzgen/main.go:205-227 | the other wrapper: the same folding at 68 bytes, indented, but for one blank line exactly when the first word has 68 bytes or more |
| Wrapping.CommentLines | tools/authzgen/main.go:206-222 | its loop, which tests the width before it tests for an empty line |
| Wrapping.CommentedFoldsFromNothing | tools/authzgen/main.go:206-219 | that blank line is what folding gives when it starts from an empty line in place of the first word |
| Wrapping.CommentIsLegalAndFull | tools/authzgen/main.go:205-222 | a comment keeps its words in order, within 68 bytes but for a single word, fills each line before the next, and is blank first exactly where its first word takes 68 bytes |
| Wrapping.CharactersAreRead | tools/eventgen/generate.go:163-172 | what separates words, and how many bytes of UTF-8 a character takes |
| Wrapping.JoinSnoc | tools/eventgen/generate.go:182 | the written lines follow each other with the separator between them |
| Identifiers.GoIdentifier | tools/eventgen/generate.go:14-23 | the builder writes the segments with their first letters raised |
| Identifiers.SeparatorsCut | tools/eventgen/generate.go:16-18 | a dot or an underscore cuts a name into what is before it and what is after |
| Identifiers.UncutNameIsOneSegment | tools/eventgen/generate.go:16-18 | and a name without them is one segment |
| Identifiers.FirstBytesAreRaised | tools/eventgen/generate.go:19-20 | a segment is written with a small first letter as its capital and everything after as it is; a first byte that is no character of its own becomes the replacement character |
| Identifiers.SegmentsAreRecovered | tools/authzgen/main.go:195-202 | segments that start with a small letter and hold no capital are read back from the identifier |
| Identifiers.SharedExactlyWhenSegmentsEqual | tools/eventgen/generate.go:14-23 | so two such names share an identifier exactly when their segments are equal |
| Identifiers.CapitalsCollide | tools/eventgen/generate.go:16-21 | with a capital inside a segment, different names can share one |
| RoleModel.CheckRoles | tools/authzgen/main.go:119-189 | accepts exactly the models that meet the stated rules, and otherwise blames a rule the model breaks, the first in order where there is one |
| RoleReadings.AcceptableExactlyWhen | tools/authzgen/main.go:119-189 | accepted in the terms of the document: every role with a reason and a grant, every grant of a declared name that is not the platform's and is the owner's exactly where the role is no membership, every declared name granted or left unbundled but not both |
| RoleReadings.RefusalsAreTrue | tools/authzgen/main.go:129-186 | each refusal is true of the document: the role and the grant it names are there and break the rule it names |
| RoleReadings.TheFirstFaultIsBlamed | tools/authzgen/main.go:129-186 | and it is the first fault: roles before names, in the document's order, and in a role its first grant out of reach |
| RoleModel.AcceptedModelIsolates | tools/authzgen/main.go:137-186 | in an accepted model bundled and unbundled partition the catalogue; no union of membership roles reaches an owner or platform capability; other roles grant owner capabilities only |
| RoleModel.IsolationReachesEveryEntryExactlyWhenEntriesAgree | tools/authzgen/main.go:120-123 | where a name is listed twice, isolation holds of every entry exactly when the entries agree |
| RoleModel.DisagreeingEntriesAreAccepted | tools/authzgen/main.go:120-123 | an accepted model whose entries do not |
| VulnGate.Collect | tools/vulncheck/main.go:116-141 | reading fails exactly on an undecodable message, and otherwise keeps each advisory once, with its first called report if it has one |
| VulnGate.Classify | tools/vulncheck/main.go:147-164 | the second pass decides what the set of reports says |
| VulnGate.Gate | tools/vulncheck/main.go:96-165 | fails to read exactly on an undecodable message, refuses exactly a stream without a config message, and otherwise gives the set-level decision |
| VulnReadings.BlocksExactlyWhen | tools/vulncheck/main.go:55-67 | a report blocks exactly when it is the first of its advisory whose first frame names a function, and that frame is not in stdlib |
| VulnReadings.BlockingIsListedOnce | tools/vulncheck/main.go:163 | the blocking reports are listed by advisory, each once |
| VulnReadings.CountsReadAs | tools/vulncheck/main.go:147-161 | the two counts, over the frames of the reports: advisories first called in stdlib, and advisories no report traced a call to |
| VulnReadings.ReportedFixReachesEach | tools/vulncheck/main.go:153-157 | the reported fix is asked for by a call into stdlib and has, compared field by field, no smaller major, minor or patch than any other one asked for |
| VulnReadings.LaterPatchIsReported | tools/vulncheck/main_test.go:72-89 | of calls fixed in v1.26.1 and v1.26.6 nothing blocks, two are counted and v1.26.6 is reported |
| VulnGate.ClassesPartitionAdvisories | tools/vulncheck/main.go:147-161 | the three classes add up to the distinct advisories |
| VulnGate.ExtendingNeverUnblocks | tools/vulncheck/main.go:136-140 | reading more of a stream never removes a blocking finding |
| VulnGate.FixClearsTheToolchain | tools/vulncheck/main.go:153-157 | the reported fix is not lower, under section 11 of Semantic Versioning 2.0.0, than the fix of any toolchain finding |
| VulnOrder.OrderDoesNotMatter | tools/vulncheck/main.go:101-141 | two streams with the same reports decide the same advisories, lines and fix, if each advisory's called reports agree on the module and the fix, whatever calls they trace |
| VulnOrder.GateIgnoresOrder | tools/vulncheck/main.go:96-165 | so the gate answers the same for every permutation of such a stream, up to which call is shown and which of two equal versions |
| VulnOrder.ClassesIgnoreOrderExactlyWhen | tools/vulncheck/main.go:136-161 | every order of some reports puts the advisories in the same classes if and only if each advisory's called reports agree on whether the module is the standard library |
| VulnOrder.VerdictIgnoresOrderExactlyWhen | tools/vulncheck/main.go:194-206 | every order passes or fails the build alike if and only if no dependency is called, or some advisory is called in dependencies only |
| VulnOrder.FixIgnoresOrderExactlyWhen | tools/vulncheck/main.go:153-157 | with the classes agreed, every order reports a fix of the same precedence if and only if all calls of one toolchain advisory ask for the highest, or there is none |
| VulnOrder.OrderDecidesTheBuild | tools/vulncheck/main.go:136-140 | one advisory called in the standard library and in a dependency: one order blocks nothing, the other blocks it |
| Versions.PrecedenceOrder | tools/vulncheck/main.go:155 | version precedence is a strict total order on what it tells apart |
| Versions.LowerExactlyWhen | tools/vulncheck/main.go:155 | that order is section 11 of Semantic Versioning 2.0.0: major, minor and patch as numbers in turn, a pre-release below its release, pre-releases by their identifiers, and what is no version below all that are |
| Versions.FieldsLessExactlyWhen | tools/vulncheck/main.go:155 | pre-releases compare by the first identifier that differs, and one that runs out first is lower |
| Versions.IdentifierLessExactlyWhen | tools/vulncheck/main.go:155 | identifiers compare as numbers, or as text by the first character that differs, and a number is below every text |
| WorkflowIds.IdsCollideExactlyWhen | services/platform/cmd/worker/grace_route.go:50-51 | identities of different kinds never collide, and two timers share one exactly when a negative attempt is read as a session name ending in a dash |
| WorkflowIds.IdsAreWritten | services/platform/cmd/worker/evaluation_routes.go:31 | each identity as text, with the attempt as the digits that read back as it |
| DeliverySafety.StepKeepsInv | services/platform/platform/outbox/dispatcher.go:233-279 | every step of the protocol, including a cut anywhere, keeps the invariant on starts, moves, history and acknowledged events |
| DeliveryTheorems.EveryWorkflowStartsAtMostOnce | services/platform/cmd/worker/evaluation_routes.go:19-47 | in every run a session has at most one composition, evidence and articulation workflow, and a session and attempt at most one timer |
| DeliveryTheorems.AcknowledgedCompletionHasItsWorkflows | services/platform/cmd/worker/main.go:252-259 | an acknowledged completion has its evidence workflow, and articulation exactly when its purpose is practice |
| DeliveryTheorems.AcknowledgedCompletionStartsEachOnce | services/platform/cmd/worker/evaluation_routes.go:19-47 | whatever was redelivered, an acknowledged completion has started evidence exactly once, and articulation once for practice and never otherwise |
| DeliveryTheorems.ArticulationOnlyForPractice | services/platform/cmd/worker/articulation.go:106-116 | no articulation workflow exists without a practice completion, so screening never produces one |
| DeliveryTheorems.AcknowledgedInterruptionHasItsTimer | services/platform/cmd/worker/grace_route.go:36-68 | an acknowledged resumable interruption has the timer of its own session and attempt, when attempts count from zero |
| DeliveryTheorems.TimerOnlyForResumable | services/platform/cmd/worker/grace_route.go:46-48 | no timer exists without an interruption of that session and attempt that could be resumed |
| DeliveryTheorems.AcknowledgedCreationIsComposedOrDecided | services/platform/cmd/worker/composition_route.go:40-59 | an acknowledged creation has its composition, or the session had gone on past composing |
| DeliveryTheorems.NoMoreExitsThanEntries | services/platform/cmd/worker/evaluation_routes.go:52-106 | the evaluation handlers move a session only from evaluating and only to their own outcome, and sessions leave evaluating no more often than they enter |
| DeliveryTheorems.FirstOutcomeStands | services/platform/cmd/worker/evaluation_routes.go:66-104 | a session that entered evaluating once is decided once, whatever races and redeliveries follow |
| DeliveryTheorems.MovesOnlyAdded | services/platform/internal/interview/store.go:289-354 | a committed move is in every continuation of a run |
| DeliveryDecisions.AcknowledgedReportLeavesItDecided | services/platform/cmd/worker/evaluation_routes.go:62-104 | when a completed or failed report is acknowledged, its session was out of evaluating at some point since that delivery began, whoever won the race |
| DeliveryMoves.FailureCodeWasReported | services/platform/cmd/worker/evaluation_routes.go:52-77 | in every run a move recorded with a failure code is of a session whose failure was reported with that very code, from evaluating to failed |
| DeliveryMoves.OtherMovesWereAskedFor | services/platform/cmd/worker/evaluation_routes.go:82-106 | and a session is reviewed or composed by a handler only when its own completion or creation was published |
| DeliveryMoves.StartsWereAskedFor | services/platform/cmd/worker/main.go:364-408 | every workflow that runs was asked for by an event of its session, of the kind and with the purpose or attempt it needs |
| DeliveryMoves.VersionsCountMoves | services/platform/internal/interview/store.go:289-354 | in every run a session's version is one more than the number of its moves, and its state is where the last one led |
| DeliveryMoves.LifecycleReadsBackwards | services/platform/internal/interview/machine.go:54-67 | the diagram agrees with a table of where each state can have come from |
| DeliveryTheorems.AcknowledgedResultIsProjectedOnce | services/platform/cmd/worker/evaluation_routes.go:112-151 | an acknowledged evaluation has exactly one history row for each competency its result reads, saying what the result says |
| Handlers.RetryConverges | services/platform/cmd/worker/main.go:179-187 | a delivery cut off after any step and retried ends in the same sessions, moves, workflows and history as an undisturbed one, with the same answer |
| Handlers.StepsSettle | services/platform/cmd/worker/main.go:364-408 | the protocol's steps add up to the big-step account of each event, within six steps |
| DeliveryRuns.ADeliveryAloneSettles | services/platform/platform/outbox/dispatcher.go:233-279 | from any state of the system an event that waits is settled by one delivery left alone: the stores become what handling it comes to, and it is marked delivered exactly if the handler may acknowledge it |
| Handlers.CreationSettles | services/platform/cmd/worker/composition_route.go:28-81 | what a creation comes to: a draft session composing at its next version, with that one move and its composition started |
| Handlers.CompletionSettles | services/platform/cmd/worker/main.go:252-259 | a completion: evidence started, articulation for practice and only then |
| Handlers.InterruptionSettles | services/platform/cmd/worker/grace_route.go:36-68 | an interruption: the timer of its session and attempt if it is resumable, and nothing otherwise |
| Handlers.ReportSettles | services/platform/cmd/worker/evaluation_routes.go:52-106 | a reported outcome: the evaluating session moved to its state at its next version, with the code reported; any other left alone |
| Handlers.RedeliveryChangesNothing | services/platform/cmd/worker/evaluation_routes.go:108-111 | handling an event again changes nothing and answers the same |
| Handlers.Worker.Get | services/platform/cmd/worker/composition_route.go:44-47 | the session as it stands, with its version, or that there is none |
| Handlers.Worker.ResultOf | services/platform/cmd/worker/evaluation_routes.go:121-127 | the stored result of a session, or that there is none |
| Handlers.Worker.TransitionTo | services/platform/internal/interview/store.go:289-354 | refuses an edge outside the lifecycle, a missing session and a stale version, in that order, and otherwise adds that move and raises the version by one |
| Handlers.Worker.ExecuteWorkflow | services/platform/cmd/worker/evaluation_routes.go:30-45 | a start under an identity already taken succeeds and starts nothing |
| Handlers.Worker.InsertObservations | services/platform/internal/progression/observations.go:86-123 | inserts one row for each competency that has none, all or nothing |
| Handlers.Worker.StartComposition | services/platform/cmd/worker/composition_route.go:28-81 | takes the protocol's steps for a creation, cut off wherever a call is not answered |
| Handlers.Worker.StartEvidence | services/platform/cmd/worker/evaluation_routes.go:21-47 | starts the evidence workflow or, unanswered, leaves everything as it was |
| Handlers.Worker.StartArticulation | services/platform/cmd/worker/articulation.go:97-132 | starts articulation for practice and succeeds without doing anything otherwise |
| Handlers.Worker.StartEvaluations | services/platform/cmd/worker/main.go:252-259 | evidence before articulation, as the protocol's steps for a completion |
| Handlers.Worker.StartGraceTimer | services/platform/cmd/worker/grace_route.go:36-68 | the protocol's steps for an interruption: nothing unless it is resumable |
| Handlers.Worker.RecordEvaluationFailure | services/platform/cmd/worker/evaluation_routes.go:52-77 | adds the one move from evaluating to failed with the code reported, at the session's next version; leaves a session decided already as it was; and takes the protocol's steps wherever it is cut off |
| Handlers.Worker.RecordEvaluationCompleted | services/platform/cmd/worker/evaluation_routes.go:82-106 | moves an evaluating session to review and leaves any other where it is |
| Handlers.Worker.AppendObservations | services/platform/cmd/worker/evaluation_routes.go:112-151 | projects the stored result, or fails without writing |
| Handlers.Worker.CompleteEvaluation | services/platform/cmd/worker/main.go:177-187 | the transition, then the projection, as the protocol's steps for a completed evaluation |
| Handlers.Worker.Handle | services/platform/cmd/worker/main.go:364-408 | every routed event takes its protocol steps, and with its calls answered settles as the big-step account says |
| ArtifactRegistry.GetByDigest | services/platform/internal/content/store.go:190-216 | finds some visible version bearing the digest exactly when there is one |
| ArtifactRegistry.ResolvesExactlyWhenReleased | services/platform/internal/content/store.go:310-330 | a reference resolves exactly when a version of it was released to the tenant or by the platform, to one of the tenant's own if there is any |
| ArtifactRegistry.PublishedIsCurrent | services/platform/internal/content/store.go:258-304 | a published version is what its reference resolves to from then on, and no other row or reference of another catalogue changes |
| ArtifactRegistry.RolledBackToIsCurrent | services/platform/internal/content/store.go:336-384 | a version rolled back to is current again, and only the published one it takes over from changes, to deprecated |
| ArtifactRegistry.OperationKeepsVersionsApart | services/platform/platform/database/sql/0013_content_artifacts.sql:56 | no two versions ever share a catalogue, a reference and a number |
| ArtifactRegistry.StatusesReadBackwards | services/platform/internal/content/machine.go:38-44 | the lifecycle agrees with a table of where each status can have come from |
| ArtifactRegistry.OperationKeepsSound | services/platform/internal/content/store.go:252-396 | drafting, publishing, rolling back and retiring keep released content, keep pointers on released versions of their own catalogue, and keep one body to a digest |
| ArtifactRegistry.RollbackStaysInItsCatalogue | services/platform/internal/content/store.go:336-384 | a rollback touches no version of another tenant or of the platform, although it looks the current one up with the platform as fallback |
| Pinning.ResolveOpening | services/platform/internal/recruiting/campaign.go:168-209 | the loops give the first failure in the documented order, or the frozen pins |
| Pinning.OpensExactlyWhen | services/platform/cmd/api/recruiting_adapter.go:108-160 | a campaign opens exactly when it is a draft, determined, asks for no kind twice and names a published artifact for each required kind; it freezes what those references point at |
| Pinning.RefusesInOrder | services/platform/internal/recruiting/campaign.go:168-209 | which reason is given: not a draft, no determination, a kind asked for twice, then the first of rubric, calibration, persona and plan that is not asked for, then the first that is not published |
| Pinning.RolledBackMayBePinnedExactlyWhen | services/platform/cmd/api/recruiting_adapter.go:146-153 | a reference that was rolled back may be pinned if and only if the version it was rolled back to was not deprecated |
| Pinning.RollingForwardAgainOpensNothing | services/platform/cmd/api/recruiting_adapter.go:146-153 | after rolling back from a version and forward to it again it is current, and no campaign that asks for it opens |
| Composer.ResolvePins | services/platform/cmd/worker/composer.go:75-153 | practice reads what is current and screening what was frozen; each refusal is given in its own case and order |
| Composer.PracticeSendsExactlyWhen | services/platform/cmd/worker/composer.go:75-153 | the plan, the practice rubric and the model policy, each version in all its parts, or the first of them that does not resolve |
| Composer.ScreeningSends | services/platform/cmd/worker/composer.go:170-232 | versions of what was frozen as calibration, persona, plan and rubric, in this order, and then the current policy, each in all its parts |
| Composer.ScreeningSendsExactlyWhen | services/platform/cmd/worker/composer.go:170-232 | a screening composition is sent exactly when something was frozen, a version the tenant sees bears each digest and there is a policy; otherwise the reason is the first of these that fails, with the first digest that nothing bears |
| Composer.AnotherTenantPinsNothing | services/platform/internal/recruiting/invitation_store.go:322-354 | nothing is pinned under another tenant, nor for an unknown campaign |
| Composer.ScreeningPins | services/platform/cmd/worker/composer.go:170-232 | each frozen digest in order, then the current policy; or the first digest that resolves to nothing |
| Composer.CampaignPins | services/platform/internal/recruiting/invitation_store.go:322-354 | a campaign's pins in the one order of their kinds, and none under another tenant |
| PinTheorems.NoFrozenPinIsEverGone | services/platform/cmd/worker/composer.go:188-199 | in no run is a composition refused for a frozen pin that cannot be resolved |
| PinStability.PinnedArtifact | services/platform/cmd/worker/rubric_source.go:49-84 | the first pinned input of the kind with the body its digest names, read under the session's mode, candidate and tenant |
| PinStability.FetchesExactlyWhen | services/platform/internal/interview/store.go:398-415 | a session is read by its own candidate in the practice mode and under its own tenant in any other, and by nobody else |
| PinStability.Brief | services/platform/cmd/api/interview_adapter.go:953-1010 | read under the mode asked with and no tenant: the last pinned plan's body, a failure at the first plan whose digest names nothing, or the refusal of the scope |
| PinStability.PlanReadsAs | services/platform/cmd/api/interview_adapter.go:986-1008 | of the pinned plans: the first whose digest no version the tenant sees bears, nothing where none is pinned, and otherwise the body of a version bearing the last one's digest |
| SessionBundles.OneBundleExactlyWhenNoneTie | services/intelligence/src/prepeet_ai/composition/composer.py:143-157 | the same inputs in any order are the same bundle if and only if no two different ones share a kind and a reference |
| SessionBundles.BundledExactlyWhen | services/intelligence/src/prepeet_ai/composition/composer.py:86-132 | which pins are taken, and which reason is given otherwise, in their order |
| SessionBundles.KeptIsSentInOrder | services/intelligence/src/prepeet_ai/composition/composer.py:143-157 | a bundle keeps each pin sent, in all its parts but the body, by kind and then by reference |
| SessionBundles.ReadExactlyWhenItLeads | services/platform/cmd/worker/rubric_source.go:67-79 | the first-match reader finds a pin if and only if it has the least reference of its kind, the earlier sent of two alike; the last-match reader the greatest |
| PinTheorems.SessionKeepsItsPins | services/platform/cmd/worker/rubric_source.go:49-84 | the pin that leads its kind when a session is composed is what is read back after any further steps, with its own reference, version, digest and body |
| PinTheorems.WhatIsReadWasAVersion | services/platform/cmd/worker/rubric_source.go:49-84 | whatever a session reads for a kind is a version of that kind the tenant saw at composition, each part in its place; and it reads one exactly when one was sent |
| PinTheorems.SessionsAreShaped | services/platform/platform/database/sql/0012_interview_sessions.sql:14-22 | in every run a practice session has no tenant, a screening session has one, each has a candidate, and there is no third mode |
| PinTheorems.BriefKeepsThePlanExactlyWhen | services/platform/internal/interview/store.go:139-144 | the brief gives the last plan of the session's bundle, after any further steps, if and only if it is asked for in the practice mode |
| PinTheorems.AScreeningRoomIsNeverBriefed | services/platform/cmd/api/interview_adapter.go:954-960 | a screening session asked for in its own mode is refused for want of a tenant, in every run |
| PinTheorems.OnlyItsOwnCandidateIsBriefed | services/platform/platform/database/sql/0058_session_campaign.sql:48-52 | nobody is briefed on another candidate's session |
| PinTheorems.PracticeKeepsWhatWasCurrent | services/platform/cmd/worker/composer.go:85-152 | a practice session goes on being judged by the rubric and the policy current at its composition, read under their own references and versions, and briefed on the plan |
| PinTheorems.PracticeIsJudgedExactlyWhen | services/platform/cmd/worker/composer.go:97-152 | it reads the current rubric, with its reference, version, digest and body, if and only if that is a rubric and the current policy is not one; the policy if and only if it is of its kind; and the digest and body alone under the exact conditions for those |
| PinTheorems.PracticeComposesExactlyWhen | services/platform/cmd/worker/composer.go:75-153 | a practice session can be composed at all if and only if its identity is new, a candidate asks for it, its blueprint resolves to a plan, and the practice rubric and model policy resolve |
| ScreeningPins.WhatSortsFirstPrevails | services/intelligence/src/prepeet_ai/composition/composer.py:145-157 | it is enough that every version bearing a frozen digest is of the kind under one reference, and that no version bearing another, nor the policy, is of it with a reference that does not sort after |
| ScreeningPins.JudgedExactlyWhenItPrevails | services/platform/cmd/worker/composer.go:170-232 | whichever version answers for each digest and whatever happens later, a campaign's sessions read, for a kind, a version of it with a given digest and body, under that version's own reference and number, if and only if the digest prevails: beside any plan that makes a bundle, what else may answer as of the kind sorts after it |
| ScreeningPins.ScreeningKeepsWhatTheCampaignFroze | services/platform/cmd/worker/composer.go:155-169 | from opening to reading, for each required kind: judged by what the reference pointed at when the campaign opened, if and only if that prevails at composition |
| ScreeningPins.ScreeningKeepsThePolicy | services/platform/cmd/worker/composer.go:167-169 | the same for the model policy current at composition |
| ScreeningPins.ScreeningComposesExactlyWhen | services/intelligence/src/prepeet_ai/composition/composer.py:124-132 | a campaign's session can be composed at all if and only if a plan referred to as "campaign/" and its identity may answer for one of its pins, and there is a policy |
| ScreeningStability.StepKeepsPrevailing | services/platform/internal/content/db/queries.sql:30-39 | what prevails goes on prevailing through every step but a new version that may answer for a frozen digest as something new, and a move of the policy into or out of the kind |
| ScreeningStability.OpeningDecidesWhatJudges | services/platform/cmd/worker/composer.go:155-165 | so what prevails when a campaign opens judges every later session, composed and read at any time, if no such step comes between |
| ScreeningExamples.AnyCalibrationOpens | services/platform/internal/recruiting/campaign.go:192-206 | a campaign opens with any published artifact as its calibration |
| ScreeningExamples.TheCalibrationMisjudgesExactlyWhen | services/platform/cmd/worker/composer.go:202-209 | its rubric judges its sessions if and only if the calibration is not a rubric that sorts before it, and otherwise that one does |
| ScreeningExamples.ALaterDraftMisjudges | services/platform/internal/content/db/queries.sql:30-39 | a campaign in order, a draft with a frozen digest and another kind, and a session then judged by something else |
| ScreeningTheorems.StepKeepsInv | services/platform/cmd/api/screening_adapter.go:143-230 | every step, including a cut after any write and other candidates' starts, keeps claims, sessions and acceptances accounted for |
| ScreeningTheorems.AllButOneAreAuthorized | services/platform/cmd/api/screening_adapter.go:160-175 | of any two sessions of a candidate on a campaign at least one has a claimed authorization naming it |
| ScreeningTheorems.OneAuthorizationEach | services/platform/internal/recruiting/reinvitation_store.go:75-97 | no session is named by two authorizations |
| ScreeningTheorems.SessionsAreBounded | services/platform/cmd/api/screening_adapter.go:160-175 | in every run a candidate has at most one session more than the steps in which recruiters authorized another |
| ScreeningTheorems.EverySessionWasConsentedTo | services/platform/cmd/api/screening_adapter.go:177-210 | each session is preceded by an acceptance of its own disclosure version by its candidate on its campaign |
| ScreeningTheorems.EverySessionWasAskedFor | services/platform/cmd/api/screening_adapter.go:143-210 | each session was asked for under its identity by its own candidate, for its campaign and with the disclosure it bears, which was in order; and that candidate was invited there |
| ScreeningAdapter.UndisturbedStart | services/platform/cmd/api/screening_adapter.go:143-230 | the steps of a start add up, within eight, to the outcome described |
| ScreeningAdapter.StartsExactlyWhen | services/platform/cmd/api/screening_adapter.go:144-185 | a start succeeds exactly when invited, open, with an acceptance in order, and first or re-invited |
| ScreeningAdapter.StartComesTo | services/platform/cmd/api/screening_adapter.go:143-218 | every outcome of a start: the reasons in their order, which authorization is bound to the session, and the very entries and session written |
| ScreeningRuns.AStartAloneComesToItsOutcome | services/platform/cmd/api/screening_adapter.go:143-230 | from any state of the system a start that nothing disturbs ends within eight steps of the protocol, in exactly that outcome |
| ScreeningAdapter.AcceptableExactlyWhen | services/platform/internal/recruiting/disclosure.go:166-179 | an acceptance names a disclosure version, a campaign and a candidate, and a digest of "sha256:" and 64 lower-case hexadecimal digits |
| ScreeningAdapter.ClaimIsSpentInVainExactlyWhen | services/platform/cmd/api/screening_adapter.go:169-186 | an undisturbed start uses up an authorization without a session exactly when only its acceptance is refused |
| ScreeningAdapter.Adapter.ClaimReInvitation | services/platform/internal/recruiting/reinvitation_store.go:78-97 | binds the oldest unclaimed authorization of that candidate and campaign, and nothing when there is none |
| ScreeningAdapter.Adapter.Compose | services/platform/cmd/api/screening_adapter.go:177-218 | acceptance, creation and transition in that order, cut off wherever a call is not answered |
| ScreeningAdapter.Adapter.StartScreeningSession | services/platform/cmd/api/screening_adapter.go:143-230 | takes the protocol's steps up to the first unanswered call, and the whole outcome when all are answered |
| ScreeningAdapter.PhaseFallsBackExactlyWhen | services/platform/cmd/api/screening_adapter.go:335-347 | along the lifecycle a candidate's phase falls back only when a failed composition is composed again |
| ScreeningAdapter.PhaseIsOf | services/platform/cmd/api/screening_adapter.go:335-347 | which phase each state is told as |

## Left out

- Reading YAML and JSON: documents, catalogues, streams and payloads start parsed. How a
  value prints is a field of the value, and an undecodable stream or payload is a case of
  its own.
- Which characters the quoting verb treats as printable is a parameter of the gates.
- Nested schemas, `additionalProperties` and newly added response enum values: the gate
  does not read them, and the meaning it is proved against speaks of top-level declared
  properties only.
- Identifiers.GoIdentifier: names are sequences of bytes, and only ASCII letters are
  raised, because a segment is cut after its first byte.
- The text of the generated Go and TypeScript.
- The printed vulnerability report, and the text of each remedy: an outcome and an
  enumeration stand for them.
- Versions.Lower: a version is its text with the precedence it parses to; the parsing is
  golang.org/x/mod/semver's and is not part of this model.
- HTTP handlers, authorization middleware, tenant and owner scoping of the interview,
  evaluation and recruiting stores, and audit rows.
- The extraction and recording routes of the worker, and what the started workflows do:
  their moves of a session are any moves along the lifecycle.
- How often and when the outbox retries, and dead letters: any number of deliveries, at
  any time, overlapping or not.
- WorkerStores.Append: a history row keeps the evaluation, the competency and the band;
  its other columns are copied alike and decide nothing.
- ArtifactRegistry.Perform: the rule that nobody publishes their own draft, the schema
  version column and the recomputation of a digest on reading are not modelled; a digest
  is taken to be of one body.
- Composer.ResolvePins: the registry reads of one composition happen at one moment, as do
  those of one opening; failures of a store other than not finding are not modelled.
- PinStability.Brief: only the plan; the persona and role fields are lookups in the
  catalogue. A session that is absent, hidden or not yet composed gets one refusal.
- HttpRequests.RequestsKeptExactlyWhenNothingGained: an enum is compared by printed form, as
  the gate does, so a listed value is taken to be any value that prints alike; and the old
  body schema's own references are taken to resolve.
- SessionBundles.Bundled: the recomputation of each body's digest on the
  other side, the bundle's own digest and its schema versions are not modelled.
- ScreeningTheorems.AllButOneAreAuthorized: starts of one candidate are taken one at a
  time; the check for a session and its creation are separate calls, and two overlapping
  first starts are not excluded by this code.
- Consent decisions, accommodations applied after the start, invitation tokens and
  expiry.
- Clocks, deadlines and timeouts, beyond a delivery or a request being cut off anywhere.
